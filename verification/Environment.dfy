/** What the code meets with and cannot foresee. */
module Environment {

  /** Something that may or may not happen each time it is met: a statement fails, the limiter
      refuses, the time is up.  How often it was met and how often it happened is on record. */
  class Hazard {
    ghost var met: nat
    ghost var hits: nat

    constructor ()
      ensures met == hits == 0
    {
      met, hits := 0, 0;
    }

    method Strikes() returns (struck: bool)
      modifies this
      ensures met == old(met) + 1 && hits == old(hits) + if struck then 1 else 0
    {
      struck := *;
      met, hits := met + 1, hits + if struck then 1 else 0;
    }

    /** It certainly happens. */
    method Strike()
      modifies this
      ensures met == old(met) + 1 && hits == old(hits) + 1
    {
      met, hits := met + 1, hits + 1;
    }
  }

  /** The HTTP client: what was posted, and whether the receiver accepted it. */
  class Client<Message> {
    ghost var posts: seq<(Message, bool)>

    constructor ()
      ensures posts == []
    {
      posts := [];
    }

    method Post(message: Message) returns (accepted: bool)
      modifies this
      ensures posts == old(posts) + [(message, accepted)]
    {
      accepted := *;
      posts := posts + [(message, accepted)];
    }
  }
}
