/** The protocol does not get stuck: once a worker holds both tickets of a pair nothing can make
    it wait or miss, and a free pair can be matched in nine statements. */
module Progress {
  import opened Sql
  import opened Pairing
  import opened Schema
  import opened Protocol
  import opened Invariant
  import opened Refinement
  import Atomic
  import ProtocolTheorems

  /** The next statement of `create_match_from_pair` after both reservations. */
  function NextStatement(pc: Pc, m: MatchId, e: EventId): WorkerLabel {
    match pc
    case HaveBoth(_, _) => InsertMatch(m)
    case Inside(_, _, _, done) =>
      if done == 0 || done == 2 then InsertPlayer else if done == 1 || done == 3 then MarkMatched else InsertEvent(e)
    case _ => Rollback
  }

  /** How many statements are left before the commit. */
  function Left(pc: Pc): int {
    match pc
    case HaveBoth(_, _) => 6
    case Inside(_, _, _, done) => 5 - done
    case _ => 0
  }

  predicate Committing(pc: Pc) {
    pc.HaveBoth? || pc.Inside? || pc.Built?
  }

  lemma NotLockedElsewhere(s: State, sid: SessionId, id: TicketId)
    requires WorkersOk(s) && sid in s.workers && id in s.workers[sid].locked
    ensures !LockedElsewhere(s, sid, id)
  {
    forall o | o in s.workers && o != sid ensures id !in s.workers[o].locked {
      assert WorkersApart(s.workers[sid], s.workers[o]);
    }
  }

  /** Ids generated for the rows still to be inserted are unused. */
  predicate Fresh(s: State, pc: Pc, m: MatchId, e: EventId) {
    (pc.HaveBoth? ==> FreshMatch(s, m)) && (!pc.Built? ==> FreshEvent(s, e))
  }

  lemma NextRuns(s: State, sid: SessionId, m: MatchId, e: EventId)
    requires sid in s.workers && WritesOk(s.db, s.workers[sid]) && Fresh(s, s.workers[sid].pc, m, e)
    requires s.workers[sid].pc.HaveBoth? || s.workers[sid].pc.Inside?
    requires !LockedElsewhere(s, sid, s.workers[sid].pc.f.ticketId)
             && !LockedElsewhere(s, sid, s.workers[sid].pc.s.ticketId)
    ensures var pc, next := s.workers[sid].pc, Execute(s, sid, NextStatement(s.workers[sid].pc, m, e));
            && next.Some? && Committing(next.value.pc) && Left(next.value.pc) == Left(pc) - 1
            && next.value.pc.f == pc.f && next.value.pc.s == pc.s
            && (!next.value.pc.Built? ==> next.value.own.events == s.workers[sid].own.events)
  {
  }

  /** With both rows locked, every remaining statement runs at once, whatever the others do. */
  lemma NeverWaitsAgain(cfg: Config, s: State, sid: SessionId, m: MatchId, e: EventId)
    requires Inv(cfg, s) && sid in s.workers && Fresh(s, s.workers[sid].pc, m, e)
    requires s.workers[sid].pc.HaveBoth? || s.workers[sid].pc.Inside?
    ensures var pc, next := s.workers[sid].pc, Execute(s, sid, NextStatement(s.workers[sid].pc, m, e));
            && next.Some? && Committing(next.value.pc) && Left(next.value.pc) == Left(pc) - 1
            && next.value.pc.f == pc.f && next.value.pc.s == pc.s
            && (!next.value.pc.Built? ==> next.value.own.events == s.workers[sid].own.events)
  {
    var w := s.workers[sid];
    assert WorkerOk(s.db, w);
    NotLockedElsewhere(s, sid, w.pc.f.ticketId);
    NotLockedElsewhere(s, sid, w.pc.s.ticketId);
    NextRuns(s, sid, m, e);
  }

  lemma EventStaysFresh(s: State, sid: SessionId, l: WorkerLabel, e: EventId)
    requires sid in s.workers && FreshEvent(s, e) && Execute(s, sid, l).Some?
    requires Execute(s, sid, l).value.own.events == s.workers[sid].own.events
    ensures FreshEvent(AfterStatement(s, sid, l), e)
  {
  }

  lemma Prepend(cfg: Config, s: State, l: Label, states: seq<State>, labels: seq<Label>)
    requires Run(cfg, states, labels) && Next(cfg, s, l, states[0])
    ensures Run(cfg, [s] + states, [l] + labels)
  {
    forall i | 0 <= i <= |labels| ensures StepAt(cfg, [s] + states, [l] + labels, i) {
      assert i > 0 ==> StepAt(cfg, states, labels, i - 1);
    }
  }

  ghost predicate Matched(db: Db, f: TicketId, g: TicketId) {
    exists n :: n in db.matches && PlaysIn(db, n, f) && PlaysIn(db, n, g)
  }

  /** From `s` to `s'` worker `sid` alone has acted, and on no tickets but `f` and `g`. */
  ghost predicate Rest(s: State, s': State, sid: SessionId, f: TicketId, g: TicketId) {
    && sid in s.workers && s'.workers.Keys == s.workers.Keys && s'.requests == s.requests
    && s'.workers[sid].fetched == s.workers[sid].fetched
    && (forall o :: o in s.workers && o != sid ==> s'.workers[o] == s.workers[o])
    && (forall id :: id in s.db.tickets && id != f && id != g ==>
          id in s'.db.tickets && s'.db.tickets[id] == s.db.tickets[id])
  }

  lemma RestThen(s: State, s': State, s'': State, sid: SessionId, f: TicketId, g: TicketId)
    requires Rest(s, s', sid, f, g) && Rest(s', s'', sid, f, g)
    ensures Rest(s, s'', sid, f, g)
  {
  }

  lemma StatementRest(s: State, sid: SessionId, l: WorkerLabel, f: TicketId, g: TicketId)
    requires sid in s.workers && !l.Fetch? && Execute(s, sid, l).Some?
    ensures Rest(s, AfterStatement(s, sid, l), sid, f, g)
  {
  }

  lemma CommitRest(cfg: Config, s: State, sid: SessionId)
    requires Inv(cfg, s) && sid in s.workers && s.workers[sid].pc.Built?
    ensures Rest(s, AfterWorkerCommit(s, sid), sid, s.workers[sid].pc.f.ticketId, s.workers[sid].pc.s.ticketId)
  {
    assert WorkerOk(s.db, s.workers[sid]);
    MergeRest(s, sid);
  }

  lemma MergeRest(s: State, sid: SessionId)
    requires sid in s.workers && s.workers[sid].pc.Built?
    requires s.workers[sid].own.tickets.Keys == {s.workers[sid].pc.f.ticketId, s.workers[sid].pc.s.ticketId}
    ensures Rest(s, AfterWorkerCommit(s, sid), sid, s.workers[sid].pc.f.ticketId, s.workers[sid].pc.s.ticketId)
  {
  }

  predicate OwnStep(l: Label, sid: SessionId) {
    (l.WorkerStep? || l.WorkerCommit?) && l.sid == sid
  }

  lemma CommitMatches(cfg: Config, s: State, sid: SessionId)
    requires Inv(cfg, s) && sid in s.workers && s.workers[sid].pc.Built?
    ensures Matched(AfterWorkerCommit(s, sid).db, s.workers[sid].pc.f.ticketId, s.workers[sid].pc.s.ticketId)
  {
    var w := s.workers[sid];
    assert WorkerOk(s.db, w);
    assert Agrees(s.db, w.pc.f) && Agrees(s.db, w.pc.s);
    CommitIsMatch(cfg, s, sid);
    PairIsMatched(cfg, s.db, w.pc.f.ticketId, w.pc.s.ticketId, w.pc.m, w.pc.e);
  }

  lemma PairIsMatched(cfg: Config, db: Db, f: TicketId, g: TicketId, m: MatchId, e: EventId)
    requires DbOk(cfg, db) && Atomic.CanMatch(db, f, g, m, e)
    ensures Matched(Atomic.MatchedPair(db, f, g, m, e), f, g)
  {
    assert TicketOk(cfg, db, f) && TicketOk(cfg, db, g);
    assert PlaysIn(Atomic.MatchedPair(db, f, g, m, e), m, f);
  }

  /** A run of worker `sid` alone that ends with the two tickets matched and everything else as it
      was. */
  ghost predicate Succeeds(cfg: Config, s: State, sid: SessionId, f: TicketId, g: TicketId,
                           states: seq<State>, labels: seq<Label>)
  {
    && Run(cfg, states, labels) && states[0] == s
    && (forall l :: l in labels ==> OwnStep(l, sid))
    && Rest(s, states[|labels|], sid, f, g) && states[|labels|].workers[sid].pc.Idle?
    && Matched(states[|labels|].db, f, g)
  }

  lemma SucceedsNow(cfg: Config, s: State, sid: SessionId)
    requires Inv(cfg, s) && sid in s.workers && s.workers[sid].pc.Built?
    ensures Succeeds(cfg, s, sid, s.workers[sid].pc.f.ticketId, s.workers[sid].pc.s.ticketId,
                     [s, AfterWorkerCommit(s, sid)], [WorkerCommit(sid)])
  {
    CommitMatches(cfg, s, sid);
    CommitRest(cfg, s, sid);
    assert StepAt(cfg, [s, AfterWorkerCommit(s, sid)], [WorkerCommit(sid)], 0);
  }

  lemma SucceedsLater(cfg: Config, s: State, sid: SessionId, l: WorkerLabel, f: TicketId, g: TicketId,
                      states: seq<State>, labels: seq<Label>)
    requires sid in s.workers && !l.Fetch? && Execute(s, sid, l).Some?
    requires Succeeds(cfg, AfterStatement(s, sid, l), sid, f, g, states, labels)
    ensures Succeeds(cfg, s, sid, f, g, [s] + states, [WorkerStep(sid, l)] + labels)
  {
    StatementRest(s, sid, l, f, g);
    RestThen(s, AfterStatement(s, sid, l), states[|labels|], sid, f, g);
    Prepend(cfg, s, WorkerStep(sid, l), states, labels);
  }

  /** A worker that has both tickets can go on to its commit, on its own. */
  lemma {:induction false} Finishes(cfg: Config, s: State, sid: SessionId, m: MatchId, e: EventId)
    returns (states: seq<State>, labels: seq<Label>)
    requires Inv(cfg, s) && sid in s.workers && Committing(s.workers[sid].pc)
    requires Fresh(s, s.workers[sid].pc, m, e)
    ensures |labels| == Left(s.workers[sid].pc) + 1
    ensures Succeeds(cfg, s, sid, s.workers[sid].pc.f.ticketId, s.workers[sid].pc.s.ticketId, states, labels)
    decreases Left(s.workers[sid].pc)
  {
    if s.workers[sid].pc.Built? {
      states, labels := [s, AfterWorkerCommit(s, sid)], [WorkerCommit(sid)];
      SucceedsNow(cfg, s, sid);
    } else {
      var l := Advance(cfg, s, sid, m, e);
      states, labels := Finishes(cfg, AfterStatement(s, sid, l), sid, m, e);
      SucceedsLater(cfg, s, sid, l, s.workers[sid].pc.f.ticketId, s.workers[sid].pc.s.ticketId, states, labels);
      states, labels := [s] + states, [WorkerStep(sid, l)] + labels;
    }
  }

  lemma Advance(cfg: Config, s: State, sid: SessionId, m: MatchId, e: EventId) returns (l: WorkerLabel)
    requires Inv(cfg, s) && sid in s.workers && Fresh(s, s.workers[sid].pc, m, e)
    requires s.workers[sid].pc.HaveBoth? || s.workers[sid].pc.Inside?
    ensures !l.Fetch? && Execute(s, sid, l).Some? && Inv(cfg, AfterStatement(s, sid, l))
    ensures var pc, after := s.workers[sid].pc, Execute(s, sid, l).value.pc;
            && Committing(after) && Left(after) == Left(pc) - 1 && after.f == pc.f && after.s == pc.s
            && Fresh(AfterStatement(s, sid, l), after, m, e)
  {
    l := NextStatement(s.workers[sid].pc, m, e);
    NeverWaitsAgain(cfg, s, sid, m, e);
    NextKeeps(cfg, s, WorkerStep(sid, l), AfterStatement(s, sid, l));
    if !Execute(s, sid, l).value.pc.Built? {
      EventStaysFresh(s, sid, l, e);
    }
  }

  /** The pair may be taken: both tickets are waiting, unlocked, and in one queue. */
  ghost predicate Available(s: State, sid: SessionId, a: WaitingTicket, b: WaitingTicket) {
    && sid in s.workers && s.workers[sid].pc.Idle? && PairOk(s.workers[sid], a, b)
    && a.ticketId in s.db.tickets && s.db.tickets[a.ticketId].status.Waiting? && !Locked(s, a.ticketId)
    && b.ticketId in s.db.tickets && s.db.tickets[b.ticketId].status.Waiting? && !Locked(s, b.ticketId)
  }

  lemma ReservesBoth(cfg: Config, s: State, sid: SessionId, a: WaitingTicket, b: WaitingTicket, until: int)
    requires Inv(cfg, s) && Available(s, sid, a, b)
    ensures Execute(s, sid, ReserveFirst(a, b, until)).Some?
    ensures var mid := AfterStatement(s, sid, ReserveFirst(a, b, until));
            && Execute(mid, sid, ReserveSecond(until)).Some?
            && Execute(mid, sid, ReserveSecond(until)).value.pc == HaveBoth(a, b)
            && Execute(mid, sid, ReserveSecond(until)).value.own.matches == map[]
            && Execute(mid, sid, ReserveSecond(until)).value.own.events == map[]
  {
    assert WorkerOk(s.db, s.workers[sid]);
  }

  /** Any free pair of a queue can be matched, by nine statements of one worker. */
  lemma FreePairCanBeMatched(cfg: Config, s: State, sid: SessionId, a: WaitingTicket, b: WaitingTicket,
                             m: MatchId, e: EventId)
    returns (states: seq<State>, labels: seq<Label>)
    requires Inv(cfg, s) && Available(s, sid, a, b) && FreshMatch(s, m) && FreshEvent(s, e)
    ensures |labels| == 9 && Succeeds(cfg, s, sid, a.ticketId, b.ticketId, states, labels)
  {
    ReservesBoth(cfg, s, sid, a, b, 0);
    var first, second := ReserveFirst(a, b, 0), ReserveSecond(0);
    var mid := AfterStatement(s, sid, first);
    NextKeeps(cfg, s, WorkerStep(sid, first), mid);
    var both := AfterStatement(mid, sid, second);
    NextKeeps(cfg, mid, WorkerStep(sid, second), both);
    states, labels := Finishes(cfg, both, sid, m, e);
    SucceedsLater(cfg, mid, sid, second, a.ticketId, b.ticketId, states, labels);
    states, labels := [mid] + states, [WorkerStep(sid, second)] + labels;
    SucceedsLater(cfg, s, sid, first, a.ticketId, b.ticketId, states, labels);
    states, labels := [s] + states, [WorkerStep(sid, first)] + labels;
  }

  // ----- A whole loop -----

  type Pairs = seq<(WaitingTicket, WaitingTicket)>

  ghost predicate AllAvailable(s: State, sid: SessionId, pairs: Pairs) {
    forall k {:trigger Available(s, sid, pairs[k].0, pairs[k].1)} ::
      0 <= k < |pairs| ==> Available(s, sid, pairs[k].0, pairs[k].1)
  }

  /** No ticket is in two pairs. */
  ghost predicate Disjoint(pairs: Pairs) {
    forall k, l :: 0 <= k < l < |pairs| ==>
      {pairs[k].0.ticketId, pairs[k].1.ticketId} !! {pairs[l].0.ticketId, pairs[l].1.ticketId}
  }

  ghost predicate AllMatched(db: Db, pairs: Pairs) {
    forall k {:trigger Matched(db, pairs[k].0.ticketId, pairs[k].1.ticketId)} ::
      0 <= k < |pairs| ==> Matched(db, pairs[k].0.ticketId, pairs[k].1.ticketId)
  }

  lemma MoreThan(used: set<nat>) returns (n: nat)
    ensures forall x :: x in used ==> x < n
  {
    if used == {} {
      n := 0;
    } else {
      var x := SomeElement(used);
      var below := MoreThan(used - {x});
      n := if x < below then below else x + 1;
      assert used == (used - {x}) + {x};
    }
  }

  lemma FreshIds(s: State) returns (m: MatchId, e: EventId)
    ensures FreshMatch(s, m) && FreshEvent(s, e)
  {
    var matches := s.db.matches.Keys + set o, x | o in s.workers && x in s.workers[o].own.matches :: x;
    var events := s.db.events.Keys + set o, x | o in s.workers && x in s.workers[o].own.events :: x;
    m := MoreThan(matches);
    e := MoreThan(events);
    assert m !in matches && e !in events;
  }

  /** A pair of other tickets stays available. */
  lemma StaysAvailable(cfg: Config, s: State, s': State, sid: SessionId, f: TicketId, g: TicketId,
                       a: WaitingTicket, b: WaitingTicket)
    requires Inv(cfg, s') && Rest(s, s', sid, f, g) && s'.workers[sid].pc.Idle? && Available(s, sid, a, b)
    requires {f, g} !! {a.ticketId, b.ticketId}
    ensures Available(s', sid, a, b)
  {
    assert WorkerOk(s'.db, s'.workers[sid]);
    assert a.ticketId !in {f, g} && b.ticketId !in {f, g};
  }

  lemma {:induction false} RunKeeps(cfg: Config, states: seq<State>, labels: seq<Label>, i: nat)
    requires Run(cfg, states, labels) && Inv(cfg, states[0]) && i < |states|
    ensures Inv(cfg, states[i]) && Atomic.Evolves(states[0].db, states[i].db)
  {
    if i > 0 {
      RunKeeps(cfg, states, labels, i - 1);
      assert StepAt(cfg, states, labels, i - 1);
      NextKeeps(cfg, states[i - 1], labels[i - 1], states[i]);
      ProtocolTheorems.StepEvolves(cfg, states[i - 1], labels[i - 1], states[i]);
    }
  }

  lemma StaysMatched(cfg: Config, s: State, s': State, f: TicketId, g: TicketId)
    requires Inv(cfg, s) && Inv(cfg, s') && Atomic.Evolves(s.db, s'.db) && Matched(s.db, f, g)
    ensures Matched(s'.db, f, g)
  {
    var n :| n in s.db.matches && PlaysIn(s.db, n, f) && PlaysIn(s.db, n, g);
    ProtocolTheorems.PlaysIfMatched(cfg, s', n, f);
    ProtocolTheorems.PlaysIfMatched(cfg, s', n, g);
    var a, b, e := ProtocolTheorems.MatchIsWhole(cfg, s', n);
    assert f in ProtocolTheorems.PlayersOf(s'.db, n) && g in ProtocolTheorems.PlayersOf(s'.db, n);
    assert PlaysIn(s'.db, n, f) && PlaysIn(s'.db, n, g);
  }

  lemma Joins(cfg: Config, states: seq<State>, labels: seq<Label>, states': seq<State>, labels': seq<Label>)
    requires Run(cfg, states, labels) && Run(cfg, states', labels') && states'[0] == states[|labels|]
    ensures Run(cfg, states + states'[1..], labels + labels')
  {
    var all, steps := states + states'[1..], labels + labels';
    forall i | 0 <= i < |steps| ensures StepAt(cfg, all, steps, i) {
      if i < |labels| {
        assert StepAt(cfg, states, labels, i);
      } else {
        assert StepAt(cfg, states', labels', i - |labels|);
      }
    }
  }

  /** A run of worker `sid` alone, nine statements a pair, that ends with every pair matched. */
  ghost predicate CommitsAll(cfg: Config, s: State, sid: SessionId, pairs: Pairs, states: seq<State>,
                             labels: seq<Label>)
  {
    && Run(cfg, states, labels) && states[0] == s && |labels| == 9 * |pairs|
    && (forall l :: l in labels ==> OwnStep(l, sid))
    && AllMatched(states[|labels|].db, pairs)
  }

  lemma OthersStayAvailable(cfg: Config, s: State, s': State, sid: SessionId, pairs: Pairs)
    requires pairs != [] && AllAvailable(s, sid, pairs) && Disjoint(pairs)
    requires Inv(cfg, s') && Rest(s, s', sid, pairs[0].0.ticketId, pairs[0].1.ticketId) && s'.workers[sid].pc.Idle?
    ensures AllAvailable(s', sid, pairs[1..]) && Disjoint(pairs[1..])
  {
    var rest := pairs[1..];
    forall k | 0 <= k < |rest| ensures Available(s', sid, rest[k].0, rest[k].1) {
      assert Available(s, sid, pairs[k + 1].0, pairs[k + 1].1);
      StaysAvailable(cfg, s, s', sid, pairs[0].0.ticketId, pairs[0].1.ticketId, rest[k].0, rest[k].1);
    }
  }

  lemma FirstThenRest(cfg: Config, s: State, sid: SessionId, pairs: Pairs, one: seq<State>, steps: seq<Label>,
                      others: seq<State>, more: seq<Label>)
    requires Inv(cfg, s) && pairs != [] && |steps| == 9
    requires Succeeds(cfg, s, sid, pairs[0].0.ticketId, pairs[0].1.ticketId, one, steps)
    requires CommitsAll(cfg, one[9], sid, pairs[1..], others, more)
    ensures CommitsAll(cfg, s, sid, pairs, one + others[1..], steps + more)
  {
    RunKeeps(cfg, one, steps, 9);
    RunKeeps(cfg, others, more, |more|);
    StaysMatched(cfg, one[9], others[|more|], pairs[0].0.ticketId, pairs[0].1.ticketId);
    AllOfThem(others[|more|].db, pairs);
    Joins(cfg, one, steps, others, more);
    var states, labels := one + others[1..], steps + more;
    assert states[|labels|] == others[|more|];
  }

  /** Left alone, the pair loop commits every pair it is given: disjoint pairs of waiting tickets
      that nobody has locked become matches, one after the other. */
  lemma {:induction false} LoopCanCommitAll(cfg: Config, s: State, sid: SessionId, pairs: Pairs)
    returns (states: seq<State>, labels: seq<Label>)
    requires Inv(cfg, s) && sid in s.workers && s.workers[sid].pc.Idle?
    requires AllAvailable(s, sid, pairs) && Disjoint(pairs)
    ensures CommitsAll(cfg, s, sid, pairs, states, labels)
    decreases |pairs|
  {
    if pairs == [] {
      states, labels := [s], [];
    } else {
      var m, e := FreshIds(s);
      assert Available(s, sid, pairs[0].0, pairs[0].1);
      var one, steps := FreePairCanBeMatched(cfg, s, sid, pairs[0].0, pairs[0].1, m, e);
      RunKeeps(cfg, one, steps, 9);
      OthersStayAvailable(cfg, s, one[9], sid, pairs);
      var others, more := LoopCanCommitAll(cfg, one[9], sid, pairs[1..]);
      FirstThenRest(cfg, s, sid, pairs, one, steps, others, more);
      states, labels := one + others[1..], steps + more;
    }
  }

  lemma AllOfThem(db: Db, pairs: Pairs)
    requires pairs != [] && Matched(db, pairs[0].0.ticketId, pairs[0].1.ticketId) && AllMatched(db, pairs[1..])
    ensures AllMatched(db, pairs)
  {
    var rest := pairs[1..];
    forall k | 0 <= k < |pairs| ensures Matched(db, pairs[k].0.ticketId, pairs[k].1.ticketId) {
      if k > 0 {
        assert Matched(db, rest[k - 1].0.ticketId, rest[k - 1].1.ticketId);
      }
    }
  }
}
