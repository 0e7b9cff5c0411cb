/** The guarantees of the protocol, over every interleaving of any number of workers, requests,
    cancellations, cleanups and dispatchers, with rollbacks and crashes anywhere. */
module ProtocolTheorems {
  import opened Sql
  import opened Pairing
  import opened Schema
  import opened Protocol
  import opened Invariant
  import opened Atomic
  import opened Refinement

  ghost predicate RunFromStart(cfg: Config, states: seq<State>, labels: seq<Label>) {
    Run(cfg, states, labels) && states[0] == Init
  }

  lemma {:induction false} ReachableIsOk(cfg: Config, states: seq<State>, labels: seq<Label>, i: nat)
    requires RunFromStart(cfg, states, labels) && i < |states|
    ensures Inv(cfg, states[i])
  {
    if i > 0 {
      ReachableIsOk(cfg, states, labels, i - 1);
      assert StepAt(cfg, states, labels, i - 1);
      NextKeeps(cfg, states[i - 1], labels[i - 1], states[i]);
    }
  }

  /** The state occurs in some run from the empty database. */
  ghost predicate Reachable(cfg: Config, s: State) {
    exists states, labels, i: nat {:trigger RunTo(cfg, states, labels, i, s)} :: RunTo(cfg, states, labels, i, s)
  }

  ghost predicate RunTo(cfg: Config, states: seq<State>, labels: seq<Label>, i: nat, s: State) {
    RunFromStart(cfg, states, labels) && i < |states| && states[i] == s
  }

  lemma ReachableHolds(cfg: Config, s: State)
    requires Reachable(cfg, s)
    ensures Inv(cfg, s)
  {
    var states, labels, i: nat :| RunTo(cfg, states, labels, i, s);
    ReachableIsOk(cfg, states, labels, i);
  }

  lemma Prefix(cfg: Config, states: seq<State>, labels: seq<Label>, n: nat)
    requires RunFromStart(cfg, states, labels) && n <= |labels|
    ensures RunFromStart(cfg, states[..n + 1], labels[..n])
  {
    var first, steps := states[..n + 1], labels[..n];
    forall i | 0 <= i < n ensures StepAt(cfg, first, steps, i) {
      assert StepAt(cfg, states, labels, i);
    }
  }

  lemma Extend(cfg: Config, states: seq<State>, labels: seq<Label>, l: Label, s: State)
    requires RunFromStart(cfg, states, labels) && Next(cfg, states[|labels|], l, s)
    ensures RunFromStart(cfg, states + [s], labels + [l])
  {
    forall i | 0 <= i <= |labels| ensures StepAt(cfg, states + [s], labels + [l], i) {
      assert i < |labels| ==> StepAt(cfg, states, labels, i);
    }
  }

  // ----- Refinement -----

  /** The one atomic action a step performs on the committed database, if any. */
  function ActionOf(s: State, l: Label): Option<Action> {
    match l
    case WorkerCommit(sid) =>
      if sid in s.workers && s.workers[sid].pc.Built?
      then
        var pc := s.workers[sid].pc;
        Some(MatchPair(pc.f.ticketId, pc.s.ticketId, pc.m, pc.e))
      else None
    case RequestCommit(rid) =>
      if rid in s.requests && CanCommit(s.requests[rid])
      then
        var r := s.requests[rid];
        Some(CreateTicket(r.phase.ticketId, r.tenantId, r.key, r.body, r.phase.ticket.createdAt))
      else None
    case Cancel(id, tenantId) =>
      if id in s.db.tickets && CancelRow(s.db.tickets[id], tenantId).Some?
      then Some(CancelTicket(id, tenantId)) else None
    case Dispatch(_) => Some(Deliver)
    case _ => None
  }

  /** Every commit is exactly one atomic action; every other step, and every abort or crash
      among them, leaves the committed database as it was. */
  lemma StepRefines(cfg: Config, s: State, l: Label, s': State)
    requires Inv(cfg, s) && Next(cfg, s, l, s')
    ensures match ActionOf(s, l) case None => s'.db == s.db case Some(a) => AtomicStep(cfg, s.db, a, s'.db)
  {
    match l
    case WorkerCommit(sid) =>
      assert WorkerOk(s.db, s.workers[sid]);
      CommitIsMatch(cfg, s, sid);
    case RequestCommit(rid) =>
      assert RequestOk(cfg, s.db, s.requests[rid]);
      CommitIsCreate(cfg, s, rid);
    case Cancel(id, tenantId) =>
      if s' != s {
        CancelIsAtomic(cfg, s, id, tenantId, s');
      } else if id in s.db.tickets {
        assert TicketOk(cfg, s.db, id);
      }
    case Cleanup(now) => CleanupFindsNothing(cfg, s.db, now);
    case _ =>
  }

  /** A run of the atomic system, `None` standing for a stutter. */
  ghost predicate AtomicRun(cfg: Config, dbs: seq<Db>, actions: seq<Option<Action>>) {
    && |dbs| == |actions| + 1 && dbs[0] == EmptyDb
    && forall i :: 0 <= i < |actions| ==>
         match actions[i] case None => dbs[i + 1] == dbs[i] case Some(a) => AtomicStep(cfg, dbs[i], a, dbs[i + 1])
  }

  /** Every run of the protocol, seen through its committed database, is a run of the atomic
      system: statement-level interleaving adds nothing. */
  lemma RunRefines(cfg: Config, states: seq<State>, labels: seq<Label>)
    requires RunFromStart(cfg, states, labels)
    ensures AtomicRun(cfg, seq(|states|, i requires 0 <= i < |states| => states[i].db),
                           seq(|labels|, i requires 0 <= i < |labels| && |states| == |labels| + 1 =>
                                 ActionOf(states[i], labels[i])))
  {
    forall i | 0 <= i < |labels|
      ensures match ActionOf(states[i], labels[i])
              case None => states[i + 1].db == states[i].db
              case Some(a) => AtomicStep(cfg, states[i].db, a, states[i + 1].db)
    {
      ReachableIsOk(cfg, states, labels, i);
      assert StepAt(cfg, states, labels, i);
      StepRefines(cfg, states[i], labels[i], states[i + 1]);
    }
  }

  lemma StepEvolves(cfg: Config, s: State, l: Label, s': State)
    requires Inv(cfg, s) && Next(cfg, s, l, s')
    ensures Evolves(s.db, s'.db)
  {
    StepRefines(cfg, s, l, s');
    if ActionOf(s, l).Some? {
      AtomicEvolves(cfg, s.db, ActionOf(s, l).value, s'.db);
    }
  }

  /** Ticket identity, matched and cancelled tickets, and stored key rows never change. */
  lemma {:induction false} History(cfg: Config, states: seq<State>, labels: seq<Label>, i: nat, j: nat)
    requires RunFromStart(cfg, states, labels) && i <= j < |states|
    ensures Evolves(states[i].db, states[j].db)
    decreases j
  {
    if i < j {
      History(cfg, states, labels, i, j - 1);
      ReachableIsOk(cfg, states, labels, j - 1);
      assert StepAt(cfg, states, labels, j - 1);
      StepEvolves(cfg, states[j - 1], labels[j - 1], states[j]);
    }
  }

  // ----- Matches -----

  /** A ticket plays in match `m` exactly when it is matched to it. */
  lemma PlaysIfMatched(cfg: Config, s: State, m: MatchId, id: TicketId)
    requires Inv(cfg, s)
    ensures (m, id) in s.db.players <==>
            id in s.db.tickets && s.db.tickets[id].status.Matched? && s.db.tickets[id].matchId == Some(m)
  {
    if id in s.db.tickets {
      assert TicketOk(cfg, s.db, id);
    }
    if (m, id) in s.db.players {
      assert Complete(s.db, m);
    }
  }

  /** In every reachable state a ticket plays in match `m` exactly when it is matched to it. */
  lemma MatchedOnce(cfg: Config, s: State, m: MatchId, id: TicketId)
    requires Reachable(cfg, s)
    ensures (m, id) in s.db.players <==>
            id in s.db.tickets && s.db.tickets[id].status.Matched? && s.db.tickets[id].matchId == Some(m)
  {
    ReachableHolds(cfg, s);
    PlaysIfMatched(cfg, s, m, id);
  }

  /** The players of a match, as a set of tickets. */
  function PlayersOf(db: Db, m: MatchId): set<TicketId> {
    set p | p in db.players && p.0 == m :: p.1
  }

  /** Every committed match has exactly two players: distinct matched tickets of different
      people, agreeing with the match on tenant, region, queue and partition.  Exactly one
      outbox event names the match, and it names those two players. */
  lemma MatchIsWhole(cfg: Config, s: State, m: MatchId) returns (a: TicketId, b: TicketId, e: EventId)
    requires Inv(cfg, s) && m in s.db.matches
    ensures a != b && PlayersOf(s.db, m) == {a, b} && PlaysIn(s.db, m, a) && PlaysIn(s.db, m, b)
    ensures s.db.tickets[a].playerId != s.db.tickets[b].playerId
    ensures (set o | o in s.db.events && s.db.events[o].matchId == m) == {e}
    ensures s.db.events[e].players == [Player(s.db.tickets[a].playerId, a), Player(s.db.tickets[b].playerId, b)]
  {
    assert Complete(s.db, m);
    a, b, e :| MatchOk(s.db, m, a, b, e);
    assert (m, a) in s.db.players && (m, b) in s.db.players;
  }

  /** So it is in every reachable state. */
  lemma MatchIntegrity(cfg: Config, s: State, m: MatchId) returns (a: TicketId, b: TicketId, e: EventId)
    requires Reachable(cfg, s) && m in s.db.matches
    ensures a != b && PlayersOf(s.db, m) == {a, b} && PlaysIn(s.db, m, a) && PlaysIn(s.db, m, b)
    ensures s.db.tickets[a].playerId != s.db.tickets[b].playerId
    ensures (set o | o in s.db.events && s.db.events[o].matchId == m) == {e}
    ensures s.db.events[e].players == [Player(s.db.tickets[a].playerId, a), Player(s.db.tickets[b].playerId, b)]
  {
    ReachableHolds(cfg, s);
    a, b, e := MatchIsWhole(cfg, s, m);
  }

  /** The UPDATE whose row count nobody checks neither waits nor misses: the worker's own locks
      have kept both rows reserved for it. */
  lemma UncheckedUpdateHits(cfg: Config, s: State, sid: SessionId)
    requires Reachable(cfg, s) && sid in s.workers && s.workers[sid].pc.Inside?
    requires s.workers[sid].pc.done == 1 || s.workers[sid].pc.done == 3
    ensures var w := s.workers[sid];
            var id := if w.pc.done == 1 then w.pc.f.ticketId else w.pc.s.ticketId;
            && Matching(s.db, w, id, w.pc.m).Some?
            && Execute(s, sid, MarkMatched).Some?
            && Execute(s, sid, MarkMatched).value.own.tickets[id].matchId == Some(w.pc.m)
  {
    ReachableHolds(cfg, s);
    var w := s.workers[sid];
    assert WorkerOk(s.db, w);
    forall o | o in s.workers && o != sid ensures w.locked !! s.workers[o].locked {
      assert WorkersApart(w, s.workers[o]);
    }
  }

  // ----- Tickets -----

  /** `reserved` is never committed. */
  lemma NoneReserved(cfg: Config, s: State, id: TicketId)
    requires Inv(cfg, s) && id in s.db.tickets
    ensures !s.db.tickets[id].status.Reserved?
  {
    assert TicketOk(cfg, s.db, id);
  }

  lemma NeverReserved(cfg: Config, s: State, id: TicketId)
    requires Reachable(cfg, s) && id in s.db.tickets
    ensures !s.db.tickets[id].status.Reserved?
  {
    ReachableHolds(cfg, s);
    NoneReserved(cfg, s, id);
  }

  /** The cleanup statement is a no-op in every reachable state, whatever the time. */
  lemma CleanupIsIdle(cfg: Config, s: State, now: int, s': State)
    requires Reachable(cfg, s) && Next(cfg, s, Cleanup(now), s')
    ensures s' == s
  {
    ReachableHolds(cfg, s);
    CleanupFindsNothing(cfg, s.db, now);
  }

  /** A worker that rolls back, or crashes, strands nothing: the committed database stands and
      every ticket it had locked is waiting and free for anyone. */
  lemma CrashStrandsNothing(cfg: Config, s: State, sid: SessionId, s': State, id: TicketId)
    requires Reachable(cfg, s) && Next(cfg, s, WorkerStep(sid, Rollback), s') && id in s.workers[sid].locked
    ensures s'.db == s.db && id in s'.db.tickets && s'.db.tickets[id].status.Waiting? && !Locked(s', id)
  {
    ReachableHolds(cfg, s);
    assert WorkerOk(s.db, s.workers[sid]);
    forall o | o in s'.workers ensures id !in s'.workers[o].locked {
      if o != sid {
        assert WorkersApart(s.workers[sid], s.workers[o]);
      }
    }
  }

  /** A cancel and a match of one ticket never both succeed, in whatever order they come. */
  lemma CancelOrMatch(cfg: Config, states: seq<State>, labels: seq<Label>, i: nat, j: nat, id: TicketId, m: MatchId)
    requires RunFromStart(cfg, states, labels) && i < |states| && j < |states|
    requires id in states[i].db.tickets && states[i].db.tickets[id].status.Cancelled?
    ensures (m, id) !in states[j].db.players
  {
    ReachableIsOk(cfg, states, labels, j);
    PlaysIfMatched(cfg, states[j], m, id);
    if i <= j {
      History(cfg, states, labels, i, j);
    } else {
      History(cfg, states, labels, j, i);
    }
  }

  // ----- Conservation -----

  /** How many worker transactions have committed. */
  function Commits(labels: seq<Label>): nat {
    if labels == [] then 0
    else Commits(labels[..|labels| - 1]) + if labels[|labels| - 1].WorkerCommit? then 1 else 0
  }

  function MatchedTickets(db: Db): set<TicketId> {
    set id | id in db.tickets && db.tickets[id].status.Matched?
  }

  ghost predicate Balanced(db: Db, n: nat) {
    |db.matches| == n && |db.events| == n && |db.players| == 2 * n && |MatchedTickets(db)| == 2 * n
  }

  lemma MatchAddsPlayers(db: Db, f: TicketId, s: TicketId, m: MatchId, e: EventId)
    requires CanMatch(db, f, s, m, e)
    requires forall id :: (m, id) !in db.players
    ensures |MatchedPair(db, f, s, m, e).players| == |db.players| + 2
  {
    var players := MatchedPair(db, f, s, m, e).players;
    assert players.Keys == db.players.Keys + {(m, f), (m, s)};
    TwoMore(db.players.Keys, (m, f), (m, s));
    assert |players| == |players.Keys| && |db.players| == |db.players.Keys|;
  }

  lemma MatchAddsMatched(db: Db, f: TicketId, s: TicketId, m: MatchId, e: EventId)
    requires CanMatch(db, f, s, m, e)
    ensures |MatchedTickets(MatchedPair(db, f, s, m, e))| == |MatchedTickets(db)| + 2
  {
    var tickets := MatchedPair(db, f, s, m, e).tickets;
    assert tickets.Keys == db.tickets.Keys;
    assert MatchedTickets(MatchedPair(db, f, s, m, e)) == MatchedTickets(db) + {f, s};
    TwoMore(MatchedTickets(db), f, s);
  }

  lemma MatchBalances(db: Db, f: TicketId, s: TicketId, m: MatchId, e: EventId, n: nat)
    requires Balanced(db, n) && CanMatch(db, f, s, m, e)
    requires forall id :: (m, id) !in db.players
    ensures Balanced(MatchedPair(db, f, s, m, e), n + 1)
  {
    MatchAddsPlayers(db, f, s, m, e);
    MatchAddsMatched(db, f, s, m, e);
  }

  lemma TwoMore<T>(a: set<T>, x: T, y: T)
    requires x !in a && y !in a && x != y
    ensures |a + {x, y}| == |a| + 2
  {
    assert a + {x, y} == (a + {x}) + {y};
  }

  lemma OthersBalance(cfg: Config, db: Db, a: Action, db': Db, n: nat)
    requires Balanced(db, n) && AtomicStep(cfg, db, a, db') && !a.MatchPair?
    ensures Balanced(db', n)
  {
    assert MatchedTickets(db') == MatchedTickets(db);
    assert |db.matches| == |db.matches.Keys| && |db'.matches| == |db'.matches.Keys|;
    assert |db.events| == |db.events.Keys| && |db'.events| == |db'.events.Keys|;
  }

  /** Each committed worker transaction adds one match, one outbox event, two players and two
      matched tickets; nothing else adds or removes any. */
  lemma {:induction false} Conservation(cfg: Config, states: seq<State>, labels: seq<Label>)
    requires RunFromStart(cfg, states, labels)
    ensures Balanced(states[|labels|].db, Commits(labels))
  {
    if |labels| == 0 {
      assert MatchedTickets(EmptyDb) == {};
    } else {
      var k := |labels| - 1;
      Prefix(cfg, states, labels, k);
      Conservation(cfg, states[..|labels|], labels[..k]);
      ReachableIsOk(cfg, states, labels, k);
      assert StepAt(cfg, states, labels, k);
      var s, l, s' := states[k], labels[k], states[k + 1];
      StepRefines(cfg, s, l, s');
      if l.WorkerCommit? {
        var a := ActionOf(s, l).value;
        MatchBalances(s.db, a.f, a.s, a.m, a.e, Commits(labels[..k]));
      } else if ActionOf(s, l).Some? {
        OthersBalance(cfg, s.db, ActionOf(s, l).value, s'.db, Commits(labels[..k]));
      }
    }
  }

  // ----- Idempotency -----

  /** Two requests that created a ticket under one key are one request. */
  lemma OneTicketPerKey(cfg: Config, s: State, q: RequestId, r: RequestId)
    requires Reachable(cfg, s) && q in s.requests && r in s.requests
    requires s.requests[q].tenantId == s.requests[r].tenantId && s.requests[q].key == s.requests[r].key
             && s.requests[q].key.Some?
    requires s.requests[q].phase.Done? && s.requests[q].phase.response.TicketCreated?
    requires s.requests[r].phase.Done? && s.requests[r].phase.response.TicketCreated?
    ensures q == r
  {
    ReachableHolds(cfg, s);
    assert q != r ==> RequestsApart(s.requests[q], s.requests[r]);
    assert RequestOk(cfg, s.db, s.requests[q]) && RequestOk(cfg, s.db, s.requests[r]);
  }

  /** A committed key row is never the placeholder: it stores the response for a ticket of the
      same tenant that exists, and no other key stores that ticket. */
  lemma StoredKeyIsFinal(cfg: Config, s: State, tenantId: string, key: string)
    requires Reachable(cfg, s) && (tenantId, key) in s.db.keys
    ensures var row := s.db.keys[(tenantId, key)];
            && row.responseStatus == 201 && row.body.Some? && Agrees(s.db, row.body.value)
            && row.body.value.tenantId == tenantId
            && row.requestHash == cfg.requestHash(AskedFor(row.body.value))
            && forall k :: k in s.db.keys && s.db.keys[k].ticketId == Some(row.body.value.ticketId) ==>
                 k == (tenantId, key)
  {
    ReachableHolds(cfg, s);
    assert KeyOk(cfg, s.db, (tenantId, key));
  }

  /** A committed key row is never the placeholder, and a loser of the race finds it: reading
      it back yields a replay of a real ticket or a conflict. */
  lemma LoserReadsFinalRow(cfg: Config, s: State, rid: RequestId)
    requires Reachable(cfg, s) && rid in s.requests && s.requests[rid].phase.LostRace?
    ensures var r := s.requests[rid];
            && r.key.Some? && (r.tenantId, r.key.value) in s.db.keys
            && var row := s.db.keys[(r.tenantId, r.key.value)];
            && row.responseStatus == 201 && row.body.Some? && Agrees(s.db, row.body.value)
            && Handle(cfg, s, rid, ReadStored) ==
               Some(Done(if row.requestHash == cfg.requestHash(r.body) then Replay(row.body) else KeyConflict))
  {
    ReachableHolds(cfg, s);
    var r := s.requests[rid];
    assert RequestOk(cfg, s.db, r);
    assert KeyOk(cfg, s.db, (r.tenantId, r.key.value));
  }

  ghost predicate InjectiveHash(cfg: Config) {
    forall a, b :: cfg.requestHash(a) == cfg.requestHash(b) ==> a == b
  }

  /** A replay, however late, is the stored response for the one ticket of its key: any request
      that created under the key was told the same.  If request hashes do not collide, that
      ticket is also the one this request asked for. */
  lemma ReplayTellsTheTruth(cfg: Config, s: State, rid: RequestId, creator: RequestId)
    requires Reachable(cfg, s) && rid in s.requests
    requires s.requests[rid].phase.Done? && s.requests[rid].phase.response.Replay?
    ensures var stored := s.requests[rid].phase.response.stored;
            && stored.Some? && Agrees(s.db, stored.value)
            && (InjectiveHash(cfg) ==> BodyFor(s.requests[rid], stored.value))
            && (creator in s.requests && s.requests[creator].key == s.requests[rid].key
                && s.requests[creator].tenantId == s.requests[rid].tenantId
                && s.requests[creator].phase.Done? && s.requests[creator].phase.response.TicketCreated? ==>
                s.requests[creator].phase.response.body == stored.value)
  {
    ReachableHolds(cfg, s);
    var r := s.requests[rid];
    assert RequestOk(cfg, s.db, r);
    assert KeyOk(cfg, s.db, (r.tenantId, r.key.value));
    if creator in s.requests {
      assert RequestOk(cfg, s.db, s.requests[creator]);
    }
  }

  /** The request created a ticket, whatever its caller was told. */
  predicate HasCreated(q: Request) {
    q.phase.Done? && q.phase.response.TicketCreated?
  }

  predicate CreatedUnder(q: Request, tenantId: string, key: Option<string>) {
    HasCreated(q) && key.Some? && q.tenantId == tenantId && q.key == key
  }

  /** What a request under the key of `creator`, which created a ticket, is answered. */
  function RetryAnswer(cfg: Config, creator: Request, body: TicketCreate): Response
    requires HasCreated(creator)
  {
    if cfg.requestHash(creator.body) == cfg.requestHash(body)
    then Replay(Some(creator.phase.response.body))
    else KeyConflict
  }

  /** Once a request has created a ticket under a key, the stored row answers every other request
      under that key with that ticket, or with a conflict if it asks for something else. */
  lemma CreatedRow(cfg: Config, s: State, creator: RequestId, retry: Request)
    requires Inv(cfg, s) && creator in s.requests && CreatedUnder(s.requests[creator], retry.tenantId, retry.key)
    ensures (retry.tenantId, retry.key.value) in s.db.keys
    ensures FromStored(cfg, retry, s.db.keys[(retry.tenantId, retry.key.value)]) ==
            RetryAnswer(cfg, s.requests[creator], retry.body)
  {
    assert RequestOk(cfg, s.db, s.requests[creator]);
  }

  lemma CreatedIsStored(cfg: Config, s: State, creator: RequestId, retry: Request)
    requires Reachable(cfg, s) && creator in s.requests
    requires CreatedUnder(s.requests[creator], retry.tenantId, retry.key)
    ensures (retry.tenantId, retry.key.value) in s.db.keys
    ensures FromStored(cfg, retry, s.db.keys[(retry.tenantId, retry.key.value)]) ==
            RetryAnswer(cfg, s.requests[creator], retry.body)
  {
    ReachableHolds(cfg, s);
    CreatedRow(cfg, s, creator, retry);
  }

  /** Once a key is stored under another hash, a request can neither commit nor have created. */
  lemma OtherHashCreatesNothing(cfg: Config, s: State, rid: RequestId)
    requires Reachable(cfg, s) && rid in s.requests && s.requests[rid].key.Some?
    requires (s.requests[rid].tenantId, s.requests[rid].key.value) in s.db.keys
    requires var r := s.requests[rid];
             s.db.keys[(r.tenantId, r.key.value)].requestHash != cfg.requestHash(r.body)
    ensures !CanCommit(s.requests[rid])
    ensures s.requests[rid].phase.Done? ==> !s.requests[rid].phase.response.TicketCreated?
  {
    ReachableHolds(cfg, s);
    assert RequestOk(cfg, s.db, s.requests[rid]);
  }

  /** A winner that rolls back leaves the key free: the next request to try reserves it. */
  lemma RolledBackWinnerFreesKey(cfg: Config, s: State, winner: RequestId, loser: RequestId, s': State)
    requires Reachable(cfg, s) && winner in s.requests && HoldsKey(s.requests[winner])
    requires Next(cfg, s, RequestStep(winner, Fail), s')
    requires loser in s.requests && loser != winner && s.requests[loser].phase.DepthOk?
    requires s.requests[loser].tenantId == s.requests[winner].tenantId
             && s.requests[loser].key == s.requests[winner].key
    ensures s'.db == s.db && Handle(cfg, s, loser, ReserveKey) == None
    ensures Handle(cfg, s', loser, ReserveKey).Some? && Handle(cfg, s', loser, ReserveKey).value.Holding?
  {
    ReachableHolds(cfg, s);
    assert RequestOk(cfg, s.db, s.requests[winner]);
    forall o | o in s'.requests && o != loser && HoldsKey(s'.requests[o])
      ensures !(s'.requests[o].tenantId == s'.requests[loser].tenantId && s'.requests[o].key == s'.requests[loser].key)
    {
      assert RequestsApart(s.requests[winner], s.requests[o]);
    }
  }
}
