/** The imperative code of the worker loop and the ticket endpoints, run against a database
    that other sessions keep changing between any two of its statements. */
module Service {
  import opened Sql
  import opened Pairing
  import opened Schema
  import opened Protocol
  import opened Invariant
  import opened Atomic
  import opened Refinement
  import opened ProtocolTheorems
  import opened Environment
  import Fetching = Fetch

  /** Who takes a step. */
  datatype Actor = AsWorker(sid: SessionId) | AsRequest(rid: RequestId) | AsAnyone

  predicate By(me: Actor, l: Label) {
    match me
    case AsWorker(sid) => (l.WorkerStep? || l.WorkerCommit? || l.Join?) && l.sid == sid
    case AsRequest(rid) => (l.RequestStep? || l.RequestCommit? || l.Arrive?) && l.rid == rid
    case AsAnyone => false
  }

  /** How many of the steps are commits by `me`. */
  function CommitsBy(me: Actor, labels: seq<Label>): nat {
    if labels == [] then 0
    else
      var l := labels[|labels| - 1];
      CommitsBy(me, labels[..|labels| - 1]) + if By(me, l) && (l.WorkerCommit? || l.RequestCommit?) then 1 else 0
  }

  lemma CommitsAppend(me: Actor, labels: seq<Label>, l: Label)
    ensures CommitsBy(me, labels + [l]) ==
            CommitsBy(me, labels) + if By(me, l) && (l.WorkerCommit? || l.RequestCommit?) then 1 else 0
  {
    assert (labels + [l])[..|labels|] == labels;
  }

  /** What `create_match_from_pair` comes back with. */
  datatype Outcome = Made | NotMade | Raised

  /** What becomes of a pair in the pair loop. */
  datatype Attempt = Taken | Missed | Failed | CommitFailed

  datatype CancelOutcome = WasCancelled | NotFound | Unanswered

  /** The private state of `me`, which nobody else's step touches. */
  ghost predicate SameFor(me: Actor, s: State, s': State) {
    match me
    case AsWorker(sid) => sid in s.workers ==> sid in s'.workers && s'.workers[sid] == s.workers[sid]
    case AsRequest(rid) =>
      && (rid in s.requests <==> rid in s'.requests)
      && (rid in s.requests ==> s'.requests[rid] == s.requests[rid])
    case AsAnyone => true
  }

  lemma OthersLeaveMine(cfg: Config, s: State, l: Label, s': State, me: Actor)
    requires Next(cfg, s, l, s') && !By(me, l)
    ensures SameFor(me, s, s')
  {
  }

  /** Where a statement takes the worker's program counter. */
  predicate Moves(before: Pc, l: WorkerLabel, after: Pc) {
    match l
    case ReserveFirst(f, s, _) => after == HaveFirst(f, s) || after == MustRollBack
    case ReserveSecond(_) =>
      before.HaveFirst? && (after == HaveBoth(before.f, before.s) || after == GivingUp(before.f, before.s))
    case ReleaseFirst => after == MustRollBack
    case InsertMatch(m) => before.HaveBoth? && after == Inside(before.f, before.s, m, 0)
    case InsertPlayer => before.Inside? && after == Inside(before.f, before.s, before.m, before.done + 1)
    case MarkMatched => before.Inside? && after == Inside(before.f, before.s, before.m, before.done + 1)
    case InsertEvent(e) => before.Inside? && after == Built(before.f, before.s, before.m, e)
    case FailInside => (before.HaveBoth? || before.Inside?) && after == Unwinding(before.f, before.s, 0)
    case FailLate => before.Built? && after == Unwinding(before.f, before.s, 0)
    case Unwind =>
      before.Unwinding? && after == if before.done == 0 then Unwinding(before.f, before.s, 1) else MustRollBack
    case Rollback => after == Idle
    case _ => true
  }

  lemma StatementMoves(s: State, sid: SessionId, l: WorkerLabel)
    requires sid in s.workers && Execute(s, sid, l).Some? && !l.Fetch?
    ensures Moves(s.workers[sid].pc, l, Execute(s, sid, l).value.pc)
    ensures Execute(s, sid, l).value.fetched == s.workers[sid].fetched
  {
  }

  /** The ticket inserted or created, if there is one, was created at that time. */
  predicate CreatedAt(r: Request, at: int) {
    && (r.phase.Inserted? || r.phase.Finalized? ==> r.phase.ticket.createdAt == at)
    && (HasCreated(r) ==> r.phase.response.body.createdAt == at)
  }

  /** Where a statement takes a request; no statement short of the commit creates a ticket. */
  predicate Advances(r: Request, l: RequestLabel, after: Phase) {
    if after.Done? then !after.response.TicketCreated?
    else
      match l
      case CheckKey => after.KeyUnknown?
      case CheckQuota => after.QuotaOk?
      case CheckDepth => after.DepthOk?
      case ReserveKey => after.LostRace? || after.Holding?
      case InsertTicket(_, createdAt) =>
        after.Inserted? && (after.placeholder.Some? <==> r.phase.Holding?) && after.ticket.createdAt == createdAt
      case FinalizeKey => after.Finalized? && r.phase.Inserted? && after.ticket == r.phase.ticket
      case _ => false
  }

  lemma StatementAdvances(cfg: Config, s: State, rid: RequestId, l: RequestLabel)
    requires rid in s.requests && Handle(cfg, s, rid, l).Some?
    ensures Advances(s.requests[rid], l, Handle(cfg, s, rid, l).value)
  {
  }

  lemma AnswerIsTrue(cfg: Config, states: seq<State>, labels: seq<Label>, rid: RequestId)
    requires RunFromStart(cfg, states, labels)
    requires rid in states[|labels|].requests && states[|labels|].requests[rid].phase.Done?
    ensures var s := states[|labels|]; ResponseOk(cfg, s.db, s.requests[rid], s.requests[rid].phase.response)
  {
    ReachableIsOk(cfg, states, labels, |labels|);
    assert RequestOk(cfg, states[|labels|].db, states[|labels|].requests[rid]);
  }

  /** Both tickets of the pair are matched to `m`: a fact that, once committed, stays. */
  ghost predicate PairCommitted(db: Db, pair: (WaitingTicket, WaitingTicket), m: MatchId) {
    && pair.0.ticketId in db.tickets && pair.1.ticketId in db.tickets && pair.0.ticketId != pair.1.ticketId
    && db.tickets[pair.0.ticketId].status.Matched? && db.tickets[pair.0.ticketId].matchId == Some(m)
    && db.tickets[pair.1.ticketId].status.Matched? && db.tickets[pair.1.ticketId].matchId == Some(m)
  }

  ghost predicate IsCommitted(db: Db, pair: (WaitingTicket, WaitingTicket)) {
    exists m {:trigger PairCommitted(db, pair, m)} :: PairCommitted(db, pair, m)
  }

  /** A committed pair makes up the whole of its match. */
  lemma CommittedPairIsMatch(cfg: Config, s: State, pair: (WaitingTicket, WaitingTicket), m: MatchId)
    requires Inv(cfg, s) && PairCommitted(s.db, pair, m)
    ensures m in s.db.matches && PlayersOf(s.db, m) == {pair.0.ticketId, pair.1.ticketId}
  {
    PlaysIfMatched(cfg, s, m, pair.0.ticketId);
    PlaysIfMatched(cfg, s, m, pair.1.ticketId);
    var a, b, e := MatchIsWhole(cfg, s, m);
    assert pair.0.ticketId in PlayersOf(s.db, m) && pair.1.ticketId in PlayersOf(s.db, m);
  }

  lemma CommitMakesPair(cfg: Config, s: State, sid: SessionId)
    requires Inv(cfg, s) && sid in s.workers && s.workers[sid].pc.Built?
    ensures var pc := s.workers[sid].pc;
            PairCommitted(AfterWorkerCommit(s, sid).db, (pc.f, pc.s), pc.m)
  {
    assert WorkerOk(s.db, s.workers[sid]);
    CommitIsMatch(cfg, s, sid);
  }

  /** Pairs `made[..].0` of the list were committed, as matches `made[..].1`. */
  ghost predicate AllCommitted(db: Db, pairs: seq<(WaitingTicket, WaitingTicket)>, made: seq<(nat, MatchId)>) {
    forall k :: 0 <= k < |made| ==> made[k].0 < |pairs| && PairCommitted(db, pairs[made[k].0], made[k].1)
  }

  lemma StaysCommitted(cfg: Config, states: seq<State>, labels: seq<Label>, i: nat,
                       pairs: seq<(WaitingTicket, WaitingTicket)>, made: seq<(nat, MatchId)>)
    requires RunFromStart(cfg, states, labels) && i < |states| && AllCommitted(states[i].db, pairs, made)
    ensures AllCommitted(states[|labels|].db, pairs, made)
  {
    History(cfg, states, labels, i, |labels|);
  }

  ghost predicate Increasing(made: seq<(nat, MatchId)>, below: nat) {
    && (forall k, l :: 0 <= k < l < |made| ==> made[k].0 < made[l].0)
    && (forall k :: 0 <= k < |made| ==> made[k].0 < below)
  }

  lemma OneMoreMade(db: Db, pairs: seq<(WaitingTicket, WaitingTicket)>, made: seq<(nat, MatchId)>, k: nat, m: MatchId)
    requires AllCommitted(db, pairs, made) && Increasing(made, k)
    requires k < |pairs| && PairCommitted(db, pairs[k], m)
    ensures AllCommitted(db, pairs, made + [(k, m)]) && Increasing(made + [(k, m)], k + 1)
  {
  }

  // ----- Matches of one loop -----

  ghost predicate Apart(made: seq<(nat, MatchId)>) {
    forall k, l :: 0 <= k < l < |made| ==> made[k].1 != made[l].1
  }

  /** Each pair made up a match of its own, and the whole of it. */
  ghost predicate OwnMatches(db: Db, pairs: seq<(WaitingTicket, WaitingTicket)>, made: seq<(nat, MatchId)>) {
    && Apart(made)
    && forall k :: 0 <= k < |made| ==>
         && made[k].0 < |pairs| && made[k].1 in db.matches
         && PlayersOf(db, made[k].1) == {pairs[made[k].0].0.ticketId, pairs[made[k].0].1.ticketId}
  }

  lemma EachOwnMatch(cfg: Config, states: seq<State>, labels: seq<Label>,
                     pairs: seq<(WaitingTicket, WaitingTicket)>, made: seq<(nat, MatchId)>)
    requires RunFromStart(cfg, states, labels) && AllCommitted(states[|labels|].db, pairs, made) && Apart(made)
    ensures OwnMatches(states[|labels|].db, pairs, made)
  {
    var s := states[|labels|];
    ReachableIsOk(cfg, states, labels, |labels|);
    forall k | 0 <= k < |made|
      ensures made[k].1 in s.db.matches
      ensures PlayersOf(s.db, made[k].1) == {pairs[made[k].0].0.ticketId, pairs[made[k].0].1.ticketId}
    {
      CommittedPairIsMatch(cfg, s, pairs[made[k].0], made[k].1);
    }
  }

  /** A match that was not there at `i` is none of those committed by then. */
  lemma NewMatchIsApart(cfg: Config, states: seq<State>, labels: seq<Label>, i: nat,
                        pairs: seq<(WaitingTicket, WaitingTicket)>, made: seq<(nat, MatchId)>, k: nat, m: MatchId)
    requires RunFromStart(cfg, states, labels) && i < |states| && AllCommitted(states[i].db, pairs, made) && Apart(made)
    requires m !in states[i].db.matches
    ensures Apart(made + [(k, m)])
  {
    ReachableIsOk(cfg, states, labels, i);
    forall l | 0 <= l < |made| ensures made[l].1 != m {
      CommittedPairIsMatch(cfg, states[i], pairs[made[l].0], made[l].1);
    }
  }

  ghost predicate LoopMade(db: Db, pairs: seq<(WaitingTicket, WaitingTicket)>, made: seq<(nat, MatchId)>, below: nat) {
    Increasing(made, below) && AllCommitted(db, pairs, made) && Apart(made)
  }

  /** What the loop had made by `i` stands, with or without the pair it has tried since. */
  lemma LoopGoesOn(cfg: Config, states: seq<State>, labels: seq<Label>, i: nat,
                   pairs: seq<(WaitingTicket, WaitingTicket)>, made: seq<(nat, MatchId)>, k: nat, m: MatchId)
    requires RunFromStart(cfg, states, labels) && i < |states| && LoopMade(states[i].db, pairs, made, k)
    ensures LoopMade(states[|labels|].db, pairs, made, k + 1)
    ensures k < |pairs| && m !in states[i].db.matches && PairCommitted(states[|labels|].db, pairs[k], m) ==>
              LoopMade(states[|labels|].db, pairs, made + [(k, m)], k + 1)
  {
    StaysCommitted(cfg, states, labels, i, pairs, made);
    if k < |pairs| && m !in states[i].db.matches && PairCommitted(states[|labels|].db, pairs[k], m) {
      NewMatchIsApart(cfg, states, labels, i, pairs, made, k, m);
      OneMoreMade(states[|labels|].db, pairs, made, k, m);
    }
  }

  lemma BuiltIsNew(cfg: Config, s: State, sid: SessionId)
    requires Inv(cfg, s) && sid in s.workers && s.workers[sid].pc.Built?
    ensures s.workers[sid].pc.m !in s.db.matches
  {
    assert WorkerOk(s.db, s.workers[sid]);
    assert s.workers[sid].pc.m in s.workers[sid].own.matches;
  }

  /** Matches are never removed. */
  lemma MatchesGrow(cfg: Config, states: seq<State>, labels: seq<Label>, i: nat, j: nat)
    requires RunFromStart(cfg, states, labels) && i <= j < |states|
    ensures states[i].db.matches.Keys <= states[j].db.matches.Keys
  {
    ReachableIsOk(cfg, states, labels, i);
    ReachableIsOk(cfg, states, labels, j);
    History(cfg, states, labels, i, j);
    forall m | m in states[i].db.matches ensures m in states[j].db.matches {
      var a, b, e := MatchIsWhole(cfg, states[i], m);
      PlaysIfMatched(cfg, states[j], m, a);
    }
  }

  // ----- Reservations that miss -----

  predicate Waits(db: Db, id: TicketId) {
    id in db.tickets && db.tickets[id].status.Waiting?
  }

  lemma FirstMissed(cfg: Config, s: State, sid: SessionId, f: WaitingTicket, g: WaitingTicket, until: int)
    requires Inv(cfg, s) && sid in s.workers && s.workers[sid].pc.Idle?
    requires Execute(s, sid, ReserveFirst(f, g, until)).Some?
    requires Execute(s, sid, ReserveFirst(f, g, until)).value.pc.MustRollBack?
    ensures !Waits(s.db, f.ticketId)
  {
    assert WorkerOk(s.db, s.workers[sid]);
  }

  lemma SecondMissed(cfg: Config, s: State, sid: SessionId, until: int)
    requires Inv(cfg, s) && sid in s.workers && s.workers[sid].pc.HaveFirst?
    requires Execute(s, sid, ReserveSecond(until)).Some? && Execute(s, sid, ReserveSecond(until)).value.pc.GivingUp?
    ensures !Waits(s.db, s.workers[sid].pc.s.ticketId)
  {
    assert WorkerOk(s.db, s.workers[sid]);
  }

  // ----- Why a request is answered as it is -----

  function TenantsWaiting(tickets: map<TicketId, Ticket>, tenantId: string): set<TicketId> {
    set id | id in tickets && tickets[id].tenantId == tenantId && tickets[id].status == Waiting
  }

  function PartitionsWaiting(tickets: map<TicketId, Ticket>, p: int): set<TicketId> {
    set id | id in tickets && tickets[id].partitionId == p && tickets[id].status == Waiting
  }

  /** In state `k` the tenant's quota is used up, or is not. */
  predicate QuotaSeen(cfg: Config, states: seq<State>, k: int, tenantId: string, full: bool)
    requires 0 <= k < |states|
  {
    |TenantsWaiting(states[k].db.tickets, tenantId)| >= cfg.maxInFlight(tenantId) <==> full
  }

  /** In state `k` the partition of the queue is as deep as the tenant may fill it, or is not. */
  predicate DepthSeen(cfg: Config, states: seq<State>, k: int, tenantId: string, body: TicketCreate, full: bool)
    requires 0 <= k < |states|
  {
    var p := ComputePartitionId(cfg.hash, tenantId, body.region, body.queueName, cfg.partitions);
    p.Some? && (|PartitionsWaiting(states[k].db.tickets, p.value)| >= cfg.maxDepth(tenantId) <==> full)
  }

  /** In state `k` the player has an active ticket in the queue. */
  predicate ActiveSeen(states: seq<State>, k: int, tenantId: string, body: TicketCreate)
    requires 0 <= k < |states|
  {
    exists id :: id in states[k].db.tickets &&
      var t := states[k].db.tickets[id];
      && t.tenantId == tenantId && t.playerId == body.playerId && t.region == body.region
      && t.queueName == body.queueName && (t.status.Waiting? || t.status.Reserved?)
  }

  /** The quota was checked in state `k` and the depth in a later one, with these results. */
  ghost predicate Checked(cfg: Config, states: seq<State>, from: nat, k: nat, m: nat, tenantId: string,
                          body: TicketCreate, deep: bool)
  {
    && from <= k < m < |states|
    && QuotaSeen(cfg, states, k, tenantId, false) && DepthSeen(cfg, states, m, tenantId, body, deep)
  }

  /** What must have been so since `from` for the answer to be given; `limited`, `slow` and `failed` tell
      whether the limiter refused, the database was found slow, and a statement failed. */
  ghost predicate Explained(cfg: Config, states: seq<State>, from: nat, tenantId: string, body: TicketCreate,
                            r: Response, limited: bool, slow: bool, failed: bool)
  {
    match r
    case TooManyRequests =>
      limited || exists k :: from <= k < |states| && QuotaSeen(cfg, states, k, tenantId, true)
    case Overloaded =>
      !limited && exists k, m, deep :: Checked(cfg, states, from, k, m, tenantId, body, deep) && (deep || slow)
    case TicketCreated(_) =>
      !limited && !slow && exists k, m :: Checked(cfg, states, from, k, m, tenantId, body, false)
    case DuplicateTicket =>
      !limited && !slow && exists k :: from <= k < |states| && ActiveSeen(states, k, tenantId, body)
    case ServerError => failed || cfg.partitions == 0
    case _ => true
  }

  lemma CheckedStays(cfg: Config, before: seq<State>, states: seq<State>, from: nat, k: nat, m: nat, tenantId: string,
                     body: TicketCreate)
    requires before <= states && Checked(cfg, before, from, k, m, tenantId, body, false)
    ensures Checked(cfg, states, from, k, m, tenantId, body, false)
  {
    assert states[k] == before[k] && states[m] == before[m];
  }

  lemma ExplainedSince(cfg: Config, states: seq<State>, early: nat, from: nat, tenantId: string, body: TicketCreate,
                       r: Response, limited: bool, slow: bool, failed: bool)
    requires early <= from && Explained(cfg, states, from, tenantId, body, r, limited, slow, failed)
    ensures Explained(cfg, states, early, tenantId, body, r, limited, slow, failed)
  {
    if r.Overloaded? {
      var k: nat, m: nat, deep :| Checked(cfg, states, from, k, m, tenantId, body, deep) && (deep || slow);
      assert Checked(cfg, states, early, k, m, tenantId, body, deep);
    } else if r.TicketCreated? {
      var k: nat, m: nat :| Checked(cfg, states, from, k, m, tenantId, body, false);
      assert Checked(cfg, states, early, k, m, tenantId, body, false);
    }
  }

  /** The answers of the admission checks and of the INSERT, and what they mean. */
  lemma WhyQuota(cfg: Config, states: seq<State>, k: nat, rid: RequestId)
    requires k < |states| && rid in states[k].requests && states[k].requests[rid].phase.KeyUnknown?
    ensures var phase := Handle(cfg, states[k], rid, CheckQuota);
            && phase == Some(if phase == Some(QuotaOk) then QuotaOk else Done(TooManyRequests))
            && QuotaSeen(cfg, states, k, states[k].requests[rid].tenantId, phase != Some(QuotaOk))
  {
    var tickets, tenantId := states[k].db.tickets, states[k].requests[rid].tenantId;
    assert WaitingOfTenant(states[k].db, tenantId) == TenantsWaiting(tickets, tenantId);
  }

  lemma WhyDepth(cfg: Config, states: seq<State>, k: nat, rid: RequestId)
    requires k < |states| && rid in states[k].requests && states[k].requests[rid].phase.QuotaOk?
    requires Handle(cfg, states[k], rid, CheckDepth).Some?
    ensures var phase, r := Handle(cfg, states[k], rid, CheckDepth), states[k].requests[rid];
            && phase == Some(if phase == Some(DepthOk) then DepthOk else Done(Overloaded))
            && DepthSeen(cfg, states, k, r.tenantId, r.body, phase != Some(DepthOk))
  {
    var tickets, p := states[k].db.tickets, PartitionOf(cfg, states[k].requests[rid]);
    assert WaitingInPartition(states[k].db, p) == PartitionsWaiting(tickets, p);
  }

  lemma WhyDuplicate(cfg: Config, states: seq<State>, k: nat, rid: RequestId, id: TicketId, createdAt: int)
    requires k < |states| && rid in states[k].requests
    requires Handle(cfg, states[k], rid, InsertTicket(id, createdAt)).Some?
    ensures var phase, r := Handle(cfg, states[k], rid, InsertTicket(id, createdAt)).value, states[k].requests[rid];
            phase.Done? ==> phase.response.DuplicateTicket? && ActiveSeen(states, k, r.tenantId, r.body)
  {
    var s, r := states[k], states[k].requests[rid];
    var t := NewTicket(cfg, r.tenantId, r.body, createdAt);
    if UniqueIndexHit(s.db, t) {
      var other :| other in s.db.tickets && s.db.tickets[other].Active() && s.db.tickets[other].SamePlayerAndQueue(t);
      assert ActiveSeen(states, k, r.tenantId, r.body);
    }
  }

  // ----- What became of the pairs -----

  /** How the attempt at a pair ended, and a state that shows why. */
  datatype Tried = Tried(outcome: Attempt, at: nat)

  /** Worker `sid` has built the match of the pair and has only to commit. */
  predicate BuiltFor(s: State, sid: SessionId, pair: (WaitingTicket, WaitingTicket)) {
    sid in s.workers && s.workers[sid].pc.Built? && s.workers[sid].pc.f == pair.0 && s.workers[sid].pc.s == pair.1
  }

  predicate Gone(s: State, pair: (WaitingTicket, WaitingTicket)) {
    !Waits(s.db, pair.0.ticketId) || !Waits(s.db, pair.1.ticketId)
  }

  /** A pair is missed when one of its tickets is seen not to be waiting, and a commit is attempted,
      or raises, only for a match that has been built. */
  predicate TriedAs(states: seq<State>, sid: SessionId, from: nat, pair: (WaitingTicket, WaitingTicket), t: Tried) {
    && from <= t.at < |states|
    && (t.outcome.Missed? ==> Gone(states[t.at], pair))
    && (t.outcome.Taken? || t.outcome.CommitFailed? ==> BuiltFor(states[t.at], sid, pair))
  }

  /** The first pairs, in order. */
  ghost predicate AllTried(states: seq<State>, sid: SessionId, from: nat,
                           pairs: seq<(WaitingTicket, WaitingTicket)>, tries: seq<Tried>)
  {
    && |tries| <= |pairs|
    && forall k {:trigger tries[k]} :: 0 <= k < |tries| ==> TriedAs(states, sid, from, pairs[k], tries[k])
  }

  lemma OneMoreTry(before: seq<State>, states: seq<State>, sid: SessionId, from: nat,
                   pairs: seq<(WaitingTicket, WaitingTicket)>, tries: seq<Tried>, t: Tried)
    requires AllTried(before, sid, from, pairs, tries) && before <= states && |tries| < |pairs|
    requires TriedAs(states, sid, from, pairs[|tries|], t)
    ensures AllTried(states, sid, from, pairs, tries + [t])
  {
    forall k | 0 <= k < |tries| + 1 ensures TriedAs(states, sid, from, pairs[k], (tries + [t])[k]) {
      assert k < |tries| ==> TriedAs(before, sid, from, pairs[k], tries[k]);
    }
  }

  /** How many attempts count as matches: those committed, and one whose commit raised. */
  function Counted(tries: seq<Tried>): nat {
    if tries == [] then 0
    else
      var last := tries[|tries| - 1].outcome;
      Counted(tries[..|tries| - 1]) + if last.Taken? || last.CommitFailed? then 1 else 0
  }

  lemma CountedAppend(tries: seq<Tried>, t: Tried)
    ensures Counted(tries + [t]) == Counted(tries) + if t.outcome.Taken? || t.outcome.CommitFailed? then 1 else 0
  {
    assert (tries + [t])[..|tries|] == tries;
  }

  /** Exactly the last attempt's commit raised, if `raised`. */
  predicate OnlyLastRaised(tries: seq<Tried>, raised: bool) {
    && (raised <==> tries != [] && tries[|tries| - 1].outcome.CommitFailed?)
    && (forall k :: 0 <= k < |tries| - 1 ==> !tries[k].outcome.CommitFailed?)
  }

  /** No attempt ended in an exception. */
  predicate Smooth(tries: seq<Tried>) {
    forall t :: t in tries ==> t.outcome.Taken? || t.outcome.Missed?
  }

  class Cluster {
    const cfg: Config
    /** A statement fails; the limiter refuses; the database is slow; the loop's time is up. */
    const trouble: Hazard
    const limiter: Hazard
    const load: Hazard
    const budget: Hazard
    var s: State
    ghost var labels: seq<Label>
    ghost var states: seq<State>

    /** The current state is the end of the run recorded so far. */
    ghost predicate Valid()
      reads this
    {
      && RunFromStart(cfg, states, labels) && states[|labels|] == s
      && trouble != limiter && trouble != load && trouble != budget && limiter != load
    }

    constructor (cfg: Config)
      ensures Valid() && this.cfg == cfg && labels == [] && s == Init
      ensures fresh(trouble) && fresh(limiter) && fresh(load) && fresh(budget)
    {
      this.cfg := cfg;
      trouble := new Hazard();
      limiter := new Hazard();
      load := new Hazard();
      budget := new Hazard();
      s := Init;
      labels := [];
      states := [Init];
    }

    /** The run recorded before is still the beginning of the run recorded now. */
    twostate predicate Longer()
      reads this
    {
      Valid() && old(labels) <= labels && old(states) <= states
    }

    /** Take one step. */
    method Perform(l: Label, after: State)
      requires Valid() && Next(cfg, s, l, after)
      modifies this
      ensures Longer() && s == after && labels == old(labels) + [l]
    {
      Extend(cfg, states, labels, l, after);
      s := after;
      labels := labels + [l];
      states := states + [after];
    }

    /** Everybody else runs for a while. */
    method Others(me: Actor)
      requires Valid()
      modifies this
      ensures Longer() && SameFor(me, old(s), s)
      ensures CommitsBy(me, labels) == CommitsBy(me, old(labels))
    {
      var steps: nat := *;
      while steps > 0
        invariant Longer() && SameFor(me, old(s), s)
        invariant CommitsBy(me, labels) == CommitsBy(me, old(labels))
      {
        var l: Label := *;
        var after: State := *;
        if !By(me, l) && Next(cfg, s, l, after) {
          OthersLeaveMine(cfg, s, l, after, me);
          CommitsAppend(me, labels, l);
          Perform(l, after);
        }
        steps := steps - 1;
      }
    }

    // ----- app/worker/matching.py -----

    /** All of worker `sid`'s own statements leave this alone: it commits nothing. */
    twostate predicate Uncommitted(sid: SessionId)
      reads this
    {
      && Longer() && sid in old(s).workers && sid in s.workers
      && s.workers[sid].fetched == old(s).workers[sid].fetched
      && CommitsBy(AsWorker(sid), labels) == CommitsBy(AsWorker(sid), old(labels))
    }

    /** The last step was statement `l` of worker `sid`, as it had been before. */
    twostate predicate Ran(sid: SessionId, l: WorkerLabel)
      requires sid in old(s).workers
      reads this
    {
      && |old(labels)| < |labels| < |states| && sid in s.workers
      && var before := states[|labels| - 1];
      && sid in before.workers && before.workers[sid] == old(s).workers[sid]
      && Execute(before, sid, l) == Some(s.workers[sid])
    }

    /** Run one statement of worker `sid` after the others have had their turn.  False stands
        for an exception: a deadlock, a lock never granted, or a lost connection. */
    method Try(sid: SessionId, l: WorkerLabel) returns (ok: bool)
      requires Valid() && sid in s.workers && !l.Fetch?
      modifies this, trouble
      ensures Uncommitted(sid) && trouble.hits == old(trouble.hits) + if ok then 0 else 1
      ensures !ok ==> s.workers[sid] == old(s.workers[sid])
      ensures ok ==> Moves(old(s.workers[sid].pc), l, s.workers[sid].pc)
    {
      ok := TryStatement(sid, l);
    }

    /** The same, noting the state in which the statement ran. */
    method TryStatement(sid: SessionId, l: WorkerLabel) returns (ok: bool)
      requires Valid() && sid in s.workers && !l.Fetch?
      modifies this, trouble
      ensures Uncommitted(sid) && trouble.hits == old(trouble.hits) + if ok then 0 else 1
      ensures !ok ==> s.workers[sid] == old(s.workers[sid])
      ensures ok ==> Moves(old(s.workers[sid].pc), l, s.workers[sid].pc)
      ensures ok ==> Ran(sid, l)
    {
      Others(AsWorker(sid));
      var fails := trouble.Strikes();
      if !fails && Execute(s, sid, l).None? {
        fails := true;
        trouble.Strike();
      }
      if fails {
        return false;
      }
      StatementMoves(s, sid, l);
      CommitsAppend(AsWorker(sid), labels, WorkerStep(sid, l));
      Perform(WorkerStep(sid, l), AfterStatement(s, sid, l));
      return true;
    }

    /** The first reservation; when it misses, `at` is the state it was judged on. */
    method ReserveOne(sid: SessionId, f: WaitingTicket, g: WaitingTicket, until: int)
      returns (r: Outcome, ghost at: nat)
      requires Valid() && sid in s.workers && s.workers[sid].pc.Idle?
      modifies this, trouble
      ensures Uncommitted(sid) && trouble.hits == old(trouble.hits) + if r.Raised? then 1 else 0
      ensures r.Made? ==> s.workers[sid].pc == HaveFirst(f, g)
      ensures r.NotMade? ==>
                s.workers[sid].pc.MustRollBack? && |old(labels)| <= at < |states| && !Waits(states[at].db, f.ticketId)
    {
      at := 0;
      var ok := TryStatement(sid, ReserveFirst(f, g, until));
      if !ok { return Raised, 0; }
      at := |labels| - 1;
      if s.workers[sid].pc.MustRollBack? {
        ReachableIsOk(cfg, states, labels, at);
        FirstMissed(cfg, states[at], sid, f, g, until);
        return NotMade, at;
      }
      return Made, 0;
    }

    method ReserveOther(sid: SessionId, until: int) returns (r: Outcome, ghost at: nat)
      requires Valid() && sid in s.workers && s.workers[sid].pc.HaveFirst?
      modifies this, trouble
      ensures Uncommitted(sid) && trouble.hits == old(trouble.hits) + if r.Raised? then 1 else 0
      ensures r.Made? ==> s.workers[sid].pc == HaveBoth(old(s.workers[sid].pc.f), old(s.workers[sid].pc.s))
      ensures r.NotMade? ==>
                && s.workers[sid].pc.GivingUp? && |old(labels)| <= at < |states|
                && !Waits(states[at].db, old(s.workers[sid].pc.s.ticketId))
    {
      at := 0;
      var ok := TryStatement(sid, ReserveSecond(until));
      if !ok { return Raised, 0; }
      at := |labels| - 1;
      if s.workers[sid].pc.GivingUp? {
        ReachableIsOk(cfg, states, labels, at);
        SecondMissed(cfg, states[at], sid, until);
        return NotMade, at;
      }
      return Made, 0;
    }

    /** The two reservations of `create_match_from_pair`; the first is released when the second
        misses.  A miss is seen in state `at`. */
    method ReserveBoth(sid: SessionId, f: WaitingTicket, g: WaitingTicket, until: int)
      returns (r: Outcome, ghost at: nat)
      requires Valid() && sid in s.workers && s.workers[sid].pc.Idle?
      modifies this, trouble
      ensures Uncommitted(sid) && trouble.hits == old(trouble.hits) + if r.Raised? then 1 else 0
      ensures r.Made? ==> s.workers[sid].pc == HaveBoth(f, g)
      ensures r.NotMade? ==>
                s.workers[sid].pc.MustRollBack? && |old(labels)| <= at < |states| && Gone(states[at], (f, g))
    {
      r, at := ReserveOne(sid, f, g, until);
      if r.Made? {
        r, at := ReserveOther(sid, until);
        if r.NotMade? {
          ghost var judged := states[at];
          var ok := Try(sid, ReleaseFirst);
          assert states[at] == judged;
          r := if ok then NotMade else Raised;
        }
      }
    }

    /** The handler around the savepoint: both releases, as far as they run. */
    method Recover(sid: SessionId)
      requires Valid() && sid in s.workers
      modifies this, trouble
      ensures Uncommitted(sid) && trouble.hits >= old(trouble.hits)
      ensures trouble.hits == old(trouble.hits) ==> s.workers[sid].pc.MustRollBack?
    {
      var ok := Try(sid, if s.workers[sid].pc.Built? then FailLate else FailInside);
      if ok {
        ok := Try(sid, Unwind);
        if ok {
          ok := Try(sid, Unwind);
        }
      }
    }

    /** `create_match_from_pair`.  It gives up on the pair only when a ticket is seen not to be waiting,
        in state `at`, and raises only when a statement has failed. */
    method CreateMatchFromPair(sid: SessionId, f: WaitingTicket, g: WaitingTicket, until: int)
      returns (r: Outcome, ghost at: nat)
      requires Valid() && sid in s.workers && s.workers[sid].pc.Idle? && PairOk(s.workers[sid], f, g)
      modifies this, trouble
      ensures Uncommitted(sid)
      ensures r.Made? ==> BuiltFor(s, sid, (f, g))
      ensures r.NotMade? ==>
                s.workers[sid].pc.MustRollBack? && |old(labels)| <= at < |states| && Gone(states[at], (f, g))
      ensures if r.Raised? then trouble.hits > old(trouble.hits) else trouble.hits == old(trouble.hits)
    {
      r, at := ReserveBoth(sid, f, g, until);
      if r.Made? {
        var ok := BuildMatch(sid, f, g);
        if !ok {
          Recover(sid);
          r := Raised;
        }
      }
    }

    /** The row of one player, and the UPDATE of that player's ticket. */
    method AddPlayer(sid: SessionId, f: WaitingTicket, g: WaitingTicket, m: MatchId, done: nat) returns (ok: bool)
      requires Valid() && sid in s.workers && s.workers[sid].pc == Inside(f, g, m, done)
      modifies this, trouble
      ensures Uncommitted(sid) && trouble.hits == old(trouble.hits) + if ok then 0 else 1
      ensures ok ==> s.workers[sid].pc == Inside(f, g, m, done + 2)
    {
      ok := Try(sid, InsertPlayer);
      if ok {
        ok := Try(sid, MarkMatched);
      }
    }

    /** The statements inside the savepoint; stops at the first that fails. */
    method BuildMatch(sid: SessionId, f: WaitingTicket, g: WaitingTicket) returns (ok: bool)
      requires Valid() && sid in s.workers && s.workers[sid].pc == HaveBoth(f, g)
      modifies this, trouble
      ensures Uncommitted(sid) && trouble.hits == old(trouble.hits) + if ok then 0 else 1
      ensures ok ==> s.workers[sid].pc.Built? && s.workers[sid].pc.f == f && s.workers[sid].pc.s == g
    {
      var m: MatchId := *;
      ok := Try(sid, InsertMatch(m));
      if !ok { return; }
      var done := 0;
      while done < 4
        invariant 0 <= done <= 4 && done % 2 == 0
        invariant Uncommitted(sid) && s.workers[sid].pc == Inside(f, g, m, done) && trouble.hits == old(trouble.hits)
      {
        ok := AddPlayer(sid, f, g, m, done);
        if !ok { return; }
        done := done + 2;
      }
      var e: EventId := *;
      ok := Try(sid, InsertEvent(e));
    }

    // ----- app/worker/main.py -----

    /** `conn.rollback()`. */
    method RollBack(sid: SessionId)
      requires Valid() && sid in s.workers
      modifies this
      ensures Uncommitted(sid) && s.workers[sid].pc.Idle? && s.db == old(s.db)
    {
      StatementMoves(s, sid, Rollback);
      CommitsAppend(AsWorker(sid), labels, WorkerStep(sid, Rollback));
      Perform(WorkerStep(sid, Rollback), AfterStatement(s, sid, Rollback));
    }

    /** `conn.commit()` after a match was built.  When it raises, the commit may have failed or
        only its acknowledgement may have been lost; `took` tells. */
    method CommitMatch(sid: SessionId) returns (ok: bool, ghost took: bool)
      requires Valid() && sid in s.workers && s.workers[sid].pc.Built?
      modifies this, trouble
      ensures Longer() && sid in s.workers && s.workers[sid].pc.Idle?
      ensures trouble.hits == old(trouble.hits) + if ok then 0 else 1
      ensures s.workers[sid].fetched == old(s.workers[sid].fetched)
      ensures CommitsBy(AsWorker(sid), labels) == CommitsBy(AsWorker(sid), old(labels)) + if took then 1 else 0
      ensures ok ==> took
      ensures took ==>
                PairCommitted(s.db, (old(s.workers[sid].pc.f), old(s.workers[sid].pc.s)), old(s.workers[sid].pc.m))
      ensures took ==> old(s.workers[sid].pc.m) !in old(s).db.matches
    {
      ReachableIsOk(cfg, states, labels, |labels|);
      BuiltIsNew(cfg, s, sid);
      Others(AsWorker(sid));
      var fails := trouble.Strikes();
      var lost: bool := *;
      ok, took := !fails, !fails || lost;
      if !fails || lost {
        ReachableIsOk(cfg, states, labels, |labels|);
        CommitMakesPair(cfg, s, sid);
        CommitsAppend(AsWorker(sid), labels, WorkerCommit(sid));
        Perform(WorkerCommit(sid), AfterWorkerCommit(s, sid));
      } else {
        RollBack(sid);
      }
    }

    /** One pair: create its match and commit, or roll back.  `took` tells whether a commit took
        effect: of a pair that is taken, certainly; of one whose commit raised, perhaps. */
    method TryPair(sid: SessionId, f: WaitingTicket, g: WaitingTicket, until: int)
      returns (r: Attempt, ghost at: nat, ghost m: MatchId, ghost took: bool)
      requires Valid() && sid in s.workers && s.workers[sid].pc.Idle? && PairOk(s.workers[sid], f, g)
      modifies this, trouble
      ensures Longer() && sid in s.workers && s.workers[sid].pc.Idle?
      ensures s.workers[sid].fetched == old(s.workers[sid].fetched)
      ensures CommitsBy(AsWorker(sid), labels) == CommitsBy(AsWorker(sid), old(labels)) + if took then 1 else 0
      ensures (r.Taken? ==> took) && (took ==> r.Taken? || r.CommitFailed?)
      ensures took ==> IsCommitted(s.db, (f, g)) && PairCommitted(s.db, (f, g), m) && m !in old(s).db.matches
      ensures TriedAs(states, sid, |old(labels)|, (f, g), Tried(r, at))
      ensures if r.Taken? || r.Missed? then trouble.hits == old(trouble.hits) else trouble.hits > old(trouble.hits)
    {
      m, took := 0, false;
      ghost var i := |labels|;
      var outcome;
      outcome, at := CreateMatchFromPair(sid, f, g, until);
      if outcome.Made? {
        m, at := s.workers[sid].pc.m, |labels|;
        ghost var built := s;
        MatchesGrow(cfg, states, labels, i, |labels|);
        var ok;
        ok, took := CommitMatch(sid);
        assert states[at] == built;
        r := if ok then Taken else CommitFailed;
      } else {
        ghost var judged := if outcome.NotMade? then states[at] else s;
        RollBack(sid);
        at := if outcome.NotMade? then at else i;
        assert outcome.NotMade? ==> states[at] == judged;
        r := if outcome.NotMade? then Attempt.Missed else Attempt.Failed;
      }
    }

    /** One round of the pair loop, on pair `k`: `grown` is what has been made so far. */
    method NextPair(sid: SessionId, pairs: seq<(WaitingTicket, WaitingTicket)>, k: nat, until: int,
                    ghost made: seq<(nat, MatchId)>)
      returns (r: Attempt, ghost at: nat, ghost grown: seq<(nat, MatchId)>, ghost lost: bool)
      requires Valid() && sid in s.workers && s.workers[sid].pc.Idle? && k < |pairs|
      requires PairOk(s.workers[sid], pairs[k].0, pairs[k].1) && LoopMade(s.db, pairs, made, k)
      modifies this, trouble
      ensures Longer() && sid in s.workers && s.workers[sid].pc.Idle?
      ensures s.workers[sid].fetched == old(s.workers[sid].fetched)
      ensures |grown| == |made| + if r.Taken? then 1 else 0
      ensures CommitsBy(AsWorker(sid), labels) ==
              CommitsBy(AsWorker(sid), old(labels)) + |grown| - |made| + if lost then 1 else 0
      ensures LoopMade(s.db, pairs, grown, k + 1)
      ensures lost ==> r.CommitFailed? && IsCommitted(s.db, pairs[k])
      ensures TriedAs(states, sid, |old(labels)|, pairs[k], Tried(r, at))
      ensures if r.Taken? || r.Missed? then trouble.hits == old(trouble.hits) else trouble.hits > old(trouble.hits)
    {
      ghost var i := |labels|;
      ghost var m, took;
      r, at, m, took := TryPair(sid, pairs[k].0, pairs[k].1, until);
      assert (pairs[k].0, pairs[k].1) == pairs[k];
      LoopGoesOn(cfg, states, labels, i, pairs, made, k, m);
      grown := if r.Taken? then made + [(k, m)] else made;
      lost := took && !r.Taken?;
    }

    /** The same, with what has become of the pairs since `from`. */
    method TryNext(sid: SessionId, pairs: seq<(WaitingTicket, WaitingTicket)>, until: int, ghost from: nat,
                   ghost made: seq<(nat, MatchId)>, ghost tries: seq<Tried>, k: nat)
      returns (r: Attempt, ghost more: seq<Tried>, ghost grown: seq<(nat, MatchId)>, ghost lost: bool)
      requires Valid() && sid in s.workers && s.workers[sid].pc.Idle? && k == |tries| < |pairs| && from <= |labels|
      requires PairOk(s.workers[sid], pairs[k].0, pairs[k].1) && LoopMade(s.db, pairs, made, k)
      requires AllTried(states, sid, from, pairs, tries) && OnlyLastRaised(tries, false)
      requires Counted(tries) == |made|
      modifies this, trouble
      ensures Longer() && sid in s.workers && s.workers[sid].pc.Idle?
      ensures s.workers[sid].fetched == old(s.workers[sid].fetched)
      ensures CommitsBy(AsWorker(sid), labels) ==
              CommitsBy(AsWorker(sid), old(labels)) + |grown| - |made| + if lost then 1 else 0
      ensures LoopMade(s.db, pairs, grown, k + 1) && (lost ==> r.CommitFailed? && IsCommitted(s.db, pairs[k]))
      ensures |more| == k + 1 && AllTried(states, sid, from, pairs, more) && OnlyLastRaised(more, r.CommitFailed?)
      ensures Counted(more) == |grown| + (if r.CommitFailed? then 1 else 0)
              == |made| + if r.Taken? || r.CommitFailed? then 1 else 0
      ensures trouble.hits >= old(trouble.hits)
      ensures trouble.hits == old(trouble.hits) && Smooth(tries) ==> Smooth(more)
    {
      ghost var at, before := 0, states;
      r, at, grown, lost := NextPair(sid, pairs, k, until, made);
      OneMoreTry(before, states, sid, from, pairs, tries, Tried(r, at));
      CountedAppend(tries, Tried(r, at));
      more := tries + [Tried(r, at)];
    }

    method PairLoop(sid: SessionId, pairs: seq<(WaitingTicket, WaitingTicket)>, maxPairs: int, until: int)
      returns (matches: nat, processed: nat, budgetExceeded: bool, raised: bool, ghost made: seq<(nat, MatchId)>,
               ghost lost: bool, ghost tries: seq<Tried>)
      requires Valid() && sid in s.workers && s.workers[sid].pc.Idle?
      requires forall k :: 0 <= k < |pairs| ==> PairOk(s.workers[sid], pairs[k].0, pairs[k].1)
      modifies this, trouble, budget
      ensures Longer() && sid in s.workers && s.workers[sid].pc.Idle?
      ensures matches <= Max(0, maxPairs) && matches <= processed <= |pairs|
      ensures CommitsBy(AsWorker(sid), labels) == CommitsBy(AsWorker(sid), old(labels)) + |made| + if lost then 1 else 0
      ensures Counted(tries) == matches == |made| + if raised then 1 else 0
      ensures LoopMade(s.db, pairs, made, processed)
      ensures lost ==> raised && processed > 0 && IsCommitted(s.db, pairs[processed - 1])
      ensures |tries| == processed && AllTried(states, sid, |old(labels)|, pairs, tries)
      ensures OnlyLastRaised(tries, raised)
      ensures !raised && !budgetExceeded && matches < maxPairs ==> processed == |pairs|
      ensures trouble.hits == old(trouble.hits) ==> Smooth(tries)
      ensures budget.hits == old(budget.hits) + if budgetExceeded then 1 else 0
      ensures budget.met == old(budget.met) + |tries| + if budgetExceeded then 1 else 0
    {
      matches, processed, budgetExceeded, raised, made, lost, tries := 0, 0, false, false, [], false, [];
      while processed < |pairs| && !raised
        invariant Longer() && sid in s.workers && s.workers[sid].pc.Idle?
        invariant s.workers[sid].fetched == old(s.workers[sid].fetched)
        invariant Counted(tries) == matches == |made| + (if raised then 1 else 0) <= Max(0, maxPairs)
        invariant matches <= processed == |tries| <= |pairs| && !budgetExceeded
        invariant CommitsBy(AsWorker(sid), labels) ==
                  CommitsBy(AsWorker(sid), old(labels)) + |made| + if lost then 1 else 0
        invariant LoopMade(s.db, pairs, made, processed)
        invariant lost ==> raised && processed > 0 && IsCommitted(s.db, pairs[processed - 1])
        invariant AllTried(states, sid, |old(labels)|, pairs, tries) && OnlyLastRaised(tries, raised)
        invariant trouble.hits >= old(trouble.hits) && (trouble.hits == old(trouble.hits) ==> Smooth(tries))
        invariant budget.hits == old(budget.hits) && budget.met == old(budget.met) + processed
        decreases |pairs| - processed
      {
        if matches >= maxPairs {
          break;
        }
        budgetExceeded := budget.Strikes();
        if budgetExceeded {
          break;
        }
        var attempt;
        assert PairOk(s.workers[sid], pairs[processed].0, pairs[processed].1) by {
          assert PairOk(old(s.workers[sid]), pairs[processed].0, pairs[processed].1);
        }
        attempt, tries, made, lost := TryNext(sid, pairs, until, |old(labels)|, made, tries, processed);
        processed := processed + 1;
        raised := attempt.CommitFailed?;
        matches := matches + if attempt.Taken? || raised then 1 else 0;
      }
    }

    /** The pair loop.  `tries` lists what became of the pairs it came to, in order: it tries every pair
        unless it has the maximum, its time is up, or a commit has raised, and that is the last it
        tries.  `made` lists the pairs whose commit was acknowledged and their matches; `raised`
        reports a commit that raised, and `lost` whether it had taken effect. */
    method ProcessPairs(sid: SessionId, pairs: seq<(WaitingTicket, WaitingTicket)>, maxPairs: int, until: int)
      returns (matches: nat, processed: nat, budgetExceeded: bool, raised: bool, ghost made: seq<(nat, MatchId)>,
               ghost lost: bool, ghost tries: seq<Tried>)
      requires Valid() && sid in s.workers && s.workers[sid].pc.Idle?
      requires forall k :: 0 <= k < |pairs| ==> PairOk(s.workers[sid], pairs[k].0, pairs[k].1)
      modifies this, trouble, budget
      ensures Longer() && sid in s.workers && s.workers[sid].pc.Idle?
      ensures matches <= Max(0, maxPairs) && matches <= processed <= |pairs|
      ensures CommitsBy(AsWorker(sid), labels) == CommitsBy(AsWorker(sid), old(labels)) + |made| + if lost then 1 else 0
      ensures Counted(tries) == matches == |made| + if raised then 1 else 0
      ensures Increasing(made, processed) && AllCommitted(s.db, pairs, made) && OwnMatches(s.db, pairs, made)
      ensures lost ==> raised && processed > 0 && IsCommitted(s.db, pairs[processed - 1])
      ensures |tries| == processed && AllTried(states, sid, |old(labels)|, pairs, tries)
      ensures OnlyLastRaised(tries, raised)
      ensures !raised && !budgetExceeded && matches < maxPairs ==> processed == |pairs|
      ensures trouble.hits == old(trouble.hits) ==> Smooth(tries)
      ensures budget.hits == old(budget.hits) + if budgetExceeded then 1 else 0
      ensures budget.met == old(budget.met) + |tries| + if budgetExceeded then 1 else 0
    {
      matches, processed, budgetExceeded, raised, made, lost, tries := PairLoop(sid, pairs, maxPairs, until);
      EachOwnMatch(cfg, states, labels, pairs, made);
    }

    /** `cleanup_expired_reservations`: its row count is always zero. */
    method CleanupExpiredReservations(now: int) returns (expired: nat)
      requires Valid()
      modifies this
      ensures Longer() && expired == 0
    {
      Others(AsAnyone);
      ReachableIsOk(cfg, states, labels, |labels|);
      expired := |set id | id in s.db.tickets && CleanupRow(s.db.tickets[id], now).Some?|;
      forall id | id in s.db.tickets ensures CleanupRow(s.db.tickets[id], now) == None {
        NoneReserved(cfg, s, id);
      }
      assert (set id | id in s.db.tickets && CleanupRow(s.db.tickets[id], now).Some?) == {};
      Perform(Cleanup(now), s.(db := s.db.(tickets := CleanedUp(s.db.tickets, now))));
    }

    /** One ordered query of the fetch reads the waiting tickets of this moment. */
    method ReadWaiting(sid: SessionId) returns (rows: set<WaitingTicket>)
      requires Valid() && sid in s.workers && s.workers[sid].pc.Idle?
      modifies this
      ensures Longer() && sid in s.workers && s.workers[sid].pc.Idle?
      ensures CommitsBy(AsWorker(sid), labels) == CommitsBy(AsWorker(sid), old(labels))
      ensures s.workers[sid].fetched == old(s.workers[sid].fetched) + rows
      ensures rows == WaitingRows(s.db) && Fetching.PrimaryKey(rows) && |old(labels)| < |labels|
    {
      Others(AsWorker(sid));
      var ids := set id | id in s.db.tickets && s.db.tickets[id].status.Waiting?;
      rows := WaitingRows(s.db);
      assert rows == set id | id in ids :: Snapshot(id, s.db.tickets[id]);
      CommitsAppend(AsWorker(sid), labels, WorkerStep(sid, WorkerLabel.Fetch(ids)));
      Perform(WorkerStep(sid, WorkerLabel.Fetch(ids)), AfterStatement(s, sid, WorkerLabel.Fetch(ids)));
    }

    /** The tickets to search, read in one query or two, of the tickets waiting in the states `one`
        and `two`. */
    method ReadBatch(sid: SessionId, partitions: set<int>, batch: int, freshnessBias: bool)
      returns (tickets: seq<WaitingTicket>, ghost one: nat, ghost two: nat)
      requires Valid() && sid in s.workers && s.workers[sid].pc.Idle?
      modifies this
      ensures Longer() && sid in s.workers && s.workers[sid].pc.Idle?
      ensures CommitsBy(AsWorker(sid), labels) == CommitsBy(AsWorker(sid), old(labels))
      ensures DistinctIds(tickets) && forall t :: t in tickets ==> t in s.workers[sid].fetched
      ensures OfBatch(tickets, partitions, batch)
      ensures |old(labels)| <= one <= two < |states| && (freshnessBias ==> one < two)
      ensures Fetched(states, one, two, partitions, batch, freshnessBias, tickets)
    {
      var first := ReadWaiting(sid);
      var second := first;
      one, two := |labels|, |labels|;
      ghost var seen := s;
      if freshnessBias {
        second := ReadWaiting(sid);
        two := |labels|;
      }
      assert states[one] == seen;
      tickets := Fetching.FetchWaitingTickets(first, second, partitions, batch, freshnessBias, None, 0);
      BatchIsSound(first, second, partitions, batch, freshnessBias, tickets);
    }

    /** The matching part of `run_loop`: fetch, search, and commit pairs one by one.  `one` and `two`
        are the states the fetch saw. */
    method RunLoop(sid: SessionId, partitions: set<int>, settings: Settings, batch: int, freshnessBias: bool,
                   clock: Clock, maxPairs: int, until: int)
      returns (matches: nat, budgetExceeded: bool, raised: bool, ghost tickets: seq<WaitingTicket>, ghost one: nat,
               ghost two: nat, ghost idx: Positions, ghost made: seq<(nat, MatchId)>, ghost lost: bool,
               ghost tries: seq<Tried>)
      requires Valid() && sid in s.workers && s.workers[sid].pc.Idle? && clock as object != this
      modifies this, clock, trouble, budget
      ensures Longer() && sid in s.workers && s.workers[sid].pc.Idle?
      ensures |old(labels)| <= one <= two < |states| && (freshnessBias ==> one < two)
      ensures Fetched(states, one, two, partitions, batch, freshnessBias, tickets)
      ensures OfBatch(tickets, partitions, batch)
      ensures settings.matchSize != 2 ==> raised && matches == 0 && made == []
      ensures settings.matchSize == 2 ==>
                && PairingDone(tickets, settings, old(clock.now), clock.now, idx)
                && AllCommitted(s.db, Pick(tickets, idx), made) && OwnMatches(s.db, Pick(tickets, idx), made)
                && AllTried(states, sid, |old(labels)|, Pick(tickets, idx), tries) && OnlyLastRaised(tries, raised)
                && (!raised && !budgetExceeded && matches < maxPairs ==> |tries| == |idx|)
                && (trouble.hits == old(trouble.hits) ==> Smooth(tries))
      ensures settings.matchSize == 2 ==> Counted(tries) == matches == |made| + if raised then 1 else 0
      ensures CommitsBy(AsWorker(sid), labels) == CommitsBy(AsWorker(sid), old(labels)) + |made| + if lost then 1 else 0
      ensures lost ==> raised
      ensures budget.hits == old(budget.hits) + if budgetExceeded then 1 else 0
      ensures budget.met == old(budget.met) + |tries| + if budgetExceeded then 1 else 0
    {
      tickets, idx, made, lost, tries := [], [], [], false, [];
      var batchRead;
      batchRead, one, two := ReadBatch(sid, partitions, batch, freshnessBias);
      tickets := batchRead;
      ghost var t0, read := clock.now, states;
      var search;
      search, idx := FindPairs(batchRead, settings, clock);
      if search.UnsupportedMatchSize? {
        return 0, false, true, tickets, one, two, idx, [], false, [];
      }
      PairsAreEligible(tickets, settings, t0, clock.now, idx, s.workers[sid]);
      var processed;
      matches, processed, budgetExceeded, raised, made, lost, tries :=
        ProcessPairs(sid, search.pairs, maxPairs, until);
      assert PairingDone(tickets, settings, t0, clock.now, idx);
      FetchedStays(read, states, one, two, partitions, batch, freshnessBias, tickets);
    }

    // ----- app/api/routes/tickets.py -----

    /** `cancel_ticket`: one autocommitted UPDATE.  It waits while a worker holds the row; a
        caller that stops waiting gets no answer. */
    method CancelTicket(id: TicketId, tenantId: string) returns (r: CancelOutcome)
      requires Valid()
      modifies this, trouble
      ensures Longer() && trouble.hits == old(trouble.hits) + if r.Unanswered? then 1 else 0
      ensures r.WasCancelled? ==>
                id in s.db.tickets && s.db.tickets[id].status.Cancelled? && s.db.tickets[id].tenantId == tenantId
      ensures r.WasCancelled? ==>
                && labels[|labels| - 1] == Label.Cancel(id, tenantId)
                && var before := states[|labels| - 1].db.tickets;
                id in before && before[id].status.Waiting? && s.db.tickets == before[id := s.db.tickets[id]]
      ensures r.NotFound? ==>
                !(id in s.db.tickets && s.db.tickets[id].tenantId == tenantId && s.db.tickets[id].status.Waiting?)
    {
      Others(AsAnyone);
      var fails := trouble.Strikes();
      if !fails && Locked(s, id) {
        fails := true;
        trouble.Strike();
      }
      if fails {
        return Unanswered;
      }
      r := if id in s.db.tickets && CancelRow(s.db.tickets[id], tenantId).Some? then WasCancelled else NotFound;
      ReachableIsOk(cfg, states, labels, |labels|);
      if id in s.db.tickets {
        NoneReserved(cfg, s, id);
      }
      Perform(Label.Cancel(id, tenantId), AfterCancel(s, id, tenantId));
    }

    /** What a request's own statements leave alone: it commits nothing. */
    twostate predicate Pending(rid: RequestId)
      reads this
    {
      && Longer() && rid in old(s).requests && rid in s.requests
      && s.requests[rid] == old(s).requests[rid].(phase := s.requests[rid].phase)
      && CommitsBy(AsRequest(rid), labels) == CommitsBy(AsRequest(rid), old(labels))
    }

    /** The last step was statement `l` of the request, run in state `at`. */
    twostate predicate Asked(rid: RequestId, l: RequestLabel, at: nat)
      requires rid in old(s).requests
      reads this
    {
      && |old(labels)| <= at < |states| && rid in s.requests && rid in states[at].requests
      && states[at].requests[rid] == old(s).requests[rid]
      && Handle(cfg, states[at], rid, l) == Some(s.requests[rid].phase)
    }

    /** Run one statement of the request, in state `at`, or end it with an error. */
    method Ask(rid: RequestId, l: RequestLabel) returns (done: bool, ghost at: nat)
      requires Valid() && rid in s.requests && !s.requests[rid].phase.Done? && !l.Fail?
      modifies this, trouble
      ensures Pending(rid) && Advances(old(s.requests[rid]), l, s.requests[rid].phase)
      ensures done <==> s.requests[rid].phase.Done?
      ensures trouble.hits == old(trouble.hits) ==> Asked(rid, l, at)
      ensures trouble.hits != old(trouble.hits) ==>
                trouble.hits == old(trouble.hits) + 1 && s.requests[rid].phase == Done(ServerError)
    {
      Others(AsRequest(rid));
      at := |labels|;
      ghost var before := s;
      var fails := trouble.Strikes();
      if !fails && Handle(cfg, s, rid, l).None? {
        fails := true;
        trouble.Strike();
      }
      var step := if fails then Fail else l;
      StatementAdvances(cfg, s, rid, step);
      CommitsAppend(AsRequest(rid), labels, RequestStep(rid, step));
      Perform(RequestStep(rid, step), AfterHandling(cfg, s, rid, step));
      assert states[at] == before;
      done := s.requests[rid].phase.Done?;
    }

    /** A key stored at the beginning of the call answers the request, unless that fails. */
    twostate predicate AnsweredFromKey(rid: RequestId)
      requires rid in old(s).requests
      reads this
    {
      var r := old(s).requests[rid];
      r.key.Some? && (r.tenantId, r.key.value) in old(s).db.keys ==>
        && rid in s.requests && s.requests[rid].phase.Done?
        && var answer := s.requests[rid].phase.response;
        answer.ServerError? || answer == FromStored(cfg, r, old(s).db.keys[(r.tenantId, r.key.value)])
    }

    /** `check_idempotency_key`. */
    method AskForKey(rid: RequestId) returns (done: bool)
      requires Valid() && rid in s.requests && s.requests[rid].phase.Arrived?
      modifies this, trouble
      ensures Pending(rid) && Advances(old(s.requests[rid]), CheckKey, s.requests[rid].phase)
      ensures done <==> s.requests[rid].phase.Done?
      ensures AnsweredFromKey(rid)
      ensures trouble.hits >= old(trouble.hits)
      ensures done ==>
                var answer := s.requests[rid].phase.response;
                answer.Replay? || answer.KeyConflict? ||
                (answer.ServerError? && (trouble.hits > old(trouble.hits) || cfg.partitions == 0))
    {
      ghost var i := |labels|;
      Others(AsRequest(rid));
      History(cfg, states, labels, i, |labels|);
      var fails := trouble.Strikes();
      var step := if fails then Fail else CheckKey;
      StatementAdvances(cfg, s, rid, step);
      CommitsAppend(AsRequest(rid), labels, RequestStep(rid, step));
      Perform(RequestStep(rid, step), AfterHandling(cfg, s, rid, step));
      done := s.requests[rid].phase.Done?;
    }

    /** What the answer of a request that is done so far rests on. */
    twostate predicate Justified(rid: RequestId)
      requires rid in old(s).requests
      reads this, trouble, limiter, load
    {
      rid in s.requests && s.requests[rid].phase.Done? ==>
        Explained(cfg, states, |old(labels)|, old(s).requests[rid].tenantId, old(s).requests[rid].body,
                  s.requests[rid].phase.response, limiter.hits > old(limiter.hits), load.hits > old(load.hits),
                  trouble.hits > old(trouble.hits))
    }

    /** `check_rate_limit` and `check_tenant_quota`, the latter in state `at`. */
    method AskForQuota(rid: RequestId) returns (done: bool, ghost at: nat)
      requires Valid() && rid in s.requests && s.requests[rid].phase.KeyUnknown?
      modifies this, trouble, limiter
      ensures Pending(rid) && (done <==> s.requests[rid].phase.Done?) && trouble.hits >= old(trouble.hits)
      ensures !done ==>
                && s.requests[rid].phase.QuotaOk? && |old(labels)| <= at < |labels|
                && limiter.met == old(limiter.met) + 1 && limiter.hits == old(limiter.hits)
                && QuotaSeen(cfg, states, at, s.requests[rid].tenantId, false)
      ensures done ==>
                && (s.requests[rid].phase.response.TooManyRequests? || s.requests[rid].phase.response.ServerError?)
                && Justified(rid) && limiter.hits >= old(limiter.hits)
    {
      var limited := limiter.Strikes();
      done, at := Ask(rid, if limited then RateLimited else CheckQuota);
      if trouble.hits == old(trouble.hits) && !limited {
        WhyQuota(cfg, states, at, rid);
      }
    }

    /** `check_partition_depth`, in state `at`, and `check_db_load_shedding`. */
    method AskForDepth(rid: RequestId) returns (done: bool, ghost at: nat)
      requires Valid() && rid in s.requests && s.requests[rid].phase.QuotaOk?
      modifies this, trouble, load
      ensures Pending(rid) && (done <==> s.requests[rid].phase.Done?) && trouble.hits >= old(trouble.hits)
      ensures !done ==>
                && s.requests[rid].phase.DepthOk? && |old(labels)| <= at < |states|
                && load.met == old(load.met) + 1 && load.hits == old(load.hits)
                && DepthSeen(cfg, states, at, s.requests[rid].tenantId, s.requests[rid].body, false)
      ensures done && s.requests[rid].phase.response.ServerError? ==> trouble.hits > old(trouble.hits)
      ensures done && !s.requests[rid].phase.response.ServerError? ==>
                && s.requests[rid].phase.response.Overloaded? && |old(labels)| <= at < |states|
                && load.hits >= old(load.hits)
                && (DepthSeen(cfg, states, at, s.requests[rid].tenantId, s.requests[rid].body, true) ||
                    (load.hits > old(load.hits) &&
                     DepthSeen(cfg, states, at, s.requests[rid].tenantId, s.requests[rid].body, false)))
    {
      done, at := Ask(rid, CheckDepth);
      if trouble.hits == old(trouble.hits) {
        WhyDepth(cfg, states, at, rid);
      }
      if !done {
        ghost var judged := states[at];
        var slow := load.Strikes();
        if slow {
          ghost var ignored;
          done, ignored := Ask(rid, Shed);
          assert states[at] == judged;
        }
      }
    }

    /** The admission checks that precede the transaction; the quota is checked in state `quota` and the
        depth in state `depth`. */
    method Admit(rid: RequestId) returns (done: bool, ghost quota: nat, ghost depth: nat)
      requires Valid() && rid in s.requests && s.requests[rid].phase.Arrived?
      modifies this, trouble, limiter, load
      ensures Pending(rid) && (done <==> s.requests[rid].phase.Done?)
      ensures done ==> !s.requests[rid].phase.response.TicketCreated? && Justified(rid)
      ensures !done ==>
                && s.requests[rid].phase.DepthOk? && limiter.hits == old(limiter.hits) && load.hits == old(load.hits)
                && limiter.met == old(limiter.met) + 1 && load.met == old(load.met) + 1
                && Checked(cfg, states, |old(labels)|, quota, depth, s.requests[rid].tenantId, s.requests[rid].body,
                           false)
      ensures AnsweredFromKey(rid) && trouble.hits >= old(trouble.hits)
    {
      quota, depth := 0, 0;
      done := AskForKey(rid);
      if done { return; }
      done, quota := AskForQuota(rid);
      if done { return; }
      ghost var judged := states[quota];
      done, depth := AskForDepth(rid);
      assert states[quota] == judged;
      if done && s.requests[rid].phase.response.Overloaded? {
        ghost var r := s.requests[rid];
        assert Checked(cfg, states, |old(labels)|, quota, depth, r.tenantId, r.body, true) ||
               Checked(cfg, states, |old(labels)|, quota, depth, r.tenantId, r.body, false);
      }
    }

    /** The transaction up to its commit; a clash is seen in state `at`. */
    method InsertPrivately(rid: RequestId, id: TicketId, createdAt: int) returns (done: bool, ghost at: nat)
      requires Valid() && rid in s.requests && s.requests[rid].phase.DepthOk?
      modifies this, trouble
      ensures Pending(rid) && (done <==> s.requests[rid].phase.Done?) && trouble.hits >= old(trouble.hits)
      ensures done ==>
                var answer := s.requests[rid].phase.response;
                || answer.Replay? || answer.KeyConflict? || (answer.ServerError? && trouble.hits > old(trouble.hits))
                || (answer.DuplicateTicket? && |old(labels)| <= at < |states| &&
                    ActiveSeen(states, at, s.requests[rid].tenantId, s.requests[rid].body))
      ensures !done ==> CanCommit(s.requests[rid]) && CreatedAt(s.requests[rid], createdAt)
    {
      if s.requests[rid].key.Some? {
        done, at := Ask(rid, ReserveKey);
        if done { return; }
        if s.requests[rid].phase.LostRace? {
          done, at := ReadAnswer(rid);
          return;
        }
      }
      done, at := InsertRow(rid, id, createdAt);
      if done { return; }
      if s.requests[rid].key.Some? {
        done, at := Ask(rid, FinalizeKey);
      }
    }

    /** `fetch_stored_response`: the winner's row is there. */
    method ReadAnswer(rid: RequestId) returns (done: bool, ghost at: nat)
      requires Valid() && rid in s.requests && s.requests[rid].phase.LostRace?
      modifies this, trouble
      ensures Pending(rid) && done && s.requests[rid].phase.Done? && trouble.hits >= old(trouble.hits)
      ensures var answer := s.requests[rid].phase.response;
              answer.Replay? || answer.KeyConflict? || (answer.ServerError? && trouble.hits > old(trouble.hits))
    {
      done, at := Ask(rid, ReadStored);
      if trouble.hits == old(trouble.hits) {
        ReachableIsOk(cfg, states, labels, at);
        assert RequestOk(cfg, states[at].db, states[at].requests[rid]);
      }
    }

    /** The INSERT, in state `at`. */
    method InsertRow(rid: RequestId, id: TicketId, createdAt: int) returns (done: bool, ghost at: nat)
      requires Valid() && rid in s.requests
      requires (s.requests[rid].phase.DepthOk? && s.requests[rid].key.None?) || s.requests[rid].phase.Holding?
      modifies this, trouble
      ensures Pending(rid) && (done <==> s.requests[rid].phase.Done?) && trouble.hits >= old(trouble.hits)
      ensures Advances(old(s.requests[rid]), InsertTicket(id, createdAt), s.requests[rid].phase)
      ensures done ==>
                var answer := s.requests[rid].phase.response;
                || (answer.ServerError? && trouble.hits > old(trouble.hits))
                || (answer.DuplicateTicket? && |old(labels)| <= at < |states| &&
                    ActiveSeen(states, at, s.requests[rid].tenantId, s.requests[rid].body))
    {
      done, at := Ask(rid, InsertTicket(id, createdAt));
      if trouble.hits == old(trouble.hits) {
        WhyDuplicate(cfg, states, at, rid, id, createdAt);
      }
    }

    /** The end of the transaction.  It commits, or fails and leaves nothing; and it may commit
        while its acknowledgement is lost, which the caller cannot tell from a failure. */
    method CommitTicket(rid: RequestId) returns (ok: bool)
      requires Valid() && rid in s.requests && CanCommit(s.requests[rid])
      modifies this, trouble
      ensures Longer() && rid in s.requests && s.requests[rid].phase.Done?
      ensures s.requests[rid] == old(s.requests[rid]).(phase := s.requests[rid].phase)
      ensures CommitsBy(AsRequest(rid), labels) ==
              CommitsBy(AsRequest(rid), old(labels)) + if HasCreated(s.requests[rid]) then 1 else 0
      ensures ok ==> HasCreated(s.requests[rid])
      ensures !ok && !HasCreated(s.requests[rid]) ==> s.requests[rid].phase.response.ServerError?
      ensures trouble.hits == old(trouble.hits) + if ok then 0 else 1
      ensures CreatedAt(s.requests[rid], old(s.requests[rid].phase.ticket.createdAt))
    {
      Others(AsRequest(rid));
      var fails := trouble.Strikes();
      var lost: bool := *;
      ok := !fails;
      if ok || lost {
        CommitsAppend(AsRequest(rid), labels, RequestCommit(rid));
        Perform(RequestCommit(rid), AfterRequestCommit(s, rid));
      } else {
        CommitsAppend(AsRequest(rid), labels, RequestStep(rid, Fail));
        Perform(RequestStep(rid, Fail), AfterHandling(cfg, s, rid, Fail));
      }
    }

    /** From arrival to answer. */
    method Serve(rid: RequestId, createdAt: int) returns (r: Response)
      requires Valid() && rid in s.requests && s.requests[rid].phase.Arrived?
      modifies this, trouble, limiter, load
      ensures Longer() && rid in s.requests && s.requests[rid].phase.Done?
      ensures Explained(cfg, states, |old(labels)|, old(s.requests[rid].tenantId), old(s.requests[rid].body), r,
                        limiter.hits > old(limiter.hits), load.hits > old(load.hits), trouble.hits > old(trouble.hits))
      ensures HasCreated(s.requests[rid]) ==>
                limiter.met == old(limiter.met) + 1 && load.met == old(load.met) + 1
      ensures s.requests[rid] == old(s.requests[rid]).(phase := s.requests[rid].phase)
      ensures CreatedAt(s.requests[rid], createdAt)
      ensures s.requests[rid].phase == Done(r) || (HasCreated(s.requests[rid]) && r.ServerError?)
      ensures CommitsBy(AsRequest(rid), labels) ==
              CommitsBy(AsRequest(rid), old(labels)) + if HasCreated(s.requests[rid]) then 1 else 0
      ensures AnsweredFromKey(rid)
    {
      ghost var quota, depth;
      var done;
      done, quota, depth := Admit(rid);
      if !done {
        ghost var admitted := states;
        var id: TicketId := *;
        ghost var at;
        done, at := InsertPrivately(rid, id, createdAt);
        CheckedStays(cfg, admitted, states, |old(labels)|, quota, depth, s.requests[rid].tenantId,
                     s.requests[rid].body);
        if !done {
          admitted := states;
          var ok := CommitTicket(rid);
          CheckedStays(cfg, admitted, states, |old(labels)|, quota, depth, s.requests[rid].tenantId,
                       s.requests[rid].body);
          return if ok then s.requests[rid].phase.response else ServerError;
        }
      }
      r := s.requests[rid].phase.response;
    }

    /** `create_ticket`.  The answer is true of the database when it is given: a created ticket
        exists and is the one asked for, with its key finalized; a replay or a conflict quotes the
        stored row of the key.  An error may hide a ticket that was created, by exactly one commit;
        whoever then asks again under the same key is answered with that ticket, and creates
        nothing. */
    method CreateTicket(rid: RequestId, tenantId: string, key: Option<string>, body: TicketCreate, createdAt: int)
      returns (r: Response)
      requires Valid() && rid !in s.requests
      modifies this, trouble, limiter, load
      ensures Longer() && rid in s.requests && s.requests[rid].phase.Done?
      ensures s.requests[rid] == Request(tenantId, key, body, s.requests[rid].phase)
      ensures CreatedAt(s.requests[rid], createdAt)
      ensures s.requests[rid].phase == Done(r) || (HasCreated(s.requests[rid]) && r.ServerError?)
      ensures ResponseOk(cfg, s.db, s.requests[rid], r)
      ensures Explained(cfg, states, |old(labels)|, tenantId, body, r, limiter.hits > old(limiter.hits),
                        load.hits > old(load.hits), trouble.hits > old(trouble.hits))
      ensures HasCreated(s.requests[rid]) ==>
                limiter.met == old(limiter.met) + 1 && load.met == old(load.met) + 1
      ensures CommitsBy(AsRequest(rid), labels) ==
              CommitsBy(AsRequest(rid), old(labels)) + if HasCreated(s.requests[rid]) then 1 else 0
      ensures forall q :: q in old(s).requests && CreatedUnder(old(s).requests[q], tenantId, key) ==>
                !HasCreated(s.requests[rid]) && (r.ServerError? || r == RetryAnswer(cfg, old(s).requests[q], body))
    {
      ghost var before := s;
      ReachableIsOk(cfg, states, labels, |labels|);
      r := Receive(rid, tenantId, key, body, createdAt);
      AnsweredLikeCreator(cfg, before, Request(tenantId, key, body, Arrived), s.requests[rid], r);
      AnswerIsTrue(cfg, states, labels, rid);
    }

    /** The request arrives and is served. */
    method Receive(rid: RequestId, tenantId: string, key: Option<string>, body: TicketCreate, createdAt: int)
      returns (r: Response)
      requires Valid() && rid !in s.requests
      modifies this, trouble, limiter, load
      ensures Longer() && rid in s.requests && s.requests[rid].phase.Done?
      ensures s.requests[rid] == Request(tenantId, key, body, s.requests[rid].phase)
      ensures CreatedAt(s.requests[rid], createdAt)
      ensures s.requests[rid].phase == Done(r) || (HasCreated(s.requests[rid]) && r.ServerError?)
      ensures Explained(cfg, states, |old(labels)|, tenantId, body, r, limiter.hits > old(limiter.hits),
                        load.hits > old(load.hits), trouble.hits > old(trouble.hits))
      ensures HasCreated(s.requests[rid]) ==>
                limiter.met == old(limiter.met) + 1 && load.met == old(load.met) + 1
      ensures CommitsBy(AsRequest(rid), labels) ==
              CommitsBy(AsRequest(rid), old(labels)) + if HasCreated(s.requests[rid]) then 1 else 0
      ensures key.Some? && (tenantId, key.value) in old(s).db.keys ==>
                var answer := s.requests[rid].phase.response;
                answer.ServerError? || answer == FromStored(cfg, Request(tenantId, key, body, Arrived),
                                                            old(s).db.keys[(tenantId, key.value)])
    {
      ghost var from := |labels|;
      CommitsAppend(AsRequest(rid), labels, Arrive(rid, tenantId, key, body));
      Perform(Arrive(rid, tenantId, key, body),
              s.(requests := s.requests[rid := Request(tenantId, key, body, Arrived)]));
      r := Serve(rid, createdAt);
      ExplainedSince(cfg, states, from, from + 1, tenantId, body, r, limiter.hits > old(limiter.hits),
                     load.hits > old(load.hits), trouble.hits > old(trouble.hits));
    }
  }

  /** A request that is answered from a stored key is answered like every creator under that key. */
  lemma AnsweredLikeCreator(cfg: Config, s: State, asked: Request, answered: Request, r: Response)
    requires Inv(cfg, s) && answered.phase.Done?
    requires answered.phase == Done(r) || (HasCreated(answered) && r.ServerError?)
    requires asked.key.Some? && (asked.tenantId, asked.key.value) in s.db.keys ==>
               var answer := answered.phase.response;
               answer.ServerError? || answer == FromStored(cfg, asked, s.db.keys[(asked.tenantId, asked.key.value)])
    ensures forall q :: q in s.requests && CreatedUnder(s.requests[q], asked.tenantId, asked.key) ==>
              !HasCreated(answered) && (r.ServerError? || r == RetryAnswer(cfg, s.requests[q], asked.body))
  {
    forall q | q in s.requests && CreatedUnder(s.requests[q], asked.tenantId, asked.key)
      ensures !HasCreated(answered) && (r.ServerError? || r == RetryAnswer(cfg, s.requests[q], asked.body))
    {
      CreatedRow(cfg, s, q, asked);
    }
  }

  function WaitingRows(db: Db): set<WaitingTicket> {
    set id | id in db.tickets && db.tickets[id].status.Waiting? :: Snapshot(id, db.tickets[id])
  }

  /** A completed search over distinct tickets. */
  ghost predicate PairingDone(tickets: seq<WaitingTicket>, settings: Settings, t0: int, t1: int, idx: Positions) {
    DistinctIds(tickets) && GreedySearch(tickets, settings, t0, t1, idx)
  }

  /** No more tickets than a batch, all of the given partitions. */
  ghost predicate OfBatch(tickets: seq<WaitingTicket>, partitions: set<int>, batch: int) {
    |tickets| <= Max(0, batch) && forall t :: t in tickets ==> t.partitionId in partitions
  }

  /** The batch is what the fetch makes of two snapshots; there is no limit on the age. */
  ghost predicate BatchOf(first: set<WaitingTicket>, second: set<WaitingTicket>, partitions: set<int>, batch: int,
                          freshnessBias: bool, out: seq<WaitingTicket>)
  {
    if partitions == {} then out == []
    else if freshnessBias
    then Fetching.TwoEnded(Fetching.Selected(first, partitions, None, 0),
                           Fetching.Selected(second, partitions, None, 0), batch, out)
    else Fetching.OrderedAnswer(Fetching.Selected(first, partitions, None, 0), false, batch, out)
  }

  /** The batch was fetched of the tickets waiting in two states of the run. */
  ghost predicate Fetched(states: seq<State>, one: nat, two: nat, partitions: set<int>, batch: int,
                          freshnessBias: bool, tickets: seq<WaitingTicket>)
    requires one < |states| && two < |states|
  {
    BatchOf(WaitingRows(states[one].db), WaitingRows(states[two].db), partitions, batch, freshnessBias, tickets)
  }

  lemma FetchedStays(before: seq<State>, states: seq<State>, one: nat, two: nat, partitions: set<int>, batch: int,
                     freshnessBias: bool, tickets: seq<WaitingTicket>)
    requires one < |before| && two < |before| && before <= states
    requires Fetched(before, one, two, partitions, batch, freshnessBias, tickets)
    ensures Fetched(states, one, two, partitions, batch, freshnessBias, tickets)
  {
    assert states[one] == before[one] && states[two] == before[two];
  }

  /** Whatever the two snapshots, the batch has distinct ids and comes from them. */
  lemma BatchIsSound(first: set<WaitingTicket>, second: set<WaitingTicket>, partitions: set<int>, batch: int,
                     freshnessBias: bool, out: seq<WaitingTicket>)
    requires Fetching.PrimaryKey(first) && Fetching.PrimaryKey(second)
    requires BatchOf(first, second, partitions, batch, freshnessBias, out)
    ensures DistinctIds(out) && forall t :: t in out ==> t in first + second
    ensures OfBatch(out, partitions, batch)
  {
    if partitions != {} && freshnessBias {
      Fetching.BatchHasDistinctIds(Fetching.Selected(first, partitions, None, 0),
                                   Fetching.Selected(second, partitions, None, 0), batch, out);
    } else if partitions != {} {
      assert forall t :: t in out ==> t in Elements(out);
      forall i, j | 0 <= i < j < |out| ensures out[i].ticketId != out[j].ticketId {
        assert out[i] in Elements(out) && out[j] in Elements(out);
      }
    }
  }

  /** What the search returns may be handed to `create_match_from_pair`. */
  lemma PairsAreEligible(tickets: seq<WaitingTicket>, settings: Settings, t0: int, t1: int, idx: Positions, w: Worker)
    requires DistinctIds(tickets) && GreedySearch(tickets, settings, t0, t1, idx)
    requires forall t :: t in tickets ==> t in w.fetched
    ensures var pairs := Pick(tickets, idx); forall k :: 0 <= k < |pairs| ==> PairOk(w, pairs[k].0, pairs[k].1)
  {
    var pairs := Pick(tickets, idx);
    forall k | 0 <= k < |pairs| ensures PairOk(w, pairs[k].0, pairs[k].1) {
      assert FirstFit(tickets, settings, t0, t1, idx, k);
    }
  }
}
