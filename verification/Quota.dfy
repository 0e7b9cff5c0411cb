/** The unlocked check-then-insert quotas of app/core/admission.py: a tenant's waiting tickets
    and a partition's depth can overshoot, but only by the number of creations in flight. */
module Quota {
  import opened Sql
  import opened Pairing
  import opened Schema
  import opened Protocol
  import opened Invariant
  import opened Atomic
  import opened Refinement
  import opened ProtocolTheorems

  /** What a quota counts. */
  datatype Scope = OfTenant(tenantId: string) | OfPartition(p: int)

  function WaitingIn(db: Db, scope: Scope): set<TicketId> {
    match scope
    case OfTenant(tenantId) => WaitingOfTenant(db, tenantId)
    case OfPartition(p) => WaitingInPartition(db, p)
  }

  predicate MayStillInsert(r: Request) {
    r.phase.DepthOk? || r.phase.Holding? || HoldsTicket(r)
  }

  /** The request has passed the quota's check and neither committed nor given up. */
  predicate Counts(cfg: Config, r: Request, scope: Scope) {
    match scope
    case OfTenant(tenantId) => r.tenantId == tenantId && (r.phase.QuotaOk? || MayStillInsert(r))
    case OfPartition(p) => cfg.partitions > 0 && PartitionOf(cfg, r) == p && MayStillInsert(r)
  }

  function InFlight(cfg: Config, s: State, scope: Scope): set<RequestId> {
    set r | r in s.requests && Counts(cfg, s.requests[r], scope)
  }

  /** A tenant's queue in a region. */
  datatype Place = Place(tenantId: string, region: string, queueName: string)

  function PartitionFor(cfg: Config, at: Place): int
    requires cfg.partitions > 0
  {
    ComputePartitionId(cfg.hash, at.tenantId, at.region, at.queueName, cfg.partitions).value
  }

  /** Some queue of the tenant lies in partition `p`. */
  ghost predicate Reaches(cfg: Config, t: string, p: int) {
    exists at: Place {:trigger PartitionFor(cfg, at)} ::
      cfg.partitions > 0 && at.tenantId == t && PartitionFor(cfg, at) == p
  }

  /** `limit` is the tenant's own limit, or no less than that of any tenant with a queue in the
      partition. */
  ghost predicate IsLimit(cfg: Config, scope: Scope, limit: int) {
    match scope
    case OfTenant(tenantId) => limit == cfg.maxInFlight(tenantId)
    case OfPartition(p) => forall t {:trigger Reaches(cfg, t, p)} :: Reaches(cfg, t, p) ==> cfg.maxDepth(t) <= limit
  }

  ghost predicate Bounded(cfg: Config, s: State, scope: Scope, limit: int, c: nat) {
    |WaitingIn(s.db, scope)| + |InFlight(cfg, s, scope)| <= Max(0, limit) + c - 1
  }

  lemma FewerWaiting(cfg: Config, s: State, s': State, scope: Scope, limit: int, c: nat)
    requires Bounded(cfg, s, scope, limit, c)
    requires WaitingIn(s'.db, scope) <= WaitingIn(s.db, scope) && InFlight(cfg, s', scope) <= InFlight(cfg, s, scope)
    ensures Bounded(cfg, s', scope, limit, c)
  {
    SubsetCount(WaitingIn(s'.db, scope), WaitingIn(s.db, scope));
    SubsetCount(InFlight(cfg, s', scope), InFlight(cfg, s, scope));
  }

  /** Matches, cancellations, cleanups and deliveries only take tickets out of the count. */
  lemma ActionsDrain(cfg: Config, db: Db, a: Action, db': Db, scope: Scope)
    requires AtomicStep(cfg, db, a, db') && !a.CreateTicket?
    ensures WaitingIn(db', scope) <= WaitingIn(db, scope)
  {
  }

  /** Passing the check: the count was below the limit when it was read. */
  lemma RequestStepBounded(cfg: Config, s: State, rid: RequestId, l: RequestLabel, s': State, scope: Scope, limit: int,
                           c: nat)
    requires rid in s.requests && Handle(cfg, s, rid, l).Some? && s' == AfterHandling(cfg, s, rid, l)
    requires IsLimit(cfg, scope, limit) && Bounded(cfg, s, scope, limit, c) && |InFlight(cfg, s', scope)| <= c
    ensures Bounded(cfg, s', scope, limit, c)
  {
    var before, after := s.requests[rid], s'.requests[rid];
    if Counts(cfg, after, scope) && !Counts(cfg, before, scope) {
      assert (l.CheckQuota? && scope.OfTenant?) || (l.CheckDepth? && scope.OfPartition?);
      if scope.OfPartition? {
        assert PartitionFor(cfg, Place(before.tenantId, before.body.region, before.body.queueName)) == scope.p;
        assert Reaches(cfg, before.tenantId, scope.p);
      }
      assert |WaitingIn(s.db, scope)| < limit;
    } else {
      FewerWaiting(cfg, s, s', scope, limit, c);
    }
  }

  lemma OneMoreWaiting(db: Db, r: Request, scope: Scope)
    requires CanCommit(r)
    ensures |WaitingIn(Committed(db, r), scope)| <= |WaitingIn(db, scope)| + 1
  {
    assert WaitingIn(Committed(db, r), scope) <= WaitingIn(db, scope) + {r.phase.ticketId};
    SubsetCount(WaitingIn(Committed(db, r), scope), WaitingIn(db, scope) + {r.phase.ticketId});
    UnionWithOne(WaitingIn(db, scope), r.phase.ticketId);
  }

  /** A request that does not count towards the scope commits a ticket outside it. */
  lemma OutOfScope(cfg: Config, s: State, rid: RequestId, scope: Scope)
    requires rid in s.requests && CanCommit(s.requests[rid]) && RequestOk(cfg, s.db, s.requests[rid])
    requires !Counts(cfg, s.requests[rid], scope)
    ensures WaitingIn(Committed(s.db, s.requests[rid]), scope) <= WaitingIn(s.db, scope)
  {
  }

  /** A commit turns the request in flight into at most one waiting ticket. */
  lemma RequestCommitBounded(cfg: Config, s: State, rid: RequestId, s': State, scope: Scope, limit: int, c: nat)
    requires rid in s.requests && CanCommit(s.requests[rid]) && s' == AfterRequestCommit(s, rid)
    requires RequestOk(cfg, s.db, s.requests[rid]) && Bounded(cfg, s, scope, limit, c)
    ensures Bounded(cfg, s', scope, limit, c)
  {
    var r := s.requests[rid];
    if Counts(cfg, r, scope) {
      OneMoreWaiting(s.db, r, scope);
      assert InFlight(cfg, s', scope) == InFlight(cfg, s, scope) - {rid};
      assert rid in InFlight(cfg, s, scope);
    } else {
      OutOfScope(cfg, s, rid, scope);
      assert InFlight(cfg, s', scope) <= InFlight(cfg, s, scope);
      FewerWaiting(cfg, s, s', scope, limit, c);
    }
  }

  lemma UnionWithOne<T>(a: set<T>, x: T)
    ensures |a + {x}| <= |a| + 1
  {
    if x in a {
      assert a + {x} == a;
    }
  }

  lemma StepBounded(cfg: Config, s: State, l: Label, s': State, scope: Scope, limit: int, c: nat)
    requires Inv(cfg, s) && Next(cfg, s, l, s')
    requires IsLimit(cfg, scope, limit) && Bounded(cfg, s, scope, limit, c) && |InFlight(cfg, s', scope)| <= c
    ensures Bounded(cfg, s', scope, limit, c)
  {
    StepRefines(cfg, s, l, s');
    var a := ActionOf(s, l);
    if a.Some? && !a.value.CreateTicket? {
      ActionsDrain(cfg, s.db, a.value, s'.db, scope);
    }
    match l
    case RequestStep(rid, rl) => RequestStepBounded(cfg, s, rid, rl, s', scope, limit, c);
    case RequestCommit(rid) =>
      assert RequestOk(cfg, s.db, s.requests[rid]);
      RequestCommitBounded(cfg, s, rid, s', scope, limit, c);
    case _ => FewerWaiting(cfg, s, s', scope, limit, c);
  }

  /** In any run in which at most `c` creations are ever between check and commit, the quota
      is exceeded by at most `c - 1`. */
  lemma {:induction false} OvershootBounded(cfg: Config, states: seq<State>, labels: seq<Label>, scope: Scope,
                                            limit: int,
                                            c: nat, i: nat)
    requires RunFromStart(cfg, states, labels) && i < |states| && c >= 1
    requires IsLimit(cfg, scope, limit)
    requires forall j :: 0 <= j < |states| ==> |InFlight(cfg, states[j], scope)| <= c
    ensures |WaitingIn(states[i].db, scope)| <= Max(0, limit) + c - 1
    ensures Bounded(cfg, states[i], scope, limit, c)
  {
    if i == 0 {
      assert WaitingIn(EmptyDb, scope) == {} && InFlight(cfg, Init, scope) == {};
    } else {
      OvershootBounded(cfg, states, labels, scope, limit, c, i - 1);
      ReachableIsOk(cfg, states, labels, i - 1);
      assert StepAt(cfg, states, labels, i - 1);
      StepBounded(cfg, states[i - 1], labels[i - 1], states[i], scope, limit, c);
    }
  }
}
