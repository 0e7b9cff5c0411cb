/** The bound of `Quota` is reached, for every limit and every number of concurrent creations: the
    runs that fill a queue to the limit less one, let `c` requests pass the checks together, and
    then let them all insert. */
module Overshoot {
  import opened Sql
  import opened Pairing
  import opened Schema
  import opened Protocol
  import opened ProtocolTheorems
  import opened Quota

  /** Where the first requests go, and where all others go. */
  datatype Crowd = Crowd(first: seq<Place>, others: Place) {
    function At(r: nat): Place {
      if r < |first| then first[r] else others
    }

    function Tenant(r: nat): string {
      At(r).tenantId
    }
  }

  function Name(r: nat): (s: string)
    ensures |s| == r
  {
    if r == 0 then "" else Name(r - 1) + ['p']
  }

  /** Requests of different players. */
  function Asked(crowd: Crowd, r: nat): TicketCreate {
    TicketCreate(Name(r), crowd.At(r).region, crowd.At(r).queueName, 0)
  }

  function Asking(crowd: Crowd, r: nat, phase: Phase): Request {
    Request(crowd.Tenant(r), None, Asked(crowd, r), phase)
  }

  function TicketOf(cfg: Config, crowd: Crowd, r: nat): Ticket
    requires cfg.partitions > 0
  {
    NewTicket(cfg, crowd.Tenant(r), Asked(crowd, r), 0)
  }

  /** The first `k` requests have created their tickets, the others have passed the checks. */
  function PhaseOf(cfg: Config, crowd: Crowd, k: nat, r: nat): Phase
    requires cfg.partitions > 0
  {
    if r < k then Done(TicketCreated(Snapshot(r, TicketOf(cfg, crowd, r)))) else DepthOk
  }

  function Tickets(cfg: Config, crowd: Crowd, k: nat): map<TicketId, Ticket>
    requires cfg.partitions > 0
  {
    if k == 0 then map[] else Tickets(cfg, crowd, k - 1)[k - 1 := TicketOf(cfg, crowd, k - 1)]
  }

  /** The first `a` requests, of which the first `k` have created their tickets. */
  function Requests(cfg: Config, crowd: Crowd, k: nat, a: nat): map<RequestId, Request>
    requires cfg.partitions > 0
  {
    if a == 0 then map[]
    else Requests(cfg, crowd, k, a - 1)[a - 1 := Asking(crowd, a - 1, PhaseOf(cfg, crowd, k, a - 1))]
  }

  lemma {:induction false} TicketAt(cfg: Config, crowd: Crowd, k: nat, r: nat)
    requires cfg.partitions > 0
    ensures r in Tickets(cfg, crowd, k) <==> r < k
    ensures r < k ==> Tickets(cfg, crowd, k)[r] == TicketOf(cfg, crowd, r)
  {
    if k > 0 {
      TicketAt(cfg, crowd, k - 1, r);
    }
  }

  lemma TicketsAre(cfg: Config, crowd: Crowd, k: nat)
    requires cfg.partitions > 0
    ensures Tickets(cfg, crowd, k).Keys == Below(k)
    ensures forall r: nat :: r in Tickets(cfg, crowd, k) ==> Tickets(cfg, crowd, k)[r] == TicketOf(cfg, crowd, r)
  {
    forall r: nat ensures r in Tickets(cfg, crowd, k) <==> r < k
                  ensures r < k ==> Tickets(cfg, crowd, k)[r] == TicketOf(cfg, crowd, r)
    {
      TicketAt(cfg, crowd, k, r);
    }
  }

  lemma {:induction false} RequestAt(cfg: Config, crowd: Crowd, k: nat, a: nat, r: nat)
    requires cfg.partitions > 0
    ensures r in Requests(cfg, crowd, k, a) <==> r < a
    ensures r < a ==> Requests(cfg, crowd, k, a)[r] == Asking(crowd, r, PhaseOf(cfg, crowd, k, r))
  {
    if a > 0 {
      RequestAt(cfg, crowd, k, a - 1, r);
    }
  }

  lemma RequestsAre(cfg: Config, crowd: Crowd, k: nat, a: nat)
    requires cfg.partitions > 0
    ensures Requests(cfg, crowd, k, a).Keys == Below(a)
    ensures forall r: nat :: r in Requests(cfg, crowd, k, a) ==>
              Requests(cfg, crowd, k, a)[r] == Asking(crowd, r, PhaseOf(cfg, crowd, k, r))
  {
    forall r: nat ensures r in Requests(cfg, crowd, k, a) <==> r < a
                  ensures r < a ==> Requests(cfg, crowd, k, a)[r] == Asking(crowd, r, PhaseOf(cfg, crowd, k, r))
    {
      RequestAt(cfg, crowd, k, a, r);
    }
  }

  function Ready(cfg: Config, crowd: Crowd, k: nat, a: nat): State
    requires cfg.partitions > 0
  {
    State(EmptyDb.(tickets := Tickets(cfg, crowd, k)), map[], Requests(cfg, crowd, k, a))
  }

  /** Like `s`, with request `r` at `phase`. */
  function At(s: State, crowd: Crowd, r: nat, phase: Phase): State {
    s.(requests := s.requests[r := Asking(crowd, r, phase)])
  }

  // ----- Runs with few creations in flight -----

  ghost predicate Few(cfg: Config, scope: Scope, c: nat, s: State) {
    |InFlight(cfg, s, scope)| <= c
  }

  ghost predicate FewAt(cfg: Config, scope: Scope, c: nat, states: seq<State>, i: int)
    requires 0 <= i < |states|
  {
    Few(cfg, scope, c, states[i])
  }

  /** A run, with never more than `c` creations in flight. */
  ghost predicate FewInFlight(cfg: Config, scope: Scope, c: nat, states: seq<State>, labels: seq<Label>) {
    && RunFromStart(cfg, states, labels)
    && forall i {:trigger FewAt(cfg, scope, c, states, i)} :: 0 <= i < |states| ==> FewAt(cfg, scope, c, states, i)
  }

  lemma Then(cfg: Config, scope: Scope, c: nat, states: seq<State>, labels: seq<Label>, l: Label, s: State)
    returns (states': seq<State>, labels': seq<Label>)
    requires FewInFlight(cfg, scope, c, states, labels) && Next(cfg, states[|labels|], l, s) && Few(cfg, scope, c, s)
    ensures FewInFlight(cfg, scope, c, states', labels') && states'[|labels'|] == s
  {
    Extend(cfg, states, labels, l, s);
    states', labels' := states + [s], labels + [l];
    forall i | 0 <= i < |states'| ensures FewAt(cfg, scope, c, states', i) {
      assert i < |states| ==> FewAt(cfg, scope, c, states, i);
    }
  }

  /** Requests below `n`, of which those below `k` are done: the others may be in flight. */
  lemma FewOf(cfg: Config, scope: Scope, s: State, k: nat, n: nat, c: nat)
    requires k <= n <= k + c && forall x :: x in s.requests ==> x < n && (x < k ==> s.requests[x].phase.Done?)
    ensures Few(cfg, scope, c, s)
  {
    Between(k, n);
    SubsetCount(InFlight(cfg, s, scope), Below(n) - Below(k));
  }

  lemma FewReady(cfg: Config, crowd: Crowd, scope: Scope, k: nat, a: nat, c: nat)
    requires cfg.partitions > 0 && k <= a <= k + c
    ensures Few(cfg, scope, c, Ready(cfg, crowd, k, a))
  {
    RequestsAre(cfg, crowd, k, a);
    FewOf(cfg, scope, Ready(cfg, crowd, k, a), k, a, c);
  }

  lemma FewAtPhase(cfg: Config, crowd: Crowd, scope: Scope, k: nat, a: nat, c: nat, r: nat, phase: Phase)
    requires cfg.partitions > 0 && k <= r <= a && k <= a && (if r < a then a else a + 1) <= k + c
    ensures Few(cfg, scope, c, At(Ready(cfg, crowd, k, a), crowd, r, phase))
  {
    RequestsAre(cfg, crowd, k, a);
    FewOf(cfg, scope, At(Ready(cfg, crowd, k, a), crowd, r, phase), k, if r < a then a else a + 1, c);
  }

  lemma Between(k: nat, a: nat)
    requires k <= a
    ensures |Below(a) - Below(k)| == a - k
  {
    assert Below(a) == (Below(a) - Below(k)) + Below(k);
  }

  // ----- One request passes the checks -----

  lemma StepTo(cfg: Config, s: State, crowd: Crowd, r: nat, before: Phase, l: RequestLabel, after: Phase)
    requires Handle(cfg, At(s, crowd, r, before), r, l) == Some(after)
    ensures Next(cfg, At(s, crowd, r, before), RequestStep(r, l), At(s, crowd, r, after))
  {
    assert s.requests[r := Asking(crowd, r, before)][r := Asking(crowd, r, after)] ==
           s.requests[r := Asking(crowd, r, after)];
  }

  lemma FewWaiting(cfg: Config, crowd: Crowd, k: nat, tenantId: string, p: int)
    requires cfg.partitions > 0
    ensures |WaitingOfTenant(EmptyDb.(tickets := Tickets(cfg, crowd, k)), tenantId)| <= k
    ensures |WaitingInPartition(EmptyDb.(tickets := Tickets(cfg, crowd, k)), p)| <= k
  {
    var db := EmptyDb.(tickets := Tickets(cfg, crowd, k));
    TicketsAre(cfg, crowd, k);
    SubsetCount(WaitingOfTenant(db, tenantId), Below(k));
    SubsetCount(WaitingInPartition(db, p), Below(k));
  }

  /** Both quotas of request `r` let it pass while the first `k` tickets are waiting. */
  predicate Open(cfg: Config, crowd: Crowd, r: nat, k: nat)
    requires cfg.partitions > 0
  {
    var db, at := EmptyDb.(tickets := Tickets(cfg, crowd, k)), crowd.At(r);
    && |WaitingOfTenant(db, at.tenantId)| < cfg.maxInFlight(at.tenantId)
    && |WaitingInPartition(db, PartitionFor(cfg, at))| < cfg.maxDepth(at.tenantId)
  }

  lemma OpenWhileFew(cfg: Config, crowd: Crowd, n: nat)
    requires cfg.partitions > 0
    requires forall k: nat :: k < n ==> k < cfg.maxInFlight(crowd.Tenant(k)) && k < cfg.maxDepth(crowd.Tenant(k))
    ensures forall k :: 0 <= k < n ==> Open(cfg, crowd, k, k)
  {
    forall k | 0 <= k < n ensures Open(cfg, crowd, k, k) {
      FewWaiting(cfg, crowd, k, crowd.Tenant(k), PartitionFor(cfg, crowd.At(k)));
    }
  }

  lemma PassesChecks(cfg: Config, crowd: Crowd, k: nat, a: nat)
    requires cfg.partitions > 0 && Open(cfg, crowd, a, k)
    ensures var s := Ready(cfg, crowd, k, a);
            && Handle(cfg, At(s, crowd, a, Arrived), a, CheckKey) == Some(KeyUnknown)
            && Handle(cfg, At(s, crowd, a, KeyUnknown), a, CheckQuota) == Some(QuotaOk)
            && Handle(cfg, At(s, crowd, a, QuotaOk), a, CheckDepth) == Some(DepthOk)
  {
    assert PartitionOf(cfg, Asking(crowd, a, QuotaOk)) == PartitionFor(cfg, crowd.At(a));
  }

  lemma Admit(cfg: Config, crowd: Crowd, scope: Scope, k: nat, a: nat, c: nat, states: seq<State>, labels: seq<Label>)
    returns (states': seq<State>, labels': seq<Label>)
    requires cfg.partitions > 0 && Open(cfg, crowd, a, k) && k <= a < k + c
    requires FewInFlight(cfg, scope, c, states, labels) && states[|labels|] == Ready(cfg, crowd, k, a)
    ensures FewInFlight(cfg, scope, c, states', labels') && states'[|labels'|] == Ready(cfg, crowd, k, a + 1)
  {
    var s := Ready(cfg, crowd, k, a);
    RequestsAre(cfg, crowd, k, a);
    PassesChecks(cfg, crowd, k, a);
    FewAtPhase(cfg, crowd, scope, k, a, c, a, Arrived);
    states', labels' := Then(cfg, scope, c, states, labels, Arrive(a, crowd.Tenant(a), None, Asked(crowd, a)),
                             At(s, crowd, a, Arrived));
    StepTo(cfg, s, crowd, a, Arrived, CheckKey, KeyUnknown);
    FewAtPhase(cfg, crowd, scope, k, a, c, a, KeyUnknown);
    states', labels' := Then(cfg, scope, c, states', labels', RequestStep(a, CheckKey), At(s, crowd, a, KeyUnknown));
    StepTo(cfg, s, crowd, a, KeyUnknown, CheckQuota, QuotaOk);
    FewAtPhase(cfg, crowd, scope, k, a, c, a, QuotaOk);
    states', labels' := Then(cfg, scope, c, states', labels', RequestStep(a, CheckQuota), At(s, crowd, a, QuotaOk));
    StepTo(cfg, s, crowd, a, QuotaOk, CheckDepth, DepthOk);
    FewAtPhase(cfg, crowd, scope, k, a, c, a, DepthOk);
    states', labels' := Then(cfg, scope, c, states', labels', RequestStep(a, CheckDepth), At(s, crowd, a, DepthOk));
    assert Requests(cfg, crowd, k, a + 1) == Requests(cfg, crowd, k, a)[a := Asking(crowd, a, DepthOk)];
  }

  // ----- One request inserts and commits -----

  /** The INSERT goes through when nobody else holds a ticket and none clashes. */
  lemma InsertGoesThrough(cfg: Config, s: State, r: nat)
    requires cfg.partitions > 0 && s.workers == map[] && r in s.requests && r !in s.db.tickets
    requires s.requests[r].phase.DepthOk? && s.requests[r].key.None?
    requires forall o :: o in s.requests ==> !HoldsTicket(s.requests[o])
    requires !UniqueIndexHit(s.db, NewTicket(cfg, s.requests[r].tenantId, s.requests[r].body, 0))
    ensures Handle(cfg, s, r, InsertTicket(r, 0)) ==
            Some(Inserted(None, r, NewTicket(cfg, s.requests[r].tenantId, s.requests[r].body, 0)))
  {
  }

  lemma Inserts(cfg: Config, crowd: Crowd, k: nat, a: nat)
    requires cfg.partitions > 0 && k < a
    ensures k in Ready(cfg, crowd, k, a).requests
    ensures Handle(cfg, Ready(cfg, crowd, k, a), k, InsertTicket(k, 0)) ==
            Some(Inserted(None, k, TicketOf(cfg, crowd, k)))
  {
    TicketsAre(cfg, crowd, k);
    RequestsAre(cfg, crowd, k, a);
    NoClash(cfg, crowd, k);
    InsertGoesThrough(cfg, Ready(cfg, crowd, k, a), k);
  }

  lemma NoClash(cfg: Config, crowd: Crowd, k: nat)
    requires cfg.partitions > 0
    ensures !UniqueIndexHit(EmptyDb.(tickets := Tickets(cfg, crowd, k)), TicketOf(cfg, crowd, k))
  {
    var tickets := Tickets(cfg, crowd, k);
    TicketsAre(cfg, crowd, k);
    forall r | r in tickets ensures !tickets[r].SamePlayerAndQueue(TicketOf(cfg, crowd, k)) {
      assert tickets[r].playerId == Name(r) && TicketOf(cfg, crowd, k).playerId == Name(k);
    }
  }

  lemma Commits(cfg: Config, crowd: Crowd, k: nat, a: nat)
    requires cfg.partitions > 0 && k < a
    ensures var s := At(Ready(cfg, crowd, k, a), crowd, k, Inserted(None, k, TicketOf(cfg, crowd, k)));
            Next(cfg, s, RequestCommit(k), Ready(cfg, crowd, k + 1, a))
  {
    OneMoreDone(cfg, crowd, k, a, Inserted(None, k, TicketOf(cfg, crowd, k)));
  }

  lemma OneMoreDone(cfg: Config, crowd: Crowd, k: nat, a: nat, before: Phase)
    requires cfg.partitions > 0 && k < a
    ensures var done := Asking(crowd, k, PhaseOf(cfg, crowd, k + 1, k));
            At(Ready(cfg, crowd, k, a), crowd, k, before).requests[k := done] == Requests(cfg, crowd, k + 1, a)
  {
    var done := Asking(crowd, k, PhaseOf(cfg, crowd, k + 1, k));
    var one := At(Ready(cfg, crowd, k, a), crowd, k, before).requests[k := done];
    var two := Requests(cfg, crowd, k + 1, a);
    forall r: nat ensures r in one <==> r in two ensures r in one ==> one[r] == two[r] {
      RequestAt(cfg, crowd, k, a, r);
      RequestAt(cfg, crowd, k + 1, a, r);
    }
  }

  lemma StillPassed(cfg: Config, crowd: Crowd, k: nat, a: nat)
    requires cfg.partitions > 0 && k < a
    ensures At(Ready(cfg, crowd, k, a), crowd, k, DepthOk) == Ready(cfg, crowd, k, a)
  {
    RequestsAre(cfg, crowd, k, a);
    assert At(Ready(cfg, crowd, k, a), crowd, k, DepthOk).requests == Requests(cfg, crowd, k, a);
  }

  lemma Finish(cfg: Config, crowd: Crowd, scope: Scope, k: nat, a: nat, c: nat, states: seq<State>, labels: seq<Label>)
    returns (states': seq<State>, labels': seq<Label>)
    requires cfg.partitions > 0 && k < a <= k + c
    requires FewInFlight(cfg, scope, c, states, labels) && states[|labels|] == Ready(cfg, crowd, k, a)
    ensures FewInFlight(cfg, scope, c, states', labels') && states'[|labels'|] == Ready(cfg, crowd, k + 1, a)
  {
    var s, row := Ready(cfg, crowd, k, a), Inserted(None, k, TicketOf(cfg, crowd, k));
    Inserts(cfg, crowd, k, a);
    StillPassed(cfg, crowd, k, a);
    StepTo(cfg, s, crowd, k, DepthOk, InsertTicket(k, 0), row);
    FewAtPhase(cfg, crowd, scope, k, a, c, k, row);
    states', labels' := Then(cfg, scope, c, states, labels, RequestStep(k, InsertTicket(k, 0)), At(s, crowd, k, row));
    Commits(cfg, crowd, k, a);
    FewReady(cfg, crowd, scope, k + 1, a, c);
    states', labels' := Then(cfg, scope, c, states', labels', RequestCommit(k), Ready(cfg, crowd, k + 1, a));
  }

  // ----- Whole runs -----

  lemma NoneYet(cfg: Config, crowd: Crowd, scope: Scope, c: nat)
    requires cfg.partitions > 0
    ensures FewInFlight(cfg, scope, c, [Init], []) && Init == Ready(cfg, crowd, 0, 0)
  {
    FewReady(cfg, crowd, scope, 0, 0, c);
    forall i | 0 <= i < 1 ensures FewAt(cfg, scope, c, [Init], i) {
    }
  }

  /** One more request creates its ticket when nobody else is about. */
  lemma OneAlone(cfg: Config, crowd: Crowd, scope: Scope, k: nat, c: nat, states: seq<State>, labels: seq<Label>)
    returns (states': seq<State>, labels': seq<Label>)
    requires cfg.partitions > 0 && Open(cfg, crowd, k, k) && c >= 1
    requires FewInFlight(cfg, scope, c, states, labels) && states[|labels|] == Ready(cfg, crowd, k, k)
    ensures FewInFlight(cfg, scope, c, states', labels') && states'[|labels'|] == Ready(cfg, crowd, k + 1, k + 1)
  {
    states', labels' := Admit(cfg, crowd, scope, k, k, c, states, labels);
    states', labels' := Finish(cfg, crowd, scope, k, k + 1, c, states', labels');
  }

  /** One after the other, `n` requests create their tickets. */
  lemma {:induction false} OneByOne(cfg: Config, crowd: Crowd, scope: Scope, n: nat, c: nat)
    returns (states: seq<State>, labels: seq<Label>)
    requires cfg.partitions > 0 && c >= 1 && forall k :: 0 <= k < n ==> Open(cfg, crowd, k, k)
    ensures FewInFlight(cfg, scope, c, states, labels) && states[|labels|] == Ready(cfg, crowd, n, n)
  {
    if n == 0 {
      states, labels := [Init], [];
      NoneYet(cfg, crowd, scope, c);
    } else {
      states, labels := OneByOne(cfg, crowd, scope, n - 1, c);
      states, labels := OneAlone(cfg, crowd, scope, n - 1, c, states, labels);
    }
  }

  /** After `k` tickets, `n` more requests pass the checks together. */
  lemma {:induction false} Together(cfg: Config, crowd: Crowd, scope: Scope, k: nat, n: nat, c: nat)
    returns (states: seq<State>, labels: seq<Label>)
    requires cfg.partitions > 0 && 1 <= c && n <= c && forall r :: 0 <= r < k ==> Open(cfg, crowd, r, r)
    requires forall r :: k <= r < k + n ==> Open(cfg, crowd, r, k)
    ensures FewInFlight(cfg, scope, c, states, labels) && states[|labels|] == Ready(cfg, crowd, k, k + n)
    decreases n
  {
    if n == 0 {
      states, labels := OneByOne(cfg, crowd, scope, k, c);
    } else {
      states, labels := Together(cfg, crowd, scope, k, n - 1, c);
      states, labels := Admit(cfg, crowd, scope, k, k + n - 1, c, states, labels);
    }
  }

  /** Of those that have passed, `n` insert their tickets. */
  lemma {:induction false} InsertOneByOne(cfg: Config, crowd: Crowd, scope: Scope, k: nat, n: nat, a: nat, c: nat,
                                          states: seq<State>, labels: seq<Label>)
    returns (states': seq<State>, labels': seq<Label>)
    requires cfg.partitions > 0 && k + n <= a <= k + c
    requires FewInFlight(cfg, scope, c, states, labels) && states[|labels|] == Ready(cfg, crowd, k, a)
    ensures FewInFlight(cfg, scope, c, states', labels') && states'[|labels'|] == Ready(cfg, crowd, k + n, a)
    decreases n
  {
    states', labels' := states, labels;
    if n > 0 {
      states', labels' := Finish(cfg, crowd, scope, k, a, c, states', labels');
      states', labels' := InsertOneByOne(cfg, crowd, scope, k + 1, n - 1, a, c, states', labels');
    }
  }

  // ----- Filling a scope to its limit -----

  predicate InScope(cfg: Config, scope: Scope, at: Place)
    requires cfg.partitions > 0
  {
    match scope
    case OfTenant(tenantId) => at.tenantId == tenantId
    case OfPartition(p) => PartitionFor(cfg, at) == p
  }

  /** Which of the places are in the scope. */
  function Among(cfg: Config, scope: Scope, places: seq<Place>): set<nat>
    requires cfg.partitions > 0
  {
    set r | r in Below(|places|) && InScope(cfg, scope, places[r])
  }

  /** With tickets waiting at the places before it, one more passes both checks at the `r`-th. */
  predicate Fits(cfg: Config, places: seq<Place>, r: int)
    requires cfg.partitions > 0 && 0 <= r < |places|
  {
    var at := places[r];
    && |Among(cfg, OfTenant(at.tenantId), places[..r])| < cfg.maxInFlight(at.tenantId)
    && |Among(cfg, OfPartition(PartitionFor(cfg, at)), places[..r])| < cfg.maxDepth(at.tenantId)
  }

  predicate FitsInScope(cfg: Config, scope: Scope, places: seq<Place>, r: int)
    requires cfg.partitions > 0 && 0 <= r < |places|
  {
    InScope(cfg, scope, places[r]) && Fits(cfg, places, r)
  }

  /** The scope can be filled to its limit: that many tickets, created one after the other at the
      given places, all pass the checks. */
  ghost predicate Attains(cfg: Config, scope: Scope, places: seq<Place>, limit: int) {
    && cfg.partitions > 0 && IsLimit(cfg, scope, limit) && |places| == limit && limit >= 1
    && forall r {:trigger FitsInScope(cfg, scope, places, r)} ::
         0 <= r < |places| ==> FitsInScope(cfg, scope, places, r)
  }

  /** The tickets waiting are those at the places in the scope. */
  lemma WaitingAmong(cfg: Config, scope: Scope, places: seq<Place>, last: Place, k: nat)
    requires cfg.partitions > 0 && k <= |places|
    ensures WaitingIn(EmptyDb.(tickets := Tickets(cfg, Crowd(places, last), k)), scope) ==
            Among(cfg, scope, places[..k])
  {
    var db := EmptyDb.(tickets := Tickets(cfg, Crowd(places, last), k));
    TicketsAre(cfg, Crowd(places, last), k);
    forall r: nat ensures r in WaitingIn(db, scope) <==> r in Among(cfg, scope, places[..k]) {
      if r < k {
        assert db.tickets[r] == TicketOf(cfg, Crowd(places, last), r) && places[..k][r] == places[r];
      } else {
        assert r !in db.tickets && r !in Below(k);
      }
    }
  }

  lemma OpenIfFits(cfg: Config, places: seq<Place>, last: Place, r: nat, k: nat)
    requires cfg.partitions > 0 && k < |places| && Fits(cfg, places, k) && Crowd(places, last).At(r) == places[k]
    ensures Open(cfg, Crowd(places, last), r, k)
  {
    WaitingAmong(cfg, OfTenant(places[k].tenantId), places, last, k);
    WaitingAmong(cfg, OfPartition(PartitionFor(cfg, places[k])), places, last, k);
  }

  /** After `k` tickets of the crowd, `c` more pass the checks together, and then all insert. */
  lemma FillAndMore(cfg: Config, scope: Scope, crowd: Crowd, k: nat, c: nat)
    returns (states: seq<State>, labels: seq<Label>)
    requires cfg.partitions > 0 && c >= 1 && forall r :: 0 <= r < k ==> Open(cfg, crowd, r, r)
    requires forall r :: k <= r < k + c ==> Open(cfg, crowd, r, k)
    requires forall r: nat :: r < k + c ==> InScope(cfg, scope, crowd.At(r))
    ensures FewInFlight(cfg, scope, c, states, labels) && |WaitingIn(states[|labels|].db, scope)| == k + c
  {
    states, labels := Together(cfg, crowd, scope, k, c, c);
    states, labels := InsertOneByOne(cfg, crowd, scope, k, c, k + c, c, states, labels);
    AllWait(cfg, scope, crowd, k + c, k + c);
  }

  lemma AllWait(cfg: Config, scope: Scope, crowd: Crowd, n: nat, a: nat)
    requires cfg.partitions > 0 && forall r: nat :: r < n ==> InScope(cfg, scope, crowd.At(r))
    ensures |WaitingIn(Ready(cfg, crowd, n, a).db, scope)| == n
  {
    TicketsAre(cfg, crowd, n);
    assert WaitingIn(Ready(cfg, crowd, n, a).db, scope) == Below(n);
  }

  /** The bound is tight: of a tenant as in a partition, if it can be filled at all, a run with at
      most `c` creations in flight leaves exactly the limit plus `c - 1` tickets waiting. */
  lemma OvershootHappens(cfg: Config, scope: Scope, places: seq<Place>, limit: int, c: nat)
    returns (states: seq<State>, labels: seq<Label>)
    requires Attains(cfg, scope, places, limit) && c >= 1
    ensures FewInFlight(cfg, scope, c, states, labels)
    ensures |WaitingIn(states[|labels|].db, scope)| == limit + c - 1
  {
    var k, crowd := limit - 1, Crowd(places, places[limit - 1]);
    forall r | 0 <= r < k ensures Open(cfg, crowd, r, r) {
      assert FitsInScope(cfg, scope, places, r);
      OpenIfFits(cfg, places, places[k], r, r);
    }
    forall r | k <= r < k + c ensures Open(cfg, crowd, r, k) {
      assert FitsInScope(cfg, scope, places, k);
      OpenIfFits(cfg, places, places[k], r, k);
    }
    forall r: nat | r < k + c ensures InScope(cfg, scope, crowd.At(r)) {
      assert FitsInScope(cfg, scope, places, if r < k then r else k);
    }
    states, labels := FillAndMore(cfg, scope, crowd, k, c);
  }

  /** One queue will do if the tenant's other quota is no tighter, */
  lemma OneQueueAttains(cfg: Config, scope: Scope, at: Place, limit: nat)
    requires cfg.partitions > 0 && IsLimit(cfg, scope, limit) && limit >= 1 && InScope(cfg, scope, at)
    requires cfg.maxInFlight(at.tenantId) >= limit && cfg.maxDepth(at.tenantId) >= limit
    ensures Attains(cfg, scope, seq(limit, r => at), limit)
  {
    var places := seq(limit, r => at);
    forall r | 0 <= r < limit ensures FitsInScope(cfg, scope, places, r) {
      SubsetCount(Among(cfg, OfTenant(at.tenantId), places[..r]), Below(r));
      SubsetCount(Among(cfg, OfPartition(PartitionFor(cfg, at)), places[..r]), Below(r));
    }
  }

  ghost predicate Apart(cfg: Config, queues: seq<Place>)
    requires cfg.partitions > 0
  {
    forall q, o :: 0 <= q < o < |queues| ==> PartitionFor(cfg, queues[q]) != PartitionFor(cfg, queues[o])
  }

  /** `depth` places in each queue, one queue after the other. */
  function Spread(queues: seq<Place>, depth: nat): (places: seq<Place>)
    ensures |places| == |queues| * depth && forall at :: at in places ==> at in queues
  {
    if queues == [] then []
    else
      var n := |queues| - 1;
      assert |queues| * depth == n * depth + depth;
      Spread(queues[..n], depth) + seq(depth, r => queues[n])
  }

  /** None of the first places is in partition `p`. */
  ghost predicate NoneBefore(cfg: Config, places: seq<Place>, first: nat, p: int)
    requires cfg.partitions > 0 && first <= |places|
  {
    forall k :: 0 <= k < first ==> !InScope(cfg, OfPartition(p), places[k])
  }

  lemma FewSince(cfg: Config, places: seq<Place>, first: nat, p: int)
    requires cfg.partitions > 0 && first <= |places| && NoneBefore(cfg, places, first, p)
    ensures |Among(cfg, OfPartition(p), places)| <= |places| - first
  {
    SubsetCount(Among(cfg, OfPartition(p), places), Below(|places|) - Below(first));
    Between(first, |places|);
  }

  lemma NewQueue(cfg: Config, queues: seq<Place>, places: seq<Place>)
    requires cfg.partitions > 0 && queues != [] && Apart(cfg, queues)
    requires forall at :: at in places ==> at in queues[..|queues| - 1]
    ensures NoneBefore(cfg, places, |places|, PartitionFor(cfg, queues[|queues| - 1]))
  {
    forall k | 0 <= k < |places|
      ensures !InScope(cfg, OfPartition(PartitionFor(cfg, queues[|queues| - 1])), places[k])
    {
      assert places[k] in places;
      var q :| 0 <= q < |queues| - 1 && queues[q] == places[k];
    }
  }

  /** Each partition is entered below its depth limit. */
  lemma {:induction false} SpreadFits(cfg: Config, queues: seq<Place>, depth: nat, r: nat)
    requires cfg.partitions > 0 && Apart(cfg, queues) && r < |Spread(queues, depth)|
    ensures var places := Spread(queues, depth);
            |Among(cfg, OfPartition(PartitionFor(cfg, places[r])), places[..r])| < depth
  {
    var places, n := Spread(queues, depth), |queues| - 1;
    var front := Spread(queues[..n], depth);
    if r < |front| {
      SpreadFits(cfg, queues[..n], depth, r);
      assert places[..r] == front[..r];
    } else {
      NewQueue(cfg, queues, front);
      assert places[..r][..|front|] == front;
      FewSince(cfg, places[..r], |front|, PartitionFor(cfg, queues[n]));
    }
  }

  /** and for a tenant's quota so will queues in enough partitions, whatever its depth limit. */
  lemma SpreadAttains(cfg: Config, tenantId: string, queues: seq<Place>) returns (places: seq<Place>)
    requires cfg.partitions > 0 && cfg.maxDepth(tenantId) >= 1 && cfg.maxInFlight(tenantId) >= 1
    requires Apart(cfg, queues) && forall at :: at in queues ==> at.tenantId == tenantId
    requires |queues| * cfg.maxDepth(tenantId) >= cfg.maxInFlight(tenantId)
    ensures Attains(cfg, OfTenant(tenantId), places, cfg.maxInFlight(tenantId))
  {
    var all, limit := Spread(queues, cfg.maxDepth(tenantId)), cfg.maxInFlight(tenantId);
    places := all[..limit];
    forall r | 0 <= r < limit ensures FitsInScope(cfg, OfTenant(tenantId), places, r) {
      assert all[r] in all && places[r] == all[r] && places[..r] == all[..r];
      SubsetCount(Among(cfg, OfTenant(tenantId), places[..r]), Below(r));
      SpreadFits(cfg, queues, cfg.maxDepth(tenantId), r);
    }
  }

  /** If at most `c` creations are in flight all along the run, it ends within the limit. */
  ghost predicate Respected(cfg: Config, scope: Scope, limit: int, c: nat, states: seq<State>, labels: seq<Label>) {
    FewInFlight(cfg, scope, c, states, labels) ==> |WaitingIn(states[|labels|].db, scope)| <= limit
  }

  lemma AloneIsRespected(cfg: Config, scope: Scope, limit: nat, c: nat, states: seq<State>, labels: seq<Label>)
    requires IsLimit(cfg, scope, limit) && c <= 1
    ensures Respected(cfg, scope, limit, c, states, labels)
  {
    if FewInFlight(cfg, scope, c, states, labels) {
      forall j | 0 <= j < |states| ensures |InFlight(cfg, states[j], scope)| <= 1 {
        assert FewAt(cfg, scope, c, states, j);
      }
      OvershootBounded(cfg, states, labels, scope, limit, 1, |labels|);
    }
  }

  /** A quota that can be reached is a limit exactly when creations never overlap. */
  lemma LimitHoldsExactly(cfg: Config, scope: Scope, places: seq<Place>, limit: int, c: nat)
    requires Attains(cfg, scope, places, limit)
    ensures (forall states, labels {:trigger Respected(cfg, scope, limit, c, states, labels)} ::
               Respected(cfg, scope, limit, c, states, labels)) <==> c <= 1
  {
    if c <= 1 {
      forall states, labels ensures Respected(cfg, scope, limit, c, states, labels) {
        AloneIsRespected(cfg, scope, limit, c, states, labels);
      }
    } else {
      var states, labels := OvershootHappens(cfg, scope, places, limit, c);
      assert !Respected(cfg, scope, limit, c, states, labels);
    }
  }

  /** A depth limit holds for a partition, even with one creation at a time, exactly when it is no
      less than that of any tenant with a queue there: a tenant's own limit does not count. */
  lemma DepthHoldsExactly(cfg: Config, p: int, limit: nat)
    requires cfg.partitions > 0
    requires forall t {:trigger Reaches(cfg, t, p)} :: Reaches(cfg, t, p) ==> cfg.maxInFlight(t) >= cfg.maxDepth(t)
    ensures (forall states, labels {:trigger Respected(cfg, OfPartition(p), limit, 1, states, labels)} ::
               Respected(cfg, OfPartition(p), limit, 1, states, labels)) <==>
            forall t {:trigger Reaches(cfg, t, p)} :: Reaches(cfg, t, p) ==> cfg.maxDepth(t) <= limit
  {
    if forall t {:trigger Reaches(cfg, t, p)} :: Reaches(cfg, t, p) ==> cfg.maxDepth(t) <= limit {
      forall states, labels ensures Respected(cfg, OfPartition(p), limit, 1, states, labels) {
        AloneIsRespected(cfg, OfPartition(p), limit, 1, states, labels);
      }
    } else {
      var t: string :| Reaches(cfg, t, p) && cfg.maxDepth(t) > limit;
      var at: Place :| at.tenantId == t && PartitionFor(cfg, at) == p;
      var crowd := Crowd([], at);
      OpenWhileFew(cfg, crowd, limit + 1);
      var states, labels := OneByOne(cfg, crowd, OfPartition(p), limit + 1, 1);
      AllWait(cfg, OfPartition(p), crowd, limit + 1, limit + 1);
      assert !Respected(cfg, OfPartition(p), limit, 1, states, labels);
    }
  }

  lemma FirstWaits(cfg: Config, crowd: Crowd, n: nat)
    requires cfg.partitions > 0 && n > 0
    ensures 0 in WaitingOfTenant(Ready(cfg, crowd, n, n).db, crowd.Tenant(0))
  {
    TicketsAre(cfg, crowd, n);
  }

  /** In particular a tenant with a lower limit finds its partition filled beyond it by one with a
      higher limit, its own ticket among those waiting. */
  lemma SmallerDepthIsExceeded(cfg: Config, small: Place, big: Place)
    returns (states: seq<State>, labels: seq<Label>)
    requires cfg.partitions > 0 && PartitionFor(cfg, small) == PartitionFor(cfg, big)
    requires 1 <= cfg.maxDepth(small.tenantId) < cfg.maxDepth(big.tenantId)
    requires cfg.maxInFlight(small.tenantId) >= 1 && cfg.maxInFlight(big.tenantId) >= cfg.maxDepth(big.tenantId)
    ensures FewInFlight(cfg, OfPartition(PartitionFor(cfg, small)), 1, states, labels)
    ensures |WaitingInPartition(states[|labels|].db, PartitionFor(cfg, small))| ==
            cfg.maxDepth(big.tenantId) > cfg.maxDepth(small.tenantId)
    ensures WaitingOfTenant(states[|labels|].db, small.tenantId) != {}
  {
    var crowd, n := Crowd([small], big), cfg.maxDepth(big.tenantId);
    OpenWhileFew(cfg, crowd, n);
    states, labels := OneByOne(cfg, crowd, OfPartition(PartitionFor(cfg, small)), n, 1);
    AllWait(cfg, OfPartition(PartitionFor(cfg, small)), crowd, n, n);
    FirstWaits(cfg, crowd, n);
  }
}
