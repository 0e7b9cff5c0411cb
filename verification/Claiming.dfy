/** The claim statement of the callback dispatcher: which due events one dispatcher takes.
    Times are integer seconds. */
module Claiming {
  import opened Sql
  import opened Schema

  /** A row of callback_events; the payload columns play no part here. */
  datatype Row = Row(
    tenantId: string, matchId: MatchId, status: EventStatus, attempts: int, nextAttemptAt: int, createdAt: int,
    lockedBy: Option<string>, lockedUntil: Option<int>)
  {
    predicate Settled() {
      status.Delivered? || status.Failed?
    }
  }

  type Rows = map<EventId, Row>

  predicate Live(row: Row, now: int) {
    row.status.InProgress? && row.lockedUntil.Some? && row.lockedUntil.value > now
  }

  predicate Due(row: Row, now: int) {
    && (row.status.Pending? || (row.status.InProgress? && row.lockedUntil.Some? && row.lockedUntil.value <= now))
    && row.nextAttemptAt <= now
  }

  function LiveOf(rows: Rows, tenantId: string, now: int): set<EventId> {
    set e | e in rows && rows[e].tenantId == tenantId && Live(rows[e], now)
  }

  function QueueOf(rows: Rows, tenantId: string, now: int): set<EventId> {
    set e | e in rows && rows[e].tenantId == tenantId && Due(rows[e], now)
  }

  function Tenants(rows: Rows, now: int): set<string> {
    set e | e in rows && Due(rows[e], now) :: rows[e].tenantId
  }

  function QueueKey(rows: Rows): EventId -> Key {
    (e: EventId) => if e in rows then Key(rows[e].nextAttemptAt, rows[e].createdAt) else Key(0, 0)
  }

  /** `ranked`: each tenant's due events, in order; row number n is at index n - 1. */
  type Ranking = map<string, seq<EventId>>

  ghost predicate TenantRanked(rows: Rows, now: int, ranked: Ranking, t: string)
    requires t in ranked
  {
    IsTop(QueueOf(rows, t, now), QueueKey(rows), |QueueOf(rows, t, now)|, ranked[t])
  }

  ghost predicate IsRanking(rows: Rows, now: int, ranked: Ranking) {
    && ranked.Keys == Tenants(rows, now)
    && forall t {:trigger TenantRanked(rows, now, ranked, t)} :: t in ranked ==> TenantRanked(rows, now, ranked, t)
  }

  /** Place `index` in the queue of a tenant. */
  datatype Slot = Slot(tenantId: string, index: nat)

  /** How many more events the tenant may have in progress. */
  function Room(rows: Rows, tenantId: string, now: int, limit: int): int {
    limit - |LiveOf(rows, tenantId, now)|
  }

  function EligibleOf(rows: Rows, now: int, limit: int, ranked: Ranking, t: string): set<Slot>
    requires t in ranked
  {
    set i | 0 <= i < |ranked[t]| && i + 1 <= Room(rows, t, now, limit) :: Slot(t, i)
  }

  function Eligible(rows: Rows, now: int, limit: int, ranked: Ranking): set<Slot> {
    set t, x | t in ranked && x in EligibleOf(rows, now, limit, ranked, t) :: x
  }

  function ByRank(): Slot -> Key {
    (x: Slot) => Key(x.index, 0)
  }

  /** `slots` are the places the statement takes, under the ranking it computed. */
  ghost predicate Takes(rows: Rows, now: int, limit: int, batch: nat, ranked: Ranking, slots: seq<Slot>) {
    && IsRanking(rows, now, ranked)
    && IsTop(Eligible(rows, now, limit, ranked), ByRank(), batch, slots)
  }

  lemma EligibleIs(rows: Rows, now: int, limit: int, ranked: Ranking, x: Slot)
    ensures x in Eligible(rows, now, limit, ranked) <==>
            x.tenantId in ranked && x.index < |ranked[x.tenantId]| && x.index + 1 <= Room(rows, x.tenantId, now, limit)
  {
    if x.tenantId in ranked && x.index < |ranked[x.tenantId]| && x.index + 1 <= Room(rows, x.tenantId, now, limit) {
      assert x in EligibleOf(rows, now, limit, ranked, x.tenantId);
    }
  }

  lemma TakenIs(rows: Rows, now: int, limit: int, batch: nat, ranked: Ranking, slots: seq<Slot>, x: Slot)
    requires Takes(rows, now, limit, batch, ranked, slots) && x in slots
    ensures x in Eligible(rows, now, limit, ranked)
    ensures x.tenantId in ranked && x.index < |ranked[x.tenantId]| && x.index + 1 <= Room(rows, x.tenantId, now, limit)
  {
    assert x in Elements(slots);
    EligibleIs(rows, now, limit, ranked, x);
  }

  /** The event at each of the given places. */
  function EventsAt(ranked: Ranking, slots: seq<Slot>): seq<EventId>
    requires forall x :: x in slots ==> x.tenantId in ranked && x.index < |ranked[x.tenantId]|
  {
    seq(|slots|, i requires 0 <= i < |slots| => assert slots[i] in slots; ranked[slots[i].tenantId][slots[i].index])
  }

  /** The UPDATE of the claim statement. */
  function Claimed(rows: Rows, taken: set<EventId>, name: string, until: int): Rows {
    map e | e in rows ::
      if e in taken
      then rows[e].(status := EventStatus.InProgress, lockedBy := Some(name), lockedUntil := Some(until))
      else rows[e]
  }

  /** `taken` may be the answer of a claim statement executed at `now`. */
  ghost predicate ClaimTakes(rows: Rows, now: int, limit: int, batch: nat, taken: seq<EventId>) {
    exists ranked: Ranking, slots: seq<Slot> :: TakesEvents(rows, now, limit, batch, ranked, slots, taken)
  }

  ghost predicate TakesEvents(rows: Rows, now: int, limit: int, batch: nat, ranked: Ranking, slots: seq<Slot>,
                              taken: seq<EventId>)
  {
    && Takes(rows, now, limit, batch, ranked, slots)
    && (forall x :: x in slots ==> x.tenantId in ranked && x.index < |ranked[x.tenantId]|)
    && taken == EventsAt(ranked, slots)
  }

  /** The indices taken from the queue of `t`. */
  function IndicesOf(slots: seq<Slot>, t: string): set<nat> {
    set x | x in slots && x.tenantId == t :: x.index
  }

  /** How many events the statement gave to tenant `t`. */
  function Got(slots: seq<Slot>, t: string): nat {
    |IndicesOf(slots, t)|
  }

  /** A downward-closed set of n numbers is the numbers below n. */
  lemma {:induction false} DownwardClosed(s: set<nat>, n: nat)
    requires forall i, j :: i in s && 0 <= j < i ==> j in s
    requires |s| == n
    ensures s == Below(n)
  {
    if i :| i in s && i >= n {
      assert Below(n) + {i} <= s;
      SubsetCount(Below(n) + {i}, s);
    }
    SubsetCount(s, Below(n));
  }

  // ----- The guarantees -----

  /** What is taken of a tenant's queue is the front of it. */
  lemma TakesPrefix(rows: Rows, now: int, limit: int, batch: nat, ranked: Ranking, slots: seq<Slot>, t: string)
    requires Takes(rows, now, limit, batch, ranked, slots)
    ensures IndicesOf(slots, t) == Below(Got(slots, t))
    ensures Got(slots, t) > 0 ==>
              t in ranked && Got(slots, t) <= |ranked[t]| && Got(slots, t) <= Room(rows, t, now, limit)
  {
    forall i, j | i in IndicesOf(slots, t) && 0 <= j < i ensures j in IndicesOf(slots, t) {
      var x, y := Slot(t, i), Slot(t, j);
      TakenIs(rows, now, limit, batch, ranked, slots, x);
      EligibleIs(rows, now, limit, ranked, y);
      var k :| 0 <= k < |slots| && slots[k] == x;
      assert y !in slots ==> ByRank()(slots[k]).AtMost(ByRank()(y));
    }
    DownwardClosed(IndicesOf(slots, t), Got(slots, t));
    var n := Got(slots, t);
    if n > 0 {
      assert n - 1 in Below(n);
      TakenIs(rows, now, limit, batch, ranked, slots, Slot(t, n - 1));
    }
  }

  /** Max-min fairness: while a tenant still had an eligible event left, no other tenant got
      more than one event more than it did. */
  lemma Fair(rows: Rows, now: int, limit: int, batch: nat, ranked: Ranking, slots: seq<Slot>, a: string, left: Slot)
    requires Takes(rows, now, limit, batch, ranked, slots)
    requires left in Eligible(rows, now, limit, ranked) && left !in slots
    ensures Got(slots, a) <= Got(slots, left.tenantId) + 1
  {
    var b := left.tenantId;
    TakesPrefix(rows, now, limit, batch, ranked, slots, a);
    TakesPrefix(rows, now, limit, batch, ranked, slots, b);
    EligibleIs(rows, now, limit, ranked, left);
    var next := Slot(b, Got(slots, b));
    assert next in slots ==> next.index in IndicesOf(slots, b);
    assert left.index < next.index ==> left.index in IndicesOf(slots, b);
    EligibleIs(rows, now, limit, ranked, next);
    var n := Got(slots, a);
    if n > 0 {
      assert n - 1 in IndicesOf(slots, a);
      var last := Slot(a, n - 1);
      var k :| 0 <= k < |slots| && slots[k] == last;
      assert ByRank()(slots[k]).AtMost(ByRank()(next));
    }
  }

  /** A tenant has as many eligible events as it has due ones, up to its room. */
  lemma EligibleCount(rows: Rows, now: int, limit: int, ranked: Ranking, t: string)
    requires IsRanking(rows, now, ranked) && t in ranked
    ensures |EligibleOf(rows, now, limit, ranked, t)| ==
            Min(|QueueOf(rows, t, now)|, if Room(rows, t, now, limit) > 0 then Room(rows, t, now, limit) else 0)
  {
    var n := Min(|QueueOf(rows, t, now)|, if Room(rows, t, now, limit) > 0 then Room(rows, t, now, limit) else 0);
    assert TenantRanked(rows, now, ranked, t);
    assert EligibleOf(rows, now, limit, ranked, t) == Front(t, n);
  }

  function Front(t: string, n: nat): (s: set<Slot>)
    ensures forall x :: x in s <==> x.tenantId == t && x.index < n
    ensures |s| == n
  {
    if n == 0 then {} else Front(t, n - 1) + {Slot(t, n - 1)}
  }

  /** The event in each place is due, belongs to the tenant, and is nowhere else. */
  lemma PlacesApart(rows: Rows, now: int, ranked: Ranking, x: Slot, y: Slot)
    requires IsRanking(rows, now, ranked)
    requires x.tenantId in ranked && x.index < |ranked[x.tenantId]|
    requires y.tenantId in ranked && y.index < |ranked[y.tenantId]|
    ensures ranked[x.tenantId][x.index] in QueueOf(rows, x.tenantId, now)
    ensures ranked[x.tenantId][x.index] == ranked[y.tenantId][y.index] ==> x == y
  {
    assert TenantRanked(rows, now, ranked, x.tenantId) && TenantRanked(rows, now, ranked, y.tenantId);
    assert ranked[x.tenantId][x.index] in Elements(ranked[x.tenantId]);
    assert ranked[y.tenantId][y.index] in Elements(ranked[y.tenantId]);
  }

  /** The events taken are distinct and due. */
  lemma TakenAreDue(rows: Rows, now: int, limit: int, batch: nat, ranked: Ranking, slots: seq<Slot>,
                    taken: seq<EventId>)
    requires TakesEvents(rows, now, limit, batch, ranked, slots, taken)
    ensures Distinct(taken)
    ensures forall e :: e in taken ==> e in rows && Due(rows[e], now)
  {
    forall i, j | 0 <= i < j < |taken| ensures taken[i] != taken[j] {
      PlacesApart(rows, now, ranked, slots[i], slots[j]);
    }
    forall e | e in taken ensures e in rows && Due(rows[e], now) {
      var i :| 0 <= i < |taken| && taken[i] == e;
      PlacesApart(rows, now, ranked, slots[i], slots[i]);
    }
  }

  lemma ClaimIsOfDue(rows: Rows, now: int, limit: int, batch: nat, taken: seq<EventId>)
    requires ClaimTakes(rows, now, limit, batch, taken)
    ensures Distinct(taken)
    ensures forall e :: e in taken ==> e in rows && Due(rows[e], now)
  {
    var ranked: Ranking, slots: seq<Slot> :| TakesEvents(rows, now, limit, batch, ranked, slots, taken);
    TakenAreDue(rows, now, limit, batch, ranked, slots, taken);
  }

  /** What tenant `t` got, as events. */
  function TakenOf(rows: Rows, taken: seq<EventId>, t: string): set<EventId> {
    set e | e in taken && e in rows && rows[e].tenantId == t
  }

  /** Where an event that was taken comes from. */
  lemma PlaceOf(rows: Rows, now: int, limit: int, batch: nat, ranked: Ranking, slots: seq<Slot>, taken: seq<EventId>,
                e: EventId)
    returns (x: Slot)
    requires TakesEvents(rows, now, limit, batch, ranked, slots, taken) && e in taken
    ensures x in slots && x.tenantId in ranked && x.index < |ranked[x.tenantId]| && ranked[x.tenantId][x.index] == e
    ensures e in rows && rows[e].tenantId == x.tenantId
  {
    var i :| 0 <= i < |taken| && taken[i] == e;
    x := slots[i];
    PlacesApart(rows, now, ranked, x, x);
  }

  lemma AtPlace(rows: Rows, now: int, limit: int, batch: nat, ranked: Ranking, slots: seq<Slot>, taken: seq<EventId>,
                x: Slot)
    requires TakesEvents(rows, now, limit, batch, ranked, slots, taken) && x in slots
    ensures x.tenantId in ranked && x.index < |ranked[x.tenantId]|
    ensures ranked[x.tenantId][x.index] in TakenOf(rows, taken, x.tenantId)
  {
    var i :| 0 <= i < |slots| && slots[i] == x;
    assert taken[i] == ranked[x.tenantId][x.index];
    PlacesApart(rows, now, ranked, x, x);
  }

  lemma TakenIsPrefix(rows: Rows, now: int, limit: int, batch: nat, ranked: Ranking, slots: seq<Slot>,
                      taken: seq<EventId>, t: string)
    requires TakesEvents(rows, now, limit, batch, ranked, slots, taken)
    ensures Got(slots, t) > 0 ==> t in ranked && Got(slots, t) <= |ranked[t]|
    ensures TakenOf(rows, taken, t) == if Got(slots, t) > 0 then Elements(ranked[t][..Got(slots, t)]) else {}
  {
    var n := Got(slots, t);
    TakesPrefix(rows, now, limit, batch, ranked, slots, t);
    var front := if n > 0 then ranked[t][..n] else [];
    forall e | e in TakenOf(rows, taken, t) ensures e in front {
      var x := PlaceOf(rows, now, limit, batch, ranked, slots, taken, e);
      assert x.index in IndicesOf(slots, t);
      assert front[x.index] == e;
    }
    forall e | e in front ensures e in TakenOf(rows, taken, t) {
      var k :| 0 <= k < n && front[k] == e;
      assert k in IndicesOf(slots, t);
      AtPlace(rows, now, limit, batch, ranked, slots, taken, Slot(t, k));
    }
  }

  lemma TakenCount(rows: Rows, now: int, limit: int, batch: nat, ranked: Ranking, slots: seq<Slot>, taken: seq<EventId>,
                   t: string)
    requires TakesEvents(rows, now, limit, batch, ranked, slots, taken)
    ensures |TakenOf(rows, taken, t)| == Got(slots, t)
  {
    TakenIsPrefix(rows, now, limit, batch, ranked, slots, taken, t);
    if Got(slots, t) > 0 {
      assert TenantRanked(rows, now, ranked, t);
      DistinctCount(ranked[t][..Got(slots, t)]);
    }
  }

  lemma LiveAfter(rows: Rows, now: int, taken: seq<EventId>, name: string, timeout: int, t: string)
    requires timeout > 0 && forall e :: e in taken ==> e in rows && Due(rows[e], now)
    ensures |LiveOf(Claimed(rows, Elements(taken), name, now + timeout), t, now)| ==
            |LiveOf(rows, t, now)| + |TakenOf(rows, taken, t)|
  {
    var after := Claimed(rows, Elements(taken), name, now + timeout);
    assert LiveOf(after, t, now) == LiveOf(rows, t, now) + TakenOf(rows, taken, t);
    assert LiveOf(rows, t, now) !! TakenOf(rows, taken, t);
  }

  /** A claim adds to each tenant's live events exactly what it takes, and never lifts their
      number above the limit. */
  lemma KeepsLimit(rows: Rows, now: int, limit: int, batch: nat, ranked: Ranking, slots: seq<Slot>, taken: seq<EventId>,
                   name: string, timeout: int, t: string)
    requires TakesEvents(rows, now, limit, batch, ranked, slots, taken) && timeout > 0
    ensures var before, after := |LiveOf(rows, t, now)|,
            |LiveOf(Claimed(rows, Elements(taken), name, now + timeout), t, now)|;
            after == before + Got(slots, t) && (after <= limit || after == before)
  {
    TakenAreDue(rows, now, limit, batch, ranked, slots, taken);
    TakesPrefix(rows, now, limit, batch, ranked, slots, t);
    TakenCount(rows, now, limit, batch, ranked, slots, taken, t);
    LiveAfter(rows, now, taken, name, timeout, t);
  }

  lemma AllEligibleTaken(rows: Rows, now: int, limit: int, batch: nat, ranked: Ranking, slots: seq<Slot>)
    requires Takes(rows, now, limit, batch, ranked, slots) && |slots| < batch
    ensures Elements(slots) == Eligible(rows, now, limit, ranked)
  {
    DistinctCount(slots);
    SubsetCount(Elements(slots), Eligible(rows, now, limit, ranked));
  }

  lemma GotAll(rows: Rows, now: int, limit: int, batch: nat, ranked: Ranking, slots: seq<Slot>, t: string)
    requires Takes(rows, now, limit, batch, ranked, slots) && t in ranked
    requires Elements(slots) == Eligible(rows, now, limit, ranked)
    ensures Got(slots, t) == |EligibleOf(rows, now, limit, ranked, t)|
  {
    TakesPrefix(rows, now, limit, batch, ranked, slots, t);
    forall x: Slot ensures x in EligibleOf(rows, now, limit, ranked, t) <==> x in Front(t, Got(slots, t)) {
      EligibleIs(rows, now, limit, ranked, x);
      assert x in slots <==> x in Elements(slots);
      assert x in slots && x.tenantId == t ==> x.index in IndicesOf(slots, t);
    }
    assert EligibleOf(rows, now, limit, ranked, t) == Front(t, Got(slots, t));
  }

  /** The batch is filled as far as there are eligible events: when it is not full, every
      tenant got all that its queue and its room allow. */
  lemma Fills(rows: Rows, now: int, limit: int, batch: nat, ranked: Ranking, slots: seq<Slot>, taken: seq<EventId>,
              t: string)
    requires TakesEvents(rows, now, limit, batch, ranked, slots, taken)
    ensures |taken| == Min(batch, |Eligible(rows, now, limit, ranked)|)
    ensures |taken| < batch ==>
              Got(slots, t) ==
                Min(|QueueOf(rows, t, now)|, if Room(rows, t, now, limit) > 0 then Room(rows, t, now, limit) else 0)
  {
    if |taken| < batch {
      AllEligibleTaken(rows, now, limit, batch, ranked, slots);
      if t in ranked {
        EligibleCount(rows, now, limit, ranked, t);
        GotAll(rows, now, limit, batch, ranked, slots, t);
      } else {
        assert t !in Tenants(rows, now);
        assert QueueOf(rows, t, now) == {};
        TakesPrefix(rows, now, limit, batch, ranked, slots, t);
      }
    }
  }

  /** A due event that is passed over finds the batch full, or its tenant at the limit. */
  lemma NotTaken(rows: Rows, now: int, limit: int, batch: nat, ranked: Ranking, slots: seq<Slot>, taken: seq<EventId>,
                 name: string, timeout: int, e: EventId)
    requires TakesEvents(rows, now, limit, batch, ranked, slots, taken) && timeout > 0
    requires e in rows && Due(rows[e], now) && e !in taken
    ensures |taken| == batch
            || |LiveOf(Claimed(rows, Elements(taken), name, now + timeout), rows[e].tenantId, now)| >= limit
  {
    var t := rows[e].tenantId;
    assert t in Tenants(rows, now) && e in QueueOf(rows, t, now);
    Fills(rows, now, limit, batch, ranked, slots, taken, t);
    TakenCount(rows, now, limit, batch, ranked, slots, taken, t);
    KeepsLimit(rows, now, limit, batch, ranked, slots, taken, name, timeout, t);
    TakenAreDue(rows, now, limit, batch, ranked, slots, taken);
    SubsetCount(TakenOf(rows, taken, t), QueueOf(rows, t, now));
  }

  /** The event has been due for longer, or as long and is older. */
  predicate Sooner(a: Row, b: Row) {
    a.nextAttemptAt < b.nextAttemptAt || (a.nextAttemptAt == b.nextAttemptAt && a.createdAt < b.createdAt)
  }

  lemma IndexOf(rows: Rows, now: int, ranked: Ranking, t: string, f: EventId) returns (j: nat)
    requires t in ranked && TenantRanked(rows, now, ranked, t) && f in QueueOf(rows, t, now)
    ensures j < |ranked[t]| && ranked[t][j] == f
  {
    DistinctCount(ranked[t]);
    SubsetCount(Elements(ranked[t]), QueueOf(rows, t, now));
    assert f in Elements(ranked[t]);
    j :| 0 <= j < |ranked[t]| && ranked[t][j] == f;
  }

  /** Of two places of one queue the sooner due comes first. */
  lemma SoonerIsAhead(rows: Rows, now: int, ranked: Ranking, t: string, i: nat, j: nat)
    requires t in ranked && TenantRanked(rows, now, ranked, t) && i < |ranked[t]| && j < |ranked[t]|
    requires ranked[t][i] in rows && ranked[t][j] in rows && Sooner(rows[ranked[t][j]], rows[ranked[t][i]])
    ensures j < i
  {
    assert i < j ==> QueueKey(rows)(ranked[t][i]).AtMost(QueueKey(rows)(ranked[t][j]));
  }

  /** What comes before a place taken is taken too. */
  lemma EarlierIsTaken(rows: Rows, now: int, limit: int, batch: nat, ranked: Ranking, slots: seq<Slot>,
                       taken: seq<EventId>, x: Slot, j: nat)
    requires TakesEvents(rows, now, limit, batch, ranked, slots, taken) && x in slots && j < x.index
    ensures x.tenantId in ranked && j < |ranked[x.tenantId]| && ranked[x.tenantId][j] in taken
  {
    var t := x.tenantId;
    TakesPrefix(rows, now, limit, batch, ranked, slots, t);
    assert x.index in IndicesOf(slots, t);
    assert j in IndicesOf(slots, t);
    AtPlace(rows, now, limit, batch, ranked, slots, taken, Slot(t, j));
  }

  /** No event is taken before one of the same tenant that has been due for longer. */
  lemma SoonestFirst(rows: Rows, now: int, limit: int, batch: nat, taken: seq<EventId>, e: EventId, f: EventId)
    requires ClaimTakes(rows, now, limit, batch, taken) && e in taken
    requires f in rows && Due(rows[f], now)
    ensures e in rows && (rows[f].tenantId == rows[e].tenantId && Sooner(rows[f], rows[e]) ==> f in taken)
  {
    var ranked: Ranking, slots: seq<Slot> :| TakesEvents(rows, now, limit, batch, ranked, slots, taken);
    var x := PlaceOf(rows, now, limit, batch, ranked, slots, taken, e);
    if rows[f].tenantId == x.tenantId && Sooner(rows[f], rows[e]) {
      assert TenantRanked(rows, now, ranked, x.tenantId);
      var j := IndexOf(rows, now, ranked, x.tenantId, f);
      SoonerIsAhead(rows, now, ranked, x.tenantId, x.index, j);
      EarlierIsTaken(rows, now, limit, batch, ranked, slots, taken, x, j);
    }
  }

  // ----- The statement itself -----

  method RankDue(rows: Rows, now: int) returns (ranked: Ranking)
    ensures IsRanking(rows, now, ranked)
  {
    ranked := map[];
    var rest := Tenants(rows, now);
    while rest != {}
      invariant ranked.Keys == Tenants(rows, now) - rest && rest <= Tenants(rows, now)
      invariant forall t {:trigger TenantRanked(rows, now, ranked, t)} :: t in ranked ==>
                  TenantRanked(rows, now, ranked, t)
      decreases rest
    {
      var t :| t in rest;
      var queue := OrderByLimit(QueueOf(rows, t, now), QueueKey(rows), |QueueOf(rows, t, now)|);
      ghost var before := ranked;
      ranked := ranked[t := queue];
      rest := rest - {t};
      forall u | u in ranked ensures TenantRanked(rows, now, ranked, u) {
        assert u != t ==> TenantRanked(rows, now, before, u);
      }
    }
  }

  /** The SELECT half of the claim statement. */
  method SelectCandidates(rows: Rows, now: int, limit: int, batch: nat) returns (taken: seq<EventId>)
    ensures ClaimTakes(rows, now, limit, batch, taken)
  {
    var ranked := RankDue(rows, now);
    var slots := OrderByLimit(Eligible(rows, now, limit, ranked), ByRank(), batch);
    forall x | x in slots ensures x.tenantId in ranked && x.index < |ranked[x.tenantId]| {
      TakenIs(rows, now, limit, batch, ranked, slots, x);
    }
    taken := EventsAt(ranked, slots);
    assert TakesEvents(rows, now, limit, batch, ranked, slots, taken);
  }
}
