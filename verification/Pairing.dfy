/** The greedy search of app/worker/matching.py for 1v1 pairs.  Timestamps are integer
    microseconds, the resolution of Python datetimes.  The clock is read again for
    every ticket of every comparison, so two tickets refused early in a search may have
    become compatible by its end. */
module Pairing {
  import opened Sql

  type TicketId = nat

  /** The columns of a ticket a worker reads: a snapshot, never refreshed. */
  datatype WaitingTicket = WaitingTicket(
    ticketId: TicketId, tenantId: string, playerId: string, region: string, queueName: string,
    skill: int, partitionId: int, createdAt: int)

  ghost predicate DistinctIds(tickets: seq<WaitingTicket>) {
    forall i, j :: 0 <= i < j < |tickets| ==> tickets[i].ticketId != tickets[j].ticketId
  }

  datatype Settings = Settings(
    matchSize: int, skillDeltaInitial: int, skillDeltaAfter30s: int, skillDeltaAfter60s: int)
  {
    /** Waiting longer never narrows the search.  A negative threshold admits nobody,
        however negative it is. */
    predicate Widening() {
      Max(-1, skillDeltaInitial) <= Max(-1, skillDeltaAfter30s) <= Max(-1, skillDeltaAfter60s)
    }
  }

  datatype Search<T> = Found(pairs: T) | UnsupportedMatchSize

  const SECOND := 1_000_000

  function Max(a: int, b: int): int {
    if a >= b then a else b
  }

  function Abs(a: int): int {
    if a >= 0 then a else -a
  }

  function WaitTime(now: int, createdAt: int): int {
    Max(0, now - createdAt)
  }

  function SkillDelta(wait: int, settings: Settings): int {
    if wait >= 60 * SECOND then settings.skillDeltaAfter60s
    else if wait >= 30 * SECOND then settings.skillDeltaAfter30s
    else settings.skillDeltaInitial
  }

  predicate SameQueue(left: WaitingTicket, right: WaitingTicket) {
    left.tenantId == right.tenantId && left.region == right.region && left.queueName == right.queueName
  }

  /** Compatibility when the left wait is measured at `a` and the right one at `b`. */
  predicate CompatibleAt(left: WaitingTicket, right: WaitingTicket, settings: Settings, a: int, b: int) {
    && SameQueue(left, right)
    && Abs(left.skill - right.skill) <= Max(SkillDelta(WaitTime(a, left.createdAt), settings),
                                            SkillDelta(WaitTime(b, right.createdAt), settings))
  }

  /** Some comparison made between `t0` and `t1` accepted the pair. */
  ghost predicate AcceptedWithin(left: WaitingTicket, right: WaitingTicket, settings: Settings, t0: int, t1: int) {
    exists a, b :: t0 <= a <= b <= t1 && CompatibleAt(left, right, settings, a, b)
  }

  ghost predicate RefusedWithin(left: WaitingTicket, right: WaitingTicket, settings: Settings, t0: int, t1: int) {
    exists a, b :: t0 <= a <= b <= t1 && !CompatibleAt(left, right, settings, a, b)
  }

  // ----- What the rule comes to, in seconds waited and points of skill -----

  predicate OfOneQueue(left: WaitingTicket, right: WaitingTicket) {
    left.tenantId == right.tenantId && left.region == right.region && left.queueName == right.queueName
  }

  predicate SkillsWithin(left: WaitingTicket, right: WaitingTicket, delta: int) {
    left.skill - right.skill <= delta && right.skill - left.skill <= delta
  }

  /** All the time from `from` to `to` the ticket has waited for a minute or more, for 30 to 60
      seconds, or for less, and `delta` is the threshold for that. */
  predicate InTier(t: WaitingTicket, settings: Settings, from: int, to: int, delta: int) {
    || (from - t.createdAt >= 60_000_000 && delta == settings.skillDeltaAfter60s)
    || (from - t.createdAt >= 30_000_000 && to - t.createdAt < 60_000_000 && delta == settings.skillDeltaAfter30s)
    || (to - t.createdAt < 30_000_000 && delta == settings.skillDeltaInitial)
  }

  /** One of the two has waited long enough for their difference, however long the other has. */
  ghost predicate Suited(left: WaitingTicket, right: WaitingTicket, settings: Settings, from: int, to: int) {
    && OfOneQueue(left, right)
    && exists delta :: (InTier(left, settings, from, to, delta) || InTier(right, settings, from, to, delta))
                       && SkillsWithin(left, right, delta)
  }

  /** They are of different queues, or neither has waited long enough. */
  ghost predicate Unsuited(left: WaitingTicket, right: WaitingTicket, settings: Settings, from: int, to: int) {
    OfOneQueue(left, right) ==>
      exists a, b :: InTier(left, settings, from, to, a) && InTier(right, settings, from, to, b)
                     && !SkillsWithin(left, right, a) && !SkillsWithin(left, right, b)
  }

  lemma DeltaInTier(t: WaitingTicket, settings: Settings, from: int, to: int, delta: int, at: int)
    requires InTier(t, settings, from, to, delta) && from <= at <= to
    ensures SkillDelta(WaitTime(at, t.createdAt), settings) == delta
  {
  }

  lemma SuitedIsAccepted(left: WaitingTicket, right: WaitingTicket, settings: Settings, from: int, to: int)
    requires Suited(left, right, settings, from, to)
    ensures !RefusedWithin(left, right, settings, from, to)
  {
    var delta :| (InTier(left, settings, from, to, delta) || InTier(right, settings, from, to, delta))
                 && SkillsWithin(left, right, delta);
    forall a, b | from <= a <= b <= to ensures CompatibleAt(left, right, settings, a, b) {
      if InTier(left, settings, from, to, delta) {
        DeltaInTier(left, settings, from, to, delta, a);
      } else {
        DeltaInTier(right, settings, from, to, delta, b);
      }
    }
  }

  lemma UnsuitedIsRefused(left: WaitingTicket, right: WaitingTicket, settings: Settings, from: int, to: int)
    requires Unsuited(left, right, settings, from, to)
    ensures !AcceptedWithin(left, right, settings, from, to)
  {
    if OfOneQueue(left, right) {
      var one, two :| InTier(left, settings, from, to, one) && InTier(right, settings, from, to, two)
                      && !SkillsWithin(left, right, one) && !SkillsWithin(left, right, two);
      forall a, b | from <= a <= b <= to ensures !CompatibleAt(left, right, settings, a, b) {
        DeltaInTier(left, settings, from, to, one, a);
        DeltaInTier(right, settings, from, to, two, b);
      }
    }
  }

  /** Wall clock: time passes between any two readings. */
  class Clock {
    var now: int

    constructor (start: int)
      ensures now == start
    {
      now := start;
    }

    method Read() returns (t: int)
      modifies this
      ensures t == now >= old(now)
    {
      var elapsed: int := *;
      if elapsed > 0 {
        now := now + elapsed;
      }
      t := now;
    }
  }

  /** Position pairs into the ticket list: what the search found. */
  type Positions = seq<(nat, nat)>

  ghost predicate InRange(tickets: seq<WaitingTicket>, idx: Positions) {
    forall k :: 0 <= k < |idx| ==> idx[k].0 < idx[k].1 < |tickets|
  }

  function Pick(tickets: seq<WaitingTicket>, idx: Positions): (pairs: seq<(WaitingTicket, WaitingTicket)>)
    requires InRange(tickets, idx)
  {
    seq(|idx|, k requires 0 <= k < |idx| => (tickets[idx[k].0], tickets[idx[k].1]))
  }

  /** The ticket ids taken by the pairs of `idx`: the set `used` of `find_pairs`. */
  function Taken(tickets: seq<WaitingTicket>, idx: Positions): (used: set<TicketId>)
    requires InRange(tickets, idx)
  {
    if idx == [] then {}
    else
      var last := idx[|idx| - 1];
      Taken(tickets, idx[..|idx| - 1]) + {tickets[last.0].ticketId, tickets[last.1].ticketId}
  }

  /** How many pairs were found before position `i` became the first ticket. */
  function Before(idx: Positions, i: nat): (n: nat)
    ensures n <= |idx|
    ensures n < |idx| ==> idx[n].0 >= i
    ensures forall k :: 0 <= k < n ==> idx[k].0 < i
  {
    if idx == [] || idx[0].0 >= i then 0 else 1 + Before(idx[1..], i)
  }

  /** The ticket at position `i` is in none of the first `n` pairs. */
  ghost predicate Fresh(tickets: seq<WaitingTicket>, idx: Positions, n: nat, i: nat)
    requires InRange(tickets, idx) && n <= |idx| && i < |tickets|
  {
    tickets[i].ticketId !in Taken(tickets, idx[..n])
  }

  /** Pairs appear in list order and never share a ticket id. */
  ghost predicate WellFormed(tickets: seq<WaitingTicket>, idx: Positions) {
    && InRange(tickets, idx)
    && (forall k, l :: 0 <= k < l < |idx| ==> idx[k].0 < idx[l].0)
    && (forall k :: 0 <= k < |idx| ==> Fresh(tickets, idx, k, idx[k].0) && Fresh(tickets, idx, k, idx[k].1))
  }

  /** A pair is accepted and is the first fit: whatever lies between was taken or refused. */
  ghost predicate FirstFit(tickets: seq<WaitingTicket>, settings: Settings, t0: int, t1: int, idx: Positions, k: nat)
    requires InRange(tickets, idx) && k < |idx|
  {
    var (i, j) := idx[k];
    && AcceptedWithin(tickets[i], tickets[j], settings, t0, t1)
    && forall m :: i < m < j ==>
         Fresh(tickets, idx, k, m) ==> RefusedWithin(tickets[i], tickets[m], settings, t0, t1)
  }

  /** A ticket left alone was refused by every later ticket still free at its turn. */
  ghost predicate LeftAlone(tickets: seq<WaitingTicket>, settings: Settings, t0: int, t1: int, idx: Positions, i: nat)
    requires InRange(tickets, idx) && i < |tickets|
  {
    forall m :: i < m < |tickets| ==>
      Fresh(tickets, idx, Before(idx, i), m) ==> RefusedWithin(tickets[i], tickets[m], settings, t0, t1)
  }

  /** The outcome of a greedy search made while the clock went from `t0` to `t1`. */
  ghost predicate GreedySearch(tickets: seq<WaitingTicket>, settings: Settings, t0: int, t1: int, idx: Positions) {
    && WellFormed(tickets, idx)
    && (forall k {:trigger FirstFit(tickets, settings, t0, t1, idx, k)} ::
          0 <= k < |idx| ==> FirstFit(tickets, settings, t0, t1, idx, k))
    && (forall i {:trigger LeftAlone(tickets, settings, t0, t1, idx, i)} ::
          0 <= i < |tickets| && Fresh(tickets, idx, |idx|, i) ==>
          LeftAlone(tickets, settings, t0, t1, idx, i))
  }

  method TicketsCompatible(left: WaitingTicket, right: WaitingTicket, settings: Settings, clock: Clock)
    returns (compatible: bool)
    modifies clock
    ensures clock.now >= old(clock.now)
    ensures compatible ==> AcceptedWithin(left, right, settings, old(clock.now), clock.now)
    ensures !compatible ==> RefusedWithin(left, right, settings, old(clock.now), clock.now)
    ensures Suited(left, right, settings, old(clock.now), clock.now) ==> compatible
    ensures Unsuited(left, right, settings, old(clock.now), clock.now) ==> !compatible
  {
    ghost var from := clock.now;
    if !SameQueue(left, right) {
      assert !CompatibleAt(left, right, settings, from, from);
      return false;
    }
    var a := clock.Read();
    var b := clock.Read();
    var threshold := Max(SkillDelta(WaitTime(a, left.createdAt), settings),
                         SkillDelta(WaitTime(b, right.createdAt), settings));
    compatible := Abs(left.skill - right.skill) <= threshold;
    assert compatible == CompatibleAt(left, right, settings, a, b);
    if Suited(left, right, settings, from, clock.now) {
      SuitedIsAccepted(left, right, settings, from, clock.now);
    }
    if Unsuited(left, right, settings, from, clock.now) {
      UnsuitedIsRefused(left, right, settings, from, clock.now);
    }
  }

  /** The search state once every position below `upto` has had its turn. */
  ghost predicate SearchedTo(
    tickets: seq<WaitingTicket>, settings: Settings, t0: int, t1: int, idx: Positions, upto: nat)
  {
    && upto <= |tickets|
    && WellFormed(tickets, idx)
    && (forall k :: 0 <= k < |idx| ==> idx[k].0 < upto)
    && (forall k {:trigger FirstFit(tickets, settings, t0, t1, idx, k)} ::
          0 <= k < |idx| ==> FirstFit(tickets, settings, t0, t1, idx, k))
    && (forall i {:trigger LeftAlone(tickets, settings, t0, t1, idx, i)} ::
          0 <= i < upto && Fresh(tickets, idx, |idx|, i) ==>
          LeftAlone(tickets, settings, t0, t1, idx, i))
  }

  lemma Later(tickets: seq<WaitingTicket>, settings: Settings, t0: int, t1: int, t2: int, idx: Positions, upto: nat)
    requires t1 <= t2 && SearchedTo(tickets, settings, t0, t1, idx, upto)
    ensures SearchedTo(tickets, settings, t0, t2, idx, upto)
  {
    forall l, r | AcceptedWithin(l, r, settings, t0, t1) ensures AcceptedWithin(l, r, settings, t0, t2) {
      var a, b :| t0 <= a <= b <= t1 && CompatibleAt(l, r, settings, a, b);
      assert t0 <= a <= b <= t2;
    }
    forall l, r | RefusedWithin(l, r, settings, t0, t1) ensures RefusedWithin(l, r, settings, t0, t2) {
      var a, b :| t0 <= a <= b <= t1 && !CompatibleAt(l, r, settings, a, b);
      assert t0 <= a <= b <= t2;
    }
    forall k | 0 <= k < |idx| ensures FirstFit(tickets, settings, t0, t2, idx, k) {
      assert FirstFit(tickets, settings, t0, t1, idx, k);
    }
    forall i | 0 <= i < upto && Fresh(tickets, idx, |idx|, i)
      ensures LeftAlone(tickets, settings, t0, t2, idx, i)
    {
      assert LeftAlone(tickets, settings, t0, t1, idx, i);
    }
  }

  lemma {:induction false} BeforeAll(idx: Positions, i: nat)
    requires forall k :: 0 <= k < |idx| ==> idx[k].0 < i
    ensures Before(idx, i) == |idx|
  {
    if idx != [] {
      BeforeAll(idx[1..], i);
    }
  }

  lemma {:induction false} BeforeAppend(idx: Positions, p: (nat, nat), i: nat)
    requires i <= p.0
    ensures Before(idx + [p], i) == Before(idx, i)
  {
    if idx == [] {
      assert idx + [p] == [p];
    } else {
      BeforeAppend(idx[1..], p, i);
      assert (idx + [p])[1..] == idx[1..] + [p];
    }
  }

  /** In the turn of position `i`, every free position before `upto` has been refused. */
  ghost predicate Scanned(
    tickets: seq<WaitingTicket>, settings: Settings, t0: int, t1: int, idx: Positions, i: nat, upto: nat)
  {
    && i < upto <= |tickets|
    && SearchedTo(tickets, settings, t0, t1, idx, i)
    && forall m :: i < m < upto && Fresh(tickets, idx, |idx|, m) ==>
         RefusedWithin(tickets[i], tickets[m], settings, t0, t1)
  }

  /** One more position is taken already, or refused between `u` and `t2`. */
  lemma ScanFurther(tickets: seq<WaitingTicket>, settings: Settings, t0: int, t1: int, t2: int,
                    idx: Positions, i: nat, m: nat)
    requires t0 <= t1 <= t2 && m < |tickets| && Scanned(tickets, settings, t0, t1, idx, i, m)
    requires Fresh(tickets, idx, |idx|, m) ==> RefusedWithin(tickets[i], tickets[m], settings, t1, t2)
    ensures Scanned(tickets, settings, t0, t2, idx, i, m + 1)
  {
    Later(tickets, settings, t0, t1, t2, idx, i);
    forall n | i < n < m + 1 && Fresh(tickets, idx, |idx|, n)
      ensures RefusedWithin(tickets[i], tickets[n], settings, t0, t2)
    {
      if n < m {
        var a, b :| t0 <= a <= b <= t1 && !CompatibleAt(tickets[i], tickets[n], settings, a, b);
        assert t0 <= a <= b <= t2;
      } else {
        var a, b :| t1 <= a <= b <= t2 && !CompatibleAt(tickets[i], tickets[n], settings, a, b);
        assert t0 <= a <= b <= t2;
      }
    }
  }

  /** Position `i` ends its turn without a partner, being taken or refused by all. */
  lemma NoPartner(tickets: seq<WaitingTicket>, settings: Settings, t0: int, t1: int, idx: Positions, i: nat)
    requires i < |tickets| && SearchedTo(tickets, settings, t0, t1, idx, i)
    requires Fresh(tickets, idx, |idx|, i) ==> Scanned(tickets, settings, t0, t1, idx, i, |tickets|)
    ensures SearchedTo(tickets, settings, t0, t1, idx, i + 1)
  {
    BeforeAll(idx, i);
  }

  /** Position `i` is paired with `j`, accepted between `t1` and `t2`. */
  lemma Partner(tickets: seq<WaitingTicket>, settings: Settings, t0: int, t1: int, t2: int,
                idx: Positions, i: nat, j: nat)
    requires t0 <= t1 <= t2 && j < |tickets| && Scanned(tickets, settings, t0, t1, idx, i, j)
    requires Fresh(tickets, idx, |idx|, i) && Fresh(tickets, idx, |idx|, j)
    requires AcceptedWithin(tickets[i], tickets[j], settings, t1, t2)
    ensures SearchedTo(tickets, settings, t0, t2, idx + [(i, j)], i + 1)
  {
    Later(tickets, settings, t0, t1, t2, idx, i);
    var a, b :| t1 <= a <= b <= t2 && CompatibleAt(tickets[i], tickets[j], settings, a, b);
    assert t0 <= a <= b <= t2;
    forall m | i < m < j && Fresh(tickets, idx, |idx|, m)
      ensures RefusedWithin(tickets[i], tickets[m], settings, t0, t2)
    {
      var c, d :| t0 <= c <= d <= t1 && !CompatibleAt(tickets[i], tickets[m], settings, c, d);
      assert t0 <= c <= d <= t2;
    }
    Paired(tickets, settings, t0, t2, idx, i, j);
  }

  /** Position `i` ends its turn paired with position `j`. */
  lemma Paired(tickets: seq<WaitingTicket>, settings: Settings, t0: int, t1: int, idx: Positions, i: nat, j: nat)
    requires i < j < |tickets| && SearchedTo(tickets, settings, t0, t1, idx, i)
    requires Fresh(tickets, idx, |idx|, i) && Fresh(tickets, idx, |idx|, j)
    requires AcceptedWithin(tickets[i], tickets[j], settings, t0, t1)
    requires forall m :: i < m < j && Fresh(tickets, idx, |idx|, m) ==>
               RefusedWithin(tickets[i], tickets[m], settings, t0, t1)
    ensures SearchedTo(tickets, settings, t0, t1, idx + [(i, j)], i + 1)
  {
    OneMorePair(tickets, idx, (i, j));
    AllFit(tickets, settings, t0, t1, idx, i, j);
    AllAlone(tickets, settings, t0, t1, idx, i, j);
  }

  lemma OneMorePair(tickets: seq<WaitingTicket>, idx: Positions, p: (nat, nat))
    requires WellFormed(tickets, idx) && p.0 < p.1 < |tickets| && forall k :: 0 <= k < |idx| ==> idx[k].0 < p.0
    requires Fresh(tickets, idx, |idx|, p.0) && Fresh(tickets, idx, |idx|, p.1)
    ensures WellFormed(tickets, idx + [p]) && forall k :: 0 <= k < |idx + [p]| ==> (idx + [p])[k].0 < p.0 + 1
  {
    var longer := idx + [p];
    FreshStable(tickets, idx, p);
    forall k | 0 <= k < |longer|
      ensures Fresh(tickets, longer, k, longer[k].0) && Fresh(tickets, longer, k, longer[k].1)
    {
      if k < |idx| {
        assert longer[k] == idx[k];
      }
    }
  }

  lemma AllFit(tickets: seq<WaitingTicket>, settings: Settings, t0: int, t1: int, idx: Positions, i: nat, j: nat)
    requires i < j < |tickets| && InRange(tickets, idx)
    requires forall k {:trigger FirstFit(tickets, settings, t0, t1, idx, k)} ::
               0 <= k < |idx| ==> FirstFit(tickets, settings, t0, t1, idx, k)
    requires AcceptedWithin(tickets[i], tickets[j], settings, t0, t1)
    requires forall m :: i < m < j && Fresh(tickets, idx, |idx|, m) ==>
               RefusedWithin(tickets[i], tickets[m], settings, t0, t1)
    ensures InRange(tickets, idx + [(i, j)])
    ensures forall k {:trigger FirstFit(tickets, settings, t0, t1, idx + [(i, j)], k)} ::
              0 <= k < |idx + [(i, j)]| ==> FirstFit(tickets, settings, t0, t1, idx + [(i, j)], k)
  {
    assert |idx + [(i, j)]| == |idx| + 1;
    NewPairFits(tickets, settings, t0, t1, idx, i, j);
    forall k | 0 <= k < |idx| ensures FirstFit(tickets, settings, t0, t1, idx + [(i, j)], k) {
      FirstFitStable(tickets, settings, t0, t1, idx, (i, j), k);
    }
  }

  lemma AllAlone(tickets: seq<WaitingTicket>, settings: Settings, t0: int, t1: int, idx: Positions, i: nat, j: nat)
    requires i < j < |tickets| && InRange(tickets, idx)
    requires forall p {:trigger LeftAlone(tickets, settings, t0, t1, idx, p)} ::
               0 <= p < i && Fresh(tickets, idx, |idx|, p) ==> LeftAlone(tickets, settings, t0, t1, idx, p)
    ensures InRange(tickets, idx + [(i, j)])
    ensures forall p {:trigger LeftAlone(tickets, settings, t0, t1, idx + [(i, j)], p)} ::
              0 <= p < i + 1 && Fresh(tickets, idx + [(i, j)], |idx + [(i, j)]|, p) ==>
              LeftAlone(tickets, settings, t0, t1, idx + [(i, j)], p)
  {
    assert |idx + [(i, j)]| == |idx| + 1;
    FreshStable(tickets, idx, (i, j));
    forall p | 0 <= p < i + 1 && Fresh(tickets, idx + [(i, j)], |idx| + 1, p)
      ensures LeftAlone(tickets, settings, t0, t1, idx + [(i, j)], p)
    {
      assert LeftAlone(tickets, settings, t0, t1, idx, p);
      LeftAloneStable(tickets, settings, t0, t1, idx, (i, j), p);
    }
  }

  lemma NewPairFits(tickets: seq<WaitingTicket>, settings: Settings, t0: int, t1: int, idx: Positions, i: nat, j: nat)
    requires i < j < |tickets| && InRange(tickets, idx)
    requires AcceptedWithin(tickets[i], tickets[j], settings, t0, t1)
    requires forall m :: i < m < j && Fresh(tickets, idx, |idx|, m) ==>
               RefusedWithin(tickets[i], tickets[m], settings, t0, t1)
    ensures InRange(tickets, idx + [(i, j)]) && FirstFit(tickets, settings, t0, t1, idx + [(i, j)], |idx|)
  {
    FreshStable(tickets, idx, (i, j));
  }

  lemma FirstFitStable(tickets: seq<WaitingTicket>, settings: Settings, t0: int, t1: int, idx: Positions,
                       p: (nat, nat), k: nat)
    requires InRange(tickets, idx) && p.0 < p.1 < |tickets| && k < |idx|
    requires FirstFit(tickets, settings, t0, t1, idx, k)
    ensures InRange(tickets, idx + [p]) && FirstFit(tickets, settings, t0, t1, idx + [p], k)
  {
    FreshStable(tickets, idx, p);
    assert (idx + [p])[k] == idx[k];
  }

  lemma LeftAloneStable(tickets: seq<WaitingTicket>, settings: Settings, t0: int, t1: int, idx: Positions,
                        p: (nat, nat), i: nat)
    requires InRange(tickets, idx) && p.0 < p.1 < |tickets| && i <= p.0
    requires LeftAlone(tickets, settings, t0, t1, idx, i)
    ensures InRange(tickets, idx + [p]) && LeftAlone(tickets, settings, t0, t1, idx + [p], i)
  {
    FreshStable(tickets, idx, p);
    BeforeAppend(idx, p, i);
  }

  /** Appending a pair takes its two tickets and changes nothing about the pairs before it. */
  lemma FreshStable(tickets: seq<WaitingTicket>, idx: Positions, p: (nat, nat))
    requires InRange(tickets, idx) && p.0 < p.1 < |tickets|
    ensures InRange(tickets, idx + [p])
    ensures forall n, m :: 0 <= n <= |idx| && 0 <= m < |tickets| ==>
              Fresh(tickets, idx + [p], n, m) == Fresh(tickets, idx, n, m)
    ensures forall m :: 0 <= m < |tickets| && Fresh(tickets, idx + [p], |idx| + 1, m) ==>
              Fresh(tickets, idx, |idx|, m) && m != p.0 && m != p.1
  {
    var longer := idx + [p];
    assert InRange(tickets, longer);
    forall n: nat, m: nat | n <= |idx| && m < |tickets|
      ensures Fresh(tickets, longer, n, m) == Fresh(tickets, idx, n, m) {
      assert longer[..n] == idx[..n];
    }
    forall m | 0 <= m < |tickets| && Fresh(tickets, longer, |idx| + 1, m)
      ensures Fresh(tickets, idx, |idx|, m) && m != p.0 && m != p.1
    {
      assert longer[..|idx| + 1] == longer && longer[..|longer| - 1] == idx && idx[..|idx|] == idx;
    }
  }

  lemma RecordPair(tickets: seq<WaitingTicket>, idx: Positions, i: nat, j: nat)
    requires InRange(tickets, idx) && i < j < |tickets|
    ensures InRange(tickets, idx + [(i, j)])
    ensures Pick(tickets, idx + [(i, j)]) == Pick(tickets, idx) + [(tickets[i], tickets[j])]
    ensures Taken(tickets, idx + [(i, j)]) == Taken(tickets, idx) + {tickets[i].ticketId, tickets[j].ticketId}
  {
    assert (idx + [(i, j)])[..|idx|] == idx;
  }

  /** The ticket is in none of the pairs. */
  predicate Unpaired(t: WaitingTicket, pairs: seq<(WaitingTicket, WaitingTicket)>) {
    forall pair :: pair in pairs ==> t.ticketId != pair.0.ticketId && t.ticketId != pair.1.ticketId
  }

  /** Of two tickets that suit each other all along, at least one has been paired. */
  ghost predicate NoneSuitedLeft(tickets: seq<WaitingTicket>, settings: Settings, from: int, to: int,
                                 pairs: seq<(WaitingTicket, WaitingTicket)>)
  {
    forall i, j :: 0 <= i < j < |tickets| && Unpaired(tickets[i], pairs) && Unpaired(tickets[j], pairs) ==>
      !Suited(tickets[i], tickets[j], settings, from, to)
  }

  lemma {:induction false} UnpairedIsFree(tickets: seq<WaitingTicket>, idx: Positions, n: nat, t: WaitingTicket)
    requires InRange(tickets, idx) && n <= |idx| && Unpaired(t, Pick(tickets, idx))
    ensures t.ticketId !in Taken(tickets, idx[..n])
  {
    if n > 0 {
      UnpairedIsFree(tickets, idx, n - 1, t);
      assert Pick(tickets, idx)[n - 1] in Pick(tickets, idx);
      assert idx[..n][..n - 1] == idx[..n - 1];
    }
  }

  lemma SearchSuits(tickets: seq<WaitingTicket>, settings: Settings, t0: int, t1: int, idx: Positions)
    requires GreedySearch(tickets, settings, t0, t1, idx)
    ensures NoneSuitedLeft(tickets, settings, t0, t1, Pick(tickets, idx))
    ensures forall pair :: pair in Pick(tickets, idx) ==> !Unsuited(pair.0, pair.1, settings, t0, t1)
  {
    var pairs := Pick(tickets, idx);
    forall i, j | 0 <= i < j < |tickets| && Unpaired(tickets[i], pairs) && Unpaired(tickets[j], pairs)
      ensures !Suited(tickets[i], tickets[j], settings, t0, t1)
    {
      UnpairedIsFree(tickets, idx, |idx|, tickets[i]);
      UnpairedIsFree(tickets, idx, Before(idx, i), tickets[j]);
      assert LeftAlone(tickets, settings, t0, t1, idx, i);
      if Suited(tickets[i], tickets[j], settings, t0, t1) {
        SuitedIsAccepted(tickets[i], tickets[j], settings, t0, t1);
      }
    }
    forall pair | pair in pairs ensures !Unsuited(pair.0, pair.1, settings, t0, t1) {
      var k :| 0 <= k < |pairs| && pairs[k] == pair;
      assert FirstFit(tickets, settings, t0, t1, idx, k);
      if Unsuited(pair.0, pair.1, settings, t0, t1) {
        UnsuitedIsRefused(pair.0, pair.1, settings, t0, t1);
      }
    }
  }

  /** The nested loop of `find_pairs`.  `idx` records the positions behind `pairs`. */
  method FindPairs(tickets: seq<WaitingTicket>, settings: Settings, clock: Clock)
    returns (r: Search<seq<(WaitingTicket, WaitingTicket)>>, ghost idx: Positions)
    modifies clock
    ensures clock.now >= old(clock.now)
    ensures r.UnsupportedMatchSize? <==> settings.matchSize != 2
    ensures r.Found? ==> GreedySearch(tickets, settings, old(clock.now), clock.now, idx)
    ensures r.Found? ==> r.pairs == Pick(tickets, idx)
    ensures r.Found? ==> NoneSuitedLeft(tickets, settings, old(clock.now), clock.now, r.pairs)
    ensures r.Found? ==> forall pair :: pair in r.pairs ==>
              !Unsuited(pair.0, pair.1, settings, old(clock.now), clock.now)
  {
    idx := [];
    if settings.matchSize != 2 {
      return UnsupportedMatchSize, idx;
    }
    var pairs: seq<(WaitingTicket, WaitingTicket)> := [];
    var used: set<TicketId> := {};
    ghost var t0 := clock.now;
    var index := 0;
    while index < |tickets|
      invariant clock.now >= t0
      invariant SearchedTo(tickets, settings, t0, clock.now, idx, index)
      invariant pairs == Pick(tickets, idx)
      invariant used == Taken(tickets, idx)
    {
      var first := tickets[index];
      ghost var found := idx;
      assert idx[..|idx|] == idx;
      if first.ticketId !in used {
        var next := index + 1;
        while next < |tickets|
          invariant clock.now >= t0 && idx == found
          invariant Scanned(tickets, settings, t0, clock.now, idx, index, next)
        {
          var second := tickets[next];
          ghost var t := clock.now;
          if second.ticketId !in used {
            var compatible := TicketsCompatible(first, second, settings, clock);
            if compatible {
              Partner(tickets, settings, t0, t, clock.now, idx, index, next);
              pairs := pairs + [(first, second)];
              used := used + {first.ticketId, second.ticketId};
              idx := idx + [(index, next)];
              RecordPair(tickets, found, index, next);
              break;
            }
          }
          ScanFurther(tickets, settings, t0, t, clock.now, idx, index, next);
          next := next + 1;
        }
      }
      if idx == found {
        NoPartner(tickets, settings, t0, clock.now, idx, index);
      }
      index := index + 1;
    }
    assert GreedySearch(tickets, settings, t0, clock.now, idx);
    SearchSuits(tickets, settings, t0, clock.now, idx);
    r := Found(pairs);
  }
}
