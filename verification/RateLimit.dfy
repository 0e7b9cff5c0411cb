/** The fixed-window rate limiter of one tenant: `INCR` and `EXPIRE 60` on the counter of the
    current minute.  Times are seconds. */
module RateLimit {
  import opened Sql

  /** A request: when it read the clock, and when its pipeline was executed at the store. */
  datatype Hit = Hit(readAt: real, at: real) {
    /** The minute whose counter it increments. */
    function Minute(): int {
      Bucket(readAt)
    }
  }

  datatype Counter = Counter(count: nat, expiresAt: real)

  function Bucket(now: real): int {
    now.Floor / 60
  }

  /** The limiter's counters, and which requests it has seen. */
  class Limiter {
    const limit: int
    var counters: map<int, Counter>
    ghost var hits: seq<Hit>

    ghost predicate Valid()
      reads this
    {
      forall b {:trigger CounterAfter(hits, b)} ::
        CounterAfter(hits, b) == if b in counters then Some(counters[b]) else None
    }

    constructor (limit: int)
      ensures Valid() && this.limit == limit && hits == []
    {
      this.limit := limit;
      counters := map[];
      hits := [];
    }

    /** `check_rate_limit`, with the counter as the store has it at time `at`. */
    method CheckRateLimit(readAt: real, at: real) returns (pass: bool)
      requires Valid()
      modifies this
      ensures Valid() && hits == old(hits) + [Hit(readAt, at)]
      ensures pass <==> Passes(hits, |hits| - 1, limit)
    {
      var bucket := Bucket(readAt);
      var count := 1;
      if bucket in counters && at < counters[bucket].expiresAt {
        count := counters[bucket].count + 1;
      }
      assert CounterAfter(hits, bucket) == if bucket in counters then Some(counters[bucket]) else None;
      counters := counters[bucket := Counter(count, at + 60.0)];
      ghost var before := hits;
      hits := hits + [Hit(readAt, at)];
      assert hits[..|before|] == before && hits[..|hits|] == hits;
      forall b ensures CounterAfter(hits, b) == if b in counters then Some(counters[b]) else None {
        assert b != bucket ==> CounterAfter(before, b) == CounterAfter(hits, b);
      }
      pass := !(count > limit);
    }
  }

  /** The counter of a minute after the given hits; an expired one is replaced at the next hit. */
  function CounterAfter(hits: seq<Hit>, bucket: int): Option<Counter> {
    if hits == [] then None
    else
      var last := hits[|hits| - 1];
      var before := CounterAfter(hits[..|hits| - 1], bucket);
      if last.Minute() != bucket then before
      else
        var live := before.Some? && last.at < before.value.expiresAt;
        Some(Counter(if live then before.value.count + 1 else 1, last.at + 60.0))
  }

  /** The count that hit `i` got back, compared with the limit. */
  predicate Passes(hits: seq<Hit>, i: int, limit: int)
    requires 0 <= i < |hits|
  {
    var c := CounterAfter(hits[..i + 1], hits[i].Minute());
    c.Some? && c.value.count <= limit
  }

  /** A limit of zero or less lets nothing pass. */
  function Allowed(limit: int): nat {
    if limit > 0 then limit else 0
  }

  function HitsIn(hits: seq<Hit>, bucket: int): nat {
    if hits == [] then 0
    else HitsIn(hits[..|hits| - 1], bucket) + if hits[|hits| - 1].Minute() == bucket then 1 else 0
  }

  /** How many requests with the given minute passed. */
  function PassedIn(hits: seq<Hit>, bucket: int, limit: int): nat {
    if hits == [] then 0
    else
      PassedIn(hits[..|hits| - 1], bucket, limit) +
      if hits[|hits| - 1].Minute() == bucket && Passes(hits, |hits| - 1, limit) then 1 else 0
  }

  /** Requests reach the store in order of time. */
  ghost predicate InOrder(hits: seq<Hit>) {
    forall i, j :: 0 <= i < j < |hits| ==> hits[i].at <= hits[j].at
  }

  /** No two consecutive hits of one minute are 60 seconds or more apart. */
  ghost predicate NoLapse(hits: seq<Hit>) {
    forall i {:trigger Alive(hits, i)} :: 0 <= i < |hits| ==> Alive(hits, i)
  }

  /** The counter that hit `i` finds has not expired. */
  ghost predicate Alive(hits: seq<Hit>, i: int)
    requires 0 <= i < |hits|
  {
    var before := CounterAfter(hits[..i], hits[i].Minute());
    before.Some? ==> hits[i].at < before.value.expiresAt
  }

  lemma {:induction false} CounterExists(hits: seq<Hit>, bucket: int)
    ensures CounterAfter(hits, bucket).Some? <==> HitsIn(hits, bucket) > 0
    ensures CounterAfter(hits, bucket).Some? ==> 1 <= CounterAfter(hits, bucket).value.count <= HitsIn(hits, bucket)
  {
    if hits != [] {
      CounterExists(hits[..|hits| - 1], bucket);
    }
  }

  lemma PrefixNoLapse(hits: seq<Hit>, n: nat)
    requires NoLapse(hits) && n <= |hits|
    ensures NoLapse(hits[..n])
  {
    forall i | 0 <= i < n ensures Alive(hits[..n], i) {
      assert Alive(hits, i) && hits[..n][..i] == hits[..i];
    }
  }

  /** Counters are exact, in every minute, as long as none lapses. */
  lemma {:induction false} CountersAreExact(hits: seq<Hit>, bucket: int)
    requires NoLapse(hits)
    ensures CounterAfter(hits, bucket).Some? ==> CounterAfter(hits, bucket).value.count == HitsIn(hits, bucket)
  {
    if hits != [] {
      var n := |hits| - 1;
      PrefixNoLapse(hits, n);
      CountersAreExact(hits[..n], bucket);
      CounterExists(hits[..n], bucket);
      assert Alive(hits, n);
    }
  }

  /** Hit `i` got back the number of hits of its minute so far. */
  ghost predicate Exact(hits: seq<Hit>, i: int)
    requires 0 <= i < |hits|
  {
    var b, upTo := hits[i].Minute(), hits[..i + 1];
    CounterAfter(upTo, b) == Some(Counter(HitsIn(upTo, b), hits[i].at + 60.0))
  }

  lemma ExactWhileAlive(hits: seq<Hit>, i: nat)
    requires i < |hits| && forall k {:trigger Alive(hits, k)} :: 0 <= k <= i ==> Alive(hits, k)
    ensures Exact(hits, i)
  {
    var upTo := hits[..i + 1];
    forall k | 0 <= k <= i ensures Alive(upTo, k) {
      assert Alive(hits, k) && upTo[..k] == hits[..k];
    }
    CountersAreExact(upTo, hits[i].Minute());
  }

  lemma AliveIfExact(hits: seq<Hit>, i: nat)
    requires i < |hits| && Exact(hits, i)
    ensures Alive(hits, i)
  {
    assert hits[..i + 1][..i] == hits[..i];
    CounterExists(hits[..i], hits[i].Minute());
  }

  /** A counter that lapses has lost count: no lapse is exactly when all counts are right. */
  lemma ExactIffNoLapse(hits: seq<Hit>)
    ensures NoLapse(hits) <==> forall i {:trigger Exact(hits, i)} :: 0 <= i < |hits| ==> Exact(hits, i)
  {
    if NoLapse(hits) {
      forall i | 0 <= i < |hits| ensures Exact(hits, i) {
        ExactWhileAlive(hits, i);
      }
    }
    if forall i {:trigger Exact(hits, i)} :: 0 <= i < |hits| ==> Exact(hits, i) {
      forall i | 0 <= i < |hits| ensures Alive(hits, i) {
        assert Exact(hits, i);
        AliveIfExact(hits, i);
      }
    }
  }

  /** Each request reached the store in the minute it had read off the clock. */
  ghost predicate Prompt(hits: seq<Hit>) {
    InOrder(hits) && forall i :: 0 <= i < |hits| ==> hits[i].Minute() == Bucket(hits[i].at)
  }

  lemma {:induction false} LastHit(hits: seq<Hit>, bucket: int) returns (k: int)
    requires HitsIn(hits, bucket) > 0
    ensures 0 <= k < |hits| && hits[k].Minute() == bucket
    ensures CounterAfter(hits, bucket).Some? && CounterAfter(hits, bucket).value.expiresAt == hits[k].at + 60.0
  {
    var n := |hits| - 1;
    if hits[n].Minute() == bucket {
      k := n;
    } else {
      k := LastHit(hits[..n], bucket);
    }
  }

  /** Refreshing the expiry at each hit keeps a counter for as long as its minute is current. */
  lemma PromptHitsDoNotLapse(hits: seq<Hit>)
    requires Prompt(hits)
    ensures NoLapse(hits)
  {
    forall i | 0 <= i < |hits| ensures Alive(hits, i) {
      var b := hits[i].Minute();
      CounterExists(hits[..i], b);
      if HitsIn(hits[..i], b) > 0 {
        var k := LastHit(hits[..i], b);
        assert hits[k].Minute() == b && hits[k].at <= hits[i].at;
        SameMinute(hits[k].at, hits[i].at);
      }
    }
  }

  lemma SameMinute(a: real, b: real)
    requires Bucket(a) == Bucket(b)
    ensures b < a + 60.0
  {
    assert a.Floor as real <= a && b < b.Floor as real + 1.0;
    assert b.Floor - a.Floor <= 59;
  }

  /** In each minute exactly the first `limit` requests pass. */
  lemma {:induction false} PassesPerMinute(hits: seq<Hit>, bucket: int, limit: int)
    requires NoLapse(hits)
    ensures PassedIn(hits, bucket, limit) == Min(HitsIn(hits, bucket), Allowed(limit))
  {
    if hits != [] {
      var n := |hits| - 1;
      PrefixNoLapse(hits, n);
      PassesPerMinute(hits[..n], bucket, limit);
      CountersAreExact(hits, bucket);
      CounterExists(hits, bucket);
      assert hits[..n + 1] == hits;
    }
  }

  /** Sixty seconds, by the clock the requests read or by the store's. */
  datatype Window = ByRead(from: real) | ByStore(from: real) {
    predicate Has(h: Hit) {
      var t := if ByRead? then h.readAt else h.at;
      from <= t <= from + 60.0
    }
  }

  /** How many requests of the window passed. */
  function PassedWithin(hits: seq<Hit>, w: Window, limit: int): nat {
    if hits == [] then 0
    else
      PassedWithin(hits[..|hits| - 1], w, limit) +
      if w.Has(hits[|hits| - 1]) && Passes(hits, |hits| - 1, limit) then 1 else 0
  }

  /** The same, of the given minutes only. */
  function PassedOf(hits: seq<Hit>, w: Window, limit: int, minutes: set<int>): nat {
    if hits == [] then 0
    else
      var h := hits[|hits| - 1];
      PassedOf(hits[..|hits| - 1], w, limit, minutes) +
      if w.Has(h) && h.Minute() in minutes && Passes(hits, |hits| - 1, limit) then 1 else 0
  }

  /** The minutes whose counters the requests of the window increment. */
  function MinutesIn(hits: seq<Hit>, w: Window): set<int> {
    set h | h in hits && w.Has(h) :: h.Minute()
  }

  lemma {:induction false} AllMinutes(hits: seq<Hit>, w: Window, limit: int, minutes: set<int>)
    requires MinutesIn(hits, w) <= minutes
    ensures PassedWithin(hits, w, limit) == PassedOf(hits, w, limit, minutes)
  {
    if hits != [] {
      var n := |hits| - 1;
      assert w.Has(hits[n]) ==> hits[n].Minute() in MinutesIn(hits, w);
      AllMinutes(hits[..n], w, limit, minutes);
    }
  }

  lemma {:induction false} OneMinuteLess(hits: seq<Hit>, w: Window, limit: int, minutes: set<int>, b: int)
    ensures PassedOf(hits, w, limit, minutes) <= PassedOf(hits, w, limit, minutes - {b}) + PassedIn(hits, b, limit)
  {
    if hits != [] {
      OneMinuteLess(hits[..|hits| - 1], w, limit, minutes, b);
    }
  }

  lemma {:induction false} NoMinutes(hits: seq<Hit>, w: Window, limit: int)
    ensures PassedOf(hits, w, limit, {}) == 0
  {
    if hits != [] {
      NoMinutes(hits[..|hits| - 1], w, limit);
    }
  }

  lemma {:induction false} MinutesAddUp(hits: seq<Hit>, w: Window, limit: int, minutes: set<int>, most: nat)
    requires forall b :: b in minutes ==> PassedIn(hits, b, limit) <= most
    ensures PassedOf(hits, w, limit, minutes) <= |minutes| * most
  {
    if minutes == {} {
      NoMinutes(hits, w, limit);
    } else {
      var b := SomeElement(minutes);
      OneMinuteLess(hits, w, limit, minutes, b);
      MinutesAddUp(hits, w, limit, minutes - {b}, most);
      Product(|minutes| - 1, most);
    }
  }

  lemma Product(n: int, most: nat)
    ensures (n + 1) * most == n * most + most
  {
  }

  /** Whatever bounds each minute bounds a window, by either clock, times the minutes that the
      requests of the window belong to. */
  lemma WindowByMinutes(hits: seq<Hit>, w: Window, limit: int, minutes: set<int>, most: nat)
    requires MinutesIn(hits, w) <= minutes
    requires forall b :: b in minutes ==> PassedIn(hits, b, limit) <= most
    ensures PassedWithin(hits, w, limit) <= |minutes| * most
  {
    AllMinutes(hits, w, limit, minutes);
    MinutesAddUp(hits, w, limit, minutes, most);
  }

  lemma NextMinute(from: real, at: real)
    requires from <= at <= from + 60.0
    ensures Bucket(at) == Bucket(from) || Bucket(at) == Bucket(from) + 1
  {
    assert from.Floor <= at.Floor <= from.Floor + 60;
  }

  lemma MinuteBefore(from: real, at: real)
    requires from - 60.0 < at <= from + 60.0
    ensures Bucket(from) - 1 <= Bucket(at) <= Bucket(from) + 1
  {
    assert from.Floor - 60 <= at.Floor <= from.Floor + 60;
  }

  /** Every minute keeps to the limit, or to a multiple of it. */
  ghost predicate MinutesKeep(hits: seq<Hit>, limit: int, most: nat) {
    forall b :: PassedIn(hits, b, limit) <= most
  }

  lemma NoLapseKeeps(hits: seq<Hit>, limit: int)
    requires NoLapse(hits)
    ensures MinutesKeep(hits, limit, Allowed(limit))
  {
    forall b ensures PassedIn(hits, b, limit) <= Allowed(limit) {
      PassesPerMinute(hits, b, limit);
    }
  }

  lemma ReadWindow(hits: seq<Hit>, from: real, limit: int, most: nat)
    requires MinutesKeep(hits, limit, most)
    ensures PassedWithin(hits, ByRead(from), limit) <= 2 * most
  {
    forall h | h in hits && ByRead(from).Has(h) ensures h.Minute() in {Bucket(from), Bucket(from) + 1} {
      NextMinute(from, h.readAt);
    }
    WindowByMinutes(hits, ByRead(from), limit, {Bucket(from), Bucket(from) + 1}, most);
  }

  /** While no counter lapses: of the requests that read the clock within any 60 seconds, wherever
      these start, at most twice the limit pass. */
  lemma AnyWindow(hits: seq<Hit>, from: real, limit: int)
    requires NoLapse(hits)
    ensures PassedWithin(hits, ByRead(from), limit) <= 2 * Allowed(limit)
  {
    NoLapseKeeps(hits, limit);
    ReadWindow(hits, from, limit, Allowed(limit));
  }

  /** While no counter lapses: of those executed at the store within any 60 seconds too, if none of
      them had read the clock in an earlier minute than the window begins in. */
  lemma TwoMinutesSuffice(hits: seq<Hit>, from: real, limit: int)
    requires NoLapse(hits)
    requires forall h :: h in hits && ByStore(from).Has(h) ==> h.readAt <= h.at && h.Minute() >= Bucket(from)
    ensures PassedWithin(hits, ByStore(from), limit) <= 2 * Allowed(limit)
  {
    forall h | h in hits && ByStore(from).Has(h) ensures h.Minute() in {Bucket(from), Bucket(from) + 1} {
      NextMinute(from, h.at);
      assert h.readAt.Floor <= h.at.Floor;
    }
    NoLapseKeeps(hits, limit);
    WindowByMinutes(hits, ByStore(from), limit, {Bucket(from), Bucket(from) + 1}, Allowed(limit));
  }

  /** No request takes longer than `d` from the clock to the store. */
  ghost predicate Within(hits: seq<Hit>, d: real) {
    forall h :: h in hits ==> h.readAt <= h.at <= h.readAt + d
  }

  lemma StoreWindow(hits: seq<Hit>, from: real, limit: int, d: real, most: nat)
    requires MinutesKeep(hits, limit, most) && Within(hits, d) && d < 60.0
    ensures PassedWithin(hits, ByStore(from), limit) <= 3 * most
  {
    var b := Bucket(from);
    forall h | h in hits && ByStore(from).Has(h) ensures h.Minute() in {b - 1, b, b + 1} {
      MinuteBefore(from, h.readAt);
    }
    WindowByMinutes(hits, ByStore(from), limit, {b - 1, b, b + 1}, most);
  }

  /** While no counter lapses: requests under a minute late can add one minute to a window of the
      store, not more. */
  lemma ThreeMinutesAtMost(hits: seq<Hit>, from: real, limit: int, d: real)
    requires NoLapse(hits) && Within(hits, d) && d < 60.0
    ensures PassedWithin(hits, ByStore(from), limit) <= 3 * Allowed(limit)
  {
    NoLapseKeeps(hits, limit);
    StoreWindow(hits, from, limit, d, Allowed(limit));
  }

  // ----- When counters lapse -----

  /** How many hits of the minute found its counter expired. */
  function Lapses(hits: seq<Hit>, bucket: int): nat {
    if hits == [] then 0
    else
      var before, h := hits[..|hits| - 1], hits[|hits| - 1];
      var c := CounterAfter(before, bucket);
      Lapses(before, bucket) + if h.Minute() == bucket && c.Some? && h.at >= c.value.expiresAt then 1 else 0
  }

  /** Each lapse lets the limit pass once more. */
  lemma {:induction false} PassedByLapses(hits: seq<Hit>, bucket: int, limit: int)
    ensures var c := CounterAfter(hits, bucket);
            PassedIn(hits, bucket, limit) <=
            Lapses(hits, bucket) * Allowed(limit) + if c.Some? then Min(c.value.count, Allowed(limit)) else 0
  {
    if hits != [] {
      var n := |hits| - 1;
      PassedByLapses(hits[..n], bucket, limit);
      CounterExists(hits[..n], bucket);
      Product(Lapses(hits[..n], bucket), Allowed(limit));
      assert hits[..n + 1] == hits;
    }
  }

  lemma InMinute(h: Hit, d: real)
    requires h.readAt <= h.at <= h.readAt + d
    ensures 60.0 * h.Minute() as real <= h.at < 60.0 * h.Minute() as real + 60.0 + d
  {
    var f := h.readAt.Floor;
    assert f == f / 60 * 60 + f % 60;
    assert f as real <= h.readAt < (f + 1) as real;
  }

  /** A lapse takes a minute, and is over when the last request of its minute has arrived. */
  lemma {:induction false} LapsesTakeTime(hits: seq<Hit>, bucket: int, d: real)
    requires InOrder(hits) && Within(hits, d)
    ensures var c, n := CounterAfter(hits, bucket), Lapses(hits, bucket);
            && (if c.Some? then c.value.expiresAt >= 60.0 * (bucket + n + 1) as real else n == 0)
            && (n > 0 ==> 60.0 * n as real < 60.0 + d)
  {
    if hits != [] {
      var n := |hits| - 1;
      assert InOrder(hits[..n]) && Within(hits[..n], d);
      LapsesTakeTime(hits[..n], bucket, d);
      if hits[n].Minute() == bucket {
        InMinute(hits[n], d);
        CounterExists(hits[..n], bucket);
        if HitsIn(hits[..n], bucket) > 0 {
          var k := LastHit(hits[..n], bucket);
          assert hits[..n][k] == hits[k] && hits[k].at <= hits[n].at;
        }
      }
    }
  }

  /** Requests at most a minute late: at most twice the limit of each minute passes, come what may. */
  lemma LateMinute(hits: seq<Hit>, bucket: int, limit: int, d: real)
    requires InOrder(hits) && Within(hits, d) && d <= 60.0
    ensures PassedIn(hits, bucket, limit) <= 2 * Allowed(limit)
  {
    LapsesTakeTime(hits, bucket, d);
    PassedByLapses(hits, bucket, limit);
    assert Lapses(hits, bucket) <= 1;
    assert Lapses(hits, bucket) == 0 || Lapses(hits, bucket) == 1;
  }

  /** So, with no assumption on the counters, at most four times the limit pass in 60 seconds by the
      clock the requests read, and six times by the store's. */
  lemma LateWindow(hits: seq<Hit>, from: real, limit: int, d: real)
    requires InOrder(hits) && Within(hits, d) && d < 60.0
    ensures PassedWithin(hits, ByRead(from), limit) <= 4 * Allowed(limit)
    ensures PassedWithin(hits, ByStore(from), limit) <= 6 * Allowed(limit)
  {
    forall b ensures PassedIn(hits, b, limit) <= 2 * Allowed(limit) {
      LateMinute(hits, b, limit, d);
    }
    ReadWindow(hits, from, limit, 2 * Allowed(limit));
    StoreWindow(hits, from, limit, d, 2 * Allowed(limit));
  }

  ghost predicate Kept(hits: seq<Hit>, bucket: int, limit: int) {
    PassedIn(hits, bucket, limit) <= Allowed(limit)
  }

  /** The limit of every minute is kept, whatever it is, exactly as long as no counter lapses. */
  lemma LimitExactly(hits: seq<Hit>)
    ensures NoLapse(hits) <==>
            forall b, limit {:trigger Kept(hits, b, limit)} :: Kept(hits, b, limit)
  {
    if NoLapse(hits) {
      forall b, limit ensures Kept(hits, b, limit) {
        PassesPerMinute(hits, b, limit);
      }
    }
    if forall b, limit {:trigger Kept(hits, b, limit)} :: Kept(hits, b, limit) {
      KeptMeansNoLapse(hits);
    }
  }

  lemma {:induction false} KeptMeansNoLapse(hits: seq<Hit>)
    requires forall b, limit {:trigger Kept(hits, b, limit)} :: Kept(hits, b, limit)
    ensures NoLapse(hits)
  {
    if hits != [] {
      var n := |hits| - 1;
      var before := hits[..n];
      forall b, limit ensures Kept(before, b, limit) {
        assert Kept(hits, b, limit) && PassedIn(before, b, limit) <= PassedIn(hits, b, limit);
      }
      KeptMeansNoLapse(before);
      LastIsAlive(hits);
      forall i | 0 <= i < |hits| ensures Alive(hits, i) {
        if i < n {
          assert Alive(before, i) && before[..i] == hits[..i];
        }
      }
    }
  }

  /** If the last hit found its counter lapsed, it passes a limit that the hits before it used up. */
  lemma LastIsAlive(hits: seq<Hit>)
    requires hits != [] && NoLapse(hits[..|hits| - 1])
    requires forall b, limit {:trigger Kept(hits, b, limit)} :: Kept(hits, b, limit)
    ensures Alive(hits, |hits| - 1)
  {
    var n := |hits| - 1;
    var b := hits[n].Minute();
    var used := HitsIn(hits[..n], b);
    CounterExists(hits[..n], b);
    PassesPerMinute(hits[..n], b, used);
    assert hits[..n + 1] == hits;
    assert Kept(hits, b, used);
  }

  /** They do add it: with any delay at all, three requests pass under a limit of one within 60
      seconds of the store's clock, none of their counters having lapsed. */
  lemma ThreeMinutesInOneWindow(d: real) returns (hits: seq<Hit>, from: real)
    requires d > 0.0
    ensures InOrder(hits) && NoLapse(hits) && Within(hits, d) && PassedWithin(hits, ByStore(from), 1) == 3
  {
    var e := (if d < 1.0 then d else 1.0) / 2.0;
    from := 60.0 + e;
    hits := [Hit(60.0 - e, from), Hit(61.0, 61.0), Hit(120.0, 120.0)];
    assert (60.0 - e).Floor == 59 && 61.0.Floor == 61 && 120.0.Floor == 120;
    assert hits[0].Minute() == 0 && hits[1].Minute() == 1 && hits[2].Minute() == 2;
    AllApart(hits, ByStore(from));
  }

  /** The first request of each minute passes. */
  lemma AllApart(hits: seq<Hit>, w: Window)
    requires |hits| == 3 && hits[0].Minute() < hits[1].Minute() < hits[2].Minute()
    requires w.Has(hits[0]) && w.Has(hits[1]) && w.Has(hits[2])
    ensures NoLapse(hits) && PassedWithin(hits, w, 1) == 3
  {
    var one, two := hits[..1], hits[..2];
    assert two[..1] == one && one[..0] == [] && hits[..3] == hits && two[..2] == two && one[..1] == one;
    assert hits[..0] == [] && one[0] == two[0] == hits[0] && two[1] == hits[1];
    forall b ensures CounterAfter(one, b).Some? <==> b == hits[0].Minute() {
      assert CounterAfter(one[..0], b) == None;
    }
    forall b ensures CounterAfter(two, b).Some? <==> b == hits[0].Minute() || b == hits[1].Minute() {
      assert CounterAfter(one, b).Some? <==> b == hits[0].Minute();
    }
    forall i | 0 <= i < 3 ensures Alive(hits, i) {
    }
    assert Passes(one, 0, 1) && Passes(two, 1, 1) && Passes(hits, 2, 1);
    assert PassedWithin(one, w, 1) == 1 && PassedWithin(two, w, 1) == 2;
  }

  lemma OnTimeIsPrompt(hits: seq<Hit>)
    requires InOrder(hits) && Within(hits, 0.0)
    ensures Prompt(hits) && NoLapse(hits)
  {
    forall i | 0 <= i < |hits| ensures hits[i].Minute() == Bucket(hits[i].at) {
      assert hits[i] in hits;
    }
    PromptHitsDoNotLapse(hits);
  }

  /** Delayed by `d` at most, the requests of any 60 seconds, or of any minute, keep to the limit. */
  ghost predicate MinuteKept(hits: seq<Hit>, bucket: int, limit: int, d: real) {
    InOrder(hits) && Within(hits, d) ==> Kept(hits, bucket, limit)
  }

  ghost predicate Twice(hits: seq<Hit>, w: Window, limit: int, d: real) {
    InOrder(hits) && Within(hits, d) ==> PassedWithin(hits, w, limit) <= 2 * Allowed(limit)
  }

  /** Two requests of one minute, the second held up until the counter of the first has expired,
      and one of the next minute: three pass under a limit of one. */
  lemma LateHit(d: real) returns (hits: seq<Hit>)
    requires d > 0.0
    ensures InOrder(hits) && Within(hits, d) && HitsIn(hits, 0) == 2 && PassedIn(hits, 0, 1) == 2
    ensures PassedWithin(hits, ByRead(0.0), 1) == 3
  {
    var e := (if d < 1.0 then d else 1.0) / 2.0;
    hits := [Hit(0.0, 0.0), Hit(60.0 - e, 60.0 + e), Hit(60.0, 60.0 + e)];
    assert (60.0 - e).Floor == 59;
    assert hits[0].Minute() == 0 && hits[1].Minute() == 0 && hits[2].Minute() == 1;
    var none, one, two := hits[..0], hits[..1], hits[..2];
    assert none == [] && one == [hits[0]] && two == [hits[0], hits[1]] && hits[..3] == hits;
    assert one[..0] == none && two[..1] == one && one[..1] == one && two[..2] == two;
    assert CounterAfter(none, 0) == None && CounterAfter(none, 1) == None;
    assert CounterAfter(one, 0) == Some(Counter(1, 60.0)) && CounterAfter(one, 1) == None;
    assert CounterAfter(two, 0) == Some(Counter(1, 120.0 + e)) && CounterAfter(two, 1) == None;
    assert CounterAfter(hits, 1) == Some(Counter(1, 120.0 + e));
    assert Passes(one, 0, 1) && Passes(two, 1, 1) && Passes(hits, 2, 1);
    assert HitsIn(one, 0) == 1 && HitsIn(two, 0) == 2;
    assert PassedIn(none, 0, 1) == 0 && PassedIn(one, 0, 1) == 1 && PassedIn(two, 0, 1) == 2;
    assert PassedWithin(none, ByRead(0.0), 1) == 0 && PassedWithin(one, ByRead(0.0), 1) == 1;
    assert PassedWithin(two, ByRead(0.0), 1) == 2;
  }

  /** What the limiter promises, that a minute keeps to its limit, holds of every run with requests
      at most `d` late exactly when `d` is zero. */
  lemma MinuteExactly(d: real)
    requires d >= 0.0
    ensures (forall hits, b, limit {:trigger MinuteKept(hits, b, limit, d)} :: MinuteKept(hits, b, limit, d)) <==>
            d == 0.0
  {
    if d == 0.0 {
      forall hits, b, limit ensures MinuteKept(hits, b, limit, d) {
        if InOrder(hits) && Within(hits, d) {
          OnTimeIsPrompt(hits);
          PassesPerMinute(hits, b, limit);
        }
      }
    } else {
      var hits := LateHit(d);
      assert !MinuteKept(hits, 0, 1, d);
    }
  }

  /** And so does twice the limit in any 60 seconds by the clock the requests read, */
  lemma ReadWindowExactly(d: real)
    requires d >= 0.0
    ensures (forall hits, from, limit {:trigger Twice(hits, ByRead(from), limit, d)} ::
               Twice(hits, ByRead(from), limit, d)) <==> d == 0.0
  {
    if d == 0.0 {
      forall hits, from, limit ensures Twice(hits, ByRead(from), limit, d) {
        if InOrder(hits) && Within(hits, d) {
          OnTimeIsPrompt(hits);
          AnyWindow(hits, from, limit);
        }
      }
    } else {
      var hits := LateHit(d);
      assert !Twice(hits, ByRead(0.0), 1, d);
    }
  }

  /** as by the store's. */
  lemma StoreWindowExactly(d: real)
    requires d >= 0.0
    ensures (forall hits, from, limit {:trigger Twice(hits, ByStore(from), limit, d)} ::
               Twice(hits, ByStore(from), limit, d)) <==> d == 0.0
  {
    if d == 0.0 {
      forall hits, from, limit ensures Twice(hits, ByStore(from), limit, d) {
        if InOrder(hits) && Within(hits, d) {
          OnTimeIsPrompt(hits);
          forall h | h in hits && ByStore(from).Has(h) ensures h.Minute() >= Bucket(from) {
            NextMinute(from, h.at);
          }
          TwoMinutesSuffice(hits, from, limit);
        }
      }
    } else {
      var hits, from := ThreeMinutesInOneWindow(d);
      assert !Twice(hits, ByStore(from), 1, d);
    }
  }

  /** Twice the limit does happen, within two seconds. */
  lemma TwiceIsReached() returns (hits: seq<Hit>)
    ensures Prompt(hits) && PassedWithin(hits, ByRead(59.0), 1) == 2
  {
    hits := [Hit(59.0, 59.0), Hit(60.0, 60.0)];
    assert hits[..1] == [Hit(59.0, 59.0)] && hits[..2] == hits;
    assert hits[..1][..0] == [];
    assert CounterAfter(hits[..0], 1) == None && CounterAfter(hits[..1], 1) == None;
    assert Passes(hits, 1, 1) && Passes(hits[..1], 0, 1);
    assert PassedWithin(hits[..1], ByRead(59.0), 1) == 1;
  }
}
