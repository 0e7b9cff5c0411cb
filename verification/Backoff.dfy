/** Retry delays of the callback dispatcher. */
module Backoff {
  import opened Sql

  datatype Settings = Settings(base: nat, max: nat, jitter: nat)

  function Pow2(n: nat): (p: nat)
    ensures p >= 1
  {
    if n == 0 then 1 else 2 * Pow2(n - 1)
  }

  /** Seconds before jitter, `attempts` counting the failure just recorded. */
  function Capped(attempts: int, s: Settings): nat {
    Min(s.base * Pow2(if attempts >= 1 then attempts - 1 else 0), s.max)
  }

  method NextBackoffSeconds(attempts: int, s: Settings) returns (seconds: nat)
    ensures Capped(attempts, s) <= seconds <= Capped(attempts, s) + s.jitter
  {
    var jitter: int := *;
    if !(0 <= jitter <= s.jitter) {
      jitter := 0;
    }
    seconds := Capped(attempts, s) + jitter;
  }

  /** Delays never shrink from one attempt to the next. */
  lemma {:induction false} Monotone(a: int, b: int, s: Settings)
    requires a <= b
    ensures Capped(a, s) <= Capped(b, s)
    decreases b - a
  {
    if a < b {
      Monotone(a, b - 1, s);
      DoublesOrSaturates(b - 1, s);
      assert b <= 1 ==> Capped(b - 1, s) == Capped(b, s);
    }
  }

  /** The first delay is the base, up to the cap, */
  lemma FirstDelay(a: int, s: Settings)
    requires a <= 1
    ensures Capped(a, s) == if s.base <= s.max then s.base else s.max
  {
    assert Pow2(0) == 1;
  }

  /** and each after it twice the one before until the cap is reached, where it stays. */
  lemma DoublesOrSaturates(a: int, s: Settings)
    ensures a >= 1 ==> Capped(a + 1, s) == Min(2 * Capped(a, s), s.max)
    ensures a >= 1 && Capped(a, s) == s.max ==> Capped(a + 1, s) == s.max
  {
    if a >= 1 {
      assert Pow2(a) == 2 * Pow2(a - 1);
      assert s.base * Pow2(a) == 2 * (s.base * Pow2(a - 1));
    }
  }

  /** Delays a method call may have chosen for failures 1, 2, ... of one event. */
  ghost predicate Chosen(delays: seq<nat>, s: Settings) {
    forall i :: 0 <= i < |delays| ==> Capped(i + 1, s) <= delays[i] <= Capped(i + 1, s) + s.jitter
  }

  function Sum(delays: seq<nat>): nat {
    if delays == [] then 0 else Sum(delays[..|delays| - 1]) + delays[|delays| - 1]
  }

  lemma {:induction false} DoublingTotal(delays: seq<nat>, s: Settings)
    requires Chosen(delays, s)
    ensures Sum(delays) <= s.base * (Pow2(|delays|) - 1) + |delays| * s.jitter
  {
    if delays != [] {
      var n := |delays| - 1;
      DoublingTotal(delays[..n], s);
      OneMore(s.base, Pow2(n));
      Product(n, s.jitter);
      assert delays[n] <= Capped(n + 1, s) + s.jitter <= s.base * Pow2(n) + s.jitter;
    }
  }

  lemma OneMore(base: nat, p: nat)
    ensures base * (2 * p - 1) == base * (p - 1) + base * p
  {
  }

  lemma {:induction false} CappedTotal(delays: seq<nat>, s: Settings)
    requires Chosen(delays, s)
    ensures Sum(delays) <= |delays| * s.max + |delays| * s.jitter
  {
    if delays != [] {
      var n := |delays| - 1;
      CappedTotal(delays[..n], s);
      assert delays[n] <= Capped(n + 1, s) + s.jitter <= s.max + s.jitter;
      Product(n, s.max);
      Product(n, s.jitter);
    }
  }

  lemma Product(n: nat, x: nat)
    ensures (n + 1) * x == n * x + x
  {
  }

  /** What `n` doubling delays or `n` capped ones add up to, whichever is less, plus the jitter
      of each. */
  function LongestWait(n: nat, s: Settings): int {
    Min(s.base * (Pow2(n) - 1), n * s.max) + n * s.jitter
  }

  lemma TotalDelay(delays: seq<nat>, s: Settings)
    requires Chosen(delays, s)
    ensures Sum(delays) <= LongestWait(|delays|, s)
  {
    DoublingTotal(delays, s);
    CappedTotal(delays, s);
  }

  lemma {:induction false} Pow2Grows(a: nat, b: nat)
    requires a <= b
    ensures Pow2(a) <= Pow2(b)
    decreases b - a
  {
    if a < b {
      Pow2Grows(a, b - 1);
    }
  }

  /** The bound on the total delay grows with the number of retries. */
  lemma MoreRetries(a: nat, b: nat, s: Settings)
    requires a <= b
    ensures LongestWait(a, s) <= LongestWait(b, s)
  {
    Pow2Grows(a, b);
    Scales(s.base, Pow2(a) - 1, Pow2(b) - 1);
    Scales(s.max, a, b);
    Scales(s.jitter, a, b);
  }

  lemma Scales(k: nat, a: nat, b: nat)
    requires a <= b
    ensures k * a <= k * b && a * k <= b * k
  {
    assert k * b == k * a + k * (b - a);
  }

  /** With at most `n` retries the total stays within the bound for `n`. */
  lemma AtMostRetries(delays: seq<nat>, n: nat, s: Settings)
    requires Chosen(delays, s) && |delays| <= n
    ensures Sum(delays) <= LongestWait(n, s)
  {
    TotalDelay(delays, s);
    MoreRetries(|delays|, n, s);
  }
}
