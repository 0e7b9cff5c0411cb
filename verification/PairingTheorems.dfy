/** What a greedy search guarantees, whatever the clock does while it runs. */
module PairingTheorems {
  import opened Sql
  import opened Pairing

  /** `a` and `b` would be accepted by a comparison made entirely at time `t`. */
  predicate CompatibleNow(a: WaitingTicket, b: WaitingTicket, settings: Settings, t: int) {
    CompatibleAt(a, b, settings, t, t)
  }

  /** An accepted pair stays acceptable, and a refusal late in the search was also one early on. */
  lemma VerdictsAge(a: WaitingTicket, b: WaitingTicket, settings: Settings, t0: int, t1: int)
    requires settings.Widening() || t0 == t1
    ensures AcceptedWithin(a, b, settings, t0, t1) ==> CompatibleNow(a, b, settings, t1)
    ensures RefusedWithin(a, b, settings, t0, t1) ==> !CompatibleNow(a, b, settings, t0)
  {
  }

  /** With a threshold that shrinks, some pair is compatible at first and not any more later. */
  lemma Narrowing(settings: Settings) returns (a: WaitingTicket, b: WaitingTicket, early: int, late: int)
    requires !settings.Widening()
    ensures a.ticketId != b.ticketId && early <= late
    ensures CompatibleNow(a, b, settings, early) && !CompatibleNow(a, b, settings, late)
  {
    early := if Max(-1, settings.skillDeltaInitial) > Max(-1, settings.skillDeltaAfter30s) then 0 else 30 * SECOND;
    late := early + 30 * SECOND;
    a := WaitingTicket(0, "", "", "", "", 0, 0, 0);
    b := WaitingTicket(1, "", "", "", "", SkillDelta(early, settings), 0, 0);
  }

  /** Those two guarantees need, each of them, exactly the thresholds that do not shrink with
      waiting. */
  lemma WideningIsExact(settings: Settings)
    ensures settings.Widening() <==>
            forall a, b, t0, t1 :: AcceptedWithin(a, b, settings, t0, t1) ==> CompatibleNow(a, b, settings, t1)
    ensures settings.Widening() <==>
            forall a, b, t0, t1 :: RefusedWithin(a, b, settings, t0, t1) ==> !CompatibleNow(a, b, settings, t0)
  {
    if settings.Widening() {
      forall a, b, t0, t1
        ensures AcceptedWithin(a, b, settings, t0, t1) ==> CompatibleNow(a, b, settings, t1)
        ensures RefusedWithin(a, b, settings, t0, t1) ==> !CompatibleNow(a, b, settings, t0)
      {
        VerdictsAge(a, b, settings, t0, t1);
      }
    } else {
      var a, b, early, late := Narrowing(settings);
      assert CompatibleAt(a, b, settings, early, early) && AcceptedWithin(a, b, settings, early, late);
      assert !CompatibleAt(a, b, settings, late, late) && RefusedWithin(a, b, settings, early, late);
    }
  }

  lemma {:induction false} TakenMeans(tickets: seq<WaitingTicket>, idx: Positions, k: nat)
    requires InRange(tickets, idx) && k < |idx|
    ensures tickets[idx[k].0].ticketId in Taken(tickets, idx)
    ensures tickets[idx[k].1].ticketId in Taken(tickets, idx)
  {
    if k < |idx| - 1 {
      TakenMeans(tickets, idx[..|idx| - 1], k);
    }
  }

  lemma {:induction false} TakenGrows(tickets: seq<WaitingTicket>, idx: Positions, m: nat, n: nat)
    requires InRange(tickets, idx) && m <= n <= |idx|
    ensures Taken(tickets, idx[..m]) <= Taken(tickets, idx[..n])
    decreases n
  {
    if m < n {
      TakenGrows(tickets, idx, m, n - 1);
      assert idx[..n][..n - 1] == idx[..n - 1];
    }
  }

  lemma {:induction false} TakenIsPaired(tickets: seq<WaitingTicket>, idx: Positions, id: TicketId) returns (k: nat)
    requires InRange(tickets, idx) && id in Taken(tickets, idx)
    ensures k < |idx| && (tickets[idx[k].0].ticketId == id || tickets[idx[k].1].ticketId == id)
  {
    k := |idx| - 1;
    if tickets[idx[k].0].ticketId != id && tickets[idx[k].1].ticketId != id {
      k := TakenIsPaired(tickets, idx[..k], id);
    }
  }

  lemma {:induction false} TakenCount(tickets: seq<WaitingTicket>, idx: Positions)
    requires InRange(tickets, idx)
    ensures |Taken(tickets, idx)| <= 2 * |idx|
  {
    if idx != [] {
      var last := idx[|idx| - 1];
      TakenCount(tickets, idx[..|idx| - 1]);
      var two := {tickets[last.0].ticketId, tickets[last.1].ticketId};
      SubsetCount({tickets[last.1].ticketId}, two);
      assert |two| <= 2;
      UnionCount(Taken(tickets, idx[..|idx| - 1]), two);
    }
  }

  lemma UnionCount<T>(a: set<T>, b: set<T>)
    ensures |a + b| <= |a| + |b|
  {
    assert a + b == a + (b - a) && a !! (b - a);
    SubsetCount(b - a, b);
  }

  /** No ticket is handed out twice: not to two pairs, and not to both sides of one. */
  lemma PairsAreDisjoint(tickets: seq<WaitingTicket>, settings: Settings, t0: int, t1: int, idx: Positions, k: nat,
                         l: nat)
    requires DistinctIds(tickets) && GreedySearch(tickets, settings, t0, t1, idx)
    requires k <= l < |idx|
    ensures var p, q := Pick(tickets, idx)[k], Pick(tickets, idx)[l];
            && p.0.ticketId != p.1.ticketId
            && (k < l ==> {p.0.ticketId, p.1.ticketId} !! {q.0.ticketId, q.1.ticketId})
  {
    if k < l {
      TakenMeans(tickets, idx[..l], k);
      assert Fresh(tickets, idx, l, idx[l].0) && Fresh(tickets, idx, l, idx[l].1);
    }
  }

  /** Tickets left over are pairwise incompatible as of the clock at the start of the search,
      and every pair found is compatible as of the clock at its end. */
  lemma SearchIsMaximal(tickets: seq<WaitingTicket>, settings: Settings, t0: int, t1: int, idx: Positions)
    requires settings.Widening() || t0 == t1
    requires GreedySearch(tickets, settings, t0, t1, idx)
    ensures forall k :: 0 <= k < |idx| ==> CompatibleNow(tickets[idx[k].0], tickets[idx[k].1], settings, t1)
    ensures forall i, j :: 0 <= i < j < |tickets| && Fresh(tickets, idx, |idx|, i) && Fresh(tickets, idx, |idx|, j) ==>
              !CompatibleNow(tickets[i], tickets[j], settings, t0)
  {
    forall k | 0 <= k < |idx| ensures CompatibleNow(tickets[idx[k].0], tickets[idx[k].1], settings, t1) {
      assert FirstFit(tickets, settings, t0, t1, idx, k);
      VerdictsAge(tickets[idx[k].0], tickets[idx[k].1], settings, t0, t1);
    }
    forall i, j | 0 <= i < j < |tickets| && Fresh(tickets, idx, |idx|, i) && Fresh(tickets, idx, |idx|, j)
      ensures !CompatibleNow(tickets[i], tickets[j], settings, t0)
    {
      assert LeftAlone(tickets, settings, t0, t1, idx, i);
      TakenGrows(tickets, idx, Before(idx, i), |idx|);
      VerdictsAge(tickets[i], tickets[j], settings, t0, t1);
    }
  }

  /** If `idx` is a greedy search, its pairs are compatible when it ends. */
  ghost predicate PairsHold(tickets: seq<WaitingTicket>, settings: Settings, t0: int, t1: int, idx: Positions) {
    DistinctIds(tickets) && GreedySearch(tickets, settings, t0, t1, idx) ==>
      forall k :: 0 <= k < |idx| ==> CompatibleNow(tickets[idx[k].0], tickets[idx[k].1], settings, t1)
  }

  /** If `idx` is a greedy search, the tickets it leaves were incompatible when it began. */
  ghost predicate LeftoversHold(tickets: seq<WaitingTicket>, settings: Settings, t0: int, t1: int, idx: Positions) {
    DistinctIds(tickets) && GreedySearch(tickets, settings, t0, t1, idx) ==>
      forall i, j :: 0 <= i < j < |tickets| && Fresh(tickets, idx, |idx|, i) && Fresh(tickets, idx, |idx|, j) ==>
        !CompatibleNow(tickets[i], tickets[j], settings, t0)
  }

  /** A search of two tickets that pairs them, and one that leaves them both. */
  lemma TwoTicketSearches(a: WaitingTicket, b: WaitingTicket, settings: Settings, early: int, late: int)
    requires a.ticketId != b.ticketId && early <= late
    requires CompatibleNow(a, b, settings, early) && !CompatibleNow(a, b, settings, late)
    ensures DistinctIds([a, b])
    ensures GreedySearch([a, b], settings, early, late, [(0, 1)])
    ensures GreedySearch([a, b], settings, early, late, []) && Fresh([a, b], [], 0, 0) && Fresh([a, b], [], 0, 1)
  {
    var tickets, idx := [a, b], [(0, 1)];
    assert CompatibleAt(a, b, settings, early, early) && AcceptedWithin(a, b, settings, early, late);
    assert !CompatibleAt(a, b, settings, late, late) && RefusedWithin(a, b, settings, early, late);
    assert InRange(tickets, idx) && InRange(tickets, []);
    assert idx[..0] == [] && idx[..1] == idx;
    assert Taken(tickets, []) == {} && Taken(tickets, idx) == {a.ticketId, b.ticketId};
    assert FirstFit(tickets, settings, early, late, idx, 0);
    assert LeftAlone(tickets, settings, early, late, [], 0) && LeftAlone(tickets, settings, early, late, [], 1);
  }

  /** What `SearchIsMaximal` promises of every search holds, each half of it, exactly with
      thresholds that do not shrink. */
  lemma MaximalExactly(settings: Settings)
    ensures settings.Widening() <==>
            forall tickets, t0, t1, idx {:trigger PairsHold(tickets, settings, t0, t1, idx)} ::
              PairsHold(tickets, settings, t0, t1, idx)
    ensures settings.Widening() <==>
            forall tickets, t0, t1, idx {:trigger LeftoversHold(tickets, settings, t0, t1, idx)} ::
              LeftoversHold(tickets, settings, t0, t1, idx)
  {
    if settings.Widening() {
      forall tickets, t0, t1, idx
        ensures PairsHold(tickets, settings, t0, t1, idx) && LeftoversHold(tickets, settings, t0, t1, idx)
      {
        if DistinctIds(tickets) && GreedySearch(tickets, settings, t0, t1, idx) {
          SearchIsMaximal(tickets, settings, t0, t1, idx);
        }
      }
    } else {
      var a, b, early, late := Narrowing(settings);
      TwoTicketSearches(a, b, settings, early, late);
      var tickets := [a, b];
      var pair: (nat, nat) := (0, 1);
      assert [pair][0] == pair && !PairsHold(tickets, settings, early, late, [pair]);
      assert tickets[0] == a && tickets[1] == b && !LeftoversHold(tickets, settings, early, late, []);
    }
  }

  /** A set of pairs over the tickets, none sharing a ticket, all compatible at time `t`. */
  ghost predicate Matching(tickets: seq<WaitingTicket>, settings: Settings, t: int, m: seq<(nat, nat)>) {
    && (forall k :: 0 <= k < |m| ==> m[k].0 < |tickets| && m[k].1 < |tickets| && m[k].0 != m[k].1)
    && (forall k :: 0 <= k < |m| ==> CompatibleNow(tickets[m[k].0], tickets[m[k].1], settings, t))
    && (forall k, l :: 0 <= k < l < |m| ==> {m[k].0, m[k].1} !! {m[l].0, m[l].1})
  }

  /** If every pair of a matching touches `hit`, the matching has at most |hit| pairs. */
  lemma {:induction false} TouchedPairs(tickets: seq<WaitingTicket>, settings: Settings, t: int, m: seq<(nat, nat)>,
                                        hit: set<TicketId>)
    requires DistinctIds(tickets) && Matching(tickets, settings, t, m)
    requires forall k :: 0 <= k < |m| ==> tickets[m[k].0].ticketId in hit || tickets[m[k].1].ticketId in hit
    ensures |m| <= |hit|
  {
    if m != [] {
      var last := m[|m| - 1];
      var id := if tickets[last.0].ticketId in hit then tickets[last.0].ticketId else tickets[last.1].ticketId;
      var rest := m[..|m| - 1];
      forall k | 0 <= k < |rest|
        ensures tickets[rest[k].0].ticketId in hit - {id} || tickets[rest[k].1].ticketId in hit - {id}
      {
        assert {m[k].0, m[k].1} !! {last.0, last.1};
        assert m[k].0 != last.0 && m[k].0 != last.1 && m[k].1 != last.0 && m[k].1 != last.1;
      }
      TouchedPairs(tickets, settings, t, rest, hit - {id});
      assert |hit| == |hit - {id}| + 1;
    }
  }

  /** The greedy search finds at least half as many pairs as any matching whatever. */
  lemma HalfOfOptimal(tickets: seq<WaitingTicket>, settings: Settings, t0: int, t1: int, idx: Positions,
                      m: seq<(nat, nat)>)
    requires settings.Widening() || t0 == t1
    requires DistinctIds(tickets) && GreedySearch(tickets, settings, t0, t1, idx)
    requires Matching(tickets, settings, t0, m)
    ensures |m| <= 2 * |Pick(tickets, idx)|
  {
    SearchIsMaximal(tickets, settings, t0, t1, idx);
    var used := Taken(tickets, idx);
    assert idx[..|idx|] == idx;
    forall k | 0 <= k < |m| ensures tickets[m[k].0].ticketId in used || tickets[m[k].1].ticketId in used {
      var i, j := m[k].0, m[k].1;
      assert CompatibleNow(tickets[i], tickets[j], settings, t0);
      assert CompatibleNow(tickets[j], tickets[i], settings, t0);
      if tickets[i].ticketId !in used && tickets[j].ticketId !in used {
        assert false;
      }
    }
    TouchedPairs(tickets, settings, t0, m, used);
    TakenCount(tickets, idx);
  }

  /** Of four tickets, the first two fit and the last two do not: one pair is found. */
  lemma OneOfTwo(tickets: seq<WaitingTicket>, settings: Settings, t: int)
    requires |tickets| == 4 && DistinctIds(tickets)
    requires CompatibleNow(tickets[0], tickets[1], settings, t) && !CompatibleNow(tickets[2], tickets[3], settings, t)
    ensures GreedySearch(tickets, settings, t, t, [(0, 1)]) && |Pick(tickets, [(0, 1)])| == 1
  {
    var idx: Positions := [(0, 1)];
    assert AcceptedWithin(tickets[0], tickets[1], settings, t, t);
    assert RefusedWithin(tickets[2], tickets[3], settings, t, t);
    assert InRange(tickets, idx) && idx[..0] == [] && idx[..1] == idx;
    assert Taken(tickets, []) == {} && Taken(tickets, idx) == {tickets[0].ticketId, tickets[1].ticketId};
    assert FirstFit(tickets, settings, t, t, idx, 0);
    forall i | 0 <= i < 4 && Fresh(tickets, idx, 1, i) ensures LeftAlone(tickets, settings, t, t, idx, i) {
      assert i == 2 || i == 3;
    }
  }

  /** The other two ways round both fit. */
  lemma TwoOfTwo(tickets: seq<WaitingTicket>, settings: Settings, t: int)
    requires |tickets| == 4
    requires CompatibleNow(tickets[0], tickets[2], settings, t) && CompatibleNow(tickets[1], tickets[3], settings, t)
    ensures Matching(tickets, settings, t, [(0, 2), (1, 3)])
  {
  }

  /** Half is all the search may find: the first ticket takes the partner the last one needed. */
  lemma HalfIsReached() returns (tickets: seq<WaitingTicket>, settings: Settings, idx: Positions, m: seq<(nat, nat)>)
    ensures settings.Widening() && DistinctIds(tickets) && GreedySearch(tickets, settings, 0, 0, idx)
    ensures Matching(tickets, settings, 0, m) && |m| == 2 * |Pick(tickets, idx)| == 2
  {
    var a, b := WaitingTicket(0, "", "", "", "", 10, 0, 0), WaitingTicket(1, "", "", "", "", 20, 0, 0);
    var c, d := WaitingTicket(2, "", "", "", "", 0, 0, 0), WaitingTicket(3, "", "", "", "", 30, 0, 0);
    tickets, settings, idx, m := [a, b, c, d], Settings(2, 10, 10, 10), [(0, 1)], [(0, 2), (1, 3)];
    OneOfTwo(tickets, settings, 0);
    TwoOfTwo(tickets, settings, 0);
  }

  /** With the clock standing still there is exactly one outcome: the conditions of
      `GreedySearch` pin down every pair and its place in the list. */
  lemma {:induction false} OutcomeIsDetermined(tickets: seq<WaitingTicket>, settings: Settings, t: int,
                                               one: Positions, two: Positions, n: nat)
    requires DistinctIds(tickets)
    requires GreedySearch(tickets, settings, t, t, one) && GreedySearch(tickets, settings, t, t, two)
    requires n <= |one|
    ensures n <= |two| && one[..n] == two[..n]
  {
    if n > 0 {
      var k := n - 1;
      OutcomeIsDetermined(tickets, settings, t, one, two, k);
      SameNext(tickets, settings, t, one, two, k);
      OneFurther(one, two, k);
    }
  }

  lemma OneFurther(one: Positions, two: Positions, k: nat)
    requires k < |one| && k < |two| && one[..k] == two[..k] && one[k] == two[k]
    ensures one[..k + 1] == two[..k + 1]
  {
    assert one[..k + 1] == one[..k] + [one[k]] && two[..k + 1] == two[..k] + [two[k]];
  }

  lemma SameNext(tickets: seq<WaitingTicket>, settings: Settings, t: int, one: Positions, two: Positions, k: nat)
    requires DistinctIds(tickets)
    requires GreedySearch(tickets, settings, t, t, one) && GreedySearch(tickets, settings, t, t, two)
    requires k < |one| && k <= |two| && one[..k] == two[..k]
    ensures k < |two| && one[k] == two[k]
  {
    NotEarlier(tickets, settings, t, one, two, k);
    NotEarlier(tickets, settings, t, two, one, k);
    SameFirst(tickets, settings, t, one, two, k);
    SameFirst(tickets, settings, t, two, one, k);
  }

  /** Position `i` starts before the `k`-th pair and is free of the first `k`: it stays alone,
      and position `j` was free at its turn. */
  lemma StaysFree(tickets: seq<WaitingTicket>, idx: Positions, k: nat, i: nat, j: nat)
    requires DistinctIds(tickets) && WellFormed(tickets, idx)
    requires k <= |idx| && i < |tickets| && j < |tickets| && (k < |idx| ==> i < idx[k].0)
    requires Fresh(tickets, idx, k, i) && Fresh(tickets, idx, k, j)
    ensures Fresh(tickets, idx, |idx|, i) && Fresh(tickets, idx, Before(idx, i), j)
  {
    assert idx[..|idx|] == idx;
    if tickets[i].ticketId in Taken(tickets, idx) {
      var l := TakenIsPaired(tickets, idx, tickets[i].ticketId);
      if l < k {
        TakenMeans(tickets, idx[..k], l);
      }
      assert false;
    }
    var n := Before(idx, i);
    if n > k {
      assert false;
    }
    TakenGrows(tickets, idx, n, k);
  }

  /** A ticket free at its turn is not left alone while one that suits it is free. */
  lemma SuitedIsServed(tickets: seq<WaitingTicket>, settings: Settings, t0: int, t1: int, idx: Positions,
                       i: nat, j: nat)
    requires DistinctIds(tickets) && GreedySearch(tickets, settings, t0, t1, idx) && i < j < |tickets|
    requires Fresh(tickets, idx, Before(idx, i), i) && Fresh(tickets, idx, Before(idx, i), j)
    requires Suited(tickets[i], tickets[j], settings, t0, t1)
    ensures Before(idx, i) < |idx| && idx[Before(idx, i)].0 == i
  {
    var k := Before(idx, i);
    if k == |idx| || idx[k].0 > i {
      StaysFree(tickets, idx, k, i, j);
      assert LeftAlone(tickets, settings, t0, t1, idx, i);
      SuitedIsAccepted(tickets[i], tickets[j], settings, t0, t1);
      assert false;
    }
  }

  /** It gets the first of them: no later one, and none that does not suit it. */
  lemma TurnIsServed(tickets: seq<WaitingTicket>, settings: Settings, t0: int, t1: int, idx: Positions, i: nat, j: nat)
    requires DistinctIds(tickets) && GreedySearch(tickets, settings, t0, t1, idx) && i < j < |tickets|
    requires Fresh(tickets, idx, Before(idx, i), i) && Fresh(tickets, idx, Before(idx, i), j)
    requires Suited(tickets[i], tickets[j], settings, t0, t1)
    requires forall m :: i < m < j && Fresh(tickets, idx, Before(idx, i), m) ==>
               Unsuited(tickets[i], tickets[m], settings, t0, t1)
    ensures Before(idx, i) < |idx| && idx[Before(idx, i)] == (i, j)
  {
    SuitedIsServed(tickets, settings, t0, t1, idx, i, j);
    FitIsFirst(tickets, settings, t0, t1, idx, Before(idx, i), j);
  }

  lemma FitIsFirst(tickets: seq<WaitingTicket>, settings: Settings, t0: int, t1: int, idx: Positions, k: nat, j: nat)
    requires GreedySearch(tickets, settings, t0, t1, idx) && k < |idx| && idx[k].0 < j < |tickets|
    requires Fresh(tickets, idx, k, j) && Suited(tickets[idx[k].0], tickets[j], settings, t0, t1)
    requires forall m :: idx[k].0 < m < j && Fresh(tickets, idx, k, m) ==>
               Unsuited(tickets[idx[k].0], tickets[m], settings, t0, t1)
    ensures idx[k].1 == j
  {
    assert FirstFit(tickets, settings, t0, t1, idx, k);
    var i, partner := idx[k].0, idx[k].1;
    if partner > j {
      SuitedIsAccepted(tickets[i], tickets[j], settings, t0, t1);
    } else if partner < j {
      assert Fresh(tickets, idx, k, partner);
      UnsuitedIsRefused(tickets[i], tickets[partner], settings, t0, t1);
    }
  }

  lemma AloneMeansRefused(tickets: seq<WaitingTicket>, settings: Settings, t: int, idx: Positions, i: nat, j: nat)
    requires GreedySearch(tickets, settings, t, t, idx) && i < j < |tickets|
    requires Fresh(tickets, idx, |idx|, i) && Fresh(tickets, idx, Before(idx, i), j)
    ensures RefusedWithin(tickets[i], tickets[j], settings, t, t)
  {
    assert LeftAlone(tickets, settings, t, t, idx, i);
  }

  /** Two searches that agree on `k` pairs: the second has a next pair, starting no later. */
  lemma NotEarlier(tickets: seq<WaitingTicket>, settings: Settings, t: int, one: Positions, two: Positions, k: nat)
    requires DistinctIds(tickets)
    requires GreedySearch(tickets, settings, t, t, one) && GreedySearch(tickets, settings, t, t, two)
    requires k < |one| && k <= |two| && one[..k] == two[..k]
    ensures k < |two| && two[k].0 <= one[k].0
  {
    var (i, j) := one[k];
    assert FirstFit(tickets, settings, t, t, one, k);
    assert Fresh(tickets, one, k, i) && Fresh(tickets, one, k, j);
    assert Fresh(tickets, two, k, i) && Fresh(tickets, two, k, j);
    VerdictsAge(tickets[i], tickets[j], settings, t, t);
    if k == |two| || i < two[k].0 {
      StaysFree(tickets, two, k, i, j);
      AloneMeansRefused(tickets, settings, t, two, i, j);
      assert false;
    }
  }

  /** If both next pairs start at the same ticket, the first fit is the same too. */
  lemma SameFirst(tickets: seq<WaitingTicket>, settings: Settings, t: int, one: Positions, two: Positions, k: nat)
    requires DistinctIds(tickets)
    requires GreedySearch(tickets, settings, t, t, one) && GreedySearch(tickets, settings, t, t, two)
    requires k < |one| && k < |two| && one[..k] == two[..k] && one[k].0 == two[k].0
    ensures !(one[k].1 < two[k].1)
  {
    var (i, j) := one[k];
    assert FirstFit(tickets, settings, t, t, two, k) && FirstFit(tickets, settings, t, t, one, k);
    assert Fresh(tickets, one, k, j);
    assert Fresh(tickets, two, k, j);
    VerdictsAge(tickets[i], tickets[j], settings, t, t);
  }
}
