/** Partition leases, app/worker/leases.py: what each statement of the lease transaction does,
    and the transaction as a whole.  Times are integer seconds; `now` is the transaction's start. */
module Leases {
  import opened Sql

  type PartitionId = nat
  type WorkerId = string

  datatype Row = Row(owner: Option<WorkerId>, until: Option<int>)

  const Free := Row(None, None)

  datatype Table = Table(rows: map<PartitionId, Row>, beats: map<WorkerId, int>)

  datatype Settings = Settings(
    partitions: int, leaseSeconds: int, batch: nat, heartbeatSeconds: int, rebalance: bool)

  function FairPartitionCap(total: int, active: int): (cap: int)
    ensures cap >= 0
  {
    if total <= 0 then 0
    else if active <= 0 then total
    else (total + active - 1) / active
  }

  /** The cap is the least share with which `active` workers can own all partitions. */
  lemma CapIsLeastShare(total: int, active: int)
    ensures total > 0 && active > 0 ==>
              (FairPartitionCap(total, active) - 1) * active < total <= FairPartitionCap(total, active) * active
    ensures FairPartitionCap(total, active) == 0 <==> total <= 0
    ensures total > 0 && active <= 0 ==> FairPartitionCap(total, active) == FairPartitionCap(total, 1)
  {
    if total <= 0 || active <= 0 {
      return;
    }
    var n := total + active - 1;
    assert n == n / active * active + n % active;
    assert (n / active - 1) * active == n / active * active - active;
  }

  /** The lease is held, seen from a transaction that started at `now`. */
  predicate HeldBy(row: Row, w: WorkerId, now: int) {
    row.owner == Some(w) && row.until.Some? && row.until.value > now
  }

  /** The WHERE clause of a claim. */
  predicate Claimable(row: Row, now: int) {
    row.owner.None? || (row.until.Some? && row.until.value <= now)
  }

  function Renewed(rows: map<PartitionId, Row>, w: WorkerId, now: int, seconds: int): map<PartitionId, Row> {
    map p | p in rows :: if HeldBy(rows[p], w, now) then Row(Some(w), Some(now + seconds)) else rows[p]
  }

  function Available(rows: map<PartitionId, Row>, now: int): set<PartitionId> {
    set p | p in rows && Claimable(rows[p], now)
  }

  /** The rotated order in which a worker looks for partitions. */
  function ClaimOrder(count: int, offset: nat): PartitionId -> Key {
    (p: PartitionId) => Key(if count > 0 then (p + offset) % count else p, 0)
  }

  function Taken(rows: map<PartitionId, Row>, claimed: set<PartitionId>, w: WorkerId, until: int): map<PartitionId, Row>
  {
    map p | p in rows :: if p in claimed then Row(Some(w), Some(until)) else rows[p]
  }

  function Owned(rows: map<PartitionId, Row>, w: WorkerId, now: int): set<PartitionId> {
    set p | p in rows && HeldBy(rows[p], w, now)
  }

  function ActiveWorkers(beats: map<WorkerId, int>, now: int, seconds: int): set<WorkerId> {
    set b | b in beats && beats[b] > now - seconds
  }

  /** Release those of the partitions `gone` that `w` owns. */
  function Released(rows: map<PartitionId, Row>, w: WorkerId, gone: set<PartitionId>): map<PartitionId, Row> {
    map p | p in rows :: if p in gone && rows[p].owner == Some(w) then Free else rows[p]
  }

  function LowestFirst(): PartitionId -> Key {
    (p: PartitionId) => Key(p, 0)
  }

  function HighestFirst(): PartitionId -> Key {
    (p: PartitionId) => Key(0 - p, 0)
  }

  function Reversed<T>(s: seq<T>): seq<T> {
    seq(|s|, i requires 0 <= i < |s| => s[|s| - 1 - i])
  }

  lemma ReversedHas<T>(all: seq<T>, x: T)
    ensures x in Reversed(all) <==> x in all
  {
    if x in all {
      var i :| 0 <= i < |all| && all[i] == x;
      assert Reversed(all)[|all| - 1 - i] == x;
    }
  }

  /** An answer that is short of its limit, or long enough, is all there is. */
  lemma AllIfShort<T>(rows: set<T>, out: seq<T>, limit: nat)
    requires Distinct(out) && Elements(out) <= rows && |out| == Min(limit, |rows|)
    ensures |out| < limit || |rows| == limit ==> forall x :: x in rows ==> x in out
  {
    DistinctCount(out);
    SubsetCount(Elements(out), rows);
    assert Elements(out) == rows ==> forall x :: x in rows ==> x in Elements(out);
  }

  /** Python's `sorted(owned, reverse=True)`, of a list in ascending order. */
  lemma ReversedIsTop(rows: set<PartitionId>, all: seq<PartitionId>)
    requires IsTop(rows, LowestFirst(), |rows|, all)
    ensures IsTop(rows, HighestFirst(), |rows|, Reversed(all))
  {
    AllIfShort(rows, all, |rows|);
    forall x ensures x in Reversed(all) <==> x in rows {
      ReversedHas(all, x);
      assert x in all ==> x in Elements(all);
    }
  }

  /** The cap a worker sees: a fair share of the configured partitions. */
  function CapSeen(s: Settings, beats: map<WorkerId, int>, now: int): int {
    var active := |ActiveWorkers(beats, now, s.heartbeatSeconds)|;
    FairPartitionCap(s.partitions, if active > 1 then active else 1)
  }

  /** One lease transaction of worker `w`: heartbeat, renew, claim `claimed`, and release `gone`
      to come down to the cap. */
  ghost predicate TurnWith(s: Settings, t: Table, w: WorkerId, now: int, offset: nat, t': Table,
                           claimed: seq<PartitionId>, gone: seq<PartitionId>) {
    var renewed := Renewed(t.rows, w, now, s.leaseSeconds);
    var taken := Taken(renewed, Elements(claimed), w, now + s.leaseSeconds);
    var excess := if s.rebalance then |Owned(taken, w, now)| - CapSeen(s, t.beats[w := now], now) else 0;
    && IsTop(Available(renewed, now), ClaimOrder(s.partitions, offset), s.batch, claimed)
    && IsTop(Owned(taken, w, now), HighestFirst(), if excess > 0 then excess else 0, gone)
    && t' == Table(Released(taken, w, Elements(gone)), t.beats[w := now])
  }

  ghost predicate LeaseTurn(s: Settings, t: Table, w: WorkerId, now: int, offset: nat, t': Table) {
    exists claimed: seq<PartitionId>, gone: seq<PartitionId> :: TurnWith(s, t, w, now, offset, t', claimed, gone)
  }

  // ----- What the rotated order comes to -----

  /** Nobody owns the partition, or the lease has run out. */
  predicate OpenAt(row: Row, now: int) {
    row.owner.None? || (row.until.Some? && now >= row.until.value)
  }

  function OpenIn(rows: map<PartitionId, Row>, now: int, locked: set<PartitionId>): set<PartitionId> {
    set p | p in rows && OpenAt(rows[p], now) && p !in locked
  }

  /** The partition that the offset turns to zero. */
  predicate IsStart(count: nat, offset: nat, start: PartitionId)
    requires count > 0
  {
    start < count && (start + offset) % count == 0
  }

  /** The `k`-th partition from `start` on, going round after the last. */
  function Nth(start: PartitionId, count: nat, k: nat): PartitionId
    requires count > 0
  {
    (start + k) % count
  }

  /** The partition is the worker's, and its lease still runs. */
  predicate OwnsAt(row: Row, w: WorkerId, now: int) {
    row.owner == Some(w) && row.until.Some? && now < row.until.value
  }

  lemma InOrderOfIds(rows: set<PartitionId>, limit: nat, out: seq<PartitionId>)
    requires IsTop(rows, LowestFirst(), limit, out)
    ensures forall i, j :: 0 <= i < j < |out| ==> out[i] < out[j]
  {
    forall i, j | 0 <= i < j < |out| ensures out[i] < out[j] {
      assert LowestFirst()(out[i]).AtMost(LowestFirst()(out[j]));
    }
  }

  lemma LessNothing<T>(s: set<T>)
    ensures s - {} == s
  {
  }

  /** Of the partitions owned, those at the high end of the numbers. */
  lemma HighestGo(rows: set<PartitionId>, limit: nat, gone: seq<PartitionId>)
    requires IsTop(rows, HighestFirst(), limit, gone)
    ensures forall p, q :: p in gone && q in rows && q !in gone ==> q < p
  {
    forall p, q | p in gone && q in rows && q !in gone ensures q < p {
      var i :| 0 <= i < |gone| && gone[i] == p;
      assert HighestFirst()(gone[i]).AtMost(HighestFirst()(q));
    }
  }

  /** How many partitions further up `p` is. */
  function Ahead(start: PartitionId, count: nat, p: PartitionId): int {
    if p >= start then p - start else p + count - start
  }

  /** Going up from `start`, and round after the last, one meets the partitions claimed in the order
      given, and all of them before any other that was open. */
  ghost predicate Upward(open: set<PartitionId>, count: nat, start: PartitionId, claimed: seq<PartitionId>) {
    && (forall i, j :: 0 <= i < j < |claimed| ==> Ahead(start, count, claimed[i]) < Ahead(start, count, claimed[j]))
    && (forall i, p :: 0 <= i < |claimed| && p in open && p !in claimed ==>
          Ahead(start, count, claimed[i]) < Ahead(start, count, p))
  }

  /** So it is from the start of every offset, or, without a count, from zero. */
  ghost predicate InTurn(open: set<PartitionId>, count: int, offset: nat, claimed: seq<PartitionId>) {
    if count > 0
    then
      (forall p :: p in open ==> p < count) ==>
        forall start {:trigger IsStart(count, offset, start)} ::
          IsStart(count, offset, start) ==> Upward(open, count, start, claimed)
    else Upward(open, 0, 0, claimed)
  }

  lemma Remainder(x: int, q: int, r: int, count: int)
    requires count > 0 && x == count * q + r && 0 <= r < count
    ensures x % count == r
  {
    var d := x / count - q;
    assert count * (x / count) + x % count == x;
    assert count * d == r - x % count;
    Multiple(count, d);
  }

  lemma Multiple(count: int, d: int)
    requires -count < count * d < count
    ensures d == 0
  {
  }

  /** Every offset has its start. */
  lemma StartOf(count: nat, offset: nat) returns (start: PartitionId)
    requires count > 0
    ensures IsStart(count, offset, start)
  {
    var r, q := offset % count, offset / count;
    assert offset == count * q + r;
    start := if r == 0 then 0 else count - r;
    assert count * (q + 1) == count * q + count;
    Remainder(start + offset, if r == 0 then q else q + 1, 0, count);
  }

  lemma AheadIsKey(start: nat, count: int, offset: nat, p: PartitionId)
    requires count > 0 && p < count && IsStart(count, offset, start)
    ensures (p + offset) % count == Ahead(start, count, p)
  {
    var q := (start + offset) / count;
    assert start + offset == count * q;
    if p >= start {
      Remainder(p + offset, q, p - start, count);
    } else {
      assert count * (q - 1) == count * q - count;
      Remainder(p + offset, q - 1, p + count - start, count);
    }
  }

  lemma KeyIsAhead(start: nat, count: int, offset: nat, p: PartitionId, q: PartitionId)
    requires if count > 0 then p < count && q < count && IsStart(count, offset, start) else start == 0
    requires p != q && ClaimOrder(count, offset)(p).AtMost(ClaimOrder(count, offset)(q))
    ensures Ahead(start, if count > 0 then count else 0, p) < Ahead(start, if count > 0 then count else 0, q)
  {
    if count > 0 {
      AheadIsKey(start, count, offset, p);
      AheadIsKey(start, count, offset, q);
    }
  }

  lemma ClaimIsUpward(open: set<PartitionId>, count: int, offset: nat, batch: nat, claimed: seq<PartitionId>,
                      start: nat)
    requires IsTop(open, ClaimOrder(count, offset), batch, claimed)
    requires if count > 0 then (forall p :: p in open ==> p < count) && IsStart(count, offset, start) else start == 0
    ensures Upward(open, if count > 0 then count else 0, start, claimed)
  {
    var n := if count > 0 then count else 0;
    forall i | 0 <= i < |claimed| ensures claimed[i] in open {
      assert claimed[i] in Elements(claimed);
    }
    forall i, j | 0 <= i < j < |claimed| ensures Ahead(start, n, claimed[i]) < Ahead(start, n, claimed[j]) {
      KeyIsAhead(start, count, offset, claimed[i], claimed[j]);
    }
    forall i, p | 0 <= i < |claimed| && p in open && p !in claimed
      ensures Ahead(start, n, claimed[i]) < Ahead(start, n, p)
    {
      KeyIsAhead(start, count, offset, claimed[i], p);
    }
  }

  lemma ClaimIsInTurn(open: set<PartitionId>, count: int, offset: nat, batch: nat, claimed: seq<PartitionId>)
    requires IsTop(open, ClaimOrder(count, offset), batch, claimed)
    ensures InTurn(open, count, offset, claimed)
  {
    if count <= 0 {
      ClaimIsUpward(open, count, offset, batch, claimed, 0);
    } else if forall p :: p in open ==> p < count {
      forall start | IsStart(count, offset, start) ensures Upward(open, count, start, claimed) {
        ClaimIsUpward(open, count, offset, batch, claimed, start);
      }
    }
  }

  /** As long as the partitions met from the start on are all open, they are the ones claimed. */
  lemma {:induction false} ClaimsRun(open: set<PartitionId>, count: nat, batch: nat, claimed: seq<PartitionId>,
                                     start: nat, k: nat)
    requires start < count && Upward(open, count, start, claimed) && Elements(claimed) <= open
    requires |claimed| < batch ==> forall p :: p in open ==> p in claimed
    requires k < batch && k < count && forall i :: 0 <= i <= k ==> Nth(start, count, i) in open
    requires forall p :: p in open ==> p < count
    ensures k < |claimed| && claimed[k] == Nth(start, count, k)
  {
    var p := Nth(start, count, k);
    Around(start, count, k);
    if k > 0 {
      ClaimsRun(open, count, batch, claimed, start, k - 1);
      Around(start, count, k - 1);
    }
    assert k < |claimed|;
    NothingBetween(open, count, claimed, start, k);
  }

  lemma NothingBetween(open: set<PartitionId>, count: nat, claimed: seq<PartitionId>, start: nat, k: nat)
    requires start < count && Upward(open, count, start, claimed) && Elements(claimed) <= open
    requires k < |claimed| && k < count && Nth(start, count, k) in open && forall p :: p in open ==> p < count
    requires k > 0 ==> Ahead(start, count, claimed[k - 1]) == k - 1
    ensures claimed[k] == Nth(start, count, k)
  {
    var p := Nth(start, count, k);
    Around(start, count, k);
    assert claimed[k] in Elements(claimed);
    assert Ahead(start, count, claimed[k]) >= k by {
      assert k > 0 ==> Ahead(start, count, claimed[k - 1]) < Ahead(start, count, claimed[k]);
    }
  }

  lemma Around(start: nat, count: nat, k: nat)
    requires start < count && k < count
    ensures Nth(start, count, k) < count && Ahead(start, count, Nth(start, count, k)) == k
  {
    if start + k < count {
      Remainder(start + k, 0, start + k, count);
    } else {
      Remainder(start + k, 1, start + k - count, count);
    }
  }

  /** A turn never touches a live lease of somebody else, and leaves every row either as it was,
      free, or leased to the worker for the full time from the transaction's start. */
  lemma TurnSparesLiveLeases(s: Settings, t: Table, w: WorkerId, now: int, offset: nat, t': Table, p: PartitionId)
    requires LeaseTurn(s, t, w, now, offset, t') && p in t.rows
    ensures p in t'.rows
    ensures t'.rows[p] == t.rows[p] || t'.rows[p] == Free || t'.rows[p] == Row(Some(w), Some(now + s.leaseSeconds))
    ensures var row := t.rows[p];
            row.owner.Some? && row.owner != Some(w) && row.until.Some? && row.until.value > now ==> t'.rows[p] == row
  {
    var claimed: seq<PartitionId>, gone: seq<PartitionId> :| TurnWith(s, t, w, now, offset, t', claimed, gone);
    var renewed := Renewed(t.rows, w, now, s.leaseSeconds);
    assert p in Elements(claimed) ==> p in Available(renewed, now);
  }

  /** The lease and heartbeat tables, changed in place. */
  class LeaseStore {
    var rows: map<PartitionId, Row>
    var beats: map<WorkerId, int>

    constructor (partitions: set<PartitionId>)
      ensures rows == (map p | p in partitions :: Free) && beats == map[]
    {
      rows := map p | p in partitions :: Free;
      beats := map[];
    }

    method RecordHeartbeat(w: WorkerId, now: int)
      modifies this`beats
      ensures beats == old(beats)[w := now]
    {
      beats := beats[w := now];
    }

    method RemoveHeartbeat(w: WorkerId)
      modifies this`beats
      ensures beats == old(beats) - {w}
    {
      beats := beats - {w};
    }

    /** The worker's live leases, as many as are counted, run for the full time from now; its
        lapsed ones and everybody else's are left alone.  What is live stays what was live. */
    method RenewOwnedPartitions(w: WorkerId, now: int, seconds: int) returns (renewed: nat)
      modifies this`rows
      ensures rows == Renewed(old(rows), w, now, seconds)
      ensures rows.Keys == old(rows).Keys
      ensures forall p :: p in rows && OwnsAt(old(rows)[p], w, now) ==> rows[p] == Row(Some(w), Some(now + seconds))
      ensures forall p :: p in rows && !OwnsAt(old(rows)[p], w, now) ==> rows[p] == old(rows)[p]
      ensures renewed == |Owned(old(rows), w, now)|
      ensures seconds > 0 ==> Owned(rows, w, now) == Owned(old(rows), w, now)
      ensures seconds > 0 ==> Available(rows, now) == Available(old(rows), now)
    {
      renewed := |Owned(rows, w, now)|;
      rows := Renewed(rows, w, now, seconds);
    }

    /** The claim skips the rows that other transactions have locked.  It takes what is open, in turn,
        until the batch is full or nothing open is left. */
    method ClaimAvailablePartitions(w: WorkerId, now: int, seconds: int, batch: nat, count: int, offset: nat,
                                    locked: set<PartitionId>)
      returns (claimed: seq<PartitionId>)
      modifies this`rows
      ensures IsTop(Available(old(rows), now) - locked, ClaimOrder(count, offset), batch, claimed)
      ensures rows == Taken(old(rows), Elements(claimed), w, now + seconds)
      ensures Distinct(claimed) && |claimed| <= batch && Elements(claimed) <= OpenIn(old(rows), now, locked)
      ensures |claimed| < batch ==> forall p :: p in OpenIn(old(rows), now, locked) ==> p in claimed
      ensures InTurn(OpenIn(old(rows), now, locked), count, offset, claimed)
      ensures rows.Keys == old(rows).Keys && forall p :: p in rows ==>
                rows[p] == if p in claimed then Row(Some(w), Some(now + seconds)) else old(rows)[p]
    {
      ghost var open := OpenIn(rows, now, locked);
      assert Available(rows, now) - locked == open;
      claimed := OrderByLimit(Available(rows, now) - locked, ClaimOrder(count, offset), batch);
      rows := Taken(rows, Elements(claimed), w, now + seconds);
      ClaimIsInTurn(open, count, offset, batch, claimed);
      AllIfShort(open, claimed, batch);
    }

    method ListOwnedPartitions(w: WorkerId, now: int) returns (owned: seq<PartitionId>)
      ensures IsTop(Owned(rows, w, now), LowestFirst(), |Owned(rows, w, now)|, owned)
      ensures forall i, j :: 0 <= i < j < |owned| ==> owned[i] < owned[j]
      ensures forall p :: p in owned <==> p in rows && OwnsAt(rows[p], w, now)
    {
      owned := OrderByLimit(Owned(rows, w, now), LowestFirst(), |Owned(rows, w, now)|);
      AllIfShort(Owned(rows, w, now), owned, |Owned(rows, w, now)|);
      InOrderOfIds(Owned(rows, w, now), |Owned(rows, w, now)|, owned);
      forall p ensures p in owned <==> p in Owned(rows, w, now) {
        assert p in owned ==> p in Elements(owned);
      }
    }

    /** The count is of the workers with a recent heartbeat, and never zero: a worker that has
        just recorded its own is among them. */
    method CountActiveWorkers(now: int, seconds: int) returns (n: nat)
      ensures var recent := set b | b in beats && now < beats[b] + seconds; n == if |recent| > 1 then |recent| else 1
      ensures ActiveWorkers(beats, now, seconds) != {} ==> n == |ActiveWorkers(beats, now, seconds)|
      ensures ActiveWorkers(beats, now, seconds) == {} ==> n == 1
      ensures forall w :: w in beats && beats[w] == now && seconds > 0 ==> n == |ActiveWorkers(beats, now, seconds)|
    {
      var active := |ActiveWorkers(beats, now, seconds)|;
      n := if active > 1 then active else 1;
      assert ActiveWorkers(beats, now, seconds) == set b | b in beats && now < beats[b] + seconds;
      forall w | w in beats && beats[w] == now && seconds > 0 ensures w in ActiveWorkers(beats, now, seconds) {
      }
    }

    method ReleaseExcessPartitions(w: WorkerId, now: int, cap: int)
      returns (released: nat, ghost gone: seq<PartitionId>)
      requires cap >= 0
      modifies this`rows
      ensures var excess := |Owned(old(rows), w, now)| - cap;
              IsTop(Owned(old(rows), w, now), HighestFirst(), if excess > 0 then excess else 0, gone)
      ensures rows == Released(old(rows), w, Elements(gone)) && released == |gone|
      ensures released == if |Owned(old(rows), w, now)| > cap then |Owned(old(rows), w, now)| - cap else 0
      ensures Distinct(gone) && forall p :: p in gone ==> p in old(rows) && OwnsAt(old(rows)[p], w, now)
      ensures forall p, q :: p in gone && q in rows && OwnsAt(rows[q], w, now) ==> q < p
      ensures rows.Keys == old(rows).Keys &&
              forall p :: p in rows ==> rows[p] == if p in gone then Row(None, None) else old(rows)[p]
    {
      var owned := ListOwnedPartitions(w, now);
      var excess := |owned| - cap;
      if excess <= 0 {
        assert Released(rows, w, Elements([])) == rows;
        return 0, [];
      }
      ReversedIsTop(Owned(rows, w, now), owned);
      var toRelease := Reversed(owned)[..excess];
      PrefixIsTop(Owned(rows, w, now), HighestFirst(), Reversed(owned), excess);
      released, gone := |toRelease|, toRelease;
      HighestGo(Owned(rows, w, now), excess, gone);
      forall p | p in gone ensures p in Owned(rows, w, now) {
        assert p in Elements(gone);
      }
      rows := Released(rows, w, Elements(toRelease));
    }

    /** At shutdown a worker gives up every partition it owns, lapsed or not: it owns none, those
        it owned can be claimed at once, and nobody else's row has changed. */
    method ReleaseOwnedPartitions(w: WorkerId)
      modifies this`rows
      ensures rows.Keys == old(rows).Keys
      ensures forall p :: p in rows ==> rows[p].owner != Some(w)
      ensures forall p :: p in rows && old(rows)[p].owner == Some(w) ==> forall now :: OpenAt(rows[p], now)
      ensures forall p :: p in rows && old(rows)[p].owner != Some(w) ==> rows[p] == old(rows)[p]
    {
      rows := Released(rows, w, rows.Keys);
    }

    /** `shutdown_worker`, committed: no partition is left with the worker, whatever it had can be
        claimed at once, it no longer counts as active, and nobody else is affected. */
    method ShutdownWorker(w: WorkerId)
      modifies this
      ensures rows.Keys == old(rows).Keys
      ensures forall p :: p in rows ==>
                rows[p].owner != Some(w) &&
                if old(rows)[p].owner == Some(w) then forall now :: OpenAt(rows[p], now) else rows[p] == old(rows)[p]
      ensures forall now, seconds ::
                ActiveWorkers(beats, now, seconds) == ActiveWorkers(old(beats), now, seconds) - {w}
    {
      ReleaseOwnedPartitions(w);
      RemoveHeartbeat(w);
    }

    method CheckIn(w: WorkerId, now: int, seconds: int)
      modifies this
      ensures beats == old(beats)[w := now] && rows == Renewed(old(rows), w, now, seconds)
    {
      RecordHeartbeat(w, now);
      var renewed := RenewOwnedPartitions(w, now, seconds);
    }

    /** Heartbeat, renewal and claim. */
    method TakeUp(s: Settings, w: WorkerId, now: int, offset: nat) returns (ghost claimed: seq<PartitionId>)
      modifies this
      ensures beats == old(beats)[w := now]
      ensures var renewed := Renewed(old(rows), w, now, s.leaseSeconds);
              && IsTop(Available(renewed, now), ClaimOrder(s.partitions, offset), s.batch, claimed)
              && rows == Taken(renewed, Elements(claimed), w, now + s.leaseSeconds)
    {
      ghost var free := Available(Renewed(rows, w, now, s.leaseSeconds), now);
      CheckIn(w, now, s.leaseSeconds);
      claimed := ClaimAvailablePartitions(w, now, s.leaseSeconds, s.batch, s.partitions, offset, {});
      LessNothing(free);
    }

    /** Down to the fair cap. */
    method ComeDown(s: Settings, w: WorkerId, now: int) returns (ghost gone: seq<PartitionId>)
      modifies this`rows
      ensures var excess := |Owned(old(rows), w, now)| - CapSeen(s, beats, now);
              && IsTop(Owned(old(rows), w, now), HighestFirst(), if excess > 0 then excess else 0, gone)
              && rows == Released(old(rows), w, Elements(gone))
    {
      var active := CountActiveWorkers(now, s.heartbeatSeconds);
      var released;
      released, gone := ReleaseExcessPartitions(w, now, FairPartitionCap(s.partitions, active));
    }

    /** The lease transaction of `run_loop`, committed as a whole, with nobody else's under way. */
    method LeaseTransaction(s: Settings, w: WorkerId, now: int, offset: nat)
      modifies this
      ensures LeaseTurn(s, Table(old(rows), old(beats)), w, now, offset, Table(rows, beats))
    {
      ghost var before := Table(rows, beats);
      ghost var claimed := TakeUp(s, w, now, offset);
      ghost var gone: seq<PartitionId> := [];
      if s.rebalance {
        gone := ComeDown(s, w, now);
      }
      MakesTurn(s, before, w, now, offset, Table(rows, beats), claimed, gone);
    }
  }

  /** The statements of a lease transaction, one after the other, make a turn. */
  lemma MakesTurn(s: Settings, t: Table, w: WorkerId, now: int, offset: nat, t': Table,
                  claimed: seq<PartitionId>, gone: seq<PartitionId>)
    requires var renewed := Renewed(t.rows, w, now, s.leaseSeconds);
             var taken := Taken(renewed, Elements(claimed), w, now + s.leaseSeconds);
             var excess := |Owned(taken, w, now)| - CapSeen(s, t.beats[w := now], now);
             && IsTop(Available(renewed, now), ClaimOrder(s.partitions, offset), s.batch, claimed)
             && t'.beats == t.beats[w := now]
             && if s.rebalance
                then
                  && IsTop(Owned(taken, w, now), HighestFirst(), if excess > 0 then excess else 0, gone)
                  && t'.rows == Released(taken, w, Elements(gone))
                else gone == [] && t'.rows == taken
    ensures LeaseTurn(s, t, w, now, offset, t')
  {
    if !s.rebalance {
      assert Released(t'.rows, w, Elements([])) == t'.rows;
    }
    assert TurnWith(s, t, w, now, offset, t', claimed, gone);
  }

  /** The first rows of a full ordered answer answer the same query with a smaller limit. */
  lemma PrefixIsTop<T(!new)>(rows: set<T>, key: T -> Key, all: seq<T>, n: nat)
    requires IsTop(rows, key, |rows|, all) && n <= |all|
    ensures IsTop(rows, key, n, all[..n])
  {
    DistinctCount(all);
    SubsetCount(Elements(all), rows);
    var front := all[..n];
    forall x | x in rows && x !in front ensures exists j :: n <= j < |all| && all[j] == x {
      assert x in Elements(all);
      var j :| 0 <= j < |all| && all[j] == x;
      assert j < n ==> x in front;
    }
  }
}
