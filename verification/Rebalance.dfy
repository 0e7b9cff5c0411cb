/** Elastic rebalancing converges: a fixed set of workers that keep taking turns in time soon
    own every partition, those of departed workers included, none more than its fair share,
    and then nothing moves any more.  A lease transaction is one turn. */
module Rebalance {
  import opened Sql
  import opened Leases

  /** Partitions `w` owns, live or not. */
  function OwnedBy(rows: map<PartitionId, Row>, w: WorkerId): set<PartitionId> {
    set p | p in rows && rows[p].owner == Some(w)
  }

  /** Partitions that no worker of `ws` owns: free, or left behind by a departed worker. */
  function FreeIn(rows: map<PartitionId, Row>, ws: set<WorkerId>): set<PartitionId> {
    set p | p in rows && (rows[p].owner.None? || rows[p].owner.value !in ws)
  }

  datatype Turn = Turn(w: WorkerId, now: int, offset: nat)

  /** The row is free, or a departed worker's, or belongs to a worker of `ws` with a lease as
      long as its owner's last turn made it. */
  predicate RowLinked(s: Settings, ws: set<WorkerId>, t: Table, p: PartitionId)
    requires p in t.rows
  {
    var row := t.rows[p];
    || row.owner.None?
    || row.owner.value !in ws
    || (row.owner.value in t.beats
        && row.until == Some(t.beats[row.owner.value] + s.leaseSeconds))
  }

  ghost predicate Linked(s: Settings, ws: set<WorkerId>, t: Table) {
    forall p {:trigger RowLinked(s, ws, t, p)} :: p in t.rows ==> RowLinked(s, ws, t, p)
  }

  /** The worker's last turn is recent enough to keep its leases and count as active. */
  predicate Steady(s: Settings, t: Table, w: WorkerId, now: int) {
    w in t.beats && t.beats[w] <= now < t.beats[w] + s.leaseSeconds && now < t.beats[w] + s.heartbeatSeconds
  }

  predicate Gone(s: Settings, t: Table, b: WorkerId, now: int)
    requires b in t.beats
  {
    t.beats[b] + s.heartbeatSeconds <= now
  }

  /** A lease that no worker of `ws` holds has lapsed. */
  predicate LeftBehind(ws: set<WorkerId>, row: Row, now: int) {
    row.owner.Some? && row.owner.value !in ws ==> row.until.Some? && row.until.value <= now
  }

  /** Every worker of `ws` is steady, nobody else counts as active, and nobody else's lease is
      still running. */
  ghost predicate InTime(s: Settings, ws: set<WorkerId>, t: Table, now: int) {
    && (forall p {:trigger LeftBehind(ws, t.rows[p], now)} :: p in t.rows ==> LeftBehind(ws, t.rows[p], now))
    && (forall w {:trigger Steady(s, t, w, now)} :: w in ws ==> Steady(s, t, w, now))
    && (forall b {:trigger Gone(s, t, b, now)} :: b in t.beats && b !in ws ==> Gone(s, t, b, now))
  }

  ghost predicate Sensible(s: Settings, ws: set<WorkerId>, t: Table) {
    && s.partitions > 0 && |t.rows| == s.partitions && s.batch >= 1 && s.rebalance
    && s.leaseSeconds > 0 && s.heartbeatSeconds > 0 && ws != {}
  }

  function Cap(s: Settings, ws: set<WorkerId>): int {
    FairPartitionCap(s.partitions, |ws|)
  }

  // ----- One turn, in numbers -----

  lemma CapIsSeen(s: Settings, ws: set<WorkerId>, t: Table, w: WorkerId, now: int)
    requires Sensible(s, ws, t) && InTime(s, ws, t, now) && w in ws
    ensures CapSeen(s, t.beats[w := now], now) == Cap(s, ws)
  {
    var beats := t.beats[w := now];
    forall b | b in beats ensures beats[b] > now - s.heartbeatSeconds <==> b in ws {
      assert b in ws ==> Steady(s, t, b, now);
      assert b in t.beats && b !in ws ==> Gone(s, t, b, now);
    }
    forall b | b in ws ensures b in beats {
      assert Steady(s, t, b, now);
    }
    assert ActiveWorkers(beats, now, s.heartbeatSeconds) == ws;
    assert |ws| >= 1 by {
      SubsetCount({w}, ws);
    }
  }

  /** What `w`'s turn does to ownership: it takes `claimed` of the free partitions and gives
      `gone` of its own back. */
  ghost predicate Exchange(s: Settings, ws: set<WorkerId>, t: Table, w: WorkerId, t': Table,
                           claimed: set<PartitionId>, gone: set<PartitionId>) {
    && claimed <= FreeIn(t.rows, ws) && |claimed| == Min(s.batch, |FreeIn(t.rows, ws)|)
    && gone <= OwnedBy(t.rows, w) + claimed
    && (var excess := |OwnedBy(t.rows, w) + claimed| - Cap(s, ws); |gone| == if excess > 0 then excess else 0)
    && OwnedBy(t'.rows, w) == OwnedBy(t.rows, w) + claimed - gone
    && FreeIn(t'.rows, ws) == FreeIn(t.rows, ws) - claimed + gone
    && (forall o :: o in ws && o != w ==> OwnedBy(t'.rows, o) == OwnedBy(t.rows, o))
  }

  /** Between turns in time nothing lapses: what can be claimed is what is free. */
  lemma NothingLapsed(s: Settings, ws: set<WorkerId>, t: Table, w: WorkerId, now: int)
    requires Sensible(s, ws, t) && Linked(s, ws, t) && InTime(s, ws, t, now) && w in ws
    ensures Available(Renewed(t.rows, w, now, s.leaseSeconds), now) == FreeIn(t.rows, ws)
  {
    var renewed := Renewed(t.rows, w, now, s.leaseSeconds);
    forall p | p in t.rows ensures Claimable(renewed[p], now) <==> p in FreeIn(t.rows, ws) {
      assert RowLinked(s, ws, t, p) && LeftBehind(ws, t.rows[p], now);
      assert t.rows[p].owner.Some? && t.rows[p].owner.value in ws ==> Steady(s, t, t.rows[p].owner.value, now);
    }
  }

  /** Every row after a turn at `now`: given back, held by `w`, or as it was. */
  ghost predicate Moved(s: Settings, t: Table, w: WorkerId, now: int, claimed: set<PartitionId>, gone: set<PartitionId>,
                        rows: map<PartitionId, Row>) {
    && rows.Keys == t.rows.Keys
    && forall p :: p in t.rows ==>
         rows[p] == if p in gone then Free
                    else if p in claimed || t.rows[p].owner == Some(w) then Row(Some(w), Some(now + s.leaseSeconds))
                    else t.rows[p]
  }

  function AfterClaim(s: Settings, t: Table, w: WorkerId, now: int, claimed: set<PartitionId>): map<PartitionId, Row> {
    Taken(Renewed(t.rows, w, now, s.leaseSeconds), claimed, w, now + s.leaseSeconds)
  }

  lemma ClaimMoves(s: Settings, ws: set<WorkerId>, t: Table, w: WorkerId, now: int, claimed: set<PartitionId>)
    requires Sensible(s, ws, t) && Linked(s, ws, t) && InTime(s, ws, t, now) && w in ws && claimed <= FreeIn(t.rows, ws)
    ensures Moved(s, t, w, now, claimed, {}, AfterClaim(s, t, w, now, claimed))
    ensures Owned(AfterClaim(s, t, w, now, claimed), w, now) == OwnedBy(t.rows, w) + claimed
  {
    assert Steady(s, t, w, now);
    assert forall p :: p in t.rows ==> RowLinked(s, ws, t, p);
  }

  lemma ReleaseMoves(s: Settings, t: Table, w: WorkerId, now: int, claimed: set<PartitionId>, gone: set<PartitionId>,
                     taken: map<PartitionId, Row>)
    requires Moved(s, t, w, now, claimed, {}, taken) && gone <= OwnedBy(t.rows, w) + claimed
    ensures Moved(s, t, w, now, claimed, gone, Released(taken, w, gone))
  {
  }

  lemma MovedSets(s: Settings, ws: set<WorkerId>, t: Table, w: WorkerId, now: int, claimed: set<PartitionId>,
                  gone: set<PartitionId>, rows: map<PartitionId, Row>)
    requires Moved(s, t, w, now, claimed, gone, rows) && w in ws
    requires claimed <= FreeIn(t.rows, ws) && gone <= OwnedBy(t.rows, w) + claimed
    ensures OwnedBy(rows, w) == OwnedBy(t.rows, w) + claimed - gone
    ensures FreeIn(rows, ws) == FreeIn(t.rows, ws) - claimed + gone
    ensures forall o :: o in ws && o != w ==> OwnedBy(rows, o) == OwnedBy(t.rows, o)
  {
    forall o | o in ws && o != w ensures OwnedBy(rows, o) == OwnedBy(t.rows, o) {
    }
  }

  lemma MovedLinked(s: Settings, ws: set<WorkerId>, t: Table, w: WorkerId, now: int, claimed: set<PartitionId>,
                    gone: set<PartitionId>, rows: map<PartitionId, Row>)
    requires Moved(s, t, w, now, claimed, gone, rows) && Linked(s, ws, t) && w in ws
    ensures Linked(s, ws, Table(rows, t.beats[w := now])) && |rows| == |t.rows|
  {
    assert forall p :: p in t.rows ==> RowLinked(s, ws, t, p);
    assert |rows| == |rows.Keys| && |t.rows| == |t.rows.Keys|;
  }

  lemma TurnExchanges(s: Settings, ws: set<WorkerId>, t: Table, turn: Turn, t': Table)
    returns (claimed: set<PartitionId>, gone: set<PartitionId>)
    requires Sensible(s, ws, t) && Linked(s, ws, t) && InTime(s, ws, t, turn.now) && turn.w in ws
    requires LeaseTurn(s, t, turn.w, turn.now, turn.offset, t')
    ensures Exchange(s, ws, t, turn.w, t', claimed, gone)
    ensures Linked(s, ws, t') && Sensible(s, ws, t') && t'.beats == t.beats[turn.w := turn.now]
  {
    var w, now := turn.w, turn.now;
    var claims: seq<PartitionId>, releases: seq<PartitionId> :|
      TurnWith(s, t, w, now, turn.offset, t', claims, releases);
    claimed, gone := Elements(claims), Elements(releases);
    ClaimHalf(s, ws, t, turn, t', claims, releases);
    CapIsSeen(s, ws, t, w, now);
    var excess := |OwnedBy(t.rows, w) + claimed| - Cap(s, ws);
    ReleaseHalf(s, t, w, now, claimed, if excess > 0 then excess else 0, releases, AfterClaim(s, t, w, now, claimed));
    MovedSets(s, ws, t, w, now, claimed, gone, t'.rows);
    MovedLinked(s, ws, t, w, now, claimed, gone, t'.rows);
  }

  lemma ClaimHalf(s: Settings, ws: set<WorkerId>, t: Table, turn: Turn, t': Table,
                  claims: seq<PartitionId>, releases: seq<PartitionId>)
    requires Sensible(s, ws, t) && Linked(s, ws, t) && InTime(s, ws, t, turn.now) && turn.w in ws
    requires TurnWith(s, t, turn.w, turn.now, turn.offset, t', claims, releases)
    ensures Elements(claims) <= FreeIn(t.rows, ws) && |Elements(claims)| == Min(s.batch, |FreeIn(t.rows, ws)|)
    ensures Moved(s, t, turn.w, turn.now, Elements(claims), {}, AfterClaim(s, t, turn.w, turn.now, Elements(claims)))
    ensures Owned(AfterClaim(s, t, turn.w, turn.now, Elements(claims)), turn.w, turn.now) ==
            OwnedBy(t.rows, turn.w) + Elements(claims)
  {
    NothingLapsed(s, ws, t, turn.w, turn.now);
    DistinctCount(claims);
    ClaimMoves(s, ws, t, turn.w, turn.now, Elements(claims));
  }

  lemma ReleaseHalf(s: Settings, t: Table, w: WorkerId, now: int, claimed: set<PartitionId>, excess: nat,
                    releases: seq<PartitionId>, taken: map<PartitionId, Row>)
    requires Moved(s, t, w, now, claimed, {}, taken) && excess <= |OwnedBy(t.rows, w) + claimed|
    requires IsTop(OwnedBy(t.rows, w) + claimed, HighestFirst(), excess, releases)
    ensures Elements(releases) <= OwnedBy(t.rows, w) + claimed && |Elements(releases)| == excess
    ensures Moved(s, t, w, now, claimed, Elements(releases), Released(taken, w, Elements(releases)))
  {
    DistinctCount(releases);
    ReleaseMoves(s, t, w, now, claimed, Elements(releases), taken);
  }

  function OwnCount(t: Table, w: WorkerId): nat {
    |OwnedBy(t.rows, w)|
  }

  function FreeCount(t: Table, ws: set<WorkerId>): nat {
    |FreeIn(t.rows, ws)|
  }

  /** A turn lifts its worker by as many free partitions as a batch allows, up to the cap, or
      brings it down to the cap; nobody else's share changes. */
  lemma TurnCounts(s: Settings, ws: set<WorkerId>, t: Table, turn: Turn, t': Table)
    requires Sensible(s, ws, t) && Linked(s, ws, t) && InTime(s, ws, t, turn.now) && turn.w in ws
    requires LeaseTurn(s, t, turn.w, turn.now, turn.offset, t')
    ensures Linked(s, ws, t') && Sensible(s, ws, t')
    ensures OwnCount(t', turn.w) == Min(Cap(s, ws), OwnCount(t, turn.w) + Min(s.batch, FreeCount(t, ws)))
    ensures FreeCount(t', ws) + OwnCount(t', turn.w) == FreeCount(t, ws) + OwnCount(t, turn.w)
    ensures forall o :: o in ws && o != turn.w ==> OwnedBy(t'.rows, o) == OwnedBy(t.rows, o)
  {
    var claimed, gone := TurnExchanges(s, ws, t, turn, t');
    ExchangeInNumbers(s, ws, t, turn.w, t', claimed, gone);
  }

  lemma ExchangeInNumbers(s: Settings, ws: set<WorkerId>, t: Table, w: WorkerId, t': Table,
                          claimed: set<PartitionId>, gone: set<PartitionId>)
    requires w in ws && Exchange(s, ws, t, w, t', claimed, gone)
    ensures OwnCount(t', w) == Min(Cap(s, ws), OwnCount(t, w) + Min(s.batch, FreeCount(t, ws)))
    ensures FreeCount(t', ws) + OwnCount(t', w) == FreeCount(t, ws) + OwnCount(t, w)
    ensures forall o :: o in ws && o != w ==> OwnedBy(t'.rows, o) == OwnedBy(t.rows, o)
  {
    ExchangeCounts(OwnedBy(t.rows, w), FreeIn(t.rows, ws), claimed, gone);
  }

  lemma ExchangeCounts(mine: set<PartitionId>, free: set<PartitionId>, claimed: set<PartitionId>,
                       gone: set<PartitionId>)
    requires mine !! free && claimed <= free && gone <= mine + claimed
    ensures |mine + claimed| == |mine| + |claimed|
    ensures |mine + claimed - gone| == |mine| + |claimed| - |gone|
    ensures |free - claimed + gone| == |free| - |claimed| + |gone|
  {
    Apart(mine, claimed);
    Without(mine + claimed, gone);
    Without(free, claimed);
    assert (free - claimed) !! gone;
    Apart(free - claimed, gone);
  }

  lemma Apart<T>(a: set<T>, b: set<T>)
    requires a !! b
    ensures |a + b| == |a| + |b|
  {
  }

  lemma Without<T>(a: set<T>, b: set<T>)
    requires b <= a
    ensures |a - b| == |a| - |b|
  {
    assert a == (a - b) + b;
    Apart(a - b, b);
  }

  /** A worker below its cap that takes a turn while partitions are free leaves fewer free; a
      worker within its cap never leaves more. */
  lemma UnderCapTurnsHelp(s: Settings, ws: set<WorkerId>, t: Table, turn: Turn, t': Table)
    requires Sensible(s, ws, t) && Linked(s, ws, t) && InTime(s, ws, t, turn.now) && turn.w in ws
    requires LeaseTurn(s, t, turn.w, turn.now, turn.offset, t') && OwnCount(t, turn.w) <= Cap(s, ws)
    ensures FreeCount(t', ws) <= FreeCount(t, ws) && OwnCount(t', turn.w) >= OwnCount(t, turn.w)
    ensures OwnCount(t, turn.w) < Cap(s, ws) && FreeCount(t, ws) > 0 ==> FreeCount(t', ws) < FreeCount(t, ws)
  {
    TurnCounts(s, ws, t, turn, t');
  }

  // ----- A free partition means somebody has room -----

  function OwnedByAny(rows: map<PartitionId, Row>, ws: set<WorkerId>): set<PartitionId> {
    set p | p in rows && rows[p].owner.Some? && rows[p].owner.value in ws
  }

  lemma {:induction false} SharesAddUp(t: Table, ws: set<WorkerId>, cap: nat)
    requires forall w :: w in ws ==> OwnCount(t, w) >= cap
    ensures |OwnedByAny(t.rows, ws)| >= |ws| * cap
  {
    if ws != {} {
      var w :| w in ws;
      var rest := ws - {w};
      SharesAddUp(t, rest, cap);
      assert OwnedByAny(t.rows, ws) == OwnedByAny(t.rows, rest) + OwnedBy(t.rows, w);
      Apart(OwnedByAny(t.rows, rest), OwnedBy(t.rows, w));
      OneMoreShare(|rest|, cap);
    }
  }

  lemma OneMoreShare(n: nat, cap: nat)
    ensures (n + 1) * cap == n * cap + cap
  {
  }

  lemma FullSharesLeaveNothingFree(s: Settings, ws: set<WorkerId>, t: Table)
    requires Sensible(s, ws, t) && Linked(s, ws, t)
    requires forall w :: w in ws ==> OwnCount(t, w) >= Cap(s, ws)
    ensures FreeCount(t, ws) == 0
  {
    SharesAddUp(t, ws, Cap(s, ws));
    CapIsLeastShare(s.partitions, |ws|);
    assert forall p :: p in t.rows ==> RowLinked(s, ws, t, p);
    assert OwnedByAny(t.rows, ws) + FreeIn(t.rows, ws) == t.rows.Keys;
    Apart(OwnedByAny(t.rows, ws), FreeIn(t.rows, ws));
    assert |t.rows.Keys| == |t.rows|;
  }

  lemma FreeMeansRoom(s: Settings, ws: set<WorkerId>, t: Table) returns (w: WorkerId)
    requires Sensible(s, ws, t) && Linked(s, ws, t) && FreeCount(t, ws) > 0
    ensures w in ws && OwnCount(t, w) < Cap(s, ws)
  {
    if forall o :: o in ws ==> OwnCount(t, o) >= Cap(s, ws) {
      FullSharesLeaveNothingFree(s, ws, t);
      assert false;
    }
    w :| w in ws && OwnCount(t, w) < Cap(s, ws);
  }

  // ----- Ownership counts follow a simple function -----

  datatype Counts = Counts(own: map<WorkerId, nat>, free: nat)

  predicate OnlyOf(ws: set<WorkerId>, workers: seq<WorkerId>) {
    forall w :: w in workers ==> w in ws
  }

  /** A turn of `w` on the counts alone. */
  function Shift(c: Counts, w: WorkerId, cap: nat, batch: nat): Counts
    requires w in c.own
  {
    var mine := c.own[w];
    var shifted := Min(cap, mine + Min(batch, c.free));
    Counts(c.own[w := shifted], c.free + mine - shifted)
  }

  function ShiftAll(c: Counts, turns: seq<WorkerId>, cap: nat, batch: nat): (r: Counts)
    requires OnlyOf(c.own.Keys, turns)
    ensures r.own.Keys == c.own.Keys
  {
    if turns == [] then c else Shift(ShiftAll(c, turns[..|turns| - 1], cap, batch), turns[|turns| - 1], cap, batch)
  }

  function Count(t: Table, ws: set<WorkerId>): (c: Counts)
    ensures c.own.Keys == ws
  {
    Counts(map w | w in ws :: OwnCount(t, w), FreeCount(t, ws))
  }

  lemma CountsShift(t: Table, t': Table, ws: set<WorkerId>, w: WorkerId, cap: nat, batch: nat)
    requires w in ws
    requires OwnCount(t', w) == Min(cap, OwnCount(t, w) + Min(batch, FreeCount(t, ws)))
    requires FreeCount(t', ws) + OwnCount(t', w) == FreeCount(t, ws) + OwnCount(t, w)
    requires forall o :: o in ws && o != w ==> OwnedBy(t'.rows, o) == OwnedBy(t.rows, o)
    ensures Count(t', ws) == Shift(Count(t, ws), w, cap, batch)
  {
    assert Count(t', ws).own == Shift(Count(t, ws), w, cap, batch).own;
  }

  /** Turn `i` is taken in time, by a worker of `ws`. */
  ghost predicate TurnAt(s: Settings, ws: set<WorkerId>, tables: seq<Table>, turns: seq<Turn>, i: int)
    requires |tables| == |turns| + 1 && 0 <= i < |turns|
  {
    && turns[i].w in ws && InTime(s, ws, tables[i], turns[i].now)
    && LeaseTurn(s, tables[i], turns[i].w, turns[i].now, turns[i].offset, tables[i + 1])
  }

  /** Turns taken one after another by the workers of `ws`, all in time. */
  ghost predicate Turns(s: Settings, ws: set<WorkerId>, tables: seq<Table>, turns: seq<Turn>) {
    && |tables| == |turns| + 1 && Sensible(s, ws, tables[0]) && Linked(s, ws, tables[0])
    && forall i {:trigger TurnAt(s, ws, tables, turns, i)} :: 0 <= i < |turns| ==> TurnAt(s, ws, tables, turns, i)
  }

  function Workers(turns: seq<Turn>): seq<WorkerId> {
    seq(|turns|, i requires 0 <= i < |turns| => turns[i].w)
  }

  lemma {:induction false} TurnsKeep(s: Settings, ws: set<WorkerId>, tables: seq<Table>, turns: seq<Turn>, i: nat)
    requires Turns(s, ws, tables, turns) && i < |tables|
    ensures Sensible(s, ws, tables[i]) && Linked(s, ws, tables[i])
  {
    if i > 0 {
      TurnsKeep(s, ws, tables, turns, i - 1);
      assert TurnAt(s, ws, tables, turns, i - 1);
      TurnCounts(s, ws, tables[i - 1], turns[i - 1], tables[i]);
    }
  }

  lemma OneTurnShifts(s: Settings, ws: set<WorkerId>, tables: seq<Table>, turns: seq<Turn>, i: nat)
    requires Turns(s, ws, tables, turns) && i < |turns|
    ensures turns[i].w in ws
    ensures Count(tables[i + 1], ws) == Shift(Count(tables[i], ws), turns[i].w, Cap(s, ws), s.batch)
  {
    TurnsKeep(s, ws, tables, turns, i);
    assert TurnAt(s, ws, tables, turns, i);
    TurnCounts(s, ws, tables[i], turns[i], tables[i + 1]);
    CountsShift(tables[i], tables[i + 1], ws, turns[i].w, Cap(s, ws), s.batch);
  }

  lemma ShiftAppend(c: Counts, most: seq<WorkerId>, w: WorkerId, cap: nat, batch: nat)
    requires w in c.own && OnlyOf(c.own.Keys, most)
    ensures OnlyOf(c.own.Keys, most + [w])
    ensures ShiftAll(c, most + [w], cap, batch) == Shift(ShiftAll(c, most, cap, batch), w, cap, batch)
  {
    assert (most + [w])[..|most|] == most;
  }

  lemma WorkersAppend(turns: seq<Turn>, i: nat, j: nat)
    requires i < j <= |turns|
    ensures Workers(turns[i..j]) == Workers(turns[i..j - 1]) + [turns[j - 1].w]
  {
  }

  predicate ShiftAt(counts: seq<Counts>, turns: seq<Turn>, k: int, cap: nat, batch: nat)
    requires |counts| == |turns| + 1 && 0 <= k < |turns|
  {
    turns[k].w in counts[k].own && counts[k + 1] == Shift(counts[k], turns[k].w, cap, batch)
  }

  /** The counts after each turn follow the counting function. */
  ghost predicate Chain(counts: seq<Counts>, turns: seq<Turn>, cap: nat, batch: nat) {
    && |counts| == |turns| + 1
    && forall k {:trigger ShiftAt(counts, turns, k, cap, batch)} ::
         0 <= k < |turns| ==> ShiftAt(counts, turns, k, cap, batch)
  }

  lemma {:induction false} ChainShifts(counts: seq<Counts>, turns: seq<Turn>, i: nat, j: nat, cap: nat, batch: nat)
    requires Chain(counts, turns, cap, batch) && i <= j <= |turns|
    ensures OnlyOf(counts[i].own.Keys, Workers(turns[i..j]))
    ensures counts[j] == ShiftAll(counts[i], Workers(turns[i..j]), cap, batch)
    decreases j
  {
    if i == j {
      assert Workers(turns[i..j]) == [];
    } else {
      ChainShifts(counts, turns, i, j - 1, cap, batch);
      assert ShiftAt(counts, turns, j - 1, cap, batch);
      WorkersAppend(turns, i, j);
      ShiftAppend(counts[i], Workers(turns[i..j - 1]), turns[j - 1].w, cap, batch);
    }
  }

  lemma TurnsChain(s: Settings, ws: set<WorkerId>, tables: seq<Table>, turns: seq<Turn>) returns (counts: seq<Counts>)
    requires Turns(s, ws, tables, turns)
    ensures Chain(counts, turns, Cap(s, ws), s.batch)
    ensures forall k :: 0 <= k < |tables| ==> counts[k] == Count(tables[k], ws)
  {
    counts := seq(|tables|, k requires 0 <= k < |tables| => Count(tables[k], ws));
    forall k | 0 <= k < |turns| ensures ShiftAt(counts, turns, k, Cap(s, ws), s.batch) {
      OneTurnShifts(s, ws, tables, turns, k);
    }
  }

  /** Over any stretch of turns, the counts are what the counting function says. */
  lemma TurnsShift(s: Settings, ws: set<WorkerId>, tables: seq<Table>, turns: seq<Turn>, i: nat, j: nat)
    requires Turns(s, ws, tables, turns) && i <= j < |tables|
    ensures OnlyOf(ws, Workers(turns[i..j]))
    ensures Count(tables[j], ws) == ShiftAll(Count(tables[i], ws), Workers(turns[i..j]), Cap(s, ws), s.batch)
  {
    var counts := TurnsChain(s, ws, tables, turns);
    ChainShifts(counts, turns, i, j, Cap(s, ws), s.batch);
  }

  // ----- Rounds of the counting function -----

  ghost predicate WithinCap(c: Counts, cap: nat, who: set<WorkerId>) {
    forall w :: w in who && w in c.own ==> c.own[w] <= cap
  }

  /** Nothing is free, or the workers of `who` have at least `level`, as far as the cap allows. */
  ghost predicate Filled(c: Counts, cap: nat, level: nat, who: set<WorkerId>) {
    c.free == 0 || forall w :: w in who && w in c.own ==> c.own[w] >= Min(cap, level)
  }

  /** Whoever has had a turn is within its cap, and stays there. */
  lemma {:induction false} ShiftsCap(c: Counts, turns: seq<WorkerId>, cap: nat, batch: nat)
    requires OnlyOf(c.own.Keys, turns)
    ensures WithinCap(ShiftAll(c, turns, cap, batch), cap, Elements(turns))
  {
    if turns != [] {
      var most := turns[..|turns| - 1];
      ShiftsCap(c, most, cap, batch);
      assert Elements(turns) == Elements(most) + {turns[|turns| - 1]};
    }
  }

  /** Within the caps, every turn lifts its worker by a batch, or leaves nothing free. */
  lemma {:induction false} ShiftsFill(c: Counts, turns: seq<WorkerId>, cap: nat, batch: nat, level: nat)
    requires OnlyOf(c.own.Keys, turns)
    requires WithinCap(c, cap, c.own.Keys) && Filled(c, cap, level, c.own.Keys)
    ensures WithinCap(ShiftAll(c, turns, cap, batch), cap, c.own.Keys)
    ensures Filled(ShiftAll(c, turns, cap, batch), cap, level, c.own.Keys)
    ensures Filled(ShiftAll(c, turns, cap, batch), cap, level + batch, Elements(turns))
  {
    if turns != [] {
      var most := turns[..|turns| - 1];
      ShiftsFill(c, most, cap, batch, level);
      assert Elements(turns) == Elements(most) + {turns[|turns| - 1]};
    }
  }

  // ----- Convergence -----

  /** Between marks `r` and `r + 1` every worker takes at least one turn, in any order. */
  ghost predicate RoundAt(ws: set<WorkerId>, turns: seq<Turn>, marks: seq<nat>, r: int)
    requires 0 <= r < |marks| - 1
  {
    marks[r] <= marks[r + 1] <= |turns| && Elements(Workers(turns[marks[r]..marks[r + 1]])) == ws
  }

  /** `marks` cuts the turns into rounds. */
  ghost predicate Rounds(ws: set<WorkerId>, turns: seq<Turn>, marks: seq<nat>) {
    forall r {:trigger RoundAt(ws, turns, marks, r)} :: 0 <= r < |marks| - 1 ==> RoundAt(ws, turns, marks, r)
  }

  lemma RoundCaps(s: Settings, ws: set<WorkerId>, tables: seq<Table>, turns: seq<Turn>, i: nat, j: nat)
    requires Turns(s, ws, tables, turns) && i <= j < |tables| && Elements(Workers(turns[i..j])) == ws
    ensures WithinCap(Count(tables[j], ws), Cap(s, ws), ws)
  {
    TurnsShift(s, ws, tables, turns, i, j);
    ShiftsCap(Count(tables[i], ws), Workers(turns[i..j]), Cap(s, ws), s.batch);
  }

  lemma RoundLifts(s: Settings, ws: set<WorkerId>, tables: seq<Table>, turns: seq<Turn>, i: nat, j: nat, level: nat)
    requires Turns(s, ws, tables, turns) && i <= j < |tables| && Elements(Workers(turns[i..j])) == ws
    requires WithinCap(Count(tables[i], ws), Cap(s, ws), ws) && Filled(Count(tables[i], ws), Cap(s, ws), level, ws)
    ensures WithinCap(Count(tables[j], ws), Cap(s, ws), ws)
    ensures Filled(Count(tables[j], ws), Cap(s, ws), level + s.batch, ws)
  {
    TurnsShift(s, ws, tables, turns, i, j);
    ShiftsFill(Count(tables[i], ws), Workers(turns[i..j]), Cap(s, ws), s.batch, level);
  }

  /** After the first round everybody is within the cap; after `r` more, everybody has `r`
      batches, as far as the cap allows, or nothing is free. */
  lemma {:induction false} RoundsFill(s: Settings, ws: set<WorkerId>, tables: seq<Table>, turns: seq<Turn>,
                                      marks: seq<nat>, r: nat)
    requires Turns(s, ws, tables, turns) && Rounds(ws, turns, marks) && r + 1 < |marks|
    ensures marks[r + 1] < |tables|
    ensures WithinCap(Count(tables[marks[r + 1]], ws), Cap(s, ws), ws)
    ensures Filled(Count(tables[marks[r + 1]], ws), Cap(s, ws), r * s.batch, ws)
  {
    assert RoundAt(ws, turns, marks, r);
    if r == 0 {
      RoundCaps(s, ws, tables, turns, marks[0], marks[1]);
      assert forall w :: w in ws ==> OwnCount(tables[marks[1]], w) >= 0;
    } else {
      RoundsFill(s, ws, tables, turns, marks, r - 1);
      RoundLifts(s, ws, tables, turns, marks[r], marks[r + 1], (r - 1) * s.batch);
      assert (r - 1) * s.batch + s.batch == r * s.batch;
    }
  }

  /** Convergence.  One round brings every worker within its fair share; once the rounds after
      it can carry a whole share in batches, every partition is owned. */
  lemma RebalancingConverges(s: Settings, ws: set<WorkerId>, tables: seq<Table>, turns: seq<Turn>, marks: seq<nat>,
                             rounds: nat)
    requires Turns(s, ws, tables, turns) && Rounds(ws, turns, marks) && 1 <= rounds < |marks|
    ensures marks[rounds] < |tables|
    ensures forall w :: w in ws ==> OwnCount(tables[marks[rounds]], w) <= Cap(s, ws)
    ensures (rounds - 1) * s.batch >= Cap(s, ws) ==> FreeCount(tables[marks[rounds]], ws) == 0
  {
    RoundsFill(s, ws, tables, turns, marks, rounds - 1);
    var t := tables[marks[rounds]];
    var c := Count(t, ws);
    assert forall w :: w in ws ==> c.own[w] == OwnCount(t, w);
    if (rounds - 1) * s.batch >= Cap(s, ws) && FreeCount(t, ws) != 0 {
      TurnsKeep(s, ws, tables, turns, marks[rounds]);
      FullSharesLeaveNothingFree(s, ws, t);
    }
  }

  /** Once everything is owned in fair shares, turns move nothing. */
  lemma FairStateIsStable(s: Settings, ws: set<WorkerId>, t: Table, turn: Turn, t': Table)
    requires Sensible(s, ws, t) && Linked(s, ws, t) && InTime(s, ws, t, turn.now) && turn.w in ws
    requires FreeCount(t, ws) == 0 && OwnCount(t, turn.w) <= Cap(s, ws)
    requires LeaseTurn(s, t, turn.w, turn.now, turn.offset, t')
    ensures FreeCount(t', ws) == 0 && forall w :: w in ws ==> OwnedBy(t'.rows, w) == OwnedBy(t.rows, w)
  {
    var claimed, gone := TurnExchanges(s, ws, t, turn, t');
    assert claimed == {} && OwnedBy(t.rows, turn.w) + claimed == OwnedBy(t.rows, turn.w);
    assert gone == {};
  }
}
