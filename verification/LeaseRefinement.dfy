/** Safety and convergence are about one machine: a lease turn is a run of row statements, and turns
    taken one after another are a run of `LeaseSafety`. */
module LeaseRefinement {
  import opened Sql
  import opened Leases
  import Rebalance
  import S = LeaseSafety

  // ----- Stretches of runs -----

  /** Consecutive states joined by the steps between them. */
  ghost predicate Steps(seconds: nat, states: seq<S.State>, labels: seq<S.Label>) {
    && |states| == |labels| + 1
    && forall i {:trigger S.StepAt(seconds, states, labels, i)} ::
         0 <= i < |labels| ==> S.StepAt(seconds, states, labels, i)
  }

  ghost predicate From(seconds: nat, first: S.State, states: seq<S.State>, labels: seq<S.Label>, last: S.State) {
    Steps(seconds, states, labels) && states[0] == first && states[|labels|] == last
  }

  lemma Then(seconds: nat, first: S.State, states: seq<S.State>, labels: seq<S.Label>, last: S.State, l: S.Label,
             s: S.State)
    requires From(seconds, first, states, labels, last) && S.Next(seconds, last, l, s)
    ensures From(seconds, first, states + [s], labels + [l], s)
  {
    forall i | 0 <= i <= |labels| ensures S.StepAt(seconds, states + [s], labels + [l], i) {
      assert i < |labels| ==> S.StepAt(seconds, states, labels, i);
    }
  }

  lemma Joined(seconds: nat, first: S.State, states: seq<S.State>, labels: seq<S.Label>, mid: S.State,
               states': seq<S.State>, labels': seq<S.Label>, last: S.State)
    requires From(seconds, first, states, labels, mid) && From(seconds, mid, states', labels', last)
    ensures From(seconds, first, states + states'[1..], labels + labels', last)
  {
    var all, steps := states + states'[1..], labels + labels';
    forall i | 0 <= i < |steps| ensures S.StepAt(seconds, all, steps, i) {
      if i < |labels| {
        assert S.StepAt(seconds, states, labels, i);
      } else {
        assert S.StepAt(seconds, states', labels', i - |labels|);
      }
    }
  }

  // ----- One statement on many rows -----

  datatype Statement = Renew | Claim | Release

  function LabelOf(k: Statement, w: WorkerId, p: PartitionId): S.Label {
    match k
    case Renew => S.RenewRow(w, p)
    case Claim => S.ClaimRow(w, p)
    case Release => S.ReleaseRow(w, p)
  }

  function RowFor(k: Statement, w: WorkerId, until: int): Row {
    if k.Release? then Free else Row(Some(w), Some(until))
  }

  /** The statement's WHERE selects the row. */
  predicate Selects(k: Statement, row: Row, w: WorkerId, now: int) {
    match k
    case Renew => HeldBy(row, w, now)
    case Claim => Claimable(row, now)
    case Release => row.owner == Some(w)
  }

  type Rows = map<PartitionId, Row>

  /** Worker `w` alone has a transaction open, begun at `now`. */
  function Open(rows: Rows, w: WorkerId, now: int, writes: Rows): S.State {
    S.State(now, rows, map[w := S.Session(now, writes)])
  }

  function Closed(rows: Rows, now: int): S.State {
    S.State(now, rows, map[])
  }

  function Seen(rows: Rows, writes: Rows, p: PartitionId): Row
    requires p in rows
  {
    if p in writes then writes[p] else rows[p]
  }

  function Put(writes: Rows, ps: seq<PartitionId>, row: Row): Rows {
    if ps == [] then writes else Put(writes, ps[..|ps| - 1], row)[ps[|ps| - 1] := row]
  }

  lemma {:induction false} PutAt(writes: Rows, ps: seq<PartitionId>, row: Row, p: PartitionId)
    ensures p in Put(writes, ps, row) <==> p in writes || p in ps
    ensures p in ps ==> Put(writes, ps, row)[p] == row
    ensures p !in ps && p in writes ==> Put(writes, ps, row)[p] == writes[p]
  {
    if ps != [] {
      PutAt(writes, ps[..|ps| - 1], row, p);
      assert ps == ps[..|ps| - 1] + [ps[|ps| - 1]];
    }
  }

  /** A statement that selects each of the rows may be executed on one after the other. */
  lemma {:induction false} Executes(seconds: nat, k: Statement, rows: Rows, w: WorkerId, now: int, writes: Rows,
                                    ps: seq<PartitionId>)
    returns (states: seq<S.State>, labels: seq<S.Label>)
    requires Distinct(ps)
    requires forall p :: p in ps ==> p in rows && Selects(k, Seen(rows, writes, p), w, now)
    ensures From(seconds, Open(rows, w, now, writes), states, labels,
                 Open(rows, w, now, Put(writes, ps, RowFor(k, w, now + seconds))))
  {
    if ps == [] {
      states, labels := [Open(rows, w, now, writes)], [];
    } else {
      var most, p, row := ps[..|ps| - 1], ps[|ps| - 1], RowFor(k, w, now + seconds);
      states, labels := Executes(seconds, k, rows, w, now, writes, most);
      PutAt(writes, most, row, p);
      assert p !in most;
      var last := Open(rows, w, now, Put(writes, most, row));
      var next := Open(rows, w, now, Put(writes, ps, row));
      OneRow(seconds, k, rows, w, now, Put(writes, most, row), p);
      Then(seconds, Open(rows, w, now, writes), states, labels, last, LabelOf(k, w, p), next);
      states, labels := states + [next], labels + [LabelOf(k, w, p)];
    }
  }

  lemma OneRow(seconds: nat, k: Statement, rows: Rows, w: WorkerId, now: int, writes: Rows, p: PartitionId)
    requires p in rows && Selects(k, Seen(rows, writes, p), w, now)
    ensures S.Next(seconds, Open(rows, w, now, writes), LabelOf(k, w, p),
                   Open(rows, w, now, writes[p := RowFor(k, w, now + seconds)]))
  {
  }

  lemma Listed(s: set<PartitionId>) returns (ps: seq<PartitionId>)
    ensures Distinct(ps) && Elements(ps) == s
  {
    if s == {} {
      ps := [];
    } else {
      var p := SomeElement(s);
      var rest := Listed(s - {p});
      ps := rest + [p];
      ElementsAppend(rest, p);
    }
  }

  // ----- One turn -----

  lemma InElements(ps: seq<PartitionId>)
    ensures forall p :: p in ps <==> p in Elements(ps)
  {
  }

  /** A lease turn is the run of one transaction: begin, renew, claim and release row by row, commit. */
  lemma TurnIsRun(s: Settings, t: Table, w: WorkerId, now: int, offset: nat, t': Table)
    returns (states: seq<S.State>, labels: seq<S.Label>)
    requires s.leaseSeconds >= 0 && LeaseTurn(s, t, w, now, offset, t')
    ensures From(s.leaseSeconds, Closed(t.rows, now), states, labels, Closed(t'.rows, now))
  {
    var claimed: seq<PartitionId>, gone: seq<PartitionId> :| TurnWith(s, t, w, now, offset, t', claimed, gone);
    var seconds, rows := s.leaseSeconds, t.rows;
    var mine := Listed(Owned(rows, w, now));
    InElements(mine);
    var renewing, one := Executes(seconds, Renew, rows, w, now, map[], mine);
    var renewed := Put(map[], mine, Row(Some(w), Some(now + seconds)));
    ClaimsSelected(s, t, w, now, offset, t', claimed, gone, mine);
    var claiming, two := Executes(seconds, Claim, rows, w, now, renewed, claimed);
    var taken := Put(renewed, claimed, Row(Some(w), Some(now + seconds)));
    ReleasesSelected(s, t, w, now, offset, t', claimed, gone, mine);
    var releasing, three := Executes(seconds, Release, rows, w, now, taken, gone);
    var written := Put(taken, gone, Free);
    TurnWrites(s, t, w, now, offset, t', claimed, gone, mine);

    var start, begun := Closed(rows, now), Open(rows, w, now, map[]);
    states, labels := [start], [];
    Then(seconds, start, states, labels, start, S.Begin(w), begun);
    states, labels := states + [begun], labels + [S.Begin(w)];
    Joined(seconds, start, states, labels, begun, renewing, one, Open(rows, w, now, renewed));
    states, labels := states + renewing[1..], labels + one;
    Joined(seconds, start, states, labels, Open(rows, w, now, renewed), claiming, two, Open(rows, w, now, taken));
    states, labels := states + claiming[1..], labels + two;
    Joined(seconds, start, states, labels, Open(rows, w, now, taken), releasing, three, Open(rows, w, now, written));
    states, labels := states + releasing[1..], labels + three;
    Commits(seconds, rows, w, now, written);
    Then(seconds, start, states, labels, Open(rows, w, now, written), S.Commit(w), Closed(t'.rows, now));
    states, labels := states + [Closed(t'.rows, now)], labels + [S.Commit(w)];
  }

  lemma Commits(seconds: nat, rows: Rows, w: WorkerId, now: int, writes: Rows)
    ensures S.Next(seconds, Open(rows, w, now, writes), S.Commit(w), Closed(rows + writes, now))
  {
    assert Open(rows, w, now, writes).sessions - {w} == map[];
  }

  /** What the renewal and the claim have written is what the turn says they do. */
  lemma SeenIs(t: Table, w: WorkerId, now: int, seconds: int, mine: seq<PartitionId>, claimed: seq<PartitionId>,
               p: PartitionId)
    requires Elements(mine) == Owned(t.rows, w, now) && p in t.rows
    ensures var renewed := Put(map[], mine, Row(Some(w), Some(now + seconds)));
            && Seen(t.rows, renewed, p) == Renewed(t.rows, w, now, seconds)[p]
            && Seen(t.rows, Put(renewed, claimed, Row(Some(w), Some(now + seconds))), p) ==
               Taken(Renewed(t.rows, w, now, seconds), Elements(claimed), w, now + seconds)[p]
  {
    var row := Row(Some(w), Some(now + seconds));
    InElements(mine);
    InElements(claimed);
    PutAt(map[], mine, row, p);
    PutAt(Put(map[], mine, row), claimed, row, p);
  }

  lemma ClaimsSelected(s: Settings, t: Table, w: WorkerId, now: int, offset: nat, t': Table,
                       claimed: seq<PartitionId>, gone: seq<PartitionId>, mine: seq<PartitionId>)
    requires TurnWith(s, t, w, now, offset, t', claimed, gone) && Elements(mine) == Owned(t.rows, w, now)
    ensures Distinct(claimed)
    ensures var renewed := Put(map[], mine, Row(Some(w), Some(now + s.leaseSeconds)));
            forall p :: p in claimed ==> p in t.rows && Selects(Claim, Seen(t.rows, renewed, p), w, now)
  {
    InElements(claimed);
    forall p | p in claimed
      ensures p in t.rows
      ensures Selects(Claim, Seen(t.rows, Put(map[], mine, Row(Some(w), Some(now + s.leaseSeconds))), p), w, now)
    {
      assert p in Available(Renewed(t.rows, w, now, s.leaseSeconds), now);
      SeenIs(t, w, now, s.leaseSeconds, mine, claimed, p);
    }
  }

  lemma ReleasesSelected(s: Settings, t: Table, w: WorkerId, now: int, offset: nat, t': Table,
                         claimed: seq<PartitionId>, gone: seq<PartitionId>, mine: seq<PartitionId>)
    requires TurnWith(s, t, w, now, offset, t', claimed, gone) && Elements(mine) == Owned(t.rows, w, now)
    ensures Distinct(gone)
    ensures var row := Row(Some(w), Some(now + s.leaseSeconds));
            forall p :: p in gone ==>
              p in t.rows && Selects(Release, Seen(t.rows, Put(Put(map[], mine, row), claimed, row), p), w, now)
  {
    var row := Row(Some(w), Some(now + s.leaseSeconds));
    InElements(gone);
    forall p | p in gone
      ensures p in t.rows && Selects(Release, Seen(t.rows, Put(Put(map[], mine, row), claimed, row), p), w, now)
    {
      var taken := Taken(Renewed(t.rows, w, now, s.leaseSeconds), Elements(claimed), w, now + s.leaseSeconds);
      assert p in Owned(taken, w, now);
      SeenIs(t, w, now, s.leaseSeconds, mine, claimed, p);
    }
  }

  function Written(mine: seq<PartitionId>, claimed: seq<PartitionId>, gone: seq<PartitionId>, row: Row): Rows {
    Put(Put(Put(map[], mine, row), claimed, row), gone, Free)
  }

  /** Every write of the transaction is to a row of the table, */
  lemma WrittenRow(s: Settings, t: Table, w: WorkerId, now: int, offset: nat, t': Table,
                   claimed: seq<PartitionId>, gone: seq<PartitionId>, mine: seq<PartitionId>, p: PartitionId)
    requires TurnWith(s, t, w, now, offset, t', claimed, gone) && Elements(mine) == Owned(t.rows, w, now)
    requires p in Written(mine, claimed, gone, Row(Some(w), Some(now + s.leaseSeconds)))
    ensures p in t.rows
  {
    var row := Row(Some(w), Some(now + s.leaseSeconds));
    ClaimsSelected(s, t, w, now, offset, t', claimed, gone, mine);
    ReleasesSelected(s, t, w, now, offset, t', claimed, gone, mine);
    PutAt(map[], mine, row, p);
    PutAt(Put(map[], mine, row), claimed, row, p);
    PutAt(Put(Put(map[], mine, row), claimed, row), gone, Free, p);
    InElements(mine);
  }

  lemma ReleasedAt(taken: Rows, rows: Rows, writes: Rows, w: WorkerId, gone: seq<PartitionId>, p: PartitionId)
    requires p in rows && p in taken && Seen(rows, writes, p) == taken[p]
    requires p in gone ==> taken[p].owner == Some(w)
    ensures Seen(rows, Put(writes, gone, Free), p) == Released(taken, w, Elements(gone))[p]
  {
    InElements(gone);
    PutAt(writes, gone, Free, p);
  }

  /** and leaves it as the turn does. */
  lemma WrittenAt(s: Settings, t: Table, w: WorkerId, now: int, offset: nat, t': Table,
                  claimed: seq<PartitionId>, gone: seq<PartitionId>, mine: seq<PartitionId>, p: PartitionId)
    requires TurnWith(s, t, w, now, offset, t', claimed, gone) && Elements(mine) == Owned(t.rows, w, now) && p in t.rows
    ensures p in t'.rows
    ensures Seen(t.rows, Written(mine, claimed, gone, Row(Some(w), Some(now + s.leaseSeconds))), p) == t'.rows[p]
  {
    var row := Row(Some(w), Some(now + s.leaseSeconds));
    var taken := Taken(Renewed(t.rows, w, now, s.leaseSeconds), Elements(claimed), w, now + s.leaseSeconds);
    SeenIs(t, w, now, s.leaseSeconds, mine, claimed, p);
    ReleasesSelected(s, t, w, now, offset, t', claimed, gone, mine);
    ReleasedAt(taken, t.rows, Put(Put(map[], mine, row), claimed, row), w, gone, p);
  }

  lemma MergedRows(rows: Rows, writes: Rows, after: Rows)
    requires writes.Keys <= rows.Keys && after.Keys == rows.Keys
    requires forall p :: p in rows ==> Seen(rows, writes, p) == after[p]
    ensures rows + writes == after
  {
  }

  lemma TurnWrites(s: Settings, t: Table, w: WorkerId, now: int, offset: nat, t': Table,
                   claimed: seq<PartitionId>, gone: seq<PartitionId>, mine: seq<PartitionId>)
    requires TurnWith(s, t, w, now, offset, t', claimed, gone) && Elements(mine) == Owned(t.rows, w, now)
    ensures t.rows + Written(mine, claimed, gone, Row(Some(w), Some(now + s.leaseSeconds))) == t'.rows
  {
    var writes := Written(mine, claimed, gone, Row(Some(w), Some(now + s.leaseSeconds)));
    forall p | p in writes ensures p in t.rows {
      WrittenRow(s, t, w, now, offset, t', claimed, gone, mine, p);
    }
    forall p | p in t.rows ensures p in t'.rows && Seen(t.rows, writes, p) == t'.rows[p] {
      WrittenAt(s, t, w, now, offset, t', claimed, gone, mine, p);
    }
    MergedRows(t.rows, writes, t'.rows);
  }

  // ----- Turns one after another -----

  ghost predicate TurnAt(s: Settings, tables: seq<Table>, turns: seq<Rebalance.Turn>, i: int)
    requires |tables| == |turns| + 1 && 0 <= i < |turns|
  {
    && LeaseTurn(s, tables[i], turns[i].w, turns[i].now, turns[i].offset, tables[i + 1])
    && (i > 0 ==> turns[i - 1].now <= turns[i].now)
  }

  /** Turns from a table of free partitions, in the order of their times. */
  ghost predicate TurnsInOrder(s: Settings, tables: seq<Table>, turns: seq<Rebalance.Turn>) {
    && |tables| == |turns| + 1 && (forall p :: p in tables[0].rows ==> tables[0].rows[p] == Free)
    && forall i {:trigger TurnAt(s, tables, turns, i)} :: 0 <= i < |turns| ==> TurnAt(s, tables, turns, i)
  }

  lemma TurnsPrefix(s: Settings, tables: seq<Table>, turns: seq<Rebalance.Turn>)
    requires TurnsInOrder(s, tables, turns) && turns != []
    ensures TurnsInOrder(s, tables[..|turns|], turns[..|turns| - 1])
  {
    var before, first := tables[..|turns|], turns[..|turns| - 1];
    forall i | 0 <= i < |first| ensures TurnAt(s, before, first, i) {
      assert TurnAt(s, tables, turns, i);
    }
  }

  /** Turns, however often taken by whomever, are a run of `LeaseSafety` that ends with the same
      rows: all that holds of its runs holds between turns. */
  lemma {:induction false} TurnsAreRun(s: Settings, tables: seq<Table>, turns: seq<Rebalance.Turn>, start: int)
    returns (states: seq<S.State>, labels: seq<S.Label>)
    requires s.leaseSeconds >= 0 && TurnsInOrder(s, tables, turns) && (turns != [] ==> start <= turns[0].now)
    ensures S.Run(s.leaseSeconds, states, labels)
    ensures var now := if turns == [] then start else turns[|turns| - 1].now;
            From(s.leaseSeconds, Closed(tables[0].rows, start), states, labels, Closed(tables[|turns|].rows, now))
    decreases |turns|
  {
    var seconds, first := s.leaseSeconds, Closed(tables[0].rows, start);
    if turns == [] {
      states, labels := [first], [];
    } else {
      var k := |turns| - 1;
      TurnsPrefix(s, tables, turns);
      assert TurnAt(s, tables, turns, k);
      states, labels := TurnsAreRun(s, tables[..k + 1], turns[..k], start);
      var turn, before := turns[k], if k == 0 then start else turns[k - 1].now;
      var waiting, ready := Closed(tables[k].rows, before), Closed(tables[k].rows, turn.now);
      Then(seconds, first, states, labels, waiting, S.Tick(turn.now), ready);
      states, labels := states + [ready], labels + [S.Tick(turn.now)];
      var more, steps := TurnIsRun(s, tables[k], turn.w, turn.now, turn.offset, tables[k + 1]);
      Joined(seconds, first, states, labels, ready, more, steps, Closed(tables[k + 1].rows, turn.now));
      states, labels := states + more[1..], labels + steps;
    }
  }
}
