/** Lease transactions interleaved row by row.  Each worker runs one transaction at a time;
    `now()` inside it is the time it began, which the wall clock has usually left behind.  A
    renewing or releasing UPDATE waits for a locked row, a claim skips it, and both are judged
    on the latest committed row. */
module LeaseSafety {
  import opened Sql
  import opened Leases

  datatype Session = Session(start: int, writes: map<PartitionId, Row>)

  datatype State = State(wall: int, rows: map<PartitionId, Row>, sessions: map<WorkerId, Session>)

  datatype Label =
    | Tick(to: int)
    | Begin(w: WorkerId)
    | RenewRow(w: WorkerId, p: PartitionId)
    | ClaimRow(w: WorkerId, p: PartitionId)
    | ReleaseRow(w: WorkerId, p: PartitionId)
    | Commit(w: WorkerId)
    | Abort(w: WorkerId)

  predicate LockedElsewhere(s: State, w: WorkerId, p: PartitionId) {
    exists o :: o in s.sessions && o != w && p in s.sessions[o].writes
  }

  /** The row as `w`'s statements see it. */
  function View(s: State, w: WorkerId, p: PartitionId): Row
    requires w in s.sessions && p in s.rows
  {
    if p in s.sessions[w].writes then s.sessions[w].writes[p] else s.rows[p]
  }

  function Write(s: State, w: WorkerId, p: PartitionId, row: Row): State
    requires w in s.sessions
  {
    s.(sessions := s.sessions[w := s.sessions[w].(writes := s.sessions[w].writes[p := row])])
  }

  /** Statements touch one row at a time, in any order and for any subset of the rows their
      WHERE selects, so every interleaving of the real statements is covered. */
  predicate Next(seconds: nat, s: State, l: Label, s': State) {
    match l
    case Tick(to) => to >= s.wall && s' == s.(wall := to)
    case Begin(w) => w !in s.sessions && s' == s.(sessions := s.sessions[w := Session(s.wall, map[])])
    case RenewRow(w, p) =>
      && w in s.sessions && p in s.rows && !LockedElsewhere(s, w, p)
      && HeldBy(View(s, w, p), w, s.sessions[w].start)
      && s' == Write(s, w, p, Row(Some(w), Some(s.sessions[w].start + seconds)))
    case ClaimRow(w, p) =>
      && w in s.sessions && p in s.rows && !LockedElsewhere(s, w, p)
      && Claimable(View(s, w, p), s.sessions[w].start)
      && s' == Write(s, w, p, Row(Some(w), Some(s.sessions[w].start + seconds)))
    case ReleaseRow(w, p) =>
      && w in s.sessions && p in s.rows && !LockedElsewhere(s, w, p)
      && View(s, w, p).owner == Some(w)
      && s' == Write(s, w, p, Free)
    case Commit(w) =>
      w in s.sessions && s' == s.(rows := s.rows + s.sessions[w].writes, sessions := s.sessions - {w})
    case Abort(w) =>
      w in s.sessions && s' == s.(sessions := s.sessions - {w})
  }

  ghost predicate RowOk(seconds: nat, s: State, p: PartitionId)
    requires p in s.rows
  {
    var row := s.rows[p];
    && (row.owner.Some? <==> row.until.Some?)
    && (row.until.Some? ==> row.until.value <= s.wall + seconds)
    && (row.owner.Some? && row.owner.value in s.sessions ==>
         row.until.value <= s.sessions[row.owner.value].start + seconds)
  }

  /** A private write is over a row the worker owns, or one whose lease had lapsed when its
      transaction began. */
  ghost predicate WriteOk(seconds: nat, s: State, w: WorkerId, p: PartitionId)
    requires w in s.sessions && p in s.sessions[w].writes
  {
    && p in s.rows
    && (s.rows[p].owner == Some(w) || Claimable(s.rows[p], s.sessions[w].start))
    && (s.sessions[w].writes[p] == Free || s.sessions[w].writes[p] == Row(Some(w), Some(s.sessions[w].start + seconds)))
  }

  ghost predicate Inv(seconds: nat, s: State) {
    && (forall p :: p in s.rows ==> RowOk(seconds, s, p))
    && (forall w :: w in s.sessions ==> s.sessions[w].start <= s.wall)
    && (forall w, p :: w in s.sessions && p in s.sessions[w].writes ==> WriteOk(seconds, s, w, p))
    && (forall v, w :: v in s.sessions && w in s.sessions && v != w ==>
         s.sessions[v].writes.Keys !! s.sessions[w].writes.Keys)
  }

  lemma StatementKeepsRow(seconds: nat, s: State, l: Label, s': State, p: PartitionId)
    requires Inv(seconds, s) && Next(seconds, s, l, s') && (l.RenewRow? || l.ClaimRow? || l.ReleaseRow?)
    requires p in s'.rows
    ensures RowOk(seconds, s', p)
  {
    assert RowOk(seconds, s, p);
  }

  lemma StatementKeepsWrite(seconds: nat, s: State, l: Label, s': State, w: WorkerId, p: PartitionId)
    requires Inv(seconds, s) && Next(seconds, s, l, s') && (l.RenewRow? || l.ClaimRow? || l.ReleaseRow?)
    requires w in s'.sessions && p in s'.sessions[w].writes
    ensures WriteOk(seconds, s', w, p)
  {
    assert w in s.sessions && p in s.sessions[w].writes ==> WriteOk(seconds, s, w, p);
  }

  lemma StatementKeeps(seconds: nat, s: State, l: Label, s': State)
    requires Inv(seconds, s) && Next(seconds, s, l, s') && (l.RenewRow? || l.ClaimRow? || l.ReleaseRow?)
    ensures Inv(seconds, s')
  {
    forall p | p in s'.rows ensures RowOk(seconds, s', p) {
      StatementKeepsRow(seconds, s, l, s', p);
    }
    forall w, p | w in s'.sessions && p in s'.sessions[w].writes ensures WriteOk(seconds, s', w, p) {
      StatementKeepsWrite(seconds, s, l, s', w, p);
    }
  }

  lemma CommitKeeps(seconds: nat, s: State, w: WorkerId, s': State)
    requires Inv(seconds, s) && Next(seconds, s, Commit(w), s')
    ensures Inv(seconds, s')
  {
    forall p | p in s'.rows ensures RowOk(seconds, s', p) {
      assert p in s.sessions[w].writes ==> WriteOk(seconds, s, w, p);
      assert RowOk(seconds, s, p);
    }
    forall v, p | v in s'.sessions && p in s'.sessions[v].writes ensures WriteOk(seconds, s', v, p) {
      assert WriteOk(seconds, s, v, p);
    }
  }

  lemma NextKeeps(seconds: nat, s: State, l: Label, s': State)
    requires Inv(seconds, s) && Next(seconds, s, l, s')
    ensures Inv(seconds, s')
  {
    if l.RenewRow? || l.ClaimRow? || l.ReleaseRow? {
      StatementKeeps(seconds, s, l, s');
    } else if l.Commit? {
      CommitKeeps(seconds, s, l.w, s');
    } else {
      forall p | p in s'.rows ensures RowOk(seconds, s', p) {
        assert RowOk(seconds, s, p);
      }
      forall w, p | w in s'.sessions && p in s'.sessions[w].writes ensures WriteOk(seconds, s', w, p) {
        assert WriteOk(seconds, s, w, p);
      }
    }
  }

  /** The step commits a release of `p` by `a` itself. */
  predicate Releases(s: State, l: Label, a: WorkerId, p: PartitionId) {
    l == Commit(a) && a in s.sessions && p in s.sessions[a].writes && s.sessions[a].writes[p] == Free
  }

  /** One step on a leased partition: the owner keeps it, its lease never moving back, unless
      the owner releases it or the lease has lapsed by the wall clock.  A new owner's lease
      ends no earlier than the old one did. */
  lemma StepRespectsLease(seconds: nat, s: State, l: Label, s': State, p: PartitionId, a: WorkerId, u: int)
    requires Inv(seconds, s) && Next(seconds, s, l, s') && p in s.rows && s.rows[p] == Row(Some(a), Some(u))
    ensures p in s'.rows
    ensures
      || (s'.rows[p].owner == Some(a) && s'.rows[p].until.Some? && s'.rows[p].until.value >= u)
      || Releases(s, l, a, p)
      || u <= s.wall
    ensures s'.rows[p].until.Some? ==> s'.rows[p].until.value >= u
  {
    assert RowOk(seconds, s, p);
    if l.Commit? && p in s.sessions[l.w].writes {
      assert WriteOk(seconds, s, l.w, p);
    }
  }

  ghost predicate StepAt(seconds: nat, states: seq<State>, labels: seq<Label>, i: int)
    requires |states| == |labels| + 1 && 0 <= i < |labels|
  {
    Next(seconds, states[i], labels[i], states[i + 1])
  }

  /** Migration leaves every partition free. */
  predicate Start(s: State) {
    s.sessions == map[] && forall p :: p in s.rows ==> s.rows[p] == Free
  }

  ghost predicate Run(seconds: nat, states: seq<State>, labels: seq<Label>) {
    && |states| == |labels| + 1
    && Start(states[0])
    && forall i {:trigger StepAt(seconds, states, labels, i)} :: 0 <= i < |labels| ==>
         StepAt(seconds, states, labels, i)
  }

  lemma {:induction false} ReachableIsOk(seconds: nat, states: seq<State>, labels: seq<Label>, i: nat)
    requires Run(seconds, states, labels) && i < |states|
    ensures Inv(seconds, states[i])
  {
    if i > 0 {
      ReachableIsOk(seconds, states, labels, i - 1);
      assert StepAt(seconds, states, labels, i - 1);
      NextKeeps(seconds, states[i - 1], labels[i - 1], states[i]);
    }
  }

  /** Somewhere between `i` and `j` the owner itself gave `p` up. */
  predicate ReleasedBetween(states: seq<State>, labels: seq<Label>, i: nat, j: nat, a: WorkerId, p: PartitionId)
    requires j < |states| && |states| == |labels| + 1
  {
    exists k :: i <= k < j && Releases(states[k], labels[k], a, p)
  }

  /** A live lease is never stolen.  A worker that holds `p` until `u` still holds it, for at
      least as long, in every later state whose wall clock has not reached `u`, unless it
      released the partition itself: however far transaction clocks lag. */
  lemma {:induction false} LiveLeaseIsNeverStolen(
    seconds: nat, states: seq<State>, labels: seq<Label>, i: nat, j: nat, p: PartitionId, a: WorkerId, u: int)
    requires Run(seconds, states, labels) && i <= j < |states|
    requires p in states[i].rows && states[i].rows[p] == Row(Some(a), Some(u))
    requires states[j].wall < u && !ReleasedBetween(states, labels, i, j, a, p)
    ensures p in states[j].rows && states[j].rows[p].owner == Some(a)
    ensures states[j].rows[p].until.Some? && states[j].rows[p].until.value >= u
    decreases j
  {
    if i < j {
      var s, l := states[j - 1], labels[j - 1];
      assert StepAt(seconds, states, labels, j - 1);
      ReachableIsOk(seconds, states, labels, j - 1);
      assert !ReleasedBetween(states, labels, i, j - 1, a, p);
      LiveLeaseIsNeverStolen(seconds, states, labels, i, j - 1, p, a, u);
      var v := s.rows[p].until.value;
      StepRespectsLease(seconds, s, l, states[j], p, a, v);
    }
  }

  /** Consequently, when ownership passes to another worker without a release, the old lease
      had lapsed by the wall clock. */
  lemma TakeoverOnlyAfterLapse(
    seconds: nat, states: seq<State>, labels: seq<Label>, i: nat, j: nat, p: PartitionId, a: WorkerId, u: int)
    requires Run(seconds, states, labels) && i <= j < |states|
    requires p in states[i].rows && states[i].rows[p] == Row(Some(a), Some(u))
    requires p in states[j].rows && states[j].rows[p].owner != Some(a)
    ensures states[j].wall >= u || ReleasedBetween(states, labels, i, j, a, p)
  {
    if states[j].wall < u && !ReleasedBetween(states, labels, i, j, a, p) {
      LiveLeaseIsNeverStolen(seconds, states, labels, i, j, p, a, u);
      assert false;
    }
  }

  /** The end of a lease only moves forward as long as nobody releases the partition. */
  lemma {:induction false} LeaseEndGrows(
    seconds: nat, states: seq<State>, labels: seq<Label>, i: nat, j: nat, p: PartitionId)
    requires Run(seconds, states, labels) && i <= j < |states|
    requires p in states[i].rows && states[i].rows[p].owner.Some?
    requires forall k :: i <= k <= j ==> p in states[k].rows && states[k].rows[p].owner.Some?
    ensures states[i].rows[p].until.Some? && states[j].rows[p].until.Some?
    ensures states[i].rows[p].until.value <= states[j].rows[p].until.value
    decreases j
  {
    ReachableIsOk(seconds, states, labels, i);
    assert RowOk(seconds, states[i], p);
    if i < j {
      LeaseEndGrows(seconds, states, labels, i, j - 1, p);
      ReachableIsOk(seconds, states, labels, j - 1);
      ReachableIsOk(seconds, states, labels, j);
      assert StepAt(seconds, states, labels, j - 1);
      var row := states[j - 1].rows[p];
      StepRespectsLease(seconds, states[j - 1], labels[j - 1], states[j], p, row.owner.value, row.until.value);
      assert RowOk(seconds, states[j], p);
    }
  }

  /** The step commits a claim of `p` by `w`: it takes a partition the worker did not own. */
  predicate ClaimsBy(s: State, l: Label, w: WorkerId, p: PartitionId) {
    && l == Commit(w) && w in s.sessions && p in s.sessions[w].writes && p in s.rows
    && s.sessions[w].writes[p].owner == Some(w) && s.rows[p].owner != Some(w)
  }

  ghost predicate FreeBetween(states: seq<State>, i: nat, j: nat, p: PartitionId)
    requires j < |states|
  {
    exists k :: i <= k <= j && p in states[k].rows && states[k].rows[p].owner.None?
  }

  lemma {:induction false} RowsStay(seconds: nat, states: seq<State>, labels: seq<Label>, i: nat, j: nat,
                                    p: PartitionId)
    requires Run(seconds, states, labels) && i <= j < |states| && p in states[i].rows
    ensures p in states[j].rows
    decreases j
  {
    if i < j {
      RowsStay(seconds, states, labels, i, j - 1, p);
      assert StepAt(seconds, states, labels, j - 1);
    }
  }

  /** If two workers both commit a claim of one partition, it was free in between, or the lease
      given by the first claim had lapsed before the second one's transaction began. */
  lemma ClaimsTakeTurns(seconds: nat, states: seq<State>, labels: seq<Label>, i: nat, j: nat, p: PartitionId,
                        v: WorkerId, w: WorkerId)
    requires Run(seconds, states, labels) && i < j < |labels|
    requires ClaimsBy(states[i], labels[i], v, p) && ClaimsBy(states[j], labels[j], w, p)
    ensures || FreeBetween(states, i + 1, j, p)
            || states[i].sessions[v].start + seconds <= states[j].sessions[w].start
  {
    ReachableIsOk(seconds, states, labels, i);
    ReachableIsOk(seconds, states, labels, j);
    assert StepAt(seconds, states, labels, i);
    assert WriteOk(seconds, states[i], v, p) && WriteOk(seconds, states[j], w, p);
    if !FreeBetween(states, i + 1, j, p) {
      forall k | i + 1 <= k <= j ensures p in states[k].rows && states[k].rows[p].owner.Some? {
        RowsStay(seconds, states, labels, i + 1, k, p);
      }
      LeaseEndGrows(seconds, states, labels, i + 1, j, p);
    }
  }

  /** Worker `v` commits a claim of `p` at step `i` after at most `open` seconds, in a transaction
      that overlaps one of `w`, which is still open at step `j`, and `p` is not free in between. */
  ghost predicate Overlap(seconds: nat, open: int, states: seq<State>, labels: seq<Label>, i: nat, j: nat,
                          p: PartitionId, v: WorkerId, w: WorkerId)
  {
    && Run(seconds, states, labels) && i < j < |labels|
    && ClaimsBy(states[i], labels[i], v, p) && states[i].wall - states[i].sessions[v].start <= open
    && w in states[i].sessions && w in states[j].sessions
    && states[j].sessions[w].start == states[i].sessions[w].start
    && !FreeBetween(states, i + 1, j, p)
  }

  /** Transactions that overlap do not both commit a claim of one partition, if the first was open
      for less than the lease it wrote. */
  lemma ClaimsAreDisjoint(seconds: nat, open: int, states: seq<State>, labels: seq<Label>, i: nat, j: nat,
                          p: PartitionId, v: WorkerId, w: WorkerId)
    requires Overlap(seconds, open, states, labels, i, j, p, v, w) && open < seconds
    ensures !ClaimsBy(states[j], labels[j], w, p)
  {
    ReachableIsOk(seconds, states, labels, i);
    if ClaimsBy(states[j], labels[j], w, p) {
      ClaimsTakeTurns(seconds, states, labels, i, j, p, v, w);
      assert false;
    }
  }

  /** Open for exactly as long as the lease it writes, a transaction commits a claim under one that
      overlaps it: the lease has lapsed by the time it is written. */
  lemma SlowClaimIsTakenOver(seconds: nat, v: WorkerId, w: WorkerId) returns (states: seq<State>, labels: seq<Label>)
    requires v != w
    ensures Overlap(seconds, seconds, states, labels, 4, 6, 0, v, w) && ClaimsBy(states[6], labels[6], w, 0)
  {
    labels := [Begin(v), ClaimRow(v, 0), Tick(seconds), Begin(w), Commit(v), ClaimRow(w, 0), Commit(w)];
    var free := map[0 := Free];
    var ours, theirs := Row(Some(v), Some(seconds)), Row(Some(w), Some(seconds + seconds));
    var a := State(0, free, map[]);
    var b := State(0, free, map[v := Session(0, map[])]);
    var c := State(0, free, map[v := Session(0, map[0 := ours])]);
    var d := State(seconds, free, map[v := Session(0, map[0 := ours])]);
    var e := State(seconds, free, map[v := Session(0, map[0 := ours]), w := Session(seconds, map[])]);
    var f := State(seconds, map[0 := ours], map[w := Session(seconds, map[])]);
    var g := State(seconds, map[0 := ours], map[w := Session(seconds, map[0 := theirs])]);
    var h := State(seconds, map[0 := theirs], map[]);
    states := [a, b, c, d, e, f, g, h];
    assert e.sessions - {v} == f.sessions && g.sessions - {w} == h.sessions;
    assert e.rows + e.sessions[v].writes == f.rows && g.rows + g.sessions[w].writes == h.rows;
    forall i | 0 <= i < 7 ensures StepAt(seconds, states, labels, i) {
    }
  }

  ghost predicate Disjoint(seconds: nat, open: int, states: seq<State>, labels: seq<Label>, i: nat, j: nat,
                           p: PartitionId, v: WorkerId, w: WorkerId)
  {
    Overlap(seconds, open, states, labels, i, j, p, v, w) ==> !ClaimsBy(states[j], labels[j], w, p)
  }

  /** Whatever the interleaving, overlapping transactions do not both commit a claim of one
      partition that was not free in between, exactly if each is open for less than a lease lasts. */
  lemma DisjointExactly(seconds: nat, open: int, v: WorkerId, w: WorkerId)
    requires v != w
    ensures (forall states, labels, i, j, p {:trigger Disjoint(seconds, open, states, labels, i, j, p, v, w)} ::
               Disjoint(seconds, open, states, labels, i, j, p, v, w)) <==> open < seconds
  {
    if open < seconds {
      forall states, labels, i, j, p ensures Disjoint(seconds, open, states, labels, i, j, p, v, w) {
        if Overlap(seconds, open, states, labels, i, j, p, v, w) {
          ClaimsAreDisjoint(seconds, open, states, labels, i, j, p, v, w);
        }
      }
    } else {
      var states, labels := SlowClaimIsTakenOver(seconds, v, w);
      assert !Disjoint(seconds, open, states, labels, 4, 6, 0, v, w);
    }
  }
}
