/** The two-ended ticket batch of app/worker/matching.py: half newest, half oldest.  Each
    query sees its own snapshot of the waiting tickets. */
module Fetch {
  import opened Sql
  import opened Pairing

  /** What one query sees: the waiting tickets, with `ticket_id` a primary key. */
  type Snapshot = set<WaitingTicket>

  ghost predicate PrimaryKey(rows: Snapshot) {
    forall a, b :: a in rows && b in rows && a.ticketId == b.ticketId ==> a == b
  }

  ghost predicate DistinctTimes(rows: Snapshot) {
    forall a, b :: a in rows && b in rows && a.createdAt == b.createdAt ==> a == b
  }

  /** The WHERE clause of the fetch. */
  function Selected(rows: Snapshot, partitions: set<int>, maxWait: Option<int>, now: int): (s: Snapshot)
    ensures s <= rows
  {
    set t | t in rows && t.partitionId in partitions && (maxWait.Some? ==> t.createdAt >= now - maxWait.value)
  }

  function Order(newestFirst: bool): WaitingTicket -> Key {
    (t: WaitingTicket) => Key(if newestFirst then -t.createdAt else t.createdAt, 0)
  }

  /** An answer to one ordered query; a limit of zero or less skips the query. */
  ghost predicate OrderedAnswer(rows: Snapshot, newestFirst: bool, limit: int, out: seq<WaitingTicket>) {
    IsTop(rows, Order(newestFirst), if limit <= 0 then 0 else limit, out)
  }

  predicate Wanted(t: WaitingTicket, partitions: set<int>, maxWait: Option<int>, now: int) {
    t.partitionId in partitions && (maxWait.Some? ==> now - t.createdAt <= maxWait.value)
  }

  predicate NoLater(newestFirst: bool, a: WaitingTicket, b: WaitingTicket) {
    if newestFirst then a.createdAt >= b.createdAt else a.createdAt <= b.createdAt
  }

  lemma AnswerIsOrdered(rows: Snapshot, newestFirst: bool, limit: int, out: seq<WaitingTicket>)
    requires OrderedAnswer(rows, newestFirst, limit, out)
    ensures forall t :: t in out ==> t in rows
    ensures |out| < limit ==> forall t :: t in rows ==> t in out
    ensures forall i, j :: 0 <= i < j < |out| ==> NoLater(newestFirst, out[i], out[j])
    ensures forall t, u :: t in out && u in rows && u !in out ==> NoLater(newestFirst, t, u)
  {
    var key := Order(newestFirst);
    forall t ensures t in out <==> t in Elements(out) {
    }
    if |out| < limit {
      DistinctCount(out);
      SubsetCount(Elements(out), rows);
    }
    forall i, j | 0 <= i < j < |out| ensures NoLater(newestFirst, out[i], out[j]) {
      assert key(out[i]).AtMost(key(out[j]));
    }
    forall t, u | t in out && u in rows && u !in out ensures NoLater(newestFirst, t, u) {
      var i :| 0 <= i < |out| && out[i] == t;
      assert key(out[i]).AtMost(key(u));
    }
  }

  /** The tickets of the partitions, not too old, in the order asked for; one is left out only for the
      limit, and then comes after those returned. */
  method FetchTicketsOrdered(rows: Snapshot, partitions: set<int>, limit: int, newestFirst: bool,
                             maxWait: Option<int>, now: int) returns (out: seq<WaitingTicket>)
    ensures OrderedAnswer(Selected(rows, partitions, maxWait, now), newestFirst, limit, out)
    ensures forall t :: t in out ==> t in rows && Wanted(t, partitions, maxWait, now)
    ensures |out| <= if limit > 0 then limit else 0
    ensures |out| < limit ==> forall t :: t in rows && Wanted(t, partitions, maxWait, now) ==> t in out
    ensures forall i, j :: 0 <= i < j < |out| ==> NoLater(newestFirst, out[i], out[j])
    ensures forall t, u :: t in out && u in rows && Wanted(u, partitions, maxWait, now) && u !in out ==>
              NoLater(newestFirst, t, u)
  {
    ghost var selected := Selected(rows, partitions, maxWait, now);
    assert forall t :: t in rows && Wanted(t, partitions, maxWait, now) <==> t in selected;
    if limit <= 0 {
      return [];
    }
    out := OrderByLimit(Selected(rows, partitions, maxWait, now), Order(newestFirst), limit);
    AnswerIsOrdered(selected, newestFirst, limit, out);
  }

  /** Drop from `oldest` the tickets whose id is among `seen`. */
  function Unseen(oldest: seq<WaitingTicket>, seen: set<TicketId>): (kept: seq<WaitingTicket>)
    ensures forall t :: t in kept <==> t in oldest && t.ticketId !in seen
    ensures Distinct(oldest) ==> Distinct(kept)
  {
    if oldest == [] then []
    else
      var kept := Unseen(oldest[..|oldest| - 1], seen);
      var last := oldest[|oldest| - 1];
      if last.ticketId in seen then kept else kept + [last]
  }

  function Ids(tickets: seq<WaitingTicket>): set<TicketId> {
    set t | t in tickets :: t.ticketId
  }

  function NewestShare(batch: int): int {
    (batch + 1) / 2
  }

  /** A two-ended batch put together from one answer at each end. */
  ghost predicate TwoEnded(newestRows: Snapshot, oldestRows: Snapshot, batch: int, out: seq<WaitingTicket>) {
    exists newest, oldest ::
      && OrderedAnswer(newestRows, true, NewestShare(batch), newest)
      && OrderedAnswer(oldestRows, false, batch - NewestShare(batch), oldest)
      && out == newest + Unseen(oldest, Ids(newest))
  }

  /** `first` and `second` are the snapshots of the two queries. */
  method FetchWaitingTickets(first: Snapshot, second: Snapshot, partitions: set<int>, batch: int,
                             freshnessBias: bool, maxWait: Option<int>, now: int) returns (tickets: seq<WaitingTicket>)
    ensures partitions == {} ==> tickets == []
    ensures partitions != {} && !freshnessBias ==>
              OrderedAnswer(Selected(first, partitions, maxWait, now), false, batch, tickets)
    ensures partitions != {} && freshnessBias ==>
              TwoEnded(Selected(first, partitions, maxWait, now), Selected(second, partitions, maxWait, now),
                       batch, tickets)
  {
    if partitions == {} {
      return [];
    }
    if !freshnessBias {
      tickets := FetchTicketsOrdered(first, partitions, batch, false, maxWait, now);
      return;
    }
    var newestLimit := (batch + 1) / 2;
    var oldestLimit := batch - newestLimit;
    var newest := FetchTicketsOrdered(first, partitions, newestLimit, true, maxWait, now);
    var oldest := FetchTicketsOrdered(second, partitions, oldestLimit, false, maxWait, now);
    tickets := newest + Unseen(oldest, Ids(newest));
  }

  /** Whatever the two snapshots, no ticket id comes back twice, every ticket was waiting in
      one of them, and the batch size is respected. */
  lemma BatchHasDistinctIds(a: Snapshot, b: Snapshot, batch: int, out: seq<WaitingTicket>)
    requires PrimaryKey(a) && PrimaryKey(b) && TwoEnded(a, b, batch, out)
    ensures forall i, j :: 0 <= i < j < |out| ==> out[i].ticketId != out[j].ticketId
    ensures forall t :: t in out ==> t in a || t in b
    ensures |out| <= if batch <= 0 then 0 else batch
  {
    var newest, oldest :|
      && OrderedAnswer(a, true, NewestShare(batch), newest)
      && OrderedAnswer(b, false, batch - NewestShare(batch), oldest)
      && out == newest + Unseen(oldest, Ids(newest));
    var kept := Unseen(oldest, Ids(newest));
    forall i, j | 0 <= i < j < |out| ensures out[i].ticketId != out[j].ticketId {
      if j < |newest| {
        assert newest[i] in Elements(newest) && newest[j] in Elements(newest);
      } else if i >= |newest| {
        assert kept[i - |newest|] in Elements(oldest) && kept[j - |newest|] in Elements(oldest);
      } else {
        assert newest[i].ticketId in Ids(newest) && kept[j - |newest|] in kept;
      }
    }
    forall t | t in out ensures t in a || t in b {
      assert t in newest ==> t in Elements(newest);
      assert t in oldest ==> t in Elements(oldest);
    }
    DistinctCount(kept);
    DistinctCount(oldest);
    SubsetCount(Elements(kept), Elements(oldest));
  }

  /** The other tickets that are at least as far towards one end. */
  function Beyond(rows: Snapshot, newestFirst: bool, t: WaitingTicket): Snapshot {
    set u | u in rows && u != t && NoLater(newestFirst, u, t)
  }

  lemma FewBeyond(rows: Snapshot, newestFirst: bool, limit: int, out: seq<WaitingTicket>, t: WaitingTicket)
    requires OrderedAnswer(rows, newestFirst, limit, out) && t in rows && |Beyond(rows, newestFirst, t)| < limit
    ensures t in out
  {
    AnswerIsOrdered(rows, newestFirst, limit, out);
    if t !in out {
      DistinctCount(out);
      assert Elements(out) <= Beyond(rows, newestFirst, t);
      SubsetCount(Elements(out), Beyond(rows, newestFirst, t));
    }
  }

  /** Each end gets its half of the batch, the newest one more when it is odd. */
  lemma EachEndIsServed(a: Snapshot, b: Snapshot, batch: int, out: seq<WaitingTicket>)
    requires TwoEnded(a, b, batch, out)
    ensures forall t :: t in a && 2 * |Beyond(a, true, t)| < batch ==> t in out
    ensures forall t :: t in b && 2 * |Beyond(b, false, t)| < batch - 1 ==> t.ticketId in Ids(out)
  {
    var newest, oldest :|
      && OrderedAnswer(a, true, NewestShare(batch), newest)
      && OrderedAnswer(b, false, batch - NewestShare(batch), oldest)
      && out == newest + Unseen(oldest, Ids(newest));
    forall t | t in a && 2 * |Beyond(a, true, t)| < batch ensures t in out {
      FewBeyond(a, true, NewestShare(batch), newest, t);
    }
    forall t | t in b && 2 * |Beyond(b, false, t)| < batch - 1 ensures t.ticketId in Ids(out) {
      FewBeyond(b, false, batch - NewestShare(batch), oldest, t);
      if t.ticketId in Ids(newest) {
        var n :| n in newest && n.ticketId == t.ticketId;
        assert n in out;
      } else {
        assert t in Unseen(oldest, Ids(newest));
      }
    }
  }

  /** The tickets of a two-ended batch, as a set. */
  lemma BatchElements(newest: seq<WaitingTicket>, oldest: seq<WaitingTicket>, rows: Snapshot)
    requires PrimaryKey(rows) && Elements(newest) <= rows && Elements(oldest) <= rows
    ensures Elements(newest + Unseen(oldest, Ids(newest))) == Elements(newest) + Elements(oldest)
  {
    var out := newest + Unseen(oldest, Ids(newest));
    forall t | t in oldest ensures t in out {
      if t.ticketId in Ids(newest) {
        var n :| n in newest && n.ticketId == t.ticketId;
        assert n in Elements(newest) && t in Elements(oldest);
      }
    }
  }

  /** Over one snapshot with distinct creation times, removing duplicates never costs
      coverage: the batch holds exactly min(batch, waiting) tickets, all of them when they
      fit, and always the newest and (from a batch of two) the oldest. */
  lemma BatchCoverage(rows: Snapshot, batch: nat, out: seq<WaitingTicket>)
    requires PrimaryKey(rows) && DistinctTimes(rows) && TwoEnded(rows, rows, batch, out)
    ensures |out| == Min(batch, |rows|)
    ensures |rows| <= batch ==> Elements(out) == rows
    ensures batch >= 1 ==> forall t :: t in rows && (forall u :: u in rows ==> u.createdAt <= t.createdAt) ==> t in out
    ensures batch >= 2 ==> forall t :: t in rows && (forall u :: u in rows ==> u.createdAt >= t.createdAt) ==> t in out
  {
    var newest, oldest :|
      && OrderedAnswer(rows, true, NewestShare(batch), newest)
      && OrderedAnswer(rows, false, batch - NewestShare(batch), oldest)
      && out == newest + Unseen(oldest, Ids(newest));
    BatchElements(newest, oldest, rows);
    BatchHasDistinctIds(rows, rows, batch, out);
    EndsMeetOrCover(rows, batch, newest, oldest);
    EndsCount(rows, batch, newest, oldest, out);
    EndsStay(rows, batch, newest, oldest, out);
  }

  /** The newest and the oldest ticket are in the batch. */
  lemma EndsStay(rows: Snapshot, batch: nat, newest: seq<WaitingTicket>, oldest: seq<WaitingTicket>,
                 out: seq<WaitingTicket>)
    requires DistinctTimes(rows) && Elements(out) == Elements(newest) + Elements(oldest)
    requires OrderedAnswer(rows, true, NewestShare(batch), newest)
    requires OrderedAnswer(rows, false, batch - NewestShare(batch), oldest)
    ensures batch >= 1 ==> forall t :: t in rows && (forall u :: u in rows ==> u.createdAt <= t.createdAt) ==> t in out
    ensures batch >= 2 ==> forall t :: t in rows && (forall u :: u in rows ==> u.createdAt >= t.createdAt) ==> t in out
  {
    assert forall t :: t in newest || t in oldest ==> t in Elements(out);
    if batch >= 1 {
      EndIncluded(rows, true, NewestShare(batch), newest);
    }
    if batch >= 2 {
      EndIncluded(rows, false, batch - NewestShare(batch), oldest);
    }
  }

  /** Ends that cover the rows, or are full and disjoint, give the promised number. */
  lemma EndsCount(rows: Snapshot, batch: nat, newest: seq<WaitingTicket>, oldest: seq<WaitingTicket>,
                  out: seq<WaitingTicket>)
    requires Distinct(newest) && Distinct(oldest) && Distinct(out) && |out| <= batch
    requires Elements(out) == Elements(newest) + Elements(oldest) && Elements(out) <= rows
    requires Elements(newest) + Elements(oldest) == rows ||
             (Elements(newest) !! Elements(oldest) && |newest| + |oldest| == batch)
    ensures |out| == Min(batch, |rows|)
    ensures |rows| <= batch ==> Elements(out) == rows
  {
    DistinctCount(newest);
    DistinctCount(oldest);
    DistinctCount(out);
    SubsetCount(Elements(out), rows);
  }

  lemma EndIncluded(rows: Snapshot, newestFirst: bool, limit: nat, out: seq<WaitingTicket>)
    requires DistinctTimes(rows) && limit >= 1 && OrderedAnswer(rows, newestFirst, limit, out)
    ensures forall t :: t in rows && (forall u :: u in rows ==> Order(newestFirst)(t).AtMost(Order(newestFirst)(u))) ==>
              t in out
  {
    forall t | t in rows && (forall u :: u in rows ==> Order(newestFirst)(t).AtMost(Order(newestFirst)(u)))
      ensures t in out
    {
      Extreme(rows, newestFirst, limit, out, t);
    }
  }

  /** The extreme row is in every non-empty answer from its end. */
  lemma Extreme(rows: Snapshot, newestFirst: bool, limit: nat, out: seq<WaitingTicket>, t: WaitingTicket)
    requires DistinctTimes(rows) && limit >= 1 && OrderedAnswer(rows, newestFirst, limit, out)
    requires t in rows && forall u :: u in rows ==> Order(newestFirst)(t).AtMost(Order(newestFirst)(u))
    ensures t in out
  {
    SubsetCount({t}, rows);
    assert out[0] in Elements(out);
    var head := out[0];
    assert t !in out ==> Order(newestFirst)(out[0]).AtMost(Order(newestFirst)(t));
    assert head.createdAt == t.createdAt || t in out;
  }

  /** Either the two ends together reach every row, or both are full and do not overlap. */
  lemma EndsMeetOrCover(rows: Snapshot, batch: nat, newest: seq<WaitingTicket>, oldest: seq<WaitingTicket>)
    requires DistinctTimes(rows)
    requires OrderedAnswer(rows, true, NewestShare(batch), newest)
    requires OrderedAnswer(rows, false, batch - NewestShare(batch), oldest)
    ensures Elements(newest) + Elements(oldest) == rows ||
            (Elements(newest) !! Elements(oldest) && |newest| + |oldest| == batch)
  {
    if x :| x in rows && x !in newest && x !in oldest {
      DistinctCount(newest);
      DistinctCount(oldest);
      assert Elements(newest) != rows && Elements(oldest) != rows;
      SubsetCount(Elements(newest), rows);
      SubsetCount(Elements(oldest), rows);
      forall i | 0 <= i < |newest| ensures newest[i].createdAt >= x.createdAt {
        assert Order(true)(newest[i]).AtMost(Order(true)(x));
      }
      forall j | 0 <= j < |oldest| ensures oldest[j].createdAt <= x.createdAt {
        assert Order(false)(oldest[j]).AtMost(Order(false)(x));
      }
      forall y | y in Elements(newest) ensures y !in Elements(oldest) {
        if y in oldest {
          assert false;
        }
      }
    } else {
      forall x | x in rows ensures x in Elements(newest) + Elements(oldest) {
        assert x in newest || x in oldest;
      }
    }
  }
}
