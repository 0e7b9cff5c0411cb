/** When dispatchers meet the hypothesis of `Delivery`: each writes an event once per claim, and
    before its own lock on it has lapsed. */
module Timeliness {
  import opened Sql
  import opened Schema
  import opened Claiming
  import opened Outbox
  import opened Delivery

  predicate Timed(l: Label) {
    l.Publish? || l.Claim? || l.Deliver? || l.FailAttempt? || l.Release?
  }

  /** Statements are executed in the order of their times. */
  ghost predicate InOrder(labels: seq<Label>) {
    forall i, j :: 0 <= i < j < |labels| && Timed(labels[i]) && Timed(labels[j]) ==> labels[i].now <= labels[j].now
  }

  predicate WritesBack(l: Label) {
    l.Deliver? || l.FailAttempt? || l.Release?
  }

  /** What a step makes of the deadline that dispatcher `sid` has for event `e`. */
  function DeadlineAfter(cfg: Settings, before: Option<int>, l: Label, sid: SessionId, e: EventId): Option<int> {
    if l.Publish? || l.sid != sid then before
    else if l.Claim? then if e in l.taken then Some(l.now + cfg.timeout) else None
    else if WritesBack(l) then if l.e == e then None else before
    else None
  }

  /** When the lock that dispatcher `sid` took on the event in its last claim lapses; none if it did
      not take the event, or has written it back since. */
  function Deadline(cfg: Settings, labels: seq<Label>, sid: SessionId, e: EventId): Option<int> {
    if labels == [] then None
    else DeadlineAfter(cfg, Deadline(cfg, labels[..|labels| - 1], sid, e), labels[|labels| - 1], sid, e)
  }

  /** A dispatcher starts under an id of its own, claims due events, and writes an event back at
      most once per claim and before its lock has lapsed. */
  ghost predicate TimelyAt(cfg: Settings, states: seq<State>, labels: seq<Label>, k: int)
    requires |states| == |labels| + 1 && 0 <= k < |labels|
  {
    var l := labels[k];
    if WritesBack(l)
    then
      var d := Deadline(cfg, labels[..k], l.sid, l.e);
      d.Some? && l.now < d.value
    else Guarded(states[k], l)
  }

  ghost predicate TimelyRun(cfg: Settings, states: seq<State>, labels: seq<Label>) {
    && Run(cfg, states, labels) && InOrder(labels)
    && forall k {:trigger TimelyAt(cfg, states, labels, k)} :: 0 <= k < |labels| ==> TimelyAt(cfg, states, labels, k)
  }

  /** A claim made at `d` or later is among the steps. */
  ghost predicate ClaimedSince(labels: seq<Label>, d: int) {
    exists i :: 0 <= i < |labels| && labels[i].Claim? && labels[i].now >= d
  }

  ghost predicate Locked(s: State, sid: SessionId, e: EventId, d: int) {
    HoldsClaim(s, sid, e) && s.rows[e].lockedUntil == Some(d)
  }

  /** Only a claim after the lock has lapsed takes the event from the dispatcher. */
  lemma StaysLocked(cfg: Settings, s: State, l: Label, s': State, sid: SessionId, e: EventId, d: int)
    requires Tight(cfg, s) && Next(cfg, s, l, s') && Guarded(s, l) && Locked(s, sid, e, d)
    requires l.Publish? || l.sid != sid || (WritesBack(l) && l.e != e)
    ensures Locked(s', sid, e, d) || (l.Claim? && l.now >= d)
  {
    assert RowOk(s, e);
  }

  lemma {:induction false} HeldUntilDeadline(cfg: Settings, states: seq<State>, labels: seq<Label>,
                                             sid: SessionId, e: EventId)
    requires GuardedRun(cfg, states, labels)
    requires Deadline(cfg, labels, sid, e).Some?
    ensures var d := Deadline(cfg, labels, sid, e).value; Locked(states[|labels|], sid, e, d) || ClaimedSince(labels, d)
  {
    var k := |labels| - 1;
    var l, d := labels[k], Deadline(cfg, labels, sid, e).value;
    assert StepAt(cfg, states, labels, k) && GuardedAt(states, labels, k);
    ReachableIsTight(cfg, states, labels, k);
    if l.Publish? || l.sid != sid || !l.Claim? {
      GuardedPrefix(cfg, states, labels, k);
      HeldUntilDeadline(cfg, states[..k + 1], labels[..k], sid, e);
      if Locked(states[k], sid, e, d) {
        StaysLocked(cfg, states[k], l, states[k + 1], sid, e, d);
      } else {
        var i :| 0 <= i < k && labels[..k][i].Claim? && labels[..k][i].now >= d;
        assert labels[i].Claim?;
      }
    }
  }

  lemma NobodyClaimedSince(labels: seq<Label>, k: nat, d: int)
    requires InOrder(labels) && k < |labels| && Timed(labels[k]) && labels[k].now < d
    ensures !ClaimedSince(labels[..k], d)
  {
    forall i | 0 <= i < k && labels[..k][i].Claim? ensures labels[..k][i].now < d {
      assert Timed(labels[i]);
    }
  }

  lemma NextIsGuarded(cfg: Settings, states: seq<State>, labels: seq<Label>, k: nat)
    requires TimelyRun(cfg, states, labels) && k < |labels|
    requires GuardedRun(cfg, states[..k + 1], labels[..k])
    ensures Guarded(states[k], labels[k])
  {
    assert TimelyAt(cfg, states, labels, k);
    var l := labels[k];
    if WritesBack(l) {
      HeldUntilDeadline(cfg, states[..k + 1], labels[..k], l.sid, l.e);
      NobodyClaimedSince(labels, k, Deadline(cfg, labels[..k], l.sid, l.e).value);
    }
  }

  lemma {:induction false} GuardedUpTo(cfg: Settings, states: seq<State>, labels: seq<Label>, n: nat)
    requires TimelyRun(cfg, states, labels) && n <= |labels|
    ensures GuardedRun(cfg, states[..n + 1], labels[..n])
  {
    Prefix(cfg, states, labels, n);
    if n > 0 {
      GuardedUpTo(cfg, states, labels, n - 1);
      NextIsGuarded(cfg, states, labels, n - 1);
      var before, steps := states[..n], labels[..n - 1];
      var before', steps' := states[..n + 1], labels[..n];
      forall i | 0 <= i < n ensures GuardedAt(before', steps', i) {
        assert i < n - 1 ==> GuardedAt(before, steps, i);
      }
    }
  }

  /** Dispatchers that write back in time hold their claims when they do: the hypothesis of
      `Delivery` holds in every such run. */
  lemma TimelyIsGuarded(cfg: Settings, states: seq<State>, labels: seq<Label>)
    requires TimelyRun(cfg, states, labels)
    ensures GuardedRun(cfg, states, labels)
  {
    GuardedUpTo(cfg, states, labels, |labels|);
    assert states[..|labels| + 1] == states && labels[..|labels|] == labels;
  }

  /** The delays of `Delivery.TotalDelayIsBounded` are really waited: with statements executed in the
      order of their times, an event's next outcome comes no earlier than its delay allows. */
  lemma OutcomesAreApart(cfg: Settings, states: seq<State>, labels: seq<Label>, e: EventId, i: nat, j: nat)
    requires GuardedRun(cfg, states, labels) && InOrder(labels) && i < j < |labels|
    requires Retried(cfg, states, labels, e, i) && NoOutcome(labels, e, i + 1, j) && Outcome(labels[j], e)
    ensures labels[j].now >= labels[i].now + labels[i].backoff
  {
    var k := ClaimedAfterDelay(cfg, states, labels, e, i, j);
    assert Timed(labels[k]) && Timed(labels[j]);
  }
}
