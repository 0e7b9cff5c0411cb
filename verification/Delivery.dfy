/** What the outbox guarantees when every outcome is written by the dispatcher that still holds
    the claim: one claim at a time, a bounded number of attempts, and final outcomes. */
module Delivery {
  import opened Sql
  import opened Schema
  import opened Claiming
  import opened Outbox
  import Backoff

  predicate HoldsClaim(s: State, sid: SessionId, e: EventId) {
    Holds(s, sid, e) && s.rows[e].status.InProgress? && s.rows[e].lockedBy == Some(s.sessions[sid].name)
  }

  /** The hypothesis: dispatchers running at the same time have different ids, a claim takes due
      events only, and an outcome or a release comes from the holder of the claim. */
  predicate Guarded(s: State, l: Label) {
    match l
    case Start(sid, name) => forall o :: o in s.sessions ==> s.sessions[o].name != name
    case Claim(sid, now, taken) => forall e :: e in taken && e in s.rows ==> Due(s.rows[e], now)
    case Deliver(sid, e, now) => HoldsClaim(s, sid, e)
    case FailAttempt(sid, e, now, backoff) => HoldsClaim(s, sid, e)
    case Release(sid, e, now) => HoldsClaim(s, sid, e)
    case _ => true
  }

  ghost predicate GuardedAt(states: seq<State>, labels: seq<Label>, i: int)
    requires |states| == |labels| + 1 && 0 <= i < |labels|
  {
    Guarded(states[i], labels[i])
  }

  ghost predicate GuardedRun(cfg: Settings, states: seq<State>, labels: seq<Label>) {
    && Run(cfg, states, labels)
    && forall i {:trigger GuardedAt(states, labels, i)} :: 0 <= i < |labels| ==> GuardedAt(states, labels, i)
  }

  /** At least one attempt is always made. */
  function Most(cfg: Settings): int {
    if cfg.maxAttempts > 1 then cfg.maxAttempts else 1
  }

  predicate Counted(cfg: Settings, s: State, e: EventId)
    requires e in s.rows
  {
    var row := s.rows[e];
    match row.status
    case Delivered => 1 <= row.attempts <= Most(cfg)
    case Failed => row.attempts == Most(cfg)
    case _ => 0 <= row.attempts < Most(cfg)
  }

  /** The holder of a claim knows the row's number of attempts. */
  predicate Current(s: State, sid: SessionId, e: EventId) {
    HoldsClaim(s, sid, e) ==> s.sessions[sid].held[e] == s.rows[e].attempts
  }

  ghost predicate Tight(cfg: Settings, s: State) {
    && Inv(s)
    && (forall e {:trigger Counted(cfg, s, e)} :: e in s.rows ==> Counted(cfg, s, e))
    && (forall sid, e {:trigger Current(s, sid, e)} :: Current(s, sid, e))
    && (forall a, b :: a in s.sessions && b in s.sessions && a != b ==> s.sessions[a].name != s.sessions[b].name)
  }

  lemma StepCounted(cfg: Settings, s: State, l: Label, s': State, e: EventId)
    requires Tight(cfg, s) && Next(cfg, s, l, s') && Guarded(s, l) && e in s'.rows
    ensures Counted(cfg, s', e)
  {
    assert e in s.rows ==> Counted(cfg, s, e);
    if l.Deliver? || l.FailAttempt? {
      assert Current(s, l.sid, l.e);
    }
  }

  lemma StepCurrent(cfg: Settings, s: State, l: Label, s': State, sid: SessionId, e: EventId)
    requires Tight(cfg, s) && Next(cfg, s, l, s') && Guarded(s, l)
    ensures Current(s', sid, e)
  {
    assert Current(s, sid, e);
  }

  lemma StepTight(cfg: Settings, s: State, l: Label, s': State)
    requires Tight(cfg, s) && Next(cfg, s, l, s') && Guarded(s, l)
    ensures Tight(cfg, s')
  {
    NextKeeps(cfg, s, l, s');
    forall e | e in s'.rows ensures Counted(cfg, s', e) {
      StepCounted(cfg, s, l, s', e);
    }
    forall sid, e ensures Current(s', sid, e) {
      StepCurrent(cfg, s, l, s', sid, e);
    }
  }

  lemma {:induction false} ReachableIsTight(cfg: Settings, states: seq<State>, labels: seq<Label>, i: nat)
    requires GuardedRun(cfg, states, labels) && i < |states|
    ensures Tight(cfg, states[i])
  {
    if i > 0 {
      ReachableIsTight(cfg, states, labels, i - 1);
      assert StepAt(cfg, states, labels, i - 1) && GuardedAt(states, labels, i - 1);
      StepTight(cfg, states[i - 1], labels[i - 1], states[i]);
    }
  }

  lemma GuardedPrefix(cfg: Settings, states: seq<State>, labels: seq<Label>, n: nat)
    requires GuardedRun(cfg, states, labels) && n <= |labels|
    ensures GuardedRun(cfg, states[..n + 1], labels[..n])
  {
    Prefix(cfg, states, labels, n);
    var first, steps := states[..n + 1], labels[..n];
    forall i | 0 <= i < n ensures GuardedAt(first, steps, i) {
      assert GuardedAt(states, labels, i);
    }
  }

  /** A live claim is exclusive: while the lock has not lapsed at the time of anyone's claim,
      its holder keeps it whatever the others do, and so meets the hypothesis itself. */
  lemma ClaimIsExclusive(cfg: Settings, s: State, l: Label, s': State, sid: SessionId, e: EventId)
    requires Tight(cfg, s) && Next(cfg, s, l, s') && Guarded(s, l) && HoldsClaim(s, sid, e)
    requires l.Publish? || l.sid != sid
    requires l.Claim? && s.rows[e].lockedUntil.Some? ==> l.now < s.rows[e].lockedUntil.value
    ensures HoldsClaim(s', sid, e) && s'.rows[e] == s.rows[e]
  {
    assert RowOk(s, e);
  }

  /** Delivered and failed are final, in the event's row and in its match. */
  lemma {:induction false} OutcomeIsFinal(cfg: Settings, states: seq<State>, labels: seq<Label>, i: nat, j: nat,
                                          e: EventId)
    requires GuardedRun(cfg, states, labels) && i <= j < |states| && e in states[i].rows && states[i].rows[e].Settled()
    ensures e in states[j].rows && states[j].rows[e] == states[i].rows[e]
    ensures var m := states[i].rows[e].matchId;
            m in states[i].matches && m in states[j].matches && states[j].matches[m] == states[i].matches[m]
    decreases j
  {
    ReachableIsTight(cfg, states, labels, i);
    assert RowOk(states[i], e);
    if i < j {
      OutcomeIsFinal(cfg, states, labels, i, j - 1, e);
      assert StepAt(cfg, states, labels, j - 1) && GuardedAt(states, labels, j - 1);
      ReachableIsTight(cfg, states, labels, j - 1);
      assert RowOk(states[j - 1], e);
    }
  }

  /** An event is attempted at most the maximum number of times; it is settled once it has been,
      and failed only then. */
  lemma AttemptsAreBounded(cfg: Settings, states: seq<State>, labels: seq<Label>, e: EventId)
    requires GuardedRun(cfg, states, labels) && e in states[|labels|].rows
    ensures Outcomes(labels, e) <= Most(cfg)
    ensures Outcomes(labels, e) == Most(cfg) ==> states[|labels|].rows[e].Settled()
    ensures states[|labels|].rows[e].status.Failed? ==> Outcomes(labels, e) == Most(cfg)
  {
    AttemptsCountOutcomes(cfg, states, labels, e);
    ReachableIsTight(cfg, states, labels, |labels|);
    assert Counted(cfg, states[|labels|], e);
  }

  /** The delay that a step schedules for the event, if it records a failure before the last. */
  function Delay(cfg: Settings, s: State, l: Label, e: EventId): seq<nat> {
    if l.FailAttempt? && l.e == e && Holds(s, l.sid, e) && !Final(cfg, s, l.sid, e) then [l.backoff] else []
  }

  /** The delays scheduled after the failures of an event. */
  function Delays(cfg: Settings, states: seq<State>, labels: seq<Label>, e: EventId): seq<nat>
    requires |states| == |labels| + 1
  {
    if labels == [] then []
    else
      var k := |labels| - 1;
      Delays(cfg, states[..|labels|], labels[..k], e) + Delay(cfg, states[k], labels[k], e)
  }

  /** Nothing is recorded for the event from step `i` up to step `j`. */
  ghost predicate NoOutcome(labels: seq<Label>, e: EventId, i: int, j: int) {
    forall k :: i <= k < j && 0 <= k < |labels| ==> !Outcome(labels[k], e)
  }

  /** Step `i` records a failure of the event that is not the last allowed. */
  predicate Retried(cfg: Settings, states: seq<State>, labels: seq<Label>, e: EventId, i: int)
    requires |states| == |labels| + 1 && 0 <= i < |labels|
  {
    && labels[i].FailAttempt? && labels[i].e == e
    && Holds(states[i], labels[i].sid, e) && states[i].sessions[labels[i].sid].held[e] + 1 < cfg.maxAttempts
  }

  /** The delay chosen for a retry is kept: until its next outcome the event is not due before the
      delay is over, whatever the dispatchers do. */
  lemma {:induction false} RetryWaits(cfg: Settings, states: seq<State>, labels: seq<Label>, e: EventId, i: nat,
                                      j: nat)
    requires Run(cfg, states, labels) && i < j < |states| && Retried(cfg, states, labels, e, i)
    requires NoOutcome(labels, e, i + 1, j)
    ensures e in states[j].rows && states[j].rows[e].nextAttemptAt == labels[i].now + labels[i].backoff
    ensures forall now :: Due(states[j].rows[e], now) ==> now >= labels[i].now + labels[i].backoff
    decreases j
  {
    assert StepAt(cfg, states, labels, j - 1);
    if i + 1 < j {
      RetryWaits(cfg, states, labels, e, i, j - 1);
      assert !Outcome(labels[j - 1], e);
    }
  }

  /** So no claim that takes due events only takes it earlier. */
  lemma NotClaimedEarlier(cfg: Settings, states: seq<State>, labels: seq<Label>, e: EventId, i: nat, j: nat)
    requires Run(cfg, states, labels) && i < j < |labels| && Retried(cfg, states, labels, e, i)
    requires NoOutcome(labels, e, i + 1, j) && Guarded(states[j], labels[j])
    ensures labels[j].Claim? && e in labels[j].taken ==> labels[j].now >= labels[i].now + labels[i].backoff
  {
    RetryWaits(cfg, states, labels, e, i, j);
  }

  /** Between a failure before the last and a state in which the event is in progress, somebody has
      claimed it. */
  lemma {:induction false} ClaimedBetween(cfg: Settings, states: seq<State>, labels: seq<Label>, e: EventId, i: nat,
                                          j: nat)
    returns (k: nat)
    requires Run(cfg, states, labels) && i < j < |states| && Retried(cfg, states, labels, e, i)
    requires NoOutcome(labels, e, i + 1, j) && e in states[j].rows && states[j].rows[e].status.InProgress?
    ensures i < k < j && labels[k].Claim? && e in labels[k].taken
    decreases j
  {
    k := j - 1;
    assert StepAt(cfg, states, labels, k);
    if !(labels[k].Claim? && e in labels[k].taken) {
      k := ClaimedBetween(cfg, states, labels, e, i, j - 1);
    }
  }

  /** Under the hypothesis the event is claimed again before its next outcome, and only when the
      delay is over. */
  lemma ClaimedAfterDelay(cfg: Settings, states: seq<State>, labels: seq<Label>, e: EventId, i: nat, j: nat)
    returns (k: nat)
    requires GuardedRun(cfg, states, labels) && i < j < |labels| && Retried(cfg, states, labels, e, i)
    requires NoOutcome(labels, e, i + 1, j) && Outcome(labels[j], e)
    ensures i < k < j && labels[k].Claim? && e in labels[k].taken && labels[k].now >= labels[i].now + labels[i].backoff
  {
    assert GuardedAt(states, labels, j);
    k := ClaimedBetween(cfg, states, labels, e, i, j);
    assert GuardedAt(states, labels, k);
    NotClaimedEarlier(cfg, states, labels, e, i, k);
  }

  /** How many retries the event's row has behind it. */
  function Retries(s: State, e: EventId): int {
    if e !in s.rows then 0 else s.rows[e].attempts - if s.rows[e].Settled() then 1 else 0
  }

  /** A step that schedules a delay adds a retry, with the delay that is due for it. */
  lemma StepDelays(cfg: Settings, s: State, l: Label, s': State, e: EventId)
    requires Tight(cfg, s) && Next(cfg, s, l, s') && Guarded(s, l)
    ensures var d := Delay(cfg, s, l, e);
            && Retries(s', e) == Retries(s, e) + |d|
            && (|d| > 0 ==>
                  var least := Backoff.Capped(Retries(s, e) + 1, cfg.backoff);
                  least <= d[0] <= least + cfg.backoff.jitter)
  {
    if l.FailAttempt? {
      assert Current(s, l.sid, l.e);
    }
  }

  /** The n-th retry of an event is scheduled with the delay of the n-th failure. */
  lemma {:induction false} DelaysAreChosen(cfg: Settings, states: seq<State>, labels: seq<Label>, e: EventId)
    requires GuardedRun(cfg, states, labels)
    ensures Backoff.Chosen(Delays(cfg, states, labels, e), cfg.backoff)
    ensures |Delays(cfg, states, labels, e)| == Retries(states[|labels|], e)
  {
    if labels != [] {
      var k := |labels| - 1;
      GuardedPrefix(cfg, states, labels, k);
      DelaysAreChosen(cfg, states[..k + 1], labels[..k], e);
      assert StepAt(cfg, states, labels, k) && GuardedAt(states, labels, k);
      ReachableIsTight(cfg, states, labels, k);
      StepDelays(cfg, states[k], labels[k], states[k + 1], e);
    }
  }

  lemma DelaysAreFew(cfg: Settings, states: seq<State>, labels: seq<Label>, e: EventId)
    requires GuardedRun(cfg, states, labels) && e in states[|labels|].rows
    ensures Backoff.Chosen(Delays(cfg, states, labels, e), cfg.backoff)
    ensures |Delays(cfg, states, labels, e)| <= Most(cfg) - 1
  {
    DelaysAreChosen(cfg, states, labels, e);
    ReachableIsTight(cfg, states, labels, |labels|);
    assert Counted(cfg, states[|labels|], e);
  }

  /** Over a whole run, an event that keeps failing waits no longer than its retries allow. */
  lemma TotalDelayIsBounded(cfg: Settings, states: seq<State>, labels: seq<Label>, e: EventId)
    requires GuardedRun(cfg, states, labels) && e in states[|labels|].rows
    ensures Backoff.Sum(Delays(cfg, states, labels, e)) <= Backoff.LongestWait(Most(cfg) - 1, cfg.backoff)
  {
    DelaysAreFew(cfg, states, labels, e);
    Backoff.AtMostRetries(Delays(cfg, states, labels, e), Most(cfg) - 1, cfg.backoff);
  }
}
