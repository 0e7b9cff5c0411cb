/** The imperative code of the callback dispatcher, run against an outbox that other dispatchers
    and workers keep changing between any two of its statements. */
module Dispatcher {
  import opened Sql
  import opened Schema
  import opened Claiming
  import opened Outbox
  import opened OwnSteps
  import opened Environment
  import Backoff
  import Delivery
  import Timeliness

  predicate IsDelivery(l: Label, sid: SessionId, e: EventId, until: int) {
    l.Deliver? && l.sid == sid && l.e == e && l.now <= until
  }

  predicate IsFailure(l: Label, sid: SessionId, e: EventId, until: int) {
    l.FailAttempt? && l.sid == sid && l.e == e && l.now <= until
  }

  predicate IsRelease(l: Label, sid: SessionId, e: EventId, until: int) {
    l.Release? && l.sid == sid && l.e == e && l.now <= until
  }

  /** The outcome that the delivery's result asks for. */
  predicate IsOutcomeOf(l: Label, sid: SessionId, e: EventId, accepted: bool, until: int) {
    if accepted then IsDelivery(l, sid, e, until) else IsFailure(l, sid, e, until)
  }

  lemma ReturnedIsWorkedOff(sid: SessionId, e: EventId, accepted: bool, steps: seq<Label>, until: int)
    requires |steps| == 1 && IsOutcomeOf(steps[0], sid, e, accepted, until)
    ensures WorkedOff(sid, e, Back(accepted, steps, true, false), until)
  {
  }

  lemma RaisedIsWorkedOff(sid: SessionId, e: EventId, accepted: bool, steps: seq<Label>, last: seq<Label>, until: int)
    requires |steps| <= 1 && (|steps| == 1 ==> IsOutcomeOf(steps[0], sid, e, accepted, until))
    requires |last| <= 1 && (|last| == 1 ==> IsRelease(last[0], sid, e, until))
    ensures WorkedOff(sid, e, Back(accepted, steps + last, false, steps != []), until)
  {
  }

  /** What was posted, with the receiver's answers. */
  function Posted(events: seq<EventId>, backs: seq<Back>): seq<(EventId, bool)>
    requires |backs| <= |events|
  {
    seq(|backs|, k requires 0 <= k < |backs| => (events[k], backs[k].accepted))
  }

  lemma OneMorePost(before: seq<(EventId, bool)>, events: seq<EventId>, backs: seq<Back>, back: Back)
    requires |backs| < |events|
    ensures before + Posted(events, backs) + [(events[|backs|], back.accepted)] ==
            before + Posted(events, backs + [back])
  {
  }

  lemma Associative(before: seq<Label>, steps: seq<Label>, more: seq<Label>)
    ensures before + steps + more == before + (steps + more)
  {
  }

  /** Step `k` claims the given events, as an answer of the query on the rows just before it. */
  ghost predicate ClaimedAt(cfg: Settings, states: seq<State>, labels: seq<Label>, k: int, now: int,
                            taken: seq<EventId>)
  {
    && 0 <= k < |labels| < |states| && labels[k].Claim? && labels[k].now == now
    && labels[k].taken == Elements(taken) && ClaimTakes(states[k].rows, now, cfg.tenantLimit, cfg.batch, taken)
  }

  const DEADLOCK_MAX_RETRIES := 3

  /** How a statement's transaction ended.  A deadlock rolled it back; after any other error it
      may or may not have committed. */
  datatype Write = Written(final: bool) | Deadlock | Error

  /** How `persist_delivery_outcome` ended: it returned whether the event has finally failed, or
      it raised, after trying to give the claim back. */
  datatype Persisted = Returned(final: bool) | Raised(released: bool)

  class Queue {
    const cfg: Settings
    const deadlocks: Hazard
    const errors: Hazard
    var s: State
    ghost var labels: seq<Label>
    ghost var states: seq<State>

    ghost predicate Valid()
      reads this
    {
      Run(cfg, states, labels) && states[|labels|] == s && deadlocks != errors
    }

    constructor (cfg: Settings)
      ensures Valid() && this.cfg == cfg && labels == [] && s == Init
      ensures fresh(deadlocks) && fresh(errors) && deadlocks.hits == errors.hits == 0
    {
      this.cfg := cfg;
      deadlocks := new Hazard();
      errors := new Hazard();
      s := Init;
      labels := [];
      states := [Init];
    }

    /** The run recorded before is still the beginning of the run recorded now, and in between
        dispatcher `sid` took exactly the given steps, none of which claims. */
    twostate predicate Did(sid: SessionId, steps: seq<Label>)
      reads this
    {
      && Valid() && old(labels) <= labels && old(states) <= states && old(s).rows.Keys <= s.rows.Keys
      && sid in old(s).sessions && sid in s.sessions && s.sessions[sid] == old(s).sessions[sid]
      && Own(labels, sid) == Own(old(labels), sid) + steps
    }

    /** Take one step that is not the dispatcher's own claim, start or end. */
    method Perform(sid: SessionId, l: Label, after: State)
      requires Valid() && Next(cfg, s, l, after) && sid in s.sessions
      requires By(sid, l) ==> Timeliness.WritesBack(l)
      modifies this
      ensures Did(sid, if By(sid, l) then [l] else [])
      ensures s == after && labels == old(labels) + [l]
    {
      Extend(cfg, states, labels, l, after);
      OwnAppend(labels, l, sid);
      s := after;
      labels := labels + [l];
      states := states + [after];
    }

    /** Everybody else runs for a while. */
    method Others(sid: SessionId)
      requires Valid() && sid in s.sessions
      modifies this
      ensures Did(sid, [])
    {
      var steps: nat := *;
      while steps > 0
        invariant Did(sid, [])
      {
        var l: Label := *;
        var after: State := *;
        if !By(sid, l) && Next(cfg, s, l, after) {
          Perform(sid, l, after);
        }
        steps := steps - 1;
      }
    }

    /** The UPDATE of the claim. */
    method PerformClaim(sid: SessionId, now: int, taken: seq<EventId>)
      requires Valid() && sid in s.sessions && forall e :: e in taken ==> e in s.rows
      modifies this
      ensures Valid() && labels == old(labels) + [Claim(sid, now, Elements(taken))]
      ensures states == old(states) + [s] && s == AfterClaim(cfg, old(s), sid, now, Elements(taken))
      ensures Own(labels, sid) == Own(old(labels), sid) + [Claim(sid, now, Elements(taken))]
    {
      ghost var l := Claim(sid, now, Elements(taken));
      var after := AfterClaim(cfg, s, sid, now, Elements(taken));
      Extend(cfg, states, labels, l, after);
      OwnAppend(labels, l, sid);
      states := states + [after];
      labels := labels + [l];
      s := after;
    }

    /** `claim_callback_events`, committed: the last step is a claim of due events, answering the
        query on the rows just before it. */
    method ClaimCallbackEvents(sid: SessionId, now: int) returns (taken: seq<EventId>)
      requires Valid() && sid in s.sessions
      modifies this
      ensures Valid() && old(labels) < labels && old(states) < states && sid in s.sessions
      ensures Own(labels, sid) == Own(old(labels), sid) + [Claim(sid, now, Elements(taken))]
      ensures var before := states[|labels| - 1];
              && labels[|labels| - 1] == Claim(sid, now, Elements(taken))
              && ClaimTakes(before.rows, now, cfg.tenantLimit, cfg.batch, taken)
              && s.rows == Claimed(before.rows, Elements(taken), s.sessions[sid].name, now + cfg.timeout)
              && Delivery.Guarded(before, labels[|labels| - 1])
      ensures Distinct(taken) && forall e :: e in taken ==> Delivery.HoldsClaim(s, sid, e)
    {
      Others(sid);
      taken := SelectCandidates(s.rows, now, cfg.tenantLimit, cfg.batch);
      ClaimIsOfDue(s.rows, now, cfg.tenantLimit, cfg.batch, taken);
      PerformClaim(sid, now, taken);
    }

    /** How the next transaction ends. */
    method Fate() returns (w: Write)
      requires deadlocks != errors
      modifies deadlocks, errors
      ensures deadlocks.hits == old(deadlocks.hits) + if w.Deadlock? then 1 else 0
      ensures errors.hits == old(errors.hits) + if w.Error? then 1 else 0
      ensures w.Written? ==> !w.final
    {
      var deadlocked := deadlocks.Strikes();
      if deadlocked {
        return Deadlock;
      }
      var failed := errors.Strikes();
      w := if failed then Error else Written(false);
    }

    /** `mark_delivered`, done by `until`. */
    method MarkDelivered(sid: SessionId, e: EventId, until: int) returns (w: Write, ghost steps: seq<Label>)
      requires Valid() && Holds(s, sid, e)
      modifies this, deadlocks, errors
      ensures Did(sid, steps) && (steps == [] || (|steps| == 1 && IsDelivery(steps[0], sid, e, until)))
      ensures w.Deadlock? ==> steps == []
      ensures w.Written? ==>
                |steps| == 1 && !w.final && labels[|labels| - 1] == steps[0] && s.rows[e].status == Delivered
      ensures deadlocks.hits == old(deadlocks.hits) + if w.Deadlock? then 1 else 0
      ensures errors.hits == old(errors.hits) + if w.Error? then 1 else 0
    {
      Others(sid);
      w := Fate();
      steps := [];
      var lost: bool := *;
      if w.Written? || (w.Error? && lost) {
        var now: int := *;
        now := Min(now, until);
        Perform(sid, Deliver(sid, e, now), AfterDeliver(s, e));
        steps := [Deliver(sid, e, now)];
      }
    }

    /** `mark_failed_attempt`, done by `until`: a retry after the next delay, or the end of the event. */
    method MarkFailedAttempt(sid: SessionId, e: EventId, until: int) returns (w: Write, ghost steps: seq<Label>)
      requires Valid() && Holds(s, sid, e)
      modifies this, deadlocks, errors
      ensures Did(sid, steps) && (steps == [] || (|steps| == 1 && IsFailure(steps[0], sid, e, until)))
      ensures deadlocks.hits == old(deadlocks.hits) + if w.Deadlock? then 1 else 0
      ensures errors.hits == old(errors.hits) + if w.Error? then 1 else 0
      ensures w.Deadlock? ==> steps == []
      ensures w.Written? ==>
                && |steps| == 1 && (w.final <==> old(Final(cfg, s, sid, e))) && labels[|labels| - 1] == steps[0]
                && s.rows[e].status == (if w.final then Failed else Pending)
                && (!w.final ==> s.rows[e].nextAttemptAt == steps[0].now + steps[0].backoff)
                && (!w.final ==> forall now :: Due(s.rows[e], now) <==> now >= steps[0].now + steps[0].backoff)
    {
      Others(sid);
      w := Fate();
      steps := [];
      var lost: bool := *;
      if w.Written? || (w.Error? && lost) {
        var final := Final(cfg, s, sid, e);
        var now: int := *;
        now := Min(now, until);
        var backoff := Backoff.NextBackoffSeconds(s.sessions[sid].held[e] + 1, cfg.backoff);
        var after := if final then AfterFinal(s, e) else AfterRetry(s, e, now + backoff);
        Perform(sid, FailAttempt(sid, e, now, backoff), after);
        steps := [FailAttempt(sid, e, now, backoff)];
        w := if w.Written? then Written(final) else Error;
      }
    }

    /** `release_claim`, done by `until`. */
    method ReleaseClaim(sid: SessionId, e: EventId, until: int) returns (ok: bool, ghost steps: seq<Label>)
      requires Valid() && Holds(s, sid, e)
      modifies this, errors
      ensures Did(sid, steps) && (steps == [] || (|steps| == 1 && IsRelease(steps[0], sid, e, until)))
      ensures errors.hits == old(errors.hits) + if ok then 0 else 1
      ensures ok ==>
                && |steps| == 1 && labels[|labels| - 1] == steps[0]
                && s.rows[e].status.Pending? && s.rows[e].lockedBy.None?
    {
      Others(sid);
      steps := [];
      var failed := errors.Strikes();
      var lost: bool := *;
      ok := !failed;
      if ok || lost {
        var now: int := *;
        now := Min(now, until);
        Perform(sid, Release(sid, e, now), AfterRelease(s, e));
        steps := [Release(sid, e, now)];
      }
    }

    /** One attempt of `persist_delivery_outcome` at recording the outcome. */
    method RecordOutcome(sid: SessionId, e: EventId, accepted: bool, until: int)
      returns (w: Write, ghost steps: seq<Label>)
      requires Valid() && Holds(s, sid, e)
      modifies this, deadlocks, errors
      ensures Did(sid, steps) && (steps == [] || (|steps| == 1 && IsOutcomeOf(steps[0], sid, e, accepted, until)))
      ensures w.Deadlock? ==> steps == []
      ensures w.Written? ==>
                && |steps| == 1 && labels[|labels| - 1] == steps[0]
                && (w.final <==> !accepted && old(Final(cfg, s, sid, e)))
      ensures deadlocks.hits == old(deadlocks.hits) + if w.Deadlock? then 1 else 0
      ensures errors.hits == old(errors.hits) + if w.Error? then 1 else 0
    {
      if accepted {
        w, steps := MarkDelivered(sid, e, until);
      } else {
        w, steps := MarkFailedAttempt(sid, e, until);
      }
    }

    /** `persist_delivery_outcome`, done by `until`: records at most one outcome however often it
        retries, and exactly one, of the right kind, when it returns; when it raises it has
        recorded one only if its acknowledgement was lost, and tried to release the event.  It
        raises after an error, or after as many deadlocks as it has tries. */
    method PersistDeliveryOutcome(sid: SessionId, e: EventId, accepted: bool, until: int)
      returns (r: Persisted, ghost back: Back)
      requires Valid() && Holds(s, sid, e)
      modifies this, deadlocks, errors
      ensures Did(sid, back.steps) && WorkedOff(sid, e, back, until)
      ensures (back.returned <==> r.Returned?) && back.accepted == accepted
      ensures r.Returned? ==>
                && labels[|labels| - 1] == back.steps[0] && (r.final <==> !accepted && old(Final(cfg, s, sid, e)))
      ensures r.Raised? && r.released ==>
                && back.steps != [] && back.steps[|back.steps| - 1].Release?
                && labels[|labels| - 1] == back.steps[|back.steps| - 1] && s.rows[e].status.Pending?
      ensures old(deadlocks.hits) <= deadlocks.hits <= old(deadlocks.hits) + 3 && old(errors.hits) <= errors.hits
      ensures r.Returned? ==> errors.hits == old(errors.hits) && deadlocks.hits < old(deadlocks.hits) + 3
      ensures r.Raised? ==>
                errors.hits == old(errors.hits) + (if r.released then 0 else 1)
                               + if deadlocks.hits == old(deadlocks.hits) + 3 then 0 else 1
    {
      var attempt := 0;
      var failed := false;
      ghost var steps: seq<Label> := [];
      while attempt < DEADLOCK_MAX_RETRIES && !failed
        invariant 0 <= attempt <= DEADLOCK_MAX_RETRIES
        invariant Did(sid, steps)
        invariant steps == [] || (failed && |steps| == 1)
        invariant |steps| == 1 ==> IsOutcomeOf(steps[0], sid, e, accepted, until)
        invariant deadlocks.hits + errors.hits == old(deadlocks.hits + errors.hits) + attempt
        invariant old(deadlocks.hits) <= deadlocks.hits
        invariant old(errors.hits) <= errors.hits <= old(errors.hits) + if failed then 1 else 0
        invariant failed && errors.hits == old(errors.hits) ==> attempt == DEADLOCK_MAX_RETRIES
        decreases DEADLOCK_MAX_RETRIES - attempt
      {
        var w;
        w, steps := RecordOutcome(sid, e, accepted, until);
        if w.Written? {
          ReturnedIsWorkedOff(sid, e, accepted, steps, until);
          return Returned(w.final), Back(accepted, steps, true, false);
        }
        failed := w.Error? || attempt == DEADLOCK_MAX_RETRIES - 1;
        attempt := attempt + 1;
      }
      var released;
      ghost var last;
      released, last := ReleaseClaim(sid, e, until);
      Associative(Own(old(labels), sid), steps, last);
      RaisedIsWorkedOff(sid, e, accepted, steps, last, until);
      back := Back(accepted, steps + last, false, steps != []);
      r := Raised(released);
    }

    /** The body of the loop of `run_once`, for the next event of the batch: it is posted, and the
        receiver's answer is recorded. */
    method WorkOffNext(sid: SessionId, client: Client<EventId>, events: seq<EventId>, ghost backs: seq<Back>,
                       ghost now: int, ghost times: seq<int>, e: EventId, clock: int)
      returns (after: int, ghost back: Back)
      requires Valid() && Holds(s, sid, e) && |backs| < |events| && e == events[|backs|]
      requires Batch(sid, events, backs, now, times) && clock == Latest(now, times)
      modifies this, deadlocks, errors, client
      ensures Did(sid, back.steps) && Flatten(backs + [back]) == Flatten(backs) + back.steps
      ensures Batch(sid, events, backs + [back], now, times + [after]) && after == Latest(now, times + [after])
      ensures client.posts == old(client.posts) + [(e, back.accepted)]
      ensures old(deadlocks.hits) <= deadlocks.hits && old(errors.hits) <= errors.hits
      ensures back.returned || errors.hits > old(errors.hits) || deadlocks.hits >= old(deadlocks.hits) + 3
    {
      var elapsed: int := *;
      after := if elapsed > 0 then clock + elapsed else clock;
      var accepted := client.Post(e);
      var r;
      r, back := PersistDeliveryOutcome(sid, e, accepted, after);
      OneMoreBack(sid, events, backs, now, times, back, after);
      FlattenAppend(backs, back);
    }

    /** The loop of `run_once`: works the claimed events off, one after the other. */
    method WorkOff(sid: SessionId, client: Client<EventId>, events: seq<EventId>, now: int)
      returns (ghost backs: seq<Back>, ghost times: seq<int>)
      requires Valid() && sid in s.sessions && Distinct(events) && forall e :: e in events ==> Holds(s, sid, e)
      modifies this, deadlocks, errors, client
      ensures Did(sid, Flatten(backs)) && |backs| == |events| && Batch(sid, events, backs, now, times)
      ensures client.posts == old(client.posts) + Posted(events, backs)
      ensures errors.hits == old(errors.hits) && deadlocks.hits < old(deadlocks.hits) + 3 ==> AllReturned(backs)
    {
      backs, times := [], [];
      var i := 0;
      var clock := now;
      while i < |events|
        invariant 0 <= i <= |events| && |backs| == i
        invariant Did(sid, Flatten(backs))
        invariant Batch(sid, events, backs, now, times) && clock == Latest(now, times)
        invariant client.posts == old(client.posts) + Posted(events, backs)
        invariant old(deadlocks.hits) <= deadlocks.hits && old(errors.hits) <= errors.hits
        invariant errors.hits == old(errors.hits) && deadlocks.hits < old(deadlocks.hits) + 3 ==> AllReturned(backs)
      {
        assert Holds(s, sid, events[i]) by {
          assert old(Holds(s, sid, events[i]));
        }
        ghost var back;
        clock, back := WorkOffNext(sid, client, events, backs, now, times, events[i], clock);
        Associative(Own(old(labels), sid), Flatten(backs), back.steps);
        OneMorePost(old(client.posts), events, backs, back);
        backs, times := backs + [back], times + [clock];
        i := i + 1;
      }
    }

    /** `run_once`: claims a batch at `now` and works it off, event by event, each by its own time.
        Each claimed event is posted once, and no other.  Of each it writes back at most one outcome,
        the one the receiver's answer asks for, exactly one if that was acknowledged, and of no other
        event anything.  If no acknowledgement is lost and the last event is done before the claim's
        locks lapse, all its steps are timely. */
    method RunOnce(sid: SessionId, client: Client<EventId>, now: int)
      returns (claimed: nat, ghost taken: seq<EventId>, ghost backs: seq<Back>, ghost times: seq<int>)
      requires Valid() && sid in s.sessions
      modifies this, deadlocks, errors, client
      ensures Valid() && old(labels) <= labels && sid in s.sessions
      ensures claimed == |taken| == |backs| && Batch(sid, taken, backs, now, times)
      ensures Own(labels, sid) == Own(old(labels), sid) + [Claim(sid, now, Elements(taken))] + Flatten(backs)
      ensures client.posts == old(client.posts) + Posted(taken, backs)
      ensures errors.hits == old(errors.hits) && deadlocks.hits < old(deadlocks.hits) + 3 ==> AllReturned(backs)
      ensures exists k :: |old(labels)| <= k < |labels| && ClaimedAt(cfg, states, labels, k, now, taken)
      ensures InTime(backs, times, now + cfg.timeout) ==>
                forall k {:trigger Timeliness.TimelyAt(cfg, states, labels, k)} ::
                  |old(labels)| <= k < |labels| && By(sid, labels[k]) ==> Timeliness.TimelyAt(cfg, states, labels, k)
    {
      var events := ClaimCallbackEvents(sid, now);
      taken := events;
      ghost var atClaim := |labels| - 1;
      backs, times := WorkOff(sid, client, events, now);
      assert ClaimedAt(cfg, states, labels, atClaim, now, taken);
      claimed := |events|;
      AllTimely(cfg, states, labels, old(labels), atClaim, sid, now, taken, backs, times);
    }

  }

  /** A batch in time, and the claim it began with, are timely. */
  lemma AllTimely(cfg: Settings, states: seq<State>, labels: seq<Label>, before: seq<Label>, atClaim: nat,
                  sid: SessionId, now: int, taken: seq<EventId>, backs: seq<Back>, times: seq<int>)
    requires |states| == |labels| + 1 && before <= labels
    requires |before| <= atClaim < |labels| && labels[atClaim] == Claim(sid, now, Elements(taken))
    requires Delivery.Guarded(states[atClaim], labels[atClaim])
    requires Own(labels, sid) == Own(before, sid) + [Claim(sid, now, Elements(taken))] + Flatten(backs)
    requires Batch(sid, taken, backs, now, times)
    ensures InTime(backs, times, now + cfg.timeout) ==>
              forall k {:trigger Timeliness.TimelyAt(cfg, states, labels, k)} ::
                |before| <= k < |labels| && By(sid, labels[k]) ==> Timeliness.TimelyAt(cfg, states, labels, k)
  {
    if InTime(backs, times, now + cfg.timeout) {
      InTimeIsClean(sid, taken, backs, now, times, now + cfg.timeout);
      assert labels[..|before|] == before;
      forall k | |before| <= k < |labels| && By(sid, labels[k]) ensures Timeliness.TimelyAt(cfg, states, labels, k) {
        if Timeliness.WritesBack(labels[k]) {
          BatchIsTimely(cfg, labels, |before|, sid, now, taken, backs, times, k);
        } else {
          OnlyClaim(cfg, labels, |before|, atClaim, sid, now, taken, backs, times, k);
        }
      }
    }
  }
}
