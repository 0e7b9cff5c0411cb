/** The steps of one dispatcher among those of everybody else, and what the lock deadlines of
    `Timeliness` say about a batch worked off one event after the other. */
module OwnSteps {
  import opened Sql
  import opened Schema
  import opened Claiming
  import opened Outbox
  import opened Timeliness

  predicate By(sid: SessionId, l: Label) {
    !l.Publish? && l.sid == sid
  }

  /** The steps of dispatcher `sid`, in order. */
  function Own(labels: seq<Label>, sid: SessionId): seq<Label> {
    if labels == [] then []
    else
      var l := labels[|labels| - 1];
      Own(labels[..|labels| - 1], sid) + if By(sid, l) then [l] else []
  }

  lemma OwnAppend(labels: seq<Label>, l: Label, sid: SessionId)
    ensures Own(labels + [l], sid) == Own(labels, sid) + if By(sid, l) then [l] else []
  {
    assert (labels + [l])[..|labels|] == labels;
  }

  lemma DeadlineAppend(cfg: Settings, labels: seq<Label>, l: Label, sid: SessionId, e: EventId)
    ensures Deadline(cfg, labels + [l], sid, e) == DeadlineAfter(cfg, Deadline(cfg, labels, sid, e), l, sid, e)
  {
    assert (labels + [l])[..|labels|] == labels;
  }

  /** Nobody else's steps move a dispatcher's deadlines. */
  lemma {:induction false} DeadlineOfOwn(cfg: Settings, labels: seq<Label>, sid: SessionId, e: EventId)
    ensures Deadline(cfg, labels, sid, e) == Deadline(cfg, Own(labels, sid), sid, e)
  {
    if labels != [] {
      var before, l := labels[..|labels| - 1], labels[|labels| - 1];
      DeadlineOfOwn(cfg, before, sid, e);
      if By(sid, l) {
        DeadlineAppend(cfg, Own(before, sid), l, sid, e);
      } else {
        assert Own(labels, sid) == Own(before, sid);
      }
    }
  }

  /** Where step `k` of the run is among the dispatcher's own. */
  lemma {:induction false} OwnAt(labels: seq<Label>, k: nat, sid: SessionId)
    requires k <= |labels|
    ensures Own(labels[..k], sid) <= Own(labels, sid)
    ensures k < |labels| && By(sid, labels[k]) ==>
              |Own(labels[..k], sid)| < |Own(labels, sid)| && Own(labels, sid)[|Own(labels[..k], sid)|] == labels[k]
  {
    if k == |labels| {
      assert labels[..k] == labels;
    } else {
      var before := labels[..|labels| - 1];
      OwnAt(before, k, sid);
      assert before[..k] == labels[..k];
      if k == |labels| - 1 {
        assert labels[..k] == before;
      }
    }
  }

  lemma OwnGrows(labels: seq<Label>, j: nat, k: nat, sid: SessionId)
    requires j < k <= |labels| && By(sid, labels[j])
    ensures |Own(labels[..j], sid)| < |Own(labels[..k], sid)|
  {
    OwnAt(labels[..k], j, sid);
    assert labels[..k][..j] == labels[..j];
  }

  /** What a dispatcher wrote back of one event: whether the receiver accepted it, its steps, whether
      the outcome was acknowledged, and whether one took effect without being acknowledged. */
  datatype Back = Back(accepted: bool, steps: seq<Label>, returned: bool, lost: bool)

  predicate AllReturned(backs: seq<Back>) {
    forall b :: b in backs ==> b.returned
  }

  /** Event `e` was worked off by time `until`: one outcome, the receiver's answer, if it was
      acknowledged; otherwise perhaps that outcome, its acknowledgement lost, and perhaps a release. */
  predicate WorkedOff(sid: SessionId, e: EventId, b: Back, until: int) {
    && (forall i :: 0 <= i < |b.steps| ==>
          By(sid, b.steps[i]) && WritesBack(b.steps[i]) && b.steps[i].e == e && b.steps[i].now <= until
          && (b.steps[i].Deliver? ==> b.accepted) && (b.steps[i].FailAttempt? ==> !b.accepted))
    && (b.returned ==> !b.lost && |b.steps| == 1 && !b.steps[0].Release?)
    && (b.lost ==> 1 <= |b.steps| <= 2 && !b.steps[0].Release? && (|b.steps| == 2 ==> b.steps[1].Release?))
    && (!b.returned && !b.lost ==> |b.steps| <= 1 && (|b.steps| == 1 ==> b.steps[0].Release?))
  }

  function Flatten(backs: seq<Back>): seq<Label> {
    if backs == [] then [] else Flatten(backs[..|backs| - 1]) + backs[|backs| - 1].steps
  }

  predicate WorkedAt(sid: SessionId, taken: seq<EventId>, backs: seq<Back>, times: seq<int>, i: int)
    requires 0 <= i < |backs| == |times| <= |taken|
  {
    WorkedOff(sid, taken[i], backs[i], times[i])
  }

  /** The first events of a batch, worked off in order, each by its own time. */
  ghost predicate Batch(sid: SessionId, taken: seq<EventId>, backs: seq<Back>, now: int, times: seq<int>) {
    && Distinct(taken) && |backs| == |times| <= |taken|
    && (forall i {:trigger WorkedAt(sid, taken, backs, times, i)} ::
          0 <= i < |backs| ==> WorkedAt(sid, taken, backs, times, i))
    && Rising(now, times)
  }

  ghost predicate Rising(now: int, times: seq<int>) {
    forall i, j :: 0 <= i <= j < |times| ==> now <= times[i] <= times[j]
  }

  /** When the latest of them was done. */
  function Latest(now: int, times: seq<int>): int {
    if times == [] then now else times[|times| - 1]
  }

  lemma OneMoreBack(sid: SessionId, taken: seq<EventId>, backs: seq<Back>, now: int, times: seq<int>, b: Back,
                    until: int)
    requires Batch(sid, taken, backs, now, times) && |backs| < |taken|
    requires Latest(now, times) <= until
    requires WorkedOff(sid, taken[|backs|], b, until)
    ensures Batch(sid, taken, backs + [b], now, times + [until]) && Latest(now, times + [until]) == until
  {
    var more, later := backs + [b], times + [until];
    OneMoreTime(now, times, until);
    forall i | 0 <= i < |more| ensures WorkedAt(sid, taken, more, later, i) {
      if i < |backs| {
        assert WorkedAt(sid, taken, backs, times, i) && more[i] == backs[i] && later[i] == times[i];
      }
    }
  }

  lemma OneMoreTime(now: int, times: seq<int>, until: int)
    requires Rising(now, times) && Latest(now, times) <= until
    ensures Rising(now, times + [until])
  {
  }

  lemma FlattenAppend(backs: seq<Back>, b: Back)
    ensures Flatten(backs + [b]) == Flatten(backs) + b.steps
  {
    assert (backs + [b])[..|backs|] == backs;
  }

  /** No acknowledgement was lost, and the last event was done before `deadline`. */
  predicate InTime(backs: seq<Back>, times: seq<int>, deadline: int) {
    (forall b :: b in backs ==> !b.lost) && (times != [] ==> times[|times| - 1] < deadline)
  }

  ghost predicate CleanBatch(sid: SessionId, taken: seq<EventId>, backs: seq<Back>, times: seq<int>) {
    && Distinct(taken) && |backs| == |times| <= |taken|
    && (forall i :: 0 <= i < |backs| ==> WorkedOff(sid, taken[i], backs[i], times[i]) && !backs[i].lost)
  }

  lemma InTimeIsClean(sid: SessionId, taken: seq<EventId>, backs: seq<Back>, now: int, times: seq<int>, deadline: int)
    requires Batch(sid, taken, backs, now, times) && InTime(backs, times, deadline)
    ensures CleanBatch(sid, taken, backs, times) && forall i :: 0 <= i < |times| ==> times[i] < deadline
  {
    forall i | 0 <= i < |backs| ensures WorkedOff(sid, taken[i], backs[i], times[i]) && !backs[i].lost {
      assert backs[i] in backs && WorkedAt(sid, taken, backs, times, i);
    }
  }

  lemma CleanPrefix(sid: SessionId, taken: seq<EventId>, backs: seq<Back>, times: seq<int>)
    requires CleanBatch(sid, taken, backs, times) && backs != []
    ensures CleanBatch(sid, taken, backs[..|backs| - 1], times[..|backs| - 1])
  {
  }

  lemma OtherEventStays(cfg: Settings, before: seq<Label>, steps: seq<Label>, sid: SessionId, e: EventId)
    requires |steps| <= 1 && (|steps| == 1 ==> By(sid, steps[0]) && WritesBack(steps[0]) && steps[0].e != e)
    ensures Deadline(cfg, before + steps, sid, e) == Deadline(cfg, before, sid, e)
  {
    if steps == [] {
      assert before + steps == before;
    } else {
      assert steps == [steps[0]];
      DeadlineAppend(cfg, before, steps[0], sid, e);
    }
  }

  /** The deadline of an event not yet worked off is still that of the claim. */
  lemma {:induction false} StillDue(cfg: Settings, own: seq<Label>, sid: SessionId, now: int, taken: seq<EventId>,
                                    backs: seq<Back>, times: seq<int>, i: nat)
    requires own != [] && own[|own| - 1] == Claim(sid, now, Elements(taken))
    requires CleanBatch(sid, taken, backs, times) && |backs| <= i < |taken|
    ensures Deadline(cfg, own + Flatten(backs), sid, taken[i]) == Some(now + cfg.timeout)
  {
    if backs == [] {
      assert own + Flatten(backs) == own && taken[i] in Elements(taken);
    } else {
      var n := |backs| - 1;
      CleanPrefix(sid, taken, backs, times);
      StillDue(cfg, own, sid, now, taken, backs[..n], times[..n], i);
      var before, steps := own + Flatten(backs[..n]), backs[n].steps;
      assert WorkedOff(sid, taken[n], backs[n], times[n]) && taken[n] != taken[i];
      assert own + Flatten(backs) == before + steps;
      OtherEventStays(cfg, before, steps, sid, taken[i]);
    }
  }

  /** Every write-back of a clean batch comes before the deadline of the claim. */
  lemma {:induction false} BackInTime(cfg: Settings, own: seq<Label>, sid: SessionId, now: int, taken: seq<EventId>,
                                      backs: seq<Back>, times: seq<int>, j: nat)
    requires own != [] && own[|own| - 1] == Claim(sid, now, Elements(taken))
    requires CleanBatch(sid, taken, backs, times) && forall i :: 0 <= i < |times| ==> times[i] < now + cfg.timeout
    requires j < |Flatten(backs)|
    ensures var l := Flatten(backs)[j];
            && By(sid, l) && WritesBack(l) && l.now < now + cfg.timeout
            && Deadline(cfg, own + Flatten(backs)[..j], sid, l.e) == Some(now + cfg.timeout)
    decreases |backs|
  {
    var n := |backs| - 1;
    var front, steps := Flatten(backs[..n]), backs[n].steps;
    CleanPrefix(sid, taken, backs, times);
    assert WorkedOff(sid, taken[n], backs[n], times[n]);
    if j < |front| {
      BackInTime(cfg, own, sid, now, taken, backs[..n], times[..n], j);
      assert Flatten(backs)[j] == front[j] && Flatten(backs)[..j] == front[..j];
    } else {
      assert j == |front| && Flatten(backs)[j] == steps[0] && Flatten(backs)[..j] == front;
      StillDue(cfg, own, sid, now, taken, backs[..n], times[..n], n);
    }
  }

  /** In a run in which dispatcher `sid` has claimed a batch since `from` and worked it off cleanly,
      the last event before its lock lapsed, it has written everything back in time. */
  lemma BatchIsTimely(cfg: Settings, labels: seq<Label>, from: nat, sid: SessionId, now: int, taken: seq<EventId>,
                      backs: seq<Back>, times: seq<int>, k: nat)
    requires from <= k < |labels| && By(sid, labels[k]) && WritesBack(labels[k])
    requires Own(labels, sid) == Own(labels[..from], sid) + [Claim(sid, now, Elements(taken))] + Flatten(backs)
    requires CleanBatch(sid, taken, backs, times) && forall i :: 0 <= i < |times| ==> times[i] < now + cfg.timeout
    ensures var d := Deadline(cfg, labels[..k], sid, labels[k].e); d.Some? && labels[k].now < d.value
  {
    var own := Own(labels[..from], sid) + [Claim(sid, now, Elements(taken))];
    var at := |Own(labels[..k], sid)|;
    OwnAt(labels, k, sid);
    OwnAt(labels[..k], from, sid);
    assert labels[..k][..from] == labels[..from];
    assert |Own(labels[..from], sid)| <= at;
    assert Own(labels, sid)[|own| - 1].Claim?;
    var j := at - |own|;
    BackInTime(cfg, own, sid, now, taken, backs, times, j);
    assert Own(labels[..k], sid) == own + Flatten(backs)[..j];
    DeadlineOfOwn(cfg, labels[..k], sid, labels[k].e);
  }

  /** The claim is the only other step the dispatcher has taken. */
  lemma OnlyClaim(cfg: Settings, labels: seq<Label>, from: nat, atClaim: nat, sid: SessionId, now: int,
                  taken: seq<EventId>, backs: seq<Back>, times: seq<int>, k: nat)
    requires from <= atClaim < |labels| && labels[atClaim] == Claim(sid, now, Elements(taken))
    requires from <= k < |labels| && By(sid, labels[k]) && !WritesBack(labels[k])
    requires Own(labels, sid) == Own(labels[..from], sid) + [Claim(sid, now, Elements(taken))] + Flatten(backs)
    requires CleanBatch(sid, taken, backs, times) && forall i :: 0 <= i < |times| ==> times[i] < now + cfg.timeout
    ensures k == atClaim
  {
    FirstOfBatch(cfg, labels, from, sid, now, taken, backs, times, k);
    FirstOfBatch(cfg, labels, from, sid, now, taken, backs, times, atClaim);
    if k < atClaim {
      OwnGrows(labels, k, atClaim, sid);
    } else if atClaim < k {
      OwnGrows(labels, atClaim, k, sid);
    }
  }

  lemma FirstOfBatch(cfg: Settings, labels: seq<Label>, from: nat, sid: SessionId, now: int, taken: seq<EventId>,
                     backs: seq<Back>, times: seq<int>, k: nat)
    requires from <= k < |labels| && By(sid, labels[k]) && !WritesBack(labels[k])
    requires Own(labels, sid) == Own(labels[..from], sid) + [Claim(sid, now, Elements(taken))] + Flatten(backs)
    requires CleanBatch(sid, taken, backs, times) && forall i :: 0 <= i < |times| ==> times[i] < now + cfg.timeout
    ensures |Own(labels[..k], sid)| == |Own(labels[..from], sid)|
  {
    var own := Own(labels[..from], sid) + [Claim(sid, now, Elements(taken))];
    var at := |Own(labels[..k], sid)|;
    OwnAt(labels, k, sid);
    OwnAt(labels[..k], from, sid);
    assert labels[..k][..from] == labels[..from];
    if at >= |own| {
      BackInTime(cfg, own, sid, now, taken, backs, times, at - |own|);
    }
  }
}
