/** The callback outbox: events published with their matches, claimed and worked off by any
    number of dispatchers that may overlap, stall and crash.  An outcome is written by event id
    alone, by whoever once claimed the event; nothing here asks who holds the claim now. */
module Outbox {
  import opened Sql
  import opened Schema
  import opened Claiming
  import Backoff

  type SessionId = nat

  datatype Settings = Settings(maxAttempts: int, tenantLimit: int, batch: nat, timeout: int, backoff: Backoff.Settings)

  /** A dispatcher process: its id, and the events of its last claim with the number of
      attempts each had then. */
  datatype Session = Session(name: string, held: map<EventId, int>)

  datatype State = State(rows: Rows, matches: map<MatchId, MatchStatus>, sessions: map<SessionId, Session>)

  const Init := State(map[], map[], map[])

  datatype Label =
    | Publish(e: EventId, tenantId: string, m: MatchId, now: int)
    | Start(sid: SessionId, name: string)
    | Crash(sid: SessionId)
    | Claim(sid: SessionId, now: int, taken: set<EventId>)
    | Deliver(sid: SessionId, e: EventId, now: int)
    | FailAttempt(sid: SessionId, e: EventId, now: int, backoff: nat)
    | Release(sid: SessionId, e: EventId, now: int)

  predicate Holds(s: State, sid: SessionId, e: EventId) {
    sid in s.sessions && e in s.sessions[sid].held && e in s.rows
  }

  /** The failure that is being recorded is the last one allowed. */
  predicate Final(cfg: Settings, s: State, sid: SessionId, e: EventId)
    requires Holds(s, sid, e)
  {
    s.sessions[sid].held[e] + 1 >= cfg.maxAttempts
  }

  function Unlocked(row: Row, status: EventStatus): Row {
    row.(status := status, lockedBy := None, lockedUntil := None)
  }

  function Attempted(row: Row, status: EventStatus): Row {
    Unlocked(row, status).(attempts := row.attempts + 1)
  }

  function AfterClaim(cfg: Settings, s: State, sid: SessionId, now: int, taken: set<EventId>): State
    requires sid in s.sessions
  {
    var held := map e | e in taken && e in s.rows :: s.rows[e].attempts;
    s.(rows := Claimed(s.rows, taken, s.sessions[sid].name, now + cfg.timeout),
       sessions := s.sessions[sid := s.sessions[sid].(held := held)])
  }

  function AfterDeliver(s: State, e: EventId): State
    requires e in s.rows
  {
    s.(rows := s.rows[e := Attempted(s.rows[e], Delivered)],
       matches := s.matches[s.rows[e].matchId := CallbackDelivered])
  }

  function AfterFinal(s: State, e: EventId): State
    requires e in s.rows
  {
    s.(rows := s.rows[e := Attempted(s.rows[e], Failed)], matches := s.matches[s.rows[e].matchId := CallbackFailed])
  }

  function AfterRetry(s: State, e: EventId, at: int): State
    requires e in s.rows
  {
    s.(rows := s.rows[e := Attempted(s.rows[e], Pending).(nextAttemptAt := at)])
  }

  function AfterRelease(s: State, e: EventId): State
    requires e in s.rows
  {
    s.(rows := s.rows[e := Unlocked(s.rows[e], Pending)])
  }

  predicate Next(cfg: Settings, s: State, l: Label, s': State) {
    match l
    case Publish(e, tenantId, m, now) =>
      && e !in s.rows && m !in s.matches
      && s' == s.(rows := s.rows[e := Row(tenantId, m, Pending, 0, now, now, None, None)],
                  matches := s.matches[m := Created])
    case Start(sid, name) =>
      sid !in s.sessions && s' == s.(sessions := s.sessions[sid := Session(name, map[])])
    case Crash(sid) =>
      sid in s.sessions && s' == s.(sessions := s.sessions - {sid})
    case Claim(sid, now, taken) =>
      // Any rows at all: two claims may race, and one may take what it saw before the other.
      sid in s.sessions && taken <= s.rows.Keys && s' == AfterClaim(cfg, s, sid, now, taken)
    case Deliver(sid, e, now) =>
      Holds(s, sid, e) && s' == AfterDeliver(s, e)
    case FailAttempt(sid, e, now, backoff) =>
      && Holds(s, sid, e)
      && if Final(cfg, s, sid, e) then s' == AfterFinal(s, e)
         else
           var least := Backoff.Capped(s.sessions[sid].held[e] + 1, cfg.backoff);
           least <= backoff <= least + cfg.backoff.jitter && s' == AfterRetry(s, e, now + backoff)
    case Release(sid, e, now) =>
      Holds(s, sid, e) && s' == AfterRelease(s, e)
  }

  ghost predicate StepAt(cfg: Settings, states: seq<State>, labels: seq<Label>, i: int)
    requires |states| == |labels| + 1 && 0 <= i < |labels|
  {
    Next(cfg, states[i], labels[i], states[i + 1])
  }

  ghost predicate Run(cfg: Settings, states: seq<State>, labels: seq<Label>) {
    && |states| == |labels| + 1 && states[0] == Init
    && forall i {:trigger StepAt(cfg, states, labels, i)} :: 0 <= i < |labels| ==> StepAt(cfg, states, labels, i)
  }

  lemma Extend(cfg: Settings, states: seq<State>, labels: seq<Label>, l: Label, s: State)
    requires Run(cfg, states, labels) && Next(cfg, states[|labels|], l, s)
    ensures Run(cfg, states + [s], labels + [l])
  {
    forall i | 0 <= i <= |labels| ensures StepAt(cfg, states + [s], labels + [l], i) {
      assert i < |labels| ==> StepAt(cfg, states, labels, i);
    }
  }

  lemma Prefix(cfg: Settings, states: seq<State>, labels: seq<Label>, n: nat)
    requires Run(cfg, states, labels) && n <= |labels|
    ensures Run(cfg, states[..n + 1], labels[..n])
  {
    var first, steps := states[..n + 1], labels[..n];
    forall i | 0 <= i < n ensures StepAt(cfg, first, steps, i) {
      assert StepAt(cfg, states, labels, i);
    }
  }

  // ----- What holds with no assumption on the dispatchers -----

  predicate RowOk(s: State, e: EventId)
    requires e in s.rows
  {
    var row := s.rows[e];
    && row.attempts >= 0
    && (row.lockedBy.Some? <==> row.status.InProgress?) && (row.lockedUntil.Some? <==> row.status.InProgress?)
    && row.matchId in s.matches
    && (row.status.Delivered? ==> s.matches[row.matchId].CallbackDelivered?)
    && (row.status.Failed? ==> s.matches[row.matchId].CallbackFailed?)
  }

  ghost predicate Inv(s: State) {
    && (forall e {:trigger RowOk(s, e)} :: e in s.rows ==> RowOk(s, e))
    && (forall e, f :: e in s.rows && f in s.rows && e != f ==> s.rows[e].matchId != s.rows[f].matchId)
  }

  lemma NextKeeps(cfg: Settings, s: State, l: Label, s': State)
    requires Inv(s) && Next(cfg, s, l, s')
    ensures Inv(s')
  {
    forall e | e in s'.rows ensures RowOk(s', e) {
      StepRowOk(cfg, s, l, s', e);
    }
    forall e, f | e in s'.rows && f in s'.rows && e != f ensures s'.rows[e].matchId != s'.rows[f].matchId {
      assert (e in s.rows ==> RowOk(s, e)) && (f in s.rows ==> RowOk(s, f));
    }
  }

  lemma StepRowOk(cfg: Settings, s: State, l: Label, s': State, e: EventId)
    requires Inv(s) && Next(cfg, s, l, s') && e in s'.rows
    ensures RowOk(s', e)
  {
    assert e in s.rows ==> RowOk(s, e);
  }

  lemma {:induction false} ReachableIsOk(cfg: Settings, states: seq<State>, labels: seq<Label>, i: nat)
    requires Run(cfg, states, labels) && i < |states|
    ensures Inv(states[i])
  {
    if i > 0 {
      ReachableIsOk(cfg, states, labels, i - 1);
      assert StepAt(cfg, states, labels, i - 1);
      NextKeeps(cfg, states[i - 1], labels[i - 1], states[i]);
    }
  }

  /** When an unsettled event can be claimed. */
  function DueAt(row: Row): int {
    if row.status.InProgress? && row.lockedUntil.Some? && row.lockedUntil.value > row.nextAttemptAt
    then row.lockedUntil.value else row.nextAttemptAt
  }

  /** No callback is lost: an event, once published, stays, keeps its match, and is at every
      later time either settled, with its match saying so, or due from a definite time on. */
  lemma {:induction false} NothingIsLost(cfg: Settings, states: seq<State>, labels: seq<Label>, i: nat, j: nat,
                                         e: EventId)
    requires Run(cfg, states, labels) && i <= j < |states| && e in states[i].rows
    ensures e in states[j].rows && states[j].rows[e].matchId == states[i].rows[e].matchId
    ensures var row := states[j].rows[e];
            if row.Settled()
            then row.matchId in states[j].matches
                 && states[j].matches[row.matchId] ==
                    (if row.status.Delivered? then CallbackDelivered else CallbackFailed)
            else forall now :: Due(row, now) <==> now >= DueAt(row)
    decreases j
  {
    if i < j {
      NothingIsLost(cfg, states, labels, i, j - 1, e);
      assert StepAt(cfg, states, labels, j - 1);
    }
    ReachableIsOk(cfg, states, labels, j);
    assert RowOk(states[j], e);
  }

  /** A new event is due at once, one given back as soon as it had been before it was claimed, and a
      failed one, unless that was the last failure, when its delay is over. */
  lemma DueAgain(cfg: Settings, s: State, l: Label, s': State)
    requires Next(cfg, s, l, s') && (l.Publish? || l.Release? || l.FailAttempt?)
    ensures l.e in s'.rows
    ensures l.Publish? ==> s'.rows[l.e].createdAt == l.now && forall now :: Due(s'.rows[l.e], now) <==> now >= l.now
    ensures l.Release? ==> l.e in s.rows && forall now :: Due(s'.rows[l.e], now) <==> now >= s.rows[l.e].nextAttemptAt
    ensures l.FailAttempt? && !s'.rows[l.e].status.Failed? ==>
              forall now :: Due(s'.rows[l.e], now) <==> now >= l.now + l.backoff
  {
  }

  predicate Outcome(l: Label, e: EventId) {
    (l.Deliver? || l.FailAttempt?) && l.e == e
  }

  /** How many outcomes were recorded for the event. */
  function Outcomes(labels: seq<Label>, e: EventId): nat {
    if labels == [] then 0
    else Outcomes(labels[..|labels| - 1], e) + if Outcome(labels[|labels| - 1], e) then 1 else 0
  }

  lemma {:induction false} AttemptsCountOutcomes(cfg: Settings, states: seq<State>, labels: seq<Label>, e: EventId)
    requires Run(cfg, states, labels)
    ensures if e in states[|labels|].rows then states[|labels|].rows[e].attempts == Outcomes(labels, e)
            else Outcomes(labels, e) == 0
  {
    if labels != [] {
      var k := |labels| - 1;
      Prefix(cfg, states, labels, k);
      AttemptsCountOutcomes(cfg, states[..k + 1], labels[..k], e);
      assert StepAt(cfg, states, labels, k);
    }
  }

  /** The step writes the event's row. */
  predicate Writes(l: Label, e: EventId) {
    Outcome(l, e) || (l.Release? && l.e == e) || (l.Claim? && e in l.taken)
  }

  /** A settled event stays exactly as it is under precisely the steps that do not write it:
      every write, by anyone, undoes or repeats the outcome. */
  lemma SettledStaysExactly(cfg: Settings, s: State, l: Label, s': State, e: EventId)
    requires Inv(s) && Next(cfg, s, l, s') && e in s.rows && s.rows[e].Settled()
    ensures e in s'.rows
    ensures s'.rows[e] == s.rows[e] <==> !Writes(l, e)
  {
  }

  /** If the event is settled at `i`, its row is the same at `j`. */
  predicate Frozen(states: seq<State>, e: EventId, i: int, j: int)
    requires 0 <= i <= j < |states|
  {
    e in states[i].rows && states[i].rows[e].Settled() ==>
      e in states[j].rows && states[j].rows[e] == states[i].rows[e]
  }

  predicate WritesUnsettled(states: seq<State>, labels: seq<Label>, e: EventId, k: int)
    requires |states| == |labels| + 1 && 0 <= k < |labels|
  {
    Writes(labels[k], e) && e in states[k].rows ==> !states[k].rows[e].Settled()
  }

  lemma {:induction false} FrozenThroughout(cfg: Settings, states: seq<State>, labels: seq<Label>, e: EventId,
                                            i: nat, j: nat)
    requires Run(cfg, states, labels) && i <= j < |states|
    requires forall k {:trigger WritesUnsettled(states, labels, e, k)} ::
               0 <= k < |labels| ==> WritesUnsettled(states, labels, e, k)
    ensures Frozen(states, e, i, j)
    decreases j
  {
    if i < j && e in states[i].rows && states[i].rows[e].Settled() {
      FrozenThroughout(cfg, states, labels, e, i, j - 1);
      ReachableIsOk(cfg, states, labels, j - 1);
      assert StepAt(cfg, states, labels, j - 1) && WritesUnsettled(states, labels, e, j - 1);
      SettledStaysExactly(cfg, states[j - 1], labels[j - 1], states[j], e);
    }
  }

  /** Over a whole run a settled row never changes again, its attempts included, if and only if
      every claim, outcome and release found the event unsettled. */
  lemma RowFrozenExactly(cfg: Settings, states: seq<State>, labels: seq<Label>, e: EventId)
    requires Run(cfg, states, labels)
    ensures (forall i, j {:trigger Frozen(states, e, i, j)} :: 0 <= i <= j < |states| ==> Frozen(states, e, i, j)) <==>
            (forall k {:trigger WritesUnsettled(states, labels, e, k)} ::
               0 <= k < |labels| ==> WritesUnsettled(states, labels, e, k))
  {
    if forall i, j {:trigger Frozen(states, e, i, j)} :: 0 <= i <= j < |states| ==> Frozen(states, e, i, j) {
      forall k | 0 <= k < |labels| ensures WritesUnsettled(states, labels, e, k) {
        assert Frozen(states, e, k, k + 1) && StepAt(cfg, states, labels, k);
        ReachableIsOk(cfg, states, labels, k);
        if e in states[k].rows && states[k].rows[e].Settled() {
          SettledStaysExactly(cfg, states[k], labels[k], states[k + 1], e);
        }
      }
    }
    if forall k {:trigger WritesUnsettled(states, labels, e, k)} ::
         0 <= k < |labels| ==> WritesUnsettled(states, labels, e, k)
    {
      forall i, j | 0 <= i <= j < |states| ensures Frozen(states, e, i, j) {
        FrozenThroughout(cfg, states, labels, e, i, j);
      }
    }
  }

  /** If the event is settled at `i`, it has the same outcome at `j`, and so has its match. */
  predicate SameOutcome(states: seq<State>, e: EventId, i: int, j: int)
    requires 0 <= i <= j < |states|
  {
    e in states[i].rows && states[i].rows[e].Settled() ==>
      && e in states[j].rows && states[j].rows[e].status == states[i].rows[e].status
      && states[i].rows[e].matchId in states[i].matches && states[i].rows[e].matchId in states[j].matches
      && states[j].matches[states[i].rows[e].matchId] == states[i].matches[states[i].rows[e].matchId]
  }

  /** A write of `e` that finds it delivered delivers it again, and one that finds it failed
      records a last failure again. */
  predicate Repeats(cfg: Settings, s: State, l: Label, e: EventId) {
    Writes(l, e) && e in s.rows && s.rows[e].Settled() ==>
      if s.rows[e].status.Delivered? then l.Deliver?
      else l.FailAttempt? && Holds(s, l.sid, e) && Final(cfg, s, l.sid, e)
  }

  predicate RepeatsAt(cfg: Settings, states: seq<State>, labels: seq<Label>, e: EventId, k: int)
    requires |states| == |labels| + 1 && 0 <= k < |labels|
  {
    Repeats(cfg, states[k], labels[k], e)
  }

  /** One step leaves the outcome of a settled event alone if and only if it does not write the
      event, or writes that outcome again. */
  lemma OutcomeStaysExactly(cfg: Settings, s: State, l: Label, s': State, e: EventId)
    requires Inv(s) && Next(cfg, s, l, s') && e in s.rows && s.rows[e].Settled()
    ensures e in s'.rows && s'.rows[e].matchId == s.rows[e].matchId
    ensures s'.rows[e].status == s.rows[e].status <==> Repeats(cfg, s, l, e)
  {
  }

  lemma {:induction false} SameThroughout(cfg: Settings, states: seq<State>, labels: seq<Label>, e: EventId,
                                          i: nat, j: nat)
    requires Run(cfg, states, labels) && i <= j < |states| && e in states[i].rows && states[i].rows[e].Settled()
    requires forall k {:trigger RepeatsAt(cfg, states, labels, e, k)} ::
               0 <= k < |labels| ==> RepeatsAt(cfg, states, labels, e, k)
    ensures e in states[j].rows && states[j].rows[e].status == states[i].rows[e].status
    ensures states[j].rows[e].matchId == states[i].rows[e].matchId
    decreases j
  {
    if i < j {
      SameThroughout(cfg, states, labels, e, i, j - 1);
      ReachableIsOk(cfg, states, labels, j - 1);
      assert StepAt(cfg, states, labels, j - 1) && RepeatsAt(cfg, states, labels, e, j - 1);
      OutcomeStaysExactly(cfg, states[j - 1], labels[j - 1], states[j], e);
    }
  }

  /** Delivered and failed are final over a whole run, in the event and in its match, if and only
      if every write that finds the event delivered delivers it again and every write that finds
      it failed records a last failure again. */
  lemma FinalExactly(cfg: Settings, states: seq<State>, labels: seq<Label>, e: EventId)
    requires Run(cfg, states, labels)
    ensures (forall i, j {:trigger SameOutcome(states, e, i, j)} ::
               0 <= i <= j < |states| ==> SameOutcome(states, e, i, j)) <==>
            (forall k {:trigger RepeatsAt(cfg, states, labels, e, k)} ::
               0 <= k < |labels| ==> RepeatsAt(cfg, states, labels, e, k))
  {
    if forall i, j {:trigger SameOutcome(states, e, i, j)} :: 0 <= i <= j < |states| ==> SameOutcome(states, e, i, j) {
      forall k | 0 <= k < |labels| ensures RepeatsAt(cfg, states, labels, e, k) {
        assert SameOutcome(states, e, k, k + 1) && StepAt(cfg, states, labels, k);
        ReachableIsOk(cfg, states, labels, k);
        if e in states[k].rows && states[k].rows[e].Settled() {
          OutcomeStaysExactly(cfg, states[k], labels[k], states[k + 1], e);
        }
      }
    }
    if forall k {:trigger RepeatsAt(cfg, states, labels, e, k)} ::
         0 <= k < |labels| ==> RepeatsAt(cfg, states, labels, e, k)
    {
      forall i, j | 0 <= i <= j < |states| ensures SameOutcome(states, e, i, j) {
        if e in states[i].rows && states[i].rows[e].Settled() {
          SameThroughout(cfg, states, labels, e, i, j);
          ReachableIsOk(cfg, states, labels, i);
          ReachableIsOk(cfg, states, labels, j);
          assert RowOk(states[i], e) && RowOk(states[j], e);
        }
      }
    }
  }

  /** So delivered is not final: a dispatcher that loses the acknowledgement of its commit
      releases the claim, and the delivered event is pending again. */
  lemma DeliveredIsNotFinal(cfg: Settings, name: string, tenantId: string)
    returns (states: seq<State>, labels: seq<Label>)
    ensures Run(cfg, states, labels) && |labels| == 5
    ensures 7 in states[4].rows && states[4].rows[7].status.Delivered?
    ensures 7 in states[5].rows && states[5].rows[7].status.Pending? && states[5].matches == map[3 := CallbackDelivered]
  {
    labels := [Publish(7, tenantId, 3, 0), Start(0, name), Claim(0, 0, {7}), Deliver(0, 7, 0), Release(0, 7, 0)];
    var a := State(map[7 := Row(tenantId, 3, Pending, 0, 0, 0, None, None)], map[3 := Created], map[]);
    var b := a.(sessions := map[0 := Session(name, map[])]);
    var c := AfterClaim(cfg, b, 0, 0, {7});
    var d := AfterDeliver(c, 7);
    states := [Init, a, b, c, d, AfterRelease(d, 7)];
    assert Init.sessions - {0} == map[];
    forall i | 0 <= i < 5 ensures StepAt(cfg, states, labels, i) {
    }
  }
}
