/** The savepoint inside a match transaction: when a statement in it fails, the handler leaves the
    transaction as if the match had never been begun. */
module Savepoint {
  import opened Sql
  import opened Pairing
  import opened Schema
  import opened Protocol
  import opened Invariant
  import opened ProtocolTheorems

  predicate Of(l: Label, sid: SessionId) {
    (l.WorkerStep? || l.WorkerCommit? || l.Join?) && l.sid == sid
  }

  /** From step `i` up to step `j` the worker takes no step. */
  ghost predicate Quiet(labels: seq<Label>, sid: SessionId, i: int, j: int) {
    forall k :: i <= k < j && 0 <= k < |labels| ==> !Of(labels[k], sid)
  }

  /** From step `i` up to step `j` it only inserts players and marks tickets matched. */
  ghost predicate Filling(labels: seq<Label>, sid: SessionId, i: int, j: int) {
    forall k :: i <= k < j && 0 <= k < |labels| && Of(labels[k], sid) ==>
      labels[k].WorkerStep? && (labels[k].w.InsertPlayer? || labels[k].w.MarkMatched?)
  }

  lemma OthersLeaveIt(cfg: Config, s: State, l: Label, s': State, sid: SessionId)
    requires Next(cfg, s, l, s') && sid in s.workers && !Of(l, sid)
    ensures sid in s'.workers && s'.workers[sid] == s.workers[sid]
  {
  }

  lemma {:induction false} StaysQuiet(cfg: Config, states: seq<State>, labels: seq<Label>, sid: SessionId, i: nat,
                                      j: nat)
    requires RunFromStart(cfg, states, labels) && i <= j < |states| && sid in states[i].workers
    requires Quiet(labels, sid, i, j)
    ensures sid in states[j].workers && states[j].workers[sid] == states[i].workers[sid]
    decreases j
  {
    if i < j {
      StaysQuiet(cfg, states, labels, sid, i, j - 1);
      assert StepAt(cfg, states, labels, j - 1) && !Of(labels[j - 1], sid);
      OthersLeaveIt(cfg, states[j - 1], labels[j - 1], states[j], sid);
    }
  }

  /** The savepoint remembers the writes it was set on. */
  lemma {:induction false} Remembers(cfg: Config, states: seq<State>, labels: seq<Label>, sid: SessionId, i: nat,
                                     j: nat)
    requires RunFromStart(cfg, states, labels) && i <= j < |states| && sid in states[i].workers
    requires states[i].workers[sid].pc.Inside? && Filling(labels, sid, i, j)
    ensures sid in states[j].workers && states[j].workers[sid].pc.Inside?
    ensures var w, before := states[j].workers[sid], states[i].workers[sid];
            w.saved == before.saved && w.name == before.name && w.pc.f == before.pc.f && w.pc.s == before.pc.s
    decreases j
  {
    if i < j {
      Remembers(cfg, states, labels, sid, i, j - 1);
      assert StepAt(cfg, states, labels, j - 1);
      if !Of(labels[j - 1], sid) {
        OthersLeaveIt(cfg, states[j - 1], labels[j - 1], states[j], sid);
      }
    }
  }

  /** The two releases of the handler, on the reservations the savepoint remembers. */
  lemma Unwound(s: State, t: State, sid: SessionId, own: Writes)
    requires sid in s.workers && s.workers[sid].own == own
    requires s.workers[sid].pc.Unwinding? && s.workers[sid].pc.done == 0
    requires Execute(s, sid, Unwind).Some? && sid in t.workers && t.workers[sid] == Execute(s, sid, Unwind).value
    requires Execute(t, sid, Unwind).Some?
    requires var w := s.workers[sid];
             && w.pc.f.ticketId != w.pc.s.ticketId && w.pc.f.ticketId in own.tickets && w.pc.s.ticketId in own.tickets
             && ReleaseRow(own.tickets[w.pc.f.ticketId], w.name).Some?
             && ReleaseRow(own.tickets[w.pc.s.ticketId], w.name).Some?
    ensures var w, u := s.workers[sid], Execute(t, sid, Unwind).value;
            && u.own == own.(tickets := u.own.tickets) && u.pc.MustRollBack?
            && w.pc.f.ticketId in u.own.tickets && w.pc.s.ticketId in u.own.tickets
            && Some(u.own.tickets[w.pc.f.ticketId]) == ReleaseRow(own.tickets[w.pc.f.ticketId], w.name)
            && Some(u.own.tickets[w.pc.s.ticketId]) == ReleaseRow(own.tickets[w.pc.s.ticketId], w.name)
  {
  }

  /** With both tickets reserved and nothing else written, releasing them restores the committed rows. */
  lemma ReleaseRestores(cfg: Config, s: State, sid: SessionId)
    requires Inv(cfg, s) && sid in s.workers && s.workers[sid].pc.HaveBoth?
    ensures var w, db := s.workers[sid], s.db;
            var f, g := w.pc.f.ticketId, w.pc.s.ticketId;
            && f != g && w.own == NoWrites.(tickets := w.own.tickets)
            && f in w.own.tickets && g in w.own.tickets && f in db.tickets && g in db.tickets
            && db.tickets[f].status.Waiting? && db.tickets[g].status.Waiting?
            && ReleaseRow(w.own.tickets[f], w.name) == Some(db.tickets[f])
            && ReleaseRow(w.own.tickets[g], w.name) == Some(db.tickets[g])
  {
    var w := s.workers[sid];
    assert WorkerOk(s.db, w);
    assert TicketOk(cfg, s.db, w.pc.f.ticketId) && TicketOk(cfg, s.db, w.pc.s.ticketId);
  }

  /** Setting the savepoint, and going back to it. */
  lemma Sets(cfg: Config, s: State, s': State, sid: SessionId, m: MatchId)
    requires Next(cfg, s, WorkerStep(sid, InsertMatch(m)), s')
    ensures sid in s.workers && s.workers[sid].pc.HaveBoth? && sid in s'.workers
    ensures var w, w' := s.workers[sid], s'.workers[sid];
            w'.saved == Some(w.own) && w'.name == w.name && w'.pc == Inside(w.pc.f, w.pc.s, m, 0)
  {
  }

  lemma GoesBack(cfg: Config, s: State, s': State, sid: SessionId)
    requires Next(cfg, s, WorkerStep(sid, FailInside), s') && sid in s.workers && s.workers[sid].pc.Inside?
    ensures sid in s'.workers
    ensures var w, w' := s.workers[sid], s'.workers[sid];
            Some(w'.own) == w.saved && w'.name == w.name && w'.pc == Unwinding(w.pc.f, w.pc.s, 0)
  {
  }

  /** Whatever was written since the savepoint is gone after a failure. */
  lemma SavepointRestores(cfg: Config, states: seq<State>, labels: seq<Label>, sid: SessionId, m: MatchId, a: nat,
                          b: nat)
    requires RunFromStart(cfg, states, labels) && a < b < |labels| && Filling(labels, sid, a + 1, b)
    requires labels[a] == WorkerStep(sid, InsertMatch(m)) && labels[b] == WorkerStep(sid, FailInside)
    ensures sid in states[a].workers && sid in states[b + 1].workers && states[a].workers[sid].pc.HaveBoth?
    ensures var w, w' := states[a].workers[sid], states[b + 1].workers[sid];
            w'.own == w.own && w'.name == w.name && w'.pc == Unwinding(w.pc.f, w.pc.s, 0)
  {
    assert StepAt(cfg, states, labels, a) && StepAt(cfg, states, labels, b);
    Sets(cfg, states[a], states[a + 1], sid, m);
    Remembers(cfg, states, labels, sid, a + 1, b);
    GoesBack(cfg, states[b], states[b + 1], sid);
  }

  /** A failure inside the savepoint, and the handler's two releases after it, with others acting
      in between as they like: the worker's transaction holds no row of the match any more, and sees
      both tickets as they were committed before it reserved them. */
  lemma FailureIsUndone(cfg: Config, states: seq<State>, labels: seq<Label>, sid: SessionId, m: MatchId,
                        a: nat, b: nat, c: nat, d: nat)
    requires RunFromStart(cfg, states, labels) && a < b < c < d < |labels|
    requires labels[a] == WorkerStep(sid, InsertMatch(m)) && labels[b] == WorkerStep(sid, FailInside)
    requires labels[c] == labels[d] == WorkerStep(sid, Unwind)
    requires Filling(labels, sid, a + 1, b) && Quiet(labels, sid, b + 1, c) && Quiet(labels, sid, c + 1, d)
    ensures sid in states[a].workers && states[a].workers[sid].pc.HaveBoth? && sid in states[d + 1].workers
    ensures var f, g := states[a].workers[sid].pc.f.ticketId, states[a].workers[sid].pc.s.ticketId;
            var own, tickets := states[d + 1].workers[sid].own, states[a].db.tickets;
            && own == NoWrites.(tickets := own.tickets) && f in own.tickets && g in own.tickets
            && f in tickets && g in tickets && own.tickets[f] == tickets[f] && own.tickets[g] == tickets[g]
            && tickets[f].status.Waiting? && tickets[g].status.Waiting?
  {
    ReachableIsOk(cfg, states, labels, a);
    SavepointRestores(cfg, states, labels, sid, m, a, b);
    ReleaseRestores(cfg, states[a], sid);
    assert StepAt(cfg, states, labels, c) && StepAt(cfg, states, labels, d);
    StaysQuiet(cfg, states, labels, sid, b + 1, c);
    StaysQuiet(cfg, states, labels, sid, c + 1, d);
    Unwound(states[c], states[d], sid, states[a].workers[sid].own);
  }
}
