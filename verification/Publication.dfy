/** The ticket protocol and the outbox are two views of one database: a committed match is what
    publishes an event, and everything a dispatcher does is, to the protocol, a write to the
    delivery columns. */
module Publication {
  import opened Sql
  import opened Schema
  import opened Claiming
  import opened Pairing
  import P = Protocol
  import O = Outbox
  import Invariant
  import Refinement
  import Atomic
  import ProtocolTheorems

  ghost predicate SameEvent(event: Event, row: Row) {
    event.tenantId == row.tenantId && event.matchId == row.matchId && event.status == row.status
  }

  ghost predicate InSync(db: Db, o: O.State) {
    && db.events.Keys == o.rows.Keys && db.matches.Keys == o.matches.Keys
    && (forall e :: e in o.rows ==> SameEvent(db.events[e], o.rows[e]))
    && (forall m :: m in o.matches ==> db.matches[m].status == o.matches[m])
  }

  /** The database with the delivery columns of the outbox. */
  function WithColumns(db: Db, o: O.State): Db {
    db.(events := map e | e in db.events ::
          if e in o.rows then db.events[e].(status := o.rows[e].status) else db.events[e],
        matches := map m | m in db.matches ::
          if m in o.matches then db.matches[m].(status := o.matches[m]) else db.matches[m])
  }

  /** Dispatchers neither add nor remove rows, nor move an event to another match or tenant. */
  ghost predicate SameRows(o: O.State, o': O.State) {
    && o'.rows.Keys == o.rows.Keys && o'.matches.Keys == o.matches.Keys
    && forall e :: e in o.rows ==> o'.rows[e].matchId == o.rows[e].matchId && o'.rows[e].tenantId == o.rows[e].tenantId
  }

  lemma DispatchersKeepRows(settings: O.Settings, o: O.State, l: O.Label, o': O.State)
    requires O.Inv(o) && O.Next(settings, o, l, o') && !l.Publish?
    ensures SameRows(o, o')
  {
    forall e | e in o.rows ensures o.rows[e].matchId in o.matches {
      assert O.RowOk(o, e);
    }
  }

  lemma ColumnsStaySame(db: Db, o: O.State, o': O.State)
    requires InSync(db, o) && SameRows(o, o')
    ensures P.OnlyDeliveryColumns(db, WithColumns(db, o')) && InSync(WithColumns(db, o'), o')
  {
  }

  /** A dispatcher's step, or anything else the outbox does on its own, is one dispatch step of
      the protocol. */
  lemma DeliveryIsDispatch(cfg: Config, settings: O.Settings, p: P.State, o: O.State, l: O.Label, o': O.State)
    requires InSync(p.db, o) && O.Inv(o) && O.Next(settings, o, l, o') && !l.Publish?
    ensures P.Next(cfg, p, P.Dispatch(WithColumns(p.db, o')), p.(db := WithColumns(p.db, o')))
    ensures InSync(WithColumns(p.db, o'), o')
  {
    DispatchersKeepRows(settings, o, l, o');
    ColumnsStaySame(p.db, o, o');
  }

  function Published(o: O.State, first: WaitingTicket, m: MatchId, e: EventId, now: int): O.State {
    o.(rows := o.rows[e := Row(first.tenantId, m, EventStatus.Pending, 0, now, now, None, None)],
       matches := o.matches[m := MatchStatus.Created])
  }

  lemma MatchPublishes(db: Db, o: O.State, f: TicketId, s: TicketId, m: MatchId, e: EventId, now: int)
    requires InSync(db, o) && Atomic.CanMatch(db, f, s, m, e)
    ensures e !in o.rows && m !in o.matches
    ensures InSync(Atomic.MatchedPair(db, f, s, m, e), Published(o, Snapshot(f, db.tickets[f]), m, e, now))
  {
    assert e !in db.events.Keys && m !in db.matches.Keys;
  }

  /** A worker's commit publishes exactly its match and its event. */
  lemma CommitIsPublish(cfg: Config, settings: O.Settings, p: P.State, o: O.State, sid: P.SessionId, now: int)
    returns (o': O.State)
    requires Invariant.Inv(cfg, p) && InSync(p.db, o) && sid in p.workers && p.workers[sid].pc.Built?
    ensures var pc := p.workers[sid].pc; O.Next(settings, o, O.Publish(pc.e, pc.f.tenantId, pc.m, now), o')
    ensures InSync(P.AfterWorkerCommit(p, sid).db, o')
  {
    var w := p.workers[sid];
    var pc := w.pc;
    assert Invariant.WorkerOk(p.db, w);
    assert Invariant.Agrees(p.db, pc.f);
    Refinement.CommitIsMatch(cfg, p, sid);
    MatchPublishes(p.db, o, pc.f.ticketId, pc.s.ticketId, pc.m, pc.e, now);
    o' := Published(o, pc.f, pc.m, pc.e, now);
  }

  /** No other step of the protocol touches an event or a match. */
  lemma OthersLeaveOutbox(cfg: Config, p: P.State, o: O.State, l: P.Label, p': P.State)
    requires InSync(p.db, o) && P.Next(cfg, p, l, p') && !l.WorkerCommit? && !l.Dispatch?
    ensures InSync(p'.db, o)
  {
    assert p'.db.events == p.db.events && p'.db.matches == p.db.matches;
  }

  // ----- The whole system -----

  /** One step of everything: the protocol works, a worker commits and thereby publishes, or a
      dispatcher acts. */
  datatype Label = Work(w: P.Label) | Commit(sid: P.SessionId, now: int) | Delivery(d: O.Label)

  datatype System = System(p: P.State, o: O.State)

  predicate Next(cfg: Config, settings: O.Settings, s: System, l: Label, s': System) {
    match l
    case Work(w) => !w.WorkerCommit? && !w.Dispatch? && P.Next(cfg, s.p, w, s'.p) && s'.o == s.o
    case Commit(sid, now) =>
      && sid in s.p.workers && s.p.workers[sid].pc.Built? && s'.p == P.AfterWorkerCommit(s.p, sid)
      && s'.o == Published(s.o, s.p.workers[sid].pc.f, s.p.workers[sid].pc.m, s.p.workers[sid].pc.e, now)
    case Delivery(d) =>
      !d.Publish? && O.Next(settings, s.o, d, s'.o) && s'.p == s.p.(db := WithColumns(s.p.db, s'.o))
  }

  /** The step as the protocol sees it. */
  function ProtocolLabel(l: Label, s': System): P.Label {
    match l
    case Work(w) => w
    case Commit(sid, _) => P.WorkerCommit(sid)
    case Delivery(_) => P.Dispatch(s'.p.db)
  }

  ghost predicate Ok(cfg: Config, s: System) {
    Invariant.Inv(cfg, s.p) && O.Inv(s.o) && InSync(s.p.db, s.o)
  }

  /** Every step of the system is a step of the protocol, and a step or a stutter of the outbox. */
  lemma StepOfBoth(cfg: Config, settings: O.Settings, s: System, l: Label, s': System)
    requires Ok(cfg, s) && Next(cfg, settings, s, l, s')
    ensures P.Next(cfg, s.p, ProtocolLabel(l, s'), s'.p)
    ensures s'.o == s.o || exists d :: O.Next(settings, s.o, d, s'.o)
    ensures Ok(cfg, s')
  {
    match l
    case Work(w) =>
      OthersLeaveOutbox(cfg, s.p, s.o, w, s'.p);
      Refinement.NextKeeps(cfg, s.p, w, s'.p);
    case Commit(sid, now) =>
      var o' := CommitIsPublish(cfg, settings, s.p, s.o, sid, now);
      var pc := s.p.workers[sid].pc;
      O.NextKeeps(settings, s.o, O.Publish(pc.e, pc.f.tenantId, pc.m, now), s'.o);
      Refinement.NextKeeps(cfg, s.p, P.WorkerCommit(sid), s'.p);
    case Delivery(d) =>
      DeliveryIsDispatch(cfg, settings, s.p, s.o, d, s'.o);
      O.NextKeeps(settings, s.o, d, s'.o);
      Refinement.NextKeeps(cfg, s.p, P.Dispatch(s'.p.db), s'.p);
  }

  ghost predicate StepAt(cfg: Config, settings: O.Settings, states: seq<System>, labels: seq<Label>, i: int)
    requires |states| == |labels| + 1 && 0 <= i < |labels|
  {
    Next(cfg, settings, states[i], labels[i], states[i + 1])
  }

  ghost predicate Run(cfg: Config, settings: O.Settings, states: seq<System>, labels: seq<Label>) {
    && |states| == |labels| + 1 && states[0] == System(P.Init, O.Init)
    && forall i {:trigger StepAt(cfg, settings, states, labels, i)} :: 0 <= i < |labels| ==>
         StepAt(cfg, settings, states, labels, i)
  }

  lemma StartIsOk(cfg: Config)
    ensures Ok(cfg, System(P.Init, O.Init))
  {
  }

  lemma {:induction false} ReachableIsOk(cfg: Config, settings: O.Settings, states: seq<System>, labels: seq<Label>,
                                         i: nat)
    requires Run(cfg, settings, states, labels) && i < |states|
    ensures Ok(cfg, states[i])
  {
    if i == 0 {
      StartIsOk(cfg);
    } else {
      ReachableIsOk(cfg, settings, states, labels, i - 1);
      assert StepAt(cfg, settings, states, labels, i - 1);
      StepOfBoth(cfg, settings, states[i - 1], labels[i - 1], states[i]);
    }
  }

  /** In every reachable state of the whole system each match has one outbox event, which names
      its two players, and the match says delivered or failed whenever the event does. */
  lemma EveryMatchIsAnnounced(cfg: Config, settings: O.Settings, states: seq<System>, labels: seq<Label>, i: nat,
                              m: MatchId)
    returns (a: TicketId, b: TicketId, e: EventId)
    requires Run(cfg, settings, states, labels) && i < |states| && m in states[i].p.db.matches
    ensures var db, row := states[i].p.db, if e in states[i].o.rows then Some(states[i].o.rows[e]) else None;
            && a != b && ProtocolTheorems.PlayersOf(db, m) == {a, b} && a in db.tickets && b in db.tickets
            && e in db.events
            && db.events[e].players == [Player(db.tickets[a].playerId, a), Player(db.tickets[b].playerId, b)]
            && row.Some? && row.value.matchId == m
            && (forall o :: o in states[i].o.rows && states[i].o.rows[o].matchId == m ==> o == e)
            && (row.value.status.Delivered? ==> db.matches[m].status.CallbackDelivered?)
            && (row.value.status.Failed? ==> db.matches[m].status.CallbackFailed?)
  {
    ReachableIsOk(cfg, settings, states, labels, i);
    var p, o := states[i].p, states[i].o;
    a, b, e := ProtocolTheorems.MatchIsWhole(cfg, p, m);
    assert e in (set x | x in p.db.events && p.db.events[x].matchId == m);
    assert e in o.rows && SameEvent(p.db.events[e], o.rows[e]);
    assert O.RowOk(o, e);
  }
}
