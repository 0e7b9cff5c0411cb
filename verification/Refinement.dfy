/** Every step of the protocol keeps the invariant, and shows the committed database at most one
    atomic action: a commit exactly one, anything else none. */
module Refinement {
  import opened Sql
  import opened Pairing
  import opened Schema
  import opened Protocol
  import opened Invariant
  import opened Atomic

  // ----- What a commit does to the committed database -----

  /** A finished worker's pair may be matched: above all, the two players differ. */
  lemma BuiltPairCanMatch(cfg: Config, db: Db, w: Worker)
    requires OneActivePerPlayer(db) && w.pc.Built? && WritesOk(db, w)
    requires Agrees(db, w.pc.f) && Agrees(db, w.pc.s)
    requires w.own.matches.Keys !! db.matches.Keys && w.own.events.Keys !! db.events.Keys
    ensures CanMatch(db, w.pc.f.ticketId, w.pc.s.ticketId, w.pc.m, w.pc.e)
  {
    assert w.pc.m in w.own.matches && w.pc.e in w.own.events;
    assert !db.tickets[w.pc.f.ticketId].SamePlayerAndQueue(db.tickets[w.pc.s.ticketId]);
  }

  lemma BuiltWrites(db: Db, w: Worker)
    requires w.pc.Built? && WritesOk(db, w) && Agrees(db, w.pc.f) && Agrees(db, w.pc.s)
    ensures Merged(db, w.own) == MatchedPair(db, w.pc.f.ticketId, w.pc.s.ticketId, w.pc.m, w.pc.e)
  {
    var f, g := w.pc.f.ticketId, w.pc.s.ticketId;
    BuiltTickets(db.tickets, w.own.tickets, f, g);
    BuiltPlayers(db.players, w.pc.f, w.pc.s, w.pc.m);
    assert db.matches + map[w.pc.m := MatchRowFor(w.pc.f)] == db.matches[w.pc.m := MatchRowFor(w.pc.f)];
    var event := EventRowFor(w.pc.f, w.pc.s, w.pc.m);
    assert db.events + map[w.pc.e := event] == db.events[w.pc.e := event];
  }

  lemma BuiltTickets(tickets: map<TicketId, Ticket>, own: map<TicketId, Ticket>, f: TicketId, g: TicketId)
    requires own.Keys == {f, g}
    ensures tickets + own == tickets[f := own[f]][g := own[g]]
  {
  }

  lemma BuiltPlayers(players: map<(MatchId, TicketId), string>, f: WaitingTicket, g: WaitingTicket, m: MatchId)
    ensures players + PlayersWritten(f, g, m, 4) ==
            players[(m, f.ticketId) := f.playerId][(m, g.ticketId) := g.playerId]
  {
  }

  /** The private writes of a finished worker are one MatchPair action. */
  lemma CommitIsMatch(cfg: Config, s: State, sid: SessionId)
    requires OneActivePerPlayer(s.db) && sid in s.workers && WorkerOk(s.db, s.workers[sid]) && s.workers[sid].pc.Built?
    ensures var w := s.workers[sid];
            AtomicStep(cfg, s.db, MatchPair(w.pc.f.ticketId, w.pc.s.ticketId, w.pc.m, w.pc.e), Merged(s.db, w.own))
  {
    var w := s.workers[sid];
    assert Agrees(s.db, w.pc.f) && Agrees(s.db, w.pc.s);
    BuiltPairCanMatch(cfg, s.db, w);
    BuiltWrites(s.db, w);
  }

  /** The private rows of a finished request are one CreateTicket action. */
  lemma CommitIsCreate(cfg: Config, s: State, rid: RequestId)
    requires rid in s.requests && RequestOk(cfg, s.db, s.requests[rid]) && CanCommit(s.requests[rid])
    ensures var r := s.requests[rid];
            AtomicStep(cfg, s.db, CreateTicket(r.phase.ticketId, r.tenantId, r.key, r.body, r.phase.ticket.createdAt),
              Committed(s.db, r))
  {
  }

  /** `reserved` is never committed, so the cleanup statement finds nothing. */
  lemma CleanupFindsNothing(cfg: Config, db: Db, now: int)
    requires DbOk(cfg, db)
    ensures CleanedUp(db.tickets, now) == db.tickets
  {
    forall id | id in db.tickets ensures CleanupRow(db.tickets[id], now) == None {
      assert TicketOk(cfg, db, id);
    }
  }

  lemma CancelIsAtomic(cfg: Config, s: State, id: TicketId, tenantId: string, s': State)
    requires DbOk(cfg, s.db) && s' == AfterCancel(s, id, tenantId) && s' != s
    ensures AtomicStep(cfg, s.db, CancelTicket(id, tenantId), s'.db)
  {
    assert TicketOk(cfg, s.db, id);
  }

  // ----- What an action leaves of everybody else's private state -----

  /** A worker is not disturbed by an action that spares the rows it has locked. */
  lemma WorkerUndisturbed(db: Db, db': Db, w: Worker)
    requires WorkerOk(db, w) && Evolves(db, db')
    requires forall id :: id in w.locked && id in db.tickets ==> db'.tickets[id] == db.tickets[id]
    requires w.own.matches.Keys !! db'.matches.Keys && w.own.events.Keys !! db'.events.Keys
    ensures WorkerOk(db', w)
  {
    forall x | x in w.fetched ensures Agrees(db', x) {
      assert Agrees(db, x);
    }
  }

  /** A request is not disturbed by an action that adds neither its key nor its ticket. */
  lemma RequestUndisturbed(cfg: Config, db: Db, db': Db, r: Request)
    requires RequestOk(cfg, db, r) && Evolves(db, db')
    requires HoldsKey(r) && r.key.Some? && (r.tenantId, r.key.value) !in db.keys ==>
               (r.tenantId, r.key.value) !in db'.keys
    requires HoldsTicket(r) && r.phase.ticketId !in db.tickets ==> r.phase.ticketId !in db'.tickets
    requires HoldsTicket(r) && !UniqueIndexHit(db, r.phase.ticket) ==> !UniqueIndexHit(db', r.phase.ticket)
    ensures RequestOk(cfg, db', r)
  {
    if r.phase.Done? && r.phase.response.TicketCreated? {
      assert Agrees(db, r.phase.response.body);
    }
  }

  // ----- Each kind of step -----

  lemma WorkerCommitKeeps(cfg: Config, s: State, sid: SessionId, s': State)
    requires Inv(cfg, s) && sid in s.workers && s.workers[sid].pc.Built? && s' == AfterWorkerCommit(s, sid)
    ensures Inv(cfg, s')
  {
    var pc := s.workers[sid].pc;
    assert WorkerOk(s.db, s.workers[sid]);
    CommitIsMatch(cfg, s, sid);
    var a := MatchPair(pc.f.ticketId, pc.s.ticketId, pc.m, pc.e);
    AtomicStepKeeps(cfg, s.db, a, s'.db);
    AtomicEvolves(cfg, s.db, a, s'.db);
    WorkerCommitKeepsWorkers(s, sid, s');
    ActionKeepsRequests(cfg, s, a, s');
  }

  /** Actions other than creating a ticket disturb no request. */
  lemma ActionKeepsRequests(cfg: Config, s: State, a: Action, s': State)
    requires RequestsOk(cfg, s) && s'.requests == s.requests
    requires AtomicStep(cfg, s.db, a, s'.db) && !a.CreateTicket? && Evolves(s.db, s'.db)
    ensures RequestsOk(cfg, s')
  {
    MatchLeavesIndex(cfg, s.db, a, s'.db);
    assert s'.db.keys == s.db.keys && s'.db.tickets.Keys == s.db.tickets.Keys;
    forall i | i in s.requests ensures RequestOk(cfg, s'.db, s'.requests[i]) {
      RequestUndisturbed(cfg, s.db, s'.db, s.requests[i]);
    }
  }

  lemma MatchLeavesIndex(cfg: Config, db: Db, a: Action, db': Db)
    requires AtomicStep(cfg, db, a, db') && !a.CreateTicket?
    ensures forall t :: UniqueIndexHit(db', t) ==> UniqueIndexHit(db, t)
  {
    forall t | UniqueIndexHit(db', t) ensures UniqueIndexHit(db, t) {
      var id :| id in db'.tickets && db'.tickets[id].Active() && db'.tickets[id].SamePlayerAndQueue(t);
      assert db.tickets[id].Active() && db.tickets[id].SamePlayerAndQueue(t);
    }
  }

  lemma CommitSparesOthers(s: State, sid: SessionId, i: SessionId)
    requires sid in s.workers && i in s.workers && i != sid && s.workers[sid].pc.Built?
    requires WorkerOk(s.db, s.workers[sid]) && WorkerOk(s.db, s.workers[i])
             && WorkersApart(s.workers[i], s.workers[sid])
    requires Evolves(s.db, Merged(s.db, s.workers[sid].own))
    ensures WorkerOk(Merged(s.db, s.workers[sid].own), s.workers[i])
  {
    WorkerUndisturbed(s.db, Merged(s.db, s.workers[sid].own), s.workers[i]);
  }

  lemma CommitLeavesCommitter(s: State, sid: SessionId, db': Db)
    requires sid in s.workers && WorkerOk(s.db, s.workers[sid]) && Evolves(s.db, db')
    ensures WorkerOk(db', s.workers[sid].(own := NoWrites, locked := {}, saved := None, pc := Idle))
  {
    forall x | x in s.workers[sid].fetched ensures Agrees(db', x) {
      assert Agrees(s.db, x);
    }
  }

  lemma CommitKeepsApart(s: State, sid: SessionId, i: SessionId, j: SessionId)
    requires sid in s.workers && i in s.workers && j in s.workers && WorkersApart(s.workers[i], s.workers[j])
    ensures WorkersApart(AfterWorkerCommit(s, sid).workers[i], AfterWorkerCommit(s, sid).workers[j])
  {
  }

  lemma WorkerCommitKeepsWorkers(s: State, sid: SessionId, s': State)
    requires WorkersOk(s) && sid in s.workers && s.workers[sid].pc.Built? && s' == AfterWorkerCommit(s, sid)
    requires Evolves(s.db, s'.db)
    ensures WorkersOk(s')
  {
    forall i | i in s'.workers ensures WorkerOk(s'.db, s'.workers[i]) {
      assert WorkerOk(s.db, s.workers[i]) && WorkerOk(s.db, s.workers[sid]);
      if i != sid {
        assert WorkersApart(s.workers[i], s.workers[sid]);
        CommitSparesOthers(s, sid, i);
      } else {
        CommitLeavesCommitter(s, sid, s'.db);
      }
    }
    forall i, j | i in s'.workers && j in s'.workers && i != j ensures WorkersApart(s'.workers[i], s'.workers[j]) {
      assert WorkersApart(s.workers[i], s.workers[j]);
      CommitKeepsApart(s, sid, i, j);
    }
  }

  /** Actions on the committed database that spare every locked row. */
  lemma ActionKeepsWorkers(s: State, s': State)
    requires WorkersOk(s) && s'.workers == s.workers && Evolves(s.db, s'.db)
    requires forall id :: id in s.db.tickets && Locked(s, id) ==> s'.db.tickets[id] == s.db.tickets[id]
    requires s'.db.matches.Keys == s.db.matches.Keys && s'.db.events.Keys == s.db.events.Keys
    ensures WorkersOk(s')
  {
    forall i | i in s.workers ensures WorkerOk(s'.db, s'.workers[i]) {
      assert WorkerOk(s.db, s.workers[i]);
      assert forall id :: id in s.workers[i].locked ==> Locked(s, id);
      WorkerUndisturbed(s.db, s'.db, s.workers[i]);
    }
  }

  lemma RequestCommitKeeps(cfg: Config, s: State, rid: RequestId, s': State)
    requires Inv(cfg, s) && rid in s.requests && CanCommit(s.requests[rid]) && s' == AfterRequestCommit(s, rid)
    ensures Inv(cfg, s')
  {
    var r := s.requests[rid];
    assert RequestOk(cfg, s.db, r);
    CommitIsCreate(cfg, s, rid);
    var a := CreateTicket(r.phase.ticketId, r.tenantId, r.key, r.body, r.phase.ticket.createdAt);
    AtomicStepKeeps(cfg, s.db, a, s'.db);
    AtomicEvolves(cfg, s.db, a, s'.db);
    ActionKeepsWorkers(s, s');
    RequestCommitKeepsRequests(cfg, s, rid, s');
  }

  lemma RequestCommitKeepsRequests(cfg: Config, s: State, rid: RequestId, s': State)
    requires RequestsOk(cfg, s) && rid in s.requests && CanCommit(s.requests[rid]) && s' == AfterRequestCommit(s, rid)
    requires Evolves(s.db, s'.db)
    ensures RequestsOk(cfg, s')
  {
    var r := s.requests[rid];
    assert RequestOk(cfg, s.db, r);
    forall i | i in s'.requests ensures RequestOk(cfg, s'.db, s'.requests[i]) {
      if i != rid {
        OthersSeeNoClash(cfg, s, rid, i);
        RequestUndisturbed(cfg, s.db, s'.db, s.requests[i]);
      }
    }
    forall i, j | i in s'.requests && j in s'.requests && i != j ensures RequestsApart(s'.requests[i], s'.requests[j]) {
      CreatedTicketsDiffer(cfg, s, rid, s', i, j);
    }
  }

  lemma OthersSeeNoClash(cfg: Config, s: State, rid: RequestId, i: RequestId)
    requires RequestsOk(cfg, s) && rid in s.requests && i in s.requests && i != rid && CanCommit(s.requests[rid])
    ensures var q, db' := s.requests[i], Committed(s.db, s.requests[rid]);
            && RequestOk(cfg, s.db, q)
            && (HoldsKey(q) && q.key.Some? && (q.tenantId, q.key.value) !in s.db.keys ==>
                 (q.tenantId, q.key.value) !in db'.keys)
            && (HoldsTicket(q) && q.phase.ticketId !in s.db.tickets ==> q.phase.ticketId !in db'.tickets)
            && (HoldsTicket(q) && !UniqueIndexHit(s.db, q.phase.ticket) ==> !UniqueIndexHit(db', q.phase.ticket))
  {
    var q, r := s.requests[i], s.requests[rid];
    assert RequestOk(cfg, s.db, q) && RequestOk(cfg, s.db, r) && RequestsApart(q, r);
  }

  lemma CreatedTicketsDiffer(cfg: Config, s: State, rid: RequestId, s': State, i: RequestId, j: RequestId)
    requires RequestsOk(cfg, s) && rid in s.requests && CanCommit(s.requests[rid]) && s' == AfterRequestCommit(s, rid)
    requires i in s.requests && j in s.requests && i != j
    ensures RequestsApart(s'.requests[i], s'.requests[j])
  {
    assert RequestsApart(s.requests[i], s.requests[j]);
    assert RequestOk(cfg, s.db, s.requests[i]) && RequestOk(cfg, s.db, s.requests[j]);
  }

  lemma HandleKeepsOwn(cfg: Config, s: State, rid: RequestId, l: RequestLabel)
    requires RequestsOk(cfg, s) && rid in s.requests && Handle(cfg, s, rid, l).Some?
    ensures RequestOk(cfg, s.db, s.requests[rid].(phase := Handle(cfg, s, rid, l).value))
  {
    assert RequestOk(cfg, s.db, s.requests[rid]);
  }

  lemma HandleStaysApart(cfg: Config, s: State, rid: RequestId, l: RequestLabel, o: RequestId)
    requires rid in s.requests && o in s.requests && o != rid && Handle(cfg, s, rid, l).Some?
    requires RequestsApart(s.requests[rid], s.requests[o]) && RequestOk(cfg, s.db, s.requests[rid])
    ensures RequestsApart(s.requests[rid].(phase := Handle(cfg, s, rid, l).value), s.requests[o])
  {
  }

  lemma RequestStepKeeps(cfg: Config, s: State, rid: RequestId, l: RequestLabel, s': State)
    requires Inv(cfg, s) && rid in s.requests && Handle(cfg, s, rid, l).Some? && s' == AfterHandling(cfg, s, rid, l)
    ensures Inv(cfg, s')
  {
    HandleKeepsOwn(cfg, s, rid, l);
    forall o | o in s.requests && o != rid
      ensures RequestsApart(s'.requests[rid], s'.requests[o]) && RequestsApart(s'.requests[o], s'.requests[rid])
    {
      assert RequestsApart(s.requests[rid], s.requests[o]) && RequestOk(cfg, s.db, s.requests[rid]);
      HandleStaysApart(cfg, s, rid, l, o);
    }
  }

  lemma CancelKeeps(cfg: Config, s: State, id: TicketId, tenantId: string, s': State)
    requires Inv(cfg, s) && !Locked(s, id) && s' == AfterCancel(s, id, tenantId)
    ensures Inv(cfg, s')
  {
    if s' != s {
      CancelIsAtomic(cfg, s, id, tenantId, s');
      QuietActionKeeps(cfg, s, CancelTicket(id, tenantId), s');
    }
  }

  /** Cancelling and delivering disturb neither workers nor requests. */
  lemma QuietActionKeeps(cfg: Config, s: State, a: Action, s': State)
    requires Inv(cfg, s) && AtomicStep(cfg, s.db, a, s'.db) && s' == s.(db := s'.db)
    requires a.CancelTicket? || a.Deliver?
    requires a.CancelTicket? ==> !Locked(s, a.id)
    ensures Inv(cfg, s')
  {
    AtomicStepKeeps(cfg, s.db, a, s'.db);
    AtomicEvolves(cfg, s.db, a, s'.db);
    ActionKeepsWorkers(s, s');
    ActionKeepsRequests(cfg, s, a, s');
  }

  lemma JoinKeeps(cfg: Config, s: State, sid: SessionId, name: string)
    requires Inv(cfg, s) && sid !in s.workers
    ensures Inv(cfg, s.(workers := s.workers[sid := Worker(name, {}, {}, NoWrites, None, Idle)]))
  {
    ReplaceWorker(s, sid, Worker(name, {}, {}, NoWrites, None, Idle));
  }

  lemma ArriveKeeps(cfg: Config, s: State, rid: RequestId, r: Request)
    requires Inv(cfg, s) && rid !in s.requests && r.phase.Arrived?
    ensures Inv(cfg, s.(requests := s.requests[rid := r]))
  {
    var s' := s.(requests := s.requests[rid := r]);
    forall i | i in s'.requests ensures RequestOk(cfg, s'.db, s'.requests[i]) {
      assert i != rid ==> RequestOk(cfg, s.db, s.requests[i]);
    }
    forall i, j | i in s'.requests && j in s'.requests && i != j ensures RequestsApart(s'.requests[i], s'.requests[j]) {
      assert i != rid && j != rid ==> RequestsApart(s.requests[i], s.requests[j]);
    }
  }

  lemma NextKeeps(cfg: Config, s: State, l: Label, s': State)
    requires Inv(cfg, s) && Next(cfg, s, l, s')
    ensures Inv(cfg, s')
  {
    match l
    case Join(sid, name) => JoinKeeps(cfg, s, sid, name);
    case WorkerStep(sid, wl) => WorkerStepKeeps(cfg, s, sid, wl);
    case WorkerCommit(sid) => WorkerCommitKeeps(cfg, s, sid, s');
    case Arrive(rid, tenantId, key, body) => ArriveKeeps(cfg, s, rid, Request(tenantId, key, body, Arrived));
    case RequestStep(rid, rl) => RequestStepKeeps(cfg, s, rid, rl, s');
    case RequestCommit(rid) => RequestCommitKeeps(cfg, s, rid, s');
    case Cancel(id, tenantId) => CancelKeeps(cfg, s, id, tenantId, s');
    case Cleanup(now) => CleanupFindsNothing(cfg, s.db, now);
    case Dispatch(after) => QuietActionKeeps(cfg, s, Deliver, s');
  }
}
