/** What holds of every reachable state of the protocol, committed and private. */
module Invariant {
  import opened Sql
  import opened Pairing
  import opened Schema
  import opened Protocol

  /** Snapshots never go stale: the columns a worker reads are never updated. */
  ghost predicate Agrees(db: Db, x: WaitingTicket) {
    x.ticketId in db.tickets && Snapshot(x.ticketId, db.tickets[x.ticketId]) == x
  }

  // ----- Committed data -----

  ghost predicate TicketOk(cfg: Config, db: Db, id: TicketId)
    requires id in db.tickets
  {
    var t := db.tickets[id];
    && Some(t.partitionId) == ComputePartitionId(cfg.hash, t.tenantId, t.region, t.queueName, cfg.partitions)
    && !t.status.Reserved? && t.reservedBy == None && t.reservedUntil == None
    && (t.status.Matched? <==> t.matchId.Some?)
    && (t.status.Matched? ==> (t.matchId.value, id) in db.players)
  }

  ghost predicate PlaysIn(db: Db, m: MatchId, id: TicketId)
    requires m in db.matches
  {
    && id in db.tickets && (m, id) in db.players
    && var t, row := db.tickets[id], db.matches[m];
    && t.status.Matched? && t.matchId == Some(m) && db.players[(m, id)] == t.playerId
    && row.tenantId == t.tenantId && row.region == t.region && row.queueName == t.queueName
    && row.partitionId == t.partitionId
  }

  /** Match `m` has exactly the players of the distinct tickets `a` and `b`, who differ, and
      exactly the outbox event `e`, which names those two players in order. */
  ghost predicate MatchOk(db: Db, m: MatchId, a: TicketId, b: TicketId, e: EventId)
    requires m in db.matches
  {
    && a != b && PlaysIn(db, m, a) && PlaysIn(db, m, b)
    && db.tickets[a].playerId != db.tickets[b].playerId
    && (forall id :: (m, id) in db.players ==> id == a || id == b)
    && e in db.events && db.events[e].matchId == m
    && (forall o :: o in db.events && db.events[o].matchId == m ==> o == e)
    && db.events[e].players == [Player(db.tickets[a].playerId, a), Player(db.tickets[b].playerId, b)]
    && db.events[e].tenantId == db.matches[m].tenantId && db.events[e].region == db.matches[m].region
    && db.events[e].queueName == db.matches[m].queueName
  }

  ghost predicate Complete(db: Db, m: MatchId)
    requires m in db.matches
  {
    exists a, b, e :: MatchOk(db, m, a, b, e)
  }

  ghost predicate MatchesOk(db: Db) {
    && (forall m {:trigger Complete(db, m)} :: m in db.matches ==> Complete(db, m))
    && (forall m, id :: (m, id) in db.players ==> m in db.matches)
    && (forall e :: e in db.events ==> db.events[e].matchId in db.matches)
  }

  ghost predicate OneActivePerPlayer(db: Db) {
    forall a, b :: a in db.tickets && b in db.tickets && a != b && db.tickets[a].Active() && db.tickets[b].Active() ==>
      !db.tickets[a].SamePlayerAndQueue(db.tickets[b])
  }

  /** A committed key row is final: it stores the response for a ticket that exists. */
  ghost predicate KeyOk(cfg: Config, db: Db, k: (string, string))
    requires k in db.keys
  {
    var row := db.keys[k];
    && row.responseStatus == 201 && row.body.Some? && row.ticketId == Some(row.body.value.ticketId)
    && row.body.value.tenantId == k.0 && Agrees(db, row.body.value)
    && row.requestHash == cfg.requestHash(AskedFor(row.body.value))
  }

  /** The request body that a stored response answers. */
  function AskedFor(body: WaitingTicket): TicketCreate {
    TicketCreate(body.playerId, body.region, body.queueName, body.skill)
  }

  ghost predicate KeysOk(cfg: Config, db: Db) {
    && (forall k {:trigger KeyOk(cfg, db, k)} :: k in db.keys ==> KeyOk(cfg, db, k))
    && (forall j, k :: j in db.keys && k in db.keys && j != k ==> db.keys[j].ticketId != db.keys[k].ticketId)
  }

  ghost predicate DbOk(cfg: Config, db: Db) {
    && (forall id {:trigger TicketOk(cfg, db, id)} :: id in db.tickets ==> TicketOk(cfg, db, id))
    && MatchesOk(db)
    && OneActivePerPlayer(db)
    && KeysOk(cfg, db)
  }

  // ----- Workers -----

  /** The worker has reserved `id`, privately, on top of a committed waiting row. */
  ghost predicate Held(db: Db, w: Worker, id: TicketId) {
    && id in w.locked && id in db.tickets && db.tickets[id].status.Waiting? && id in w.own.tickets
    && w.own.tickets[id] ==
       db.tickets[id].(status := Reserved, reservedBy := Some(w.name), reservedUntil := w.own.tickets[id].reservedUntil)
  }

  /** The worker has marked `id` matched, privately, on top of a committed waiting row. */
  ghost predicate Marked(db: Db, w: Worker, id: TicketId, m: MatchId) {
    && id in w.locked && id in db.tickets && db.tickets[id].status.Waiting? && id in w.own.tickets
    && w.own.tickets[id] == db.tickets[id].(status := Matched, matchId := Some(m))
  }

  ghost predicate PairOk(w: Worker, f: WaitingTicket, s: WaitingTicket) {
    f in w.fetched && s in w.fetched && f.ticketId != s.ticketId && SameQueue(f, s)
  }

  /** The rows inserted by the first `done` statements after the match row. */
  function PlayersWritten(f: WaitingTicket, s: WaitingTicket, m: MatchId, done: nat): map<(MatchId, TicketId), string> {
    if done == 0 then map[]
    else if done <= 2 then map[(m, f.ticketId) := f.playerId]
    else map[(m, f.ticketId) := f.playerId, (m, s.ticketId) := s.playerId]
  }

  ghost predicate WritesOk(db: Db, w: Worker) {
    match w.pc
    case Idle =>
      w.own == NoWrites && w.locked == {}
    case HaveFirst(f, s) =>
      && PairOk(w, f, s) && Held(db, w, f.ticketId)
      && w.own.tickets.Keys == {f.ticketId} && w.own == NoWrites.(tickets := w.own.tickets)
    case HaveBoth(f, s) =>
      && PairOk(w, f, s) && Held(db, w, f.ticketId) && Held(db, w, s.ticketId)
      && w.own.tickets.Keys == {f.ticketId, s.ticketId} && w.own == NoWrites.(tickets := w.own.tickets)
    case Inside(f, s, m, done) =>
      && PairOk(w, f, s) && done <= 4
      && (if done >= 2 then Marked(db, w, f.ticketId, m) else Held(db, w, f.ticketId))
      && (if done >= 4 then Marked(db, w, s.ticketId, m) else Held(db, w, s.ticketId))
      && w.own.tickets.Keys == {f.ticketId, s.ticketId}
      && w.own == Writes(w.own.tickets, map[m := MatchRowFor(f)], PlayersWritten(f, s, m, done), map[])
      && w.saved.Some? && w.saved.value.matches == map[] && w.saved.value.events == map[]
    case Built(f, s, m, e) =>
      && PairOk(w, f, s) && Marked(db, w, f.ticketId, m) && Marked(db, w, s.ticketId, m)
      && w.own.tickets.Keys == {f.ticketId, s.ticketId}
      && w.own == Writes(w.own.tickets, map[m := MatchRowFor(f)], PlayersWritten(f, s, m, 4),
                         map[e := EventRowFor(f, s, m)])
    case _ => true
  }

  /** Row locks cover every row written, also those a savepoint would restore, and hold the
      committed row at `waiting`. */
  ghost predicate LocksOk(db: Db, w: Worker) {
    && w.own.tickets.Keys <= w.locked
    && (w.saved.Some? ==> w.saved.value.tickets.Keys <= w.locked)
    && (forall id :: id in w.locked ==> id in db.tickets && db.tickets[id].status.Waiting?)
  }

  ghost predicate WorkerOk(db: Db, w: Worker) {
    && LocksOk(db, w)
    && (forall x :: x in w.fetched ==> Agrees(db, x))
    && WritesOk(db, w)
    && w.own.matches.Keys !! db.matches.Keys && w.own.events.Keys !! db.events.Keys
  }

  ghost predicate WorkersApart(v: Worker, w: Worker) {
    && v.locked !! w.locked
    && v.own.matches.Keys !! w.own.matches.Keys && v.own.events.Keys !! w.own.events.Keys
  }

  // ----- Requests -----

  function Placeholder(cfg: Config, r: Request): KeyRow {
    KeyRow(cfg.requestHash(r.body), 0, None, None)
  }

  function StoredRow(cfg: Config, r: Request, body: WaitingTicket): KeyRow {
    KeyRow(cfg.requestHash(r.body), 201, Some(body), Some(body.ticketId))
  }

  /** `body` answers `r`: the ticket it describes is the one `r` asked for. */
  ghost predicate BodyFor(r: Request, body: WaitingTicket) {
    body.tenantId == r.tenantId && AskedFor(body) == r.body
  }

  ghost predicate PrivateTicketOk(cfg: Config, db: Db, r: Request, id: TicketId, t: Ticket) {
    && cfg.partitions > 0 && t == NewTicket(cfg, r.tenantId, r.body, t.createdAt)
    && id !in db.tickets && !UniqueIndexHit(db, t)
  }

  ghost predicate ResponseOk(cfg: Config, db: Db, r: Request, response: Response) {
    match response
    case TicketCreated(body) =>
      && Agrees(db, body) && BodyFor(r, body)
      && (r.key.Some? ==>
           (r.tenantId, r.key.value) in db.keys && db.keys[(r.tenantId, r.key.value)] == StoredRow(cfg, r, body))
    case Replay(stored) =>
      && r.key.Some? && (r.tenantId, r.key.value) in db.keys
      && var row := db.keys[(r.tenantId, r.key.value)];
      stored == row.body && row.requestHash == cfg.requestHash(r.body)
    case KeyConflict =>
      && r.key.Some? && (r.tenantId, r.key.value) in db.keys
      && db.keys[(r.tenantId, r.key.value)].requestHash != cfg.requestHash(r.body)
    case _ => true
  }

  ghost predicate RequestOk(cfg: Config, db: Db, r: Request) {
    && (HoldsKey(r) ==> r.key.Some? && (r.tenantId, r.key.value) !in db.keys)
    && match r.phase
       case LostRace => r.key.Some? && (r.tenantId, r.key.value) in db.keys
       case Holding(row) => row == Placeholder(cfg, r)
       case Inserted(placeholder, id, t) =>
         && PrivateTicketOk(cfg, db, r, id, t) && (placeholder.Some? <==> r.key.Some?)
         && (placeholder.Some? ==> placeholder.value == Placeholder(cfg, r))
       case Finalized(row, id, t) => PrivateTicketOk(cfg, db, r, id, t) && row == StoredRow(cfg, r, Snapshot(id, t))
       case Done(response) => ResponseOk(cfg, db, r, response)
       case _ => true
  }

  ghost predicate RequestsApart(q: Request, r: Request) {
    && !(HoldsKey(q) && HoldsKey(r) && q.tenantId == r.tenantId && q.key == r.key)
    && (HoldsTicket(q) && HoldsTicket(r) ==>
          q.phase.ticketId != r.phase.ticketId && !q.phase.ticket.SamePlayerAndQueue(r.phase.ticket))
    && (q.phase.Done? && r.phase.Done? && q.phase.response.TicketCreated? && r.phase.response.TicketCreated? ==>
          q.phase.response.body.ticketId != r.phase.response.body.ticketId)
  }

  // ----- The invariant -----

  ghost predicate WorkersOk(s: State) {
    && (forall i {:trigger WorkerOk(s.db, s.workers[i])} :: i in s.workers ==> WorkerOk(s.db, s.workers[i]))
    && (forall i, j {:trigger WorkersApart(s.workers[i], s.workers[j])} ::
         i in s.workers && j in s.workers && i != j ==> WorkersApart(s.workers[i], s.workers[j]))
  }

  ghost predicate RequestsOk(cfg: Config, s: State) {
    && (forall i {:trigger RequestOk(cfg, s.db, s.requests[i])} :: i in s.requests ==>
         RequestOk(cfg, s.db, s.requests[i]))
    && (forall i, j {:trigger RequestsApart(s.requests[i], s.requests[j])} ::
         i in s.requests && j in s.requests && i != j ==> RequestsApart(s.requests[i], s.requests[j]))
  }

  ghost predicate Inv(cfg: Config, s: State) {
    DbOk(cfg, s.db) && WorkersOk(s) && RequestsOk(cfg, s)
  }

  // ----- Worker statements keep it -----

  lemma ReservingKeeps(s: State, sid: SessionId, l: WorkerLabel)
    requires sid in s.workers && WritesOk(s.db, s.workers[sid]) && (l.ReserveFirst? || l.ReserveSecond?)
    requires Execute(s, sid, l).Some?
    ensures WritesOk(s.db, Execute(s, sid, l).value)
  {
  }

  lemma InsertingKeeps(s: State, sid: SessionId, l: WorkerLabel)
    requires sid in s.workers && WritesOk(s.db, s.workers[sid])
    requires l.InsertMatch? || l.InsertPlayer? || l.InsertEvent?
    requires Execute(s, sid, l).Some?
    ensures WritesOk(s.db, Execute(s, sid, l).value)
  {
  }

  lemma MarkingKeeps(s: State, sid: SessionId, l: WorkerLabel)
    requires sid in s.workers && WritesOk(s.db, s.workers[sid])
    requires forall id :: id in s.db.tickets ==>
               s.db.tickets[id].reservedBy == None && s.db.tickets[id].reservedUntil == None
    requires l.MarkMatched? && Execute(s, sid, l).Some?
    ensures WritesOk(s.db, Execute(s, sid, l).value)
  {
  }

  lemma LeavingKeeps(s: State, sid: SessionId, l: WorkerLabel)
    requires sid in s.workers && WritesOk(s.db, s.workers[sid])
    requires l.Fetch? || l.ReleaseFirst? || l.FailInside? || l.FailLate? || l.Unwind? || l.Rollback?
    requires Execute(s, sid, l).Some?
    ensures WritesOk(s.db, Execute(s, sid, l).value)
  {
  }

  /** A statement inserts only fresh ids, and locks only a row that nobody else has locked. */
  lemma StaysApart(s: State, sid: SessionId, l: WorkerLabel, o: SessionId)
    requires sid in s.workers && o in s.workers && o != sid
    requires WritesOk(s.db, s.workers[sid]) && WorkersApart(s.workers[sid], s.workers[o])
    requires Execute(s, sid, l).Some?
    ensures WorkersApart(Execute(s, sid, l).value, s.workers[o])
  {
  }

  lemma StaysFresh(s: State, sid: SessionId, l: WorkerLabel)
    requires sid in s.workers && WorkerOk(s.db, s.workers[sid]) && Execute(s, sid, l).Some?
    ensures var w := Execute(s, sid, l).value;
            && (forall x :: x in w.fetched ==> Agrees(s.db, x))
            && w.own.matches.Keys !! s.db.matches.Keys && w.own.events.Keys !! s.db.events.Keys
  {
  }

  lemma StaysLocked(s: State, sid: SessionId, l: WorkerLabel)
    requires sid in s.workers && LocksOk(s.db, s.workers[sid]) && WritesOk(s.db, s.workers[sid])
    requires forall id :: id in s.db.tickets ==> !s.db.tickets[id].status.Reserved?
    requires Execute(s, sid, l).Some?
    ensures LocksOk(s.db, Execute(s, sid, l).value)
  {
    if l.ReserveFirst? || l.ReserveSecond? {
      ReservingLocks(s, sid, l);
    } else if l.ReleaseFirst? || l.Unwind? || l.MarkMatched? {
      RewritingLocks(s, sid, l);
    } else {
      OthersLock(s, sid, l);
    }
  }

  lemma ReservingLocks(s: State, sid: SessionId, l: WorkerLabel)
    requires sid in s.workers && LocksOk(s.db, s.workers[sid]) && (l.ReserveFirst? || l.ReserveSecond?)
    requires Execute(s, sid, l).Some?
    ensures LocksOk(s.db, Execute(s, sid, l).value)
  {
  }

  lemma RewritingLocks(s: State, sid: SessionId, l: WorkerLabel)
    requires sid in s.workers && LocksOk(s.db, s.workers[sid]) && WritesOk(s.db, s.workers[sid])
    requires forall id :: id in s.db.tickets ==> !s.db.tickets[id].status.Reserved?
    requires (l.ReleaseFirst? || l.Unwind? || l.MarkMatched?) && Execute(s, sid, l).Some?
    ensures LocksOk(s.db, Execute(s, sid, l).value)
  {
  }

  lemma OthersLock(s: State, sid: SessionId, l: WorkerLabel)
    requires sid in s.workers && LocksOk(s.db, s.workers[sid])
    requires l.Fetch? || l.InsertMatch? || l.InsertPlayer? || l.InsertEvent?
             || l.FailInside? || l.FailLate? || l.Rollback?
    requires Execute(s, sid, l).Some?
    ensures LocksOk(s.db, Execute(s, sid, l).value)
  {
  }

  lemma OwnStepKeeps(cfg: Config, s: State, sid: SessionId, l: WorkerLabel)
    requires sid in s.workers && DbOk(cfg, s.db) && WorkerOk(s.db, s.workers[sid]) && Execute(s, sid, l).Some?
    ensures WorkerOk(s.db, Execute(s, sid, l).value)
  {
    assert forall id :: id in s.db.tickets ==> TicketOk(cfg, s.db, id);
    StaysFresh(s, sid, l);
    StaysLocked(s, sid, l);
    if l.ReserveFirst? || l.ReserveSecond? {
      ReservingKeeps(s, sid, l);
    } else if l.InsertMatch? || l.InsertPlayer? || l.InsertEvent? {
      InsertingKeeps(s, sid, l);
    } else if l.MarkMatched? {
      MarkingKeeps(s, sid, l);
    } else {
      LeavingKeeps(s, sid, l);
    }
  }

  /** Replacing one worker by one as good, apart from all the others. */
  lemma ReplaceWorker(s: State, sid: SessionId, w: Worker)
    requires WorkersOk(s) && WorkerOk(s.db, w)
    requires forall o :: o in s.workers && o != sid ==> WorkersApart(w, s.workers[o]) && WorkersApart(s.workers[o], w)
    ensures WorkersOk(s.(workers := s.workers[sid := w]))
  {
    var s' := s.(workers := s.workers[sid := w]);
    forall i | i in s'.workers ensures WorkerOk(s'.db, s'.workers[i]) {
      assert i != sid ==> WorkerOk(s.db, s.workers[i]);
    }
    forall i, j | i in s'.workers && j in s'.workers && i != j ensures WorkersApart(s'.workers[i], s'.workers[j]) {
      assert i != sid && j != sid ==> WorkersApart(s.workers[i], s.workers[j]);
    }
  }

  lemma WorkerStepKeeps(cfg: Config, s: State, sid: SessionId, l: WorkerLabel)
    requires sid in s.workers && DbOk(cfg, s.db) && WorkersOk(s) && Execute(s, sid, l).Some?
    ensures WorkersOk(AfterStatement(s, sid, l))
  {
    var w := Execute(s, sid, l).value;
    assert WorkerOk(s.db, s.workers[sid]);
    OwnStepKeeps(cfg, s, sid, l);
    forall o | o in s.workers && o != sid ensures WorkersApart(w, s.workers[o]) && WorkersApart(s.workers[o], w) {
      assert WorkersApart(s.workers[sid], s.workers[o]);
      StaysApart(s, sid, l, o);
    }
    ReplaceWorker(s, sid, w);
  }
}
