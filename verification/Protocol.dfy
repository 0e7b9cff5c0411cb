/** Workers, ticket requests and cancellations over one READ COMMITTED database, statement by
    statement.  A worker keeps its writes and row locks private until it commits; a guarded
    UPDATE of a row another transaction has locked waits, and is then judged on the latest
    committed row.  Partition leases play no part: any worker may work on any ticket. */
module Protocol {
  import opened Sql
  import opened Pairing
  import opened Schema

  type SessionId = nat
  type RequestId = nat

  /** Rows written by an open transaction. */
  datatype Writes = Writes(
    tickets: map<TicketId, Ticket>, matches: map<MatchId, Match>,
    players: map<(MatchId, TicketId), string>, events: map<EventId, Event>)

  const NoWrites := Writes(map[], map[], map[], map[])

  /** Where a worker is in `create_match_from_pair`. */
  datatype Pc =
    | Idle
    | HaveFirst(f: WaitingTicket, s: WaitingTicket)
    | GivingUp(f: WaitingTicket, s: WaitingTicket)
    | HaveBoth(f: WaitingTicket, s: WaitingTicket)
    | Inside(f: WaitingTicket, s: WaitingTicket, m: MatchId, done: nat)
    | Built(f: WaitingTicket, s: WaitingTicket, m: MatchId, e: EventId)
    | Unwinding(f: WaitingTicket, s: WaitingTicket, done: nat)
    | MustRollBack

  /** One worker connection.  Nothing requires the names of two workers to differ. */
  datatype Worker = Worker(
    name: string, fetched: set<WaitingTicket>, locked: set<TicketId>, own: Writes, saved: Option<Writes>, pc: Pc)

  datatype Response =
    | TicketCreated(body: WaitingTicket)
    | Replay(stored: Option<WaitingTicket>)
    | KeyConflict
    | DuplicateTicket
    | TooManyRequests
    | Overloaded
    | ServerError

  /** Where a request is in `create_ticket`; the rows are private until it commits. */
  datatype Phase =
    | Arrived
    | KeyUnknown
    | QuotaOk
    | DepthOk
    | LostRace
    | Holding(row: KeyRow)
    | Inserted(placeholder: Option<KeyRow>, ticketId: TicketId, ticket: Ticket)
    | Finalized(row: KeyRow, ticketId: TicketId, ticket: Ticket)
    | Done(response: Response)

  datatype Request = Request(tenantId: string, key: Option<string>, body: TicketCreate, phase: Phase)

  datatype State = State(db: Db, workers: map<SessionId, Worker>, requests: map<RequestId, Request>)

  datatype WorkerLabel =
    | Fetch(rows: set<TicketId>)
    | ReserveFirst(f: WaitingTicket, s: WaitingTicket, until: int)
    | ReserveSecond(until: int)
    | ReleaseFirst
    | InsertMatch(m: MatchId)
    | InsertPlayer
    | MarkMatched
    | InsertEvent(e: EventId)
    | FailInside
    | FailLate
    | Unwind
    | Rollback

  datatype RequestLabel =
    | CheckKey
    | RateLimited
    | CheckQuota
    | CheckDepth
    | Shed
    | ReserveKey
    | ReadStored
    | InsertTicket(id: TicketId, createdAt: int)
    | FinalizeKey
    | Fail

  datatype Label =
    | Join(sid: SessionId, name: string)
    | WorkerStep(sid: SessionId, w: WorkerLabel)
    | WorkerCommit(sid: SessionId)
    | Arrive(rid: RequestId, tenantId: string, key: Option<string>, body: TicketCreate)
    | RequestStep(rid: RequestId, r: RequestLabel)
    | RequestCommit(rid: RequestId)
    | Cancel(ticketId: TicketId, tenantId: string)
    | Cleanup(now: int)
    | Dispatch(after: Db)

  // ----- Worker statements -----

  predicate LockedElsewhere(s: State, sid: SessionId, id: TicketId) {
    exists o :: o in s.workers && o != sid && id in s.workers[o].locked
  }

  predicate Locked(s: State, id: TicketId) {
    exists o :: o in s.workers && id in s.workers[o].locked
  }

  /** The row a statement of this worker sees and updates. */
  function View(db: Db, w: Worker, id: TicketId): Option<Ticket> {
    if id in w.own.tickets then Some(w.own.tickets[id])
    else if id in db.tickets then Some(db.tickets[id])
    else None
  }

  function Reserving(db: Db, w: Worker, id: TicketId, until: int): Option<Ticket> {
    match View(db, w, id) case None => None case Some(t) => ReserveRow(t, w.name, until)
  }

  function Releasing(db: Db, w: Worker, id: TicketId): Option<Ticket> {
    match View(db, w, id) case None => None case Some(t) => ReleaseRow(t, w.name)
  }

  function Matching(db: Db, w: Worker, id: TicketId, m: MatchId): Option<Ticket> {
    match View(db, w, id) case None => None case Some(t) => MatchRow(t, w.name, m)
  }

  /** Write `row`, if the UPDATE found one, and lock it. */
  function Wrote(w: Worker, id: TicketId, row: Option<Ticket>): Worker {
    match row
    case None => w
    case Some(t) => w.(own := w.own.(tickets := w.own.tickets[id := t]), locked := w.locked + {id})
  }

  predicate FreshMatch(s: State, m: MatchId) {
    m !in s.db.matches && forall o :: o in s.workers ==> m !in s.workers[o].own.matches
  }

  predicate FreshEvent(s: State, e: EventId) {
    e !in s.db.events && forall o :: o in s.workers ==> e !in s.workers[o].own.events
  }

  /** One statement of worker `sid`, or none when it cannot run now. */
  function Execute(s: State, sid: SessionId, l: WorkerLabel): Option<Worker>
    requires sid in s.workers
  {
    var w, db := s.workers[sid], s.db;
    match l
    case Fetch(rows) =>
      if w.pc.Idle? && forall id :: id in rows ==> id in db.tickets && db.tickets[id].status.Waiting?
      then Some(w.(fetched := w.fetched + set id | id in rows :: Snapshot(id, db.tickets[id])))
      else None
    case ReserveFirst(a, b, until) =>
      if w.pc.Idle? && a in w.fetched && b in w.fetched && a.ticketId != b.ticketId && SameQueue(a, b)
         && !LockedElsewhere(s, sid, a.ticketId)
      then
        var row := Reserving(db, w, a.ticketId, until);
        Some(Wrote(w, a.ticketId, row).(pc := if row.Some? then HaveFirst(a, b) else MustRollBack))
      else None
    case ReserveSecond(until) =>
      if w.pc.HaveFirst? && !LockedElsewhere(s, sid, w.pc.s.ticketId)
      then
        var row := Reserving(db, w, w.pc.s.ticketId, until);
        var pc := if row.Some? then HaveBoth(w.pc.f, w.pc.s) else GivingUp(w.pc.f, w.pc.s);
        Some(Wrote(w, w.pc.s.ticketId, row).(pc := pc))
      else None
    case ReleaseFirst =>
      if w.pc.GivingUp? && !LockedElsewhere(s, sid, w.pc.f.ticketId)
      then Some(Wrote(w, w.pc.f.ticketId, Releasing(db, w, w.pc.f.ticketId)).(pc := MustRollBack))
      else None
    case InsertMatch(m) =>
      if w.pc.HaveBoth? && FreshMatch(s, m)
      then Some(w.(saved := Some(w.own), own := w.own.(matches := w.own.matches[m := MatchRowFor(w.pc.f)]),
                   pc := Inside(w.pc.f, w.pc.s, m, 0)))
      else None
    case InsertPlayer =>
      if w.pc.Inside? && (w.pc.done == 0 || w.pc.done == 2)
      then
        var t := if w.pc.done == 0 then w.pc.f else w.pc.s;
        Some(w.(own := w.own.(players := w.own.players[(w.pc.m, t.ticketId) := t.playerId]),
                pc := Inside(w.pc.f, w.pc.s, w.pc.m, w.pc.done + 1)))
      else None
    case MarkMatched =>
      // The row count of this UPDATE is not checked.
      if w.pc.Inside? && (w.pc.done == 1 || w.pc.done == 3)
      then
        var id := if w.pc.done == 1 then w.pc.f.ticketId else w.pc.s.ticketId;
        if LockedElsewhere(s, sid, id) then None
        else Some(Wrote(w, id, Matching(db, w, id, w.pc.m)).(pc := Inside(w.pc.f, w.pc.s, w.pc.m, w.pc.done + 1)))
      else None
    case InsertEvent(e) =>
      if w.pc.Inside? && w.pc.done == 4 && FreshEvent(s, e)
      then Some(w.(own := w.own.(events := w.own.events[e := EventRowFor(w.pc.f, w.pc.s, w.pc.m)]),
                   saved := None, pc := Built(w.pc.f, w.pc.s, w.pc.m, e)))
      else None
    case FailInside =>
      // The inner transaction is a savepoint: only its own writes are undone.
      if w.pc.HaveBoth? then Some(w.(pc := Unwinding(w.pc.f, w.pc.s, 0)))
      else if w.pc.Inside? && w.saved.Some?
      then Some(w.(own := w.saved.value, saved := None, pc := Unwinding(w.pc.f, w.pc.s, 0)))
      else None
    case FailLate =>
      if w.pc.Built? then Some(w.(pc := Unwinding(w.pc.f, w.pc.s, 0))) else None
    case Unwind =>
      if w.pc.Unwinding? && w.pc.done < 2
      then
        var id := if w.pc.done == 0 then w.pc.f.ticketId else w.pc.s.ticketId;
        if LockedElsewhere(s, sid, id) then None
        else
          var pc := if w.pc.done == 0 then Unwinding(w.pc.f, w.pc.s, 1) else MustRollBack;
          Some(Wrote(w, id, Releasing(db, w, id)).(pc := pc))
      else None
    case Rollback =>
      // Asked for by the loop, forced by a deadlock, or the end of a crashed worker.
      Some(w.(own := NoWrites, locked := {}, saved := None, pc := Idle))
  }

  function Merged(db: Db, own: Writes): Db {
    Db(db.tickets + own.tickets, db.matches + own.matches, db.players + own.players, db.events + own.events, db.keys)
  }

  // ----- Request statements -----

  function WaitingOfTenant(db: Db, tenantId: string): set<TicketId> {
    set id | id in db.tickets && db.tickets[id].status.Waiting? && db.tickets[id].tenantId == tenantId
  }

  function WaitingInPartition(db: Db, p: int): set<TicketId> {
    set id | id in db.tickets && db.tickets[id].status.Waiting? && db.tickets[id].partitionId == p
  }

  function PartitionOf(cfg: Config, r: Request): int
    requires cfg.partitions > 0
  {
    ComputePartitionId(cfg.hash, r.tenantId, r.body.region, r.body.queueName, cfg.partitions).value
  }

  predicate HoldsKey(r: Request) {
    r.phase.Holding? || (r.phase.Inserted? && r.phase.placeholder.Some?) || r.phase.Finalized?
  }

  predicate HoldsTicket(r: Request) {
    r.phase.Inserted? || r.phase.Finalized?
  }

  /** Another open transaction holds the same (tenant, key). */
  predicate KeyHeldElsewhere(s: State, rid: RequestId)
    requires rid in s.requests
  {
    exists o :: o in s.requests && o != rid && HoldsKey(s.requests[o])
      && s.requests[o].tenantId == s.requests[rid].tenantId && s.requests[o].key == s.requests[rid].key
  }

  /** Another open transaction has inserted, or is updating, a ticket the new one clashes with. */
  predicate UniqueIndexBusy(s: State, rid: RequestId, t: Ticket) {
    || (exists o ::
          o in s.requests && o != rid && HoldsTicket(s.requests[o]) && s.requests[o].phase.ticket.SamePlayerAndQueue(t))
    || (exists id ::
         id in s.db.tickets && s.db.tickets[id].Active() && s.db.tickets[id].SamePlayerAndQueue(t) && Locked(s, id))
  }

  predicate UniqueIndexHit(db: Db, t: Ticket) {
    exists id :: id in db.tickets && db.tickets[id].Active() && db.tickets[id].SamePlayerAndQueue(t)
  }

  predicate FreshTicket(s: State, id: TicketId) {
    && id !in s.db.tickets
    && forall o :: o in s.requests && HoldsTicket(s.requests[o]) ==> s.requests[o].phase.ticketId != id
  }

  /** The answer given from a stored key row. */
  function FromStored(cfg: Config, r: Request, row: KeyRow): Response {
    if row.requestHash == cfg.requestHash(r.body) then Replay(row.body) else KeyConflict
  }

  /** One statement of request `rid`, or none when it cannot run now. */
  function Handle(cfg: Config, s: State, rid: RequestId, l: RequestLabel): Option<Phase>
    requires rid in s.requests
  {
    var r, db := s.requests[rid], s.db;
    match l
    case CheckKey =>
      if !r.phase.Arrived? then None
      else if r.key.Some? && (r.tenantId, r.key.value) in db.keys
      then Some(Done(FromStored(cfg, r, db.keys[(r.tenantId, r.key.value)])))
      else if cfg.partitions == 0 then Some(Done(ServerError))
      else Some(KeyUnknown)
    case RateLimited =>
      if r.phase.KeyUnknown? then Some(Done(TooManyRequests)) else None
    case CheckQuota =>
      if !r.phase.KeyUnknown? then None
      else if |WaitingOfTenant(db, r.tenantId)| >= cfg.maxInFlight(r.tenantId) then Some(Done(TooManyRequests))
      else Some(QuotaOk)
    case CheckDepth =>
      if !(r.phase.QuotaOk? && cfg.partitions > 0) then None
      else if |WaitingInPartition(db, PartitionOf(cfg, r))| >= cfg.maxDepth(r.tenantId) then Some(Done(Overloaded))
      else Some(DepthOk)
    case Shed =>
      if r.phase.DepthOk? then Some(Done(Overloaded)) else None
    case ReserveKey =>
      if !(r.phase.DepthOk? && r.key.Some?) || KeyHeldElsewhere(s, rid) then None
      else if (r.tenantId, r.key.value) in db.keys then Some(LostRace)
      else Some(Holding(KeyRow(cfg.requestHash(r.body), 0, None, None)))
    case ReadStored =>
      if !(r.phase.LostRace? && r.key.Some?) then None
      else if (r.tenantId, r.key.value) in db.keys
      then Some(Done(FromStored(cfg, r, db.keys[(r.tenantId, r.key.value)])))
      else Some(Done(ServerError))
    case InsertTicket(id, createdAt) =>
      if cfg.partitions == 0 || !((r.phase.DepthOk? && r.key.None?) || r.phase.Holding?) then None
      else if !FreshTicket(s, id) then None
      else
        var t := NewTicket(cfg, r.tenantId, r.body, createdAt);
        if UniqueIndexBusy(s, rid, t) then None
        else if UniqueIndexHit(db, t) then Some(Done(DuplicateTicket))
        else Some(Inserted(if r.phase.Holding? then Some(r.phase.row) else None, id, t))
    case FinalizeKey =>
      if r.phase.Inserted? && r.phase.placeholder.Some?
      then
        var body := Snapshot(r.phase.ticketId, r.phase.ticket);
        Some(Finalized(r.phase.placeholder.value.(responseStatus := 201, body := Some(body),
          ticketId := Some(r.phase.ticketId)),
                       r.phase.ticketId, r.phase.ticket))
      else None
    case Fail =>
      if r.phase.Done? then None else Some(Done(ServerError))
  }

  predicate CanCommit(r: Request) {
    (r.phase.Inserted? && r.phase.placeholder.None?) || (r.phase.Finalized? && r.key.Some?)
  }

  function Committed(db: Db, r: Request): Db
    requires CanCommit(r)
  {
    var added := db.(tickets := db.tickets[r.phase.ticketId := r.phase.ticket]);
    if r.phase.Finalized? then added.(keys := db.keys[(r.tenantId, r.key.value) := r.phase.row]) else added
  }

  /** Dispatchers write delivery columns only: match status and event status. */
  predicate OnlyDeliveryColumns(a: Db, b: Db) {
    && a.tickets == b.tickets && a.players == b.players && a.keys == b.keys
    && a.matches.Keys == b.matches.Keys && a.events.Keys == b.events.Keys
    && (forall m :: m in a.matches ==> b.matches[m] == a.matches[m].(status := b.matches[m].status))
    && (forall e :: e in a.events ==> b.events[e] == a.events[e].(status := b.events[e].status))
  }

  // ----- The transition relation -----

  function AfterStatement(s: State, sid: SessionId, l: WorkerLabel): State
    requires sid in s.workers && Execute(s, sid, l).Some?
  {
    s.(workers := s.workers[sid := Execute(s, sid, l).value])
  }

  function AfterWorkerCommit(s: State, sid: SessionId): State
    requires sid in s.workers
  {
    s.(db := Merged(s.db, s.workers[sid].own),
       workers := s.workers[sid := s.workers[sid].(own := NoWrites, locked := {}, saved := None, pc := Idle)])
  }

  function AfterHandling(cfg: Config, s: State, rid: RequestId, l: RequestLabel): State
    requires rid in s.requests && Handle(cfg, s, rid, l).Some?
  {
    s.(requests := s.requests[rid := s.requests[rid].(phase := Handle(cfg, s, rid, l).value)])
  }

  function AfterRequestCommit(s: State, rid: RequestId): State
    requires rid in s.requests && CanCommit(s.requests[rid])
  {
    var r := s.requests[rid];
    s.(db := Committed(s.db, r),
       requests := s.requests[rid := r.(phase := Done(TicketCreated(Snapshot(r.phase.ticketId, r.phase.ticket))))])
  }

  function AfterCancel(s: State, id: TicketId, tenantId: string): State {
    if id in s.db.tickets && CancelRow(s.db.tickets[id], tenantId).Some?
    then s.(db := s.db.(tickets := s.db.tickets[id := CancelRow(s.db.tickets[id], tenantId).value]))
    else s
  }

  predicate Next(cfg: Config, s: State, l: Label, s': State) {
    match l
    case Join(sid, name) =>
      sid !in s.workers && s' == s.(workers := s.workers[sid := Worker(name, {}, {}, NoWrites, None, Idle)])
    case WorkerStep(sid, wl) =>
      sid in s.workers && Execute(s, sid, wl).Some? && s' == AfterStatement(s, sid, wl)
    case WorkerCommit(sid) =>
      sid in s.workers && s.workers[sid].pc.Built? && s' == AfterWorkerCommit(s, sid)
    case Arrive(rid, tenantId, key, body) =>
      rid !in s.requests && s' == s.(requests := s.requests[rid := Request(tenantId, key, body, Arrived)])
    case RequestStep(rid, rl) =>
      rid in s.requests && Handle(cfg, s, rid, rl).Some? && s' == AfterHandling(cfg, s, rid, rl)
    case RequestCommit(rid) =>
      rid in s.requests && CanCommit(s.requests[rid]) && s' == AfterRequestCommit(s, rid)
    case Cancel(id, tenantId) =>
      !Locked(s, id) && s' == AfterCancel(s, id, tenantId)
    case Cleanup(now) =>
      s' == s.(db := s.db.(tickets := CleanedUp(s.db.tickets, now)))
    case Dispatch(after) =>
      OnlyDeliveryColumns(s.db, after) && s' == s.(db := after)
  }

  const Init := State(EmptyDb, map[], map[])

  ghost predicate StepAt(cfg: Config, states: seq<State>, labels: seq<Label>, i: int)
    requires |states| == |labels| + 1 && 0 <= i < |labels|
  {
    Next(cfg, states[i], labels[i], states[i + 1])
  }

  /** A run: consecutive states joined by the labelled steps between them. */
  ghost predicate Run(cfg: Config, states: seq<State>, labels: seq<Label>) {
    && |states| == |labels| + 1
    && forall i {:trigger StepAt(cfg, states, labels, i)} :: 0 <= i < |labels| ==> StepAt(cfg, states, labels, i)
  }
}
