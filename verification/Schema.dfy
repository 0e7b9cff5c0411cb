/** The tables of app/db/schema.sql that tickets, matches and idempotency keys live in, and
    the effect of each guarded UPDATE on one row. */
module Schema {
  import opened Sql
  import opened Pairing

  type MatchId = nat
  type EventId = nat

  /** Deployment constants.  Hashes are uninterpreted functions; quotas come from the
      tenants table, which nothing in this model changes. */
  datatype Config = Config(
    partitions: nat, hash: string -> nat, requestHash: TicketCreate -> string,
    maxInFlight: string -> int, maxDepth: string -> int)

  /** The body of POST /tickets. */
  datatype TicketCreate = TicketCreate(playerId: string, region: string, queueName: string, skill: int)

  /** `value` is `q` times `count`, and `rest`. */
  predicate IsTimes(value: int, q: int, count: int, rest: int) {
    value == q * count + rest
  }

  /** The partition of a queue, or none when there are no partitions to choose from. */
  function ComputePartitionId(hash: string -> nat, tenantId: string, region: string, queueName: string, count: nat)
    : (p: Option<nat>)
    ensures p.Some? <==> count > 0
    ensures p.Some? ==> p.value < count
    ensures p.Some? ==>
              exists q :: q >= 0 && IsTimes(hash(tenantId + ":" + region + ":" + queueName), q, count, p.value)
  {
    if count == 0 then None
    else
      var value := hash(tenantId + ":" + region + ":" + queueName);
      assert IsTimes(value, value / count, count, value % count);
      Some(value % count)
  }

  datatype TicketStatus = Waiting | Reserved | Matched | Cancelled

  datatype Ticket = Ticket(
    tenantId: string, playerId: string, region: string, queueName: string, skill: int, partitionId: int,
    createdAt: int, status: TicketStatus, reservedBy: Option<string>, reservedUntil: Option<int>,
    matchId: Option<MatchId>)
  {
    /** Counted by the partial unique index on active tickets. */
    predicate Active() {
      status.Waiting? || status.Reserved?
    }

    predicate SamePlayerAndQueue(other: Ticket) {
      tenantId == other.tenantId && playerId == other.playerId && region == other.region && queueName == other.queueName
    }
  }

  datatype MatchStatus = Created | CallbackPending | CallbackDelivered | CallbackFailed
  datatype Match = Match(tenantId: string, region: string, queueName: string, partitionId: int, status: MatchStatus)

  datatype EventStatus = Pending | InProgress | Delivered | Failed
  datatype Player = Player(playerId: string, ticketId: TicketId)
  datatype Event = Event(
    tenantId: string, matchId: MatchId, region: string, queueName: string, players: seq<Player>, status: EventStatus)

  /** Body `None` and status 0 are the placeholder of a reserved, unfinalized key. */
  datatype KeyRow = KeyRow(requestHash: string, responseStatus: int, body: Option<WaitingTicket>,
                           ticketId: Option<TicketId>)

  datatype Db = Db(
    tickets: map<TicketId, Ticket>, matches: map<MatchId, Match>, players: map<(MatchId, TicketId), string>,
    events: map<EventId, Event>, keys: map<(string, string), KeyRow>)

  const EmptyDb := Db(map[], map[], map[], map[], map[])

  function Snapshot(id: TicketId, t: Ticket): WaitingTicket {
    WaitingTicket(id, t.tenantId, t.playerId, t.region, t.queueName, t.skill, t.partitionId, t.createdAt)
  }

  function NewTicket(cfg: Config, tenantId: string, body: TicketCreate, createdAt: int): Ticket
    requires cfg.partitions > 0
  {
    var p := ComputePartitionId(cfg.hash, tenantId, body.region, body.queueName, cfg.partitions).value;
    Ticket(tenantId, body.playerId, body.region, body.queueName, body.skill, p, createdAt, Waiting, None, None, None)
  }

  // Each of the following is one UPDATE on one row: the new row, or none when its WHERE fails.

  function ReserveRow(t: Ticket, worker: string, until: int): Option<Ticket> {
    if t.status.Waiting?
    then Some(t.(status := Reserved, reservedBy := Some(worker), reservedUntil := Some(until)))
    else None
  }

  function ReleaseRow(t: Ticket, worker: string): Option<Ticket> {
    if t.status.Reserved? && t.reservedBy == Some(worker)
    then Some(t.(status := Waiting, reservedBy := None, reservedUntil := None))
    else None
  }

  function MatchRow(t: Ticket, worker: string, m: MatchId): Option<Ticket> {
    if t.status.Reserved? && t.reservedBy == Some(worker)
    then Some(t.(status := Matched, matchId := Some(m), reservedBy := None, reservedUntil := None))
    else None
  }

  function CancelRow(t: Ticket, tenantId: string): Option<Ticket> {
    if t.tenantId == tenantId && t.Active() then Some(t.(status := Cancelled)) else None
  }

  function CleanupRow(t: Ticket, now: int): Option<Ticket> {
    if t.status.Reserved? && t.reservedUntil.Some? && t.reservedUntil.value <= now
    then Some(t.(status := Waiting, reservedBy := None, reservedUntil := None))
    else None
  }

  /** The cleanup statement over the whole table. */
  function CleanedUp(tickets: map<TicketId, Ticket>, now: int): map<TicketId, Ticket> {
    map id | id in tickets :: match CleanupRow(tickets[id], now) case Some(t) => t case None => tickets[id]
  }

  /** On any table it ends the reservations that have run out, and does nothing else. */
  lemma CleansUp(tickets: map<TicketId, Ticket>, now: int, id: TicketId)
    requires id in tickets
    ensures id in CleanedUp(tickets, now)
    ensures var before, after := tickets[id], CleanedUp(tickets, now)[id];
            if before.status == Reserved && before.reservedUntil.Some? && now >= before.reservedUntil.value
            then after == before.(status := Waiting, reservedBy := None, reservedUntil := None)
            else after == before
  {
  }

  function MatchRowFor(first: WaitingTicket): Match {
    Match(first.tenantId, first.region, first.queueName, first.partitionId, MatchStatus.Created)
  }

  function EventRowFor(first: WaitingTicket, second: WaitingTicket, m: MatchId): Event {
    Event(first.tenantId, m, first.region, first.queueName,
          [Player(first.playerId, first.ticketId), Player(second.playerId, second.ticketId)], EventStatus.Pending)
  }
}
