/** The system a client may imagine: one database changed by indivisible actions.  Matching a
    pair, creating a ticket and cancelling one are each a single step. */
module Atomic {
  import opened Sql
  import opened Pairing
  import opened Schema
  import opened Protocol
  import opened Invariant

  datatype Action =
    | MatchPair(f: TicketId, s: TicketId, m: MatchId, e: EventId)
    | CreateTicket(id: TicketId, tenantId: string, key: Option<string>, body: TicketCreate, createdAt: int)
    | CancelTicket(id: TicketId, tenantId: string)
    | Deliver

  predicate CanMatch(db: Db, f: TicketId, s: TicketId, m: MatchId, e: EventId) {
    && f != s && f in db.tickets && s in db.tickets && m !in db.matches && e !in db.events
    && db.tickets[f].status.Waiting? && db.tickets[s].status.Waiting?
    && SameQueue(Snapshot(f, db.tickets[f]), Snapshot(s, db.tickets[s]))
    && db.tickets[f].playerId != db.tickets[s].playerId
  }

  function MatchedPair(db: Db, f: TicketId, s: TicketId, m: MatchId, e: EventId): Db
    requires f in db.tickets && s in db.tickets
  {
    var first, second := Snapshot(f, db.tickets[f]), Snapshot(s, db.tickets[s]);
    db.(tickets := db.tickets[f := db.tickets[f].(status := Matched, matchId := Some(m))]
                             [s := db.tickets[s].(status := Matched, matchId := Some(m))],
        matches := db.matches[m := MatchRowFor(first)],
        players := db.players[(m, f) := first.playerId][(m, s) := second.playerId],
        events := db.events[e := EventRowFor(first, second, m)])
  }

  predicate CanCreate(cfg: Config, db: Db, id: TicketId, tenantId: string, key: Option<string>, body: TicketCreate,
                      createdAt: int)
  {
    && cfg.partitions > 0 && id !in db.tickets
    && !UniqueIndexHit(db, NewTicket(cfg, tenantId, body, createdAt))
    && (key.Some? ==> (tenantId, key.value) !in db.keys)
  }

  function WithTicket(cfg: Config, db: Db, id: TicketId, tenantId: string, key: Option<string>, body: TicketCreate,
                      createdAt: int): Db
    requires cfg.partitions > 0
  {
    var t := NewTicket(cfg, tenantId, body, createdAt);
    var row := KeyRow(cfg.requestHash(body), 201, Some(Snapshot(id, t)), Some(id));
    db.(tickets := db.tickets[id := t],
        keys := if key.Some? then db.keys[(tenantId, key.value) := row] else db.keys)
  }

  predicate AtomicStep(cfg: Config, db: Db, a: Action, db': Db) {
    match a
    case MatchPair(f, s, m, e) =>
      CanMatch(db, f, s, m, e) && db' == MatchedPair(db, f, s, m, e)
    case CreateTicket(id, tenantId, key, body, createdAt) =>
      && CanCreate(cfg, db, id, tenantId, key, body, createdAt)
      && db' == WithTicket(cfg, db, id, tenantId, key, body, createdAt)
    case CancelTicket(id, tenantId) =>
      && id in db.tickets && db.tickets[id].status.Waiting? && db.tickets[id].tenantId == tenantId
      && db' == db.(tickets := db.tickets[id := db.tickets[id].(status := Cancelled)])
    case Deliver =>
      OnlyDeliveryColumns(db, db')
  }

  /** What any action leaves alone: the immutable columns of every ticket, every ticket that is
      matched or cancelled, and every stored key row. */
  ghost predicate Evolves(db: Db, db': Db) {
    && (forall id :: id in db.tickets ==>
          id in db'.tickets && Snapshot(id, db'.tickets[id]) == Snapshot(id, db.tickets[id]))
    && (forall id :: id in db.tickets && !db.tickets[id].status.Waiting? ==> db'.tickets[id] == db.tickets[id])
    && (forall k :: k in db.keys ==> k in db'.keys && db'.keys[k] == db.keys[k])
  }

  lemma AtomicEvolves(cfg: Config, db: Db, a: Action, db': Db)
    requires AtomicStep(cfg, db, a, db')
    ensures Evolves(db, db')
  {
  }

  // ----- Every action keeps the committed data consistent -----

  /** An old match is untouched by a new match and its event. */
  lemma OldMatchStands(db: Db, db': Db, m: MatchId, a: TicketId, b: TicketId, e: EventId)
    requires m in db.matches && MatchOk(db, m, a, b, e) && Evolves(db, db')
    requires m in db'.matches && db'.matches[m] == db.matches[m].(status := db'.matches[m].status)
    requires forall id :: (m, id) in db.players <==> (m, id) in db'.players
    requires forall id :: (m, id) in db.players ==> db'.players[(m, id)] == db.players[(m, id)]
    requires forall o :: o in db.events ==>
               o in db'.events && db'.events[o] == db.events[o].(status := db'.events[o].status)
    requires forall o :: o in db'.events && o !in db.events ==> db'.events[o].matchId != m
    ensures MatchOk(db', m, a, b, e)
  {
  }

  /** The pair just matched forms a complete match. */
  lemma NewMatchStands(db: Db, f: TicketId, s: TicketId, m: MatchId, e: EventId)
    requires CanMatch(db, f, s, m, e) && db.tickets[f].partitionId == db.tickets[s].partitionId
    requires forall id :: (m, id) !in db.players
    requires forall o :: o in db.events ==> db.events[o].matchId != m
    ensures MatchOk(MatchedPair(db, f, s, m, e), m, f, s, e)
  {
  }

  /** Every match of the new database has its witnesses. */
  lemma Witnessed(db: Db, db': Db, n: MatchId)
    requires Evolves(db, db') && n in db.matches && Complete(db, n)
    requires n in db'.matches && db'.matches[n] == db.matches[n].(status := db'.matches[n].status)
    requires forall id :: (n, id) in db.players <==> (n, id) in db'.players
    requires forall id :: (n, id) in db.players ==> db'.players[(n, id)] == db.players[(n, id)]
    requires forall o :: o in db.events ==>
               o in db'.events && db'.events[o] == db.events[o].(status := db'.events[o].status)
    requires forall o :: o in db'.events && o !in db.events ==> db'.events[o].matchId != n
    ensures Complete(db', n)
  {
    var a, b, g :| MatchOk(db, n, a, b, g);
    OldMatchStands(db, db', n, a, b, g);
  }

  lemma OldMatchesStand(cfg: Config, db: Db, f: TicketId, s: TicketId, m: MatchId, e: EventId, n: MatchId)
    requires CanMatch(db, f, s, m, e) && n in db.matches && Complete(db, n)
    ensures Complete(MatchedPair(db, f, s, m, e), n)
  {
    AtomicEvolves(cfg, db, MatchPair(f, s, m, e), MatchedPair(db, f, s, m, e));
    Witnessed(db, MatchedPair(db, f, s, m, e), n);
  }

  lemma MatchKeepsMatches(cfg: Config, db: Db, f: TicketId, s: TicketId, m: MatchId, e: EventId)
    requires MatchesOk(db) && CanMatch(db, f, s, m, e)
    requires db.tickets[f].partitionId == db.tickets[s].partitionId
    ensures MatchesOk(MatchedPair(db, f, s, m, e))
  {
    NewMatchStands(db, f, s, m, e);
    forall n | n in MatchedPair(db, f, s, m, e).matches ensures Complete(MatchedPair(db, f, s, m, e), n) {
      if n != m {
        assert Complete(db, n);
        OldMatchesStand(cfg, db, f, s, m, e, n);
      }
    }
  }

  lemma MatchKeepsTickets(cfg: Config, db: Db, f: TicketId, s: TicketId, m: MatchId, e: EventId)
    requires DbOk(cfg, db) && CanMatch(db, f, s, m, e)
    ensures var db' := MatchedPair(db, f, s, m, e);
            (forall id :: id in db'.tickets ==> TicketOk(cfg, db', id)) && OneActivePerPlayer(db') && KeysOk(cfg, db')
  {
    var db' := MatchedPair(db, f, s, m, e);
    forall id | id in db'.tickets ensures TicketOk(cfg, db', id) {
      assert TicketOk(cfg, db, id);
    }
    forall k | k in db'.keys ensures KeyOk(cfg, db', k) {
      assert KeyOk(cfg, db, k);
    }
  }

  /** Creating or cancelling a ticket, or delivering a callback, touches no match. */
  lemma OthersKeepMatches(cfg: Config, db: Db, a: Action, db': Db)
    requires MatchesOk(db) && AtomicStep(cfg, db, a, db') && !a.MatchPair?
    ensures MatchesOk(db')
  {
    AtomicEvolves(cfg, db, a, db');
    assert db'.players == db.players && db'.matches.Keys == db.matches.Keys && db'.events.Keys == db.events.Keys;
    forall n | n in db'.matches ensures Complete(db', n) {
      assert Complete(db, n);
      Witnessed(db, db', n);
    }
  }

  lemma CreateKeepsTickets(cfg: Config, db: Db, a: Action, db': Db)
    requires DbOk(cfg, db) && AtomicStep(cfg, db, a, db') && a.CreateTicket?
    ensures (forall id :: id in db'.tickets ==> TicketOk(cfg, db', id)) && OneActivePerPlayer(db')
  {
    forall id | id in db'.tickets ensures TicketOk(cfg, db', id) {
      assert id in db.tickets ==> TicketOk(cfg, db, id);
    }
  }

  lemma CreateKeepsKeys(cfg: Config, db: Db, a: Action, db': Db)
    requires KeysOk(cfg, db) && AtomicStep(cfg, db, a, db') && a.CreateTicket?
    ensures KeysOk(cfg, db')
  {
    forall k | k in db'.keys ensures KeyOk(cfg, db', k) {
      assert k in db.keys ==> KeyOk(cfg, db, k);
    }
    forall j, k | j in db'.keys && k in db'.keys && j != k ensures db'.keys[j].ticketId != db'.keys[k].ticketId {
      assert j in db.keys ==> KeyOk(cfg, db, j);
      assert k in db.keys ==> KeyOk(cfg, db, k);
    }
  }

  lemma OthersKeepTickets(cfg: Config, db: Db, a: Action, db': Db)
    requires DbOk(cfg, db) && AtomicStep(cfg, db, a, db') && (a.CancelTicket? || a.Deliver?)
    ensures (forall id :: id in db'.tickets ==> TicketOk(cfg, db', id)) && OneActivePerPlayer(db') && KeysOk(cfg, db')
  {
    forall id | id in db'.tickets ensures TicketOk(cfg, db', id) {
      assert TicketOk(cfg, db, id);
    }
    forall k | k in db'.keys ensures KeyOk(cfg, db', k) {
      assert KeyOk(cfg, db, k);
    }
  }

  lemma AtomicStepKeeps(cfg: Config, db: Db, a: Action, db': Db)
    requires DbOk(cfg, db) && AtomicStep(cfg, db, a, db')
    ensures DbOk(cfg, db')
  {
    if a.MatchPair? {
      assert TicketOk(cfg, db, a.f) && TicketOk(cfg, db, a.s);
      MatchKeepsMatches(cfg, db, a.f, a.s, a.m, a.e);
      MatchKeepsTickets(cfg, db, a.f, a.s, a.m, a.e);
    } else {
      OthersKeepMatches(cfg, db, a, db');
      if a.CreateTicket? {
        CreateKeepsTickets(cfg, db, a, db');
        CreateKeepsKeys(cfg, db, a, db');
      } else {
        OthersKeepTickets(cfg, db, a, db');
      }
    }
  }
}
