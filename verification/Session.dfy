/** The database as the services see it: one mutable session of row tables. */
module Sessions {
  import opened Prelude
  import opened Schema
  import MemoryTable

  /** The database session every service of a request shares. */
  class Session {
    var tables: map<Id, Table>
    var customers: map<Id, Customer>
    var items: map<Id, Item>
    var reservations: map<Id, Reservation>
    var purchases: map<Id, Purchase>
    var approvals: map<Id, Approval>
    var memories: map<Id, Memory>
    var events: seq<Event>
    var nextId: Id

    constructor (db: Db)
      ensures Snapshot() == db
    {
      tables, customers, items := db.tables, db.customers, db.items;
      reservations, purchases, approvals := db.reservations, db.purchases, db.approvals;
      memories, events, nextId := db.memories, db.events, db.nextId;
    }

    function Snapshot(): Db
      reads this
    {
      Db(tables, customers, items, reservations, purchases, approvals, memories, events, nextId)
    }

    /** The unique index over active memories. */
    ghost predicate KeysUnique()
      reads this
    {
      MemoryTable.UniqueKeys(memories)
    }

    /** ROLLBACK, to the start of the request or to a savepoint. */
    method Rollback(saved: Db)
      modifies this
      ensures Snapshot() == saved
    {
      tables, customers, items := saved.tables, saved.customers, saved.items;
      reservations, purchases, approvals := saved.reservations, saved.purchases, saved.approvals;
      memories, events, nextId := saved.memories, saved.events, saved.nextId;
    }

    method FreshId() returns (id: Id)
      modifies this`nextId
      ensures id == old(nextId) && nextId == id + 1
    {
      id := nextId;
      nextId := nextId + 1;
    }

    method Publish(kind: EventType, restaurant: Id, entity: Id)
      modifies this`events
      ensures events == old(events) + [Event(kind, restaurant, entity)]
    {
      events := events + [Event(kind, restaurant, entity)];
    }
  }
}
