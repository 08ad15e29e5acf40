/** The table search is exact and best-fit. */
module TableSearch {
  import opened Prelude
  import opened Schema
  import opened Booking

  /** Everything `create_reservation` asks for apart from the table. */
  predicate Admissible(db: Db, s: Settings, q: BookingRequest, now: int, ctx: Context) {
    && q.customer in db.customers && db.customers[q.customer].restaurant == q.restaurant
    && q.time > now
    && RowAccepted(Reservation(
         q.restaurant, q.customer, None, q.party, q.time, Duration(s, q.duration), Booked, q.notes, ctx.trigger))
  }

  function SearchFor(db: Db, s: Settings, q: BookingRequest): seq<Id> {
    AvailableTables(db, q.restaurant, q.party, q.time, Duration(s, q.duration))
  }

  /** The search offers exactly the tables for which booking that table explicitly would be accepted. */
  lemma SearchIsExact(db: Db, s: Settings, q: BookingRequest, now: int, ctx: Context, t: Id)
    ensures Create(db, s, q.(table := Some(t)), now, ctx).response.Ok?
            <==> Admissible(db, s, q, now, ctx) && t in SearchFor(db, s, q)
  {
  }

  /** Offers are tables of the restaurant that seat the party, in non-decreasing capacity. */
  lemma SmallestFirst(db: Db, s: Settings, q: BookingRequest, i: nat, j: nat)
    requires i < j < |SearchFor(db, s, q)|
    ensures var t, t' := SearchFor(db, s, q)[i], SearchFor(db, s, q)[j];
      t in db.tables && t' in db.tables && q.party <= db.tables[t].capacity <= db.tables[t'].capacity
  {
    var offers := SearchFor(db, s, q);
    assert offers[i] in offers && offers[j] in offers;
  }

  /** Without a table, booking fails exactly when no explicit choice would succeed, and otherwise does what an
      explicit booking of a smallest acceptable table does. */
  lemma AutoAssignmentIsBestFit(db: Db, s: Settings, q: BookingRequest, now: int, ctx: Context)
    requires q.table.None?
    ensures var o := Create(db, s, q, now, ctx);
      if forall t :: Create(db, s, q.(table := Some(t)), now, ctx).response.Err? then o.response.Err? && o.db == db
      else exists t ::
        && o == Create(db, s, q.(table := Some(t)), now, ctx) && o.response.Ok?
        && t in db.tables
        && forall t' | t' in db.tables && Create(db, s, q.(table := Some(t')), now, ctx).response.Ok? ::
             db.tables[t].capacity <= db.tables[t'].capacity
  {
    var offers := SearchFor(db, s, q);
    forall t ensures Create(db, s, q.(table := Some(t)), now, ctx).response.Ok?
                     <==> Admissible(db, s, q, now, ctx) && t in offers {
      SearchIsExact(db, s, q, now, ctx, t);
    }
    if Admissible(db, s, q, now, ctx) && offers != [] {
      var best := offers[0];
      assert best in offers;
      assert Create(db, s, q, now, ctx) == Create(db, s, q.(table := Some(best)), now, ctx);
      forall t' | t' in offers ensures t' in db.tables && db.tables[best].capacity <= db.tables[t'].capacity {
        var k :| 0 <= k < |offers| && offers[k] == t';
        if k > 0 { SmallestFirst(db, s, q, 0, k); }
      }
    }
  }
}
