/**
 What the reservation calls do, told on requests and row fields alone: every answer, every field written, and how far
 apart the reservations of a table stay. Times are microseconds and durations minutes.
 */
module ReservationRules {
  import opened Prelude
  import opened Schema
  import opened System
  import Booking
  import Approvals
  import DoubleBooking

  // ---- how far apart reservations stay ----

  /** Of two active reservations of one table, one ends before the other starts. */
  ghost predicate Apart(rs: map<Id, Reservation>) {
    forall i, j |
        && i in rs && j in rs && i != j
        && rs[i].status in {Requested, Booked, Modified} && rs[j].status in {Requested, Booked, Modified}
        && rs[i].table.Some? && rs[i].table == rs[j].table ::
      || rs[i].time + rs[i].duration * 60_000_000 <= rs[j].time
      || rs[j].time + rs[j].duration * 60_000_000 <= rs[i].time
  }

  lemma ApartMeansNoDoubleBooking(rs: map<Id, Reservation>)
    requires forall id | id in rs :: rs[id].duration > 0
    ensures Apart(rs) <==> Booking.NoDoubleBooking(rs)
  {
    if Booking.NoDoubleBooking(rs) {
      forall i, j |
          && i in rs && j in rs && i != j
          && rs[i].status in {Requested, Booked, Modified} && rs[j].status in {Requested, Booked, Modified}
          && rs[i].table.Some? && rs[i].table == rs[j].table
        ensures || rs[i].time + rs[i].duration * 60_000_000 <= rs[j].time
                || rs[j].time + rs[j].duration * 60_000_000 <= rs[i].time
      {
        var t, m := rs[i].table.value, if rs[i].time < rs[j].time then rs[j].time else rs[i].time;
        assert !(Booking.Occupies(rs[i], t, m) && Booking.Occupies(rs[j], t, m));
      }
    }
  }

  ghost predicate AlwaysApart(db: Db, s: Settings, calls: seq<Call>)
    decreases |calls|
  {
    Apart(db.reservations) && (calls == [] || AlwaysApart(Next(db, s, calls[0]), s, calls[1..]))
  }

  /** In every state of a run, of two active reservations of one table one ends before the other starts, if and only if
      no step is an unchecked reactivation. */
  lemma {:induction false} RunsKeepApart(db: Db, s: Settings, calls: seq<Call>)
    requires Valid(db) && Apart(db.reservations)
    ensures AlwaysApart(db, s, calls) <==> DoubleBooking.SafeRun(db, s, calls)
    decreases |calls|
  {
    if calls != [] {
      var db' := Next(db, s, calls[0]);
      DoubleBooking.StepKeepsValid(db, s, calls[0]);
      DurationsArePositive(db);
      DurationsArePositive(db');
      ApartMeansNoDoubleBooking(db.reservations);
      ApartMeansNoDoubleBooking(db'.reservations);
      DoubleBooking.StepIsSafe(db, s, calls[0]);
      hide Next, Apart, Valid, DoubleBooking.UnsafeStep, Booking.NoDoubleBooking;
      if Apart(db'.reservations) {
        RunsKeepApart(db', s, calls[1..]);
      }
    }
  }

  lemma DurationsArePositive(db: Db)
    requires Valid(db)
    ensures forall id | id in db.reservations :: db.reservations[id].duration > 0
  {
  }

  // ---- creating ----

  /** No active reservation of the table, other than `except`, reaches into the time from `start` to `end`. */
  ghost predicate Free(rs: map<Id, Reservation>, t: Id, start: int, end: int, except: Option<Id>) {
    forall id | id in rs && except != Some(id) ::
      || rs[id].status !in {Requested, Booked, Modified}
      || rs[id].table != Some(t)
      || end <= rs[id].time
      || rs[id].time + rs[id].duration * 60_000_000 <= start
  }

  /** An active table of the restaurant that seats the party and is free. */
  ghost predicate Fits(db: Db, q: Booking.BookingRequest, t: Id, end: int) {
    && t in db.tables && db.tables[t].restaurant == q.restaurant && db.tables[t].active
    && db.tables[t].capacity >= q.party && Free(db.reservations, t, q.time, end, None)
  }

  ghost predicate SomeTableFits(db: Db, q: Booking.BookingRequest, end: int) {
    exists t :: Fits(db, q, t, end)
  }

  function Minutes(s: Settings, q: Booking.BookingRequest): int {
    if q.duration == None || q.duration == Some(0) then s.defaultDuration else q.duration.value
  }

  lemma FreeIsNoConflict(rs: map<Id, Reservation>, t: Id, time: int, duration: int, except: Option<Id>)
    ensures Free(rs, t, time, time + duration * 60_000_000, except)
            <==> !Booking.TableHasConflict(rs, t, time, duration, except)
  {
    var end := time + duration * 60_000_000;
    if id :| id in rs && except != Some(id) && Booking.ConflictsWith(rs[id], t, time, duration) {
      assert !(end <= rs[id].time || rs[id].time + rs[id].duration * 60_000_000 <= time);
    } else {
      forall id | id in rs && except != Some(id)
        ensures || rs[id].status !in {Requested, Booked, Modified}
                || rs[id].table != Some(t)
                || end <= rs[id].time
                || rs[id].time + rs[id].duration * 60_000_000 <= time
      {
        assert !Booking.ConflictsWith(rs[id], t, time, duration);
      }
    }
  }

  lemma OffersAreFitting(db: Db, q: Booking.BookingRequest, duration: int)
    ensures forall t ::
      t in Booking.AvailableTables(db, q.restaurant, q.party, q.time, duration)
      <==> Fits(db, q, t, q.time + duration * 60_000_000)
  {
    forall t { FreeIsNoConflict(db.reservations, t, q.time, duration, None); }
    hide Booking.TableHasConflict, Free;
  }

  /** The first check that fails, in order, if one does. */
  ghost function BookingRefusal(db: Db, s: Settings, q: Booking.BookingRequest, now: int, ctx: Context): Option<Error> {
    var end := q.time + Minutes(s, q) * 60_000_000;
    if !(q.customer in db.customers && db.customers[q.customer].restaurant == q.restaurant) then Some(CustomerNotFound)
    else if q.time <= now then Some(InvalidTime)
    else if q.table.None? && !SomeTableFits(db, q, end) then Some(NoAvailability)
    else if q.table.Some? && !(q.table.value in db.tables && db.tables[q.table.value].restaurant == q.restaurant
                               && db.tables[q.table.value].active) then Some(TableNotFound)
    else if q.table.Some? && q.party > db.tables[q.table.value].capacity then Some(TableTooSmall)
    else if q.table.Some? && !Free(db.reservations, q.table.value, q.time, end, None) then Some(TableConflict)
    else if !(0 < q.party <= 32767 && 0 < Minutes(s, q) <= 32767 && ctx.trigger != Scheduled)
    then Some(ConstraintViolation)
    else None
  }

  /** The table a booking gets, or why it gets none. */
  lemma TableChoice(db: Db, q: Booking.BookingRequest, duration: int) returns (t: Id)
    ensures var choice, end := Booking.ChooseTable(db, q, duration), q.time + duration * 60_000_000;
      if q.table.None? && !SomeTableFits(db, q, end) then choice == Err(NoAvailability)
      else if q.table.Some? && !(q.table.value in db.tables && db.tables[q.table.value].restaurant == q.restaurant
                                 && db.tables[q.table.value].active) then choice == Err(TableNotFound)
      else if q.table.Some? && q.party > db.tables[q.table.value].capacity then choice == Err(TableTooSmall)
      else if q.table.Some? && !Free(db.reservations, q.table.value, q.time, end, None)
      then choice == Err(TableConflict)
      else
        && choice == Ok(t) && Fits(db, q, t, end)
        && (q.table.Some? ==> q.table.value == t)
        && (q.table.None? ==> forall t' | Fits(db, q, t', end) :: db.tables[t].capacity <= db.tables[t'].capacity)
  {
    var end := q.time + duration * 60_000_000;
    if q.table.Some? {
      t := q.table.value;
      FreeIsNoConflict(db.reservations, t, q.time, duration, None);
      hide Booking.TableHasConflict, Free;
    } else {
      var offers := Booking.AvailableTables(db, q.restaurant, q.party, q.time, duration);
      OffersAreFitting(db, q, duration);
      SmallestFirst(db, q, duration);
      hide Booking.AvailableTables, Booking.TableHasConflict, Fits;
      t := if offers != [] then offers[0] else 0;
      if offers != [] {
        assert t in offers && Fits(db, q, t, end);
      }
      assert forall t' | Fits(db, q, t', end) :: t' in offers;
    }
  }

  /** A booking is refused with the first failing check and then changes nothing; otherwise it inserts one row, at the
      named table or a smallest fitting one, and announces it. */
  lemma CreateAnswers(db: Db, s: Settings, q: Booking.BookingRequest, now: int, ctx: Context) returns (t: Id)
    ensures var o, refusal := Step(db, s, Call.Create(q, now, ctx)), BookingRefusal(db, s, q, now, ctx);
      if refusal.Some? then o == Outcome(db, Err(refusal.value))
      else
        && o == Outcome(
             db.(reservations := db.reservations[db.nextId := Reservation(
                   q.restaurant, q.customer, Some(t), q.party, q.time, Minutes(s, q), Booked, q.notes, ctx.trigger)],
                 nextId := db.nextId + 1,
                 events := db.events + [Event(ReservationCreated, q.restaurant, db.nextId)]),
             Ok(ReservationBooked(db.nextId)))
        && Fits(db, q, t, q.time + Minutes(s, q) * 60_000_000)
        && (q.table.Some? ==> q.table.value == t)
        && (q.table.None? ==> forall t' | Fits(db, q, t', q.time + Minutes(s, q) * 60_000_000) ::
              db.tables[t].capacity <= db.tables[t'].capacity)
  {
    t := TableChoice(db, q, Minutes(s, q));
    assert Booking.Duration(s, q.duration) == Minutes(s, q);
    hide Booking.ChooseTable, Booking.Duration, Minutes, Free, Fits, SomeTableFits;
  }

  lemma SmallestFirst(db: Db, q: Booking.BookingRequest, duration: int)
    ensures var offers := Booking.AvailableTables(db, q.restaurant, q.party, q.time, duration);
      forall t | t in offers ::
        offers[0] in db.tables && t in db.tables && db.tables[offers[0]].capacity <= db.tables[t].capacity
  {
    var offers := Booking.AvailableTables(db, q.restaurant, q.party, q.time, duration);
    forall t | t in offers
      ensures offers[0] in db.tables && t in db.tables && db.tables[offers[0]].capacity <= db.tables[t].capacity
    {
      var k :| 0 <= k < |offers| && offers[k] == t;
      assert offers[0] in offers;
    }
    hide Booking.TableHasConflict;
  }

  // ---- changing ----

  /** The CHECK constraints and column widths of the row. */
  predicate Storable(r: Reservation) {
    0 < r.party && r.party <= 32767 && 0 < r.duration && r.duration <= 32767 && r.createdVia != Scheduled
  }

  /** The row with what the change names, and everything else as it was. */
  function Changed(r: Reservation, c: Changes): Reservation {
    Reservation(
      r.restaurant, r.customer,
      if c.table.Some? then c.table else r.table,
      if c.party.Some? then c.party.value else r.party,
      if c.time.Some? then c.time.value else r.time,
      r.duration, Modified,
      if c.notes.Some? then c.notes else r.notes,
      r.createdVia)
  }

  /** Why the change cannot be carried out, if it cannot. Only a change of party, time or table has the table checked.
      */
  ghost function ChangeRefusal(db: Db, id: Id, c: Changes): Option<Error>
    requires id in db.reservations
  {
    var row := Changed(db.reservations[id], c);
    var checked := row.table.Some? && (c.party.Some? || c.time.Some? || c.table.Some?);
    if checked && !(row.table.value in db.tables && db.tables[row.table.value].active) then Some(TableNotFound)
    else if checked && row.party > db.tables[row.table.value].capacity then Some(TableTooSmall)
    else if checked && !Free(db.reservations, row.table.value, row.time, row.time + row.duration * 60_000_000, Some(id))
    then Some(TableConflict)
    else if !Storable(row) then Some(ConstraintViolation)
    else None
  }

  /** The row cancelled, with the reason, if one is given, below the notes. */
  function CancelledRow(r: Reservation, reason: Option<string>): Reservation {
    Reservation(
      r.restaurant, r.customer, r.table, r.party, r.time, r.duration, Cancelled,
      if reason == None || reason == Some("") then r.notes
      else
        Some(Booking.Strip((if r.notes.Some? then r.notes.value else "") + "\nCancellation reason: " + reason.value)),
      r.createdVia)
  }

  /** What a reservation action does to the row it names: the new row, or why it cannot be carried out. */
  ghost function ActionResult(db: Db, p: Parameters): Result<Reservation, Error> {
    if p.ApprovePurchase? then Err(UnsupportedAction)
    else if p.reservation !in db.reservations then Err(ReservationNotFound)
    else if p.CancelReservation? then
      var row := CancelledRow(db.reservations[p.reservation], p.reason);
      if Storable(row) then Ok(row) else Err(ConstraintViolation)
    else
      var refusal := ChangeRefusal(db, p.reservation, p.changes);
      if refusal.Some? then Err(refusal.value) else Ok(Changed(db.reservations[p.reservation], p.changes))
  }

  lemma ActionsFollow(db: Db, p: Parameters)
    ensures Booking.RowAfter(db.tables, db.reservations, p) == ActionResult(db, p)
  {
    if p.ModifyReservation? && p.reservation in db.reservations {
      var row := Changed(db.reservations[p.reservation], p.changes);
      if row.table.Some? {
        FreeIsNoConflict(db.reservations, row.table.value, row.time, row.duration, Some(p.reservation));
      }
    }
    hide Booking.TableHasConflict, Free;
  }

  /** The outcome of carrying an action out at once: the one row and one event, or the refusal and nothing. */
  ghost function CarriedOut(db: Db, p: Parameters): Outcome
    requires !p.ApprovePurchase?
  {
    var row := ActionResult(db, p);
    if row.Err? then Outcome(db, Err(row.error))
    else Outcome(
      db.(reservations := db.reservations[p.reservation := row.value],
          events := db.events + [Event(if p.ModifyReservation? then ReservationModified else ReservationCancelled,
                                       row.value.restaurant, p.reservation)]),
      Ok(ReservationChanged(p.reservation)))
  }

  /** The outcome of proposing an action: one pending MEDIUM-risk approval of it. */
  function Proposed(db: Db, restaurant: Id, p: Parameters, ctx: Context): Outcome {
    if ctx.agentRun == None then Outcome(db, Err(AgentRunRequired))
    else Outcome(
      db.(approvals := db.approvals[db.nextId := Approval(
            restaurant, ReservationDomain, ctx.agent, ctx.agentRun.value, p, Medium, Pending,
            None, None, None, None, None, None)],
          nextId := db.nextId + 1,
          events := db.events + [Event(ApprovalCreated, restaurant, db.nextId)]),
      Ok(AwaitingApproval(db.nextId)))
  }

  lemma GatedActionFollows(db: Db, restaurant: Id, p: Parameters, gated: bool, ctx: Context)
    requires !p.ApprovePurchase?
    ensures Approvals.GatedAction(db, restaurant, p, gated, ctx)
         == if gated then Proposed(db, restaurant, p, ctx) else CarriedOut(db, p)
  {
    ActionsFollow(db, p);
    hide ActionResult, Booking.RowAfter;
  }

  /** A change is refused for an unknown or inactive reservation; proposed if the party meets the threshold before or
      after it; and otherwise carried out at once. */
  lemma ModifyAnswers(db: Db, s: Settings, restaurant: Id, id: Id, c: Changes, ctx: Context)
    ensures Step(db, s, Call.Modify(restaurant, id, c, ctx)) ==
      if !(id in db.reservations && db.reservations[id].restaurant == restaurant)
      then Outcome(db, Err(ReservationNotFound))
      else if db.reservations[id].status !in {Requested, Booked, Modified}
      then Outcome(db, Err(ReservationNotModifiable))
      else if db.reservations[id].party >= s.highImpactParty
              || (c.party.Some? && c.party.value >= s.highImpactParty)
      then Proposed(db, restaurant, ModifyReservation(id, c), ctx)
      else CarriedOut(db, ModifyReservation(id, c))
  {
    GatedActionFollows(db, restaurant, ModifyReservation(id, c), true, ctx);
    GatedActionFollows(db, restaurant, ModifyReservation(id, c), false, ctx);
    hide Approvals.GatedAction, Proposed, CarriedOut;
  }

  lemma CancelAnswers(db: Db, s: Settings, restaurant: Id, id: Id, reason: Option<string>, ctx: Context)
    ensures Step(db, s, Call.Cancel(restaurant, id, reason, ctx)) ==
      if !(id in db.reservations && db.reservations[id].restaurant == restaurant)
      then Outcome(db, Err(ReservationNotFound))
      else if db.reservations[id].status !in {Requested, Booked, Modified}
      then Outcome(db, Err(ReservationNotCancellable))
      else if db.reservations[id].party >= s.highImpactParty
      then Proposed(db, restaurant, CancelReservation(id, reason), ctx)
      else CarriedOut(db, CancelReservation(id, reason))
  {
    GatedActionFollows(db, restaurant, CancelReservation(id, reason), true, ctx);
    GatedActionFollows(db, restaurant, CancelReservation(id, reason), false, ctx);
    hide Approvals.GatedAction, Proposed, CarriedOut;
  }

  /** After a step that carries out a change, at once or as an executed approval, the named row has the party, time,
      table and notes of the change where it gives them and its own where it does not, and is modified; nothing else
      about it and no other row is different. */
  lemma ChangesAreWritten(db: Db, s: Settings, c: Call, id: Id, changes: Changes)
    requires id in db.reservations && ChangeRefusal(db, id, changes).None?
    requires
      || (&& c.Modify? && c.reservation == id && c.changes == changes && db.reservations[id].restaurant == c.restaurant
          && db.reservations[id].status in {Requested, Booked, Modified}
          && db.reservations[id].party < s.highImpactParty
          && (changes.party.Some? ==> changes.party.value < s.highImpactParty))
      || (&& c.Approve? && c.fault.None? && c.approval in db.approvals && db.approvals[c.approval].status == Pending
          && db.approvals[c.approval].domain == ReservationDomain && ReservationDomain in s.executors
          && db.approvals[c.approval].parameters == ModifyReservation(id, changes))
    ensures var r, rs := db.reservations[id], Step(db, s, c).db.reservations;
      && rs.Keys == db.reservations.Keys
      && (forall other | other in rs && other != id :: rs[other] == db.reservations[other])
      && rs[id].party == (if changes.party.Some? then changes.party.value else r.party)
      && rs[id].time == (if changes.time.Some? then changes.time.value else r.time)
      && rs[id].table == (if changes.table.Some? then changes.table else r.table)
      && rs[id].notes == (if changes.notes.Some? then changes.notes else r.notes)
      && rs[id].status == Modified
      && rs[id].restaurant == r.restaurant && rs[id].customer == r.customer && rs[id].duration == r.duration
      && rs[id].createdVia == r.createdVia
  {
    ActionsFollow(db, ModifyReservation(id, changes));
    StepAppliesEffect(db, s, c);
    assert Next(db, s, c) == Step(db, s, c).db;
    hide Next, Step, Booking.RowAfter, ChangeRefusal;
  }

  /** A small party's change is answered with table_too_small exactly when it touches the slot, the reservation ends on
      an active table, and the party it asks for, or else its own, exceeds that table. */
  lemma TooSmallExactly(db: Db, s: Settings, restaurant: Id, id: Id, c: Changes, ctx: Context)
    requires id in db.reservations && db.reservations[id].restaurant == restaurant
    requires db.reservations[id].status in {Requested, Booked, Modified}
    requires db.reservations[id].party < s.highImpactParty
    requires c.party.Some? ==> c.party.value < s.highImpactParty
    ensures Step(db, s, Call.Modify(restaurant, id, c, ctx)).response == Err(TableTooSmall)
            <==> && (c.party.Some? || c.time.Some? || c.table.Some?)
                 && var t := if c.table.Some? then c.table else db.reservations[id].table;
                    && t.Some? && t.value in db.tables && db.tables[t.value].active
                    && db.tables[t.value].capacity < if c.party.Some? then c.party.value else db.reservations[id].party
  {
    ModifyAnswers(db, s, restaurant, id, c, ctx);
    hide Step, Free;
  }

  // ---- notes ----

  lemma WhitespaceIsPythons(c: char)
    ensures Booking.Whitespace(c) <==> c in {
      '\U{9}', '\U{a}', '\U{b}', '\U{c}', '\U{d}', '\U{1c}', '\U{1d}', '\U{1e}', '\U{1f}', ' ', '\U{85}', '\U{a0}',
      '\U{1680}', '\U{2000}', '\U{2001}', '\U{2002}', '\U{2003}', '\U{2004}', '\U{2005}', '\U{2006}', '\U{2007}',
      '\U{2008}', '\U{2009}', '\U{200a}', '\U{2028}', '\U{2029}', '\U{202f}', '\U{205f}', '\U{3000}'}
  {
    if Booking.Whitespace(c) {
      assert c as int in {
        0x9, 0xa, 0xb, 0xc, 0xd, 0x1c, 0x1d, 0x1e, 0x1f, 0x20, 0x85, 0xa0, 0x1680, 0x2000, 0x2001, 0x2002, 0x2003,
        0x2004, 0x2005, 0x2006, 0x2007, 0x2008, 0x2009, 0x200a, 0x2028, 0x2029, 0x202f, 0x205f, 0x3000};
    }
  }

  /** `strip` cuts whitespace off both ends and nothing else. */
  lemma {:induction false} StripIsExact(s: string) returns (i: nat, j: nat)
    ensures i <= j <= |s| && Booking.Strip(s) == s[i..j]
    ensures forall k | 0 <= k < i || j <= k < |s| :: Booking.Whitespace(s[k])
    ensures i < j ==> !Booking.Whitespace(s[i]) && !Booking.Whitespace(s[j - 1])
    decreases |s|
  {
    if s == [] {
      i, j := 0, 0;
    } else if Booking.Whitespace(s[0]) {
      var i', j' := StripIsExact(s[1..]);
      i, j := i' + 1, j' + 1;
      assert s[1..][i'..j'] == s[i..j];
      assert forall k | 0 < k < |s| :: s[k] == s[1..][k - 1];
    } else if Booking.Whitespace(s[|s| - 1]) {
      i, j := StripIsExact(s[..|s| - 1]);
      assert s[..|s| - 1][i..j] == s[i..j];
    } else {
      i, j := 0, |s|;
      assert s[..] == s;
    }
  }
}
