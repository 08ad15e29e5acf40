/** No double booking and table capacity, over every run. */
module DoubleBooking {
  import opened Prelude
  import opened Schema
  import opened Booking
  import opened System
  import Approvals

  ghost predicate Accepted(rs: map<Id, Reservation>) {
    forall id | id in rs :: RowAccepted(rs[id])
  }

  /** The row takes a slot that some other reservation already holds. */
  predicate Clashes(rs: map<Id, Reservation>, id: Id, row: Reservation) {
    Active(row) && row.table.Some? && TableHasConflict(rs, row.table.value, row.time, row.duration, Some(id))
  }

  /** The conflict query is exact: writing a row keeps the book free of double bookings if and only if it finds
      nothing. */
  lemma ConflictCheckIsExact(rs: map<Id, Reservation>, id: Id, row: Reservation)
    requires Accepted(rs) && RowAccepted(row) && NoDoubleBooking(rs)
    ensures NoDoubleBooking(rs[id := row]) <==> !Clashes(rs, id, row)
  {
    var rs' := rs[id := row];
    if Clashes(rs, id, row) {
      var other :| other in rs && other != id && ConflictsWith(rs[other], row.table.value, row.time, row.duration);
      OverlapMeansSharedMoment(row.time, row.duration, rs[other].time, rs[other].duration);
      var m :| During(row.time, row.duration, m) && During(rs[other].time, rs[other].duration, m);
      assert Occupies(rs'[id], row.table.value, m) && Occupies(rs'[other], row.table.value, m);
    } else {
      forall i, j, t, m | i in rs' && j in rs' && i != j
        ensures !(Occupies(rs'[i], t, m) && Occupies(rs'[j], t, m))
      {
        var other := if i == id then j else i;
        if (i == id || j == id) && Occupies(row, t, m) {
          assert !ConflictsWith(rs[other], t, row.time, row.duration);
        }
      }
    }
  }

  /** The one dangerous step: an approved change that touches neither table, time nor party is executed on a
      reservation that is no longer active, and its old slot has been taken meanwhile. */
  predicate UncheckedReactivation(db: Db, p: Parameters) {
    && p.ModifyReservation? && p.reservation in db.reservations
    && var r := db.reservations[p.reservation];
       !Active(r) && r.table.Some? && !TouchesSlot(p.changes)
       && TableHasConflict(db.reservations, r.table.value, r.time, r.duration, Some(p.reservation))
  }

  predicate UnsafeStep(db: Db, s: Settings, c: Call) {
    Completes(db, s, c, ReservationDomain) && UncheckedReactivation(db, db.approvals[c.approval].parameters)
  }

  lemma WriteIsSafe(db: Db, p: Parameters)
    requires Accepted(db.reservations) && NoDoubleBooking(db.reservations)
    requires RowAfter(db.tables, db.reservations, p).Ok?
    ensures NoDoubleBooking(db.reservations[p.reservation := RowAfter(db.tables, db.reservations, p).value])
            <==> !UncheckedReactivation(db, p)
  {
    var row := RowAfter(db.tables, db.reservations, p).value;
    var r := db.reservations[p.reservation];
    ConflictCheckIsExact(db.reservations, p.reservation, row);
    ConflictCheckIsExact(db.reservations, p.reservation, r);
    assert db.reservations[p.reservation := r] == db.reservations;
  }

  lemma InsertIsSafe(db: Db, s: Settings, q: BookingRequest, now: int, ctx: Context)
    requires Valid(db) && NoDoubleBooking(db.reservations)
    requires NewRow(db, s, q, now, ctx).Ok?
    ensures NoDoubleBooking(db.reservations[db.nextId := NewRow(db, s, q, now, ctx).value])
  {
    var row := NewRow(db, s, q, now, ctx).value;
    ChosenTableFits(db, q, row.duration);
    ConflictCheckIsExact(db.reservations, db.nextId, row);
  }

  /** Whichever way the table was chosen, it is an active table of the restaurant, large enough and free. */
  lemma ChosenTableFits(db: Db, q: BookingRequest, duration: int)
    ensures var chosen := ChooseTable(db, q, duration);
      chosen.Ok? ==>
        && chosen.value in db.tables && Suitable(db.tables[chosen.value], q.restaurant, q.party)
        && !TableHasConflict(db.reservations, chosen.value, q.time, duration, None)
  {
    var available := AvailableTables(db, q.restaurant, q.party, q.time, duration);
    if available != [] { assert available[0] in available; }
  }

  /** One step keeps the book free of double bookings if and only if it is not an unchecked reactivation. */
  lemma StepIsSafe(db: Db, s: Settings, c: Call)
    requires Valid(db) && NoDoubleBooking(db.reservations)
    ensures NoDoubleBooking(Next(db, s, c).reservations) <==> !UnsafeStep(db, s, c)
  {
    hide NoDoubleBooking, Next;
    StepAppliesEffect(db, s, c);
    var e := EffectOf(db, s, c);
    if e.Insert? {
      InsertIsSafe(db, s, c.request, c.now, c.ctx);
    } else if e.Write? {
      WriteIsSafe(db, e.action);
    }
  }

  // ---- what every state keeps ----

  lemma WriteFits(db: Db, p: Parameters)
    requires PartiesFit(db) && RowAfter(db.tables, db.reservations, p).Ok?
    ensures var row := RowAfter(db.tables, db.reservations, p).value;
      RowAccepted(row) && PartiesFit(db.(reservations := db.reservations[p.reservation := row]))
  {
  }

  /** Rows stay acceptable and parties stay within their tables, with no proviso. */
  lemma StepKeepsRows(db: Db, s: Settings, c: Call)
    requires Valid(db)
    ensures Accepted(Next(db, s, c).reservations) && PartiesFit(Next(db, s, c))
  {
    hide Next, RowAfter, TableHasConflict, IdsUsed, DecisionsConsistent, RowAccepted;
    StepAppliesEffect(db, s, c);
    StepFrame(db, s, c);
    var e := EffectOf(db, s, c);
    if e.Insert? {
      ChosenTableFits(db, c.request, e.row.duration);
    } else if e.Write? {
      WriteFits(db, e.action);
    }
  }

  // ---- runs ----

  predicate SafeRun(db: Db, s: Settings, calls: seq<Call>)
    decreases |calls|
  {
    calls == [] || (!UnsafeStep(db, s, calls[0]) && SafeRun(Next(db, s, calls[0]), s, calls[1..]))
  }

  ghost predicate NeverDoubleBooked(db: Db, s: Settings, calls: seq<Call>)
    decreases |calls|
  {
    NoDoubleBooking(db.reservations) && (calls == [] || NeverDoubleBooked(Next(db, s, calls[0]), s, calls[1..]))
  }

  lemma StepKeepsValid(db: Db, s: Settings, c: Call)
    requires Valid(db)
    ensures Valid(Next(db, s, c))
  {
    StepKeepsRows(db, s, c);
    StepKeepsIds(db, s, c);
    StepKeepsMemoryTable(db, s, c);
    RulingKeepsConsistency(db, s, c);
  }

  lemma {:induction false} RunKeepsValid(db: Db, s: Settings, calls: seq<Call>)
    requires Valid(db)
    ensures Valid(Run(db, s, calls))
    decreases |calls|
  {
    if calls != [] {
      StepKeepsValid(db, s, calls[0]);
      RunKeepsValid(Next(db, s, calls[0]), s, calls[1..]);
    }
  }

  /** Capacity needs no proviso: started empty, no run ever seats a party at a table too small for it. */
  lemma PartiesAlwaysFit(db: Db, s: Settings, calls: seq<Call>)
    requires Fresh(db)
    ensures PartiesFit(Run(db, s, calls))
  {
    RunKeepsValid(db, s, calls);
  }

  /** A run is free of double bookings throughout if and only if none of its steps is an unchecked reactivation. */
  lemma {:induction false} RunIsSafe(db: Db, s: Settings, calls: seq<Call>)
    requires Valid(db) && NoDoubleBooking(db.reservations)
    ensures NeverDoubleBooked(db, s, calls) <==> SafeRun(db, s, calls)
    decreases |calls|
  {
    if calls != [] {
      StepIsSafe(db, s, calls[0]);
      StepKeepsValid(db, s, calls[0]);
      if !UnsafeStep(db, s, calls[0]) {
        RunIsSafe(Next(db, s, calls[0]), s, calls[1..]);
      }
    }
  }

  /** The run executes no approved change on a no-longer-active reservation unless it re-checks the slot. */
  predicate ReactivatesOnlyWithSlotChange(db: Db, s: Settings, calls: seq<Call>)
    decreases |calls|
  {
    calls == [] ||
    var c := calls[0];
    (Completes(db, s, c, ReservationDomain) ==>
       var p := db.approvals[c.approval].parameters;
       p.ModifyReservation? && p.reservation in db.reservations && !Active(db.reservations[p.reservation])
       ==> TouchesSlot(p.changes))
    && ReactivatesOnlyWithSlotChange(Next(db, s, c), s, calls[1..])
  }

  /** The usable proviso: if every executed change to an inactive reservation names a table, time or party,
      no state of the run has a double booking. */
  lemma {:induction false} NoDoubleBookingUnderProviso(db: Db, s: Settings, calls: seq<Call>)
    requires Valid(db) && NoDoubleBooking(db.reservations)
    requires ReactivatesOnlyWithSlotChange(db, s, calls)
    ensures NeverDoubleBooked(db, s, calls)
    decreases |calls|
  {
    if calls != [] {
      StepIsSafe(db, s, calls[0]);
      StepKeepsValid(db, s, calls[0]);
      NoDoubleBookingUnderProviso(Next(db, s, calls[0]), s, calls[1..]);
    }
  }

  // ---- the proviso is needed ----

  const DEFAULTS := Settings(6, 90, 200.0, {ReservationDomain, PurchaseDomain})
  const EMPTY_BOOK := Db(map[1 := Table(1, 8, true)], map[2 := Customer(1)], map[], map[], map[], map[], map[], [], 10)
  const AGENT := Context("reservation", Some(3), ManagerRequest)
  const LARGE_PARTY := BookingRequest(1, 2, 6, 100, Some(1), None, None)
  const BOOKED_ROW := Reservation(1, 2, Some(1), 6, 100, 90, Booked, None, ManagerRequest)
  const NOTES_ONLY := Changes(None, None, None, Some("window seat"))

  /** A party of six is booked, and both its cancellation and a notes-only change are proposed. */
  const PROPOSALS :=
    [Call.Create(LARGE_PARTY, 0, AGENT), Call.Cancel(1, 10, None, AGENT), Call.Modify(1, 10, NOTES_ONLY, AGENT)]

  /** The cancellation is approved, the freed slot is booked by a couple, and then the change is approved too. */
  const DECISIONS :=
    [Call.Approve(11, 4, 1, "", false, None), Call.Create(LARGE_PARTY.(party := 2), 0, AGENT),
     Call.Approve(12, 4, 2, "", false, None)]

  lemma RunOfThree(db: Db, s: Settings, a: Call, b: Call, c: Call)
    ensures Run(db, s, [a, b, c]) == Next(Next(Next(db, s, a), s, b), s, c)
  {
    hide Next;
    assert [a, b, c][1..] == [b, c] && [b, c][1..] == [c] && [c][1..] == [];
    assert Run(db, s, [a, b, c]) == Run(Next(db, s, a), s, [b, c]);
    assert Run(Next(db, s, a), s, [b, c]) == Run(Next(Next(db, s, a), s, b), s, [c]);
  }

  lemma BothProposalsWait()
    ensures var db := Run(EMPTY_BOOK, DEFAULTS, PROPOSALS);
      && db.tables == EMPTY_BOOK.tables && db.customers == EMPTY_BOOK.customers
      && db.reservations == map[10 := BOOKED_ROW] && db.memories == map[] && db.nextId == 13
      && 11 in db.approvals && 12 in db.approvals
      && Approvals.RequirePending(db, 11).Ok? && db.approvals[11].parameters == CancelReservation(10, None)
      && Approvals.RequirePending(db, 12).Ok? && db.approvals[12].parameters == ModifyReservation(10, NOTES_ONLY)
      && db.approvals[11].domain == db.approvals[12].domain == ReservationDomain
  {
    RunOfThree(EMPTY_BOOK, DEFAULTS, PROPOSALS[0], PROPOSALS[1], PROPOSALS[2]);
    var db1 := Next(EMPTY_BOOK, DEFAULTS, PROPOSALS[0]);
    assert db1.reservations == map[10 := BOOKED_ROW];
    var db2 := Next(db1, DEFAULTS, PROPOSALS[1]);
    assert db2.approvals.Keys == {11};
  }

  lemma ApprovedCancellationFreesSlot(db: Db)
    requires db.reservations == map[10 := BOOKED_ROW] && db.nextId == 13
    requires Approvals.RequirePending(db, 11).Ok? && db.approvals[11].parameters == CancelReservation(10, None)
    requires Approvals.RequirePending(db, 12).Ok?
    requires db.approvals[11].domain == ReservationDomain
    ensures var db' := Next(db, DEFAULTS, DECISIONS[0]);
      && db'.reservations == map[10 := BOOKED_ROW.(status := Cancelled)] && db'.nextId >= 13
      && db'.tables == db.tables && db'.customers == db.customers
      && 12 in db'.approvals && db'.approvals[12] == db.approvals[12]
  {
    hide Next;
    StepAppliesEffect(db, DEFAULTS, DECISIONS[0]);
    StepAppliesRuling(db, DEFAULTS, DECISIONS[0]);
    StepFrame(db, DEFAULTS, DECISIONS[0]);
  }

  lemma DecidingBothRevives(db: Db)
    requires db.tables == EMPTY_BOOK.tables && db.customers == EMPTY_BOOK.customers
    requires db.reservations == map[10 := BOOKED_ROW] && db.nextId == 13
    requires Approvals.RequirePending(db, 11).Ok? && db.approvals[11].parameters == CancelReservation(10, None)
    requires Approvals.RequirePending(db, 12).Ok? && db.approvals[12].parameters == ModifyReservation(10, NOTES_ONLY)
    requires db.approvals[11].domain == db.approvals[12].domain == ReservationDomain
    ensures !NoDoubleBooking(Run(db, DEFAULTS, DECISIONS).reservations)
  {
    hide Next;
    RunOfThree(db, DEFAULTS, DECISIONS[0], DECISIONS[1], DECISIONS[2]);
    ApprovedCancellationFreesSlot(db);
    var db1 := Next(db, DEFAULTS, DECISIONS[0]);
    StepAppliesEffect(db1, DEFAULTS, DECISIONS[1]);
    StepAppliesRuling(db1, DEFAULTS, DECISIONS[1]);
    StepFrame(db1, DEFAULTS, DECISIONS[1]);
    var db2 := Next(db1, DEFAULTS, DECISIONS[1]);
    assert db2.reservations == db1.reservations[db1.nextId := BOOKED_ROW.(party := 2)];
    StepAppliesEffect(db2, DEFAULTS, DECISIONS[2]);
    var db3 := Next(db2, DEFAULTS, DECISIONS[2]);
    assert Occupies(db3.reservations[10], 1, 100) && Occupies(db3.reservations[db1.nextId], 1, 100);
  }

  /** From an empty book, approving the notes-only change brings the cancelled booking back on top of its successor. */
  lemma ReactivationDoubleBooks()
    ensures Fresh(EMPTY_BOOK) && !NoDoubleBooking(Run(EMPTY_BOOK, DEFAULTS, PROPOSALS + DECISIONS).reservations)
  {
    hide Next;
    BothProposalsWait();
    DecidingBothRevives(Run(EMPTY_BOOK, DEFAULTS, PROPOSALS));
    RunSplits(EMPTY_BOOK, DEFAULTS, PROPOSALS, DECISIONS);
  }
}
