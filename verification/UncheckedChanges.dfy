/**
 What carrying out a change does not check: that the reservation is still active, that the table is the restaurant's
 own, and that the time lies ahead. The latter two hold of a run exactly as long as no change that is carried out
 breaks them.
 */
module UncheckedChanges {
  import opened Prelude
  import opened Schema
  import opened Booking
  import opened System
  import DoubleBooking

  /** The change a call carries out, at once or as an approved action. */
  predicate CarriesOut(db: Db, s: Settings, c: Call) {
    EffectOf(db, s, c).Write? && EffectOf(db, s, c).action.ModifyReservation?
  }

  // ---- reactivation ----

  /** A reservation that is no longer active becomes active again exactly when the call carries out a change that names
      it; and since changing an inactive reservation is refused, that is an executed approval. */
  lemma StepReactivates(db: Db, s: Settings, c: Call, id: Id)
    requires IdsUsed(db) && id in db.reservations && !Active(db.reservations[id])
    ensures id in Next(db, s, c).reservations
    ensures Active(Next(db, s, c).reservations[id])
            <==> CarriesOut(db, s, c) && EffectOf(db, s, c).action.reservation == id
    ensures Active(Next(db, s, c).reservations[id]) ==> Completes(db, s, c, ReservationDomain)
  {
    StepAppliesEffect(db, s, c);
    hide Next, TableHasConflict, CancellationNotes, ChooseTable;
  }

  // ---- whose table ----

  /** A reservation with a table sits at a table of its own restaurant. */
  ghost predicate OwnTables(db: Db) {
    forall id | id in db.reservations && db.reservations[id].table.Some? ::
      var t := db.reservations[id].table.value;
      t in db.tables && db.tables[t].restaurant == db.reservations[id].restaurant
  }

  /** The call carries out a change that names a table of another restaurant. */
  predicate NamesForeignTable(db: Db, s: Settings, c: Call) {
    CarriesOut(db, s, c)
    && var p := EffectOf(db, s, c).action;
       && p.reservation in db.reservations && p.changes.table.Some? && p.changes.table.value in db.tables
       && db.tables[p.changes.table.value].restaurant != db.reservations[p.reservation].restaurant
  }

  lemma StepKeepsOwnTables(db: Db, s: Settings, c: Call)
    requires OwnTables(db)
    ensures OwnTables(Next(db, s, c)) <==> !NamesForeignTable(db, s, c)
  {
    StepAppliesEffect(db, s, c);
    StepFrame(db, s, c);
    hide Next, TableHasConflict, CancellationNotes;
    var e, rs := EffectOf(db, s, c), Next(db, s, c).reservations;
    if e.Insert? {
      DoubleBooking.ChosenTableFits(db, c.request, e.row.duration);
    } else if e.Write? {
      assert rs[e.action.reservation] == RowAfter(db.tables, db.reservations, e.action).value;
    }
  }

  ghost predicate AlwaysOwnTables(db: Db, s: Settings, calls: seq<Call>)
    decreases |calls|
  {
    OwnTables(db) && (calls == [] || AlwaysOwnTables(Next(db, s, calls[0]), s, calls[1..]))
  }

  predicate NoForeignTable(db: Db, s: Settings, calls: seq<Call>)
    decreases |calls|
  {
    calls == [] || (!NamesForeignTable(db, s, calls[0]) && NoForeignTable(Next(db, s, calls[0]), s, calls[1..]))
  }

  /** In every state of a run reservations sit at their own restaurant's tables if and only if no change that is carried
      out names another's. */
  lemma {:induction false} OwnTablesAreKeptExactly(db: Db, s: Settings, calls: seq<Call>)
    requires OwnTables(db)
    ensures AlwaysOwnTables(db, s, calls) <==> NoForeignTable(db, s, calls)
    decreases |calls|
  {
    if calls != [] {
      StepKeepsOwnTables(db, s, calls[0]);
      hide Next, NamesForeignTable, OwnTables;
      if !NamesForeignTable(db, s, calls[0]) {
        OwnTablesAreKeptExactly(Next(db, s, calls[0]), s, calls[1..]);
      }
    }
  }

  // ---- when ----

  /** Every reservation the step makes or moves in time lies ahead of `now`. */
  ghost predicate BooksAhead(rs: map<Id, Reservation>, rs': map<Id, Reservation>, now: int) {
    forall id | id in rs' :: (id in rs && rs'[id].time == rs[id].time) || rs'[id].time > now
  }

  /** The call carries out a change to another time that is not ahead. */
  predicate SetsBack(db: Db, s: Settings, c: Call, now: int) {
    CarriesOut(db, s, c)
    && var p := EffectOf(db, s, c).action;
       && p.reservation in db.reservations && p.changes.time.Some?
       && p.changes.time.value != db.reservations[p.reservation].time && p.changes.time.value <= now
  }

  lemma StepBooksAhead(db: Db, s: Settings, c: Call, now: int)
    requires IdsUsed(db) && (c.Create? ==> c.now == now)
    ensures BooksAhead(db.reservations, Next(db, s, c).reservations, now) <==> !SetsBack(db, s, c, now)
  {
    StepAppliesEffect(db, s, c);
    hide Next, TableHasConflict, CancellationNotes, ChooseTable;
    var e, rs := EffectOf(db, s, c), Next(db, s, c).reservations;
    if e.Write? {
      assert rs[e.action.reservation] == RowAfter(db.tables, db.reservations, e.action).value;
    }
  }

  /** The clock shows the times at which the calls are made. */
  predicate ClockOf(calls: seq<Call>, clock: seq<int>) {
    |clock| == |calls| && forall i | 0 <= i < |calls| && calls[i].Create? :: calls[i].now == clock[i]
  }

  ghost predicate AlwaysBooksAhead(db: Db, s: Settings, calls: seq<Call>, clock: seq<int>)
    requires |clock| == |calls|
    decreases |calls|
  {
    calls == []
    || (&& BooksAhead(db.reservations, Next(db, s, calls[0]).reservations, clock[0])
        && AlwaysBooksAhead(Next(db, s, calls[0]), s, calls[1..], clock[1..]))
  }

  predicate NeverSetBack(db: Db, s: Settings, calls: seq<Call>, clock: seq<int>)
    requires |clock| == |calls|
    decreases |calls|
  {
    calls == []
    || (!SetsBack(db, s, calls[0], clock[0]) && NeverSetBack(Next(db, s, calls[0]), s, calls[1..], clock[1..]))
  }

  /** A run makes and moves reservations only to times ahead of the clock if and only if no change that is carried out
      names another time that is not. */
  lemma {:induction false} BooksAheadExactly(db: Db, s: Settings, calls: seq<Call>, clock: seq<int>)
    requires IdsUsed(db) && ClockOf(calls, clock)
    ensures AlwaysBooksAhead(db, s, calls, clock) <==> NeverSetBack(db, s, calls, clock)
    decreases |calls|
  {
    if calls != [] {
      StepBooksAhead(db, s, calls[0], clock[0]);
      StepKeepsIds(db, s, calls[0]);
      hide Next, SetsBack, BooksAhead;
      BooksAheadExactly(Next(db, s, calls[0]), s, calls[1..], clock[1..]);
    }
  }

  // ---- witnesses ----

  const TWO_RESTAURANTS :=
    Db(map[1 := Table(1, 8, true), 5 := Table(2, 8, true)], map[2 := Customer(1)], map[], map[], map[], map[], map[],
        [], 10)
  const COUPLE := Call.Create(DoubleBooking.LARGE_PARTY.(party := 2), 0, DoubleBooking.AGENT)
  const ELSEWHERE := Call.Modify(1, 10, Changes(None, None, Some(5), None), DoubleBooking.AGENT)
  const YESTERDAY := Call.Modify(1, 10, Changes(None, Some(-86_400_000_000), None, None), DoubleBooking.AGENT)

  lemma RunOfTwo(db: Db, s: Settings, a: Call, b: Call)
    ensures Run(db, s, [a, b]) == Next(Next(db, s, a), s, b)
  {
    hide Next;
    assert [a, b][1..] == [b] && [b][1..] == [];
    assert Run(db, s, [a, b]) == Run(Next(db, s, a), s, [b]);
  }

  lemma CoupleIsBooked()
    ensures var db := Next(TWO_RESTAURANTS, DoubleBooking.DEFAULTS, COUPLE);
      && db.tables == TWO_RESTAURANTS.tables
      && db.reservations == map[10 := DoubleBooking.BOOKED_ROW.(party := 2)]
  {
  }

  /** One ungated tool call moves a couple's booking to another restaurant's table, another moves it to the past. */
  lemma ChangesGoAnywhere()
    ensures Fresh(TWO_RESTAURANTS)
    ensures !OwnTables(Run(TWO_RESTAURANTS, DoubleBooking.DEFAULTS, [COUPLE, ELSEWHERE]))
    ensures var rs := Run(TWO_RESTAURANTS, DoubleBooking.DEFAULTS, [COUPLE, YESTERDAY]).reservations;
      10 in rs && rs[10].time == -86_400_000_000
  {
    CoupleIsBooked();
    var db, s := Next(TWO_RESTAURANTS, DoubleBooking.DEFAULTS, COUPLE), DoubleBooking.DEFAULTS;
    RunOfTwo(TWO_RESTAURANTS, s, COUPLE, ELSEWHERE);
    RunOfTwo(TWO_RESTAURANTS, s, COUPLE, YESTERDAY);
    StepAppliesEffect(db, s, ELSEWHERE);
    StepAppliesEffect(db, s, YESTERDAY);
    StepFrame(db, s, ELSEWHERE);
    hide Next, Run;
    assert Next(db, s, ELSEWHERE).reservations[10].table == Some(5);
  }
}
