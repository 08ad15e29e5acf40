/** What `ReservationRepository` and `ReservationService` compute on a database state. */
module Booking {
  import opened Prelude
  import opened Schema

  // ---- occupancy ----

  predicate Active(r: Reservation) {
    r.status in {Requested, Booked, Modified}
  }

  const MINUTE := 60_000_000

  /** Moment `m` falls in the half-open interval; durations are in minutes. */
  predicate During(time: int, duration: int, m: int) {
    time <= m < time + duration * MINUTE
  }

  predicate Occupies(r: Reservation, table: Id, m: int) {
    Active(r) && r.table == Some(table) && During(r.time, r.duration, m)
  }

  /** At no moment do two distinct reservations hold the same table. */
  ghost predicate NoDoubleBooking(rs: map<Id, Reservation>) {
    forall i, j, table, m | i in rs && j in rs && i != j :: !(Occupies(rs[i], table, m) && Occupies(rs[j], table, m))
  }

  predicate Overlaps(time: int, duration: int, time': int, duration': int) {
    time' < time + duration * MINUTE && time < time' + duration' * MINUTE
  }

  predicate ConflictsWith(r: Reservation, table: Id, time: int, duration: int) {
    Active(r) && r.table == Some(table) && Overlaps(time, duration, r.time, r.duration)
  }

  predicate TableHasConflict(rs: map<Id, Reservation>, table: Id, time: int, duration: int, exclude: Option<Id>) {
    exists id | id in rs :: exclude != Some(id) && ConflictsWith(rs[id], table, time, duration)
  }

  /** The inequality test finds a conflict exactly when the two intervals share a moment. */
  lemma OverlapMeansSharedMoment(time: int, duration: int, time': int, duration': int)
    requires duration > 0 && duration' > 0
    ensures Overlaps(time, duration, time', duration')
            <==> exists m :: During(time, duration, m) && During(time', duration', m)
  {
    if Overlaps(time, duration, time', duration') {
      var m := if time < time' then time' else time;
      assert During(time, duration, m) && During(time', duration', m);
    }
  }

  // ---- table search ----

  predicate Suitable(t: Table, restaurant: Id, party: int) {
    t.restaurant == restaurant && t.active && t.capacity >= party
  }

  /** The capacities of the restaurant's active tables that seat the party: the rows and sort key of the query. */
  function CandidateKeys(tables: map<Id, Table>, restaurant: Id, party: int): map<Id, real> {
    map t | t in tables && Suitable(tables[t], restaurant, party) :: tables[t].capacity as real
  }

  /** The candidates that are free for the whole interval, smallest first. */
  function AvailableTables(db: Db, restaurant: Id, party: int, time: int, duration: int): seq<Id> {
    var key := CandidateKeys(db.tables, restaurant, party);
    OrderBy(map t | t in key && !TableHasConflict(db.reservations, t, time, duration, None) :: key[t])
  }

  // ---- writes ----

  /** The CHECK constraints and SMALLINT columns of the reservations table. */
  predicate RowAccepted(r: Reservation) {
    0 < r.party <= 32767 && 0 < r.duration <= 32767 && r.createdVia != Scheduled
  }

  datatype BookingRequest = BookingRequest(
    restaurant: Id, customer: Id, party: int, time: int, table: Option<Id>,
    duration: Option<int>, notes: Option<string>)

  /** Python's `requested or default`: zero counts as absent. */
  function Duration(s: Settings, requested: Option<int>): int {
    if requested.None? || requested.value == 0 then s.defaultDuration else requested.value
  }

  predicate HighImpactParty(s: Settings, party: int) {
    party >= s.highImpactParty
  }

  function ChooseTable(db: Db, q: BookingRequest, duration: int): Result<Id, Error> {
    match q.table
    case Some(t) =>
      if t !in db.tables || db.tables[t].restaurant != q.restaurant || !db.tables[t].active then Err(TableNotFound)
      else if db.tables[t].capacity < q.party then Err(TableTooSmall)
      else if TableHasConflict(db.reservations, t, q.time, duration, None) then Err(TableConflict)
      else Ok(t)
    case None =>
      var available := AvailableTables(db, q.restaurant, q.party, q.time, duration);
      if available == [] then Err(NoAvailability) else Ok(available[0])
  }

  /** The row `create_reservation` inserts, or the first check that fails. */
  function NewRow(db: Db, s: Settings, q: BookingRequest, now: int, ctx: Context): Result<Reservation, Error> {
    if q.customer !in db.customers || db.customers[q.customer].restaurant != q.restaurant then Err(CustomerNotFound)
    else if q.time <= now then Err(InvalidTime)
    else
      var duration := Duration(s, q.duration);
      match ChooseTable(db, q, duration)
      case Err(e) => Err(e)
      case Ok(t) =>
        var row := Reservation(
          q.restaurant, q.customer, Some(t), q.party, q.time, duration, Booked, q.notes, ctx.trigger);
        if RowAccepted(row) then Ok(row) else Err(ConstraintViolation)
  }

  function Create(db: Db, s: Settings, q: BookingRequest, now: int, ctx: Context): Outcome {
    match NewRow(db, s, q, now, ctx)
    case Err(e) => Outcome(db, Err(e))
    case Ok(row) =>
      var id := db.nextId;
      Outcome(
        db.(reservations := db.reservations[id := row], nextId := id + 1,
            events := db.events + [Event(ReservationCreated, q.restaurant, id)]),
        Ok(ReservationBooked(id)))
  }

  /** A change that names the party, the time or the table, and so has the table looked up again. */
  predicate TouchesSlot(c: Changes) {
    c.table.Some? || c.time.Some? || c.party.Some?
  }

  /** `_apply_modification`: the row with the changes made, once the table it ends on has been checked. */
  function ModifiedRow(tables: map<Id, Table>, rs: map<Id, Reservation>, id: Id, c: Changes): Result<Reservation, Error>
    requires id in rs
  {
    var r := rs[id];
    var party := c.party.GetOr(r.party);
    var time := c.time.GetOr(r.time);
    var table := if c.table.Some? then c.table else r.table;
    var notes := if c.notes.Some? then c.notes else r.notes;
    var changed := r.(party := party, time := time, table := table, notes := notes);
    if table.Some? && TouchesSlot(c) then
      if table.value !in tables || !tables[table.value].active then Err(TableNotFound)
      else if tables[table.value].capacity < party then Err(TableTooSmall)
      else if TableHasConflict(rs, table.value, time, r.duration, Some(id)) then Err(TableConflict)
      else Ok(changed)
    else Ok(changed)
  }

  /** The characters Python's `str.strip` removes. */
  predicate Whitespace(c: char) {
    || '\t' <= c <= '\r' || '\U{1c}' <= c <= ' ' || c == '\U{85}' || c == '\U{a0}' || c == '\U{1680}'
    || '\U{2000}' <= c <= '\U{200a}' || c in {'\U{2028}', '\U{2029}', '\U{202f}', '\U{205f}', '\U{3000}'}
  }

  function Strip(s: string): string
    decreases |s|
  {
    if s == [] then s
    else if Whitespace(s[0]) then Strip(s[1..])
    else if Whitespace(s[|s| - 1]) then Strip(s[..|s| - 1])
    else s
  }

  function CancellationNotes(notes: Option<string>, reason: Option<string>): Option<string> {
    if reason.Some? && reason.value != "" then
      Some(Strip(notes.GetOr("") + "\nCancellation reason: " + reason.value))
    else notes
  }

  /** The row a reservation action leaves, or the error it raises before or while writing it. */
  function RowAfter(tables: map<Id, Table>, rs: map<Id, Reservation>, p: Parameters): Result<Reservation, Error> {
    if p.ApprovePurchase? then Err(UnsupportedAction)
    else if p.reservation !in rs then Err(ReservationNotFound)
    else
      var changed :=
        if p.CancelReservation? then
          var r := rs[p.reservation];
          Ok(r.(status := Cancelled, notes := CancellationNotes(r.notes, p.reason)))
        else
          match ModifiedRow(tables, rs, p.reservation, p.changes)
          case Ok(row) => Ok(row.(status := Modified))
          case Err(e) => Err(e);
      if changed.Ok? && !RowAccepted(changed.value) then Err(ConstraintViolation) else changed
  }

  /** The event a reservation action publishes. */
  function Announcement(p: Parameters, row: Reservation): Event
    requires !p.ApprovePurchase?
  {
    Event(if p.CancelReservation? then ReservationCancelled else ReservationModified, row.restaurant, p.reservation)
  }
}
