/** What `ApprovalService` does to a database state: decide once, execute inside a savepoint, remember, announce. */
module Approvals {
  import opened Prelude
  import opened Schema
  import Booking
  import Purchasing
  import MemoryTable

  function RequirePending(db: Db, id: Id): Result<Approval, Error> {
    if id !in db.approvals then Err(ApprovalNotFound)
    else if db.approvals[id].status == Expired then Err(ApprovalHasExpired)
    else if db.approvals[id].status != Pending then Err(ApprovalAlreadyDecided)
    else Ok(db.approvals[id])
  }

  predicate HasExecutor(executors: set<Domain>, domain: Domain) {
    domain in executors && domain in {ReservationDomain, PurchaseDomain}
  }

  /** What an executor writes: the rows of the two tables it may touch, and the events it publishes. */
  datatype Work = Work(reservations: map<Id, Reservation>, purchases: map<Id, Purchase>, events: seq<Event>)

  /** What the executor registered for the approval's domain does, unless it raises unexpectedly. */
  function ActionWork(db: Db, a: Approval): Result<Work, Error>
    requires a.domain in {ReservationDomain, PurchaseDomain}
  {
    var p := a.parameters;
    if a.domain == ReservationDomain then
      match Booking.RowAfter(db.tables, db.reservations, p)
      case Err(e) => Err(e)
      case Ok(row) => Ok(Work(db.reservations[p.reservation := row], db.purchases, [Booking.Announcement(p, row)]))
    else
      match Purchasing.PurchaseAfter(db.purchases, p)
      case Err(e) => Err(e)
      case Ok(row) => Ok(Work(db.reservations, db.purchases[p.purchase := row], []))
  }

  function RunExecutor(db: Db, a: Approval, fault: Option<Fault>): Result<Work, Error>
    requires a.domain in {ReservationDomain, PurchaseDomain}
  {
    if fault == Some(BeforeWrites) then Err(Unexpected)
    else
      match ActionWork(db, a)
      case Err(e) => Err(e)
      case Ok(work) => if fault.Some? then Err(Unexpected) else Ok(work)
  }

  /** How execution ended; `None` when no executor is wired for the domain. */
  function ExecutionOf(db: Db, executors: set<Domain>, a: Approval, fault: Option<Fault>): Option<Execution> {
    if !HasExecutor(executors, a.domain) then None
    else if RunExecutor(db, a, fault).Ok? then Some(Succeeded)
    else Some(Failed(RunExecutor(db, a, fault).error))
  }

  /** The executor runs inside a savepoint, so a failing one leaves no writes at all. */
  function WorkDone(db: Db, executors: set<Domain>, a: Approval, fault: Option<Fault>): Work {
    if ExecutionOf(db, executors, a, fault) == Some(Succeeded) then RunExecutor(db, a, fault).value
    else Work(db.reservations, db.purchases, [])
  }

  function ApprovalTopic(id: Id): string {
    "approval_" + Digits(id)
  }

  /** The past decision an approval leaves behind; `text` is the composed sentence. */
  function DecisionMemory(id: Id, a: Approval, text: string): Memory {
    Memory(a.restaurant, None, Some(a.agent), PastDecision, ApprovalTopic(id), text,
           if a.risk == High then 5 else 3, 1.0, ManagerStated, true, 0)
  }

  /** The memory write has its own savepoint; `writable` says whether embedding and storing it succeed. */
  function MemoriesAfter(db: Db, id: Id, a: Approval, text: string, writable: bool): map<Id, Memory> {
    var written := MemoryTable.Add(db.memories, db.nextId, DecisionMemory(id, a, text));
    if writable && written.Ok? then written.value else db.memories
  }

  function DecisionEvents(id: Id, a: Approval, purchaseEvent: EventType): seq<Event> {
    (if a.domain == PurchaseDomain then [Event(purchaseEvent, a.restaurant, id)] else [])
    + [Event(ApprovalCompleted, a.restaurant, id)]
  }

  function ApprovedRow(
    db: Db, executors: set<Domain>, a: Approval, user: Id, now: int, fault: Option<Fault>): Approval
  {
    var decided := a.(status := Approved, decidedBy := Some(user), approvedAt := Some(now));
    var execution := ExecutionOf(db, executors, a, fault);
    if execution.None? then decided else decided.(execution := execution, executedAt := Some(now))
  }

  function Approve(
    db: Db, executors: set<Domain>, id: Id, user: Id, now: int, text: string, writable: bool,
    fault: Option<Fault>): Outcome
  {
    match RequirePending(db, id)
    case Err(e) => Outcome(db, Err(e))
    case Ok(a) =>
      var work := WorkDone(db, executors, a, fault);
      Outcome(
        db.(reservations := work.reservations,
            purchases := work.purchases,
            approvals := db.approvals[id := ApprovedRow(db, executors, a, user, now, fault)],
            memories := MemoriesAfter(db, id, a, text, writable),
            nextId := db.nextId + if writable then 1 else 0,
            events := db.events + work.events + DecisionEvents(id, a, PurchaseApprovedEvent)),
        Ok(ApprovalDecided(id)))
  }

  function RejectedRow(a: Approval, user: Id, now: int): Approval {
    a.(status := Rejected, decidedBy := Some(user), rejectedAt := Some(now))
  }

  function Reject(db: Db, id: Id, user: Id, now: int, text: string, writable: bool): Outcome {
    match RequirePending(db, id)
    case Err(e) => Outcome(db, Err(e))
    case Ok(a) =>
      Outcome(
        db.(approvals := db.approvals[id := RejectedRow(a, user, now)],
            memories := MemoriesAfter(db, id, a, text, writable),
            nextId := db.nextId + if writable then 1 else 0,
            events := db.events + DecisionEvents(id, a, PurchaseRejectedEvent)),
        Ok(ApprovalDecided(id)))
  }

  predicate Overdue(a: Approval, restaurant: Id, now: int) {
    a.restaurant == restaurant && a.status == Pending && a.expiresAt.Some? && a.expiresAt.value < now
  }

  function OverdueIn(approvals: map<Id, Approval>, restaurant: Id, now: int): set<Id> {
    set id | id in approvals && Overdue(approvals[id], restaurant, now)
  }

  function MarkExpired(approvals: map<Id, Approval>, ids: set<Id>): map<Id, Approval> {
    map id | id in approvals :: if id in ids then approvals[id].(status := Expired) else approvals[id]
  }

  function Expire(db: Db, restaurant: Id, now: int): Outcome {
    var overdue := OverdueIn(db.approvals, restaurant, now);
    Outcome(db.(approvals := MarkExpired(db.approvals, overdue)), Ok(ApprovalsExpired(overdue)))
  }

  // ---- the gated reservation tools ----

  /** Whether an action on an active reservation needs approval: the party meets the threshold before or after it. */
  function Gate(db: Db, s: Settings, restaurant: Id, id: Id, party: Option<int>, inactive: Error): Result<bool, Error> {
    if id !in db.reservations || db.reservations[id].restaurant != restaurant then Err(ReservationNotFound)
    else
      var r := db.reservations[id];
      if !Booking.Active(r) then Err(inactive)
      else Ok(Booking.HighImpactParty(s, party.GetOr(r.party)) || Booking.HighImpactParty(s, r.party))
  }

  function Modify(db: Db, s: Settings, restaurant: Id, id: Id, c: Changes, ctx: Context): Outcome {
    match Gate(db, s, restaurant, id, c.party, ReservationNotModifiable)
    case Err(e) => Outcome(db, Err(e))
    case Ok(gated) => GatedAction(db, restaurant, ModifyReservation(id, c), gated, ctx)
  }

  function Cancel(db: Db, s: Settings, restaurant: Id, id: Id, reason: Option<string>, ctx: Context): Outcome {
    match Gate(db, s, restaurant, id, None, ReservationNotCancellable)
    case Err(e) => Outcome(db, Err(e))
    case Ok(gated) => GatedAction(db, restaurant, CancelReservation(id, reason), gated, ctx)
  }

  /** Proposes a gated action for approval, and carries any other out at once. */
  function GatedAction(db: Db, restaurant: Id, p: Parameters, gated: bool, ctx: Context): Outcome
    requires !p.ApprovePurchase?
  {
    if gated then
      if ctx.agentRun.None? then Outcome(db, Err(AgentRunRequired))
      else
        var id := db.nextId;
        var ask := Purchasing.PendingApprovalRow(
          restaurant, ReservationDomain, ctx.agent, ctx.agentRun.value, p, Medium, None);
        Outcome(
          db.(approvals := db.approvals[id := ask], nextId := id + 1,
              events := db.events + [Event(ApprovalCreated, restaurant, id)]),
          Ok(AwaitingApproval(id)))
    else
      match Booking.RowAfter(db.tables, db.reservations, p)
      case Err(e) => Outcome(db, Err(e))
      case Ok(row) =>
        Outcome(
          db.(reservations := db.reservations[p.reservation := row],
              events := db.events + [Booking.Announcement(p, row)]),
          Ok(ReservationChanged(p.reservation)))
  }
}
