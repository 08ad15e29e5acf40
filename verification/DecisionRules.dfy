/** What deciding an approval and proposing a purchase do, told on requests and row fields alone. */
module DecisionRules {
  import opened Prelude
  import opened Schema
  import opened System
  import Booking
  import Purchasing
  import Approvals
  import MemoryTable
  import MemoryRules
  import ReservationRules

  // ---- deciding ----

  /** Why the approval cannot be decided, if it cannot. */
  function DecisionRefusal(db: Db, id: Id): Option<Error> {
    if id !in db.approvals then Some(ApprovalNotFound)
    else if db.approvals[id].status == Expired then Some(ApprovalHasExpired)
    else if db.approvals[id].status in {Approved, Rejected} then Some(ApprovalAlreadyDecided)
    else None
  }

  /** The memories with the record of the decision, if it can be written. */
  function Recorded(db: Db, id: Id, text: string, writable: bool): map<Id, Memory>
    requires id in db.approvals
  {
    var a := db.approvals[id];
    if !writable then db.memories
    else
      MemoryRules.Added(
        db.memories, db.nextId,
        Memory(a.restaurant, None, Some(a.agent), PastDecision, "approval_" + Digits(id), text,
               if a.risk == High then 5 else 3, 1.0, ManagerStated, true, 0))
  }

  lemma RecordFollows(db: Db, id: Id, text: string, writable: bool)
    requires id in db.approvals
    ensures Approvals.MemoriesAfter(db, id, db.approvals[id], text, writable) == Recorded(db, id, text, writable)
  {
    MemoryRules.AddFollows(db.memories, db.nextId, Approvals.DecisionMemory(id, db.approvals[id], text));
    hide MemoryTable.Add, MemoryRules.Added;
  }

  /** Deciding a purchase is announced by its own event first. */
  function Announced(id: Id, a: Approval, ofPurchase: EventType): seq<Event> {
    if a.domain == PurchaseDomain then [Event(ofPurchase, a.restaurant, id), Event(ApprovalCompleted, a.restaurant, id)]
    else [Event(ApprovalCompleted, a.restaurant, id)]
  }

  /** The database after the approved action's executor is through, and how it ended; no executor, no result. A failing
      one leaves nothing. */
  ghost function Execute(db: Db, s: Settings, a: Approval, fault: Option<Fault>): (Db, Option<Execution>) {
    if !(a.domain in s.executors && (a.domain == ReservationDomain || a.domain == PurchaseDomain)) then (db, None)
    else if fault == Some(BeforeWrites) then (db, Some(Failed(Unexpected)))
    else if a.domain == ReservationDomain then
      var row := ReservationRules.ActionResult(db, a.parameters);
      if row.Err? then (db, Some(Failed(row.error)))
      else if fault.Some? then (db, Some(Failed(Unexpected)))
      else (ReservationRules.CarriedOut(db, a.parameters).db, Some(Succeeded))
    else if !a.parameters.ApprovePurchase? then (db, Some(Failed(UnsupportedAction)))
    else if a.parameters.purchase !in db.purchases then (db, Some(Failed(PurchaseRequestNotFound)))
    else if fault.Some? then (db, Some(Failed(Unexpected)))
    else
      var bought := db.purchases[a.parameters.purchase].(status := PurchaseApproved);
      (db.(purchases := db.purchases[a.parameters.purchase := bought]), Some(Succeeded))
  }

  lemma ExecutionFollows(db: Db, s: Settings, a: Approval, fault: Option<Fault>)
    ensures Approvals.ExecutionOf(db, s.executors, a, fault) == Execute(db, s, a, fault).1
    ensures var work := Approvals.WorkDone(db, s.executors, a, fault);
      Execute(db, s, a, fault).0
      == db.(reservations := work.reservations, purchases := work.purchases, events := db.events + work.events)
  {
    ReservationRules.ActionsFollow(db, a.parameters);
    assert ReservationRules.ActionResult(db, a.parameters).Ok? ==> !a.parameters.ApprovePurchase?;
    hide ReservationRules.ActionResult, Booking.RowAfter;
    var work := Approvals.WorkDone(db, s.executors, a, fault);
    assert work.events == [] ==> db.events + work.events == db.events;
  }

  /** Approving is refused unless the approval is pending. It marks the row approved by whom and when, executes its
      action and notes the result, records the decision, and announces it. */
  lemma ApproveAnswers(
    db: Db, s: Settings, id: Id, user: Id, now: int, text: string, writable: bool, fault: Option<Fault>)
    ensures Step(db, s, Approve(id, user, now, text, writable, fault)) ==
      var refusal := DecisionRefusal(db, id);
      if refusal.Some? then Outcome(db, Err(refusal.value))
      else
        var a := db.approvals[id];
        var (done, execution) := Execute(db, s, a, fault);
        var row := Approval(
          a.restaurant, a.domain, a.agent, a.agentRun, a.parameters, a.risk, Approved, Some(user), Some(now),
          a.rejectedAt, a.expiresAt, if execution.Some? then execution else a.execution,
          if execution.Some? then Some(now) else a.executedAt);
        Outcome(
          done.(approvals := db.approvals[id := row], memories := Recorded(db, id, text, writable),
                nextId := if writable then db.nextId + 1 else db.nextId,
                events := done.events + Announced(id, a, PurchaseApprovedEvent)),
          Ok(ApprovalDecided(id)))
  {
    if DecisionRefusal(db, id).None? {
      RecordFollows(db, id, text, writable);
      ExecutionFollows(db, s, db.approvals[id], fault);
    }
    hide Approvals.MemoriesAfter, Approvals.WorkDone, Approvals.ExecutionOf, Recorded, Execute;
  }

  /** Rejecting does the same without executing anything. */
  lemma RejectAnswers(db: Db, s: Settings, id: Id, user: Id, now: int, text: string, writable: bool)
    ensures Step(db, s, Reject(id, user, now, text, writable)) ==
      var refusal := DecisionRefusal(db, id);
      if refusal.Some? then Outcome(db, Err(refusal.value))
      else
        var a := db.approvals[id];
        var row := Approval(
          a.restaurant, a.domain, a.agent, a.agentRun, a.parameters, a.risk, Rejected, Some(user), a.approvedAt,
          Some(now), a.expiresAt, a.execution, a.executedAt);
        Outcome(
          db.(approvals := db.approvals[id := row], memories := Recorded(db, id, text, writable),
              nextId := if writable then db.nextId + 1 else db.nextId,
              events := db.events + Announced(id, a, PurchaseRejectedEvent)),
          Ok(ApprovalDecided(id)))
  {
    if DecisionRefusal(db, id).None? {
      RecordFollows(db, id, text, writable);
    }
    hide Approvals.MemoriesAfter, Recorded;
  }

  /** The sweep reports and expires exactly the restaurant's pending approvals whose expiry is past. */
  lemma ExpireAnswers(db: Db, s: Settings, restaurant: Id, now: int)
    ensures var overdue := set id |
          && id in db.approvals && db.approvals[id].restaurant == restaurant && db.approvals[id].status == Pending
          && db.approvals[id].expiresAt.Some? && db.approvals[id].expiresAt.value < now;
      Step(db, s, Expire(restaurant, now)) ==
        Outcome(
          db.(approvals := map id | id in db.approvals ::
                if id in overdue then db.approvals[id].(status := Expired) else db.approvals[id]),
          Ok(ApprovalsExpired(overdue)))
  {
    var overdue := set id |
          && id in db.approvals && db.approvals[id].restaurant == restaurant && db.approvals[id].status == Pending
          && db.approvals[id].expiresAt.Some? && db.approvals[id].expiresAt.value < now;
    assert Approvals.OverdueIn(db.approvals, restaurant, now) == overdue;
    assert Approvals.MarkExpired(db.approvals, overdue)
        == map id | id in db.approvals ::
             if id in overdue then db.approvals[id].(status := Expired) else db.approvals[id];
  }

  // ---- proposing a purchase ----

  /** `y` is the multiple of `unit` nearest to `x`, halves going away from zero. */
  ghost predicate NearestMultiple(x: real, unit: real, y: real) {
    exists n: int :: IsNearest(x, unit, y, n)
  }

  predicate IsNearest(x: real, unit: real, y: real, n: int) {
    && y == n as real * unit
    && -0.5 * unit <= y - x <= 0.5 * unit
    && (y - x == 0.5 * unit ==> x > 0.0)
    && (x - y == 0.5 * unit ==> x < 0.0)
  }

  lemma AmountsAreRounded(x: real)
    ensures NearestMultiple(x, 0.001, Purchasing.Thousandths(x))
    ensures var stored := Purchasing.Cents(Some(x)); stored.Some? && NearestMultiple(x, 0.01, stored.value)
    ensures Purchasing.Cents(None) == None
  {
    assert IsNearest(x, 0.001, Purchasing.Thousandths(x), Purchasing.Nearest(x * 1000.0));
    assert IsNearest(x, 0.01, Purchasing.Cents(Some(x)).value, Purchasing.Nearest(x * 100.0));
  }

  /** An open request for the item. */
  predicate OpenFor(db: Db, item: Id, id: Id) {
    && id in db.purchases && db.purchases[id].item == item
    && db.purchases[id].status in {Draft, PendingApproval, PurchaseApproved}
  }

  ghost predicate SomeOpenFor(db: Db, item: Id) {
    exists id :: OpenFor(db, item, id)
  }

  lemma OpenFollows(db: Db, item: Id) returns (open: Id)
    ensures !SomeOpenFor(db, item) ==> Purchasing.OpenRequest(db.purchases, item) == None
    ensures SomeOpenFor(db, item) ==>
      && Purchasing.OpenRequest(db.purchases, item) == Some(open) && OpenFor(db, item, open)
      && forall id: Id | OpenFor(db, item, id) :: id <= open
  {
    var ids := set id | id in db.purchases && Purchasing.OpenFor(db.purchases, id, item);
    assert forall id :: OpenFor(db, item, id) <==> id in ids;
    open := if ids == {} then 0 else Newest(ids);
  }

  /** What is stored of the amounts is positive, respectively not negative, and fits its column. */
  predicate AmountsFit(q: Purchasing.PurchaseProposal) {
    && 0.0 < Purchasing.Thousandths(q.quantity) < 1_000_000_000.0
    && (q.cost.Some? ==>
          0.0 <= Purchasing.Cents(q.cost).value < 100_000_000.0)
  }

  /** What a proposal for an item without an open request does. */
  function Opened(db: Db, s: Settings, q: Purchasing.PurchaseProposal, ctx: Context): Outcome {
    var gated := q.cost.Some? && q.cost.value >= s.highImpactCost;
    if gated && ctx.agentRun == None then Outcome(db, Err(AgentRunRequired))
    else if !AmountsFit(q) then Outcome(db, Err(ConstraintViolation))
    else
      var id, quantity, cost := db.nextId, Purchasing.Thousandths(q.quantity), Purchasing.Cents(q.cost);
      if gated then
        Outcome(
          db.(purchases := db.purchases[id := Schema.Purchase(
                q.restaurant, q.item, quantity, cost, PendingApproval, Some(id + 1), ctx.agentRun)],
              approvals := db.approvals[id + 1 := Approval(
                q.restaurant, PurchaseDomain, ctx.agent, ctx.agentRun.value, ApprovePurchase(id), High, Pending,
                None, None, None, None, None, None)],
              nextId := id + 2,
              events := db.events
                + [Event(ApprovalCreated, q.restaurant, id + 1), Event(PurchaseRequestedEvent, q.restaurant, id)]),
          Ok(AwaitingApproval(id + 1)))
      else
        Outcome(
          db.(purchases := db.purchases[id := Schema.Purchase(
                q.restaurant, q.item, quantity, cost, PurchaseApproved, None, ctx.agentRun)],
              nextId := id + 1,
              events := db.events + [Event(PurchaseRequestedEvent, q.restaurant, id)]),
          Ok(PurchaseFiled(id)))
  }

  /** A proposal for an unknown item is refused, and one for an item that has an open request is answered with the
      newest of them, changing nothing. Otherwise it opens a request, which waits for a new HIGH-risk approval if the
      proposed cost meets the threshold and is approved if not. */
  lemma ProposalAnswers(db: Db, s: Settings, q: Purchasing.PurchaseProposal, ctx: Context) returns (open: Id)
    ensures var o := Step(db, s, Call.Purchase(q, ctx));
      if !(q.item in db.items && db.items[q.item].restaurant == q.restaurant) then o == Outcome(db, Err(ItemNotFound))
      else if SomeOpenFor(db, q.item) then
        && OpenFor(db, q.item, open) && (forall id: Id | OpenFor(db, q.item, id) :: id <= open)
        && o == Outcome(
             db, Ok(if db.purchases[open].status == PendingApproval && db.purchases[open].approval.Some?
                    then AwaitingApproval(db.purchases[open].approval.value) else PurchaseFiled(open)))
      else o == Opened(db, s, q, ctx)
  {
    open := OpenFollows(db, q.item);
    hide Purchasing.OpenRequest, SomeOpenFor, OpenFor, Purchasing.Nearest;
  }
}
