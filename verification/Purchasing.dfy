/** The approval requests both services raise, and what `InventoryService` does with purchase requests. */
module Purchasing {
  import opened Prelude
  import opened Schema

  /** The row `ApprovalService.create_approval_request` inserts. */
  function PendingApprovalRow(
    restaurant: Id, domain: Domain, agent: string, agentRun: Id, p: Parameters, risk: Risk,
    expiresAt: Option<int>): Approval
  {
    Approval(restaurant, domain, agent, agentRun, p, risk, Pending, None, None, None, expiresAt, None, None)
  }

  predicate Open(p: Purchase) {
    p.status in {Draft, PendingApproval, PurchaseApproved}
  }

  predicate OpenFor(ps: map<Id, Purchase>, id: Id, item: Id) {
    id in ps && Open(ps[id]) && ps[id].item == item
  }

  /** The newest open request for the item. */
  function OpenRequest(ps: map<Id, Purchase>, item: Id): Option<Id> {
    var open := set id | id in ps && OpenFor(ps, id, item);
    if open == {} then None else Some(Newest(open))
  }

  predicate HighImpactCost(s: Settings, cost: Option<real>) {
    cost.Some? && cost.value >= s.highImpactCost
  }

  /** The whole number nearest to `x`, halves going away from zero, as the database rounds. */
  function Nearest(x: real): int {
    if x >= 0.0 then (x + 0.5).Floor else -(0.5 - x).Floor
  }

  /** What the NUMERIC(10, 2) column stores of a cost. */
  function Cents(cost: Option<real>): Option<real> {
    if cost.None? then None else Some(Nearest(cost.value * 100.0) as real / 100.0)
  }

  /** What the NUMERIC(12, 3) column stores of a quantity. */
  function Thousandths(quantity: real): real {
    Nearest(quantity * 1000.0) as real / 1000.0
  }

  /** The CHECK constraints of the purchase_requests table, and the widths of its columns. */
  predicate PurchaseAccepted(quantity: real, cost: Option<real>) {
    && 0.0 < Thousandths(quantity) < 1000000000.0
    && (cost.Some? ==> 0.0 <= Cents(cost).value < 100000000.0)
  }

  datatype PurchaseProposal = PurchaseProposal(restaurant: Id, item: Id, quantity: real, cost: Option<real>)

  function ProposePurchase(db: Db, s: Settings, q: PurchaseProposal, ctx: Context): Outcome {
    if q.item !in db.items || db.items[q.item].restaurant != q.restaurant then Outcome(db, Err(ItemNotFound))
    else
      match OpenRequest(db.purchases, q.item)
      case Some(open) =>
        var p := db.purchases[open];
        Outcome(db, Ok(if p.status == PendingApproval && p.approval.Some? then AwaitingApproval(p.approval.value)
                       else PurchaseFiled(open)))
      case None =>
        if HighImpactCost(s, q.cost) then ProposeGated(db, q, ctx) else FileAtOnce(db, q, ctx)
  }

  /** At or above the cost threshold: a pending request, linked to a new HIGH-risk approval that names it. */
  function ProposeGated(db: Db, q: PurchaseProposal, ctx: Context): Outcome {
    if ctx.agentRun.None? then Outcome(db, Err(AgentRunRequired))
    else if !PurchaseAccepted(q.quantity, q.cost) then Outcome(db, Err(ConstraintViolation))
    else
      var id, approval := db.nextId, db.nextId + 1;
      var row := Purchase(
        q.restaurant, q.item, Thousandths(q.quantity), Cents(q.cost), PendingApproval, Some(approval), ctx.agentRun);
      var ask := PendingApprovalRow(
        q.restaurant, PurchaseDomain, ctx.agent, ctx.agentRun.value, ApprovePurchase(id), High, None);
      Outcome(
        db.(purchases := db.purchases[id := row], approvals := db.approvals[approval := ask], nextId := id + 2,
            events := db.events + [Event(ApprovalCreated, q.restaurant, approval),
                                   Event(PurchaseRequestedEvent, q.restaurant, id)]),
        Ok(AwaitingApproval(approval)))
  }

  function FileAtOnce(db: Db, q: PurchaseProposal, ctx: Context): Outcome {
    if !PurchaseAccepted(q.quantity, q.cost) then Outcome(db, Err(ConstraintViolation))
    else
      var id := db.nextId;
      var row := Purchase(
        q.restaurant, q.item, Thousandths(q.quantity), Cents(q.cost), PurchaseApproved, None, ctx.agentRun);
      Outcome(
        db.(purchases := db.purchases[id := row], nextId := id + 1,
            events := db.events + [Event(PurchaseRequestedEvent, q.restaurant, id)]),
        Ok(PurchaseFiled(id)))
  }

  /** The row an approved purchase action leaves. */
  function PurchaseAfter(ps: map<Id, Purchase>, p: Parameters): Result<Purchase, Error> {
    if !p.ApprovePurchase? then Err(UnsupportedAction)
    else if p.purchase !in ps then Err(PurchaseRequestNotFound)
    else Ok(ps[p.purchase].(status := PurchaseApproved))
  }
}
