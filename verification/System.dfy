/**
 The services as one transition system. A run is any interleaving of service calls; each call is one atomic step.
 `toolCalls` are what an agent can reach; decisions and the expiry sweep belong to people and the scheduler.
 */
module System {
  import opened Prelude
  import opened Schema
  import Booking
  import Purchasing
  import Approvals
  import MemoryTable

  datatype Call =
    | Create(request: Booking.BookingRequest, now: int, ctx: Context)
    | Modify(restaurant: Id, reservation: Id, changes: Changes, ctx: Context)
    | Cancel(restaurant: Id, reservation: Id, reason: Option<string>, ctx: Context)
    | Purchase(proposal: Purchasing.PurchaseProposal, ctx: Context)
    | Approve(approval: Id, user: Id, now: int, text: string, writable: bool, fault: Option<Fault>)
    | Reject(approval: Id, user: Id, now: int, text: string, writable: bool)
    | Expire(restaurant: Id, now: int)
    | UseMemory(call: MemoryTable.MemoryCall, embeds: bool)

  predicate ToolCall(c: Call) {
    c.Create? || c.Modify? || c.Cancel? || c.Purchase? || c.UseMemory?
  }

  function Step(db: Db, s: Settings, c: Call): Outcome {
    match c
    case Create(request, now, ctx) => Booking.Create(db, s, request, now, ctx)
    case Modify(restaurant, reservation, changes, ctx) => Approvals.Modify(db, s, restaurant, reservation, changes, ctx)
    case Cancel(restaurant, reservation, reason, ctx) => Approvals.Cancel(db, s, restaurant, reservation, reason, ctx)
    case Purchase(proposal, ctx) => Purchasing.ProposePurchase(db, s, proposal, ctx)
    case Approve(approval, user, now, text, writable, fault) =>
      Approvals.Approve(db, s.executors, approval, user, now, text, writable, fault)
    case Reject(approval, user, now, text, writable) => Approvals.Reject(db, approval, user, now, text, writable)
    case Expire(restaurant, now) => Approvals.Expire(db, restaurant, now)
    case UseMemory(call, embeds) => ServeMemory(db, call, embeds)
  }

  function ServeMemory(db: Db, call: MemoryTable.MemoryCall, embeds: bool): Outcome {
    var served := MemoryTable.Serve(db.memories, db.customers.Keys, db.nextId, call, embeds);
    Outcome(
      db.(memories := served.rows, nextId := db.nextId + if call.AddCall? && served.failure.None? then 1 else 0),
      if served.failure.None? then Ok(MemoryServed) else Err(served.failure.value))
  }

  function Next(db: Db, s: Settings, c: Call): Db {
    Step(db, s, c).db
  }

  function Run(db: Db, s: Settings, calls: seq<Call>): Db
    decreases |calls|
  {
    if calls == [] then db else Run(Next(db, s, calls[0]), s, calls[1..])
  }

  lemma {:induction false} RunSplits(db: Db, s: Settings, calls: seq<Call>, more: seq<Call>)
    ensures Run(db, s, calls + more) == Run(Run(db, s, calls), s, more)
    decreases |calls|
  {
    if calls == [] {
      assert calls + more == more;
    } else {
      assert (calls + more)[1..] == calls[1..] + more;
      RunSplits(Next(db, s, calls[0]), s, calls[1..], more);
    }
  }

  // ---- the table constraints every state keeps ----

  ghost predicate IdsUsed(db: Db) {
    && (forall id | id in db.reservations :: id < db.nextId)
    && (forall id | id in db.purchases :: id < db.nextId)
    && (forall id | id in db.approvals :: id < db.nextId)
    && (forall id | id in db.memories :: id < db.nextId)
  }

  ghost predicate RowsAccepted(db: Db) {
    forall id | id in db.reservations :: Booking.RowAccepted(db.reservations[id])
  }

  /** A reservation with a table fits it. */
  ghost predicate PartiesFit(db: Db) {
    forall id | id in db.reservations && db.reservations[id].table.Some? ::
      var t := db.reservations[id].table.value;
      t in db.tables && db.reservations[id].party <= db.tables[t].capacity
  }

  /** ck_approvals_decision_consistency, and nothing executes before it is approved. */
  predicate Consistent(a: Approval) {
    && (a.status == Approved ==> a.approvedAt.Some? && a.decidedBy.Some? && a.rejectedAt.None?)
    && (a.status == Rejected ==> a.rejectedAt.Some? && a.decidedBy.Some? && a.approvedAt.None?)
    && (a.status in {Pending, Expired} ==> a.approvedAt.None? && a.rejectedAt.None?)
    && (a.status != Approved ==> a.execution.None? && a.executedAt.None?)
    && (a.execution.Some? <==> a.executedAt.Some?)
    && a.risk != Low
  }

  ghost predicate DecisionsConsistent(db: Db) {
    forall id | id in db.approvals :: Consistent(db.approvals[id])
  }

  ghost predicate Valid(db: Db) {
    IdsUsed(db) && RowsAccepted(db) && PartiesFit(db) && DecisionsConsistent(db) && MemoryTable.UniqueKeys(db.memories)
  }

  /** A database before any reservation, request, approval or memory has been written. */
  predicate Fresh(db: Db) {
    db.reservations == map[] && db.purchases == map[] && db.approvals == map[] && db.memories == map[]
  }

  // ---- shapes of one step ----

  /** A call that raises leaves the database as it was, but for an update of a memory whose new text cannot be
      embedded: what it had assigned by then stays. */
  lemma FailedCallChangesNothing(db: Db, s: Settings, c: Call)
    requires Step(db, s, c).response.Err?
    ensures Next(db, s, c) == db <==> !(c.UseMemory? && MemoryTable.HalfUpdates(db.memories, c.call, c.embeds))
  {
    hide MemoryTable.Serve, MemoryTable.HalfUpdates;
    if c.UseMemory? {
      MemoryTable.FailedServeChangesNothing(db.memories, db.customers.Keys, db.nextId, c.call, c.embeds);
    }
  }

  /** What a step does to the reservations table. */
  datatype Effect = Untouched | Insert(row: Reservation) | Write(action: Parameters)

  predicate Executes(db: Db, s: Settings, c: Call, domain: Domain) {
    && c.Approve? && Approvals.RequirePending(db, c.approval).Ok?
    && db.approvals[c.approval].domain == domain && Approvals.HasExecutor(s.executors, domain)
  }

  /** The call runs the executor, and that does not raise unexpectedly. */
  predicate Completes(db: Db, s: Settings, c: Call, domain: Domain) {
    Executes(db, s, c, domain) && c.fault.None?
  }

  /** The action is carried out if it can be, and raises otherwise. */
  function Carried(db: Db, p: Parameters): Effect {
    if Booking.RowAfter(db.tables, db.reservations, p).Ok? then Write(p) else Untouched
  }

  function EffectOf(db: Db, s: Settings, c: Call): Effect {
    if c.Create? then
      match Booking.NewRow(db, s, c.request, c.now, c.ctx)
      case Ok(row) => Insert(row)
      case Err(_) => Untouched
    else if c.Modify?
         && Approvals.Gate(db, s, c.restaurant, c.reservation, c.changes.party, ReservationNotModifiable) == Ok(false)
    then
      Carried(db, ModifyReservation(c.reservation, c.changes))
    else if c.Cancel?
         && Approvals.Gate(db, s, c.restaurant, c.reservation, None, ReservationNotCancellable) == Ok(false)
    then
      Carried(db, CancelReservation(c.reservation, c.reason))
    else if Completes(db, s, c, ReservationDomain) then
      Carried(db, db.approvals[c.approval].parameters)
    else Untouched
  }

  /** The reservations table once the effect is applied. */
  ghost predicate Applied(db: Db, e: Effect, rs: map<Id, Reservation>) {
    match e
    case Untouched => rs == db.reservations
    case Insert(row) => rs == db.reservations[db.nextId := row]
    case Write(p) =>
      var row := Booking.RowAfter(db.tables, db.reservations, p);
      row.Ok? && rs == db.reservations[p.reservation := row.value]
  }

  lemma CreateAppliesEffect(db: Db, s: Settings, c: Call)
    requires c.Create?
    ensures Applied(db, EffectOf(db, s, c), Next(db, s, c).reservations)
  {
    hide Booking.NewRow;
  }

  lemma CarryingAppliesEffect(db: Db, restaurant: Id, p: Parameters, gated: bool, ctx: Context)
    requires !p.ApprovePurchase?
    ensures var o := Approvals.GatedAction(db, restaurant, p, gated, ctx);
      Applied(db, if gated then Untouched else Carried(db, p), o.db.reservations)
  {
    hide Booking.RowAfter, Booking.Announcement;
  }

  lemma GatedActionAppliesEffect(db: Db, s: Settings, c: Call)
    requires c.Modify? || c.Cancel?
    ensures Applied(db, EffectOf(db, s, c), Next(db, s, c).reservations)
  {
    hide Approvals.GatedAction, Approvals.Gate, Booking.RowAfter;
    if c.Modify? {
      CarryingAppliesEffect(db, c.restaurant, ModifyReservation(c.reservation, c.changes), true, c.ctx);
      CarryingAppliesEffect(db, c.restaurant, ModifyReservation(c.reservation, c.changes), false, c.ctx);
    } else {
      CarryingAppliesEffect(db, c.restaurant, CancelReservation(c.reservation, c.reason), true, c.ctx);
      CarryingAppliesEffect(db, c.restaurant, CancelReservation(c.reservation, c.reason), false, c.ctx);
    }
  }

  lemma ApprovalAppliesEffect(db: Db, s: Settings, c: Call)
    requires c.Approve?
    ensures Applied(db, EffectOf(db, s, c), Next(db, s, c).reservations)
  {
    hide Approvals.MemoriesAfter, Approvals.DecisionEvents, Approvals.ApprovedRow;
    hide Booking.ModifiedRow, Booking.CancellationNotes, Booking.RowAccepted;
  }

  lemma OtherAppliesEffect(db: Db, s: Settings, c: Call)
    requires c.Purchase? || c.Reject? || c.Expire? || c.UseMemory?
    ensures Applied(db, EffectOf(db, s, c), Next(db, s, c).reservations)
  {
    hide MemoryTable.Serve, Approvals.MemoriesAfter, Approvals.DecisionEvents, Approvals.MarkExpired;
    hide Purchasing.OpenRequest, Purchasing.PurchaseAccepted, Purchasing.Cents, Purchasing.Thousandths;
  }

  lemma StepAppliesEffect(db: Db, s: Settings, c: Call)
    ensures Applied(db, EffectOf(db, s, c), Next(db, s, c).reservations)
  {
    hide Next, EffectOf, Applied;
    if c.Create? {
      CreateAppliesEffect(db, s, c);
    } else if c.Modify? || c.Cancel? {
      GatedActionAppliesEffect(db, s, c);
    } else if c.Approve? {
      ApprovalAppliesEffect(db, s, c);
    } else {
      OtherAppliesEffect(db, s, c);
    }
  }

  /** What a step does to the approvals table. */
  datatype Ruling =
    NoRuling | Asked(id: Id, row: Approval) | Decided(id: Id, row: Approval) | Swept(restaurant: Id, now: int)

  function AskFor(db: Db, restaurant: Id, p: Parameters, ctx: Context): Ruling {
    if ctx.agentRun.None? then NoRuling
    else Asked(db.nextId,
               Purchasing.PendingApprovalRow(
                 restaurant, ReservationDomain, ctx.agent, ctx.agentRun.value, p, Medium, None))
  }

  /** The proposal opens a new request, which is gated by its cost or filed at once. */
  predicate OpensRequest(db: Db, s: Settings, q: Purchasing.PurchaseProposal, ctx: Context) {
    && q.item in db.items && db.items[q.item].restaurant == q.restaurant
    && Purchasing.OpenRequest(db.purchases, q.item).None?
    && Purchasing.PurchaseAccepted(q.quantity, q.cost)
    && (Purchasing.HighImpactCost(s, q.cost) ==> ctx.agentRun.Some?)
  }

  function RulingOf(db: Db, s: Settings, c: Call): Ruling {
    match c
    case Create(_, _, _) => NoRuling
    case Modify(restaurant, id, changes, ctx) =>
      if Approvals.Gate(db, s, restaurant, id, changes.party, ReservationNotModifiable) == Ok(true)
      then AskFor(db, restaurant, ModifyReservation(id, changes), ctx) else NoRuling
    case Cancel(restaurant, id, reason, ctx) =>
      if Approvals.Gate(db, s, restaurant, id, None, ReservationNotCancellable) == Ok(true)
      then AskFor(db, restaurant, CancelReservation(id, reason), ctx) else NoRuling
    case Purchase(q, ctx) =>
      if OpensRequest(db, s, q, ctx) && Purchasing.HighImpactCost(s, q.cost) then
        Asked(db.nextId + 1, Purchasing.PendingApprovalRow(
          q.restaurant, PurchaseDomain, ctx.agent, ctx.agentRun.value, ApprovePurchase(db.nextId), High, None))
      else NoRuling
    case Approve(id, user, now, _, _, fault) =>
      if Approvals.RequirePending(db, id).Ok?
      then Decided(id, Approvals.ApprovedRow(db, s.executors, db.approvals[id], user, now, fault)) else NoRuling
    case Reject(id, user, now, _, _) =>
      if Approvals.RequirePending(db, id).Ok? then Decided(id, Approvals.RejectedRow(db.approvals[id], user, now))
      else NoRuling
    case Expire(restaurant, now) => Swept(restaurant, now)
    case UseMemory(_, _) => NoRuling
  }

  /** The approvals table once the ruling is applied. */
  ghost predicate Ruled(db: Db, r: Ruling, approvals: map<Id, Approval>) {
    match r
    case NoRuling => approvals == db.approvals
    case Asked(id, row) => id >= db.nextId && row.status == Pending && approvals == db.approvals[id := row]
    case Decided(id, row) =>
      && id in db.approvals && db.approvals[id].status == Pending && row.status in {Approved, Rejected}
      && approvals == db.approvals[id := row]
    case Swept(restaurant, now) =>
      && approvals.Keys == db.approvals.Keys
      && forall id | id in approvals :: approvals[id] ==
           if Approvals.Overdue(db.approvals[id], restaurant, now) then db.approvals[id].(status := Expired)
           else db.approvals[id]
  }

  lemma AskingAppliesRuling(db: Db, restaurant: Id, p: Parameters, gated: bool, ctx: Context)
    requires !p.ApprovePurchase?
    ensures var o := Approvals.GatedAction(db, restaurant, p, gated, ctx);
      Ruled(db, if gated then AskFor(db, restaurant, p, ctx) else NoRuling, o.db.approvals)
  {
    hide Booking.RowAfter, Booking.Announcement;
  }

  lemma GatedActionAppliesRuling(db: Db, s: Settings, c: Call)
    requires c.Modify? || c.Cancel?
    ensures Ruled(db, RulingOf(db, s, c), Next(db, s, c).approvals)
  {
    hide Approvals.GatedAction, Approvals.Gate;
    if c.Modify? {
      AskingAppliesRuling(db, c.restaurant, ModifyReservation(c.reservation, c.changes), true, c.ctx);
      AskingAppliesRuling(db, c.restaurant, ModifyReservation(c.reservation, c.changes), false, c.ctx);
    } else {
      AskingAppliesRuling(db, c.restaurant, CancelReservation(c.reservation, c.reason), true, c.ctx);
      AskingAppliesRuling(db, c.restaurant, CancelReservation(c.reservation, c.reason), false, c.ctx);
    }
  }

  lemma ProposalAppliesRuling(db: Db, s: Settings, c: Call)
    requires c.Purchase?
    ensures Ruled(db, RulingOf(db, s, c), Next(db, s, c).approvals)
  {
    assert Next(db, s, c) == Purchasing.ProposePurchase(db, s, c.proposal, c.ctx).db;
    hide Next, Purchasing.OpenRequest;
  }

  lemma OtherAppliesRuling(db: Db, s: Settings, c: Call)
    requires c.Create? || c.UseMemory?
    ensures Ruled(db, RulingOf(db, s, c), Next(db, s, c).approvals)
  {
    hide Booking.NewRow, MemoryTable.Serve;
  }

  lemma DecisionAppliesRuling(db: Db, s: Settings, c: Call)
    requires c.Approve? || c.Reject? || c.Expire?
    ensures Ruled(db, RulingOf(db, s, c), Next(db, s, c).approvals)
  {
  }

  lemma StepAppliesRuling(db: Db, s: Settings, c: Call)
    ensures Ruled(db, RulingOf(db, s, c), Next(db, s, c).approvals)
  {
    hide Next, RulingOf, Ruled;
    if c.Approve? || c.Reject? || c.Expire? {
      DecisionAppliesRuling(db, s, c);
    } else if c.Purchase? {
      ProposalAppliesRuling(db, s, c);
    } else if c.Modify? || c.Cancel? {
      GatedActionAppliesRuling(db, s, c);
    } else {
      OtherAppliesRuling(db, s, c);
    }
  }

  /** What a step does to the purchase requests table. */
  datatype Filing = NoFiling | Filed(row: Schema.Purchase) | Bought(id: Id)

  function FilingOf(db: Db, s: Settings, c: Call): Filing {
    if c.Purchase? && OpensRequest(db, s, c.proposal, c.ctx) then
      var q := c.proposal;
      var gated := Purchasing.HighImpactCost(s, q.cost);
      Filed(Schema.Purchase(q.restaurant, q.item, Purchasing.Thousandths(q.quantity), Purchasing.Cents(q.cost),
                            if gated then PendingApproval else PurchaseApproved,
                            if gated then Some(db.nextId + 1) else None, c.ctx.agentRun))
    else if Completes(db, s, c, PurchaseDomain)
         && Purchasing.PurchaseAfter(db.purchases, db.approvals[c.approval].parameters).Ok?
    then Bought(db.approvals[c.approval].parameters.purchase)
    else NoFiling
  }

  /** The purchase requests table once the filing is applied. */
  ghost predicate FiledAs(db: Db, f: Filing, purchases: map<Id, Schema.Purchase>) {
    match f
    case NoFiling => purchases == db.purchases
    case Filed(row) => purchases == db.purchases[db.nextId := row]
    case Bought(id) =>
      id in db.purchases && purchases == db.purchases[id := db.purchases[id].(status := PurchaseApproved)]
  }

  lemma ProposalAppliesFiling(db: Db, s: Settings, c: Call)
    requires c.Purchase?
    ensures FiledAs(db, FilingOf(db, s, c), Next(db, s, c).purchases)
  {
    assert Next(db, s, c) == Purchasing.ProposePurchase(db, s, c.proposal, c.ctx).db;
    hide Next;
  }

  lemma DecisionAppliesFiling(db: Db, s: Settings, c: Call)
    requires c.Approve? || c.Reject? || c.Expire?
    ensures FiledAs(db, FilingOf(db, s, c), Next(db, s, c).purchases)
  {
  }

  lemma StepAppliesFiling(db: Db, s: Settings, c: Call)
    ensures FiledAs(db, FilingOf(db, s, c), Next(db, s, c).purchases)
  {
    if c.Purchase? {
      ProposalAppliesFiling(db, s, c);
    } else if c.Approve? || c.Reject? || c.Expire? {
      DecisionAppliesFiling(db, s, c);
    }
  }

  /** Tables, customers and items are never edited; the event log only grows; ids are never reused. */
  ghost predicate Framed(db: Db, db': Db) {
    && db'.tables == db.tables && db'.customers == db.customers && db'.items == db.items
    && db.events <= db'.events && db.nextId <= db'.nextId
  }

  /** A call that is no decision and no memory call leaves the memories alone, too. */
  ghost predicate ToolFramed(db: Db, db': Db) {
    Framed(db, db') && db'.memories == db.memories
  }

  lemma CreateFrame(db: Db, s: Settings, request: Booking.BookingRequest, now: int, ctx: Context)
    ensures ToolFramed(db, Booking.Create(db, s, request, now, ctx).db)
  {
  }

  lemma GatedProposalFrame(db: Db, q: Purchasing.PurchaseProposal, ctx: Context)
    ensures ToolFramed(db, Purchasing.ProposeGated(db, q, ctx).db)
  {
  }

  lemma ProposalFrame(db: Db, s: Settings, q: Purchasing.PurchaseProposal, ctx: Context)
    ensures ToolFramed(db, Purchasing.ProposePurchase(db, s, q, ctx).db)
  {
    GatedProposalFrame(db, q, ctx);
    hide Purchasing.OpenRequest, Purchasing.ProposeGated;
  }

  lemma GatedFrame(db: Db, restaurant: Id, p: Parameters, gated: bool, ctx: Context)
    requires !p.ApprovePurchase?
    ensures ToolFramed(db, Approvals.GatedAction(db, restaurant, p, gated, ctx).db)
  {
    hide Booking.RowAfter, Booking.Announcement;
  }

  lemma DecisionFrame(db: Db, s: Settings, c: Call)
    requires c.Approve? || c.Reject? || c.Expire?
    ensures Framed(db, Next(db, s, c))
  {
    hide Approvals.WorkDone, Approvals.ApprovedRow, Approvals.MemoriesAfter, Approvals.MarkExpired;
  }

  lemma ToolFrame(db: Db, s: Settings, c: Call)
    requires c.Create? || c.Purchase? || c.Modify? || c.Cancel?
    ensures ToolFramed(db, Next(db, s, c))
  {
    hide Booking.Create, Purchasing.ProposePurchase, Approvals.GatedAction;
    match c {
      case Create(request, now, ctx) => CreateFrame(db, s, request, now, ctx);
      case Purchase(proposal, ctx) => ProposalFrame(db, s, proposal, ctx);
      case Modify(restaurant, id, changes, ctx) =>
        GatedFrame(db, restaurant, ModifyReservation(id, changes), true, ctx);
        GatedFrame(db, restaurant, ModifyReservation(id, changes), false, ctx);
      case Cancel(restaurant, id, reason, ctx) =>
        GatedFrame(db, restaurant, CancelReservation(id, reason), true, ctx);
        GatedFrame(db, restaurant, CancelReservation(id, reason), false, ctx);
    }
  }

  lemma StepFrame(db: Db, s: Settings, c: Call)
    ensures Framed(db, Next(db, s, c))
  {
    if c.UseMemory? {
      hide MemoryTable.Serve;
    } else if c.Approve? || c.Reject? || c.Expire? {
      hide Next;
      DecisionFrame(db, s, c);
    } else {
      hide Next;
      ToolFrame(db, s, c);
    }
  }

  // ---- every state of a run is valid ----

  lemma RulingKeepsConsistency(db: Db, s: Settings, c: Call)
    requires DecisionsConsistent(db)
    ensures DecisionsConsistent(Next(db, s, c))
  {
    hide Next;
    StepAppliesRuling(db, s, c);
  }

  /** The call decides a pending approval and its memory can be written. */
  predicate Records(db: Db, c: Call) {
    (c.Approve? || c.Reject?) && c.writable && Approvals.RequirePending(db, c.approval).Ok?
  }

  /** The memories table after a step, which records a decision, serves a memory call, or leaves it alone. */
  function MemoriesOf(db: Db, c: Call): map<Id, Memory> {
    if Records(db, c) then
      MemoryTable.Add(db.memories, db.nextId,
                      Approvals.DecisionMemory(c.approval, db.approvals[c.approval], c.text)).value
    else if c.UseMemory? then MemoryTable.Serve(db.memories, db.customers.Keys, db.nextId, c.call, c.embeds).rows
    else db.memories
  }

  lemma DecisionAppliesMemory(db: Db, s: Settings, c: Call)
    requires c.Approve? || c.Reject?
    ensures Next(db, s, c).memories == MemoriesOf(db, c)
  {
    hide Approvals.WorkDone, Approvals.ApprovedRow, Approvals.DecisionEvents, Approvals.ApprovalTopic;
    hide MemoryTable.Superseded;
  }

  lemma OtherAppliesMemory(db: Db, s: Settings, c: Call)
    requires !c.Approve? && !c.Reject?
    ensures Next(db, s, c).memories == MemoriesOf(db, c)
  {
    if c.Expire? || c.UseMemory? {
      hide MemoryTable.Serve, Approvals.MarkExpired;
    } else {
      hide Next;
      ToolFrame(db, s, c);
    }
  }

  lemma StepAppliesMemory(db: Db, s: Settings, c: Call)
    ensures Next(db, s, c).memories == MemoriesOf(db, c)
  {
    hide Next, MemoriesOf;
    if c.Approve? || c.Reject? {
      DecisionAppliesMemory(db, s, c);
    } else {
      OtherAppliesMemory(db, s, c);
    }
  }

  lemma StepKeepsMemoryTable(db: Db, s: Settings, c: Call)
    requires IdsUsed(db) && MemoryTable.UniqueKeys(db.memories)
    ensures MemoryTable.UniqueKeys(Next(db, s, c).memories)
    ensures forall i | i in db.memories :: MemoryTable.Frozen(db.memories, Next(db, s, c).memories, i)
  {
    StepAppliesMemory(db, s, c);
    hide Next, MemoryTable.Serve;
    if Records(db, c) {
      MemoryTable.AddKeepsUniqueKeys(
        db.memories, db.nextId, Approvals.DecisionMemory(c.approval, db.approvals[c.approval], c.text));
    } else if c.UseMemory? {
      MemoryTable.CallKeepsTable(db.memories, db.customers.Keys, db.nextId, c.call, c.embeds);
    }
  }

  /** A step that inserts rows moves the id counter past them. */
  lemma InsertsAreCounted(db: Db, s: Settings, c: Call)
    ensures EffectOf(db, s, c).Insert? ==> Next(db, s, c).nextId > db.nextId
    ensures RulingOf(db, s, c).Asked? ==> Next(db, s, c).nextId > RulingOf(db, s, c).id
    ensures FilingOf(db, s, c).Filed? ==> Next(db, s, c).nextId > db.nextId
  {
    hide MemoryTable.Serve;
  }

  lemma MemoriesAreCounted(db: Db, s: Settings, c: Call)
    requires IdsUsed(db)
    ensures Next(db, s, c).memories.Keys <= db.memories.Keys + {db.nextId}
    ensures db.nextId in Next(db, s, c).memories ==> Next(db, s, c).nextId > db.nextId
  {
    StepAppliesMemory(db, s, c);
    RecordingIsCounted(db, s, c);
    hide Next, MemoryTable.Serve;
    if c.UseMemory? {
      MemoryTable.CallAddsAtMost(db.memories, db.customers.Keys, db.nextId, c.call, c.embeds);
    }
  }

  lemma RecordingIsCounted(db: Db, s: Settings, c: Call)
    ensures Records(db, c) ==> Next(db, s, c).nextId > db.nextId
    ensures c.UseMemory? && c.call.AddCall? ==>
      var served := MemoryTable.Serve(db.memories, db.customers.Keys, db.nextId, c.call, c.embeds);
      served.failure.None? ==> Next(db, s, c).nextId > db.nextId
  {
    hide MemoryTable.Serve, Approvals.WorkDone, Approvals.ApprovedRow, Approvals.DecisionEvents,
        Approvals.MemoriesAfter;
  }

  lemma StepKeepsIds(db: Db, s: Settings, c: Call)
    requires IdsUsed(db)
    ensures IdsUsed(Next(db, s, c))
  {
    hide Next, EffectOf, RulingOf, FilingOf, Approvals.Overdue;
    InsertsAreCounted(db, s, c);
    StepAppliesEffect(db, s, c);
    StepAppliesRuling(db, s, c);
    StepAppliesFiling(db, s, c);
    MemoriesAreCounted(db, s, c);
    StepFrame(db, s, c);
  }
}
