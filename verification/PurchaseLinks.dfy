/** Purchase requests: one open request per item, one approval per gated request, and the cost gate, over every run. */
module PurchaseLinks {
  import opened Prelude
  import opened Schema
  import opened Purchasing
  import opened System
  import Lifecycle
  import DoubleBooking
  import Approvals
  import MemoryTable

  /** A request with an approval is the one that approval names, and is approved exactly when that approval's
      execution succeeded. */
  ghost predicate RequestsLinked(db: Db) {
    forall p | p in db.purchases && db.purchases[p].approval.Some? ::
      var a := db.purchases[p].approval.value;
      && a in db.approvals && db.approvals[a].domain == PurchaseDomain
      && db.approvals[a].parameters == ApprovePurchase(p)
      && db.purchases[p].status in {PendingApproval, PurchaseApproved}
      && (db.purchases[p].status == PurchaseApproved <==> db.approvals[a].execution == Some(Succeeded))
  }

  /** Conversely every purchase approval names a request that points back at it. */
  ghost predicate ApprovalsLinked(db: Db) {
    forall a | a in db.approvals && db.approvals[a].domain == PurchaseDomain ::
      var p := db.approvals[a].parameters;
      p.ApprovePurchase? && p.purchase in db.purchases && db.purchases[p.purchase].approval == Some(a)
  }

  /** A request without an approval was filed approved. */
  ghost predicate UngatedAreFiled(db: Db) {
    forall p | p in db.purchases && db.purchases[p].approval.None? :: db.purchases[p].status == PurchaseApproved
  }

  ghost predicate OneOpenRequest(db: Db) {
    forall p, q | p in db.purchases && q in db.purchases
        && Open(db.purchases[p]) && Open(db.purchases[q]) && db.purchases[p].item == db.purchases[q].item :: p == q
  }

  ghost predicate Linked(db: Db) {
    RequestsLinked(db) && ApprovalsLinked(db) && UngatedAreFiled(db) && OneOpenRequest(db)
  }

  lemma OpenRequestIsFound(db: Db, item: Id)
    ensures OpenRequest(db.purchases, item).None? <==> forall p | p in db.purchases :: !OpenFor(db.purchases, p, item)
    ensures OpenRequest(db.purchases, item).Some? ==> OpenFor(db.purchases, OpenRequest(db.purchases, item).value, item)
  {
    var open := set id | id in db.purchases && OpenFor(db.purchases, id, item);
    forall p | p in db.purchases && OpenFor(db.purchases, p, item) ensures open != {} {
      assert p in open;
    }
  }

  /** Executing a purchase approval records a success exactly when it marks the request the approval names. */
  lemma ExecutionMatchesFiling(db: Db, s: Settings, c: Call) returns (row: Approval)
    requires Executes(db, s, c, PurchaseDomain) && db.approvals[c.approval].parameters.ApprovePurchase?
    ensures Next(db, s, c).approvals == db.approvals[c.approval := row]
    ensures row.domain == PurchaseDomain && row.parameters == db.approvals[c.approval].parameters
    ensures FilingOf(db, s, c) ==
      if row.execution == Some(Succeeded) then Bought(row.parameters.purchase) else NoFiling
    ensures db.approvals[c.approval].status == Pending
    ensures FiledAs(db, FilingOf(db, s, c), Next(db, s, c).purchases)
  {
    StepAppliesFiling(db, s, c);
    row := RulingOf(db, s, c).row;
    StepAppliesRuling(db, s, c);
    hide Next;
  }

  lemma ExecutionKeepsPointers(db: Db, s: Settings, c: Call)
    requires Valid(db) && Linked(db)
    requires Executes(db, s, c, PurchaseDomain)
    ensures var db' := Next(db, s, c); RequestsLinked(db') && ApprovalsLinked(db')
  {
    hide Next, FilingOf, RulingOf, UngatedAreFiled, OneOpenRequest, IdsUsed, RowsAccepted, PartiesFit;
    hide MemoryTable.UniqueKeys, Approvals.HasExecutor;
    var row := ExecutionMatchesFiling(db, s, c);
    assert db.approvals[c.approval].execution.None?;
    hide DecisionsConsistent, Consistent, Executes;
  }

  /** Marking an open request that has an approval as approved opens no other and leaves the ungated ones alone. */
  lemma MarkingKeepsOneOpen(db: Db, db': Db, p: Id)
    requires UngatedAreFiled(db) && OneOpenRequest(db)
    requires p in db.purchases && db.purchases[p].approval.Some? && Open(db.purchases[p])
    requires db'.purchases in {db.purchases, db.purchases[p := db.purchases[p].(status := PurchaseApproved)]}
    ensures UngatedAreFiled(db') && OneOpenRequest(db')
  {
  }

  lemma ExecutionKeepsLinks(db: Db, s: Settings, c: Call)
    requires Valid(db) && Linked(db)
    requires Executes(db, s, c, PurchaseDomain)
    ensures Linked(Next(db, s, c))
  {
    ExecutionKeepsPointers(db, s, c);
    var row := ExecutionMatchesFiling(db, s, c);
    var p := row.parameters.purchase;
    assert db.purchases[p].approval == Some(c.approval) && Open(db.purchases[p]);
    hide Next, FilingOf, RulingOf, RequestsLinked, ApprovalsLinked, UngatedAreFiled, OneOpenRequest, Valid, Executes;
    MarkingKeepsOneOpen(db, Next(db, s, c), p);
  }

  /** The purchase approvals are the same rows but for their decision, and none is executed. */
  ghost predicate SamePurchaseApprovals(approvals: map<Id, Approval>, approvals': map<Id, Approval>) {
    && (forall a | a in approvals && approvals[a].domain == PurchaseDomain ::
          && a in approvals' && approvals'[a].domain == PurchaseDomain
          && approvals'[a].parameters == approvals[a].parameters && approvals'[a].execution == approvals[a].execution)
    && (forall a | a in approvals' && approvals'[a].domain == PurchaseDomain ::
          a in approvals && approvals[a].domain == PurchaseDomain)
  }

  lemma OtherRulings(db: Db, s: Settings, c: Call)
    requires DecisionsConsistent(db)
    requires FilingOf(db, s, c).NoFiling? && !Executes(db, s, c, PurchaseDomain)
    ensures RulingOf(db, s, c).Asked? ==> RulingOf(db, s, c).row.domain != PurchaseDomain
    ensures RulingOf(db, s, c).Decided? ==>
      var id, row := RulingOf(db, s, c).id, RulingOf(db, s, c).row;
      && id in db.approvals && row.domain == db.approvals[id].domain && row.parameters == db.approvals[id].parameters
      && (row.domain == PurchaseDomain ==> row.execution == db.approvals[id].execution)
  {
    hide Approvals.Gate, OpenRequest, PurchaseAccepted, PurchaseAfter, Approvals.ActionWork;
  }

  lemma OtherCallsKeepApprovals(db: Db, s: Settings, c: Call)
    requires IdsUsed(db) && DecisionsConsistent(db)
    requires FilingOf(db, s, c).NoFiling? && !Executes(db, s, c, PurchaseDomain)
    ensures SamePurchaseApprovals(db.approvals, Next(db, s, c).approvals)
  {
    hide Next, RulingOf, FilingOf, Executes, DecisionsConsistent, Approvals.Overdue;
    StepAppliesRuling(db, s, c);
    OtherRulings(db, s, c);
  }

  lemma OtherCallsKeepLinks(db: Db, s: Settings, c: Call)
    requires Valid(db) && Linked(db)
    requires FilingOf(db, s, c).NoFiling? && !Executes(db, s, c, PurchaseDomain)
    ensures Linked(Next(db, s, c))
  {
    hide Next, FilingOf, RulingOf;
    OtherCallsKeepApprovals(db, s, c);
    StepAppliesFiling(db, s, c);
  }

  lemma RequestKeepsPointers(db: Db, s: Settings, c: Call)
    requires Valid(db) && Linked(db)
    requires FilingOf(db, s, c).Filed?
    ensures var db' := Next(db, s, c); RequestsLinked(db') && ApprovalsLinked(db') && UngatedAreFiled(db')
  {
    hide Next, OpenRequest, RowsAccepted, PartiesFit, DecisionsConsistent, MemoryTable.UniqueKeys, OneOpenRequest;
    StepAppliesRuling(db, s, c);
    StepAppliesFiling(db, s, c);
  }

  lemma RequestKeepsOneOpen(db: Db, s: Settings, c: Call)
    requires Valid(db) && Linked(db)
    requires FilingOf(db, s, c).Filed?
    ensures OneOpenRequest(Next(db, s, c))
  {
    hide Next, OpenRequest;
    StepAppliesFiling(db, s, c);
    OpenRequestIsFound(db, c.proposal.item);
  }

  lemma StepKeepsLinks(db: Db, s: Settings, c: Call)
    requires Valid(db) && Linked(db)
    ensures Linked(Next(db, s, c))
  {
    if FilingOf(db, s, c).Filed? {
      RequestKeepsPointers(db, s, c);
      RequestKeepsOneOpen(db, s, c);
    } else if Executes(db, s, c, PurchaseDomain) {
      ExecutionKeepsLinks(db, s, c);
    } else {
      OtherCallsKeepLinks(db, s, c);
    }
  }

  lemma {:induction false} RunKeepsLinks(db: Db, s: Settings, calls: seq<Call>)
    requires Valid(db) && Linked(db)
    ensures Valid(Run(db, s, calls)) && Linked(Run(db, s, calls))
    decreases |calls|
  {
    if calls != [] {
      DoubleBooking.StepKeepsValid(db, s, calls[0]);
      StepKeepsLinks(db, s, calls[0]);
      RunKeepsLinks(Next(db, s, calls[0]), s, calls[1..]);
    }
  }

  // ---- the cost gate ----

  /** A request whose stored cost meets the threshold is approved only under an approved approval that names it. */
  ghost predicate CostGate(db: Db, s: Settings) {
    forall p |
        p in db.purchases && HighImpactCost(s, db.purchases[p].cost) && db.purchases[p].status == PurchaseApproved ::
      && db.purchases[p].approval.Some? && db.purchases[p].approval.value in db.approvals
      && var a := db.approvals[db.purchases[p].approval.value];
         a.status == Approved && a.parameters == ApprovePurchase(p)
  }

  /** The call files at once a cost below the threshold which the column rounds up to it. */
  predicate SlipsThrough(db: Db, s: Settings, c: Call) {
    && c.Purchase? && OpensRequest(db, s, c.proposal, c.ctx)
    && !HighImpactCost(s, c.proposal.cost) && HighImpactCost(s, Cents(c.proposal.cost))
  }

  ghost predicate UngatedAreSmall(ps: map<Id, Schema.Purchase>, s: Settings) {
    forall p | p in ps && ps[p].approval.None? :: !HighImpactCost(s, ps[p].cost)
  }

  /** Under the link invariant the gate fails only for requests without an approval. */
  lemma GateIsAboutUngated(db: Db, s: Settings)
    requires Valid(db) && Linked(db)
    ensures CostGate(db, s) <==> UngatedAreSmall(db.purchases, s)
  {
    hide OneOpenRequest, ApprovalsLinked, HighImpactCost;
    forall p | p in db.purchases && db.purchases[p].approval.Some? && db.purchases[p].status == PurchaseApproved
      ensures db.approvals[db.purchases[p].approval.value].status == Approved
    {
      assert Consistent(db.approvals[db.purchases[p].approval.value]);
    }
  }

  /** The filing adds a request without an approval whose stored cost meets the threshold. */
  predicate FilesLarge(f: Filing, s: Settings) {
    f.Filed? && f.row.approval.None? && HighImpactCost(s, f.row.cost)
  }

  lemma SlippingFilesLarge(db: Db, s: Settings, c: Call)
    ensures SlipsThrough(db, s, c) <==> FilesLarge(FilingOf(db, s, c), s)
  {
    hide Cents, Thousandths, OpensRequest, PurchaseAfter;
  }

  lemma FilingKeepsSmall(db: Db, s: Settings, f: Filing, ps: map<Id, Schema.Purchase>)
    requires FiledAs(db, f, ps) && db.nextId !in db.purchases && UngatedAreSmall(db.purchases, s)
    ensures UngatedAreSmall(ps, s) <==> !FilesLarge(f, s)
  {
    hide HighImpactCost;
    if FilesLarge(f, s) {
      assert db.nextId in ps;
    }
  }

  lemma StepKeepsCostGate(db: Db, s: Settings, c: Call)
    requires Valid(db) && Linked(db) && CostGate(db, s)
    ensures CostGate(Next(db, s, c), s) <==> !SlipsThrough(db, s, c)
  {
    assert db.nextId !in db.purchases;
    hide Next, CostGate, Linked, Valid, SlipsThrough, FilesLarge, FilingOf, UngatedAreSmall, FiledAs;
    GateIsAboutUngated(db, s);
    StepKeepsLinks(db, s, c);
    DoubleBooking.StepKeepsValid(db, s, c);
    GateIsAboutUngated(Next(db, s, c), s);
    StepAppliesFiling(db, s, c);
    SlippingFilesLarge(db, s, c);
    FilingKeepsSmall(db, s, FilingOf(db, s, c), Next(db, s, c).purchases);
  }

  ghost predicate AlwaysGated(db: Db, s: Settings, calls: seq<Call>)
    decreases |calls|
  {
    CostGate(db, s) && (calls == [] || AlwaysGated(Next(db, s, calls[0]), s, calls[1..]))
  }

  predicate NoneSlipsThrough(db: Db, s: Settings, calls: seq<Call>)
    decreases |calls|
  {
    calls == [] || (!SlipsThrough(db, s, calls[0]) && NoneSlipsThrough(Next(db, s, calls[0]), s, calls[1..]))
  }

  /** In every state of a run each request whose stored cost meets the threshold is approved only under an approved
      approval if and only if no step files at once a cost below the threshold which rounds up to it. */
  lemma {:induction false} CostGateIsExact(db: Db, s: Settings, calls: seq<Call>)
    requires Valid(db) && Linked(db) && CostGate(db, s)
    ensures AlwaysGated(db, s, calls) <==> NoneSlipsThrough(db, s, calls)
    decreases |calls|
  {
    if calls != [] {
      StepKeepsCostGate(db, s, calls[0]);
      StepKeepsLinks(db, s, calls[0]);
      DoubleBooking.StepKeepsValid(db, s, calls[0]);
      hide Next, SlipsThrough, CostGate, Linked, Valid;
      if !SlipsThrough(db, s, calls[0]) {
        CostGateIsExact(Next(db, s, calls[0]), s, calls[1..]);
      }
    }
  }

  /** Which costs slip through, for a threshold in whole cents: those less than half a cent below it. */
  lemma SlippingCosts(s: Settings, cost: real, cents: nat)
    requires s.highImpactCost == cents as real / 100.0 && cents > 0
    ensures !HighImpactCost(s, Some(cost)) && HighImpactCost(s, Cents(Some(cost)))
            <==> s.highImpactCost - 0.005 <= cost < s.highImpactCost
  {
    NearestReaches(cost * 100.0, cents);
    hide Nearest;
    var stored := Nearest(cost * 100.0);
    assert stored as real / 100.0 >= cents as real / 100.0 <==> stored >= cents;
  }

  lemma NearestReaches(x: real, n: nat)
    requires n > 0
    ensures Nearest(x) >= n <==> x >= n as real - 0.5
  {
  }

  const STOCK := Db(map[], map[], map[7 := Item(1)], map[], map[], map[], map[], [], 10)
  const ALMOST := Call.Purchase(PurchaseProposal(1, 7, 1.0, Some(199.995)), DoubleBooking.AGENT)

  /** A cost of 199.995 is below the threshold of 200, is filed approved without an approval, and is stored as 200.00.
      */
  lemma RoundingBreaksTheGate()
    ensures Fresh(STOCK) && SlipsThrough(STOCK, DoubleBooking.DEFAULTS, ALMOST)
    ensures var ps := Next(STOCK, DoubleBooking.DEFAULTS, ALMOST).purchases;
      10 in ps && ps[10].cost == Some(200.0) && ps[10].status == PurchaseApproved && ps[10].approval.None?
  {
    assert Cents(Some(199.995)) == Some(200.0);
    assert Thousandths(1.0) == 1.0;
    hide Cents, Thousandths;
    OpenRequestIsFound(STOCK, 7);
  }

  /** Of the proposed cost the gate holds without any proviso: a request opened by a proposal that meets the threshold
      is, whatever follows, approved only under an approved approval that names it. */
  lemma ProposedCostGateHolds(db: Db, s: Settings, c: Call, later: seq<Call>)
    requires Valid(db) && Linked(db)
    requires c.Purchase? && OpensRequest(db, s, c.proposal, c.ctx) && HighImpactCost(s, c.proposal.cost)
    ensures var p, db' := db.nextId, Run(Next(db, s, c), s, later);
      && p in db'.purchases && db'.purchases[p].approval == Some(p + 1) && p + 1 in db'.approvals
      && db'.approvals[p + 1].parameters == ApprovePurchase(p)
      && (db'.purchases[p].status == PurchaseApproved ==> db'.approvals[p + 1].status == Approved)
  {
    hide Next, Run, Valid, Linked, OpensRequest, HighImpactCost;
    StepKeepsLinks(db, s, c);
    DoubleBooking.StepKeepsValid(db, s, c);
    GatedProposalOpens(db, s, c);
    ValidIdsAreUsed(Next(db, s, c));
    RunKeepsLinks(Next(db, s, c), s, later);
    RunKeepsOpen(Next(db, s, c), s, later, db.nextId);
    GatedRequest(Run(Next(db, s, c), s, later), db.nextId);
  }

  lemma ValidIdsAreUsed(db: Db)
    requires Valid(db)
    ensures IdsUsed(db)
  {
  }

  lemma GatedProposalOpens(db: Db, s: Settings, c: Call)
    requires c.Purchase? && OpensRequest(db, s, c.proposal, c.ctx) && HighImpactCost(s, c.proposal.cost)
    ensures var ps := Next(db, s, c).purchases;
      db.nextId in ps && Open(ps[db.nextId]) && ps[db.nextId].approval == Some(db.nextId + 1)
  {
    StepAppliesFiling(db, s, c);
    hide Next, Cents, Thousandths, OpensRequest;
  }

  lemma GatedRequest(db: Db, p: Id)
    requires Valid(db) && Linked(db) && p in db.purchases && db.purchases[p].approval.Some?
    ensures var a := db.purchases[p].approval.value;
      && a in db.approvals && db.approvals[a].parameters == ApprovePurchase(p)
      && (db.purchases[p].status == PurchaseApproved ==> db.approvals[a].status == Approved)
  {
    assert Consistent(db.approvals[db.purchases[p].approval.value]);
  }

  /** Started empty, no run ever opens two requests for an item. */
  lemma OneOpenRequestAlways(db: Db, s: Settings, calls: seq<Call>)
    requires Fresh(db)
    ensures OneOpenRequest(Run(db, s, calls))
  {
    RunKeepsLinks(db, s, calls);
  }

  /** The call executes exactly this approval, and marks the request it names. */
  predicate ExecutesPurchase(db: Db, s: Settings, c: Call, approval: Id) {
    Completes(db, s, c, PurchaseDomain) && c.approval == approval
  }

  lemma PendingRequestChangesOnlyByApproval(db: Db, s: Settings, c: Call, p: Id)
    requires Valid(db) && Linked(db) && p in db.purchases && db.purchases[p].status == PendingApproval
    ensures p in Next(db, s, c).purchases && db.purchases[p].approval.Some?
    ensures Next(db, s, c).purchases[p] != db.purchases[p] ==>
      ExecutesPurchase(db, s, c, db.purchases[p].approval.value)
  {
    StepAppliesFiling(db, s, c);
    hide Next, OpenRequest, Cents, Thousandths, RowsAccepted, PartiesFit;
  }

  /** If a pending request is no longer as it was after a run, some call of the run executed its approval. */
  lemma {:induction false} PurchasesAreApproved(db: Db, s: Settings, calls: seq<Call>, p: Id) returns (i: nat)
    requires Valid(db) && Linked(db) && p in db.purchases && db.purchases[p].status == PendingApproval
    requires p in Run(db, s, calls).purchases ==> Run(db, s, calls).purchases[p] != db.purchases[p]
    ensures i < |calls| && db.purchases[p].approval.Some?
    ensures ExecutesPurchase(Run(db, s, calls[..i]), s, calls[i], db.purchases[p].approval.value)
    decreases |calls|
  {
    hide Next, ExecutesPurchase, Valid, Linked;
    PendingRequestChangesOnlyByApproval(db, s, calls[0], p);
    StepKeepsLinks(db, s, calls[0]);
    DoubleBooking.StepKeepsValid(db, s, calls[0]);
    var db' := Next(db, s, calls[0]);
    if db'.purchases[p] != db.purchases[p] {
      i := 0;
    } else {
      var j := PurchasesAreApproved(db', s, calls[1..], p);
      i := j + 1;
      assert calls[..i][1..] == calls[1..][..j];
    }
  }

  /** Purchase approvals and the requests their parameters name correspond one to one. */
  lemma ApprovalsMatchRequests(db: Db, s: Settings, calls: seq<Call>, a: Id, b: Id)
    requires Fresh(db)
    ensures var db' := Run(db, s, calls);
      a in db'.approvals && b in db'.approvals
      && db'.approvals[a].domain == db'.approvals[b].domain == PurchaseDomain ==>
        && db'.approvals[a].parameters.ApprovePurchase? && db'.approvals[b].parameters.ApprovePurchase?
        && db'.approvals[a].parameters.purchase in db'.purchases
        && db'.purchases[db'.approvals[a].parameters.purchase].approval == Some(a)
        && (a == b <==> db'.approvals[a].parameters.purchase == db'.approvals[b].parameters.purchase)
  {
    RunKeepsLinks(db, s, calls);
  }

  // ---- repeated proposals ----

  /** An open request stays open, for the same item and under the same approval. */
  predicate StillOpen(db: Db, db': Db, p: Id)
    requires p in db.purchases
  {
    p in db'.purchases && Open(db'.purchases[p]) && db'.purchases[p].item == db.purchases[p].item
    && db'.purchases[p].approval == db.purchases[p].approval
  }

  lemma StepKeepsOpen(db: Db, s: Settings, c: Call, p: Id)
    requires IdsUsed(db) && p in db.purchases && Open(db.purchases[p])
    ensures StillOpen(db, Next(db, s, c), p)
  {
    hide Next;
    StepAppliesFiling(db, s, c);
  }

  lemma {:induction false} RunKeepsOpen(db: Db, s: Settings, calls: seq<Call>, p: Id)
    requires IdsUsed(db) && p in db.purchases && Open(db.purchases[p])
    ensures StillOpen(db, Run(db, s, calls), p)
    decreases |calls|
  {
    if calls != [] {
      StepKeepsOpen(db, s, calls[0], p);
      StepKeepsIds(db, s, calls[0]);
      RunKeepsOpen(Next(db, s, calls[0]), s, calls[1..], p);
    }
  }

  /** What a proposal answers while request `p` is open. */
  function Repeated(db: Db, p: Id): Response
    requires p in db.purchases
  {
    if db.purchases[p].status == PendingApproval && db.purchases[p].approval.Some?
    then AwaitingApproval(db.purchases[p].approval.value) else PurchaseFiled(p)
  }

  /** Once an item has an open request, a further proposal for it at any later point of any run, whatever its quantity
      and cost, changes nothing and returns that same request or its approval. */
  lemma RepeatChangesNothing(db: Db, s: Settings, calls: seq<Call>, p: Id, q: PurchaseProposal, ctx: Context)
    requires Valid(db) && Linked(db) && p in db.purchases && Open(db.purchases[p])
    requires q.item == db.purchases[p].item
    requires var db' := Run(db, s, calls); q.item in db'.items && db'.items[q.item].restaurant == q.restaurant
    ensures p in Run(db, s, calls).purchases
    ensures ProposePurchase(Run(db, s, calls), s, q, ctx)
        == Outcome(Run(db, s, calls), Ok(Repeated(Run(db, s, calls), p)))
  {
    RunKeepsLinks(db, s, calls);
    RunKeepsOpen(db, s, calls, p);
    OpenRequestIsFound(Run(db, s, calls), q.item);
  }

  lemma DeadRequestIsPending(db: Db, s: Settings, p: Id)
    requires Valid(db) && Linked(db) && p in db.purchases && db.purchases[p].approval.Some?
    requires db.approvals[db.purchases[p].approval.value].status in {Rejected, Expired}
    ensures db.purchases[p].status == PendingApproval
  {
    assert Consistent(db.approvals[db.purchases[p].approval.value]);
  }

  /** Rejecting or letting expire the approval of a purchase does not close its request: in every later state the
      item's proposals are answered with that dead approval. */
  lemma DeadApprovalBlocksItem(db: Db, s: Settings, calls: seq<Call>, p: Id, q: PurchaseProposal, ctx: Context)
    requires Valid(db) && Linked(db) && p in db.purchases && db.purchases[p].approval.Some?
    requires db.approvals[db.purchases[p].approval.value].status in {Rejected, Expired}
    requires q.item == db.purchases[p].item
    requires var db' := Run(db, s, calls); q.item in db'.items && db'.items[q.item].restaurant == q.restaurant
    ensures ProposePurchase(Run(db, s, calls), s, q, ctx)
            == Outcome(Run(db, s, calls), Ok(AwaitingApproval(db.purchases[p].approval.value)))
  {
    hide ProposePurchase, Run;
    DeadRequestIsPending(db, s, p);
    RunKeepsLinks(db, s, calls);
    RunKeepsOpen(db, s, calls, p);
    RepeatChangesNothing(db, s, calls, p, q, ctx);
    Lifecycle.DecisionsAreTerminal(db, s, calls, db.purchases[p].approval.value);
    DeadRequestIsPending(Run(db, s, calls), s, p);
  }
}
