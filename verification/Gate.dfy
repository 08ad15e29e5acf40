/** Nothing large changes without approval, over every run. */
module Gate {
  import opened Prelude
  import opened Schema
  import opened Booking
  import opened System
  import Lifecycle

  /** The call carries out an approved action on the reservation: the approval was pending and names it. */
  predicate ApprovedActionOn(db: Db, s: Settings, c: Call, id: Id) {
    && Executes(db, s, c, ReservationDomain)
    && !db.approvals[c.approval].parameters.ApprovePurchase?
    && db.approvals[c.approval].parameters.reservation == id
  }

  /** A reservation that is large before or after a step changes only by executing an approved action on it,
      and then becomes exactly the row that action prescribes. */
  lemma LargePartiesChangeOnlyByApproval(db: Db, s: Settings, c: Call, id: Id)
    requires IdsUsed(db) && id in db.reservations
    ensures id in Next(db, s, c).reservations
    ensures var r, r' := db.reservations[id], Next(db, s, c).reservations[id];
      r' != r && (HighImpactParty(s, r.party) || HighImpactParty(s, r'.party)) ==>
        && ApprovedActionOn(db, s, c, id)
        && RowAfter(db.tables, db.reservations, db.approvals[c.approval].parameters) == Ok(r')
  {
    StepAppliesEffect(db, s, c);
  }

  /** Every change in a run to a reservation that is large before it or after it leaves an approved approval that names
      the reservation. */
  lemma {:induction false} LargeChangesAreApproved(db: Db, s: Settings, calls: seq<Call>, id: Id) returns (i: nat)
    requires IdsUsed(db) && id in db.reservations
    requires var rs := Run(db, s, calls).reservations;
      id in rs ==> rs[id] != db.reservations[id]
                   && (HighImpactParty(s, db.reservations[id].party) || HighImpactParty(s, rs[id].party))
    ensures i < |calls| && ApprovedActionOn(Run(db, s, calls[..i]), s, calls[i], id)
    ensures calls[i].approval in Run(db, s, calls).approvals
    ensures Run(db, s, calls).approvals[calls[i].approval].status == Approved
    decreases |calls|
  {
    RunKeepsReservations(db, s, calls, id);
    var c, db' := calls[0], Next(db, s, calls[0]);
    LargePartiesChangeOnlyByApproval(db, s, c, id);
    StepKeepsIds(db, s, c);
    if ApprovedActionOn(db, s, c, id) {
      i := 0;
      Lifecycle.ExecutionDecides(db, s, c, c.approval);
      Lifecycle.DecisionsAreTerminal(db', s, calls[1..], c.approval);
    } else {
      hide Next, ApprovedActionOn;
      var j := LargeChangesAreApproved(db', s, calls[1..], id);
      i := j + 1;
      assert calls[..i][1..] == calls[1..][..j];
    }
  }

  lemma {:induction false} RunKeepsReservations(db: Db, s: Settings, calls: seq<Call>, id: Id)
    requires IdsUsed(db) && id in db.reservations
    ensures id in Run(db, s, calls).reservations
    decreases |calls|
  {
    if calls != [] {
      LargePartiesChangeOnlyByApproval(db, s, calls[0], id);
      StepKeepsIds(db, s, calls[0]);
      hide Next;
      RunKeepsReservations(Next(db, s, calls[0]), s, calls[1..], id);
    }
  }

  /** Whatever the agents' model says: a run in which nobody approves anything, whatever tool calls, rejections and
      sweeps it contains, leaves every large reservation as it was. */
  lemma {:induction false} NoApprovalNoLargeChange(db: Db, s: Settings, calls: seq<Call>, id: Id)
    requires IdsUsed(db) && id in db.reservations && HighImpactParty(s, db.reservations[id].party)
    requires forall c | c in calls :: !c.Approve?
    ensures IdsUsed(Run(db, s, calls))
    ensures id in Run(db, s, calls).reservations && Run(db, s, calls).reservations[id] == db.reservations[id]
    decreases |calls|
  {
    if calls != [] {
      assert !calls[0].Approve? by { assert calls[0] in calls; }
      assert forall c | c in calls[1..] :: c in calls;
      LargePartiesChangeOnlyByApproval(db, s, calls[0], id);
      StepKeepsIds(db, s, calls[0]);
      NoApprovalNoLargeChange(Next(db, s, calls[0]), s, calls[1..], id);
    }
  }

  /** Proposing a gated change or cancellation again opens a second approval for the same action. A repeated purchase
      proposal does not. */
  lemma RepeatedProposalsDuplicate(db: Db, s: Settings, c: Call)
    requires RulingOf(db, s, c).Asked? && (c.Modify? || c.Cancel?)
    ensures var row := RulingOf(db, s, c).row;
      && row.status == Pending && row.domain == ReservationDomain && row.parameters.reservation == c.reservation
      && Step(db, s, c).response == Ok(AwaitingApproval(db.nextId))
      && Next(db, s, c).nextId == db.nextId + 1
      && Next(db, s, c).approvals == db.approvals[db.nextId := row]
      && RulingOf(Next(db, s, c), s, c) == Asked(db.nextId + 1, row)
  {
    hide RowAfter, Announcement;
  }
}
