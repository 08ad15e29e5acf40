/** Approvals are decided once and executed at most once, and failures are contained, over every run. */
module Lifecycle {
  import opened Prelude
  import opened Schema
  import opened System
  import Approvals

  /** What was proposed never changes; only a pending row changes at all, and it becomes decided or expired. */
  predicate Progresses(before: Approval, after: Approval) {
    || after == before
    || (before.status == Pending && after.status != Pending
        && after.parameters == before.parameters && after.domain == before.domain
        && after.restaurant == before.restaurant
        && after.agentRun == before.agentRun && after.risk == before.risk && after.expiresAt == before.expiresAt)
  }

  lemma StepProgresses(db: Db, s: Settings, c: Call, id: Id)
    requires IdsUsed(db) && id in db.approvals
    ensures id in Next(db, s, c).approvals && Progresses(db.approvals[id], Next(db, s, c).approvals[id])
  {
    StepAppliesRuling(db, s, c);
  }

  /** A decision is terminal: once approved, rejected or expired, no run changes the row again. */
  lemma {:induction false} DecisionsAreTerminal(db: Db, s: Settings, calls: seq<Call>, id: Id)
    requires IdsUsed(db) && id in db.approvals
    ensures id in Run(db, s, calls).approvals && Progresses(db.approvals[id], Run(db, s, calls).approvals[id])
    decreases |calls|
  {
    if calls != [] {
      StepProgresses(db, s, calls[0], id);
      StepKeepsIds(db, s, calls[0]);
      DecisionsAreTerminal(Next(db, s, calls[0]), s, calls[1..], id);
    }
  }

  /** The call runs the executor of this approval. */
  predicate ExecutesApproval(db: Db, s: Settings, c: Call, id: Id) {
    (Executes(db, s, c, ReservationDomain) || Executes(db, s, c, PurchaseDomain)) && c.approval == id
  }

  function Executions(db: Db, s: Settings, calls: seq<Call>, id: Id): nat
    decreases |calls|
  {
    if calls == [] then 0
    else (if ExecutesApproval(db, s, calls[0], id) then 1 else 0) + Executions(Next(db, s, calls[0]), s, calls[1..], id)
  }

  lemma ExecutionDecides(db: Db, s: Settings, c: Call, id: Id)
    requires IdsUsed(db) && id in db.approvals && ExecutesApproval(db, s, c, id)
    ensures var a := Next(db, s, c).approvals; id in a && a[id].status == Approved && a[id].execution.Some?
  {
    StepAppliesRuling(db, s, c);
  }

  lemma OnlyExecutionRecordsResult(db: Db, s: Settings, c: Call, id: Id)
    requires IdsUsed(db) && id in db.approvals && db.approvals[id].execution.None? && !ExecutesApproval(db, s, c, id)
    ensures id in Next(db, s, c).approvals && Next(db, s, c).approvals[id].execution.None?
  {
    StepAppliesRuling(db, s, c);
  }

  /** In any run an approval's executor is called at most once, and never for a decided approval; a result is recorded
      exactly when it was called. */
  lemma {:induction false} ExecutesAtMostOnce(db: Db, s: Settings, calls: seq<Call>, id: Id)
    requires IdsUsed(db) && id in db.approvals
    ensures Executions(db, s, calls, id) <= if db.approvals[id].status == Pending then 1 else 0
    ensures id in Run(db, s, calls).approvals
    ensures db.approvals[id].execution.None? ==>
      (Executions(db, s, calls, id) == 1 <==> Run(db, s, calls).approvals[id].execution.Some?)
    decreases |calls|
  {
    if calls != [] {
      var c, db' := calls[0], Next(db, s, calls[0]);
      StepProgresses(db, s, c, id);
      StepKeepsIds(db, s, c);
      ExecutesAtMostOnce(db', s, calls[1..], id);
      if ExecutesApproval(db, s, c, id) {
        ExecutionDecides(db, s, c, id);
        DecisionsAreTerminal(db', s, calls[1..], id);
      } else if db.approvals[id].execution.None? {
        OnlyExecutionRecordsResult(db, s, c, id);
      }
    }
  }

  /** After the sweep no overdue pending approval of the restaurant remains, those that were are reported and expired,
      and every other row is as before. */
  lemma SweepIsExact(db: Db, restaurant: Id, now: int)
    ensures var o := Approvals.Expire(db, restaurant, now);
      && o.db == db.(approvals := o.db.approvals) && o.db.approvals.Keys == db.approvals.Keys
      && (forall id | id in db.approvals :: !Approvals.Overdue(o.db.approvals[id], restaurant, now))
      && o.response.value.approvals == (set id | id in db.approvals && o.db.approvals[id] != db.approvals[id])
      && (forall id | id in o.response.value.approvals ::
            && Approvals.Overdue(db.approvals[id], restaurant, now)
            && o.db.approvals[id] == db.approvals[id].(status := Expired))
  {
  }

  // ---- expiry ----

  /** No approval has an expiry date, and none has expired. */
  ghost predicate NothingExpires(db: Db) {
    forall id | id in db.approvals :: db.approvals[id].expiresAt.None? && db.approvals[id].status != Expired
  }

  lemma StepExpiresNothing(db: Db, s: Settings, c: Call)
    requires NothingExpires(db)
    ensures NothingExpires(Next(db, s, c))
  {
    StepAppliesRuling(db, s, c);
    hide Next;
  }

  /** As no proposal sets an expiry date, a database without one stays so over every run: no sweep ever expires
      anything. */
  lemma {:induction false} RunExpiresNothing(db: Db, s: Settings, calls: seq<Call>)
    requires NothingExpires(db)
    ensures NothingExpires(Run(db, s, calls))
    decreases |calls|
  {
    if calls != [] {
      StepExpiresNothing(db, s, calls[0]);
      hide Next;
      RunExpiresNothing(Next(db, s, calls[0]), s, calls[1..]);
    }
  }
}
