/**
 The services in their own form: objects that read and write one shared database session. Each method is proved to
 take the session from one state to the state, and to return the response, that the functions of the other modules
 prescribe.
 */
module Services {
  import opened Prelude
  import opened Schema
  import opened Sessions
  import opened Memories
  import Booking
  import Purchasing
  import Approvals
  import MemoryTable

  /** `available` lists, in order, the tables seen so far that are free. */
  ghost predicate Offered(key: map<Id, real>, free: map<Id, real>, seen: seq<Id>, available: seq<Id>) {
    && (forall t | t in available :: t in key)
    && (forall t :: t in available <==> t in seen && t in free)
    && Ordered(key, available)
  }

  lemma NothingOffered(key: map<Id, real>, free: map<Id, real>)
    ensures Offered(key, free, [], [])
  {
  }

  lemma OfferGrows(key: map<Id, real>, free: map<Id, real>, candidates: seq<Id>, i: nat, available: seq<Id>)
    requires candidates == OrderBy(key) && i < |candidates| && Offered(key, free, candidates[..i], available)
    ensures Offered(key, free, candidates[..i + 1],
                    if candidates[i] in free then available + [candidates[i]] else available)
  {
    var table := candidates[i];
    assert candidates[..i + 1] == candidates[..i] + [table] && table in candidates;
    forall k | 0 <= k < |available| ensures Before(key, available[k], table) {
      assert available[k] in available;
      var j :| 0 <= j < i && candidates[j] == available[k];
    }
  }

  lemma OfferIsComplete(key: map<Id, real>, free: map<Id, real>, available: seq<Id>)
    requires Offered(key, free, OrderBy(key), available)
    requires forall t | t in free :: t in key && free[t] == key[t]
    ensures available == OrderBy(free)
  {
    OrderedIsUnique(key, available, OrderBy(free));
  }

  class ReservationRepository {
    const session: Session

    constructor (session: Session)
      ensures this.session == session
    {
      this.session := session;
    }

    /** Scans the table's active reservations and stops at the first that overlaps. */
    method TableHasConflict(table: Id, time: int, duration: int, exclude: Option<Id>) returns (found: bool)
      ensures found == Booking.TableHasConflict(session.reservations, table, time, duration, exclude)
    {
      var rows := session.reservations;
      var end := time + duration * Booking.MINUTE;
      var existing := set id |
          id in rows && Booking.Active(rows[id]) && rows[id].table == Some(table) && exclude != Some(id);
      while existing != {}
        invariant existing <= rows.Keys
        invariant forall id | id in existing ::
            exclude != Some(id) && Booking.Active(rows[id]) && rows[id].table == Some(table)
        invariant forall id | id in rows && exclude != Some(id) ::
            Booking.ConflictsWith(rows[id], table, time, duration) ==> id in existing
        decreases |existing|
      {
        var other :| other in existing;
        var otherEnd := rows[other].time + rows[other].duration * Booking.MINUTE;
        if rows[other].time < end && time < otherEnd {
          assert Booking.ConflictsWith(rows[other], table, time, duration);
          return true;
        }
        existing := existing - {other};
      }
      return false;
    }

    /** Keeps, of the suitable tables smallest first, those without a conflict. */
    method FindAvailableTables(restaurant: Id, party: int, time: int, duration: int) returns (available: seq<Id>)
      ensures available == Booking.AvailableTables(session.Snapshot(), restaurant, party, time, duration)
    {
      hide Booking.TableHasConflict, Booking.CandidateKeys, Offered;
      var key := Booking.CandidateKeys(session.tables, restaurant, party);
      ghost var free := map t | t in key && !Booking.TableHasConflict(session.reservations, t, time, duration, None) ::
          key[t];
      var candidates := OrderBy(key);
      available := [];
      NothingOffered(key, free);
      for i := 0 to |candidates|
        invariant Offered(key, free, candidates[..i], available)
      {
        var table := candidates[i];
        assert table in candidates;
        var taken := TableHasConflict(table, time, duration, None);
        OfferGrows(key, free, candidates, i, available);
        if !taken {
          available := available + [table];
        }
      }
      assert candidates[..|candidates|] == candidates;
      OfferIsComplete(key, free, available);
    }

    /** Sends the row to the database, which may refuse it. */
    method Save(id: Id, row: Reservation) returns (accepted: bool)
      modifies session`reservations
      ensures accepted == Booking.RowAccepted(row)
      ensures session.reservations == old(session.reservations)[id := row]
    {
      session.reservations := session.reservations[id := row];
      accepted := Booking.RowAccepted(row);
    }
  }

  class ReservationService {
    const session: Session
    const repo: ReservationRepository
    const settings: Settings
    var approvals: ApprovalService

    constructor (repo: ReservationRepository, approvals: ApprovalService, settings: Settings)
      requires approvals.session == repo.session
      ensures this.session == repo.session && this.settings == settings && this.approvals == approvals && Wired()
    {
      this.session, this.repo, this.settings, this.approvals := repo.session, repo, settings, approvals;
    }

    predicate Wired()
      reads this
    {
      repo.session == session && approvals.session == session
    }

    method CreateReservation(q: Booking.BookingRequest, now: int, ctx: Context) returns (r: Result<Response, Error>)
      requires Wired()
      modifies session
      ensures Outcome(session.Snapshot(), r) == Booking.Create(old(session.Snapshot()), settings, q, now, ctx)
    {
      var before := session.Snapshot();
      if q.customer !in session.customers || session.customers[q.customer].restaurant != q.restaurant {
        return Err(CustomerNotFound);
      }
      if q.time <= now {
        return Err(InvalidTime);
      }
      var duration := Booking.Duration(settings, q.duration);
      var chosen: Id;
      if q.table.Some? {
        var table := q.table.value;
        if table !in session.tables || session.tables[table].restaurant != q.restaurant
           || !session.tables[table].active
        {
          return Err(TableNotFound);
        }
        if session.tables[table].capacity < q.party {
          return Err(TableTooSmall);
        }
        var taken := repo.TableHasConflict(table, q.time, duration, None);
        if taken {
          return Err(TableConflict);
        }
        chosen := table;
      } else {
        var candidates := repo.FindAvailableTables(q.restaurant, q.party, q.time, duration);
        if candidates == [] {
          return Err(NoAvailability);
        }
        chosen := candidates[0];
      }
      var id := session.FreshId();
      var row := Reservation(
        q.restaurant, q.customer, Some(chosen), q.party, q.time, duration, Booked, q.notes, ctx.trigger);
      var accepted := repo.Save(id, row);
      if !accepted {
        session.Rollback(before);
        return Err(ConstraintViolation);
      }
      session.Publish(ReservationCreated, q.restaurant, id);
      r := Ok(ReservationBooked(id));
    }

    /** Checks the change against the table it ends on, then edits the row. */
    method ApplyModification(id: Id, c: Changes) returns (r: Result<Reservation, Error>)
      requires Wired() && id in session.reservations
      modifies session`reservations
      ensures r == Booking.ModifiedRow(session.tables, old(session.reservations), id, c)
      ensures session.reservations
           == if r.Ok? then old(session.reservations)[id := r.value] else old(session.reservations)
    {
      var row := session.reservations[id];
      var party := c.party.GetOr(row.party);
      var time := c.time.GetOr(row.time);
      var table := if c.table.Some? then c.table else row.table;
      if table.Some? && (c.table.Some? || c.time.Some? || c.party.Some?) {
        if table.value !in session.tables || !session.tables[table.value].active {
          return Err(TableNotFound);
        }
        if session.tables[table.value].capacity < party {
          return Err(TableTooSmall);
        }
        var taken := repo.TableHasConflict(table.value, time, row.duration, Some(id));
        if taken {
          return Err(TableConflict);
        }
      }
      row := row.(party := party, time := time, table := table);
      if c.notes.Some? {
        row := row.(notes := c.notes);
      }
      session.reservations := session.reservations[id := row];
      r := Ok(row);
    }

    /** Edits the row as the action asks, saves it and, unless that fails, announces it. A failure may leave a
        half-edited session, which the caller rolls back. */
    method CarryOut(p: Parameters, announced: bool) returns (r: Result<Reservation, Error>)
      requires Wired() && !p.ApprovePurchase? && p.reservation in session.reservations
      modifies session
      ensures var row := Booking.RowAfter(old(session.tables), old(session.reservations), p);
        r == if row.Ok? && !announced then Err(Unexpected) else row
      ensures r.Ok? ==> session.Snapshot() == old(session.Snapshot()).(
                reservations := old(session.reservations)[p.reservation := r.value],
                events := old(session.events) + [Booking.Announcement(p, r.value)])
    {
      var id := p.reservation;
      var row := session.reservations[id];
      if p.CancelReservation? {
        row := row.(status := Cancelled);
        if p.reason.Some? && p.reason.value != "" {
          row := row.(notes := Some(Booking.Strip(row.notes.GetOr("") + "\nCancellation reason: " + p.reason.value)));
        }
      } else {
        var applied := ApplyModification(id, p.changes);
        if applied.Err? {
          return applied;
        }
        row := applied.value.(status := Modified);
      }
      var accepted := repo.Save(id, row);
      if !accepted {
        return Err(ConstraintViolation);
      }
      if !announced {
        return Err(Unexpected);
      }
      session.Publish(if p.CancelReservation? then ReservationCancelled else ReservationModified, row.restaurant, id);
      r := Ok(row);
    }

    method Gated(restaurant: Id, p: Parameters, gated: bool, ctx: Context) returns (r: Result<Response, Error>)
      requires Wired() && !p.ApprovePurchase? && p.reservation in session.reservations
      modifies session
      ensures Outcome(session.Snapshot(), r)
          == Approvals.GatedAction(old(session.Snapshot()), restaurant, p, gated, ctx)
    {
      if gated {
        if ctx.agentRun.None? {
          return Err(AgentRunRequired);
        }
        r := approvals.CreateApprovalRequest(
          restaurant, ReservationDomain, ctx.agent, ctx.agentRun.value, p, Medium, None);
      } else {
        var before := session.Snapshot();
        var done := CarryOut(p, true);
        if done.Err? {
          session.Rollback(before);
          return Err(done.error);
        }
        r := Ok(ReservationChanged(p.reservation));
      }
    }

    method ModifyReservation(restaurant: Id, id: Id, c: Changes, ctx: Context) returns (r: Result<Response, Error>)
      requires Wired()
      modifies session
      ensures Outcome(session.Snapshot(), r)
          == Approvals.Modify(old(session.Snapshot()), settings, restaurant, id, c, ctx)
    {
      if id !in session.reservations || session.reservations[id].restaurant != restaurant {
        return Err(ReservationNotFound);
      }
      var row := session.reservations[id];
      if !Booking.Active(row) {
        return Err(ReservationNotModifiable);
      }
      var party := c.party.GetOr(row.party);
      var gated := Booking.HighImpactParty(settings, party) || Booking.HighImpactParty(settings, row.party);
      r := Gated(restaurant, Parameters.ModifyReservation(id, c), gated, ctx);
    }

    method CancelReservation(restaurant: Id, id: Id, reason: Option<string>, ctx: Context)
      returns (r: Result<Response, Error>)
      requires Wired()
      modifies session
      ensures Outcome(session.Snapshot(), r)
          == Approvals.Cancel(old(session.Snapshot()), settings, restaurant, id, reason, ctx)
    {
      if id !in session.reservations || session.reservations[id].restaurant != restaurant {
        return Err(ReservationNotFound);
      }
      var row := session.reservations[id];
      if !Booking.Active(row) {
        return Err(ReservationNotCancellable);
      }
      var gated := Booking.HighImpactParty(settings, row.party);
      r := Gated(restaurant, Parameters.CancelReservation(id, reason), gated, ctx);
    }

    /** The executor of reservation approvals. It may raise before it has read the row or once it has saved it; what a
        failing call leaves in the session is not promised. */
    method ExecuteApprovedAction(a: Approval, fault: Option<Fault>) returns (r: Result<Response, Error>)
      requires Wired()
      modifies session
      ensures var row := Booking.RowAfter(old(session.tables), old(session.reservations), a.parameters);
        if fault == Some(BeforeWrites) then r == Err(Unexpected)
        else if row.Err? then r == Err(row.error)
        else if fault == Some(AfterWrites) then r == Err(Unexpected)
        else
          && r == Ok(ReservationChanged(a.parameters.reservation))
          && session.Snapshot() == old(session.Snapshot()).(
               reservations := old(session.reservations)[a.parameters.reservation := row.value],
               events := old(session.events) + [Booking.Announcement(a.parameters, row.value)])
    {
      if fault == Some(BeforeWrites) {
        return Err(Unexpected);
      }
      if a.parameters.ApprovePurchase? {
        return Err(UnsupportedAction);
      }
      var id := a.parameters.reservation;
      if id !in session.reservations {
        return Err(ReservationNotFound);
      }
      var done := CarryOut(a.parameters, fault != Some(AfterWrites));
      r := if done.Ok? then Ok(ReservationChanged(id)) else Err(done.error);
    }
  }

  class InventoryService {
    const session: Session
    const settings: Settings
    var approvals: ApprovalService

    constructor (session: Session, approvals: ApprovalService, settings: Settings)
      requires approvals.session == session
      ensures this.session == session && this.settings == settings && this.approvals == approvals && Wired()
    {
      this.session, this.settings, this.approvals := session, settings, approvals;
    }

    predicate Wired()
      reads this
    {
      approvals.session == session
    }

    method CreatePurchaseRequest(q: Purchasing.PurchaseProposal, ctx: Context) returns (r: Result<Response, Error>)
      requires Wired()
      modifies session
      ensures Outcome(session.Snapshot(), r) == Purchasing.ProposePurchase(old(session.Snapshot()), settings, q, ctx)
    {
      if q.item !in session.items || session.items[q.item].restaurant != q.restaurant {
        return Err(ItemNotFound);
      }
      var existing := Purchasing.OpenRequest(session.purchases, q.item);
      if existing.Some? {
        var p := session.purchases[existing.value];
        if p.status == PendingApproval && p.approval.Some? {
          return Ok(AwaitingApproval(p.approval.value));
        }
        return Ok(PurchaseFiled(existing.value));
      }
      if Purchasing.HighImpactCost(settings, q.cost) {
        r := ProposeGated(q, ctx);
      } else {
        r := FileAtOnce(q, ctx);
      }
    }

    method ProposeGated(q: Purchasing.PurchaseProposal, ctx: Context) returns (r: Result<Response, Error>)
      requires Wired()
      modifies session
      ensures Outcome(session.Snapshot(), r) == Purchasing.ProposeGated(old(session.Snapshot()), q, ctx)
    {
      if ctx.agentRun.None? {
        return Err(AgentRunRequired);
      }
      if !Purchasing.PurchaseAccepted(q.quantity, q.cost) {
        return Err(ConstraintViolation);
      }
      var id := session.FreshId();
      var row := Purchase(
        q.restaurant, q.item, Purchasing.Thousandths(q.quantity), Purchasing.Cents(q.cost), PendingApproval, None,
        ctx.agentRun);
      session.purchases := session.purchases[id := row];
      var asked := approvals.CreateApprovalRequest(
        q.restaurant, PurchaseDomain, ctx.agent, ctx.agentRun.value, ApprovePurchase(id), High, None);
      var approval := asked.value.approval;
      session.purchases := session.purchases[id := row.(approval := Some(approval))];
      session.Publish(PurchaseRequestedEvent, q.restaurant, id);
      r := Ok(AwaitingApproval(approval));
      assert old(session.purchases)[id := row][id := row.(approval := Some(approval))]
          == old(session.purchases)[id := row.(approval := Some(approval))];
    }

    method FileAtOnce(q: Purchasing.PurchaseProposal, ctx: Context) returns (r: Result<Response, Error>)
      modifies session
      ensures Outcome(session.Snapshot(), r) == Purchasing.FileAtOnce(old(session.Snapshot()), q, ctx)
    {
      if !Purchasing.PurchaseAccepted(q.quantity, q.cost) {
        return Err(ConstraintViolation);
      }
      var id := session.FreshId();
      session.purchases := session.purchases[id :=
        Purchase(q.restaurant, q.item, Purchasing.Thousandths(q.quantity), Purchasing.Cents(q.cost), PurchaseApproved,
                 None, ctx.agentRun)];
      session.Publish(PurchaseRequestedEvent, q.restaurant, id);
      r := Ok(PurchaseFiled(id));
    }

    /** The executor of purchase approvals, which publishes nothing itself. */
    method ExecuteApprovedAction(a: Approval, fault: Option<Fault>) returns (r: Result<Response, Error>)
      modifies session
      ensures var row := Purchasing.PurchaseAfter(old(session.purchases), a.parameters);
        if fault == Some(BeforeWrites) then r == Err(Unexpected)
        else if row.Err? then r == Err(row.error)
        else if fault == Some(AfterWrites) then r == Err(Unexpected)
        else
          && r == Ok(PurchaseFiled(a.parameters.purchase))
          && session.Snapshot() == old(session.Snapshot()).(
               purchases := old(session.purchases)[a.parameters.purchase := row.value])
    {
      if fault == Some(BeforeWrites) {
        return Err(Unexpected);
      }
      if !a.parameters.ApprovePurchase? {
        return Err(UnsupportedAction);
      }
      var id := a.parameters.purchase;
      if id !in session.purchases {
        return Err(PurchaseRequestNotFound);
      }
      session.purchases := session.purchases[id := session.purchases[id].(status := PurchaseApproved)];
      r := if fault == Some(AfterWrites) then Err(Unexpected) else Ok(PurchaseFiled(id));
    }
  }

  /** Executing depends on what was proposed and on the tables, not on the decision just recorded. */
  lemma ExecutionIgnoresDecision(
    db: Db, db': Db, executors: set<Domain>, a: Approval, a': Approval, fault: Option<Fault>)
    requires db' == db.(approvals := db'.approvals) && a'.domain == a.domain && a'.parameters == a.parameters
    ensures Approvals.ExecutionOf(db', executors, a', fault) == Approvals.ExecutionOf(db, executors, a, fault)
    ensures Approvals.WorkDone(db', executors, a', fault) == Approvals.WorkDone(db, executors, a, fault)
  {
  }

  /** Nor does what is remembered and announced, beyond the text composed from it. */
  lemma ConclusionIgnoresDecision(
    db: Db, db': Db, id: Id, a: Approval, a': Approval, text: string, writable: bool, purchaseEvent: EventType)
    requires db'.memories == db.memories && db'.nextId == db.nextId
    requires a'.restaurant == a.restaurant && a'.agent == a.agent && a'.risk == a.risk && a'.domain == a.domain
    ensures Approvals.MemoriesAfter(db', id, a', text, writable) == Approvals.MemoriesAfter(db, id, a, text, writable)
    ensures Approvals.DecisionEvents(id, a', purchaseEvent) == Approvals.DecisionEvents(id, a, purchaseEvent)
  {
  }

  lemma Overwritten<V>(m: map<Id, V>, id: Id, first: V, second: V)
    ensures m[id := first][id := second] == m[id := second]
  {
  }

  class ApprovalService {
    const session: Session
    const reservationExecutor: ReservationService?
    const purchaseExecutor: InventoryService?

    /** The plain service: decisions only. */
    constructor Plain(session: Session)
      ensures this.session == session && Executors() == {}
    {
      this.session, this.reservationExecutor, this.purchaseExecutor := session, null, null;
    }

    /** The full service: approving also executes. */
    constructor Full(session: Session, reservations: ReservationService?, inventory: InventoryService?)
      ensures this.session == session
      ensures reservationExecutor == reservations && purchaseExecutor == inventory
    {
      this.session, this.reservationExecutor, this.purchaseExecutor := session, reservations, inventory;
    }

    function Executors(): set<Domain> {
      (if reservationExecutor != null then {ReservationDomain} else {})
      + (if purchaseExecutor != null then {PurchaseDomain} else {})
    }

    predicate Wired()
      reads reservationExecutor, purchaseExecutor
    {
      && (reservationExecutor != null ==> reservationExecutor.session == session && reservationExecutor.Wired())
      && (purchaseExecutor != null ==> purchaseExecutor.session == session)
    }

    method CreateApprovalRequest(
      restaurant: Id, domain: Domain, agent: string, agentRun: Id, p: Parameters, risk: Risk, expiresAt: Option<int>)
      returns (r: Result<Response, Error>)
      modifies session
      ensures risk == Low ==> r == Err(LowRiskNeedsNoApproval) && session.Snapshot() == old(session.Snapshot())
      ensures risk != Low ==> r == Ok(AwaitingApproval(old(session.nextId)))
      ensures risk != Low ==>
        session.Snapshot() == old(session.Snapshot()).(
          approvals := old(session.approvals)[old(session.nextId) := Approval(
            restaurant, domain, agent, agentRun, p, risk, Pending, None, None, None, expiresAt, None, None)],
          nextId := old(session.nextId) + 1,
          events := old(session.events) + [Event(ApprovalCreated, restaurant, old(session.nextId))])
    {
      if risk == Low {
        return Err(LowRiskNeedsNoApproval);
      }
      var id := session.FreshId();
      session.approvals := session.approvals[id :=
        Purchasing.PendingApprovalRow(restaurant, domain, agent, agentRun, p, risk, expiresAt)];
      session.Publish(ApprovalCreated, restaurant, id);
      r := Ok(AwaitingApproval(id));
    }

    /** Runs the executor of the approval's domain and shapes its result. This may raise even after the action has been
        published, when subscribers may have changed anything in the session. */
    method RunExecutor(a: Approval, fault: Option<Fault>) returns (r: Result<Response, Error>)
      requires Wired() && Approvals.HasExecutor(Executors(), a.domain)
      modifies session
      ensures var db := old(session.Snapshot());
        var work := Approvals.RunExecutor(db, a, fault);
        if work.Err? then r == Err(work.error)
        else r.Ok? && session.Snapshot() == db.(
               reservations := work.value.reservations, purchases := work.value.purchases,
               events := db.events + work.value.events)
    {
      if a.domain == ReservationDomain {
        r := reservationExecutor.ExecuteApprovedAction(a, fault);
      } else {
        r := purchaseExecutor.ExecuteApprovedAction(a, fault);
      }
      if r.Ok? && fault.Some? && fault.value.AfterPublishing? {
        session.Rollback(fault.value.left);
        return Err(Unexpected);
      }
    }

    /** Runs the registered executor inside a savepoint and records how it ended. Wherever the executor raises and
        whatever it and the subscribers of its events had written by then, a failure leaves nothing but the result on
        the approval. */
    method Execute(id: Id, now: int, fault: Option<Fault>)
      requires Wired() && id in session.approvals
      modifies session
      ensures var db, a := old(session.Snapshot()), old(session.approvals)[id];
        var execution := Approvals.ExecutionOf(db, Executors(), a, fault);
        var work := Approvals.WorkDone(db, Executors(), a, fault);
        session.Snapshot() == db.(
          reservations := work.reservations, purchases := work.purchases, events := db.events + work.events,
          approvals := if execution.None? then db.approvals
                       else db.approvals[id := a.(execution := execution, executedAt := Some(now))])
      ensures var db, a := old(session.Snapshot()), old(session.approvals)[id];
        var execution := Approvals.ExecutionOf(db, Executors(), a, fault);
        execution.Some? && execution.value.Failed? ==>
          session.Snapshot()
          == db.(approvals := db.approvals[id := a.(execution := execution, executedAt := Some(now))])
    {
      var a := session.approvals[id];
      if !Approvals.HasExecutor(Executors(), a.domain) {
        return;
      }
      var savepoint := session.Snapshot();
      var result := RunExecutor(a, fault);
      if result.Err? {
        session.Rollback(savepoint);
      }
      var execution := if result.Ok? then Succeeded else Failed(result.error);
      session.approvals := session.approvals[id := a.(execution := Some(execution), executedAt := Some(now))];
    }

    /** Stores the decision as a memory inside a savepoint. However storing it fails, the session is as it was. */
    method Remember(id: Id, text: string, fault: Option<MemoryFault>)
      requires id in session.approvals && session.KeysUnique()
      modifies session
      ensures var db := old(session.Snapshot());
        session.Snapshot() == db.(
          memories := Approvals.MemoriesAfter(db, id, db.approvals[id], text, fault.None?),
          nextId := db.nextId + if fault.None? then 1 else 0)
      ensures fault.Some? ==> session.Snapshot() == old(session.Snapshot())
    {
      var savepoint := session.Snapshot();
      var memory := new MemoryService(session);
      var stored := memory.AddMemory(Approvals.DecisionMemory(id, session.approvals[id], text), fault);
      assert fault.Some? ==> stored.Err? by {
        assert fault.Some? ==> fault.value.EmbeddingFails? || fault.value.StoreFails?;
      }
      assert fault.None? ==> stored.Ok?;
      if stored.Err? {
        session.Rollback(savepoint);
      }
    }

    /** The end of both decisions: remember and announce. */
    method Conclude(id: Id, text: string, memoryFault: Option<MemoryFault>, purchaseEvent: EventType)
      requires id in session.approvals && session.KeysUnique()
      modifies session
      ensures var db, a := old(session.Snapshot()), old(session.approvals)[id];
        session.Snapshot() == db.(
          memories := Approvals.MemoriesAfter(db, id, a, text, memoryFault.None?),
          nextId := db.nextId + if memoryFault.None? then 1 else 0,
          events := db.events + Approvals.DecisionEvents(id, a, purchaseEvent))
    {
      hide Approvals.MemoriesAfter;
      Remember(id, text, memoryFault);
      if session.approvals[id].domain == PurchaseDomain {
        session.Publish(purchaseEvent, session.approvals[id].restaurant, id);
      }
      session.Publish(ApprovalCompleted, session.approvals[id].restaurant, id);
    }

    method Approve(id: Id, user: Id, now: int, text: string, memoryFault: Option<MemoryFault>, fault: Option<Fault>)
      returns (r: Result<Response, Error>)
      requires Wired() && session.KeysUnique()
      modifies session
      ensures Outcome(session.Snapshot(), r)
           == Approvals.Approve(old(session.Snapshot()), Executors(), id, user, now, text, memoryFault.None?, fault)
    {
      hide Approvals.RunExecutor, Approvals.MemoriesAfter, Approvals.ExecutionOf, Approvals.WorkDone,
          MemoryTable.UniqueKeys;
      hide Approvals.DecisionEvents;
      var pending := Approvals.RequirePending(session.Snapshot(), id);
      if pending.Err? {
        return Err(pending.error);
      }
      var a := session.approvals[id];
      var decided := a.(status := Approved, decidedBy := Some(user), approvedAt := Some(now));
      session.approvals := session.approvals[id := decided];
      ghost var db := old(session.Snapshot());
      ghost var row := Approvals.ApprovedRow(db, Executors(), a, user, now, fault);
      ExecutionIgnoresDecision(db, session.Snapshot(), Executors(), a, decided, fault);
      Execute(id, now, fault);
      Overwritten(old(session.approvals), id, decided, row);
      assert session.approvals == old(session.approvals)[id := row];
      ConclusionIgnoresDecision(db, session.Snapshot(), id, a, row, text, memoryFault.None?, PurchaseApprovedEvent);
      hide Approvals.ApprovedRow;
      Conclude(id, text, memoryFault, PurchaseApprovedEvent);
      r := Ok(ApprovalDecided(id));
    }

    method Reject(id: Id, user: Id, now: int, text: string, memoryFault: Option<MemoryFault>)
      returns (r: Result<Response, Error>)
      requires session.KeysUnique()
      modifies session
      ensures Outcome(session.Snapshot(), r)
           == Approvals.Reject(old(session.Snapshot()), id, user, now, text, memoryFault.None?)
    {
      var pending := Approvals.RequirePending(session.Snapshot(), id);
      if pending.Err? {
        return Err(pending.error);
      }
      session.approvals := session.approvals[id := Approvals.RejectedRow(session.approvals[id], user, now)];
      Conclude(id, text, memoryFault, PurchaseRejectedEvent);
      r := Ok(ApprovalDecided(id));
    }

    /** Marks the overdue rows one by one. */
    method Expire(restaurant: Id, now: int) returns (expired: set<Id>)
      modifies session`approvals
      ensures Outcome(session.Snapshot(), Ok(ApprovalsExpired(expired)))
          == Approvals.Expire(old(session.Snapshot()), restaurant, now)
    {
      ghost var rows := session.approvals;
      var overdue := Approvals.OverdueIn(session.approvals, restaurant, now);
      ghost var all := overdue;
      expired := {};
      while overdue != {}
        invariant overdue !! expired && overdue + expired == all <= rows.Keys
        invariant session.approvals == Approvals.MarkExpired(rows, expired)
        decreases |overdue|
      {
        var id :| id in overdue;
        MarkOneMore(rows, expired, id);
        session.approvals := session.approvals[id := session.approvals[id].(status := Expired)];
        overdue := overdue - {id};
        expired := expired + {id};
      }
      assert expired == all;
    }
  }

  lemma MarkOneMore(rows: map<Id, Approval>, expired: set<Id>, id: Id)
    requires id in rows && id !in expired
    ensures Approvals.MarkExpired(rows, expired + {id})
         == Approvals.MarkExpired(rows, expired)[id := rows[id].(status := Expired)]
  {
  }
}
