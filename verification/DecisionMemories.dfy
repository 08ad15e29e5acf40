/**
 The memories that decisions leave behind. They live in the table the agents' memory tools write to, so a record lasts
 exactly as long as no memory call of a run touches it.
 */
module DecisionMemories {
  import opened Prelude
  import opened Schema
  import opened System
  import Approvals
  import opened MemoryTable
  import Lifecycle

  /** Different approvals never share a memory topic. */
  lemma TopicsAreDistinct(a: Id, b: Id)
    requires Approvals.ApprovalTopic(a) == Approvals.ApprovalTopic(b)
    ensures a == b
  {
    var s, t := Approvals.ApprovalTopic(a), Approvals.ApprovalTopic(b);
    assert s[9..] == Digits(a) && t[9..] == Digits(b);
    DigitsAreInjective(a, b);
  }

  function RecordOf(db: Db, c: Call): Memory
    requires Records(db, c)
  {
    Approvals.DecisionMemory(c.approval, db.approvals[c.approval], c.text)
  }

  // ---- what a record does to the memories already there ----

  /** Recording a decision adds one row and deactivates exactly the rows that hold its key; so it leaves all others as
      they were if and only if no active row holds that key. */
  lemma RecordingIsAppending(db: Db, s: Settings, c: Call)
    requires IdsUsed(db) && Records(db, c)
    ensures var rows := Next(db, s, c).memories;
      && rows.Keys == db.memories.Keys + {db.nextId}
      && rows[db.nextId] == RecordOf(db, c)
      && (forall i | i in db.memories ::
            rows[i] == if Holds(db.memories[i], KeyOf(RecordOf(db, c))) then Deactivated(db.memories[i])
                       else db.memories[i])
    ensures Next(db, s, c).memories == db.memories[db.nextId := RecordOf(db, c)]
            <==> forall i | i in db.memories :: !Holds(db.memories[i], KeyOf(RecordOf(db, c)))
  {
    StepAppliesMemory(db, s, c);
    hide Next, Approvals.ApprovalTopic;
    var rows := Next(db, s, c).memories;
    forall i | i in db.memories && Holds(db.memories[i], KeyOf(RecordOf(db, c)))
      ensures rows != db.memories[db.nextId := RecordOf(db, c)]
    {
      assert db.memories[db.nextId := RecordOf(db, c)][i] == db.memories[i] != rows[i];
    }
  }

  // ---- what keeps any memory ----

  /** The same memory, read more often at most. */
  predicate Same(m: Memory, m': Memory) {
    m' == m.(accessCount := m'.accessCount)
  }

  /** The memory call adds under the key of row `i`, changes what it says, forgets it or deletes it. */
  predicate Overwrites(rows: map<Id, Memory>, customers: set<Id>, c: MemoryCall, embeds: bool, i: Id)
    requires i in rows
  {
    match c
    case AddCall(m) =>
      && embeds && ImportanceValid(m.importance) && ConfidenceValid(m.confidence) && !Dangling(customers, m)
      && KeyOf(m) == KeyOf(rows[i])
    case UpdateCall(restaurant, id, correction) =>
      id == i && Update(rows, restaurant, id, correction).Ok? && Corrected(rows[i], correction) != rows[i]
    case ReinforceCall(restaurant, id, step) =>
      id == i && Reinforce(rows, restaurant, id, step).Ok?
      && Hundredths(if rows[i].confidence + step < 1.0 then rows[i].confidence + step else 1.0) != rows[i].confidence
    case ForgetCall(restaurant, id) => id == i && rows[i].restaurant == restaurant
    case DeleteCall(restaurant, id) => id == i && rows[i].restaurant == restaurant
    case GetCall(_, _, _) => false
    case SearchCall(_, _) => false
  }

  lemma ServeKeepsUnlessOverwritten(
    rows: map<Id, Memory>, customers: set<Id>, id: Id, c: MemoryCall, embeds: bool, i: Id)
    requires i in rows && rows[i].active && id !in rows
    ensures var rows' := Serve(rows, customers, id, c, embeds).rows;
      i in rows' && Same(rows[i], rows'[i]) <==> !Overwrites(rows, customers, c, embeds, i)
  {
    hide Hits, Hundredths, ScopeKey;
  }

  /** The call overwrites row `i`, or records a decision under its key. */
  predicate Disturbs(db: Db, c: Call, i: Id)
    requires i in db.memories
  {
    if Records(db, c) then KeyOf(RecordOf(db, c)) == KeyOf(db.memories[i])
    else c.UseMemory? && Overwrites(db.memories, db.customers.Keys, c.call, c.embeds, i)
  }

  /** One step keeps an active memory as it is if and only if it does not disturb it. */
  lemma StepKeepsMemory(db: Db, s: Settings, c: Call, i: Id)
    requires IdsUsed(db) && i in db.memories && db.memories[i].active
    ensures i in Next(db, s, c).memories && Same(db.memories[i], Next(db, s, c).memories[i]) <==> !Disturbs(db, c, i)
  {
    StepAppliesMemory(db, s, c);
    hide Next, Approvals.DecisionMemory, Serve, Overwrites;
    if Records(db, c) {
      RecordingIsAppending(db, s, c);
    } else if c.UseMemory? {
      ServeKeepsUnlessOverwritten(db.memories, db.customers.Keys, db.nextId, c.call, c.embeds, i);
    }
  }

  /** In every state of the run row `i` is `m`, read more often at most. */
  predicate KeptThroughout(db: Db, s: Settings, calls: seq<Call>, i: Id, m: Memory)
    decreases |calls|
  {
    && i in db.memories && Same(m, db.memories[i])
    && (calls == [] || KeptThroughout(Next(db, s, calls[0]), s, calls[1..], i, m))
  }

  predicate Undisturbed(db: Db, s: Settings, calls: seq<Call>, i: Id)
    decreases |calls|
  {
    calls == []
    || (i in db.memories && !Disturbs(db, calls[0], i) && Undisturbed(Next(db, s, calls[0]), s, calls[1..], i))
  }

  /** An active memory stays active, with its content, throughout a run if and only if no call of the run adds under its
      key, corrects it to something else, changes its confidence, forgets it or deletes it. */
  lemma {:induction false} MemoriesLastUntilDisturbed(db: Db, s: Settings, calls: seq<Call>, i: Id, m: Memory)
    requires IdsUsed(db) && i in db.memories && db.memories[i].active && Same(m, db.memories[i])
    ensures KeptThroughout(db, s, calls, i, m) <==> Undisturbed(db, s, calls, i)
    decreases |calls|
  {
    if calls != [] {
      StepKeepsMemory(db, s, calls[0], i);
      StepKeepsIds(db, s, calls[0]);
      hide Next, Disturbs;
      var db' := Next(db, s, calls[0]);
      if !Disturbs(db, calls[0], i) {
        MemoriesLastUntilDisturbed(db', s, calls[1..], i, m);
      }
    }
  }

  // ---- what keeps the record of a decision ----

  /** Row `i` is an active record of approval `a`, which is decided. */
  predicate IsRecord(db: Db, i: Id, a: Id) {
    && i in db.memories && db.memories[i].active && db.memories[i].topic == Approvals.ApprovalTopic(a)
    && a in db.approvals && db.approvals[a].status in {Approved, Rejected}
  }

  /** No decision disturbs the record of another. */
  lemma DecisionsDisturbNoRecord(db: Db, c: Call, i: Id, a: Id)
    requires IsRecord(db, i, a) && Records(db, c)
    ensures !Disturbs(db, c, i)
  {
    if Approvals.ApprovalTopic(c.approval) == Approvals.ApprovalTopic(a) {
      TopicsAreDistinct(c.approval, a);
    }
  }

  predicate Spared(db: Db, s: Settings, calls: seq<Call>, i: Id)
    decreases |calls|
  {
    calls == []
    || (&& i in db.memories
        && !(calls[0].UseMemory?
             && Overwrites(db.memories, db.customers.Keys, calls[0].call, calls[0].embeds, i))
        && Spared(Next(db, s, calls[0]), s, calls[1..], i))
  }

  lemma {:induction false} RecordsLastUntilOverwritten(db: Db, s: Settings, calls: seq<Call>, i: Id, a: Id, m: Memory)
    requires IdsUsed(db) && IsRecord(db, i, a) && Same(m, db.memories[i])
    ensures KeptThroughout(db, s, calls, i, m) <==> Spared(db, s, calls, i)
    decreases |calls|
  {
    if calls != [] {
      var c, db' := calls[0], Next(db, s, calls[0]);
      StepKeepsMemory(db, s, c, i);
      StepKeepsIds(db, s, c);
      Lifecycle.StepProgresses(db, s, c, a);
      if Records(db, c) {
        DecisionsDisturbNoRecord(db, c, i, a);
      }
      hide Next, Approvals.ApprovalTopic, Overwrites, RecordOf;
      if !Disturbs(db, c, i) {
        RecordsLastUntilOverwritten(db', s, calls[1..], i, a, m);
      }
    }
  }

  /** Whatever a run did before, a decision it records is kept as it was written, throughout whatever follows, if and
      only if no memory call that follows overwrites its row; later decisions never do. */
  lemma DecisionsAreRemembered(db: Db, s: Settings, c: Call, after: seq<Call>)
    requires IdsUsed(db) && Records(db, c)
    ensures db.nextId in Next(db, s, c).memories && Next(db, s, c).memories[db.nextId] == RecordOf(db, c)
    ensures KeptThroughout(Next(db, s, c), s, after, db.nextId, RecordOf(db, c))
            <==> Spared(Next(db, s, c), s, after, db.nextId)
  {
    RecordingIsAppending(db, s, c);
    StepKeepsIds(db, s, c);
    StepAppliesRuling(db, s, c);
    hide Next, Approvals.ApprovalTopic, KeptThroughout, Spared;
    RecordsLastUntilOverwritten(Next(db, s, c), s, after, db.nextId, c.approval, RecordOf(db, c));
  }

  /** No approval is recorded twice in a run. */
  lemma RecordedOnce(db: Db, s: Settings, c: Call, between: seq<Call>, again: Call)
    requires IdsUsed(db) && Records(db, c)
    requires Records(Run(Next(db, s, c), s, between), again)
    ensures again.approval != c.approval
  {
    StepKeepsIds(db, s, c);
    StepAppliesRuling(db, s, c);
    hide Next;
    Lifecycle.DecisionsAreTerminal(Next(db, s, c), s, between, c.approval);
  }

  // ---- records do get lost ----

  /** An agent's memory call that adds `text` under the key of the record `c` leaves. */
  function Forgery(db: Db, c: Call, text: string): Call
    requires Records(db, c)
  {
    UseMemory(AddCall(RecordOf(db, c).(content := text)), true)
  }

  lemma ForgeryIsStored(db: Db, s: Settings, c: Call, text: string, forgery: Call, at: Db)
    requires Records(db, c) && forgery == Forgery(db, c, text)
    ensures Next(at, s, forgery).approvals == at.approvals
    ensures Next(at, s, forgery).memories
         == Superseded(at.memories, KeyOf(RecordOf(db, c)))[at.nextId := RecordOf(db, c).(content := text)]
    ensures Next(at, s, forgery).nextId == at.nextId + 1
  {
    hide Approvals.ApprovalTopic;
  }

  /** Every record can be lost: once made, an agent's tool call can delete it. */
  lemma AnyRecordCanBeDeleted(db: Db, s: Settings, c: Call)
    requires IdsUsed(db) && Records(db, c)
    ensures var delete := UseMemory(DeleteCall(RecordOf(db, c).restaurant, db.nextId), true);
      db.nextId !in Next(Next(db, s, c), s, delete).memories
  {
    RecordingIsAppending(db, s, c);
    StepAppliesMemory(Next(db, s, c), s, UseMemory(DeleteCall(RecordOf(db, c).restaurant, db.nextId), true));
    hide Next, RecordOf;
  }

  /** An agent can also replace it by a memory of its own. */
  lemma AnyRecordCanBeReplaced(db: Db, s: Settings, c: Call, text: string)
    requires IdsUsed(db) && Records(db, c)
    ensures var rows := Next(Next(db, s, c), s, Forgery(db, c, text)).memories;
      db.nextId in rows && !rows[db.nextId].active
  {
    RecordingIsAppending(db, s, c);
    StepKeepsIds(db, s, c);
    ForgeryIsStored(db, s, c, text, Forgery(db, c, text), Next(db, s, c));
    hide Next, RecordOf, Forgery;
  }

  /** And a memory an agent stored under the key while the approval still waited is itself replaced by the record. */
  lemma RecordsReplaceSquatters(db: Db, s: Settings, c: Call, text: string)
    requires IdsUsed(db) && Records(db, c)
    ensures var squatted := Next(db, s, Forgery(db, c, text));
      && db.nextId in squatted.memories && squatted.memories[db.nextId].active && Records(squatted, c)
      && db.nextId in Next(squatted, s, c).memories && !Next(squatted, s, c).memories[db.nextId].active
  {
    var squatted := Next(db, s, Forgery(db, c, text));
    ForgeryIsStored(db, s, c, text, Forgery(db, c, text), db);
    hide Next, Forgery, Approvals.DecisionMemory;
    StepKeepsIds(db, s, Forgery(db, c, text));
    RecordingIsAppending(squatted, s, c);
  }

  // ---- scopes are texts ----

  /** An agent's name that reads like a customer's id stands for the same scope: a memory added under it supersedes what
      was remembered about the customer. */
  lemma NameReadAsCustomer(db: Db, s: Settings, i: Id, text: string)
    requires IdsUsed(db) && i in db.memories && db.memories[i].active && db.memories[i].customer.Some?
    requires ImportanceValid(db.memories[i].importance) && ConfidenceValid(db.memories[i].confidence)
    ensures var forged := db.memories[i].(
                customer := None, agent := Some(Digits(db.memories[i].customer.value)), content := text);
      var c := UseMemory(AddCall(forged), true);
      Disturbs(db, c, i) && i in Next(db, s, c).memories && !Next(db, s, c).memories[i].active
  {
    var forged := db.memories[i].(
      customer := None, agent := Some(Digits(db.memories[i].customer.value)), content := text);
    StepAppliesMemory(db, s, UseMemory(AddCall(forged), true));
    hide Next, Digits;
  }
}
