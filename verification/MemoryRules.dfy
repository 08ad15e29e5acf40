/** What the memory calls do, told on requests and row fields alone, and which rows a search finds. */
module MemoryRules {
  import opened Prelude
  import opened Schema
  import opened System
  import MemoryTable
  import DoubleBooking
  import MemoryFacts

  /** Whom or what the memory is about, as one text. */
  function ScopeText(m: Memory): string {
    if m.customer.Some? then Digits(m.customer.value)
    else if m.agent.Some? then m.agent.value
    else "restaurant"
  }

  /** The memories agree in restaurant, type, topic and scope. */
  predicate SameFact(m: Memory, m': Memory) {
    m.restaurant == m'.restaurant && m.kind == m'.kind && m.topic == m'.topic && ScopeText(m) == ScopeText(m')
  }

  lemma SameFactIsSameKey(m: Memory, m': Memory)
    ensures SameFact(m, m') <==> MemoryTable.KeyOf(m) == MemoryTable.KeyOf(m')
  {
  }

  /** In every state of a run two active rows that agree in restaurant, type, topic and scope are the same row. */
  lemma ActiveFactsAreUnique(db: Db, s: Settings, calls: seq<Call>, i: Id, j: Id)
    requires Valid(db)
    ensures var rows := Run(db, s, calls).memories;
      i in rows && j in rows && rows[i].active && rows[j].active && SameFact(rows[i], rows[j]) ==> i == j
  {
    DoubleBooking.RunKeepsValid(db, s, calls);
    var rows := Run(db, s, calls).memories;
    if i in rows && j in rows {
      SameFactIsSameKey(rows[i], rows[j]);
    }
  }

  // ---- adding ----

  /** A confidence in whole hundredths nearest to `x`, halves going to the even one. */
  ghost predicate TwoDecimals(x: real, y: real) {
    exists n: int :: IsHundredths(x, y, n)
  }

  predicate IsHundredths(x: real, y: real, n: int) {
    && y == n as real / 100.0
    && -0.5 <= n as real - 100.0 * x <= 0.5
    && (n as real - 100.0 * x in {-0.5, 0.5} ==> n % 2 == 0)
  }

  lemma ConfidencesAreRounded(x: real)
    ensures TwoDecimals(x, MemoryTable.Hundredths(x))
  {
    var n := (x * 100.0).Floor;
    var over := x * 100.0 - n as real;
    var m := if over < 0.5 || (over == 0.5 && n % 2 == 0) then n else n + 1;
    assert IsHundredths(x, MemoryTable.Hundredths(x), m);
  }

  /** The table with the new memory, where every active row with the same fact is made inactive. */
  function Added(rows: map<Id, Memory>, id: Id, m: Memory): map<Id, Memory> {
    (map i | i in rows :: if rows[i].active && SameFact(rows[i], m) then rows[i].(active := false) else rows[i])
    [id := Memory(m.restaurant, m.customer, m.agent, m.kind, m.topic, m.content, m.importance,
                  MemoryTable.Hundredths(m.confidence), m.source, true, 0)]
  }

  lemma AddFollows(rows: map<Id, Memory>, id: Id, m: Memory)
    ensures MemoryTable.Add(rows, id, m)
         == if m.importance < 1 || m.importance > 5 then Err(InvalidImportance)
            else if m.confidence < 0.0 || m.confidence > 1.0 then Err(InvalidConfidence)
            else Ok(Added(rows, id, m))
  {
    forall i | i in rows { SameFactIsSameKey(rows[i], m); }
    hide MemoryTable.KeyOf, SameFact, MemoryTable.Hundredths;
    assert MemoryTable.Superseded(rows, MemoryTable.KeyOf(m))
        == map i | i in rows :: if rows[i].active && SameFact(rows[i], m) then rows[i].(active := false) else rows[i];
  }

  /** Adding checks importance and confidence, embeds, and then makes exactly the active rows with the same fact
      inactive and stores the new row; a failing add changes nothing. */
  lemma AddAnswers(db: Db, s: Settings, m: Memory, embeds: bool)
    ensures Step(db, s, UseMemory(MemoryTable.AddCall(m), embeds)) ==
      if m.importance < 1 || m.importance > 5 then Outcome(db, Err(InvalidImportance))
      else if m.confidence < 0.0 || m.confidence > 1.0 then Outcome(db, Err(InvalidConfidence))
      else if !embeds then Outcome(db, Err(EmbeddingFailed))
      else if m.customer.Some? && m.customer.value !in db.customers then Outcome(db, Err(ConstraintViolation))
      else Outcome(db.(memories := Added(db.memories, db.nextId, m), nextId := db.nextId + 1), Ok(MemoryServed))
  {
    AddFollows(db.memories, db.nextId, m);
    hide MemoryTable.Add, Added;
  }

  // ---- correcting, reinforcing, forgetting ----

  /** The row with what the correction names, and everything else as it was. */
  function Corrected(m: Memory, c: MemoryTable.Correction): Memory {
    Memory(
      m.restaurant, m.customer, m.agent, m.kind,
      if c.topic.Some? then c.topic.value else m.topic,
      if c.content.Some? then c.content.value else m.content,
      if c.importance.Some? then c.importance.value else m.importance,
      if c.confidence.Some? then MemoryTable.Hundredths(c.confidence.value) else m.confidence,
      m.source, m.active, m.accessCount)
  }

  /** Why a correction is refused before anything is assigned, if it is. Importance and confidence are checked together,
      if either is given. */
  function CorrectionRefusal(rows: map<Id, Memory>, restaurant: Id, id: Id, c: MemoryTable.Correction): Option<Error> {
    if !(id in rows && rows[id].restaurant == restaurant) then Some(MemoryNotFound)
    else if !rows[id].active then Some(MemoryInactive)
    else
      var importance := if c.importance.Some? then c.importance.value else rows[id].importance;
      var confidence := if c.confidence.Some? then c.confidence.value else rows[id].confidence;
      if c.importance == None && c.confidence == None then None
      else if importance < 1 || importance > 5 then Some(InvalidImportance)
      else if confidence < 0.0 || confidence > 1.0 then Some(InvalidConfidence)
      else None
  }

  /** Another active row has the fact. */
  ghost predicate FactTaken(rows: map<Id, Memory>, id: Id, m: Memory) {
    exists j | j in rows :: j != id && rows[j].active && SameFact(rows[j], m)
  }

  lemma TakenIsKeyTaken(rows: map<Id, Memory>, id: Id, m: Memory)
    ensures FactTaken(rows, id, m) <==> MemoryTable.KeyTaken(rows, id, MemoryTable.KeyOf(m))
  {
    forall j | j in rows { SameFactIsSameKey(rows[j], m); }
    hide MemoryTable.KeyOf, SameFact;
    if j :| j in rows && j != id && rows[j].active && SameFact(rows[j], m) {
      assert MemoryTable.Holds(rows[j], MemoryTable.KeyOf(m));
    }
  }

  /** An update is refused with the first failing check; a fact another row has is refused by the index; and a new text
      that cannot be embedded is an error that leaves what was assigned, unless the index refuses that. */
  lemma UpdateAnswers(db: Db, s: Settings, restaurant: Id, id: Id, c: MemoryTable.Correction, embeds: bool)
    ensures Step(db, s, UseMemory(MemoryTable.UpdateCall(restaurant, id, c), embeds)) ==
      var refusal := CorrectionRefusal(db.memories, restaurant, id, c);
      if refusal.Some? then Outcome(db, Err(refusal.value))
      else
        var row := Corrected(db.memories[id], c);
        var embedded := embeds || (c.content == None && c.topic == None);
        if FactTaken(db.memories, id, row)
        then Outcome(db, Err(if embedded then ConstraintViolation else EmbeddingFailed))
        else
          Outcome(db.(memories := db.memories[id := row]), if embedded then Ok(MemoryServed) else Err(EmbeddingFailed))
  {
    if id in db.memories {
      TakenIsKeyTaken(db.memories, id, Corrected(db.memories[id], c));
    }
    hide MemoryTable.KeyTaken, MemoryTable.KeyOf, FactTaken, MemoryTable.Hundredths;
  }

  /** Reinforcing adds the step to the confidence, up to 1, and counts an access. */
  lemma ReinforceAnswers(db: Db, s: Settings, restaurant: Id, id: Id, step: real, embeds: bool)
    ensures Step(db, s, UseMemory(MemoryTable.ReinforceCall(restaurant, id, step), embeds)) ==
      if !(id in db.memories && db.memories[id].restaurant == restaurant) then Outcome(db, Err(MemoryNotFound))
      else if !db.memories[id].active then Outcome(db, Err(MemoryInactive))
      else
        var raised := db.memories[id].confidence + step;
        var stored := MemoryTable.Hundredths(if raised > 1.0 then 1.0 else raised);
        var row := db.memories[id].(confidence := stored, accessCount := db.memories[id].accessCount + 1);
        if stored < 0.0 || stored > 1.0 then Outcome(db, Err(ConstraintViolation))
        else Outcome(db.(memories := db.memories[id := row]), Ok(MemoryServed))
  {
    hide MemoryTable.Hundredths;
  }

  /** Forgetting makes the row inactive, deleting drops it, getting counts an access if asked to; each leaves all other
      rows alone. */
  lemma RowCallsAnswer(db: Db, s: Settings, restaurant: Id, id: Id, touch: bool, embeds: bool)
    ensures var found := id in db.memories && db.memories[id].restaurant == restaurant;
      && Step(db, s, UseMemory(MemoryTable.ForgetCall(restaurant, id), embeds))
         == (if !found then Outcome(db, Err(MemoryNotFound))
             else Outcome(db.(memories := db.memories[id := db.memories[id].(active := false)]), Ok(MemoryServed)))
      && Step(db, s, UseMemory(MemoryTable.DeleteCall(restaurant, id), embeds))
         == (if !found then Outcome(db, Err(MemoryNotFound))
             else Outcome(db.(memories := db.memories - {id}), Ok(MemoryServed)))
      && Step(db, s, UseMemory(MemoryTable.GetCall(restaurant, id, touch), embeds))
         == (if !found then Outcome(db, Err(MemoryNotFound))
             else if !touch then Outcome(db, Ok(MemoryServed))
             else Outcome(
               db.(memories := db.memories[id := db.memories[id].(accessCount := db.memories[id].accessCount + 1)]),
               Ok(MemoryServed)))
  {
  }

  // ---- searching ----

  /** An active row of the restaurant that passes the filters that are given, has an embedding, and is similar enough.
      */
  predicate Eligible(rows: map<Id, Memory>, distance: map<Id, real>, q: MemoryTable.Query, id: Id) {
    && id in rows && rows[id].active && rows[id].restaurant == q.restaurant
    && (q.kind == None || q.kind == Some(rows[id].kind))
    && (q.customer == None || q.customer == rows[id].customer)
    && (q.agent == None || q.agent == rows[id].agent)
    && id in distance && 1.0 - distance[id] >= q.minSimilarity
  }

  /** A search finds eligible rows only, nearest first and each once; and it leaves one out only for `top_k` others that
      are no farther. */
  lemma SearchFindsNearest(rows: map<Id, Memory>, distance: map<Id, real>, q: MemoryTable.Query)
    ensures var hits := MemoryTable.Hits(rows, distance, q);
      && |hits| <= q.topK
      && (forall id | id in hits :: Eligible(rows, distance, q, id))
      && (forall i, j | 0 <= i < j < |hits| ::
            hits[i] != hits[j] && hits[i] in distance && hits[j] in distance && distance[hits[i]] <= distance[hits[j]])
      && (forall id | Eligible(rows, distance, q, id) && id !in hits ::
            |hits| == q.topK && forall hit | hit in hits :: hit in distance && distance[hit] <= distance[id])
  {
    MemoryFacts.SearchCommutes(rows, distance, q);
    hide MemoryTable.Hits;
    var hits := MemoryTable.Hits(rows, distance, q);
    var near := map id |
        id in MemoryTable.Candidates(rows, distance, q) && MemoryTable.Similar(distance, id, q.minSimilarity) ::
      distance[id];
    forall id ensures id in near <==> Eligible(rows, distance, q, id) {}
    hide Eligible;
    NearestOf(near, q.topK, hits);
  }

  lemma NearestOf(near: map<Id, real>, k: nat, hits: seq<Id>)
    requires hits == MemoryTable.TopK(OrderBy(near), k)
    ensures |hits| <= k && forall id | id in hits :: id in near
    ensures forall i, j | 0 <= i < j < |hits| :: hits[i] != hits[j] && near[hits[i]] <= near[hits[j]]
    ensures forall id | id in near && id !in hits :: |hits| == k && forall hit | hit in hits :: near[hit] <= near[id]
  {
    var all := OrderBy(near);
    assert forall i | 0 <= i < |hits| :: hits[i] == all[i] && all[i] in all && all[i] in hits;
    assert forall i, j | 0 <= i < j < |all| :: Before(near, all[i], all[j]);
    forall id | id in near && id !in hits ensures |hits| == k && forall hit | hit in hits :: near[hit] <= near[id] {
      var n :| 0 <= n < |all| && all[n] == id;
    }
  }

  /** A search counts one access for each of its hits and changes nothing else; if the query cannot be embedded,
      nothing. */
  lemma SearchAnswers(db: Db, s: Settings, distance: map<Id, real>, q: MemoryTable.Query, embeds: bool)
    ensures var o, hits := Step(db, s, UseMemory(MemoryTable.SearchCall(distance, q), embeds)),
        MemoryTable.Hits(db.memories, distance, q);
      if !embeds then o == Outcome(db, Err(EmbeddingFailed))
      else
        && o.response == Ok(MemoryServed) && o.db == db.(memories := o.db.memories)
        && o.db.memories.Keys == db.memories.Keys
        && forall id | id in db.memories :: o.db.memories[id] ==
             db.memories[id].(accessCount := db.memories[id].accessCount + if id in hits then 1 else 0)
  {
    hide MemoryTable.Hits;
  }

  /** A forgotten or deleted memory is never found again, whatever calls follow. */
  lemma LostIsNeverFound(
    db: Db, s: Settings, c: Call, later: seq<Call>, id: Id, distance: map<Id, real>, q: MemoryTable.Query)
    requires Valid(db) && id in db.memories
    requires c in {UseMemory(MemoryTable.ForgetCall(db.memories[id].restaurant, id), true),
                   UseMemory(MemoryTable.DeleteCall(db.memories[id].restaurant, id), true)}
    ensures id !in MemoryTable.Hits(Run(Next(db, s, c), s, later).memories, distance, q)
  {
    var gone := Next(db, s, c);
    RowCallsAnswer(db, s, db.memories[id].restaurant, id, false, true);
    DoubleBooking.StepKeepsValid(db, s, c);
    StepFrame(db, s, c);
    assert gone == Step(db, s, c).db;
    assert id < gone.nextId && (id in gone.memories ==> !gone.memories[id].active);
    hide Next, Step, Run;
    MemoryFacts.RunKeepsStore(gone, s, later, id);
    SearchFindsNearest(Run(gone, s, later).memories, distance, q);
  }
}
