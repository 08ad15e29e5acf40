/** What `MemoryService` computes on the memories table, and the partial map of facts that table stands for. */
module MemoryTable {
  import opened Prelude
  import opened Schema

  datatype Key = Key(restaurant: Id, kind: MemoryType, scope: string, topic: string)

  /** The generated `scope_key` column: one text, be it a customer's id, an agent's name or the word "restaurant". */
  function ScopeKey(customer: Option<Id>, agent: Option<string>): string {
    match customer
    case Some(c) => Digits(c)
    case None => agent.GetOr("restaurant")
  }

  function KeyOf(m: Memory): Key {
    Key(m.restaurant, m.kind, ScopeKey(m.customer, m.agent), m.topic)
  }

  predicate Holds(m: Memory, k: Key) {
    m.active && KeyOf(m) == k
  }

  /** The partial unique index over active rows. */
  ghost predicate UniqueKeys(rows: map<Id, Memory>) {
    forall i, j | i in rows && j in rows && rows[i].active && rows[j].active ::
      KeyOf(rows[i]) == KeyOf(rows[j]) ==> i == j
  }

  predicate ImportanceValid(importance: int) {
    1 <= importance <= 5
  }

  predicate ConfidenceValid(confidence: real) {
    0.0 <= confidence <= 1.0
  }

  /** The column's two decimals, rounded half to even. */
  function Hundredths(x: real): real {
    var n := (x * 100.0).Floor;
    var over := x * 100.0 - n as real;
    (if over < 0.5 || (over == 0.5 && n % 2 == 0) then n else n + 1) as real / 100.0
  }

  lemma RoundingStaysInRange(x: real)
    ensures ConfidenceValid(x) ==> ConfidenceValid(Hundredths(x))
    ensures -0.005 <= Hundredths(x) - x <= 0.005
  {
  }

  /** What is stored for a new memory. */
  function Stored(m: Memory): Memory {
    m.(active := true, accessCount := 0, confidence := Hundredths(m.confidence))
  }

  function Deactivated(m: Memory): Memory {
    m.(active := false)
  }

  /** Every row that holds the key is set inactive; the unique index lets there be at most one. */
  function Superseded(rows: map<Id, Memory>, k: Key): map<Id, Memory> {
    map i | i in rows :: if Holds(rows[i], k) then Deactivated(rows[i]) else rows[i]
  }

  function Add(rows: map<Id, Memory>, id: Id, m: Memory): Result<map<Id, Memory>, Error> {
    if !ImportanceValid(m.importance) then Err(InvalidImportance)
    else if !ConfidenceValid(m.confidence) then Err(InvalidConfidence)
    else Ok(Superseded(rows, KeyOf(m))[id := Stored(m)])
  }

  predicate Found(rows: map<Id, Memory>, restaurant: Id, id: Id) {
    id in rows && rows[id].restaurant == restaurant
  }

  datatype Correction = Correction(
    content: Option<string>, topic: Option<string>, importance: Option<int>, confidence: Option<real>)

  function Corrected(m: Memory, c: Correction): Memory {
    m.(content := c.content.GetOr(m.content), topic := c.topic.GetOr(m.topic),
       importance := c.importance.GetOr(m.importance),
       confidence := if c.confidence.Some? then Hundredths(c.confidence.value) else m.confidence)
  }

  /** Another active row already holds the key. */
  predicate KeyTaken(rows: map<Id, Memory>, id: Id, k: Key) {
    exists j | j in rows :: j != id && Holds(rows[j], k)
  }

  function Update(rows: map<Id, Memory>, restaurant: Id, id: Id, c: Correction): Result<map<Id, Memory>, Error> {
    if !Found(rows, restaurant, id) then Err(MemoryNotFound)
    else if !rows[id].active then Err(MemoryInactive)
    else
      var row := Corrected(rows[id], c);
      var checked := c.importance.Some? || c.confidence.Some?;
      if checked && !ImportanceValid(row.importance) then Err(InvalidImportance)
      else if checked && !ConfidenceValid(c.confidence.GetOr(row.confidence)) then Err(InvalidConfidence)
      else if KeyTaken(rows, id, KeyOf(row)) then Err(ConstraintViolation)
      else Ok(rows[id := row])
  }

  function Touched(m: Memory): Memory {
    m.(accessCount := m.accessCount + 1)
  }

  function Reinforce(rows: map<Id, Memory>, restaurant: Id, id: Id, step: real): Result<map<Id, Memory>, Error> {
    if !Found(rows, restaurant, id) then Err(MemoryNotFound)
    else if !rows[id].active then Err(MemoryInactive)
    else
      var raised := rows[id].confidence + step;
      var confidence := Hundredths(if raised < 1.0 then raised else 1.0);
      if !ConfidenceValid(confidence) then Err(ConstraintViolation)
      else Ok(rows[id := Touched(rows[id].(confidence := confidence))])
  }

  function Forget(rows: map<Id, Memory>, restaurant: Id, id: Id): Result<map<Id, Memory>, Error> {
    if !Found(rows, restaurant, id) then Err(MemoryNotFound)
    else Ok(rows[id := Deactivated(rows[id])])
  }

  function Delete(rows: map<Id, Memory>, restaurant: Id, id: Id): Result<map<Id, Memory>, Error> {
    if !Found(rows, restaurant, id) then Err(MemoryNotFound)
    else Ok(rows - {id})
  }

  function Get(rows: map<Id, Memory>, restaurant: Id, id: Id, touch: bool): Result<map<Id, Memory>, Error> {
    if !Found(rows, restaurant, id) then Err(MemoryNotFound)
    else Ok(if touch then rows[id := Touched(rows[id])] else rows)
  }

  // ---- search ----

  datatype Query = Query(
    restaurant: Id, kind: Option<MemoryType>, customer: Option<Id>, agent: Option<string>,
    topK: nat, minSimilarity: real)

  predicate Matches(m: Memory, q: Query) {
    && m.restaurant == q.restaurant && m.active
    && (q.kind.Some? ==> q.kind.value == m.kind)
    && (q.customer.Some? ==> m.customer == q.customer)
    && (q.agent.Some? ==> m.agent == q.agent)
  }

  /** The rows the query selects, with their cosine distance; rows without an embedding have none. */
  function Candidates(rows: map<Id, Memory>, distance: map<Id, real>, q: Query): map<Id, real> {
    map id | id in rows && id in distance && Matches(rows[id], q) :: distance[id]
  }

  predicate Similar(distance: map<Id, real>, id: Id, least: real) {
    id in distance && 1.0 - distance[id] >= least
  }

  function TopK(ids: seq<Id>, k: nat): seq<Id> {
    if |ids| <= k then ids else ids[..k]
  }

  function SimilarOnly(ids: seq<Id>, distance: map<Id, real>, least: real): seq<Id> {
    if ids == [] then []
    else (if Similar(distance, ids[0], least) then [ids[0]] else []) + SimilarOnly(ids[1..], distance, least)
  }

  /** The `top_k` nearest rows, less those below the similarity threshold. */
  function Hits(rows: map<Id, Memory>, distance: map<Id, real>, q: Query): seq<Id> {
    SimilarOnly(TopK(OrderBy(Candidates(rows, distance, q)), q.topK), distance, q.minSimilarity)
  }

  /** Every hit is touched. */
  function AfterSearch(rows: map<Id, Memory>, hits: seq<Id>): map<Id, Memory> {
    map id | id in rows :: if id in hits then Touched(rows[id]) else rows[id]
  }

  // ---- the calls ----

  datatype MemoryCall =
    | AddCall(memory: Memory)
    | UpdateCall(restaurant: Id, id: Id, correction: Correction)
    | ReinforceCall(restaurant: Id, id: Id, step: real)
    | ForgetCall(restaurant: Id, id: Id)
    | DeleteCall(restaurant: Id, id: Id)
    | GetCall(restaurant: Id, id: Id, touch: bool)
    | SearchCall(distance: map<Id, real>, query: Query)

  /** The new row names a customer there is not, which its foreign key refuses. */
  predicate Dangling(customers: set<Id>, m: Memory) {
    m.customer.Some? && m.customer.value !in customers
  }

  /** The rows a call writes, `id` being the next free id, if every text it has embedded can be. */
  function Written(rows: map<Id, Memory>, customers: set<Id>, id: Id, c: MemoryCall): Result<map<Id, Memory>, Error> {
    match c
    case AddCall(m) =>
      var added := Add(rows, id, m);
      if added.Ok? && Dangling(customers, m) then Err(ConstraintViolation) else added
    case UpdateCall(r, i, correction) => Update(rows, r, i, correction)
    case ReinforceCall(r, i, step) => Reinforce(rows, r, i, step)
    case ForgetCall(r, i) => Forget(rows, r, i)
    case DeleteCall(r, i) => Delete(rows, r, i)
    case GetCall(r, i, touch) => Get(rows, r, i, touch)
    case SearchCall(distance, q) => Ok(AfterSearch(rows, Hits(rows, distance, q)))
  }

  predicate NeedsEmbedding(c: MemoryCall) {
    c.AddCall? || c.SearchCall? || (c.UpdateCall? && (c.correction.content.Some? || c.correction.topic.Some?))
  }

  datatype Served = Served(rows: map<Id, Memory>, failure: Option<Error>)

  /** What a call leaves. An update assigns the row's fields before it embeds the new text: if that fails, the tool
      reports an error, and the session still writes the row with its next statement unless the index refuses it. */
  function Serve(rows: map<Id, Memory>, customers: set<Id>, id: Id, c: MemoryCall, embeds: bool): Served {
    var written := Written(rows, customers, id, c);
    if !embeds && NeedsEmbedding(c) && (written.Ok? || written.error == ConstraintViolation) then
      Served(if c.UpdateCall? && written.Ok? then written.value else rows, Some(EmbeddingFailed))
    else
      match written
      case Ok(rows') => Served(rows', None)
      case Err(e) => Served(rows, Some(e))
  }

  /** A forgotten row may be counted as read or deleted, and nothing else ever happens to it. */
  predicate Frozen(rows: map<Id, Memory>, rows': map<Id, Memory>, id: Id)
    requires id in rows
  {
    !rows[id].active && id in rows' ==> rows'[id] == rows[id].(accessCount := rows'[id].accessCount)
  }

  /** The call corrects the text of a memory but cannot embed the new one. */
  predicate HalfUpdates(rows: map<Id, Memory>, c: MemoryCall, embeds: bool) {
    && c.UpdateCall? && !embeds && NeedsEmbedding(c) && Update(rows, c.restaurant, c.id, c.correction).Ok?
    && Corrected(rows[c.id], c.correction) != rows[c.id]
  }

  /** A call that fails leaves the rows as they were unless it is half an update. */
  lemma FailedServeChangesNothing(
    rows: map<Id, Memory>, customers: set<Id>, id: Id, c: MemoryCall, embeds: bool)
    requires Serve(rows, customers, id, c, embeds).failure.Some?
    ensures Serve(rows, customers, id, c, embeds).rows == rows <==> !HalfUpdates(rows, c, embeds)
  {
    hide Add, AfterSearch, Hits, Reinforce, Hundredths, KeyOf;
    if c.UpdateCall? && Update(rows, c.restaurant, c.id, c.correction).Ok? {
      assert rows[c.id := Corrected(rows[c.id], c.correction)][c.id] == Corrected(rows[c.id], c.correction);
    }
  }

  /** Only an add that succeeds adds a row. */
  lemma CallAddsAtMost(
    rows: map<Id, Memory>, customers: set<Id>, id: Id, c: MemoryCall, embeds: bool)
    requires id !in rows
    ensures var served := Serve(rows, customers, id, c, embeds);
      && served.rows.Keys <= rows.Keys + {id}
      && (id in served.rows ==> c.AddCall? && served.failure.None?)
  {
    hide OrderBy, SimilarOnly, TopK, Candidates, Hundredths, KeyOf;
  }

  /** Every call keeps active keys unique, and leaves inactive rows frozen. */
  lemma CallKeepsTable(
    rows: map<Id, Memory>, customers: set<Id>, id: Id, c: MemoryCall, embeds: bool)
    requires UniqueKeys(rows) && id !in rows
    ensures var rows' := Serve(rows, customers, id, c, embeds).rows;
      && UniqueKeys(rows')
      && forall i | i in rows :: Frozen(rows, rows', i)
  {
    if c.AddCall? && Add(rows, id, c.memory).Ok? {
      AddKeepsUniqueKeys(rows, id, c.memory);
    }
  }

  lemma AddKeepsUniqueKeys(rows: map<Id, Memory>, id: Id, m: Memory)
    requires UniqueKeys(rows) && id !in rows && Add(rows, id, m).Ok?
    ensures UniqueKeys(Add(rows, id, m).value)
  {
  }
}
