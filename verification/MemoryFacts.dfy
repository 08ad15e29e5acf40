/** The memories table refines a partial map from (restaurant, type, scope, topic) to a fact. */
module MemoryFacts {
  import opened Prelude
  import opened Schema
  import opened MemoryTable
  import System

  datatype Fact = Fact(content: string, importance: int, confidence: real)

  function FactOf(m: Memory): Fact {
    Fact(m.content, m.importance, m.confidence)
  }

  ghost function ActiveKeys(rows: map<Id, Memory>): set<Key> {
    set id | id in rows && rows[id].active :: KeyOf(rows[id])
  }

  ghost function Holder(rows: map<Id, Memory>, k: Key): Id
    requires k in ActiveKeys(rows)
    ensures Holder(rows, k) in rows && Holds(rows[Holder(rows, k)], k)
  {
    var id :| id in rows && rows[id].active && KeyOf(rows[id]) == k;
    id
  }

  /** What is currently remembered. */
  ghost function Facts(rows: map<Id, Memory>): map<Key, Fact> {
    map k | k in ActiveKeys(rows) :: FactOf(rows[Holder(rows, k)])
  }

  lemma FactAt(rows: map<Id, Memory>, id: Id)
    requires UniqueKeys(rows) && id in rows && rows[id].active
    ensures KeyOf(rows[id]) in Facts(rows) && Facts(rows)[KeyOf(rows[id])] == FactOf(rows[id])
  {
    assert KeyOf(rows[id]) in ActiveKeys(rows);
  }

  /** Two tables stand for the same facts at a key if the active rows there agree. */
  ghost predicate AgreeAt(rows: map<Id, Memory>, rows': map<Id, Memory>, k: Key) {
    && (forall i | i in rows && Holds(rows[i], k) ::
        i in rows' && Holds(rows'[i], k) && FactOf(rows'[i]) == FactOf(rows[i]))
    && (forall i | i in rows' && Holds(rows'[i], k) :: i in rows && Holds(rows[i], k))
  }

  lemma AgreeingFacts(rows: map<Id, Memory>, rows': map<Id, Memory>, k: Key)
    requires UniqueKeys(rows) && UniqueKeys(rows') && AgreeAt(rows, rows', k)
    ensures k in Facts(rows) <==> k in Facts(rows')
    ensures k in Facts(rows) ==> Facts(rows')[k] == Facts(rows)[k]
  {
    if k in ActiveKeys(rows) {
      FactAt(rows', Holder(rows, k));
      FactAt(rows, Holder(rows, k));
    }
    if k in ActiveKeys(rows') {
      FactAt(rows, Holder(rows', k));
    }
  }

  /** If two tables agree at every key but `k`, their facts differ at most there. */
  lemma FactsDifferAt(rows: map<Id, Memory>, rows': map<Id, Memory>, k: Key)
    requires UniqueKeys(rows) && UniqueKeys(rows')
    requires forall other | other != k :: AgreeAt(rows, rows', other)
    ensures k in Facts(rows') ==> Facts(rows') == Facts(rows)[k := Facts(rows')[k]]
    ensures k !in Facts(rows') ==> Facts(rows') == Facts(rows) - {k}
  {
    hide Facts;
    forall other: Key | other != k
      ensures other in Facts(rows) <==> other in Facts(rows')
      ensures other in Facts(rows) ==> Facts(rows')[other] == Facts(rows)[other]
    {
      AgreeingFacts(rows, rows', other);
    }
    MapsDifferAt(Facts(rows), Facts(rows'), k);
  }

  lemma NoFactAt(rows: map<Id, Memory>, k: Key)
    requires forall i | i in rows :: !Holds(rows[i], k)
    ensures k !in Facts(rows)
  {
  }

  /** `add_memory` is map update, with the confidence rounded to two decimals. */
  lemma AddIsUpdate(rows: map<Id, Memory>, id: Id, m: Memory)
    requires UniqueKeys(rows) && id !in rows && Add(rows, id, m).Ok?
    ensures UniqueKeys(Add(rows, id, m).value)
    ensures Facts(Add(rows, id, m).value) == Facts(rows)[KeyOf(m) := FactOf(Stored(m))]
  {
    hide Facts;
    var rows' := Add(rows, id, m).value;
    AddKeepsUniqueKeys(rows, id, m);
    FactsDifferAt(rows, rows', KeyOf(m));
    FactAt(rows', id);
  }

  /** `forget_memory` and `delete_memory` remove the fact; an inactive row holds none. */
  lemma ForgetIsRemoval(rows: map<Id, Memory>, restaurant: Id, id: Id)
    requires UniqueKeys(rows) && Found(rows, restaurant, id)
    ensures var forgotten, deleted := Forget(rows, restaurant, id).value, Delete(rows, restaurant, id).value;
      && UniqueKeys(forgotten) && UniqueKeys(deleted)
      && Facts(forgotten) == Facts(deleted) == if rows[id].active then Facts(rows) - {KeyOf(rows[id])} else Facts(rows)
  {
    hide Facts;
    var k := KeyOf(rows[id]);
    RemovalDropsKey(rows, Forget(rows, restaurant, id).value, id);
    RemovalDropsKey(rows, Delete(rows, restaurant, id).value, id);
  }

  /** Making row `id` inactive, or removing it, takes exactly the fact it held. */
  lemma RemovalDropsKey(rows: map<Id, Memory>, rows': map<Id, Memory>, id: Id)
    requires UniqueKeys(rows) && id in rows
    requires rows' == rows - {id} || rows' == rows[id := Deactivated(rows[id])]
    ensures UniqueKeys(rows')
    ensures Facts(rows') == if rows[id].active then Facts(rows) - {KeyOf(rows[id])} else Facts(rows)
  {
    hide Facts;
    var k := KeyOf(rows[id]);
    FactsDifferAt(rows, rows', k);
    if rows[id].active {
      NoFactAt(rows', k);
    } else {
      AgreeingFacts(rows, rows', k);
    }
  }

  /** `update_memory` on an active row moves its fact to the corrected key, and is refused for a collision exactly when
      that key belongs to another fact. */
  lemma UpdateIsRename(rows: map<Id, Memory>, restaurant: Id, id: Id, c: Correction)
    requires UniqueKeys(rows) && Found(rows, restaurant, id) && rows[id].active
    requires ImportanceValid(c.importance.GetOr(rows[id].importance))
    requires ConfidenceValid(c.confidence.GetOr(rows[id].confidence))
    ensures var updated := Update(rows, restaurant, id, c);
      var from, row := KeyOf(rows[id]), Corrected(rows[id], c);
      if KeyOf(row) != from && KeyOf(row) in Facts(rows) then updated == Err(ConstraintViolation)
      else updated.Ok? && UniqueKeys(updated.value)
           && Facts(updated.value) == (Facts(rows) - {from})[KeyOf(row) := FactOf(row)]
  {
    var row := Corrected(rows[id], c);
    CollisionMeansTaken(rows, id, KeyOf(row));
    hide Facts;
    if !KeyTaken(rows, id, KeyOf(row)) {
      var rows' := rows[id := row];
      var gone := rows - {id};
      RemovalDropsKey(rows, gone, id);
      FactsDifferAt(gone, rows', KeyOf(row));
      FactAt(rows', id);
    }
  }

  /** The unique index is violated exactly when the key is another row's fact. */
  lemma CollisionMeansTaken(rows: map<Id, Memory>, id: Id, k: Key)
    requires UniqueKeys(rows) && id in rows && rows[id].active
    ensures KeyTaken(rows, id, k) <==> k != KeyOf(rows[id]) && k in Facts(rows)
  {
    if k in ActiveKeys(rows) {
      assert Holds(rows[Holder(rows, k)], k);
    }
  }

  /** `reinforce_memory` changes only the confidence of the fact, to the raised value rounded to two decimals, and keeps
      it in [0, 1]. */
  lemma ReinforceIsUpdate(rows: map<Id, Memory>, restaurant: Id, id: Id, step: real)
    requires UniqueKeys(rows) && Reinforce(rows, restaurant, id, step).Ok?
    ensures var rows' := Reinforce(rows, restaurant, id, step).value;
      var k := KeyOf(rows[id]);
      && UniqueKeys(rows') && k in Facts(rows) && Facts(rows') == Facts(rows)[k := FactOf(rows'[id])]
      && FactOf(rows'[id]) == Facts(rows)[k].(confidence := rows'[id].confidence)
      && rows'[id].confidence
         == Hundredths(if rows[id].confidence + step < 1.0 then rows[id].confidence + step else 1.0)
      && 0.0 <= rows'[id].confidence <= 1.0
  {
    hide Facts;
    var rows' := Reinforce(rows, restaurant, id, step).value;
    FactsDifferAt(rows, rows', KeyOf(rows[id]));
    FactAt(rows, id);
    FactAt(rows', id);
  }

  // ---- runs ----

  /** In every state any run can reach, agents' memory calls and managers' decisions interleaved as they may be, active
      keys are unique, and no forgotten row has come back or changed, nor a deleted one's id been used again. */
  lemma {:induction false} RunKeepsStore(db: Db, s: Settings, calls: seq<System.Call>, id: Id)
    requires System.IdsUsed(db) && UniqueKeys(db.memories)
    ensures System.IdsUsed(System.Run(db, s, calls)) && UniqueKeys(System.Run(db, s, calls).memories)
    ensures id in db.memories ==> Frozen(db.memories, System.Run(db, s, calls).memories, id)
    ensures id < db.nextId && id !in db.memories ==> id !in System.Run(db, s, calls).memories
    decreases |calls|
  {
    if calls != [] {
      var db' := System.Next(db, s, calls[0]);
      System.StepKeepsMemoryTable(db, s, calls[0]);
      System.StepKeepsIds(db, s, calls[0]);
      System.StepFrame(db, s, calls[0]);
      System.MemoriesAreCounted(db, s, calls[0]);
      hide System.Next;
      RunKeepsStore(db', s, calls[1..], id);
    }
  }

  // ---- search ----

  /** Later rows are no nearer, so once one is too far all later ones are. */
  lemma {:induction false} FarTail(key: map<Id, real>, ids: seq<Id>, distance: map<Id, real>, least: real)
    requires forall id | id in ids :: id in key && id in distance && distance[id] == key[id]
    requires Ordered(key, ids) && ids != [] && !Similar(distance, ids[0], least)
    ensures SimilarOnly(ids, distance, least) == []
    decreases |ids|
  {
    if |ids| > 1 {
      assert Before(key, ids[0], ids[1]);
      assert ids[0] in ids && ids[1] in ids;
      FarTail(key, ids[1..], distance, least);
    }
  }

  lemma FarTop(key: map<Id, real>, ids: seq<Id>, distance: map<Id, real>, least: real, k: nat)
    requires forall id | id in ids :: id in key && id in distance && distance[id] == key[id]
    requires Ordered(key, ids) && ids != [] && !Similar(distance, ids[0], least)
    ensures SimilarOnly(TopK(ids, k), distance, least) == []
  {
    var near := TopK(ids, k);
    assert forall id | id in near :: id in ids;
    if near != [] {
      FarTail(key, near, distance, least);
    }
  }

  lemma TopKCons(id: Id, ids: seq<Id>, k: nat)
    requires k > 0
    ensures TopK([id] + ids, k) == [id] + TopK(ids, k - 1)
  {
  }

  lemma {:induction false} FilterCommutesWithTopK(key: map<Id, real>, ids: seq<Id>, distance: map<Id, real>,
      least: real, k: nat)
    requires forall id | id in ids :: id in key && id in distance && distance[id] == key[id]
    requires Ordered(key, ids)
    ensures SimilarOnly(TopK(ids, k), distance, least) == TopK(SimilarOnly(ids, distance, least), k)
    decreases |ids|
  {
    if ids != [] && k > 0 {
      if Similar(distance, ids[0], least) {
        assert ids == [ids[0]] + ids[1..];
        TopKCons(ids[0], ids[1..], k);
        hide TopK;
        FilterCommutesWithTopK(key, ids[1..], distance, least, k - 1);
        TopKCons(ids[0], SimilarOnly(ids[1..], distance, least), k);
      } else {
        FarTail(key, ids, distance, least);
        FarTop(key, ids, distance, least, k);
      }
    } else if ids != [] {
      assert TopK(ids, 0) == [];
    }
  }

  lemma {:induction false} SimilarOnlySelects(key: map<Id, real>, ids: seq<Id>, distance: map<Id, real>, least: real)
    requires forall id | id in ids :: id in key
    requires Ordered(key, ids)
    ensures forall id :: id in SimilarOnly(ids, distance, least) <==> id in ids && Similar(distance, id, least)
    ensures Ordered(key, SimilarOnly(ids, distance, least))
    decreases |ids|
  {
    if ids != [] {
      SimilarOnlySelects(key, ids[1..], distance, least);
      var rest := SimilarOnly(ids[1..], distance, least);
      forall i | 0 <= i < |rest| ensures Before(key, ids[0], rest[i]) {
        assert rest[i] in rest;
      }
    }
  }

  /** Cutting off at `top_k` and then at the threshold gives the `top_k` nearest of the rows above the threshold. */
  lemma SearchCommutes(rows: map<Id, Memory>, distance: map<Id, real>, q: Query)
    ensures var near := map id | id in Candidates(rows, distance, q) && Similar(distance, id, q.minSimilarity) ::
        distance[id];
      Hits(rows, distance, q) == TopK(OrderBy(near), q.topK)
  {
    var all := Candidates(rows, distance, q);
    var near := map id | id in all && Similar(distance, id, q.minSimilarity) :: distance[id];
    FilterCommutesWithTopK(all, OrderBy(all), distance, q.minSimilarity, q.topK);
    SimilarOnlySelects(all, OrderBy(all), distance, q.minSimilarity);
    OrderedIsUnique(all, SimilarOnly(OrderBy(all), distance, q.minSimilarity), OrderBy(near));
  }

  /** Results come in non-increasing similarity, without repetition, and there are at most `top_k` of them. */
  lemma HitsAreRanked(rows: map<Id, Memory>, distance: map<Id, real>, q: Query)
    ensures var hits := Hits(rows, distance, q);
      && |hits| <= q.topK
      && (forall id | id in hits :: id in rows && Matches(rows[id], q) && Similar(distance, id, q.minSimilarity))
      && (forall i, j | 0 <= i < j < |hits| :: hits[i] != hits[j] && hits[i] in distance && hits[j] in distance
            && 1.0 - distance[hits[j]] <= 1.0 - distance[hits[i]])
  {
    SearchCommutes(rows, distance, q);
    hide Hits, OrderBy;
    var hits := Hits(rows, distance, q);
    var near := map id | id in Candidates(rows, distance, q) && Similar(distance, id, q.minSimilarity) :: distance[id];
    assert hits == TopK(OrderBy(near), q.topK);
    assert forall i | 0 <= i < |hits| :: hits[i] == OrderBy(near)[i];
    forall i | 0 <= i < |hits| ensures hits[i] in near {
      assert OrderBy(near)[i] in OrderBy(near);
    }
    assert forall i, j | 0 <= i < j < |hits| :: Before(near, OrderBy(near)[i], OrderBy(near)[j]);
  }

  /** A search gives exactly its hits one access more, and does not change what is remembered. */
  lemma SearchReadsOnly(rows: map<Id, Memory>, distance: map<Id, real>, q: Query)
    requires UniqueKeys(rows)
    ensures var rows' := AfterSearch(rows, Hits(rows, distance, q));
      && rows'.Keys == rows.Keys
      && (forall id | id in rows :: rows'[id] ==
            rows[id].(accessCount := rows[id].accessCount + if id in Hits(rows, distance, q) then 1 else 0))
      && Facts(rows') == Facts(rows)
  {
    hide Hits, Facts;
    var rows' := AfterSearch(rows, Hits(rows, distance, q));
    forall k: Key
      ensures k in Facts(rows) <==> k in Facts(rows')
      ensures k in Facts(rows) ==> Facts(rows')[k] == Facts(rows)[k]
    {
      AgreeingFacts(rows, rows', k);
    }
    assert Facts(rows').Keys == Facts(rows).Keys;
  }
}
