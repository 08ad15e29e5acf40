/** `MemoryService` over the shared session, method by method proved to do what `MemoryTable` prescribes. */
module Memories {
  import opened Prelude
  import opened Schema
  import opened Sessions
  import opened MemoryTable

  class MemoryService {
    const session: Session

    constructor (session: Session)
      ensures this.session == session
    {
      this.session := session;
    }

    /** The active row with the key; the unique index lets there be at most one. */
    method FindActive(k: Key) returns (found: Option<Id>)
      ensures found.Some? ==> found.value in session.memories && Holds(session.memories[found.value], k)
      ensures found.None? ==> forall id | id in session.memories :: !Holds(session.memories[id], k)
    {
      var rows := session.memories;
      var selected := set id | id in rows && Holds(rows[id], k);
      if selected == {} {
        assert forall id | id in rows && Holds(rows[id], k) :: id in selected;
        return None;
      }
      var id :| id in selected;
      found := Some(id);
    }

    /** Deactivates the row that holds the key, if any, and inserts the new one. If the insert fails, the session is
        left with the old row deactivated. */
    method AddMemory(m: Memory, fault: Option<MemoryFault>) returns (r: Result<Id, Error>)
      requires session.KeysUnique()
      modifies session
      ensures var db, id := old(session.Snapshot()), old(session.nextId);
        var after := Add(db.memories, id, m);
        if after.Err? then r == Err(after.error) && session.Snapshot() == db
        else if fault == Some(EmbeddingFails) then r == Err(EmbeddingFailed) && session.Snapshot() == db
        else if fault == Some(StoreFails) then
          r == Err(Unexpected) && session.Snapshot() == db.(memories := Superseded(db.memories, KeyOf(m)))
        else if Dangling(db.customers.Keys, m) then
          r == Err(ConstraintViolation) && session.Snapshot() == db.(memories := Superseded(db.memories, KeyOf(m)))
        else r == Ok(id) && session.Snapshot() == db.(memories := after.value, nextId := id + 1)
    {
      if !ImportanceValid(m.importance) {
        return Err(InvalidImportance);
      }
      if !ConfidenceValid(m.confidence) {
        return Err(InvalidConfidence);
      }
      if fault == Some(EmbeddingFails) {
        return Err(EmbeddingFailed);
      }
      var existing := FindActive(KeyOf(m));
      if existing.Some? {
        session.memories := session.memories[existing.value := Deactivated(session.memories[existing.value])];
      }
      assert session.memories == Superseded(old(session.memories), KeyOf(m));
      if fault == Some(StoreFails) {
        return Err(Unexpected);
      }
      if m.customer.Some? && m.customer.value !in session.customers {
        return Err(ConstraintViolation);
      }
      var id := session.FreshId();
      session.memories := session.memories[id :=
          m.(active := true, accessCount := 0, confidence := Hundredths(m.confidence))];
      r := Ok(id);
    }

    /** Asks for the nearest rows, skips those that are not similar enough and touches the others. */
    method SearchMemory(distance: map<Id, real>, q: Query, embeds: bool) returns (r: Result<seq<Id>, Error>)
      modifies session`memories
      ensures if embeds then r == Ok(Hits(old(session.memories), distance, q)) else r == Err(EmbeddingFailed)
      ensures session.memories ==
        if embeds then AfterSearch(old(session.memories), r.value) else old(session.memories)
    {
      if !embeds {
        return Err(EmbeddingFailed);
      }
      hide AfterSearch;
      ghost var rows := session.memories;
      NothingTouchedYet(rows);
      var nearest := TopK(OrderBy(Candidates(session.memories, distance, q)), q.topK);
      assert Distinct(nearest) && forall id | id in nearest :: id in rows by {
        HitsComeFromTable(rows, distance, q);
      }
      var results := [];
      for i := 0 to |nearest|
        invariant results == SimilarOnly(nearest[..i], distance, q.minSimilarity)
        invariant forall id | id in results :: id in nearest[..i]
        invariant session.memories == AfterSearch(rows, results)
      {
        var id := nearest[i];
        SimilarOnlyAppends(nearest[..i], id, distance, q.minSimilarity);
        assert nearest[..i + 1] == nearest[..i] + [id];
        if id in distance && 1.0 - distance[id] >= q.minSimilarity {
          TouchOneMore(rows, results, id);
          session.memories := session.memories[id := Touched(session.memories[id])];
          results := results + [id];
        }
      }
      assert nearest[..|nearest|] == nearest;
      r := Ok(results);
    }

    method GetMemory(restaurant: Id, id: Id, touch: bool) returns (r: Result<Memory, Error>)
      modifies session`memories
      ensures var after := Get(old(session.memories), restaurant, id, touch);
        if after.Err? then r == Err(after.error) && session.memories == old(session.memories)
        else session.memories == after.value && r == Ok(after.value[id])
    {
      if !Found(session.memories, restaurant, id) {
        return Err(MemoryNotFound);
      }
      if touch {
        session.memories := session.memories[id := Touched(session.memories[id])];
      }
      r := Ok(session.memories[id]);
    }

    /** Assigns the row's fields, embeds a changed text and saves. A text that cannot be embedded leaves the assigned
        fields in the session; a key that is taken is refused when the row is saved, which rolls them back. */
    method UpdateMemory(restaurant: Id, id: Id, c: Correction, embeds: bool) returns (r: Result<Memory, Error>)
      modifies session`memories
      ensures var rows, after := old(session.memories), Update(old(session.memories), restaurant, id, c);
        if !embeds && (c.content.Some? || c.topic.Some?) && (after.Ok? || after.error == ConstraintViolation) then
          r == Err(EmbeddingFailed) && session.memories == rows[id := Corrected(rows[id], c)]
        else if after.Err? then r == Err(after.error) && session.memories == rows
        else session.memories == after.value && r == Ok(after.value[id])
    {
      if !Found(session.memories, restaurant, id) {
        return Err(MemoryNotFound);
      }
      var saved := session.memories;
      var row := session.memories[id];
      if !row.active {
        return Err(MemoryInactive);
      }
      if c.importance.Some? || c.confidence.Some? {
        if !ImportanceValid(c.importance.GetOr(row.importance)) {
          return Err(InvalidImportance);
        }
        if !ConfidenceValid(c.confidence.GetOr(row.confidence)) {
          return Err(InvalidConfidence);
        }
      }
      if c.content.Some? {
        row := row.(content := c.content.value);
      }
      if c.topic.Some? {
        row := row.(topic := c.topic.value);
      }
      if c.importance.Some? {
        row := row.(importance := c.importance.value);
      }
      if c.confidence.Some? {
        row := row.(confidence := Hundredths(c.confidence.value));
      }
      session.memories := session.memories[id := row];
      if (c.content.Some? || c.topic.Some?) && !embeds {
        return Err(EmbeddingFailed);
      }
      if KeyTaken(saved, id, KeyOf(row)) {
        session.memories := saved;
        return Err(ConstraintViolation);
      }
      r := Ok(row);
    }

    method ReinforceMemory(restaurant: Id, id: Id, step: real) returns (r: Result<Memory, Error>)
      modifies session`memories
      ensures var after := Reinforce(old(session.memories), restaurant, id, step);
        if after.Err? then r == Err(after.error) && session.memories == old(session.memories)
        else session.memories == after.value && r == Ok(after.value[id])
    {
      if !Found(session.memories, restaurant, id) {
        return Err(MemoryNotFound);
      }
      var row := session.memories[id];
      if !row.active {
        return Err(MemoryInactive);
      }
      var raised := row.confidence + step;
      row := row.(confidence := Hundredths(if raised < 1.0 then raised else 1.0));
      if !ConfidenceValid(row.confidence) {
        return Err(ConstraintViolation);
      }
      session.memories := session.memories[id := Touched(row)];
      r := Ok(session.memories[id]);
    }

    method ForgetMemory(restaurant: Id, id: Id) returns (r: Result<Memory, Error>)
      modifies session`memories
      ensures var after := Forget(old(session.memories), restaurant, id);
        if after.Err? then r == Err(after.error) && session.memories == old(session.memories)
        else session.memories == after.value && r == Ok(after.value[id])
    {
      if !Found(session.memories, restaurant, id) {
        return Err(MemoryNotFound);
      }
      session.memories := session.memories[id := Deactivated(session.memories[id])];
      r := Ok(session.memories[id]);
    }

    method DeleteMemory(restaurant: Id, id: Id) returns (r: Result<(), Error>)
      modifies session`memories
      ensures var after := Delete(old(session.memories), restaurant, id);
        if after.Err? then r == Err(after.error) && session.memories == old(session.memories)
        else session.memories == after.value && r == Ok(())
    {
      if !Found(session.memories, restaurant, id) {
        return Err(MemoryNotFound);
      }
      session.memories := session.memories - {id};
      r := Ok(());
    }
  }

  lemma NothingTouchedYet(rows: map<Id, Memory>)
    ensures AfterSearch(rows, []) == rows
  {
  }

  lemma TouchOneMore(rows: map<Id, Memory>, hits: seq<Id>, id: Id)
    requires id in rows && id !in hits
    ensures AfterSearch(rows, hits).Keys == rows.Keys
    ensures AfterSearch(rows, hits + [id]) == AfterSearch(rows, hits)[id := Touched(AfterSearch(rows, hits)[id])]
  {
  }

  predicate Distinct(ids: seq<Id>) {
    forall i, j | 0 <= i < j < |ids| :: ids[i] != ids[j]
  }

  /** The rows a search looks at are distinct rows of the table. */
  lemma HitsComeFromTable(rows: map<Id, Memory>, distance: map<Id, real>, q: Query)
    ensures var nearest := TopK(OrderBy(Candidates(rows, distance, q)), q.topK);
      Distinct(nearest) && forall id | id in nearest :: id in rows
  {
    var key := Candidates(rows, distance, q);
    var all := OrderBy(key);
    assert forall i | 0 <= i < |all| :: all[i] in all;
    assert forall i, j | 0 <= i < j < |all| :: Before(key, all[i], all[j]);
  }

  lemma {:induction false} SimilarOnlyAppends(ids: seq<Id>, id: Id, distance: map<Id, real>, least: real)
    ensures SimilarOnly(ids + [id], distance, least)
         == SimilarOnly(ids, distance, least) + if Similar(distance, id, least) then [id] else []
    ensures forall other | other in SimilarOnly(ids, distance, least) :: other in ids
    decreases |ids|
  {
    if ids != [] {
      assert (ids + [id])[1..] == ids[1..] + [id];
      SimilarOnlyAppends(ids[1..], id, distance, least);
    }
  }
}
