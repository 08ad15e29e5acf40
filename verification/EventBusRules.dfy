/** What publishing does to the events table, told on row fields, and that what handlers publish is published. */
module EventBusRules {
  import opened Prelude
  import opened EventBus

  /** One of the twelve event types. */
  predicate Known(kind: string) {
    kind in {
      "reservation.created", "reservation.modified", "reservation.cancelled", "inventory.updated", "inventory.low",
      "purchase.requested", "purchase.approved", "purchase.rejected", "customer.updated", "staffing.shortage_detected",
      "approval.created", "approval.completed"}
  }

  /** The restaurant has an event with that key. */
  ghost predicate Taken(b: Bus, restaurant: Id, key: Option<string>) {
    key.Some? && exists id | id in b.rows :: b.rows[id].restaurant == restaurant && b.rows[id].key == key
  }

  /** The handler returns on that attempt, and publishes nothing of an unknown type; attempts beyond those listed just
      return. */
  predicate Returns(p: Publication, h: nat, k: nat) {
    h < |p.reactions| && k < |p.reactions[h].attempts| ==>
      var a := p.reactions[h].attempts[k];
      a.completes && forall i | 0 <= i < |a.publishes| :: Known(a.publishes[i].kind)
  }

  lemma ReturningSucceeds(p: Publication, h: nat, k: nat)
    ensures Returns(p, h, k) <==> Succeeds(AttemptOf(p, h, k))
  {
  }

  lemma TakenIsDuplicate(b: Bus, p: Publication)
    ensures Taken(b, p.restaurant, p.key) <==> Duplicate(b, p)
  {
    if id :| p.key.Some? && id in b.rows && b.rows[id].restaurant == p.restaurant && b.rows[id].key == p.key {
      assert HasKey(b.rows[id], p.restaurant, p.key.value);
    }
  }

  /** The names of the handlers subscribed to the type, in order. */
  function Subscribed(c: Config, kind: string): seq<string> {
    if kind in c.handlers then c.handlers[kind] else []
  }

  /** An event of an unknown type or with a taken key changes nothing; any other is one new row with its type,
      restaurant and key, handled, with a result for exactly its handlers: a success if one of the attempts allowed
      returned. */
  lemma PublishAnswers(c: Config, b: Bus, p: Publication)
    requires ValidBus(b)
    ensures var b', names := Publish(c, b, p), Subscribed(c, p.kind);
      if !Known(p.kind) || Taken(b, p.restaurant, p.key) then b' == b
      else
        && b.nextId in b'.rows && b.nextId < b'.nextId
        && var row := b'.rows[b.nextId];
           && row.kind == p.kind && row.restaurant == p.restaurant && row.key == p.key && row.handled
           && (forall name :: name in row.results <==> name in names)
           && forall h | 0 <= h < |names| && (forall i | h < i < |names| :: names[i] != names[h]) ::
                && names[h] in row.results
                && (row.results[names[h]] == Success <==> exists k: nat :: k <= c.retries && Returns(p, h, k))
  {
    TakenIsDuplicate(b, p);
    if Known(p.kind) && !Taken(b, p.restaurant, p.key) {
      PublishGrows(c, Stored(b, p), p);
      StoringKeepsValid(b, p);
      DispatchGrows(c, Stored(b, p), p, b.nextId, 0);
      FirstPublishReachesEveryHandler(c, b, p);
      ResultsAreNamed(p, Subscribed(c, p.kind), c.retries);
      forall h: nat, k: nat ensures Returns(p, h, k) <==> Succeeds(AttemptOf(p, h, k)) {
        ReturningSucceeds(p, h, k);
      }
    }
    hide DispatchFrom, ResultsOf, CallsFrom, CallsFor, ValidBus, Succeeds, AttemptOf, Returns, Taken, Duplicate;
  }

  lemma {:induction false} ResultsAreNamed(p: Publication, names: seq<string>, retries: nat)
    ensures forall name :: name in ResultsOf(p, names, retries) <==> name in names
    decreases |names|
  {
    if names != [] {
      ResultsAreNamed(p, names[..|names| - 1], retries);
      assert names == names[..|names| - 1] + [names[|names| - 1]];
    }
  }

  // ---- what handlers publish ----

  ghost predicate RowsStay(b: Bus, b': Bus) {
    b.nextId <= b'.nextId && forall id | id in b.rows :: id in b'.rows && b'.rows[id] == b.rows[id]
  }

  /** The rows are still there, all but the one of `event` unchanged, and that one with its restaurant and key. */
  ghost predicate Lasts(b: Bus, b': Bus, event: Id) {
    forall id | id in b.rows ::
      && id in b'.rows && b'.rows[id].restaurant == b.rows[id].restaurant && b'.rows[id].key == b.rows[id].key
      && (id != event ==> b'.rows[id] == b.rows[id])
  }

  lemma GrowingKeepsRows(b: Bus, b': Bus)
    requires Grows(b, b')
    ensures RowsStay(b, b')
  {
  }

  lemma AddingKeepsRows(b: Bus, b': Bus, event: Id, calls: seq<Dispatch>)
    requires Adds(b, b', event, calls)
    ensures RowsStay(b, b') && ValidBus(b')
  {
  }

  /** The bus once attempt `a` has made its publications up to and including the `i`-th. */
  function AfterPublication(c: Config, b: Bus, a: Attempt, i: nat): Bus
    requires i < |a.publishes|
  {
    Publish(c, BeforePublication(c, b, a, i), a.publishes[i])
  }

  lemma AttemptGoesOn(c: Config, b: Bus, a: Attempt, i: nat)
    requires i < |a.publishes| && forall j | 0 <= j <= i :: a.publishes[j].kind in EVENT_TYPES
    ensures PublishEach(c, b, a, 0) == PublishEach(c, AfterPublication(c, b, a, i), a, i + 1)
  {
    AttemptPassesPublications(c, b, a, i);
    hide Publish, BeforePublication;
  }

  lemma PublicationKeepsValid(c: Config, b: Bus, a: Attempt, i: nat)
    requires ValidBus(b) && i < |a.publishes|
    ensures ValidBus(AfterPublication(c, b, a, i))
  {
    PublicationsKeepKeys(c, b, a, i);
    PublishGrows(c, BeforePublication(c, b, a, i), a.publishes[i]);
    hide Publish, BeforePublication, ValidBus, CallsFor;
  }

  lemma HandlingPublishes(c: Config, b: Bus, p: Publication, h: nat, k: nat)
    requires h < |p.reactions| && k < |p.reactions[h].attempts|
    ensures Handle(c, b, p, h, k) == PublishEach(c, b, p.reactions[h].attempts[k], 0)
  {
    hide PublishEach;
  }

  lemma RestOfAttempt(c: Config, b: Bus, p: Publication, h: nat, k: nat, i: nat)
    requires ValidBus(b) && h < |p.reactions| && k < |p.reactions[h].attempts|
    requires var a := p.reactions[h].attempts[k];
      i < |a.publishes| && forall j | 0 <= j <= i :: a.publishes[j].kind in EVENT_TYPES
    ensures RowsStay(AfterPublication(c, b, p.reactions[h].attempts[k], i), Handle(c, b, p, h, k))
  {
    hide *;
    var a := p.reactions[h].attempts[k];
    HandlingPublishes(c, b, p, h, k);
    AttemptGoesOn(c, b, a, i);
    PublicationKeepsValid(c, b, a, i);
    EachGrows(c, AfterPublication(c, b, a, i), a, i + 1);
    GrowingKeepsRows(AfterPublication(c, b, a, i), PublishEach(c, AfterPublication(c, b, a, i), a, i + 1));
  }

  lemma RestOfHandler(c: Config, b: Bus, p: Publication, event: Id, h: nat, k: nat)
    requires ValidBus(b) && event < b.nextId && k <= c.retries && forall j: nat | j < k :: !Succeeds(AttemptOf(p, h, j))
    ensures ValidBus(RetryFrom(c, b, p, event, h, 0)) && b.nextId <= RetryFrom(c, b, p, event, h, 0).nextId
    ensures RowsStay(Handle(c, AtAttempt(c, b, p, event, h, k), p, h, k), RetryFrom(c, b, p, event, h, 0))
  {
    var called := AtAttempt(c, b, p, event, h, k);
    AttemptsKeepKeys(c, b, p, event, h, k);
    HandleGrows(c, called, p, h, k);
    var tried := Handle(c, called, p, h, k);
    RetryPassesAttempts(c, b, p, event, h, k);
    RetryGrows(c, b, p, event, h, 0);
    AddingKeepsRows(b, RetryFrom(c, b, p, event, h, 0), event, TriesFrom(p, event, h, 0, c.retries));
    if !Succeeds(AttemptOf(p, h, k)) {
      RetryGrows(c, tried, p, event, h, k + 1);
      AddingKeepsRows(tried, RetryFrom(c, tried, p, event, h, k + 1), event, TriesFrom(p, event, h, k + 1, c.retries));
    }
    hide Handle, AtAttempt, RetryFrom, TriesFrom, ValidBus, CallsFor, Adds, Succeeds, AttemptOf;
  }

  lemma RestOfDispatch(c: Config, b: Bus, p: Publication, event: Id, h: nat)
    requires ValidBus(b) && event < b.nextId && h < |HandlersOf(c, p.kind)|
    ensures RowsStay(RetryFrom(c, BeforeHandler(c, b, p, event, h), p, event, h, 0), DispatchFrom(c, b, p, event, 0))
  {
    HandlersKeepKeys(c, b, p, event, h);
    HandlersKeepKeys(c, b, p, event, h + 1);
    DispatchPassesHandlers(c, b, p, event, h + 1);
    var through := BeforeHandler(c, b, p, event, h + 1);
    DispatchGrows(c, through, p, event, h + 1);
    hide DispatchFrom, RetryFrom, CallsFrom, ValidBus, Adds;
    AddingKeepsRows(through, DispatchFrom(c, through, p, event, h + 1), event,
                    CallsFrom(p, event, h + 1, |HandlersOf(c, p.kind)|, c.retries));
  }

  lemma NestedStays(c: Config, b: Bus, p: Publication, at: Position)
    requires ValidBus(b) && Gets(c, b, p, at) && NestedAt(c, b, p, at).kind in EVENT_TYPES
    ensures RowsStay(Publish(c, BusAt(c, b, p, at), NestedAt(c, b, p, at)),
                     DispatchFrom(c, Stored(b, p), p, b.nextId, 0))
  {
    var stored, event, h, k := Stored(b, p), b.nextId, at.handler, at.attempt;
    var start := BeforeHandler(c, stored, p, event, h);
    var called := AtAttempt(c, start, p, event, h, k);
    StoringKeepsValid(b, p);
    HandlersKeepKeys(c, stored, p, event, h);
    AttemptsKeepKeys(c, start, p, event, h, k);
    hide Publish, DispatchFrom, RetryFrom, Handle, AtAttempt, BeforeHandler, BeforePublication, ValidBus, Succeeds;
    RestOfAttempt(c, called, p, h, k, at.index);
    RestOfHandler(c, start, p, event, h, k);
    RestOfDispatch(c, stored, p, event, h);
    hide Gets, Stored;
  }

  /** The end of a publication changes no row but its own, and of that not what it is about. */
  lemma SettlingKeepsRows(c: Config, b: Bus, p: Publication, at: Bus)
    requires ValidBus(b) && p.kind in EVENT_TYPES && !Duplicate(b, p)
    requires RowsStay(at, DispatchFrom(c, Stored(b, p), p, b.nextId, 0))
    requires KeepsKeys(Stored(b, p), at)
    ensures Lasts(at, Publish(c, b, p), b.nextId)
  {
    assert b.nextId in Stored(b, p).rows;
    hide DispatchFrom, ResultsOf, ValidBus, Duplicate;
  }

  /** What a handler publishes while an event is dispatched is published: when that event is through, the one published
      within is stored and handled, unless its key was taken, and then by whatever it was taken before. */
  lemma NestedIsPublished(c: Config, b: Bus, p: Publication, at: Position)
    requires ValidBus(b) && Gets(c, b, p, at) && Known(NestedAt(c, b, p, at).kind)
    ensures var during, nested, after := BusAt(c, b, p, at), NestedAt(c, b, p, at), Publish(c, b, p);
      if Taken(during, nested.restaurant, nested.key) then Taken(after, nested.restaurant, nested.key)
      else
        && during.nextId > b.nextId && during.nextId in after.rows
        && var row := after.rows[during.nextId];
           row.kind == nested.kind && row.restaurant == nested.restaurant && row.key == nested.key && row.handled
  {
    var during, nested := BusAt(c, b, p, at), NestedAt(c, b, p, at);
    DispatchKeepsKeys(c, b, p, at);
    PublishAnswers(c, during, nested);
    PublishGrows(c, during, nested);
    NestedStays(c, b, p, at);
    var published := Publish(c, during, nested);
    GrowingKeepsRows(during, published);
    hide Publish, DispatchFrom, BusAt, ValidBus, CallsFor, Returns, Grows, Duplicate;
    assert KeepsKeys(Stored(b, p), published);
    SettlingKeepsRows(c, b, p, published);
    hide Stored;
  }
}
