/**
 The in-process event bus. Handlers are arbitrary: what a handler does on an attempt, including the events it publishes
 itself and whether it raises, is given by the finite tree of a `Publication`.
 */
module EventBus {
  import opened Prelude

  const EVENT_TYPES: set<string> := {
    "reservation.created", "reservation.modified", "reservation.cancelled", "inventory.updated", "inventory.low",
    "purchase.requested", "purchase.approved", "purchase.rejected", "customer.updated", "staffing.shortage_detected",
    "approval.created", "approval.completed"}

  /** A `publish` call together with how each subscribed handler will react to it. */
  datatype Publication = Publication(kind: string, restaurant: Id, key: Option<string>, reactions: seq<Reaction>)

  /** What one handler does, attempt by attempt; beyond the listed attempts it simply succeeds. */
  datatype Reaction = Reaction(attempts: seq<Attempt>)

  /** The events the handler publishes, in order, and whether it then returns or raises. */
  datatype Attempt = Attempt(publishes: seq<Publication>, completes: bool)

  datatype HandlerResult = Success | FailedAfterRetries

  datatype Row = Row(
    kind: string, restaurant: Id, key: Option<string>, handled: bool, results: map<string, HandlerResult>)

  /** Handler number `handler` of event `event` is called for the `attempt`-th time, counting from 0. */
  datatype Dispatch = Dispatch(event: Id, handler: nat, attempt: nat)

  /** The subscriptions by event type, each a list of handler names, and the retry limit. */
  datatype Config = Config(handlers: map<string, seq<string>>, retries: nat)

  /** The events table, and every handler call made so far. */
  datatype Bus = Bus(rows: map<Id, Row>, nextId: Id, log: seq<Dispatch>)

  function HandlersOf(c: Config, kind: string): seq<string> {
    if kind in c.handlers then c.handlers[kind] else []
  }

  predicate HasKey(row: Row, restaurant: Id, key: string) {
    row.restaurant == restaurant && row.key == Some(key)
  }

  /** What handler `h` does on attempt `k`. */
  function AttemptOf(p: Publication, h: nat, k: nat): Attempt {
    if h < |p.reactions| && k < |p.reactions[h].attempts| then p.reactions[h].attempts[k] else Attempt([], true)
  }

  /** The attempt succeeds: it returns, and publishes no event of an unknown type, which would raise. */
  predicate Succeeds(a: Attempt) {
    a.completes && forall i | 0 <= i < |a.publishes| :: a.publishes[i].kind in EVENT_TYPES
  }

  // ---- what publishing does ----

  predicate Duplicate(b: Bus, p: Publication) {
    p.key.Some? && exists id | id in b.rows :: HasKey(b.rows[id], p.restaurant, p.key.value)
  }

  function Stored(b: Bus, p: Publication): Bus {
    b.(rows := b.rows[b.nextId := Row(p.kind, p.restaurant, p.key, false, map[])], nextId := b.nextId + 1)
  }

  /** An unknown type raises, a duplicate is skipped, and any other event is stored, dispatched and marked handled. */
  function Publish(c: Config, b: Bus, p: Publication): Bus
    decreases p, 3
  {
    if p.kind !in EVENT_TYPES || Duplicate(b, p) then b
    else Settle(c, DispatchFrom(c, Stored(b, p), p, b.nextId, 0), p, b.nextId)
  }

  /** Handlers `h`, `h + 1`, ... are called in subscription order. */
  function DispatchFrom(c: Config, b: Bus, p: Publication, event: Id, h: nat): Bus
    decreases p, 2, |HandlersOf(c, p.kind)| - h
  {
    if h >= |HandlersOf(c, p.kind)| then b
    else DispatchFrom(c, RetryFrom(c, b, p, event, h, 0), p, event, h + 1)
  }

  /** Handler `h` is called for attempts `k`, `k + 1`, ... until one succeeds or the retries are used up. */
  function RetryFrom(c: Config, b: Bus, p: Publication, event: Id, h: nat, k: nat): Bus
    decreases p, 1, c.retries + 1 - k
  {
    if k > c.retries then b
    else
      var tried := Handle(c, b.(log := b.log + [Dispatch(event, h, k)]), p, h, k);
      if Succeeds(AttemptOf(p, h, k)) then tried else RetryFrom(c, tried, p, event, h, k + 1)
  }

  /** The handler's own publications on this attempt. */
  function Handle(c: Config, b: Bus, p: Publication, h: nat, k: nat): Bus
    decreases p, 0
  {
    if h < |p.reactions| && k < |p.reactions[h].attempts| then PublishEach(c, b, p.reactions[h].attempts[k], 0) else b
  }

  /** Publications `i`, `i + 1`, ... up to the first that raises. */
  function PublishEach(c: Config, b: Bus, a: Attempt, i: nat): Bus
    decreases a, 4, |a.publishes| - i
  {
    if i >= |a.publishes| || a.publishes[i].kind !in EVENT_TYPES then b
    else PublishEach(c, Publish(c, b, a.publishes[i]), a, i + 1)
  }

  /** Some attempt from `k` on succeeds within the retry limit. */
  predicate Recovers(p: Publication, h: nat, k: nat, retries: nat)
    decreases retries + 1 - k
  {
    k <= retries && (Succeeds(AttemptOf(p, h, k)) || Recovers(p, h, k + 1, retries))
  }

  /** One entry per handler name; of handlers that share a name the last one's result stays. */
  function ResultsOf(p: Publication, names: seq<string>, retries: nat): map<string, HandlerResult> {
    if names == [] then map[]
    else
      var last := |names| - 1;
      var result := if Recovers(p, last, 0, retries) then Success else FailedAfterRetries;
      ResultsOf(p, names[..last], retries)[names[last] := result]
  }

  /** The event is marked handled, with every handler's result. */
  function Settle(c: Config, b: Bus, p: Publication, event: Id): Bus {
    b.(rows := b.rows[event := Row(p.kind, p.restaurant, p.key, true, ResultsOf(p, HandlersOf(c, p.kind), c.retries))])
  }

  // ---- what every dispatch keeps ----

  /** At most one event per restaurant and idempotency key; ids are fresh. */
  ghost predicate ValidBus(b: Bus) {
    && (forall id | id in b.rows :: id < b.nextId)
    && (forall d | d in b.log :: d.event < b.nextId)
    && (forall i, j | i in b.rows && j in b.rows && b.rows[i].restaurant == b.rows[j].restaurant
          && b.rows[i].key == b.rows[j].key && b.rows[i].key.Some? :: i == j)
  }

  /** The handler calls made for one event. */
  function CallsFor(log: seq<Dispatch>, event: Id): seq<Dispatch> {
    if log == [] then []
    else CallsFor(log[..|log| - 1], event) + if log[|log| - 1].event == event then [log[|log| - 1]] else []
  }

  /** Rows already there stay, new rows are handled, and no old event is dispatched again. */
  ghost predicate Grows(b: Bus, b': Bus) {
    && b.nextId <= b'.nextId
    && (forall id | id in b.rows :: id in b'.rows && b'.rows[id] == b.rows[id])
    && (forall id | id in b'.rows && id !in b.rows :: b.nextId <= id && b'.rows[id].handled)
    && (forall event: Id | event < b.nextId :: CallsFor(b'.log, event) == CallsFor(b.log, event))
  }

  lemma StoringKeepsValid(b: Bus, p: Publication)
    requires ValidBus(b)
    ensures !Duplicate(b, p) ==> ValidBus(Stored(b, p))
  {
  }

  lemma SettleKeepsValid(c: Config, b: Bus, p: Publication, event: Id)
    requires ValidBus(b) && event in b.rows && b.rows[event].restaurant == p.restaurant && b.rows[event].key == p.key
    ensures ValidBus(Settle(c, b, p, event))
  {
  }

  /** A publication keeps keys unique and only adds, however deeply its handlers publish in turn. */
  lemma {:induction false} PublishGrows(c: Config, b: Bus, p: Publication)
    requires ValidBus(b)
    ensures ValidBus(Publish(c, b, p)) && Grows(b, Publish(c, b, p))
    decreases p, 3
  {
    if p.kind in EVENT_TYPES && !Duplicate(b, p) {
      var stored := Stored(b, p);
      assert ValidBus(stored);
      DispatchGrows(c, stored, p, b.nextId, 0);
      var dispatched := DispatchFrom(c, stored, p, b.nextId, 0);
      assert dispatched.rows[b.nextId] == stored.rows[b.nextId];
      SettleKeepsValid(c, dispatched, p, b.nextId);
    }
  }

  /** Only the event being dispatched gains calls among the events there were. */
  ghost predicate GrowsBeside(b: Bus, b': Bus, event: Id) {
    && b.nextId <= b'.nextId
    && (forall id | id in b.rows :: id in b'.rows && b'.rows[id] == b.rows[id])
    && (forall id | id in b'.rows && id !in b.rows :: b.nextId <= id && b'.rows[id].handled)
    && (forall other: Id | other < b.nextId && other != event :: CallsFor(b'.log, other) == CallsFor(b.log, other))
  }

  /** The bus only grew, and `event` gained exactly these calls. */
  ghost predicate Adds(b: Bus, b': Bus, event: Id, calls: seq<Dispatch>) {
    ValidBus(b') && GrowsBeside(b, b', event) && CallsFor(b'.log, event) == CallsFor(b.log, event) + calls
  }

  lemma AddsThen(b: Bus, b': Bus, b'': Bus, event: Id, calls: seq<Dispatch>, more: seq<Dispatch>)
    requires event < b.nextId && Adds(b, b', event, calls) && Adds(b', b'', event, more)
    ensures Adds(b, b'', event, calls + more)
  {
    hide CallsFor, ValidBus;
  }

  lemma LoggingAdds(b: Bus, d: Dispatch)
    requires ValidBus(b) && d.event < b.nextId
    ensures Adds(b, b.(log := b.log + [d]), d.event, [d])
  {
    assert (b.log + [d])[..|b.log|] == b.log;
  }

  lemma NestedAdds(b: Bus, b': Bus, event: Id)
    requires ValidBus(b') && Grows(b, b') && event < b.nextId
    ensures Adds(b, b', event, [])
  {
    hide CallsFor, ValidBus;
  }

  lemma {:induction false} DispatchGrows(c: Config, b: Bus, p: Publication, event: Id, h: nat)
    requires ValidBus(b) && event < b.nextId
    ensures Adds(b, DispatchFrom(c, b, p, event, h), event, CallsFrom(p, event, h, |HandlersOf(c, p.kind)|, c.retries))
    decreases p, 2, |HandlersOf(c, p.kind)| - h
  {
    if h < |HandlersOf(c, p.kind)| {
      RetryGrows(c, b, p, event, h, 0);
      var tried := RetryFrom(c, b, p, event, h, 0);
      DispatchGrows(c, tried, p, event, h + 1);
      hide RetryFrom, TriesFrom, Adds;
      AddsThen(b, tried, DispatchFrom(c, tried, p, event, h + 1), event,
               TriesFrom(p, event, h, 0, c.retries), CallsFrom(p, event, h + 1, |HandlersOf(c, p.kind)|, c.retries));
    } else {
      hide CallsFor;
    }
  }

  lemma {:induction false} RetryGrows(c: Config, b: Bus, p: Publication, event: Id, h: nat, k: nat)
    requires ValidBus(b) && event < b.nextId
    ensures Adds(b, RetryFrom(c, b, p, event, h, k), event, TriesFrom(p, event, h, k, c.retries))
    decreases p, 1, c.retries + 1 - k
  {
    if k <= c.retries {
      var d := Dispatch(event, h, k);
      var called := b.(log := b.log + [d]);
      LoggingAdds(b, d);
      hide CallsFor, Handle, Succeeds, AttemptOf;
      HandleGrows(c, called, p, h, k);
      var handled := Handle(c, called, p, h, k);
      NestedAdds(called, handled, event);
      AddsThen(b, called, handled, event, [d], []);
      assert [d] + [] == [d];
      if !Succeeds(AttemptOf(p, h, k)) {
        RetryGrows(c, handled, p, event, h, k + 1);
        AddsThen(b, handled, RetryFrom(c, handled, p, event, h, k + 1), event,
                 [d], TriesFrom(p, event, h, k + 1, c.retries));
      }
      hide Adds;
    } else {
      hide CallsFor;
    }
  }

  lemma {:induction false} HandleGrows(c: Config, b: Bus, p: Publication, h: nat, k: nat)
    requires ValidBus(b)
    ensures ValidBus(Handle(c, b, p, h, k)) && Grows(b, Handle(c, b, p, h, k))
    decreases p, 0
  {
    if h < |p.reactions| && k < |p.reactions[h].attempts| {
      EachGrows(c, b, p.reactions[h].attempts[k], 0);
    }
  }

  lemma {:induction false} EachGrows(c: Config, b: Bus, a: Attempt, i: nat)
    requires ValidBus(b)
    ensures ValidBus(PublishEach(c, b, a, i)) && Grows(b, PublishEach(c, b, a, i))
    decreases a, 4, |a.publishes| - i
  {
    if i < |a.publishes| && a.publishes[i].kind in EVENT_TYPES {
      PublishGrows(c, b, a.publishes[i]);
      EachGrows(c, Publish(c, b, a.publishes[i]), a, i + 1);
    }
  }

  // ---- the calls a first publication makes ----

  /** The calls handler `h` gets from attempt `k` on: up to and including its first success, within the limit. */
  function TriesFrom(p: Publication, event: Id, h: nat, k: nat, retries: nat): seq<Dispatch>
    decreases retries + 1 - k
  {
    if k > retries then []
    else [Dispatch(event, h, k)] + if Succeeds(AttemptOf(p, h, k)) then [] else TriesFrom(p, event, h, k + 1, retries)
  }

  function CallsFrom(p: Publication, event: Id, h: nat, handlers: nat, retries: nat): seq<Dispatch>
    decreases handlers - h
  {
    if h >= handlers then [] else TriesFrom(p, event, h, 0, retries) + CallsFrom(p, event, h + 1, handlers, retries)
  }

  /** A handler is attempted at least once and at most `retries + 1` times, stopping at its first success; this depends
      on its own behaviour alone. */
  lemma {:induction false} TriesStopAtFirstSuccess(p: Publication, event: Id, h: nat, k: nat, retries: nat)
    requires k <= retries
    ensures var tries := TriesFrom(p, event, h, k, retries);
      && 1 <= |tries| <= retries + 1 - k
      && (forall i | 0 <= i < |tries| :: tries[i] == Dispatch(event, h, k + i))
      && (forall j: nat | k <= j < k + |tries| - 1 :: !Succeeds(AttemptOf(p, h, j)))
      && (Recovers(p, h, k, retries) <==> Succeeds(AttemptOf(p, h, k + |tries| - 1)))
      && (!Recovers(p, h, k, retries) ==> |tries| == retries + 1 - k)
    decreases retries - k
  {
    if !Succeeds(AttemptOf(p, h, k)) {
      if k < retries {
        TriesStopAtFirstSuccess(p, event, h, k + 1, retries);
        var rest := TriesFrom(p, event, h, k + 1, retries);
        assert TriesFrom(p, event, h, k, retries) == [Dispatch(event, h, k)] + rest;
      } else {
        assert TriesFrom(p, event, h, k + 1, retries) == [];
        assert !Recovers(p, h, k + 1, retries);
      }
    }
  }

  lemma {:induction false} RecoversMeans(p: Publication, h: nat, k: nat, retries: nat)
    ensures Recovers(p, h, k, retries) <==> exists i: nat :: k <= i <= retries && Succeeds(AttemptOf(p, h, i))
    decreases retries + 1 - k
  {
    if k <= retries {
      RecoversMeans(p, h, k + 1, retries);
    }
  }

  lemma {:induction false} ResultsAt(p: Publication, names: seq<string>, retries: nat, h: nat)
    requires h < |names| && forall i | h < i < |names| :: names[i] != names[h]
    ensures names[h] in ResultsOf(p, names, retries)
    ensures ResultsOf(p, names, retries)[names[h]] == if Recovers(p, h, 0, retries) then Success else FailedAfterRetries
    decreases |names|
  {
    if h < |names| - 1 {
      ResultsAt(p, names[..|names| - 1], retries, h);
    }
  }

  lemma {:induction false} NoCallsYet(log: seq<Dispatch>, event: Id)
    requires forall d | d in log :: d.event != event
    ensures CallsFor(log, event) == []
    decreases |log|
  {
    if log != [] {
      NoCallsYet(log[..|log| - 1], event);
    }
  }

  /** A first publication stores one handled event and calls every subscribed handler, each in turn until its first
      success or its last retry; a handler's recorded result is a success exactly when one of those attempts
      succeeded. */
  lemma FirstPublishReachesEveryHandler(c: Config, b: Bus, p: Publication)
    requires ValidBus(b) && p.kind in EVENT_TYPES && !Duplicate(b, p)
    ensures var b' := Publish(c, b, p);
      var names := HandlersOf(c, p.kind);
      && b.nextId in b'.rows && b'.rows[b.nextId].handled && b'.rows[b.nextId].key == p.key
      && CallsFor(b'.log, b.nextId) == CallsFrom(p, b.nextId, 0, |names|, c.retries)
      && forall h | 0 <= h < |names| && (forall i | h < i < |names| :: names[i] != names[h]) ::
           && names[h] in b'.rows[b.nextId].results
           && (b'.rows[b.nextId].results[names[h]] == Success
               <==> exists k: nat :: k <= c.retries && Succeeds(AttemptOf(p, h, k)))
  {
    var stored := Stored(b, p);
    var names := HandlersOf(c, p.kind);
    assert ValidBus(stored);
    DispatchGrows(c, stored, p, b.nextId, 0);
    NoCallsYet(b.log, b.nextId);
    forall h | 0 <= h < |names| && (forall i | h < i < |names| :: names[i] != names[h])
      ensures names[h] in ResultsOf(p, names, c.retries)
      ensures ResultsOf(p, names, c.retries)[names[h]] == Success
          <==> exists k: nat :: k <= c.retries && Succeeds(AttemptOf(p, h, k))
    {
      ResultsAt(p, names, c.retries, h);
      RecoversMeans(p, h, 0, c.retries);
    }
  }

  // ---- idempotency over runs ----

  function RunBus(c: Config, b: Bus, ps: seq<Publication>): Bus
    decreases |ps|
  {
    if ps == [] then b else RunBus(c, Publish(c, b, ps[0]), ps[1..])
  }

  lemma {:induction false} RunGrows(c: Config, b: Bus, ps: seq<Publication>)
    requires ValidBus(b)
    ensures ValidBus(RunBus(c, b, ps)) && Grows(b, RunBus(c, b, ps))
    decreases |ps|
  {
    if ps != [] {
      PublishGrows(c, b, ps[0]);
      RunGrows(c, Publish(c, b, ps[0]), ps[1..]);
    }
  }

  /** Once an event with a key has been published, publishing the same restaurant and key again, at any later point and
      with any payload or handlers, stores nothing and dispatches nothing. */
  lemma RepublishingIsSkipped(c: Config, b: Bus, p: Publication, later: seq<Publication>, again: Publication)
    requires ValidBus(b) && p.kind in EVENT_TYPES && p.key.Some?
    requires again.restaurant == p.restaurant && again.key == p.key
    ensures var b' := RunBus(c, Publish(c, b, p), later);
      Publish(c, b', again) == b'
  {
    var published := Publish(c, b, p);
    PublishGrows(c, b, p);
    RunGrows(c, published, later);
    if !Duplicate(b, p) {
      FirstPublishReachesEveryHandler(c, b, p);
      assert HasKey(published.rows[b.nextId], p.restaurant, p.key.value);
    }
    var id :| id in published.rows && HasKey(published.rows[id], p.restaurant, p.key.value);
    assert HasKey(RunBus(c, published, later).rows[id], p.restaurant, p.key.value);
  }

  // ---- publishing while an event is being dispatched ----

  /** The bus once the first `h` handlers of the event are through. */
  function BeforeHandler(c: Config, b: Bus, p: Publication, event: Id, h: nat): Bus {
    if h == 0 then b else RetryFrom(c, BeforeHandler(c, b, p, event, h - 1), p, event, h - 1, 0)
  }

  /** The bus once handler `h` is called for attempt `k`, its earlier attempts having failed. */
  function AtAttempt(c: Config, b: Bus, p: Publication, event: Id, h: nat, k: nat): Bus {
    var before := if k == 0 then b else Handle(c, AtAttempt(c, b, p, event, h, k - 1), p, h, k - 1);
    before.(log := before.log + [Dispatch(event, h, k)])
  }

  /** The bus once an attempt has made its first `i` publications. */
  function BeforePublication(c: Config, b: Bus, a: Attempt, i: nat): Bus
    requires i <= |a.publishes|
  {
    if i == 0 then b else Publish(c, BeforePublication(c, b, a, i - 1), a.publishes[i - 1])
  }

  /** These are the states dispatching passes through. */
  lemma {:induction false} DispatchPassesHandlers(c: Config, b: Bus, p: Publication, event: Id, h: nat)
    requires h <= |HandlersOf(c, p.kind)|
    ensures DispatchFrom(c, b, p, event, 0) == DispatchFrom(c, BeforeHandler(c, b, p, event, h), p, event, h)
    decreases h
  {
    if h > 0 {
      DispatchPassesHandlers(c, b, p, event, h - 1);
      DispatchUnfolds(c, BeforeHandler(c, b, p, event, h - 1), p, event, h - 1);
    }
  }

  lemma {:induction false} RetryPassesAttempts(c: Config, b: Bus, p: Publication, event: Id, h: nat, k: nat)
    requires k <= c.retries && forall j: nat | j < k :: !Succeeds(AttemptOf(p, h, j))
    ensures RetryFrom(c, b, p, event, h, 0)
         == var tried := Handle(c, AtAttempt(c, b, p, event, h, k), p, h, k);
            if Succeeds(AttemptOf(p, h, k)) then tried else RetryFrom(c, tried, p, event, h, k + 1)
    decreases k
  {
    hide Handle, Succeeds, AttemptOf;
    if k > 0 {
      RetryPassesAttempts(c, b, p, event, h, k - 1);
    }
  }

  lemma {:induction false} AttemptPassesPublications(c: Config, b: Bus, a: Attempt, i: nat)
    requires i <= |a.publishes| && forall j | 0 <= j < i :: a.publishes[j].kind in EVENT_TYPES
    ensures PublishEach(c, b, a, 0) == PublishEach(c, BeforePublication(c, b, a, i), a, i)
    decreases i
  {
    hide Publish;
    if i > 0 {
      AttemptPassesPublications(c, b, a, i - 1);
    }
  }

  /** Where in a dispatch a nested publication is made: by which handler, on which attempt, as its how-manieth. */
  datatype Position = Position(handler: nat, attempt: nat, index: nat)

  /** Publishing `p` gets to this nested publication. */
  predicate Gets(c: Config, b: Bus, p: Publication, at: Position) {
    && p.kind in EVENT_TYPES && !Duplicate(b, p)
    && at.handler < |HandlersOf(c, p.kind)| && at.handler < |p.reactions|
    && at.attempt <= c.retries && at.attempt < |p.reactions[at.handler].attempts|
    && (forall j: nat | j < at.attempt :: !Succeeds(AttemptOf(p, at.handler, j)))
    && at.index < |p.reactions[at.handler].attempts[at.attempt].publishes|
    && forall j | 0 <= j < at.index :: p.reactions[at.handler].attempts[at.attempt].publishes[j].kind in EVENT_TYPES
  }

  /** The bus at that moment. */
  function BusAt(c: Config, b: Bus, p: Publication, at: Position): Bus
    requires Gets(c, b, p, at)
  {
    var handler := BeforeHandler(c, Stored(b, p), p, b.nextId, at.handler);
    BeforePublication(c, AtAttempt(c, handler, p, b.nextId, at.handler, at.attempt),
                      p.reactions[at.handler].attempts[at.attempt], at.index)
  }

  function NestedAt(c: Config, b: Bus, p: Publication, at: Position): Publication
    requires Gets(c, b, p, at)
  {
    p.reactions[at.handler].attempts[at.attempt].publishes[at.index]
  }

  /** Rows stay, possibly with a result added: the restaurant and key of each are still there. */
  ghost predicate KeepsKeys(b: Bus, b': Bus) {
    && ValidBus(b')
    && b.nextId <= b'.nextId
    && forall id | id in b.rows ::
         id in b'.rows && b'.rows[id].restaurant == b.rows[id].restaurant && b'.rows[id].key == b.rows[id].key
  }

  lemma {:induction false} HandlersKeepKeys(c: Config, b: Bus, p: Publication, event: Id, h: nat)
    requires ValidBus(b) && event < b.nextId
    ensures KeepsKeys(b, BeforeHandler(c, b, p, event, h))
    decreases h
  {
    if h > 0 {
      HandlersKeepKeys(c, b, p, event, h - 1);
      var before := BeforeHandler(c, b, p, event, h - 1);
      RetryGrows(c, before, p, event, h - 1, 0);
      hide RetryFrom, ValidBus, CallsFor, TriesFrom;
      assert GrowsBeside(before, RetryFrom(c, before, p, event, h - 1, 0), event);
    }
  }

  lemma {:induction false} AttemptsKeepKeys(c: Config, b: Bus, p: Publication, event: Id, h: nat, k: nat)
    requires ValidBus(b) && event < b.nextId
    ensures KeepsKeys(b, AtAttempt(c, b, p, event, h, k))
    decreases k
  {
    hide CallsFor, Handle;
    if k == 0 {
      LoggingKeepsValid(b, Dispatch(event, h, 0));
    } else {
      AttemptsKeepKeys(c, b, p, event, h, k - 1);
      var before := AtAttempt(c, b, p, event, h, k - 1);
      HandleGrows(c, before, p, h, k - 1);
      LoggingKeepsValid(Handle(c, before, p, h, k - 1), Dispatch(event, h, k));
      hide ValidBus;
    }
  }

  lemma {:induction false} PublicationsKeepKeys(c: Config, b: Bus, a: Attempt, i: nat)
    requires ValidBus(b) && i <= |a.publishes|
    ensures KeepsKeys(b, BeforePublication(c, b, a, i))
    decreases i
  {
    if i > 0 {
      PublicationsKeepKeys(c, b, a, i - 1);
      PublishGrows(c, BeforePublication(c, b, a, i - 1), a.publishes[i - 1]);
      hide Publish, CallsFor, ValidBus;
    }
  }

  /** While an event is dispatched, it is there with its key, and so is every event before it. */
  lemma DispatchKeepsKeys(c: Config, b: Bus, p: Publication, at: Position)
    requires ValidBus(b) && Gets(c, b, p, at)
    ensures KeepsKeys(Stored(b, p), BusAt(c, b, p, at))
  {
    StoringKeepsValid(b, p);
    hide ValidBus, BeforeHandler, AtAttempt, BeforePublication;
    var handler := BeforeHandler(c, Stored(b, p), p, b.nextId, at.handler);
    HandlersKeepKeys(c, Stored(b, p), p, b.nextId, at.handler);
    AttemptsKeepKeys(c, handler, p, b.nextId, at.handler, at.attempt);
    PublicationsKeepKeys(c, AtAttempt(c, handler, p, b.nextId, at.handler, at.attempt),
                         p.reactions[at.handler].attempts[at.attempt], at.index);
  }

  /** Publishing `p` gets, through handlers that publish in turn, to the publication at the end of the path. */
  predicate Reaches(c: Config, b: Bus, p: Publication, path: seq<Position>)
    decreases |path|
  {
    path == []
    || (Gets(c, b, p, path[0]) && Reaches(c, BusAt(c, b, p, path[0]), NestedAt(c, b, p, path[0]), path[1..]))
  }

  /** The publication at the end of the path, and the bus at the moment it is made. */
  function Reached(c: Config, b: Bus, p: Publication, path: seq<Position>): (Bus, Publication)
    requires Reaches(c, b, p, path)
    decreases |path|
  {
    if path == [] then (b, p) else Reached(c, BusAt(c, b, p, path[0]), NestedAt(c, b, p, path[0]), path[1..])
  }

  lemma {:induction false} NestingKeepsKeys(c: Config, b: Bus, p: Publication, path: seq<Position>)
    requires ValidBus(b) && Reaches(c, b, p, path)
    ensures KeepsKeys(b, Reached(c, b, p, path).0)
    ensures path != [] && p.key.Some? ==> Duplicate(Reached(c, b, p, path).0, p)
    decreases |path|
  {
    if path != [] {
      var nested := BusAt(c, b, p, path[0]);
      DispatchKeepsKeys(c, b, p, path[0]);
      hide BusAt, ValidBus;
      NestingKeepsKeys(c, nested, NestedAt(c, b, p, path[0]), path[1..]);
      var end := Reached(c, b, p, path).0;
      assert b.nextId in Stored(b, p).rows;
      if p.key.Some? {
        assert HasKey(end.rows[b.nextId], p.restaurant, p.key.value);
      }
    }
  }

  /** While an event is dispatched, its key is taken: a handler that publishes it again changes nothing, at whatever
      depth of handlers publishing in turn it does so. */
  lemma RepublishingDuringDispatchIsSkipped(c: Config, b: Bus, p: Publication, path: seq<Position>)
    requires ValidBus(b) && path != [] && Reaches(c, b, p, path)
    requires var again := Reached(c, b, p, path).1;
      p.key.Some? && again.restaurant == p.restaurant && again.key == p.key
    ensures var (at, again) := Reached(c, b, p, path); Publish(c, at, again) == at
  {
    NestingKeepsKeys(c, b, p, path);
    hide Reached, ValidBus;
  }

  // ---- the bus as an object ----

  lemma LoggingKeepsValid(b: Bus, d: Dispatch)
    requires ValidBus(b) && d.event < b.nextId
    ensures ValidBus(b.(log := b.log + [d]))
  {
  }

  lemma DispatchUnfolds(c: Config, b: Bus, p: Publication, event: Id, h: nat)
    requires h <= |HandlersOf(c, p.kind)|
    ensures DispatchFrom(c, b, p, event, h)
         == if h < |HandlersOf(c, p.kind)| then DispatchFrom(c, RetryFrom(c, b, p, event, h, 0), p, event, h + 1) else b
  {
  }

  class InProcessEventBus {
    var handlers: map<string, seq<string>>
    const retries: nat
    var rows: map<Id, Row>
    var nextId: Id
    var log: seq<Dispatch>

    constructor (retries: nat)
      ensures handlers == map[] && this.retries == retries && State() == Bus(map[], 0, [])
    {
      handlers, this.retries, rows, nextId, log := map[], retries, map[], 0, [];
    }

    function Settings(): Config
      reads this
    {
      Config(handlers, retries)
    }

    function State(): Bus
      reads this
    {
      Bus(rows, nextId, log)
    }

    method Subscribe(kind: string, name: string) returns (accepted: bool)
      modifies this`handlers
      ensures accepted <==> kind in EVENT_TYPES
      ensures HandlersOf(Settings(), kind) == HandlersOf(old(Settings()), kind) + if accepted then [name] else []
      ensures forall other | other != kind :: HandlersOf(Settings(), other) == HandlersOf(old(Settings()), other)
    {
      if kind !in EVENT_TYPES {
        return false;
      }
      handlers := handlers[kind := HandlersOf(Settings(), kind) + [name]];
      accepted := true;
    }

    /** Returns the id of the new or already stored event; an unknown type raises. */
    method PublishEvent(p: Publication) returns (event: Option<Id>)
      requires ValidBus(State())
      modifies this`rows, this`nextId, this`log
      ensures State() == Publish(Settings(), old(State()), p) && ValidBus(State())
      ensures event.Some? <==> p.kind in EVENT_TYPES
      ensures event.Some? ==>
        event.value in rows && rows[event.value].restaurant == p.restaurant && rows[event.value].key == p.key
      ensures event.Some? && !Duplicate(old(State()), p) ==> event.value == old(nextId)
      decreases p, 3
    {
      hide DispatchFrom, ResultsOf, CallsFor, ValidBus;
      PublishGrows(Settings(), State(), p);
      StoringKeepsValid(State(), p);
      if p.kind !in EVENT_TYPES {
        return None;
      }
      if p.key.Some? {
        if id :| id in rows && HasKey(rows[id], p.restaurant, p.key.value) {
          return Some(id);
        }
      }
      var id := nextId;
      rows := rows[id := Row(p.kind, p.restaurant, p.key, false, map[])];
      nextId := nextId + 1;
      var results := DispatchAll(p, id);
      rows := rows[id := Row(p.kind, p.restaurant, p.key, true, results)];
      event := Some(id);
    }

    /** Calls every subscribed handler in turn and collects the results by handler name. */
    method DispatchAll(p: Publication, event: Id) returns (results: map<string, HandlerResult>)
      requires ValidBus(State()) && event < nextId && event in rows
      modifies this`rows, this`nextId, this`log
      ensures State() == DispatchFrom(Settings(), old(State()), p, event, 0)
      ensures ValidBus(State()) && event < nextId && event in rows
      ensures results == ResultsOf(p, HandlersOf(Settings(), p.kind), retries)
      decreases p, 2
    {
      hide DispatchFrom, RetryFrom, ValidBus;
      var names := HandlersOf(Settings(), p.kind);
      results := map[];
      for h := 0 to |names|
        invariant ValidBus(State()) && event < nextId && event in rows
        invariant DispatchFrom(Settings(), State(), p, event, h) == DispatchFrom(Settings(), old(State()), p, event, 0)
        invariant results == ResultsOf(p, names[..h], retries)
      {
        assert names[..h + 1][..h] == names[..h];
        DispatchUnfolds(Settings(), State(), p, event, h);
        var result := DispatchOne(p, event, h);
        results := results[names[h] := result];
      }
      assert names[..|names|] == names;
      DispatchUnfolds(Settings(), State(), p, event, |names|);
    }

    /** Calls one handler, again after each failure while retries are left. */
    method DispatchOne(p: Publication, event: Id, h: nat) returns (result: HandlerResult)
      requires ValidBus(State()) && event < nextId && event in rows
      modifies this`rows, this`nextId, this`log
      ensures State() == RetryFrom(Settings(), old(State()), p, event, h, 0)
      ensures ValidBus(State()) && event < nextId && event in rows
      ensures result == if Recovers(p, h, 0, retries) then Success else FailedAfterRetries
      decreases p, 1
    {
      hide ValidBus, CallsFor, Handle;
      RetryGrows(Settings(), State(), p, event, h, 0);
      var attempt: nat := 0;
      while attempt <= retries
        invariant attempt <= retries + 1 && ValidBus(State()) && event < nextId && event in rows
        invariant RetryFrom(Settings(), State(), p, event, h, attempt)
            == RetryFrom(Settings(), old(State()), p, event, h, 0)
        invariant Recovers(p, h, attempt, retries) == Recovers(p, h, 0, retries)
        decreases retries + 1 - attempt
      {
        LoggingKeepsValid(State(), Dispatch(event, h, attempt));
        log := log + [Dispatch(event, h, attempt)];
        HandleGrows(Settings(), State(), p, h, attempt);
        var returned := CallHandler(p, h, attempt);
        if returned {
          return Success;
        }
        attempt := attempt + 1;
      }
      result := FailedAfterRetries;
    }

    /** The handler runs: it publishes what it publishes, and returns or raises. */
    method CallHandler(p: Publication, h: nat, k: nat) returns (returned: bool)
      requires ValidBus(State())
      modifies this`rows, this`nextId, this`log
      ensures State() == Handle(Settings(), old(State()), p, h, k) && ValidBus(State())
      ensures returned == Succeeds(AttemptOf(p, h, k))
      decreases p, 0
    {
      HandleGrows(Settings(), State(), p, h, k);
      if h >= |p.reactions| || k >= |p.reactions[h].attempts| {
        return true;
      }
      var a := p.reactions[h].attempts[k];
      for i := 0 to |a.publishes|
        invariant ValidBus(State())
        invariant PublishEach(Settings(), State(), a, i) == PublishEach(Settings(), old(State()), a, 0)
        invariant forall j | 0 <= j < i :: a.publishes[j].kind in EVENT_TYPES
      {
        var published := PublishEvent(a.publishes[i]);
        if published.None? {
          return false;
        }
      }
      returned := a.completes;
    }
  }
}
