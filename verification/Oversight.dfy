/**
 The orchestrator over the shared database. A delegated specialist's tool calls change the database and are what its
 result reports, other requests interleave with them at any point, and a pause is resolved through `ApprovalService`.
 */
module Oversight {
  import opened Prelude
  import opened Schema
  import System
  import Gate
  import Lifecycle
  import Orchestrator
  import PurchaseLinks
  import Purchasing
  import ToolLoop
  import Booking

  // ---- what one node step does to the database ----

  /** A manager's answer to a pause. */
  datatype Decision = Decision(approve: bool, user: Id, now: int, text: string, writable: bool, fault: Option<Fault>)

  /** One tool call of a specialist, the text of its output, and what other requests did just before it. */
  datatype ToolStep = ToolStep(others: seq<System.Call>, call: System.Call, named: ToolLoop.ToolCall, data: string)

  /** One run of a specialist: its tool calls, and how it ended. */
  datatype Attempt = Attempt(steps: seq<ToolStep>, ending: ToolLoop.Ending)

  /** One node step: what other requests did before it, the model's replies in `input`, the specialist's runs attempt by
      attempt, and the manager's answer if any. */
  datatype Move = Move(
    before: seq<System.Call>, input: Orchestrator.Input, attempts: nat -> Attempt, decision: Option<Decision>)

  datatype World = World(db: Db, m: Orchestrator.Machine)

  /** Who makes a call: another request, a specialist's tool, or the manager who resumes the run. */
  datatype Origin = Outside | Tool | Resume

  datatype Entry = Entry(origin: Origin, call: System.Call)

  function CallsOf(es: seq<Entry>): seq<System.Call> {
    seq(|es|, i requires 0 <= i < |es| => es[i].call)
  }

  function FromOutside(calls: seq<System.Call>): seq<Entry> {
    seq(|calls|, i requires 0 <= i < |calls| => Entry(Outside, calls[i]))
  }

  function After(db: Db, s: Settings, es: seq<Entry>): Db {
    System.Run(db, s, CallsOf(es))
  }

  function StepEntries(step: ToolStep): seq<Entry> {
    FromOutside(step.others) + [Entry(Tool, step.call)]
  }

  function EntriesOf(steps: seq<ToolStep>): seq<Entry> {
    if steps == [] then [] else StepEntries(steps[0]) + EntriesOf(steps[1..])
  }

  /** The output of a successful tool call: a gated action's names the approval it waits for. */
  function OutputOf(r: Response, data: string): ToolLoop.Output {
    if r.AwaitingApproval? then ToolLoop.PendingApproval(r.approval) else ToolLoop.Plain(data)
  }

  function RecordOf(db: Db, s: Settings, step: ToolStep): seq<ToolLoop.Record> {
    match System.Step(System.Run(db, s, step.others), s, step.call).response
    case Ok(r) => [ToolLoop.Record(step.named, OutputOf(r, step.data))]
    case Err(_) => []
  }

  /** The records of the successful tool calls of a run that starts at `db`. */
  function RecordsOf(db: Db, s: Settings, steps: seq<ToolStep>): seq<ToolLoop.Record>
    decreases |steps|
  {
    if steps == [] then []
    else RecordOf(db, s, steps[0]) + RecordsOf(After(db, s, StepEntries(steps[0])), s, steps[1..])
  }

  /** Everything the first `n` attempts of a delegation do. */
  function AttemptEntries(attempts: nat -> Attempt, n: nat): seq<Entry> {
    if n == 0 then [] else AttemptEntries(attempts, n - 1) + EntriesOf(attempts(n - 1).steps)
  }

  /** What attempt `j` of a delegation that starts at `db` reports. */
  function ReportOf(db: Db, s: Settings, attempts: nat -> Attempt, j: nat): ToolLoop.AgentResult {
    ToolLoop.ResultOf(
      attempts(j).ending, RecordsOf(After(db, s, AttemptEntries(attempts, j)), s, attempts(j).steps))
  }

  function Reports(db: Db, s: Settings, attempts: nat -> Attempt): nat -> ToolLoop.AgentResult {
    (j: nat) => ReportOf(db, s, attempts, j)
  }

  function DecisionCall(id: Id, d: Decision): System.Call {
    if d.approve then System.Approve(id, d.user, d.now, d.text, d.writable, d.fault)
    else System.Reject(id, d.user, d.now, d.text, d.writable)
  }

  /** A resolved approval counts as an error only if its execution failed. */
  function ResolutionStatus(db: Db, id: Id, d: Decision): ToolLoop.Status {
    if d.approve && id in db.approvals && db.approvals[id].execution.Some? && db.approvals[id].execution.value.Failed?
    then ToolLoop.Error else ToolLoop.Completed
  }

  predicate Resumes(w: World, mv: Move) {
    w.m.node == Orchestrator.AwaitNode && w.m.g.pendingId.Some? && mv.decision.Some?
  }

  predicate DelegatesIn(w: World) {
    w.m.node == Orchestrator.DelegateNode && w.m.g.next.Some?
  }

  /** The state once the other requests before the node step are through. */
  function Start(s: Settings, w: World, mv: Move): Db {
    After(w.db, s, FromOutside(mv.before))
  }

  /** How the manager's answer, if there is one, ends the pause. */
  function Resolution(s: Settings, w: World, mv: Move): Option<ToolLoop.Status> {
    if Resumes(w, mv) then
      var id := w.m.g.pendingId.value;
      var o := System.Step(Start(s, w, mv), s, DecisionCall(id, mv.decision.value));
      if o.response.Ok? then Some(ResolutionStatus(o.db, id, mv.decision.value)) else None
    else None
  }

  /** What the node step gets to see: the specialist reports what its tool calls did. */
  function InputOf(s: Settings, w: World, mv: Move): Orchestrator.Input {
    mv.input.(results := Reports(Start(s, w, mv), s, mv.attempts), resolution := Resolution(s, w, mv))
  }

  /** How often the specialist runs in this node step. */
  function AttemptsMade(cfg: Orchestrator.Config, s: Settings, w: World, mv: Move): nat {
    if DelegatesIn(w) then Orchestrator.Attempts(InputOf(s, w, mv).results, 1, cfg.maxRetries) else 0
  }

  /** The calls of a node step, in order, with who makes them. */
  function Trace(cfg: Orchestrator.Config, s: Settings, w: World, mv: Move): seq<Entry> {
    FromOutside(mv.before) + AttemptEntries(mv.attempts, AttemptsMade(cfg, s, w, mv))
    + if Resumes(w, mv) then [Entry(Resume, DecisionCall(w.m.g.pendingId.value, mv.decision.value))] else []
  }

  function Step(cfg: Orchestrator.Config, s: Settings, w: World, mv: Move): World {
    World(After(w.db, s, Trace(cfg, s, w, mv)), Orchestrator.Step(cfg, w.m, InputOf(s, w, mv)))
  }

  function Run(cfg: Orchestrator.Config, s: Settings, w: World, moves: seq<Move>): World
    decreases |moves|
  {
    if moves == [] then w else Run(cfg, s, Step(cfg, s, w, moves[0]), moves[1..])
  }

  /** Specialists act only through their tools, and no tool decides an approval. */
  ghost predicate ToolsOnly(mv: Move) {
    forall j: nat, k | 0 <= k < |mv.attempts(j).steps| :: System.ToolCall(mv.attempts(j).steps[k].call)
  }

  // ---- composing calls ----

  lemma CallsAppend(es: seq<Entry>, fs: seq<Entry>)
    ensures CallsOf(es + fs) == CallsOf(es) + CallsOf(fs)
  {
  }

  lemma AfterAppend(db: Db, s: Settings, es: seq<Entry>, fs: seq<Entry>)
    ensures After(db, s, es + fs) == After(After(db, s, es), s, fs)
  {
    CallsAppend(es, fs);
    System.RunSplits(db, s, CallsOf(es), CallsOf(fs));
    hide System.Run;
  }

  lemma OutsideCalls(calls: seq<System.Call>)
    ensures CallsOf(FromOutside(calls)) == calls
  {
  }

  lemma OneCall(db: Db, s: Settings, e: Entry)
    ensures After(db, s, [e]) == System.Next(db, s, e.call)
  {
    hide System.Next;
    assert CallsOf([e]) == [e.call] && [e.call][1..] == [];
    assert System.Run(System.Next(db, s, e.call), s, []) == System.Next(db, s, e.call);
  }

  lemma {:induction false} ToolEntries(steps: seq<ToolStep>, i: nat)
    requires i < |EntriesOf(steps)| && EntriesOf(steps)[i].origin != Outside
    requires forall k | 0 <= k < |steps| :: System.ToolCall(steps[k].call)
    ensures EntriesOf(steps)[i].origin == Tool && System.ToolCall(EntriesOf(steps)[i].call)
    decreases |steps|
  {
    var first := StepEntries(steps[0]);
    if i >= |first| {
      ToolEntries(steps[1..], i - |first|);
    }
  }

  lemma {:induction false} AttemptsUseTools(mv: Move, n: nat, i: nat)
    requires ToolsOnly(mv) && i < |AttemptEntries(mv.attempts, n)|
    requires AttemptEntries(mv.attempts, n)[i].origin != Outside
    ensures AttemptEntries(mv.attempts, n)[i].origin == Tool && System.ToolCall(AttemptEntries(mv.attempts, n)[i].call)
    decreases n
  {
    var earlier := AttemptEntries(mv.attempts, n - 1);
    if i < |earlier| {
      AttemptsUseTools(mv, n - 1, i);
    } else {
      ToolEntries(mv.attempts(n - 1).steps, i - |earlier|);
    }
  }

  /** In a node step only another request or the resuming manager decides approvals, and the latter only the one the run
      waits for. */
  lemma ToolsDecideNothing(cfg: Orchestrator.Config, s: Settings, w: World, mv: Move, i: nat)
    requires ToolsOnly(mv) && i < |Trace(cfg, s, w, mv)|
    requires var c := Trace(cfg, s, w, mv)[i].call; c.Approve? || c.Reject?
    ensures var e := Trace(cfg, s, w, mv)[i];
      e.origin == Outside || (e.origin == Resume && Resumes(w, mv) && w.m.g.pendingId == Some(e.call.approval))
  {
    hide AttemptsMade, EntriesOf;
    var before, tools := FromOutside(mv.before), AttemptEntries(mv.attempts, AttemptsMade(cfg, s, w, mv));
    if |before| <= i < |before| + |tools| && tools[i - |before|].origin != Outside {
      AttemptsUseTools(mv, AttemptsMade(cfg, s, w, mv), i - |before|);
    }
  }

  // ---- approvals a run waits for exist ----

  /** A call that answers with an approval to wait for has stored it, now or earlier. */
  lemma AwaitedIsStored(db: Db, s: Settings, c: System.Call)
    requires PurchaseLinks.RequestsLinked(db)
    requires System.Step(db, s, c).response.Ok? && System.Step(db, s, c).response.value.AwaitingApproval?
    ensures System.Step(db, s, c).response.value.approval in System.Next(db, s, c).approvals
  {
    if c.Purchase? {
      PurchaseLinks.OpenRequestIsFound(db, c.proposal.item);
    }
    hide Booking.NewRow, Booking.RowAfter, Booking.Announcement, Purchasing.OpenRequest;
  }

  /** The state is valid, and requests and approvals are linked. */
  ghost predicate Sound(db: Db) {
    System.Valid(db) && PurchaseLinks.Linked(db)
  }

  lemma {:induction false} RunKeepsSound(db: Db, s: Settings, calls: seq<System.Call>, id: Id)
    requires Sound(db)
    ensures Sound(System.Run(db, s, calls))
    ensures id in db.approvals ==> id in System.Run(db, s, calls).approvals
  {
    PurchaseLinks.RunKeepsLinks(db, s, calls);
    if id in db.approvals {
      Lifecycle.DecisionsAreTerminal(db, s, calls, id);
    }
  }

  ghost predicate Names(records: seq<ToolLoop.Record>, id: Id) {
    exists i | 0 <= i < |records| :: records[i].output == ToolLoop.PendingApproval(id)
  }

  lemma NamesInEither(own: seq<ToolLoop.Record>, later: seq<ToolLoop.Record>, id: Id)
    requires Names(own + later, id)
    ensures Names(own, id) || Names(later, id)
  {
    var all := own + later;
    var i: nat :| i < |all| && all[i].output == ToolLoop.PendingApproval(id);
    assert i < |own| ==> own[i] == all[i];
    assert i >= |own| ==> later[i - |own|] == all[i];
  }

  /** An approval one step's record names is stored once the step is through. */
  lemma StepStoresAwaited(db: Db, s: Settings, step: ToolStep, id: Id)
    requires Sound(db)
    ensures Names(RecordOf(db, s, step), id) ==> id in After(db, s, StepEntries(step)).approvals
  {
    OutsideCalls(step.others);
    AfterAppend(db, s, FromOutside(step.others), [Entry(Tool, step.call)]);
    OneCall(System.Run(db, s, step.others), s, Entry(Tool, step.call));
    RunKeepsSound(db, s, step.others, id);
    hide System.Run, System.Next;
    var at := System.Run(db, s, step.others);
    var response := System.Step(at, s, step.call).response;
    assert System.Next(at, s, step.call) == System.Step(at, s, step.call).db;
    if response.Ok? && response.value.AwaitingApproval? {
      AwaitedIsStored(at, s, step.call);
    }
    hide System.Step;
  }

  /** Every approval a specialist's records name is stored when its run ends. */
  lemma {:induction false} RecordsAreStored(db: Db, s: Settings, steps: seq<ToolStep>, id: Id)
    requires Sound(db)
    ensures Names(RecordsOf(db, s, steps), id) ==> id in After(db, s, EntriesOf(steps)).approvals
    decreases |steps|
  {
    if steps != [] {
      hide System.Run, Sound, RecordOf;
      var first, rest := StepEntries(steps[0]), EntriesOf(steps[1..]);
      var db' := After(db, s, first);
      RunKeepsSound(db, s, CallsOf(first), id);
      StepStoresAwaited(db, s, steps[0], id);
      RecordsAreStored(db', s, steps[1..], id);
      AfterAppend(db, s, first, rest);
      RunKeepsSound(db', s, CallsOf(rest), id);
      if Names(RecordsOf(db, s, steps), id) {
        NamesInEither(RecordOf(db, s, steps[0]), RecordsOf(db', s, steps[1..]), id);
      }
      hide Names, After;
    }
  }

  /** The attempt whose result ended the delegation. */
  function LastAttempt(cfg: Orchestrator.Config, s: Settings, w: World, mv: Move): nat {
    Orchestrator.LastTry(InputOf(s, w, mv), cfg)
  }

  /** What the tool calls of that attempt reported. */
  function LastRecords(cfg: Orchestrator.Config, s: Settings, w: World, mv: Move): seq<ToolLoop.Record> {
    var j := LastAttempt(cfg, s, w, mv);
    RecordsOf(After(Start(s, w, mv), s, AttemptEntries(mv.attempts, j)), s, mv.attempts(j).steps)
  }

  lemma DelegationEndsWithLastAttempt(cfg: Orchestrator.Config, s: Settings, w: World, mv: Move)
    requires DelegatesIn(w)
    ensures var j := LastAttempt(cfg, s, w, mv);
      After(w.db, s, Trace(cfg, s, w, mv))
      == After(After(Start(s, w, mv), s, AttemptEntries(mv.attempts, j)), s, EntriesOf(mv.attempts(j).steps))
  {
    hide After;
    var j := LastAttempt(cfg, s, w, mv);
    var before := FromOutside(mv.before);
    var earlier, last := AttemptEntries(mv.attempts, j), EntriesOf(mv.attempts(j).steps);
    assert AttemptsMade(cfg, s, w, mv) == j + 1;
    assert Trace(cfg, s, w, mv) == before + (earlier + last);
    AfterAppend(w.db, s, before, earlier + last);
    AfterAppend(Start(s, w, mv), s, earlier, last);
  }

  /** A delegation pauses the run exactly when its last attempt answered after a tool call that was told to wait for an
      approval; the pause carries that approval, and it exists. */
  lemma PauseNamesStoredApproval(cfg: Orchestrator.Config, s: Settings, w: World, mv: Move)
    requires Sound(w.db) && Orchestrator.Valid(cfg, w.m) && w.m.node == Orchestrator.DelegateNode
    ensures var w', j := Step(cfg, s, w, mv), LastAttempt(cfg, s, w, mv);
      var records := LastRecords(cfg, s, w, mv);
      && (w'.m.node == Orchestrator.AwaitNode
          <==> mv.attempts(j).ending.Answered? && records != [] && records[|records| - 1].output.PendingApproval?)
      && (w'.m.node == Orchestrator.AwaitNode ==>
            && records != [] && records[|records| - 1].output.PendingApproval?
            && w'.m.g.pendingId == Some(records[|records| - 1].output.approval)
            && records[|records| - 1].output.approval in w'.db.approvals)
  {
    var j, records := LastAttempt(cfg, s, w, mv), LastRecords(cfg, s, w, mv);
    Orchestrator.PauseMeansGated(cfg, w.m, InputOf(s, w, mv), mv.attempts(j).ending, records);
    DelegationEndsWithLastAttempt(cfg, s, w, mv);
    hide Orchestrator.Step, Orchestrator.Valid, After, RecordsOf, Trace, Sound;
    if records != [] && records[|records| - 1].output.PendingApproval? {
      LastRecordIsStored(s, Start(s, w, mv), w, mv, j, records[|records| - 1].output.approval);
      assert Names(records, records[|records| - 1].output.approval);
    }
  }

  lemma LastRecordIsStored(s: Settings, start: Db, w: World, mv: Move, j: nat, id: Id)
    requires Sound(w.db) && start == Start(s, w, mv)
    ensures var at := After(start, s, AttemptEntries(mv.attempts, j));
      Names(RecordsOf(at, s, mv.attempts(j).steps), id) ==>
          id in After(at, s, EntriesOf(mv.attempts(j).steps)).approvals
  {
    hide Sound, RecordsOf, EntriesOf, System.Run;
    RunKeepsSound(w.db, s, CallsOf(FromOutside(mv.before)), id);
    RunKeepsSound(start, s, CallsOf(AttemptEntries(mv.attempts, j)), id);
    RecordsAreStored(After(start, s, AttemptEntries(mv.attempts, j)), s, mv.attempts(j).steps, id);
  }

  /** The database is sound, the machine valid, and a paused run waits for an approval that exists. */
  ghost predicate Ready(cfg: Orchestrator.Config, s: Settings, w: World) {
    && Sound(w.db) && Orchestrator.Valid(cfg, w.m)
    && (w.m.g.pendingId.Some? ==> w.m.g.pendingId.value in w.db.approvals)
  }

  lemma OnlyDelegationsPause(cfg: Orchestrator.Config, m: Orchestrator.Machine, i: Orchestrator.Input)
    requires m.node != Orchestrator.DelegateNode
    ensures var m' := Orchestrator.Step(cfg, m, i); m'.g.pendingId.Some? ==> m'.g.pendingId == m.g.pendingId
  {
  }

  lemma StepStaysReady(cfg: Orchestrator.Config, s: Settings, w: World, mv: Move)
    requires Ready(cfg, s, w)
    ensures Ready(cfg, s, Step(cfg, s, w, mv))
  {
    var i := InputOf(s, w, mv);
    RunKeepsSound(w.db, s, CallsOf(Trace(cfg, s, w, mv)), w.m.g.pendingId.GetOr(0));
    Orchestrator.StepKeepsValid(cfg, w.m, i);
    if w.m.node == Orchestrator.DelegateNode {
      PauseNamesStoredApproval(cfg, s, w, mv);
      PausedAtAwait(cfg, Orchestrator.Step(cfg, w.m, i));
    } else {
      OnlyDelegationsPause(cfg, w.m, i);
    }
    hide Orchestrator.Step, Orchestrator.Valid, Trace, Sound, InputOf, System.Run;
  }

  lemma PausedAtAwait(cfg: Orchestrator.Config, m: Orchestrator.Machine)
    requires Orchestrator.Valid(cfg, m)
    ensures m.node == Orchestrator.AwaitNode <==> m.g.pendingId.Some?
  {
  }

  /** Whenever an orchestrated run waits, it waits for an approval that exists. */
  lemma {:induction false} PausesNameApprovals(cfg: Orchestrator.Config, s: Settings, w: World, moves: seq<Move>)
    requires Ready(cfg, s, w)
    ensures Ready(cfg, s, Run(cfg, s, w, moves))
    decreases |moves|
  {
    if moves != [] {
      StepStaysReady(cfg, s, w, moves[0]);
      hide Ready, Step;
      PausesNameApprovals(cfg, s, Step(cfg, s, w, moves[0]), moves[1..]);
    }
  }

  // ---- the gate ----

  /** Entry `i` of the node step is an approval of an action on the reservation, given by another request or by the
      manager who resumes the run, and then of the very approval the run waits for. */
  ghost predicate ApprovedByManager(cfg: Orchestrator.Config, s: Settings, w: World, mv: Move, i: nat, id: Id) {
    && i < |Trace(cfg, s, w, mv)|
    && var e, at := Trace(cfg, s, w, mv)[i], After(w.db, s, Trace(cfg, s, w, mv)[..i]);
       && e.origin != Tool && Gate.ApprovedActionOn(at, s, e.call, id)
       && (e.origin == Resume ==> Resumes(w, mv) && w.m.g.pendingId == Some(e.call.approval))
  }

  /** The reservation is changed between the two states and large in one of them. */
  predicate ChangesLarge(s: Settings, db: Db, db': Db, id: Id) {
    && id in db.reservations
    && (id in db'.reservations ==>
          && db'.reservations[id] != db.reservations[id]
          && (|| Booking.HighImpactParty(s, db.reservations[id].party)
              || Booking.HighImpactParty(s, db'.reservations[id].party)))
  }

  /** Whatever the models answer and the specialists call: if a node step changes a reservation that is large before it
      or after it, some entry of it is a manager's approval of an action on that reservation. */
  lemma LargeChangesInStep(cfg: Orchestrator.Config, s: Settings, w: World, mv: Move, id: Id) returns (i: nat)
    requires System.IdsUsed(w.db) && ToolsOnly(mv) && ChangesLarge(s, w.db, Step(cfg, s, w, mv).db, id)
    ensures ApprovedByManager(cfg, s, w, mv, i, id)
  {
    hide Orchestrator.Step, System.Run, System.Next;
    var es := Trace(cfg, s, w, mv);
    i := Gate.LargeChangesAreApproved(w.db, s, CallsOf(es), id);
    assert CallsOf(es[..i]) == CallsOf(es)[..i];
    ToolsDecideNothing(cfg, s, w, mv, i);
    hide Trace;
  }

  /** The same for every single call of a node step, whether the reservation is large before it or after it. */
  lemma LargeChangesAtEntry(cfg: Orchestrator.Config, s: Settings, w: World, mv: Move, i: nat, id: Id)
    requires System.IdsUsed(w.db) && ToolsOnly(mv) && i < |Trace(cfg, s, w, mv)|
    requires var at := After(w.db, s, Trace(cfg, s, w, mv)[..i]);
      var next := System.Next(at, s, Trace(cfg, s, w, mv)[i].call);
      && id in at.reservations && id in next.reservations && next.reservations[id] != at.reservations[id]
      && (|| Booking.HighImpactParty(s, at.reservations[id].party)
          || Booking.HighImpactParty(s, next.reservations[id].party))
    ensures ApprovedByManager(cfg, s, w, mv, i, id)
  {
    hide System.Run, System.Next;
    var es := Trace(cfg, s, w, mv);
    CallsKeepIds(w.db, s, CallsOf(es[..i]));
    Gate.LargePartiesChangeOnlyByApproval(After(w.db, s, es[..i]), s, es[i].call, id);
    ToolsDecideNothing(cfg, s, w, mv, i);
    hide Trace;
  }

  /** An orchestrated run changes a reservation that is large before it or after it only where a manager approves an
      action on it: in some node step of the run, by another request or by resuming it from that approval. */
  lemma {:induction false} OrchestrationCannotBypassTheGate(
    cfg: Orchestrator.Config, s: Settings, w: World, moves: seq<Move>, id: Id) returns (k: nat, i: nat)
    requires System.IdsUsed(w.db) && forall n | 0 <= n < |moves| :: ToolsOnly(moves[n])
    requires ChangesLarge(s, w.db, Run(cfg, s, w, moves).db, id)
    ensures k < |moves| && ApprovedByManager(cfg, s, Run(cfg, s, w, moves[..k]), moves[k], i, id)
    decreases |moves|
  {
    hide Step, ApprovedByManager;
    var w' := Step(cfg, s, w, moves[0]);
    if ChangesLarge(s, w.db, w'.db, id) {
      k := 0;
      i := LargeChangesInStep(cfg, s, w, moves[0], id);
      assert moves[..0] == [];
    } else {
      StepKeepsIds(cfg, s, w, moves[0]);
      var k', i' := OrchestrationCannotBypassTheGate(cfg, s, w', moves[1..], id);
      k, i := k' + 1, i';
      assert moves[..k][1..] == moves[1..][..k'];
    }
  }

  /** Entry `i` of the node step executes this purchase approval, by decision of another request or of the manager who
      resumes the run, and then it is the very approval the run waits for. */
  ghost predicate BoughtByManager(cfg: Orchestrator.Config, s: Settings, w: World, mv: Move, i: nat, approval: Id) {
    && i < |Trace(cfg, s, w, mv)|
    && var e, at := Trace(cfg, s, w, mv)[i], After(w.db, s, Trace(cfg, s, w, mv)[..i]);
       && e.origin != Tool && PurchaseLinks.ExecutesPurchase(at, s, e.call, approval)
       && (e.origin == Resume ==> Resumes(w, mv) && w.m.g.pendingId == Some(approval))
  }

  lemma PurchasesInStep(cfg: Orchestrator.Config, s: Settings, w: World, mv: Move, p: Id) returns (i: nat)
    requires Sound(w.db) && ToolsOnly(mv) && p in w.db.purchases && w.db.purchases[p].status == PendingApproval
    requires var ps := Step(cfg, s, w, mv).db.purchases; p in ps ==> ps[p] != w.db.purchases[p]
    ensures w.db.purchases[p].approval.Some?
    ensures BoughtByManager(cfg, s, w, mv, i, w.db.purchases[p].approval.value)
  {
    hide Orchestrator.Step, System.Run, System.Next, PurchaseLinks.Linked, System.Valid;
    var es := Trace(cfg, s, w, mv);
    i := PurchaseLinks.PurchasesAreApproved(w.db, s, CallsOf(es), p);
    assert CallsOf(es[..i]) == CallsOf(es)[..i];
    ToolsDecideNothing(cfg, s, w, mv, i);
    hide Trace;
  }

  /** An orchestrated run touches a pending purchase request only where a manager has its approval executed. */
  lemma {:induction false} OrchestrationCannotBuyUnapproved(
    cfg: Orchestrator.Config, s: Settings, w: World, moves: seq<Move>, p: Id) returns (k: nat, i: nat)
    requires Sound(w.db) && forall n | 0 <= n < |moves| :: ToolsOnly(moves[n])
    requires p in w.db.purchases && w.db.purchases[p].status == PendingApproval
    requires var ps := Run(cfg, s, w, moves).db.purchases; p in ps ==> ps[p] != w.db.purchases[p]
    ensures k < |moves| && w.db.purchases[p].approval.Some?
    ensures BoughtByManager(cfg, s, Run(cfg, s, w, moves[..k]), moves[k], i, w.db.purchases[p].approval.value)
    decreases |moves|
  {
    hide Step, BoughtByManager, Sound;
    var w' := Step(cfg, s, w, moves[0]);
    if p in w'.db.purchases && w'.db.purchases[p] == w.db.purchases[p] {
      StepKeepsSound(cfg, s, w, moves[0]);
      var k', i' := OrchestrationCannotBuyUnapproved(cfg, s, w', moves[1..], p);
      k, i := k' + 1, i';
      assert moves[..k][1..] == moves[1..][..k'];
    } else {
      k := 0;
      i := PurchasesInStep(cfg, s, w, moves[0], p);
      assert moves[..0] == [];
    }
  }

  lemma StepKeepsSound(cfg: Orchestrator.Config, s: Settings, w: World, mv: Move)
    requires Sound(w.db)
    ensures Sound(Step(cfg, s, w, mv).db)
  {
    RunKeepsSound(w.db, s, CallsOf(Trace(cfg, s, w, mv)), 0);
    hide System.Run, Orchestrator.Step, Trace, Sound;
  }

  lemma {:induction false} CallsKeepIds(db: Db, s: Settings, calls: seq<System.Call>)
    requires System.IdsUsed(db)
    ensures System.IdsUsed(System.Run(db, s, calls))
    decreases |calls|
  {
    if calls != [] {
      System.StepKeepsIds(db, s, calls[0]);
      hide System.Next;
      CallsKeepIds(System.Next(db, s, calls[0]), s, calls[1..]);
    }
  }

  lemma StepKeepsIds(cfg: Orchestrator.Config, s: Settings, w: World, mv: Move)
    requires System.IdsUsed(w.db)
    ensures System.IdsUsed(Step(cfg, s, w, mv).db)
  {
    CallsKeepIds(w.db, s, CallsOf(Trace(cfg, s, w, mv)));
    hide System.Run, Orchestrator.Step, Trace;
  }

  // ---- resuming ----

  predicate DecidedIn(db: Db, id: Id) {
    id in db.approvals && db.approvals[id].status in {Approved, Rejected}
  }

  /** Every approval the run has resolved is decided, and none was resolved twice. */
  ghost predicate ResolvedOnce(w: World) {
    && System.IdsUsed(w.db)
    && (forall id | id in w.m.resolved :: DecidedIn(w.db, id))
    && (forall i, j | 0 <= i < j < |w.m.resolved| :: w.m.resolved[i] != w.m.resolved[j])
  }

  lemma RunKeepsDecided(db: Db, s: Settings, calls: seq<System.Call>, id: Id)
    requires System.IdsUsed(db) && DecidedIn(db, id)
    ensures DecidedIn(System.Run(db, s, calls), id)
  {
    Lifecycle.DecisionsAreTerminal(db, s, calls, id);
  }

  /** A decision that is accepted turns a pending approval into a decided one; any other is refused and changes
      nothing. */
  lemma DecisionDecidesPending(db: Db, s: Settings, id: Id, d: Decision)
    requires System.IdsUsed(db)
    ensures var o := System.Step(db, s, DecisionCall(id, d));
      && o.db == System.Next(db, s, DecisionCall(id, d)) && System.IdsUsed(o.db)
      && (o.response.Ok? <==> id in db.approvals && db.approvals[id].status == Pending)
      && (o.response.Ok? ==> DecidedIn(o.db, id))
      && (o.response.Err? ==> o.db == db)
      && forall other | DecidedIn(db, other) :: DecidedIn(o.db, other)
  {
    var c := DecisionCall(id, d);
    assert System.Next(db, s, c) == System.Step(db, s, c).db;
    System.StepKeepsIds(db, s, c);
    System.StepAppliesRuling(db, s, c);
  }

  lemma OnlyResolutionsResolve(cfg: Orchestrator.Config, m: Orchestrator.Machine, i: Orchestrator.Input)
    ensures var m' := Orchestrator.Step(cfg, m, i);
      if m.node == Orchestrator.AwaitNode && m.g.pendingId.Some? && i.resolution.Some?
      then m'.resolved == m.resolved + [m.g.pendingId.value] && m'.g.pendingId.None?
      else m'.resolved == m.resolved
  {
  }

  /** A node step at a pause: the other requests, then the manager's decision. */
  lemma ResumeDecides(cfg: Orchestrator.Config, s: Settings, w: World, mv: Move)
    requires Resumes(w, mv)
    ensures Step(cfg, s, w, mv).db
         == System.Next(Start(s, w, mv), s, DecisionCall(w.m.g.pendingId.value, mv.decision.value))
  {
    hide System.Next, Orchestrator.Step, InputOf, System.Run;
    var e := Entry(Resume, DecisionCall(w.m.g.pendingId.value, mv.decision.value));
    assert Trace(cfg, s, w, mv) == FromOutside(mv.before) + [e];
    AfterAppend(w.db, s, FromOutside(mv.before), [e]);
    OneCall(Start(s, w, mv), s, e);
  }

  /** A node step resolves only by a manager's answer that turns a still pending approval into a decided one, and clears
      the pause by it. */
  lemma StepResolvesOnce(cfg: Orchestrator.Config, s: Settings, w: World, mv: Move)
    requires ResolvedOnce(w)
    ensures ResolvedOnce(Step(cfg, s, w, mv))
    ensures var w' := Step(cfg, s, w, mv); w'.m.resolved != w.m.resolved ==>
      && Resumes(w, mv) && w'.m.resolved == w.m.resolved + [w.m.g.pendingId.value] && w'.m.g.pendingId.None?
      && DecidedIn(w'.db, w.m.g.pendingId.value)
      && !DecidedIn(Start(s, w, mv), w.m.g.pendingId.value)
  {
    var start, i := Start(s, w, mv), InputOf(s, w, mv);
    CallsKeepIds(w.db, s, CallsOf(FromOutside(mv.before)));
    StepKeepsIds(cfg, s, w, mv);
    forall id | id in w.m.resolved
      ensures DecidedIn(start, id) && DecidedIn(Step(cfg, s, w, mv).db, id)
    {
      RunKeepsDecided(w.db, s, CallsOf(FromOutside(mv.before)), id);
      RunKeepsDecided(w.db, s, CallsOf(Trace(cfg, s, w, mv)), id);
    }
    if Resumes(w, mv) {
      DecisionDecidesPending(start, s, w.m.g.pendingId.value, mv.decision.value);
      ResumeDecides(cfg, s, w, mv);
    }
    OnlyResolutionsResolve(cfg, w.m, i);
    assert forall j | 0 <= j < |w.m.resolved| :: DecidedIn(start, w.m.resolved[j]);
    hide DecidedIn, Orchestrator.Step, System.Step, System.Run, Trace, After;
  }

  /** A successful resume decides its approval exactly once before clearing it, whatever else happens meanwhile; a
      resume whose approval somebody else has decided is refused and leaves the run paused. */
  lemma {:induction false} ResumesDecideOnce(cfg: Orchestrator.Config, s: Settings, w: World, moves: seq<Move>)
    requires ResolvedOnce(w)
    ensures ResolvedOnce(Run(cfg, s, w, moves))
    decreases |moves|
  {
    if moves != [] {
      StepResolvesOnce(cfg, s, w, moves[0]);
      hide Step, ResolvedOnce;
      ResumesDecideOnce(cfg, s, Step(cfg, s, w, moves[0]), moves[1..]);
    }
  }

  // ---- pauses that cannot end ----

  /** A run that waits for an approval already decided or expired waits forever: whatever anybody does, every resume is
      refused. */
  lemma {:induction false} DeadPauseIsForever(cfg: Orchestrator.Config, s: Settings, w: World, moves: seq<Move>, id: Id)
    requires System.IdsUsed(w.db) && w.m.node == Orchestrator.AwaitNode && w.m.g.pendingId == Some(id)
    requires id in w.db.approvals && w.db.approvals[id].status != Pending
    ensures Run(cfg, s, w, moves).m == w.m
    decreases |moves|
  {
    if moves != [] {
      var mv := moves[0];
      CallsKeepIds(w.db, s, CallsOf(FromOutside(mv.before)));
      StepKeepsIds(cfg, s, w, mv);
      Lifecycle.DecisionsAreTerminal(w.db, s, CallsOf(FromOutside(mv.before)), id);
      Lifecycle.DecisionsAreTerminal(w.db, s, CallsOf(Trace(cfg, s, w, mv)), id);
      if Resumes(w, mv) {
        DecisionDecidesPending(Start(s, w, mv), s, id, mv.decision.value);
      }
      assert Resolution(s, w, mv).None?;
      assert Step(cfg, s, w, mv).m == w.m;
      hide System.Run, Orchestrator.Step, Trace, Resolution;
      DeadPauseIsForever(cfg, s, Step(cfg, s, w, mv), moves[1..], id);
    }
  }

  lemma {:induction false} CallsKeepItems(db: Db, s: Settings, calls: seq<System.Call>)
    ensures System.Run(db, s, calls).items == db.items
    decreases |calls|
  {
    if calls != [] {
      System.StepFrame(db, s, calls[0]);
      hide System.Next;
      CallsKeepItems(System.Next(db, s, calls[0]), s, calls[1..]);
    }
  }

  /** The proposal of a specialist's only tool call for an item whose purchase was rejected or expired. */
  ghost predicate ProposesDeadItem(
    s: Settings, w: World, mv: Move, p: Id, q: Purchasing.PurchaseProposal, ctx: Context)
  {
    && p in w.db.purchases && w.db.purchases[p].approval.Some? && w.db.purchases[p].approval.value in w.db.approvals
    && w.db.approvals[w.db.purchases[p].approval.value].status in {Rejected, Expired}
    && q.item == w.db.purchases[p].item && q.item in w.db.items && w.db.items[q.item].restaurant == q.restaurant
    && mv.attempts(0).ending.Answered?
    && |mv.attempts(0).steps| == 1 && mv.attempts(0).steps[0].call == System.Purchase(q, ctx)
  }

  lemma DeadItemIsAwaited(s: Settings, w: World, mv: Move, p: Id, q: Purchasing.PurchaseProposal, ctx: Context)
    requires Sound(w.db) && ProposesDeadItem(s, w, mv, p, q, ctx)
    ensures ReportOf(Start(s, w, mv), s, mv.attempts, 0).status.Pending?
    ensures RecordsOf(After(Start(s, w, mv), s, AttemptEntries(mv.attempts, 0)), s, mv.attempts(0).steps)
         == [ToolLoop.Record(mv.attempts(0).steps[0].named, ToolLoop.PendingApproval(w.db.purchases[p].approval.value))]
  {
    var step, start := mv.attempts(0).steps[0], Start(s, w, mv);
    OutsideCalls(mv.before);
    assert After(start, s, []) == start;
    System.RunSplits(w.db, s, mv.before, step.others);
    CallsKeepItems(w.db, s, mv.before + step.others);
    PurchaseLinks.DeadApprovalBlocksItem(w.db, s, mv.before + step.others, p, q, ctx);
    hide System.Run, Purchasing.ProposePurchase;
    assert RecordsOf(After(start, s, StepEntries(step)), s, mv.attempts(0).steps[1..]) == [];
  }

  /** Proposing such a purchase parks an orchestrated run: it waits for the dead approval, and no later resume is
      accepted. */
  lemma DeadProposalParksRun(
    cfg: Orchestrator.Config, s: Settings, w: World, mv: Move, p: Id, q: Purchasing.PurchaseProposal, ctx: Context,
    moves: seq<Move>)
    requires Sound(w.db) && Orchestrator.Valid(cfg, w.m) && w.m.node == Orchestrator.DelegateNode
    requires ProposesDeadItem(s, w, mv, p, q, ctx)
    ensures var w' := Step(cfg, s, w, mv);
      && w'.m.node == Orchestrator.AwaitNode && w'.m.g.pendingId == w.db.purchases[p].approval
      && Run(cfg, s, w', moves).m == w'.m
  {
    var id := w.db.purchases[p].approval.value;
    DeadItemIsAwaited(s, w, mv, p, q, ctx);
    hide ReportOf, RecordsOf;
    Orchestrator.AttemptsBounds(InputOf(s, w, mv).results, 1, cfg.maxRetries);
    Orchestrator.RetriedExactlyOnError(InputOf(s, w, mv).results, cfg.maxRetries, 0);
    assert LastAttempt(cfg, s, w, mv) == 0;
    PauseNamesStoredApproval(cfg, s, w, mv);
    Lifecycle.DecisionsAreTerminal(w.db, s, CallsOf(Trace(cfg, s, w, mv)), id);
    StepKeepsIds(cfg, s, w, mv);
    DeadPauseIsForever(cfg, s, Step(cfg, s, w, mv), moves, id);
  }

  // ---- what retrying costs ----

  /** The specialist proposes the same gated change in both of its first two runs, and only the second ends with an
      answer. */
  ghost predicate ProposesTwice(s: Settings, w: World, mv: Move, c: System.Call) {
    && (c.Modify? || c.Cancel?) && System.RulingOf(w.db, s, c).Asked? && mv.before == []
    && (forall j: nat | j < 2 ::
          && |mv.attempts(j).steps| == 1 && mv.attempts(j).steps[0].others == [] && mv.attempts(j).steps[0].call == c)
    && !mv.attempts(0).ending.Answered? && mv.attempts(1).ending.Answered?
  }

  lemma OneToolCall(db: Db, s: Settings, step: ToolStep)
    requires step.others == []
    ensures After(db, s, EntriesOf([step])) == System.Next(db, s, step.call)
    ensures RecordsOf(db, s, [step]) ==
      match System.Step(db, s, step.call).response
      case Ok(r) => [ToolLoop.Record(step.named, OutputOf(r, step.data))]
      case Err(_) => []
  {
    assert EntriesOf([step]) == [Entry(Tool, step.call)];
    OneCall(db, s, Entry(Tool, step.call));
    hide System.Next, System.Step;
  }

  lemma BothProposalsAreStored(s: Settings, w: World, mv: Move, c: System.Call)
    requires ProposesTwice(s, w, mv, c)
    ensures var row := System.RulingOf(w.db, s, c).row;
      && row.status == Pending
      && After(w.db, s, AttemptEntries(mv.attempts, 2)).approvals
         == w.db.approvals[w.db.nextId := row][w.db.nextId + 1 := row]
    ensures ReportOf(w.db, s, mv.attempts, 0).status.Error?
    ensures RecordsOf(After(w.db, s, AttemptEntries(mv.attempts, 1)), s, mv.attempts(1).steps)
         == [ToolLoop.Record(mv.attempts(1).steps[0].named, ToolLoop.PendingApproval(w.db.nextId + 1))]
  {
    var once := System.Next(w.db, s, c);
    assert AttemptEntries(mv.attempts, 0) == [] && After(w.db, s, []) == w.db;
    assert mv.attempts(0).steps == [mv.attempts(0).steps[0]] && mv.attempts(1).steps == [mv.attempts(1).steps[0]];
    Gate.RepeatedProposalsDuplicate(w.db, s, c);
    Gate.RepeatedProposalsDuplicate(once, s, c);
    OneToolCall(w.db, s, mv.attempts(0).steps[0]);
    OneToolCall(once, s, mv.attempts(1).steps[0]);
    hide System.Next, System.Step, System.Run, System.RulingOf, RecordsOf, EntriesOf, After;
    var one, two := AttemptEntries(mv.attempts, 1), AttemptEntries(mv.attempts, 2);
    assert one == EntriesOf(mv.attempts(0).steps) && two == one + EntriesOf(mv.attempts(1).steps);
    AfterAppend(w.db, s, one, EntriesOf(mv.attempts(1).steps));
  }

  /** A retried specialist that proposes again leaves two equal pending approvals, of which the run waits for the
      second only. */
  lemma RetryDuplicatesApproval(cfg: Orchestrator.Config, s: Settings, w: World, mv: Move, c: System.Call)
    requires w.m.node == Orchestrator.DelegateNode && w.m.g.next.Some? && cfg.maxRetries >= 1
    requires ProposesTwice(s, w, mv, c)
    ensures var w', first, row := Step(cfg, s, w, mv), w.db.nextId, System.RulingOf(w.db, s, c).row;
      && row.status == Pending
      && w'.db.approvals == w.db.approvals[first := row][first + 1 := row]
      && w'.m.node == Orchestrator.AwaitNode && w'.m.g.pendingId == Some(first + 1)
  {
    var results := InputOf(s, w, mv).results;
    BothProposalsAreStored(s, w, mv, c);
    assert Start(s, w, mv) == w.db;
    hide System.Run, System.RulingOf, RecordsOf, After, AttemptEntries;
    Orchestrator.AttemptsBounds(results, 1, cfg.maxRetries);
    Orchestrator.RetriedExactlyOnError(results, cfg.maxRetries, 0);
    Orchestrator.RetriedExactlyOnError(results, cfg.maxRetries, 1);
    assert AttemptsMade(cfg, s, w, mv) == 2;
    assert Trace(cfg, s, w, mv) == AttemptEntries(mv.attempts, 2);
  }
}
