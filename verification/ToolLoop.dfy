/**
 The bounded tool-calling loop of a specialist agent, for any behaviour of the language model and of the tools: what the
 model answers on each turn and what each executed tool call does are arbitrary functions.
 */
module ToolLoop {
  import opened Prelude
  import opened AgentRuns

  datatype ToolCall = ToolCall(name: string, arguments: string)

  /** The model's reply: it fails, or answers with text and tool calls, none meaning a final answer. */
  datatype Reply = Fails | Response(content: string, calls: seq<ToolCall>)

  /** A successful tool's output: its normal output, or the notice that the action waits for an approval. */
  datatype Output = Plain(data: string) | PendingApproval(approval: Id)

  /** A tool call returns an output or ends in an error the model is told about. */
  datatype ToolReply = Returned(output: Output) | Errored(code: string)

  datatype Message = System | User | Assistant(calls: seq<ToolCall>) | ToolMessage(name: string, reply: ToolReply)

  datatype Record = Record(call: ToolCall, output: Output)

  datatype Status = Completed | Pending | Error

  /** How the loop ends: a final answer, the iteration cap, or a failing model. */
  datatype Ending = Answered | OutOfSteps | ModelFailed

  datatype AgentResult = AgentResult(status: Status, toolCalls: seq<Record>, data: Option<Output>)

  /** An agent's model and tools: the reply on each turn, the tools it has, and what they do on each call of each
      turn. */
  datatype World = World(llm: nat -> Reply, tools: set<string>, tool: (nat, nat) -> ToolReply)

  // ---- what happens on each turn ----

  function CallsAt(w: World, t: nat): seq<ToolCall> {
    if w.llm(t).Response? then w.llm(t).calls else []
  }

  /** The turn asks for tools, so that the loop goes on. */
  predicate Continues(w: World, t: nat) {
    CallsAt(w, t) != []
  }

  /** What call `j` of turn `t` ends in. */
  function Reaction(w: World, t: nat, j: nat): ToolReply
    requires j < |CallsAt(w, t)|
  {
    if CallsAt(w, t)[j].name in w.tools then w.tool(t, j) else Errored("unknown_tool")
  }

  /** The tool messages of the first `n` calls of turn `t`, one per call and in order. */
  function ToolMessages(w: World, t: nat, n: nat): seq<Message>
    requires n <= |CallsAt(w, t)|
  {
    if n == 0 then [] else ToolMessages(w, t, n - 1) + [ToolMessage(CallsAt(w, t)[n - 1].name, Reaction(w, t, n - 1))]
  }

  /** Those of the first `n` calls of turn `t` that returned an output. */
  function Successes(w: World, t: nat, n: nat): seq<Record>
    requires n <= |CallsAt(w, t)|
  {
    if n == 0 then []
    else
      var reply := Reaction(w, t, n - 1);
      Successes(w, t, n - 1) + if reply.Returned? then [Record(CallsAt(w, t)[n - 1], reply.output)] else []
  }

  /** The conversation of the first `n` turns. */
  function Transcript(w: World, n: nat): seq<Message> {
    if n == 0 then []
    else Transcript(w, n - 1) + [Assistant(CallsAt(w, n - 1))] + ToolMessages(w, n - 1, |CallsAt(w, n - 1)|)
  }

  /** The successful calls of the first `n` turns. */
  function Recorded(w: World, n: nat): seq<Record> {
    if n == 0 then [] else Recorded(w, n - 1) + Successes(w, n - 1, |CallsAt(w, n - 1)|)
  }

  /** What is persisted of a message: its role, and the tool it comes from. */
  datatype LogEntry = LogEntry(role: Role, tool: Option<string>)

  function EntryOf(m: Message): LogEntry {
    match m
    case Assistant(_) => LogEntry(AssistantRole, None)
    case ToolMessage(name, _) => LogEntry(ToolResultRole, Some(name))
    case System => LogEntry(UserRole, None)
    case User => LogEntry(UserRole, None)
  }

  function Persisted(ms: seq<Message>): seq<LogEntry> {
    seq(|ms|, i requires 0 <= i < |ms| => EntryOf(ms[i]))
  }

  lemma PersistedAppends(ms: seq<Message>, more: seq<Message>)
    ensures Persisted(ms + more) == Persisted(ms) + Persisted(more)
  {
  }

  lemma NothingIsPersisted(w: World, t: nat)
    ensures Persisted(ToolMessages(w, t, 0)) == []
  {
  }

  lemma ToolMessageIsPersisted(w: World, t: nat, j: nat)
    requires j < |CallsAt(w, t)|
    ensures Persisted(ToolMessages(w, t, j + 1))
         == Persisted(ToolMessages(w, t, j)) + [LogEntry(ToolResultRole, Some(CallsAt(w, t)[j].name))]
  {
    PersistedAppends(ToolMessages(w, t, j), [ToolMessage(CallsAt(w, t)[j].name, Reaction(w, t, j))]);
  }

  lemma TurnExtends(w: World, t: nat, before: seq<Message>)
    ensures var tools := |CallsAt(w, t)|;
      && before + Transcript(w, t + 1)
         == before + Transcript(w, t) + [Assistant(CallsAt(w, t))] + ToolMessages(w, t, tools)
      && Recorded(w, t + 1) == Recorded(w, t) + Successes(w, t, tools)
  {
    hide ToolMessages, Successes;
  }

  /** A turn continues the log with the model's message and the tools'. */
  lemma TurnIsPersisted(w: World, t: nat, before: seq<LogEntry>)
    ensures Persisted(Transcript(w, 0)) == []
    ensures before + Persisted(Transcript(w, t)) + [LogEntry(AssistantRole, None)]
            + Persisted(ToolMessages(w, t, |CallsAt(w, t)|))
         == before + Persisted(Transcript(w, t + 1))
  {
    var model, tools := [Assistant(CallsAt(w, t))], ToolMessages(w, t, |CallsAt(w, t)|);
    PersistedAppends(Transcript(w, t) + model, tools);
    PersistedAppends(Transcript(w, t), model);
    assert Persisted(model) == [LogEntry(AssistantRole, None)];
    hide Persisted, ToolMessages;
  }

  // ---- the transcript, read from the front ----

  /** Each assistant message is followed by exactly one tool message per call it made, in order. */
  predicate WellPaired(ms: seq<Message>)
    decreases |ms|
  {
    ms == [] || (ms[0].Assistant? && |ms| > |ms[0].calls| && Answers(ms[0].calls, ms[1..1 + |ms[0].calls|])
                 && WellPaired(ms[1 + |ms[0].calls|..]))
  }

  predicate Answers(calls: seq<ToolCall>, ms: seq<Message>) {
    |ms| == |calls| && forall i | 0 <= i < |ms| :: ms[i].ToolMessage? && ms[i].name == calls[i].name
  }

  lemma {:induction false} ToolMessagesAnswer(w: World, t: nat, n: nat)
    requires n <= |CallsAt(w, t)|
    ensures Answers(CallsAt(w, t)[..n], ToolMessages(w, t, n))
    decreases n
  {
    if n > 0 {
      ToolMessagesAnswer(w, t, n - 1);
    }
  }

  lemma PairedCons(calls: seq<ToolCall>, answers: seq<Message>, rest: seq<Message>)
    requires Answers(calls, answers)
    ensures WellPaired([Assistant(calls)] + answers + rest) <==> WellPaired(rest)
  {
    var ms := [Assistant(calls)] + answers + rest;
    assert ms[1..1 + |calls|] == answers;
    assert ms[1 + |calls|..] == rest;
    hide Answers;
  }

  lemma FirstTurn(ms: seq<Message>)
    requires ms != [] && WellPaired(ms)
    ensures ms[0].Assistant? && |ms| > |ms[0].calls|
    ensures Answers(ms[0].calls, ms[1..1 + |ms[0].calls|]) && WellPaired(ms[1 + |ms[0].calls|..])
  {
    hide Answers;
  }

  lemma Regrouped<T>(a: seq<T>, b: seq<T>, c: seq<T>)
    ensures a + b + c == a + (b + c)
  {
  }

  lemma {:induction false} PairedAppend(ms: seq<Message>, calls: seq<ToolCall>, answers: seq<Message>)
    requires WellPaired(ms) && Answers(calls, answers)
    ensures WellPaired(ms + ([Assistant(calls)] + answers))
    decreases |ms|
  {
    var tail := [Assistant(calls)] + answers;
    if ms == [] {
      PairedCons(calls, answers, []);
      assert WellPaired([]);
      hide WellPaired, Answers;
      assert [] + tail == tail + [];
    } else {
      hide WellPaired, Answers;
      FirstTurn(ms);
      var first, n := ms[0].calls, |ms[0].calls|;
      var own, rest := ms[1..1 + n], ms[1 + n..];
      PairedAppend(rest, calls, answers);
      PairedCons(first, own, rest + tail);
      assert ms == [Assistant(first)] + own + rest;
      Regrouped([Assistant(first)] + own, rest, tail);
    }
  }

  /** Any transcript is well paired. */
  lemma {:induction false} TranscriptIsPaired(w: World, n: nat)
    ensures WellPaired(Transcript(w, n))
    decreases n
  {
    if n > 0 {
      hide WellPaired, Answers, ToolMessages, CallsAt;
      var calls := CallsAt(w, n - 1);
      TranscriptIsPaired(w, n - 1);
      ToolMessagesAnswer(w, n - 1, |calls|);
      assert calls[..|calls|] == calls;
      PairedAppend(Transcript(w, n - 1), calls, ToolMessages(w, n - 1, |calls|));
      Regrouped(Transcript(w, n - 1), [Assistant(calls)], ToolMessages(w, n - 1, |calls|));
    }
  }

  /** The successful tool messages of a transcript. */
  function SuccessfulIn(ms: seq<Message>): seq<Output> {
    if ms == [] then []
    else
      var last := ms[|ms| - 1];
      SuccessfulIn(ms[..|ms| - 1]) + if last.ToolMessage? && last.reply.Returned? then [last.reply.output] else []
  }

  function OutputsOf(rs: seq<Record>): seq<Output> {
    seq(|rs|, i requires 0 <= i < |rs| => rs[i].output)
  }

  lemma SuccessfulAppend(ms: seq<Message>, m: Message)
    ensures SuccessfulIn(ms + [m])
         == SuccessfulIn(ms) + if m.ToolMessage? && m.reply.Returned? then [m.reply.output] else []
  {
    assert (ms + [m])[..|ms|] == ms;
  }

  lemma OutputsAppend(rs: seq<Record>, more: seq<Record>)
    ensures OutputsOf(rs + more) == OutputsOf(rs) + OutputsOf(more)
  {
  }

  lemma OutputsOfAtMostOne(rs: seq<Record>)
    requires |rs| <= 1
    ensures OutputsOf(rs) == if rs == [] then [] else [rs[0].output]
  {
  }

  lemma CallUnfolds(w: World, t: nat, n: nat)
    requires n < |CallsAt(w, t)|
    ensures var call, reply := CallsAt(w, t)[n], Reaction(w, t, n);
      && ToolMessages(w, t, n + 1) == ToolMessages(w, t, n) + [ToolMessage(call.name, reply)]
      && Successes(w, t, n + 1)
         == Successes(w, t, n) + if reply.Returned? then [Record(call, reply.output)] else []
  {
  }

  lemma OneMoreReply(ms: seq<Message>, rs: seq<Record>, call: ToolCall, reply: ToolReply)
    requires SuccessfulIn(ms) == OutputsOf(rs)
    ensures SuccessfulIn(ms + [ToolMessage(call.name, reply)])
         == OutputsOf(rs + if reply.Returned? then [Record(call, reply.output)] else [])
  {
    var one := if reply.Returned? then [Record(call, reply.output)] else [];
    SuccessfulAppend(ms, ToolMessage(call.name, reply));
    OutputsAppend(rs, one);
    OutputsOfAtMostOne(one);
    hide SuccessfulIn, OutputsOf;
  }

  lemma {:induction false} SuccessesAreRecorded(w: World, t: nat, n: nat, before: seq<Message>, records: seq<Record>)
    requires n <= |CallsAt(w, t)| && SuccessfulIn(before) == OutputsOf(records)
    ensures SuccessfulIn(before + ToolMessages(w, t, n)) == OutputsOf(records + Successes(w, t, n))
    decreases n
  {
    hide *;
    if n == 0 {
      NoneYet(w, t);
      assert before + [] == before && records + [] == records;
    } else {
      SuccessesAreRecorded(w, t, n - 1, before, records);
      CallUnfolds(w, t, n - 1);
      var call, reply := CallsAt(w, t)[n - 1], Reaction(w, t, n - 1);
      var one := if reply.Returned? then [Record(call, reply.output)] else [];
      Regrouped(before, ToolMessages(w, t, n - 1), [ToolMessage(call.name, reply)]);
      Regrouped(records, Successes(w, t, n - 1), one);
      OneMoreReply(before + ToolMessages(w, t, n - 1), records + Successes(w, t, n - 1), call, reply);
    }
  }

  lemma NoneYet(w: World, t: nat)
    ensures ToolMessages(w, t, 0) == [] && Successes(w, t, 0) == []
  {
  }

  /** The recorded tool calls are exactly the successful ones among the tool messages, in order. */
  lemma {:induction false} RecordsAreSuccesses(w: World, n: nat)
    ensures SuccessfulIn(Transcript(w, n)) == OutputsOf(Recorded(w, n))
    decreases n
  {
    if n > 0 {
      RecordsAreSuccesses(w, n - 1);
      var ms := Transcript(w, n - 1) + [Assistant(CallsAt(w, n - 1))];
      assert ms[..|ms| - 1] == Transcript(w, n - 1);
      assert SuccessfulIn(Transcript(w, n - 1)) + [] == SuccessfulIn(Transcript(w, n - 1));
      SuccessesAreRecorded(w, n - 1, |CallsAt(w, n - 1)|, ms, Recorded(w, n - 1));
    }
  }

  // ---- the result ----

  function FinalStatus(calls: seq<Record>): Status {
    if calls != [] && calls[|calls| - 1].output.PendingApproval? then Pending else Completed
  }

  function ResultOf(ending: Ending, calls: seq<Record>): AgentResult {
    AgentResult(
      if ending.Answered? then FinalStatus(calls) else Error,
      calls,
      if calls == [] then None else Some(calls[|calls| - 1].output))
  }

  /** The approval id among the result's data. */
  function ApprovalIn(r: AgentResult): Option<Id> {
    if r.data.Some? && r.data.value.PendingApproval? then Some(r.data.value.approval) else None
  }

  /** A run reports a pending approval exactly when it ended with an answer and its last successful tool call was gated;
      the result then carries that call's approval id. */
  lemma PendingMeansLastCallGated(ending: Ending, calls: seq<Record>)
    ensures ResultOf(ending, calls).status == Pending
            <==> ending.Answered? && calls != [] && calls[|calls| - 1].output.PendingApproval?
    ensures ResultOf(ending, calls).status == Pending ==>
      ApprovalIn(ResultOf(ending, calls)) == Some(calls[|calls| - 1].output.approval)
  {
  }

  // ---- the agent ----

  /** The mutable state of one run. */
  class AgentState {
    var iterations: nat
    var messages: seq<Message>
    var toolCalls: seq<Record>

    constructor ()
      ensures iterations == 0 && messages == [System, User] && toolCalls == []
    {
      iterations, messages, toolCalls := 0, [System, User], [];
    }

    /** Messages and records are those of the first `n` turns. */
    predicate Tracks(w: World, n: nat)
      reads this
    {
      messages == [System, User] + Transcript(w, n) && toolCalls == Recorded(w, n)
    }
  }

  class ToolCallingAgent {
    const w: World
    const maxIterations: int
    const service: AgentRunService

    constructor (w: World, maxIterations: int, service: AgentRunService)
      ensures this.w == w && this.maxIterations == maxIterations && this.service == service
    {
      this.w, this.maxIterations, this.service := w, maxIterations, service;
    }

    /** The run's messages in the log. */
    function Logs(run: Id): seq<LogEntry>
      reads service
    {
      var rows := MessagesOf(service.messages, run);
      seq(|rows|, i requires 0 <= i < |rows| => LogEntry(rows[i].role, rows[i].tool))
    }

    method Log(run: Id, role: Role, tool: Option<string>)
      requires service.Valid()
      modifies service`messages
      ensures service.Valid() && Logs(run) == old(Logs(run)) + [LogEntry(role, tool)]
    {
      LoggingExtendsOneRun(service.messages, run, role, tool, run);
      service.LogMessage(run, role, tool);
    }

    method ExecuteToolCall(t: nat, j: nat, state: AgentState, run: Id)
      requires j < |CallsAt(w, t)| && service.Valid()
      modifies state`messages, state`toolCalls, service`messages
      ensures service.Valid()
      ensures Logs(run) == old(Logs(run)) + [LogEntry(ToolResultRole, Some(CallsAt(w, t)[j].name))]
      ensures var call, reply := CallsAt(w, t)[j], Reaction(w, t, j);
        && state.messages == old(state.messages) + [ToolMessage(call.name, reply)]
        && state.toolCalls == old(state.toolCalls) + if reply.Returned? then [Record(call, reply.output)] else []
    {
      var call := CallsAt(w, t)[j];
      var reply: ToolReply;
      if call.name !in w.tools {
        reply := Errored("unknown_tool");
      } else {
        reply := w.tool(t, j);
        if reply.Returned? {
          state.toolCalls := state.toolCalls + [Record(call, reply.output)];
        }
      }
      state.messages := state.messages + [ToolMessage(call.name, reply)];
      Log(run, ToolResultRole, Some(call.name));
    }

    /** One assistant message with its tool calls, executed in order. */
    method TakeTurn(t: nat, state: AgentState, run: Id)
      requires service.Valid() && state.Tracks(w, t)
      modifies state`messages, state`toolCalls, service`messages
      ensures service.Valid() && state.Tracks(w, t + 1)
      ensures Logs(run) == old(Logs(run)) + Persisted(ToolMessages(w, t, |CallsAt(w, t)|))
    {
      hide Persisted, MessagesOf, Transcript, Recorded;
      var calls := CallsAt(w, t);
      TurnExtends(w, t, [System, User]);
      NothingIsPersisted(w, t);
      ghost var before := state.messages + [Assistant(calls)];
      state.messages := state.messages + [Assistant(calls)];
      for j := 0 to |calls|
        invariant service.Valid() && Logs(run) == old(Logs(run)) + Persisted(ToolMessages(w, t, j))
        invariant state.messages == before + ToolMessages(w, t, j)
        invariant state.toolCalls == old(state.toolCalls) + Successes(w, t, j)
      {
        ToolMessageIsPersisted(w, t, j);
        ExecuteToolCall(t, j, state, run);
      }
    }

    /** Asks the model, executes its calls and feeds the outcomes back, until it answers, fails or runs out of steps. */
    method RunLoop(state: AgentState, run: Id) returns (ending: Ending, ghost turns: nat)
      requires service.Valid() && state.iterations == 0 && state.Tracks(w, 0)
      modifies state, service`messages
      ensures service.Valid() && state.Tracks(w, turns)
      ensures forall t | 0 <= t < turns :: Continues(w, t)
      ensures ending == if turns >= maxIterations then OutOfSteps
                        else if w.llm(turns).Fails? then ModelFailed
                        else Answered
      ensures turns < maxIterations ==> !Continues(w, turns)
      ensures state.iterations == turns + if ending.OutOfSteps? then 0 else 1
      ensures state.iterations <= if maxIterations < 0 then 0 else maxIterations
      ensures Logs(run) == old(Logs(run)) + Persisted(Transcript(w, turns))
                           + if ending.ModelFailed? then [] else [LogEntry(AssistantRole, None)]
    {
      hide Transcript, Recorded, MessagesOf, Persisted, ToolMessages;
      ghost var logs := Logs(run);
      TurnIsPersisted(w, 0, logs);
      turns := 0;
      while state.iterations < maxIterations
        invariant service.Valid() && turns == state.iterations && state.Tracks(w, turns)
        invariant turns == 0 || turns <= maxIterations
        invariant forall t | 0 <= t < turns :: Continues(w, t)
        invariant Logs(run) == logs + Persisted(Transcript(w, turns))
        decreases maxIterations - state.iterations
      {
        var t := state.iterations;
        state.iterations := state.iterations + 1;
        var response := w.llm(t);
        if response.Fails? {
          return ModelFailed, turns;
        }
        Log(run, AssistantRole, None);
        if response.calls == [] {
          return Answered, turns;
        }
        TurnIsPersisted(w, t, logs);
        TakeTurn(t, state, run);
        turns := turns + 1;
      }
      Log(run, AssistantRole, None);
      ending := OutOfSteps;
    }

    /** Never raises: a failing model or an exhausted loop comes back as an error result. */
    method HandleTask(run: Id) returns (r: AgentResult, ending: Ending, state: AgentState, ghost turns: nat)
      requires service.Valid()
      modifies service`messages
      ensures service.Valid() && r == ResultOf(ending, Recorded(w, turns))
      ensures ending == if turns >= maxIterations then OutOfSteps
                        else if w.llm(turns).Fails? then ModelFailed
                        else Answered
      ensures forall t | 0 <= t < turns :: Continues(w, t)
      ensures turns < maxIterations ==> !Continues(w, turns)
      ensures state.iterations <= if maxIterations < 0 then 0 else maxIterations
      ensures state.messages == [System, User] + Transcript(w, turns)
      ensures Logs(run) == old(Logs(run)) + [LogEntry(UserRole, None)] + Persisted(Transcript(w, turns))
                           + if ending.ModelFailed? then [] else [LogEntry(AssistantRole, None)]
    {
      Log(run, UserRole, None);
      state := new AgentState();
      ending, turns := RunLoop(state, run);
      var status := if ending.Answered? then FinalStatus(state.toolCalls) else Error;
      r := AgentResult(status, state.toolCalls,
                       if state.toolCalls == [] then None else Some(state.toolCalls[|state.toolCalls| - 1].output));
    }
  }
}
