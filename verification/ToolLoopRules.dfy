/** The tool loop's conversation message by message, its records call by call, and its result, told on the model's
    replies and the tools' behaviour alone. */
module ToolLoopRules {
  import opened Prelude
  import opened ToolLoop
  import AgentRuns

  /** The tool calls of a turn. */
  function Turn(w: World, t: nat): seq<ToolCall> {
    match w.llm(t)
    case Response(_, calls) => calls
    case Fails => []
  }

  /** What a tool call ends in: what the tool does, or an error if there is no such tool. */
  function Outcome(w: World, t: nat, j: nat): ToolReply
    requires j < |Turn(w, t)|
  {
    if Turn(w, t)[j].name in w.tools then w.tool(t, j) else Errored("unknown_tool")
  }

  /** How many messages the first `t` turns make: one for the model, and one for each tool call. */
  function Length(w: World, t: nat): nat {
    if t == 0 then 0 else Length(w, t - 1) + 1 + |Turn(w, t - 1)|
  }

  lemma {:induction false} ToolMessageAt(w: World, t: nat, n: nat)
    requires n <= |Turn(w, t)|
    ensures |ToolMessages(w, t, n)| == n
    ensures forall j | 0 <= j < n :: ToolMessages(w, t, n)[j] == ToolMessage(Turn(w, t)[j].name, Outcome(w, t, j))
    decreases n
  {
    if n > 0 {
      ToolMessageAt(w, t, n - 1);
    }
  }

  /** The messages from `at` on are the turn's: the model's, with its calls, then one for each call that says what
      became of it. */
  predicate TurnAt(w: World, ms: seq<Message>, at: nat, t: nat) {
    && at + 1 + |Turn(w, t)| <= |ms|
    && ms[at] == Assistant(Turn(w, t))
    && forall j | 0 <= j < |Turn(w, t)| :: ms[at + 1 + j] == ToolMessage(Turn(w, t)[j].name, Outcome(w, t, j))
  }

  lemma TurnStays(w: World, ms: seq<Message>, more: seq<Message>, at: nat, t: nat)
    requires TurnAt(w, ms, at, t)
    ensures TurnAt(w, ms + more, at, t)
  {
  }

  /** The messages a turn adds. */
  function TurnMessages(w: World, t: nat): seq<Message> {
    [Assistant(Turn(w, t))] + ToolMessages(w, t, |Turn(w, t)|)
  }

  lemma NextTurnAt(w: World, ms: seq<Message>, t: nat)
    ensures TurnAt(w, ms + TurnMessages(w, t), |ms|, t)
    ensures |ms + TurnMessages(w, t)| == |ms| + 1 + |Turn(w, t)|
  {
    ToolMessageAt(w, t, |Turn(w, t)|);
    hide ToolMessages, Outcome;
  }

  lemma TranscriptUnfolds(w: World, n: nat)
    ensures Transcript(w, n + 1) == Transcript(w, n) + TurnMessages(w, n)
  {
    Regrouped(Transcript(w, n), [Assistant(Turn(w, n))], ToolMessages(w, n, |Turn(w, n)|));
    hide ToolMessages;
  }

  lemma LengthUnfolds(w: World, n: nat)
    ensures Length(w, 0) == |Transcript(w, 0)| == 0
    ensures Length(w, n + 1) == Length(w, n) + 1 + |Turn(w, n)|
  {
  }

  lemma {:induction false} TranscriptLength(w: World, n: nat)
    ensures |Transcript(w, n)| == Length(w, n)
    decreases n
  {
    hide *;
    if n == 0 {
      LengthUnfolds(w, 0);
    } else {
      TranscriptLength(w, n - 1);
      LengthUnfolds(w, n - 1);
      TranscriptUnfolds(w, n - 1);
      NextTurnAt(w, Transcript(w, n - 1), n - 1);
    }
  }

  /** The conversation of `n` turns holds each of them, where the ones before it end. */
  lemma {:induction false} TranscriptAt(w: World, n: nat, t: nat)
    requires t < n
    ensures |Transcript(w, n)| == Length(w, n) && TurnAt(w, Transcript(w, n), Length(w, t), t)
    decreases n
  {
    hide *;
    TranscriptLength(w, n);
    TranscriptUnfolds(w, n - 1);
    if t < n - 1 {
      TranscriptAt(w, n - 1, t);
      TurnStays(w, Transcript(w, n - 1), TurnMessages(w, n - 1), Length(w, t), t);
    } else {
      TranscriptLength(w, t);
      NextTurnAt(w, Transcript(w, t), t);
    }
  }

  /** The entries from `at` on are the turn's: the model's, then one under each called tool's name. */
  predicate LoggedAt(w: World, log: seq<LogEntry>, at: nat, t: nat) {
    && at + 1 + |Turn(w, t)| <= |log|
    && log[at] == LogEntry(AgentRuns.AssistantRole, None)
    && forall j | 0 <= j < |Turn(w, t)| ::
         log[at + 1 + j] == LogEntry(AgentRuns.ToolResultRole, Some(Turn(w, t)[j].name))
  }

  lemma TurnIsLogged(w: World, ms: seq<Message>, at: nat, t: nat)
    requires TurnAt(w, ms, at, t)
    ensures |Persisted(ms)| == |ms| && LoggedAt(w, Persisted(ms), at, t)
  {
    hide Outcome, Turn;
  }

  /** The persisted log holds each turn, too, entry by message. */
  lemma LogAt(w: World, n: nat, t: nat)
    requires t < n
    ensures |Persisted(Transcript(w, n))| == Length(w, n) && LoggedAt(w, Persisted(Transcript(w, n)), Length(w, t), t)
  {
    hide *;
    TranscriptAt(w, n, t);
    TurnIsLogged(w, Transcript(w, n), Length(w, t), t);
  }

  /** The calls of turn `t`, from the `j`-th on, that returned an output. */
  function Successful(w: World, t: nat, j: nat): seq<Record>
    decreases |Turn(w, t)| - j
  {
    if j >= |Turn(w, t)| then []
    else
      var reply := Outcome(w, t, j);
      (if reply.Returned? then [Record(Turn(w, t)[j], reply.output)] else []) + Successful(w, t, j + 1)
  }

  lemma {:induction false} SuccessesJoin(w: World, t: nat, n: nat)
    requires n <= |Turn(w, t)|
    ensures Successes(w, t, n) + Successful(w, t, n) == Successful(w, t, 0)
    decreases n
  {
    if n > 0 {
      SuccessesJoin(w, t, n - 1);
    }
  }

  /** Each turn adds a record of each of its successful calls, with its output and in order, and of nothing else. */
  lemma RecordsGrow(w: World, n: nat)
    ensures Recorded(w, 0) == []
    ensures Recorded(w, n + 1) == Recorded(w, n) + Successful(w, n, 0)
  {
    var calls := |Turn(w, n)|;
    SuccessesJoin(w, n, calls);
    assert Successful(w, n, calls) == [];
    assert Successes(w, n, calls) + [] == Successes(w, n, calls);
  }

  /** A run that answers has completed, or waits if its last record is of a call told to wait; any other is in error. It
      returns its records, and the last one's output as its data. */
  lemma ResultAnswers(ending: Ending, records: seq<Record>)
    ensures ResultOf(ending, records) == AgentResult(
      if ending != Answered then Error
      else if records != [] && records[|records| - 1].output.PendingApproval? then Pending
      else Completed,
      records,
      if records == [] then None else Some(records[|records| - 1].output))
  {
  }
}
