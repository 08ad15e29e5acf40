/**
 The orchestrator graph: identify_scope -> decide -> delegate -> [await_approval] -> decide ... -> combine. The language
 model, the specialists and the manager are arbitrary: everything they do on a step is part of its `Input`.
 */
module Orchestrator {
  import opened Prelude
  import ToolLoop

  const SPECIALIST_NAMES: set<string> := {"reservation", "customer", "inventory", "staffing", "analytics"}

  datatype Config = Config(specialists: set<string>, maxDelegations: int, maxRetries: int)

  /** The scope call's reply; anything but a well-formed `identify_required_domains` call is unusable. */
  datatype ScopeReply = Domains(domains: seq<string>) | Unusable

  datatype DecideReply = PlainText | Finish | Delegate(agent: string) | MalformedDelegate | OtherCall

  datatype Invocation = Invocation(agent: string, status: ToolLoop.Status, attempts: nat)

  datatype GraphState = GraphState(
    invocations: seq<Invocation>, required: seq<string>, remaining: int, next: Option<string>, finished: bool,
    pendingId: Option<Id>, pendingAgent: Option<string>)

  // ---- nodes and routes ----

  function IdentifyScope(cfg: Config, g: GraphState, reply: ScopeReply): GraphState {
    var valid := reply.Domains? && forall i | 0 <= i < |reply.domains| :: reply.domains[i] in SPECIALIST_NAMES;
    g.(required := if valid then Known(cfg, reply.domains) else [])
  }

  function Known(cfg: Config, domains: seq<string>): seq<string> {
    if domains == [] then []
    else (if domains[0] in cfg.specialists then [domains[0]] else []) + Known(cfg, domains[1..])
  }

  predicate Covered(invocations: seq<Invocation>, domain: string) {
    exists i | 0 <= i < |invocations| :: invocations[i].agent == domain
  }

  /** The required domains no invocation has covered yet, in order. */
  function Missing(required: seq<string>, invocations: seq<Invocation>): seq<string> {
    if required == [] then []
    else (if Covered(invocations, required[0]) then [] else [required[0]]) + Missing(required[1..], invocations)
  }

  function ForceDelegate(g: GraphState, agent: string): GraphState {
    g.(next := Some(agent), finished := false)
  }

  function FinishNow(g: GraphState): GraphState {
    g.(next := None, finished := true)
  }

  /** The reply names a specialist the orchestrator has. */
  predicate Delegates(cfg: Config, reply: DecideReply) {
    reply.Delegate? && reply.agent in SPECIALIST_NAMES && reply.agent in cfg.specialists
  }

  function Decide(cfg: Config, g: GraphState, reply: DecideReply): GraphState {
    var missing := Missing(g.required, g.invocations);
    if g.remaining <= 0 then FinishNow(g)
    else if Delegates(cfg, reply) then g.(next := Some(reply.agent), finished := false)
    else if missing != [] then ForceDelegate(g, missing[0])
    else FinishNow(g)
  }

  datatype Node = ScopeNode | DecideNode | DelegateNode | AwaitNode | CombineNode | End | Failed

  function RouteAfterDecide(g: GraphState): Node {
    if g.finished || g.next.None? then CombineNode else DelegateNode
  }

  function RouteAfterDelegate(g: GraphState): Node {
    if g.pendingId.Some? then AwaitNode else if g.remaining <= 0 then CombineNode else DecideNode
  }

  /** How many times the specialist is called: again after each error, while retries are left. */
  function Attempts(results: nat -> ToolLoop.AgentResult, made: nat, maxRetries: int): nat
    requires made > 0
    decreases maxRetries - made
  {
    if results(made - 1).status.Error? && made <= maxRetries then Attempts(results, made + 1, maxRetries) else made
  }

  function AfterDelegation(g: GraphState, agent: string, result: ToolLoop.AgentResult, attempts: nat): GraphState {
    var pausing := result.status.Pending?;
    g.(invocations := g.invocations + [Invocation(agent, result.status, attempts)],
       remaining := g.remaining - 1,
       next := None,
       pendingId := if pausing then ToolLoop.ApprovalIn(result) else g.pendingId,
       pendingAgent := if pausing then Some(agent) else g.pendingAgent)
  }

  function AfterResolution(g: GraphState, status: ToolLoop.Status): GraphState {
    g.(invocations := g.invocations + [Invocation(g.pendingAgent.GetOr("orchestrator"), status, 1)],
       pendingId := None, pendingAgent := None)
  }

  // ---- the machine ----

  /** What the outside does on a step: the model's replies or failure, the results the specialist would return call
      after call, and how the manager's decision on a paused run ends (`None` if it is refused and the run stays
      paused). */
  datatype Input = Input(
    modelFails: bool, scope: ScopeReply, decide: DecideReply,
    results: nat -> ToolLoop.AgentResult, resolution: Option<ToolLoop.Status>)

  /** The graph state, with a record of the run: node steps taken, domains delegated to, approvals resolved and calls
      made. */
  datatype Machine = Machine(
    node: Node, g: GraphState, steps: nat, delegated: seq<string>, resolved: seq<Id>, calls: nat)

  function Initial(cfg: Config): Machine {
    Machine(ScopeNode, GraphState([], [], cfg.maxDelegations, None, false, None, None), 0, [], [], 0)
  }

  function StepDelegate(cfg: Config, m: Machine, i: Input): Machine
    requires m.g.next.Some?
  {
    var attempts := Attempts(i.results, 1, cfg.maxRetries);
    var g := AfterDelegation(m.g, m.g.next.value, i.results(LastTry(i, cfg)), attempts);
    m.(node := RouteAfterDelegate(g), g := g, steps := m.steps + 1,
       delegated := m.delegated + [m.g.next.value], calls := m.calls + attempts)
  }

  /** The index of the specialist's last call. */
  function LastTry(i: Input, cfg: Config): nat {
    AttemptsBounds(i.results, 1, cfg.maxRetries);
    Attempts(i.results, 1, cfg.maxRetries) - 1
  }

  lemma {:induction false} AttemptsBounds(results: nat -> ToolLoop.AgentResult, made: nat, maxRetries: int)
    requires made > 0
    ensures made <= Attempts(results, made, maxRetries) <= if made <= maxRetries then maxRetries + 1 else made
    ensures forall k: nat | made - 1 <= k < Attempts(results, made, maxRetries) - 1 :: results(k).status.Error?
    ensures var last := Attempts(results, made, maxRetries);
      results(last - 1).status.Error? ==> last > maxRetries
    decreases maxRetries - made
  {
    if results(made - 1).status.Error? && made <= maxRetries {
      AttemptsBounds(results, made + 1, maxRetries);
    }
  }

  function Step(cfg: Config, m: Machine, i: Input): Machine {
    match m.node
    case ScopeNode =>
      if i.modelFails then m.(node := Failed)
      else m.(node := DecideNode, g := IdentifyScope(cfg, m.g, i.scope), steps := m.steps + 1)
    case DecideNode =>
      if i.modelFails && m.g.remaining > 0 then m.(node := Failed)
      else
        var g := Decide(cfg, m.g, i.decide);
        m.(node := RouteAfterDecide(g), g := g, steps := m.steps + 1)
    case DelegateNode =>
      if m.g.next.None? then m.(node := Failed) else StepDelegate(cfg, m, i)
    case AwaitNode =>
      if i.resolution.None? || m.g.pendingId.None? then m
      else m.(node := DecideNode, g := AfterResolution(m.g, i.resolution.value), steps := m.steps + 1,
              resolved := m.resolved + [m.g.pendingId.value])
    case CombineNode =>
      if i.modelFails && m.g.invocations != [] then m.(node := Failed) else m.(node := End, steps := m.steps + 1)
    case End => m
    case Failed => m
  }

  function Run(cfg: Config, m: Machine, inputs: seq<Input>): Machine
    decreases |inputs|
  {
    if inputs == [] then m else Run(cfg, Step(cfg, m, inputs[0]), inputs[1..])
  }

  // ---- what every run keeps ----

  function Budget(cfg: Config): nat {
    if cfg.maxDelegations < 0 then 0 else cfg.maxDelegations
  }

  function CallsPerDelegation(cfg: Config): nat {
    1 + if cfg.maxRetries < 0 then 0 else cfg.maxRetries
  }

  /** The most specialist calls that `delegations` delegations can make. */
  function CallLimit(cfg: Config, delegations: nat): nat {
    if delegations == 0 then 0 else CallLimit(cfg, delegations - 1) + CallsPerDelegation(cfg)
  }

  lemma {:induction false} CallLimitIsProduct(cfg: Config, delegations: nat)
    ensures CallLimit(cfg, delegations) == delegations * CallsPerDelegation(cfg)
  {
    if delegations > 0 {
      CallLimitIsProduct(cfg, delegations - 1);
      hide CallLimit, CallsPerDelegation;
      assert delegations * CallsPerDelegation(cfg)
          == (delegations - 1) * CallsPerDelegation(cfg) + CallsPerDelegation(cfg);
    }
  }

  lemma {:induction false} CallLimitGrows(cfg: Config, fewer: nat, more: nat)
    requires fewer <= more
    ensures CallLimit(cfg, fewer) <= CallLimit(cfg, more)
    decreases more
  {
    if fewer < more {
      CallLimitGrows(cfg, fewer, more - 1);
    }
  }

  /** An upper bound on the node steps still to come. */
  function Fuel(m: Machine): int {
    var left := if m.g.remaining < 0 then 0 else m.g.remaining;
    match m.node
    case ScopeNode => 3 * left + 3
    case DecideNode => 3 * left + 2
    case DelegateNode => 3 * left + 1
    case AwaitNode => 3 * left + 3
    case CombineNode => 1
    case End => 0
    case Failed => 0
  }

  ghost predicate Counts(cfg: Config, m: Machine) {
    && |m.delegated| + m.g.remaining == cfg.maxDelegations
    && |m.g.invocations| == |m.delegated| + |m.resolved|
    && m.steps + Fuel(m) <= 3 * Budget(cfg) + 3
    && |m.delegated| <= m.calls <= CallLimit(cfg, |m.delegated|)
    && (m.delegated != [] ==> m.g.remaining >= 0)
  }

  ghost predicate Routed(cfg: Config, m: Machine) {
    && (m.node == DelegateNode ==> m.g.next.Some? && m.g.next.value in cfg.specialists && m.g.remaining > 0)
    && (m.node == AwaitNode <==> m.g.pendingId.Some?)
    && (forall d | d in m.delegated :: Covered(m.g.invocations, d))
    && (forall d | d in m.g.required :: d in cfg.specialists)
  }

  /** Every required domain has been delegated to, or the budget is used up. */
  ghost predicate Complete(m: Machine) {
    m.g.remaining <= 0 || forall d | d in m.g.required :: Covered(m.g.invocations, d)
  }

  ghost predicate Valid(cfg: Config, m: Machine) {
    Counts(cfg, m) && Routed(cfg, m) && (m.node in {CombineNode, End} ==> Complete(m))
  }

  lemma {:induction false} MissingMeansUncovered(required: seq<string>, invocations: seq<Invocation>)
    ensures Missing(required, invocations) == [] <==> forall d | d in required :: Covered(invocations, d)
    ensures forall d | d in Missing(required, invocations) :: d in required && !Covered(invocations, d)
  {
    if required != [] {
      MissingMeansUncovered(required[1..], invocations);
    }
  }

  lemma {:induction false} KnownAreSpecialists(cfg: Config, domains: seq<string>)
    ensures forall d | d in Known(cfg, domains) :: d in cfg.specialists
  {
    if domains != [] {
      KnownAreSpecialists(cfg, domains[1..]);
    }
  }

  lemma DelegateKeepsValid(cfg: Config, m: Machine, i: Input)
    requires Valid(cfg, m) && m.node == DelegateNode
    ensures Valid(cfg, StepDelegate(cfg, m, i))
  {
    AttemptsBounds(i.results, 1, cfg.maxRetries);
    var m' := StepDelegate(cfg, m, i);
    var n := |m.g.invocations|;
    assert m'.g.invocations[n].agent == m.g.next.value;
    assert forall j | 0 <= j < n :: m'.g.invocations[j] == m.g.invocations[j];
    assert CallLimit(cfg, |m.delegated| + 1) == CallLimit(cfg, |m.delegated|) + CallsPerDelegation(cfg);
  }

  lemma DecideKeepsValid(cfg: Config, m: Machine, i: Input)
    requires Valid(cfg, m) && m.node == DecideNode
    ensures Valid(cfg, Step(cfg, m, i))
  {
    var missing := Missing(m.g.required, m.g.invocations);
    MissingMeansUncovered(m.g.required, m.g.invocations);
    assert missing != [] ==> missing[0] in missing;
  }

  lemma ResolveKeepsValid(cfg: Config, m: Machine, i: Input)
    requires Valid(cfg, m) && m.node == AwaitNode
    ensures Valid(cfg, Step(cfg, m, i))
  {
    var m' := Step(cfg, m, i);
    assert forall j | 0 <= j < |m.g.invocations| :: m'.g.invocations[j] == m.g.invocations[j];
  }

  lemma StepKeepsValid(cfg: Config, m: Machine, i: Input)
    requires Valid(cfg, m)
    ensures Valid(cfg, Step(cfg, m, i))
  {
    if m.node.ScopeNode? {
      KnownAreSpecialists(cfg, if i.scope.Domains? then i.scope.domains else []);
    } else if m.node.DecideNode? {
      DecideKeepsValid(cfg, m, i);
    } else if m.node.DelegateNode? {
      DelegateKeepsValid(cfg, m, i);
    } else if m.node.AwaitNode? {
      ResolveKeepsValid(cfg, m, i);
    }
  }

  lemma {:induction false} RunKeepsValid(cfg: Config, m: Machine, inputs: seq<Input>)
    requires Valid(cfg, m)
    ensures Valid(cfg, Run(cfg, m, inputs))
    decreases |inputs|
  {
    if inputs != [] {
      StepKeepsValid(cfg, m, inputs[0]);
      RunKeepsValid(cfg, Step(cfg, m, inputs[0]), inputs[1..]);
    }
  }

  lemma InitialIsValid(cfg: Config)
    ensures Valid(cfg, Initial(cfg)) && Fuel(Initial(cfg)) == 3 * Budget(cfg) + 3
  {
  }

  lemma FuelIsNatural(cfg: Config, m: Machine)
    requires Valid(cfg, m)
    ensures Fuel(m) >= 0 && |m.delegated| <= Budget(cfg)
  {
    hide CallLimit, Complete, Routed;
  }

  /** Conservation and bounds, for whatever the model, the specialists and the manager do: delegations and the remaining
      budget add up, invocations are delegations plus resolved approvals, and steps and calls are bounded. */
  lemma RunsAreConserved(cfg: Config, inputs: seq<Input>)
    ensures var m := Run(cfg, Initial(cfg), inputs);
      && |m.delegated| + m.g.remaining == cfg.maxDelegations
      && |m.g.invocations| == |m.delegated| + |m.resolved|
      && m.steps <= 3 * Budget(cfg) + 3
      && |m.delegated| <= Budget(cfg)
      && m.calls <= Budget(cfg) * CallsPerDelegation(cfg)
  {
    InitialIsValid(cfg);
    hide Initial, Run;
    RunKeepsValid(cfg, Initial(cfg), inputs);
    var m := Run(cfg, Initial(cfg), inputs);
    FuelIsNatural(cfg, m);
    CallLimitGrows(cfg, |m.delegated|, Budget(cfg));
    CallLimitIsProduct(cfg, Budget(cfg));
  }

  // ---- what the scope reply requires ----

  /** Those of the domains that are among the specialists, in order and as often as they are named. */
  function Kept(domains: seq<string>, specialists: set<string>): seq<string>
    decreases |domains|
  {
    if domains == [] then []
    else
      var last := domains[|domains| - 1];
      Kept(domains[..|domains| - 1], specialists) + if last in specialists then [last] else []
  }

  /** A reply that names the five domains only. */
  predicate WellFormed(reply: ScopeReply) {
    && reply.Domains?
    && forall d | d in reply.domains :: d in {"reservation", "customer", "inventory", "staffing", "analytics"}
  }

  function RequiredBy(cfg: Config, reply: ScopeReply): seq<string> {
    if WellFormed(reply) then Kept(reply.domains, cfg.specialists) else []
  }

  lemma {:induction false} KnownAppends(cfg: Config, domains: seq<string>, last: string)
    ensures Known(cfg, domains + [last]) == Known(cfg, domains) + if last in cfg.specialists then [last] else []
    decreases |domains|
  {
    if domains != [] {
      assert (domains + [last])[1..] == domains[1..] + [last];
      KnownAppends(cfg, domains[1..], last);
    }
  }

  lemma {:induction false} KnownAreKept(cfg: Config, domains: seq<string>)
    ensures Known(cfg, domains) == Kept(domains, cfg.specialists)
    ensures forall d :: d in Kept(domains, cfg.specialists) <==> d in domains && d in cfg.specialists
    decreases |domains|
  {
    if domains != [] {
      KnownAreKept(cfg, domains[..|domains| - 1]);
      KnownAppends(cfg, domains[..|domains| - 1], domains[|domains| - 1]);
      assert domains == domains[..|domains| - 1] + [domains[|domains| - 1]];
    }
  }

  lemma ScopeFollows(cfg: Config, g: GraphState, reply: ScopeReply)
    ensures IdentifyScope(cfg, g, reply) == g.(required := RequiredBy(cfg, reply))
  {
    if reply.Domains? {
      var domains := reply.domains;
      KnownAreKept(cfg, domains);
      hide Known, Kept;
      if forall i | 0 <= i < |domains| :: domains[i] in SPECIALIST_NAMES {
        assert WellFormed(reply);
      } else {
        var i :| 0 <= i < |domains| && domains[i] !in SPECIALIST_NAMES;
        assert domains[i] in domains;
      }
    }
  }

  lemma {:induction false} RequiredNeverChange(cfg: Config, m: Machine, inputs: seq<Input>)
    requires m.node != ScopeNode
    ensures Run(cfg, m, inputs).g.required == m.g.required
    ensures m.node == Failed ==> Run(cfg, m, inputs) == m
    decreases |inputs|
  {
    if inputs != [] {
      assert Step(cfg, m, inputs[0]).node != ScopeNode && Step(cfg, m, inputs[0]).g.required == m.g.required;
      hide Step;
      RequiredNeverChange(cfg, Step(cfg, m, inputs[0]), inputs[1..]);
    }
  }

  /** What a run requires is, throughout, what the reply to its first call requires; a run whose first call fails has
      failed. */
  lemma ScopeIsRequired(cfg: Config, inputs: seq<Input>)
    requires inputs != []
    ensures var m := Run(cfg, Initial(cfg), inputs);
      if inputs[0].modelFails then m.node == Failed else m.g.required == RequiredBy(cfg, inputs[0].scope)
  {
    var m := Initial(cfg);
    ScopeFollows(cfg, m.g, inputs[0].scope);
    hide IdentifyScope, RequiredBy;
    var m' := Step(cfg, m, inputs[0]);
    assert if inputs[0].modelFails then m'.node == Failed
           else m'.node == DecideNode && m'.g.required == RequiredBy(cfg, inputs[0].scope);
    hide Step;
    RequiredNeverChange(cfg, m', inputs[1..]);
  }

  /** Whenever a run combines, each domain that a well-formed first reply named, and that there is a specialist for, has
      an invocation, or all delegations are used up. */
  lemma CombineIsComplete(cfg: Config, inputs: seq<Input>, domain: string)
    ensures var m := Run(cfg, Initial(cfg), inputs);
      m.node in {CombineNode, End} ==>
        && inputs != [] && !inputs[0].modelFails
        && (WellFormed(inputs[0].scope) && domain in inputs[0].scope.domains && domain in cfg.specialists ==>
              || |m.delegated| >= cfg.maxDelegations
              || exists i | 0 <= i < |m.g.invocations| :: m.g.invocations[i].agent == domain)
  {
    RunKeepsValid(cfg, Initial(cfg), inputs);
    if inputs != [] {
      ScopeIsRequired(cfg, inputs);
      if inputs[0].scope.Domains? {
        KnownAreKept(cfg, inputs[0].scope.domains);
      }
    }
    hide Kept, Step, Fuel, CallLimit;
  }

  // ---- termination ----

  predicate Halted(m: Machine) {
    m.node in {End, Failed}
  }

  lemma {:induction false} FuelRunsOut(cfg: Config, m: Machine, inputs: seq<Input>)
    requires Valid(cfg, m) && |inputs| >= Fuel(m)
    requires forall i | 0 <= i < |inputs| :: inputs[i].resolution.Some?
    ensures Halted(Run(cfg, m, inputs))
    decreases |inputs|
  {
    if inputs != [] {
      StepKeepsValid(cfg, m, inputs[0]);
      StepBurnsFuel(cfg, m, inputs[0]);
      FuelRunsOut(cfg, Step(cfg, m, inputs[0]), inputs[1..]);
    }
  }

  lemma StepBurnsFuel(cfg: Config, m: Machine, i: Input)
    requires Valid(cfg, m)
    ensures Fuel(m) >= 0 && (Fuel(m) == 0 ==> Halted(m))
    ensures !Halted(m) && (m.node == AwaitNode ==> i.resolution.Some?) ==> Fuel(Step(cfg, m, i)) < Fuel(m)
    ensures m.node == AwaitNode && i.resolution.None? ==> Step(cfg, m, i) == m
    ensures Halted(m) ==> Step(cfg, m, i) == m
  {
  }

  /** Every run halts within 3 * max_delegations + 3 steps once its pauses are resolved. */
  lemma RunsTerminate(cfg: Config, inputs: seq<Input>)
    requires |inputs| >= 3 * Budget(cfg) + 3
    requires forall i | 0 <= i < |inputs| :: inputs[i].resolution.Some?
    ensures Halted(Run(cfg, Initial(cfg), inputs))
  {
    InitialIsValid(cfg);
    hide Initial, Run, Valid;
    FuelRunsOut(cfg, Initial(cfg), inputs);
  }

  // ---- a model that never delegates ----

  /** Each element once, at its first occurrence. */
  function Distinct(s: seq<string>): seq<string> {
    if s == [] then []
    else
      var front, last := Distinct(s[..|s| - 1]), s[|s| - 1];
      if last in front then front else front + [last]
  }

  function Prefix(s: seq<string>, n: int): seq<string> {
    if n <= 0 then [] else if n >= |s| then s else s[..n]
  }

  lemma {:induction false} DistinctHasSameElements(s: seq<string>)
    ensures forall d :: d in Distinct(s) <==> d in s
    ensures forall i, j | 0 <= i < j < |Distinct(s)| :: Distinct(s)[i] != Distinct(s)[j]
    decreases |s|
  {
    if s != [] {
      DistinctHasSameElements(s[..|s| - 1]);
      assert s == s[..|s| - 1] + [s[|s| - 1]];
    }
  }

  lemma {:induction false} MissingAppends(s: seq<string>, d: string, invocations: seq<Invocation>)
    ensures Missing(s + [d], invocations) == Missing(s, invocations) + if Covered(invocations, d) then [] else [d]
    decreases |s|
  {
    if s != [] {
      assert (s + [d])[1..] == s[1..] + [d];
      MissingAppends(s[1..], d, invocations);
    }
  }

  /** If the covered domains are the first `k` distinct required ones, the first missing is the next distinct one. */
  lemma {:induction false} FirstMissingIsNext(s: seq<string>, invocations: seq<Invocation>, k: nat)
    requires k <= |Distinct(s)|
    requires forall d | d in s :: Covered(invocations, d) <==> d in Distinct(s)[..k]
    ensures if k == |Distinct(s)| then Missing(s, invocations) == []
            else Missing(s, invocations) != [] && Missing(s, invocations)[0] == Distinct(s)[k]
    decreases |s|
  {
    if s != [] {
      var front, last := s[..|s| - 1], s[|s| - 1];
      assert s == front + [last];
      MissingAppends(front, last, invocations);
      DistinctHasSameElements(front);
      DistinctHasSameElements(s);
      if k <= |Distinct(front)| {
        assert Distinct(s)[..k] == Distinct(front)[..k];
        FirstMissingIsNext(front, invocations, k);
      } else {
        assert Distinct(s)[..k] == Distinct(s);
        MissingMeansUncovered(s, invocations);
      }
    }
  }

  /** The machine has delegated, so far, exactly to the first distinct required domains, in order. */
  ghost predicate Dutiful(m: Machine) {
    var duty := Distinct(m.g.required);
    && |m.delegated| <= |duty| && m.delegated == duty[..|m.delegated|]
    && (m.node != ScopeNode ==> forall d | d in m.g.required :: Covered(m.g.invocations, d) <==> d in m.delegated)
    && (m.node == ScopeNode ==> m.delegated == [] && m.g.invocations == [])
    && (m.node == DelegateNode ==> |m.delegated| < |duty| && m.g.next == Some(duty[|m.delegated|]))
    && (m.node == AwaitNode ==> m.g.pendingAgent.Some? && m.g.pendingAgent.value in m.delegated)
  }

  predicate NeverDelegates(cfg: Config, inputs: seq<Input>) {
    forall i | 0 <= i < |inputs| :: !Delegates(cfg, inputs[i].decide)
  }

  lemma DecideIsDutiful(cfg: Config, m: Machine, i: Input)
    requires Valid(cfg, m) && Dutiful(m) && m.node == DecideNode && !Delegates(cfg, i.decide)
    ensures Dutiful(Step(cfg, m, i))
  {
    DistinctHasSameElements(m.g.required);
    FirstMissingIsNext(m.g.required, m.g.invocations, |m.delegated|);
  }

  lemma DelegateIsDutiful(cfg: Config, m: Machine, i: Input)
    requires Valid(cfg, m) && Dutiful(m) && m.node == DelegateNode
    ensures Dutiful(Step(cfg, m, i))
  {
    var m' := Step(cfg, m, i);
    var n := |m.g.invocations|;
    assert m'.g.invocations[n].agent == m.g.next.value;
    assert forall j | 0 <= j < n :: m'.g.invocations[j] == m.g.invocations[j];
    var duty := Distinct(m.g.required);
    assert duty[..|m.delegated| + 1] == duty[..|m.delegated|] + [duty[|m.delegated|]];
  }

  lemma ResolveIsDutiful(cfg: Config, m: Machine, i: Input)
    requires Valid(cfg, m) && Dutiful(m) && m.node == AwaitNode
    ensures Dutiful(Step(cfg, m, i))
  {
    var m' := Step(cfg, m, i);
    assert forall j | 0 <= j < |m.g.invocations| :: m'.g.invocations[j] == m.g.invocations[j];
  }

  lemma StepIsDutiful(cfg: Config, m: Machine, i: Input)
    requires Valid(cfg, m) && Dutiful(m) && !Delegates(cfg, i.decide)
    ensures Dutiful(Step(cfg, m, i))
  {
    if m.node.DecideNode? {
      DecideIsDutiful(cfg, m, i);
    } else if m.node.DelegateNode? {
      DelegateIsDutiful(cfg, m, i);
    } else if m.node.AwaitNode? {
      ResolveIsDutiful(cfg, m, i);
    }
  }

  lemma {:induction false} RunIsDutiful(cfg: Config, m: Machine, inputs: seq<Input>)
    requires Valid(cfg, m) && Dutiful(m) && NeverDelegates(cfg, inputs)
    ensures Valid(cfg, Run(cfg, m, inputs)) && Dutiful(Run(cfg, m, inputs))
    decreases |inputs|
  {
    if inputs != [] {
      StepKeepsValid(cfg, m, inputs[0]);
      StepIsDutiful(cfg, m, inputs[0]);
      RunIsDutiful(cfg, Step(cfg, m, inputs[0]), inputs[1..]);
    }
  }

  lemma NextIsNew(s: seq<string>, k: nat)
    requires k <= |s| && forall i, j | 0 <= i < j < |s| :: s[i] != s[j]
    ensures k < |s| ==> s[k] in s && s[k] !in s[..k]
  {
  }

  /** A model that, once it has replied with the scope, always finishes, answers in text or answers malformed still
      drives exactly one delegation per distinct domain its reply requires, in order, as far as the budget allows;
      pauses on the way make no difference. */
  lemma LazyModelStillCovers(cfg: Config, inputs: seq<Input>)
    requires NeverDelegates(cfg, inputs) && inputs != []
    ensures var m := Run(cfg, Initial(cfg), inputs);
      m.node in {CombineNode, End} ==>
        m.delegated == Prefix(Distinct(RequiredBy(cfg, inputs[0].scope)), cfg.maxDelegations)
  {
    ScopeIsRequired(cfg, inputs);
    RunIsDutiful(cfg, Initial(cfg), inputs);
    var m := Run(cfg, Initial(cfg), inputs);
    var duty := Distinct(m.g.required);
    DistinctHasSameElements(m.g.required);
    NextIsNew(duty, |m.delegated|);
  }

  // ---- pauses ----

  /** A delegation pauses the run exactly when the specialist's run that ended it answered with a gated call last; the
      pause carries that call's approval, and no earlier attempt of the delegation was anything but an error. */
  lemma PauseMeansGated(cfg: Config, m: Machine, i: Input, ending: ToolLoop.Ending, calls: seq<ToolLoop.Record>)
    requires Valid(cfg, m) && m.node == DelegateNode
    requires i.results(LastTry(i, cfg)) == ToolLoop.ResultOf(ending, calls)
    ensures var m' := Step(cfg, m, i);
      && (m'.node == AwaitNode <==> ending.Answered? && calls != [] && calls[|calls| - 1].output.PendingApproval?)
      && (m'.node == AwaitNode ==> m'.g.pendingId == Some(calls[|calls| - 1].output.approval)
                                   && m'.g.pendingAgent == m.g.next)
      && forall k: nat | k < LastTry(i, cfg) :: i.results(k).status.Error?
  {
    AttemptsBounds(i.results, 1, cfg.maxRetries);
    ToolLoop.PendingMeansLastCallGated(ending, calls);
  }

  /** Which results are retried, exactly: after its `k`-th call the specialist is called again if and only if that call
      reported an error and retries are left. */
  lemma RetriedExactlyOnError(results: nat -> ToolLoop.AgentResult, maxRetries: int, k: nat)
    requires k < Attempts(results, 1, maxRetries)
    ensures k + 1 < Attempts(results, 1, maxRetries) <==> results(k).status.Error? && k < maxRetries
  {
    AttemptsBounds(results, 1, maxRetries);
  }

  /** For a specialist's run this means that it did not end with an answer. What it had proposed by then plays no
      part. */
  lemma UnansweredRunsAreRetried(
    results: nat -> ToolLoop.AgentResult, maxRetries: int, k: nat, ending: ToolLoop.Ending, calls: seq<ToolLoop.Record>)
    requires k < Attempts(results, 1, maxRetries) && results(k) == ToolLoop.ResultOf(ending, calls)
    ensures k + 1 < Attempts(results, 1, maxRetries) <==> !ending.Answered? && k < maxRetries
  {
    RetriedExactlyOnError(results, maxRetries, k);
  }

  /** A gated last call is not enough: a specialist that proposes an approval and then runs out of steps reports an
      error, and the delegation calls it again although that approval already waits. */
  lemma GatedCallMayBeRetried(cfg: Config, approval: Id, call: ToolLoop.ToolCall, later: ToolLoop.AgentResult)
    requires cfg.maxRetries >= 1
    ensures var gated := ToolLoop.ResultOf(
        ToolLoop.OutOfSteps, [ToolLoop.Record(call, ToolLoop.PendingApproval(approval))]);
      ToolLoop.ApprovalIn(gated) == Some(approval)
      && Attempts(k => if k == 0 then gated else later, 1, cfg.maxRetries) >= 2
  {
    var gated := ToolLoop.ResultOf(ToolLoop.OutOfSteps, [ToolLoop.Record(call, ToolLoop.PendingApproval(approval))]);
    AttemptsBounds(k => if k == 0 then gated else later, 2, cfg.maxRetries);
  }

  // ---- the agent ----

  class OrchestratorAgent {
    const cfg: Config
    var node: Node
    var g: GraphState
    ghost var steps: nat
    ghost var delegated: seq<string>
    ghost var resolved: seq<Id>
    ghost var calls: nat

    constructor (cfg: Config)
      ensures this.cfg == cfg && State() == Initial(cfg)
    {
      this.cfg, node := cfg, ScopeNode;
      g := GraphState([], [], cfg.maxDelegations, None, false, None, None);
      steps, delegated, resolved, calls := 0, [], [], 0;
    }

    ghost function State(): Machine
      reads this
    {
      Machine(node, g, steps, delegated, resolved, calls)
    }

    /** Calls the specialist, and again after each error while retries are left. */
    method CallSpecialist(i: Input) returns (result: ToolLoop.AgentResult, attempt: nat)
      ensures attempt == Attempts(i.results, 1, cfg.maxRetries) && attempt > 0 && result == i.results(attempt - 1)
    {
      result := i.results(0);
      attempt := 1;
      while result.status.Error? && attempt <= cfg.maxRetries
        invariant attempt > 0 && result == i.results(attempt - 1)
        invariant Attempts(i.results, attempt, cfg.maxRetries) == Attempts(i.results, 1, cfg.maxRetries)
        decreases cfg.maxRetries - attempt
      {
        result := i.results(attempt);
        attempt := attempt + 1;
      }
    }

    method DelegateToNext(i: Input)
      requires Valid(cfg, State()) && node == DelegateNode
      modifies this
      ensures State() == Step(cfg, old(State()), i)
    {
      var agent := g.next.value;
      var result, attempt := CallSpecialist(i);
      g := AfterDelegation(g, agent, result, attempt);
      node := RouteAfterDelegate(g);
      steps, delegated, calls := steps + 1, delegated + [agent], calls + attempt;
    }

    /** Runs the graph from where it stands until it ends, fails or pauses for an approval. `inputs` is consumed one per
        node; a run that stands at a pause first takes the manager's decision. */
    method Invoke(inputs: nat -> Input) returns (ghost taken: seq<Input>)
      requires Valid(cfg, State())
      modifies this
      ensures Valid(cfg, State())
      ensures State() == Run(cfg, old(State()), taken)
      ensures |taken| <= old(Fuel(State())) + 1 && forall k | 0 <= k < |taken| :: taken[k] == inputs(k)
      ensures Halted(State()) || node == AwaitNode
    {
      hide Valid, Step, Fuel, Run;
      NothingTaken(cfg, State());
      taken := [];
      var used: nat := 0;
      var going := true;
      ghost var start := State();
      while going && node != End && node != Failed
        invariant Valid(cfg, State()) && State() == Run(cfg, start, taken) && used == |taken|
        invariant |taken| <= Fuel(start) - Fuel(State()) + if going then 0 else 1
        invariant forall k | 0 <= k < |taken| :: taken[k] == inputs(k)
        invariant !going ==> node == AwaitNode
        decreases going, Fuel(State())
      {
        StepKeepsValid(cfg, State(), inputs(used));
        StepBurnsFuel(cfg, State(), inputs(used));
        RunSplits(cfg, start, taken, inputs(used));
        var i := inputs(used);
        taken := taken + [i];
        used := used + 1;
        going := TakeStep(i);
      }
      FuelIsNatural(cfg, State());
    }

    /** Executes the current node; returns false when the run pauses there. */
    method TakeStep(i: Input) returns (going: bool)
      requires Valid(cfg, State()) && node != End && node != Failed
      modifies this
      ensures State() == Step(cfg, old(State()), i)
      ensures going <==> node != AwaitNode
    {
      match node {
      case ScopeNode =>
        if i.modelFails {
          node := Failed;
        } else {
          g := IdentifyScope(cfg, g, i.scope);
          node, steps := DecideNode, steps + 1;
        }
      case DecideNode =>
        if i.modelFails && g.remaining > 0 {
          node := Failed;
        } else {
          g := Decide(cfg, g, i.decide);
          node, steps := RouteAfterDecide(g), steps + 1;
        }
      case DelegateNode =>
        DelegateToNext(i);
      case AwaitNode =>
        if i.resolution.Some? {
          resolved := resolved + [g.pendingId.value];
          g := AfterResolution(g, i.resolution.value);
          node, steps := DecideNode, steps + 1;
        }
      case CombineNode =>
        if i.modelFails && g.invocations != [] {
          node := Failed;
        } else {
          node, steps := End, steps + 1;
        }
      }
      return node != AwaitNode;
    }
  }

  lemma NothingTaken(cfg: Config, m: Machine)
    ensures Run(cfg, m, []) == m
  {
  }

  lemma {:induction false} RunSplits(cfg: Config, m: Machine, inputs: seq<Input>, i: Input)
    ensures Run(cfg, m, inputs + [i]) == Step(cfg, Run(cfg, m, inputs), i)
    decreases |inputs|
  {
    if inputs == [] {
      assert Run(cfg, Step(cfg, m, i), []) == Step(cfg, m, i);
      assert ([i])[1..] == [];
    } else {
      assert (inputs + [i])[1..] == inputs[1..] + [i];
      RunSplits(cfg, Step(cfg, m, inputs[0]), inputs[1..], i);
    }
  }
}
