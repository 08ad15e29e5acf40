/** What each node of the orchestrator graph does, and how a resumed run decides, told on the fields alone. */
module OrchestratorRules {
  import opened Prelude
  import opened Orchestrator
  import Schema
  import System
  import Oversight
  import ToolLoop

  /** Some invocation is of that agent. */
  predicate Invoked(invocations: seq<Invocation>, agent: string) {
    exists i | 0 <= i < |invocations| :: invocations[i].agent == agent
  }

  lemma {:induction false} FirstUninvoked(required: seq<string>, invocations: seq<Invocation>) returns (k: nat)
    ensures k <= |required| && forall j | 0 <= j < k :: Invoked(invocations, required[j])
    ensures var missing := Missing(required, invocations);
      if k == |required| then missing == []
      else !Invoked(invocations, required[k]) && missing != [] && missing[0] == required[k]
  {
    if required == [] || !Invoked(invocations, required[0]) {
      k := 0;
    } else {
      k := FirstUninvoked(required[1..], invocations);
      k := k + 1;
    }
  }

  lemma ScopeAnswers(cfg: Config, m: Machine, i: Input)
    requires m.node == ScopeNode
    ensures Step(cfg, m, i) ==
      if i.modelFails then m.(node := Failed)
      else m.(node := DecideNode, g := m.g.(required := RequiredBy(cfg, i.scope)), steps := m.steps + 1)
  {
    ScopeFollows(cfg, m.g, i.scope);
    hide IdentifyScope, RequiredBy;
  }

  /** Without budget left the run combines, whatever the model says. Otherwise a failing model fails the run, a valid
      choice is followed, and in place of any other answer the first required domain without an invocation comes next;
      if there is none, the run combines. */
  lemma DecideAnswers(cfg: Config, m: Machine, i: Input) returns (k: nat)
    requires m.node == DecideNode
    ensures var finish := m.(
        node := CombineNode, g := m.g.(next := None, finished := true), steps := m.steps + 1);
      var valid := && i.decide.Delegate?
                   && i.decide.agent in {"reservation", "customer", "inventory", "staffing", "analytics"}
                   && i.decide.agent in cfg.specialists;
      if m.g.remaining <= 0 then Step(cfg, m, i) == finish
      else if i.modelFails then Step(cfg, m, i) == m.(node := Failed)
      else if valid then
        Step(cfg, m, i) == m.(
          node := DelegateNode, g := m.g.(next := Some(i.decide.agent), finished := false), steps := m.steps + 1)
      else
        && k <= |m.g.required| && (forall j | 0 <= j < k :: Invoked(m.g.invocations, m.g.required[j]))
        && if k == |m.g.required| then Step(cfg, m, i) == finish
           else
             && !Invoked(m.g.invocations, m.g.required[k])
             && Step(cfg, m, i) == m.(
                  node := DelegateNode, steps := m.steps + 1,
                  g := m.g.(next := Some(m.g.required[k]), finished := false))
  {
    k := FirstUninvoked(m.g.required, m.g.invocations);
    hide Missing, Invoked;
  }

  /** The specialist is called until a call is no error or the retries are used up, and that last result counts: it is
      one invocation and takes one step off the budget. A pending result pauses the run on the approval it names. */
  lemma DelegateAnswers(cfg: Config, m: Machine, i: Input) returns (n: nat)
    requires m.node == DelegateNode && m.g.next.Some?
    ensures n >= 1 && (forall k: nat | k < n - 1 :: i.results(k).status.Error?)
    ensures i.results(n - 1).status.Error? ==> n > cfg.maxRetries
    ensures n <= 1 || n <= cfg.maxRetries + 1
    ensures var r, g := i.results(n - 1), m.g;
      var paused := r.status == ToolLoop.Pending;
      var approval := if r.data.Some? && r.data.value.PendingApproval? then Some(r.data.value.approval) else None;
      var pending := if paused then approval else g.pendingId;
      Step(cfg, m, i) == Machine(
        if pending.Some? then AwaitNode else if g.remaining - 1 <= 0 then CombineNode else DecideNode,
        GraphState(g.invocations + [Invocation(g.next.value, r.status, n)], g.required, g.remaining - 1, None,
                   g.finished, pending, if paused then g.next else g.pendingAgent),
        m.steps + 1, m.delegated + [g.next.value], m.resolved, m.calls + n)
  {
    AttemptsBounds(i.results, 1, cfg.maxRetries);
    n := Attempts(i.results, 1, cfg.maxRetries);
  }

  /** A pause ends only with the manager's decision, which counts as an invocation of the agent that paused; combining
      fails only if the model does and has something to combine; a halted run stays. */
  lemma OtherNodesAnswer(cfg: Config, m: Machine, i: Input)
    requires m.node in {AwaitNode, CombineNode, End, Failed}
    ensures Step(cfg, m, i) ==
      if m.node == AwaitNode && i.resolution.Some? && m.g.pendingId.Some? then
        var agent := if m.g.pendingAgent.Some? then m.g.pendingAgent.value else "orchestrator";
        m.(node := DecideNode, steps := m.steps + 1, resolved := m.resolved + [m.g.pendingId.value],
           g := m.g.(invocations := m.g.invocations + [Invocation(agent, i.resolution.value, 1)],
                     pendingId := None, pendingAgent := None))
      else if m.node == CombineNode && i.modelFails && m.g.invocations != [] then m.(node := Failed)
      else if m.node == CombineNode then m.(node := End, steps := m.steps + 1)
      else m
  {
  }

  /** A paused run is resumed by approving or rejecting, as the manager decides, the approval it waits for, after
      whatever other requests did. A decision that is refused leaves it paused; any other is an invocation, erroneous
      only if the approved action was executed and failed. */
  lemma ResumeAnswers(cfg: Config, s: Schema.Settings, w: Oversight.World, mv: Oversight.Move)
    requires w.m.node == AwaitNode && w.m.g.pendingId.Some? && mv.decision.Some?
    ensures var d, id, start := mv.decision.value, w.m.g.pendingId.value, System.Run(w.db, s, mv.before);
      var o := System.Step(
        start, s,
        if d.approve then System.Approve(id, d.user, d.now, d.text, d.writable, d.fault)
        else System.Reject(id, d.user, d.now, d.text, d.writable));
      var w' := Oversight.Step(cfg, s, w, mv);
      && w'.db == o.db
      && (o.response.Err? ==> w'.m == w.m)
      && (o.response.Ok? ==>
            && w'.m.node == DecideNode && w'.m.resolved == w.m.resolved + [id]
            && w'.m.g.invocations == w.m.g.invocations + [Invocation(
                 if w.m.g.pendingAgent.Some? then w.m.g.pendingAgent.value else "orchestrator",
                 if && d.approve && id in o.db.approvals && o.db.approvals[id].execution.Some?
                    && o.db.approvals[id].execution.value.Failed?
                 then ToolLoop.Error else ToolLoop.Completed,
                 1)])
  {
    Oversight.ResumeDecides(cfg, s, w, mv);
    Oversight.OutsideCalls(mv.before);
    assert Oversight.Start(s, w, mv) == System.Run(w.db, s, mv.before);
    var call := Oversight.DecisionCall(w.m.g.pendingId.value, mv.decision.value);
    assert System.Next(Oversight.Start(s, w, mv), s, call) == System.Step(Oversight.Start(s, w, mv), s, call).db;
    OtherNodesAnswer(cfg, w.m, Oversight.InputOf(s, w, mv));
    hide System.Step, System.Next, System.Run, Oversight.Trace, Step, Oversight.Start;
  }
}
