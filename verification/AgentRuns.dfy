/** Agent runs: their message log with gap-free numbers, and the trace tree built from parent pointers. */
module AgentRuns {
  import opened Prelude

  datatype Role = UserRole | AssistantRole | ToolResultRole

  datatype MessageRow = MessageRow(run: Id, number: nat, role: Role, tool: Option<string>)

  datatype AgentRun = AgentRun(agent: string, parent: Option<Id>, correlation: Id, startedAt: real)

  // ---- message numbers ----

  /** The messages of one run, in the order they were logged. */
  function MessagesOf(rows: seq<MessageRow>, run: Id): seq<MessageRow> {
    if rows == [] then []
    else
      var last := rows[|rows| - 1];
      MessagesOf(rows[..|rows| - 1], run) + if last.run == run then [last] else []
  }

  /** Every run's messages are numbered 1, 2, 3, ... without gap or repetition. */
  ghost predicate Numbered(rows: seq<MessageRow>) {
    forall run, i | 0 <= i < |MessagesOf(rows, run)| :: MessagesOf(rows, run)[i].number == i + 1
  }

  function Logged(rows: seq<MessageRow>, run: Id, role: Role, tool: Option<string>): seq<MessageRow> {
    rows + [MessageRow(run, |MessagesOf(rows, run)| + 1, role, tool)]
  }

  lemma LoggingExtendsOneRun(rows: seq<MessageRow>, run: Id, role: Role, tool: Option<string>, other: Id)
    ensures MessagesOf(Logged(rows, run, role, tool), other)
         == MessagesOf(rows, other)
            + if other == run then [MessageRow(run, |MessagesOf(rows, run)| + 1, role, tool)] else []
  {
    var rows' := Logged(rows, run, role, tool);
    assert rows'[..|rows' | - 1] == rows;
  }

  /** Logging keeps every run's numbers gap-free. */
  lemma LoggingKeepsNumbers(rows: seq<MessageRow>, run: Id, role: Role, tool: Option<string>)
    requires Numbered(rows)
    ensures Numbered(Logged(rows, run, role, tool))
  {
    forall other ensures MessagesOf(Logged(rows, run, role, tool), other)
      == MessagesOf(rows, other)
         + if other == run then [MessageRow(run, |MessagesOf(rows, run)| + 1, role, tool)] else []
    {
      LoggingExtendsOneRun(rows, run, role, tool, other);
    }
  }

  // ---- the runs table ----

  /** Parents exist before their children. */
  ghost predicate ParentsFirst(runs: map<Id, AgentRun>) {
    forall id | id in runs && runs[id].parent.Some? :: runs[id].parent.value < id && runs[id].parent.value in runs
  }

  /** A delegated run carries its parent's correlation id. */
  ghost predicate Inherited(runs: map<Id, AgentRun>) {
    forall id | id in runs && runs[id].parent.Some? ::
      runs[id].parent.value in runs ==> runs[id].correlation == runs[runs[id].parent.value].correlation
  }

  /** `x` is `root` or was delegated to, directly or not, by `root`: follow the parent pointers upwards. */
  predicate Descends(runs: map<Id, AgentRun>, x: Id, root: Id)
    decreases x
  {
    x in runs
    && (x == root
        || (runs[x].parent.Some? && runs[x].parent.value < x && Descends(runs, runs[x].parent.value, root)))
  }

  /** The same, where every run on the way below `root` carries correlation id `c`. */
  predicate Under(runs: map<Id, AgentRun>, c: Id, x: Id, root: Id)
    decreases x
  {
    x in runs && (x == root || (runs[x].correlation == c && runs[x].parent.Some? && runs[x].parent.value < x
                                && Under(runs, c, runs[x].parent.value, root)))
  }

  datatype Node = Node(run: Id, children: seq<Node>)

  /** The runs of one trace that name `parent`, oldest first. */
  function ChildrenOf(runs: map<Id, AgentRun>, correlation: Id, parent: Id): seq<Id> {
    OrderBy(map id | id in runs && runs[id].correlation == correlation && runs[id].parent == Some(parent) ::
        runs[id].startedAt)
  }

  /** `_build_node`: the run with a subtree for each child. Children are younger, so ids below `bound` run out. */
  function Build(runs: map<Id, AgentRun>, correlation: Id, run: Id, bound: Id): Node
    decreases bound - run, 1
  {
    Node(run, BuildAll(runs, correlation, run, ChildrenOf(runs, correlation, run), bound))
  }

  function BuildAll(runs: map<Id, AgentRun>, correlation: Id, parent: Id, children: seq<Id>, bound: Id): seq<Node>
    decreases bound - parent, 0, |children|
  {
    if children == [] then []
    else
      (if parent < children[0] < bound then [Build(runs, correlation, children[0], bound)] else [])
      + BuildAll(runs, correlation, parent, children[1..], bound)
  }

  /** How often a run occurs in a tree. */
  function Count(n: Node, x: Id): nat {
    (if n.run == x then 1 else 0) + CountAll(n.children, x)
  }

  function CountAll(ns: seq<Node>, x: Id): nat {
    if ns == [] then 0 else Count(ns[0], x) + CountAll(ns[1..], x)
  }

  /** Every node but the root hangs under its own parent. */
  predicate Parented(runs: map<Id, AgentRun>, n: Node) {
    forall i | 0 <= i < |n.children| ::
      n.children[i].run in runs && runs[n.children[i].run].parent == Some(n.run) && Parented(runs, n.children[i])
  }

  lemma UnderIsYounger(runs: map<Id, AgentRun>, c: Id, x: Id, root: Id)
    requires Under(runs, c, x, root)
    ensures root <= x && root in runs
  {
  }

  /** A run cannot be under two siblings. */
  lemma {:induction false} OneBranch(runs: map<Id, AgentRun>, c: Id, x: Id, a: Id, b: Id)
    requires Under(runs, c, x, a) && Under(runs, c, x, b) && a != b
    requires a in runs && b in runs && runs[a].parent.Some? && runs[a].parent == runs[b].parent
    requires ParentsFirst(runs)
    ensures false
    decreases x
  {
    if x == a {
      UnderIsYounger(runs, c, runs[a].parent.value, b);
    } else if x == b {
      UnderIsYounger(runs, c, runs[b].parent.value, a);
    } else {
      OneBranch(runs, c, runs[x].parent.value, a, b);
    }
  }

  /** Below a run, the way up passes through one of its children. */
  lemma {:induction false} ThroughChild(runs: map<Id, AgentRun>, c: Id, x: Id, root: Id) returns (child: Id)
    requires ParentsFirst(runs) && Under(runs, c, x, root) && x != root
    ensures child in runs && runs[child].parent == Some(root) && Under(runs, c, x, child)
    ensures runs[child].correlation == c
    decreases x
  {
    var p := runs[x].parent.value;
    if p == root {
      child := x;
    } else {
      child := ThroughChild(runs, c, p, root);
    }
  }

  lemma {:induction false} UnderChildIsUnderParent(runs: map<Id, AgentRun>, c: Id, x: Id, child: Id, root: Id)
    requires ParentsFirst(runs) && Under(runs, c, x, child) && child in runs && runs[child].parent == Some(root)
    requires runs[child].correlation == c
    ensures Under(runs, c, x, root) && x > root
    decreases x
  {
    if x != child {
      UnderChildIsUnderParent(runs, c, runs[x].parent.value, child, root);
    }
  }

  lemma ChildrenAreDistinct(runs: map<Id, AgentRun>, c: Id, parent: Id)
    ensures var children := ChildrenOf(runs, c, parent);
      && (forall i | 0 <= i < |children| ::
            children[i] in runs && runs[children[i]].parent == Some(parent) && runs[children[i]].correlation == c)
      && (forall i, j | 0 <= i < j < |children| :: children[i] != children[j])
  {
    var key := map id | id in runs && runs[id].correlation == c && runs[id].parent == Some(parent) ::
        runs[id].startedAt;
    var children := OrderBy(key);
    assert forall i | 0 <= i < |children| :: children[i] in children;
    assert forall i, j | 0 <= i < j < |children| :: Before(key, children[i], children[j]);
  }

  /** The tree built below a run contains exactly the runs under it in the same trace, each once. */
  lemma {:induction false} BuildIsExact(runs: map<Id, AgentRun>, c: Id, run: Id, bound: Id, x: Id)
    requires ParentsFirst(runs) && run in runs && forall id | id in runs :: id < bound
    ensures Count(Build(runs, c, run, bound), x) == if Under(runs, c, x, run) then 1 else 0
    decreases bound - run, 1
  {
    var children := ChildrenOf(runs, c, run);
    ChildrenAreDistinct(runs, c, run);
    BranchesAreExact(runs, c, run, children, bound, x);
    if Under(runs, c, x, run) && x != run {
      var child := ThroughChild(runs, c, x, run);
      assert child in children;
    }
    if i :| 0 <= i < |children| && Under(runs, c, x, children[i]) {
      UnderChildIsUnderParent(runs, c, x, children[i], run);
    }
  }

  /** Among the branches for some of a run's children, `x` occurs once if it is under one of them and not otherwise. */
  lemma {:induction false} BranchesAreExact(runs: map<Id, AgentRun>, c: Id, run: Id, children: seq<Id>, bound: Id,
      x: Id)
    requires ParentsFirst(runs) && run in runs && forall id | id in runs :: id < bound
    requires forall i | 0 <= i < |children| :: children[i] in runs && runs[children[i]].parent == Some(run)
    requires forall i, j | 0 <= i < j < |children| :: children[i] != children[j]
    ensures CountAll(BuildAll(runs, c, run, children, bound), x)
         == if exists i | 0 <= i < |children| :: Under(runs, c, x, children[i]) then 1 else 0
    decreases bound - run, 0, |children|
  {
    if children != [] {
      var child, rest := children[0], children[1..];
      BuildIsExact(runs, c, child, bound, x);
      BranchesAreExact(runs, c, run, rest, bound, x);
      assert BuildAll(runs, c, run, children, bound)
          == [Build(runs, c, child, bound)] + BuildAll(runs, c, run, rest, bound);
      if Under(runs, c, x, child) {
        forall i | 0 <= i < |rest| ensures !Under(runs, c, x, rest[i]) {
          if Under(runs, c, x, rest[i]) { OneBranch(runs, c, x, child, rest[i]); }
        }
      } else if i :| 0 <= i < |children| && Under(runs, c, x, children[i]) {
        assert rest[i - 1] == children[i];
      }
    }
  }

  lemma {:induction false} InheritanceReachesAll(runs: map<Id, AgentRun>, x: Id, root: Id)
    requires ParentsFirst(runs) && Inherited(runs) && root in runs
    ensures Under(runs, runs[root].correlation, x, root) <==> Descends(runs, x, root)
    ensures Descends(runs, x, root) ==> runs[x].correlation == runs[root].correlation
    decreases x
  {
    if x in runs && x != root && runs[x].parent.Some? {
      InheritanceReachesAll(runs, runs[x].parent.value, root);
    }
  }

  /** When delegated runs inherit the correlation id, the trace of a run holds exactly the run and all its transitive
      delegates, each once. */
  lemma TraceIsExact(runs: map<Id, AgentRun>, run: Id, bound: Id, x: Id)
    requires ParentsFirst(runs) && Inherited(runs) && run in runs && forall id | id in runs :: id < bound
    ensures Count(Build(runs, runs[run].correlation, run, bound), x) == if Descends(runs, x, run) then 1 else 0
  {
    BuildIsExact(runs, runs[run].correlation, run, bound, x);
    InheritanceReachesAll(runs, x, run);
  }

  /** Every node of the trace tree hangs under its own parent. */
  lemma {:induction false} TraceIsParented(runs: map<Id, AgentRun>, correlation: Id, run: Id, bound: Id)
    ensures Parented(runs, Build(runs, correlation, run, bound))
    decreases bound - run, 1
  {
    ChildrenAreDistinct(runs, correlation, run);
    BranchesAreParented(runs, correlation, run, ChildrenOf(runs, correlation, run), bound);
  }

  lemma {:induction false} BranchesAreParented(runs: map<Id, AgentRun>, correlation: Id, run: Id, children: seq<Id>,
      bound: Id)
    requires forall i | 0 <= i < |children| :: children[i] in runs && runs[children[i]].parent == Some(run)
    ensures forall n | n in BuildAll(runs, correlation, run, children, bound) ::
      n.run in runs && runs[n.run].parent == Some(run) && Parented(runs, n)
    decreases bound - run, 0, |children|
  {
    if children != [] {
      BranchesAreParented(runs, correlation, run, children[1..], bound);
      if run < children[0] < bound {
        TraceIsParented(runs, correlation, children[0], bound);
      }
    }
  }

  predicate InOrder(runs: map<Id, AgentRun>, ids: seq<Id>) {
    && (forall i | 0 <= i < |ids| :: ids[i] in runs)
    && forall i, j | 0 <= i < j < |ids| :: runs[ids[i]].startedAt <= runs[ids[j]].startedAt
  }

  function RunsAt(ns: seq<Node>): seq<Id> {
    if ns == [] then [] else [ns[0].run] + RunsAt(ns[1..])
  }

  /** At every node of the tree the delegated runs are listed oldest first. */
  predicate OldestFirst(runs: map<Id, AgentRun>, n: Node) {
    InOrder(runs, RunsAt(n.children)) && forall i | 0 <= i < |n.children| :: OldestFirst(runs, n.children[i])
  }

  lemma ChildrenAreInOrder(runs: map<Id, AgentRun>, correlation: Id, parent: Id)
    ensures InOrder(runs, ChildrenOf(runs, correlation, parent))
  {
    ChildrenAreDistinct(runs, correlation, parent);
    var key := map id | id in runs && runs[id].correlation == correlation && runs[id].parent == Some(parent) ::
        runs[id].startedAt;
    var children := OrderBy(key);
    assert forall i, j | 0 <= i < j < |children| :: Before(key, children[i], children[j]);
  }

  /** The tree lists each run's delegates oldest first. */
  lemma {:induction false} TraceIsOldestFirst(runs: map<Id, AgentRun>, correlation: Id, run: Id, bound: Id)
    ensures OldestFirst(runs, Build(runs, correlation, run, bound))
    decreases bound - run, 1
  {
    ChildrenAreInOrder(runs, correlation, run);
    BranchesAreOldestFirst(runs, correlation, run, ChildrenOf(runs, correlation, run), bound);
  }

  lemma {:induction false} BranchesAreOldestFirst(runs: map<Id, AgentRun>, correlation: Id, run: Id, children: seq<Id>,
      bound: Id)
    requires InOrder(runs, children)
    ensures var branches := BuildAll(runs, correlation, run, children, bound);
      && InOrder(runs, RunsAt(branches))
      && (forall id | id in RunsAt(branches) :: id in children)
      && forall i | 0 <= i < |branches| :: OldestFirst(runs, branches[i])
    decreases bound - run, 0, |children|
  {
    if children != [] {
      var child, rest := children[0], children[1..];
      BranchesAreOldestFirst(runs, correlation, run, rest, bound);
      var later := BuildAll(runs, correlation, run, rest, bound);
      if run < child < bound {
        TraceIsOldestFirst(runs, correlation, child, bound);
        var branch := Build(runs, correlation, child, bound);
        assert BuildAll(runs, correlation, run, children, bound) == [branch] + later;
        assert RunsAt([branch] + later) == [child] + RunsAt(later) by { assert ([branch] + later)[1..] == later; }
        hide Build, BuildAll, OldestFirst, RunsAt;
        assert forall i | 0 <= i < |RunsAt(later)| :: RunsAt(later)[i] in rest;
      } else {
        assert BuildAll(runs, correlation, run, children, bound) == later;
      }
    }
  }

  // ---- the services ----

  function Group(childrenByParent: map<Id, seq<Id>>, parent: Id): seq<Id> {
    if parent in childrenByParent then childrenByParent[parent] else []
  }

  /** The rows of one trace and their start times. */
  function TraceKeys(runs: map<Id, AgentRun>, c: Id): map<Id, real> {
    map id | id in runs && runs[id].correlation == c :: runs[id].startedAt
  }

  /** `children` are, in order, the rows seen so far whose parent is `p`. */
  ghost predicate Grouped(runs: map<Id, AgentRun>, c: Id, seen: seq<Id>, p: Id, children: seq<Id>) {
    && (forall id | id in children :: id in TraceKeys(runs, c))
    && (forall id :: id in children <==> id in seen && id in runs && runs[id].parent == Some(p))
    && Ordered(TraceKeys(runs, c), children)
  }

  lemma NothingGrouped(runs: map<Id, AgentRun>, c: Id)
    ensures forall p: Id :: Grouped(runs, c, [], p, [])
  {
  }

  lemma GroupGrows(runs: map<Id, AgentRun>, c: Id, related: seq<Id>, i: nat, p: Id, siblings: seq<Id>)
    requires i < |related| && related == OrderBy(TraceKeys(runs, c)) && related[i] in runs
    requires Grouped(runs, c, related[..i], p, siblings)
    ensures Grouped(runs, c, related[..i + 1], p,
                    siblings + if runs[related[i]].parent == Some(p) then [related[i]] else [])
  {
    var key := TraceKeys(runs, c);
    assert related[..i + 1] == related[..i] + [related[i]];
    assert related[i] in related;
    forall k | 0 <= k < |siblings| ensures Before(key, siblings[k], related[i]) {
      assert siblings[k] in siblings;
      var j :| 0 <= j < i && related[j] == siblings[k];
    }
  }

  lemma GroupIsChildren(runs: map<Id, AgentRun>, c: Id, related: seq<Id>, p: Id, children: seq<Id>)
    requires related == OrderBy(TraceKeys(runs, c)) && Grouped(runs, c, related, p, children)
    ensures children == ChildrenOf(runs, c, p)
  {
    OrderedIsUnique(TraceKeys(runs, c), children, ChildrenOf(runs, c, p));
  }

  lemma BuildAllUnfolds(runs: map<Id, AgentRun>, c: Id, parent: Id, children: seq<Id>, bound: Id)
    requires forall i | 0 <= i < |children| :: parent < children[i] < bound
    ensures BuildAll(runs, c, parent, children, bound)
         == if children == [] then []
            else [Build(runs, c, children[0], bound)] + BuildAll(runs, c, parent, children[1..], bound)
  {
  }

  lemma BuildUnfolds(runs: map<Id, AgentRun>, c: Id, run: Id, bound: Id)
    ensures Build(runs, c, run, bound) == Node(run, BuildAll(runs, c, run, ChildrenOf(runs, c, run), bound))
  {
  }

  class AgentRunService {
    var runs: map<Id, AgentRun>
    var messages: seq<MessageRow>
    var nextId: Id
    var nextCorrelation: Id

    constructor ()
      ensures Valid() && runs == map[] && messages == []
    {
      runs, messages, nextId, nextCorrelation := map[], [], 0, 0;
    }

    ghost predicate Valid()
      reads this
    {
      && ParentsFirst(runs) && Numbered(messages)
      && forall id | id in runs :: id < nextId && runs[id].correlation < nextCorrelation
    }

    /** Inserts a running run, or fails on a missing parent. Without a correlation id it gets a fresh one. */
    method StartRun(agent: string, parent: Option<Id>, correlation: Option<Id>, now: real) returns (r: Option<Id>)
      requires Valid()
      modifies this`runs, this`nextId, this`nextCorrelation
      ensures Valid()
      ensures r.None? <==> parent.Some? && parent.value !in old(runs)
      ensures r.None? ==> runs == old(runs)
      ensures r.Some? ==> r.value !in old(runs) && runs.Keys == old(runs).Keys + {r.value}
      ensures r.Some? ==> forall id | id in old(runs) :: runs[id] == old(runs)[id]
      ensures r.Some? ==>
        runs[r.value].agent == agent && runs[r.value].parent == parent && runs[r.value].startedAt == now
      ensures r.Some? && correlation.Some? ==> runs[r.value].correlation == correlation.value
      ensures r.Some? && correlation.None? ==>
        forall id | id in old(runs) :: runs[r.value].correlation != old(runs)[id].correlation
      ensures old(Inherited(runs)) ==>
        (parent.Some? && parent.value in old(runs) ==> correlation == Some(old(runs)[parent.value].correlation)) ==>
          Inherited(runs)
    {
      if parent.Some? && parent.value !in runs {
        return None;
      }
      var id := nextId;
      var trace := correlation.GetOr(nextCorrelation);
      runs := runs[id := AgentRun(agent, parent, trace, now)];
      nextId := nextId + 1;
      if trace >= nextCorrelation {
        nextCorrelation := trace + 1;
      }
      r := Some(id);
    }

    /** One more than the largest number the run has, or 1. */
    method NextSequenceNumber(run: Id) returns (number: nat)
      requires Valid()
      ensures number == |MessagesOf(messages, run)| + 1
    {
      var existing := MessagesOf(messages, run);
      number := 1;
      for i := 0 to |existing|
        invariant number == i + 1
      {
        if existing[i].number + 1 > number {
          number := existing[i].number + 1;
        }
      }
    }

    method LogMessage(run: Id, role: Role, tool: Option<string>)
      requires Valid()
      modifies this`messages
      ensures Valid() && messages == Logged(old(messages), run, role, tool)
    {
      LoggingKeepsNumbers(messages, run, role, tool);
      var number := NextSequenceNumber(run);
      messages := messages + [MessageRow(run, number, role, tool)];
    }

    /** Fetches the trace once, groups it by parent and builds the tree of the requested run. */
    method GetTrace(run: Id) returns (r: Option<Node>)
      requires Valid()
      ensures r == if run in runs then Some(Build(runs, runs[run].correlation, run, nextId)) else None
    {
      if run !in runs {
        return None;
      }
      var childrenByParent := GroupByParent(runs[run].correlation);
      var root := BuildNode(run, runs[run].correlation, childrenByParent);
      r := Some(root);
    }

    method GroupByParent(c: Id) returns (childrenByParent: map<Id, seq<Id>>)
      ensures forall p: Id :: Group(childrenByParent, p) == ChildrenOf(runs, c, p)
    {
      hide Grouped;
      var related := OrderBy(TraceKeys(runs, c));
      childrenByParent := map[];
      NothingGrouped(runs, c);
      for i := 0 to |related|
        invariant forall p: Id :: Grouped(runs, c, related[..i], p, Group(childrenByParent, p))
      {
        var candidate := related[i];
        assert candidate in related;
        ghost var before := childrenByParent;
        if runs[candidate].parent.Some? {
          var p := runs[candidate].parent.value;
          childrenByParent := childrenByParent[p := Group(childrenByParent, p) + [candidate]];
        }
        hide OrderBy, TraceKeys;
        forall p: Id ensures Grouped(runs, c, related[..i + 1], p, Group(childrenByParent, p)) {
          GroupGrows(runs, c, related, i, p, Group(before, p));
          assert Group(childrenByParent, p)
              == Group(before, p) + if runs[candidate].parent == Some(p) then [candidate] else [];
        }
      }
      assert related[..|related|] == related;
      forall p: Id ensures Group(childrenByParent, p) == ChildrenOf(runs, c, p) {
        GroupIsChildren(runs, c, related, p, Group(childrenByParent, p));
      }
    }

    method BuildNode(run: Id, c: Id, childrenByParent: map<Id, seq<Id>>) returns (n: Node)
      requires Valid() && run < nextId
      requires forall p :: Group(childrenByParent, p) == ChildrenOf(runs, c, p)
      ensures n == Build(runs, c, run, nextId)
      decreases nextId - run
    {
      hide Build, BuildAll, ChildrenOf;
      var ids := Group(childrenByParent, run);
      ChildrenAreDistinct(runs, c, run);
      var children := [];
      for i := 0 to |ids|
        invariant BuildAll(runs, c, run, ids, nextId) == children + BuildAll(runs, c, run, ids[i..], nextId)
      {
        var child := BuildNode(ids[i], c, childrenByParent);
        BuildAllUnfolds(runs, c, run, ids[i..], nextId);
        assert ids[i..][0] == ids[i] && ids[i..][1..] == ids[i + 1..];
        children := children + [child];
      }
      assert ids[|ids|..] == [];
      BuildAllUnfolds(runs, c, run, [], nextId);
      BuildUnfolds(runs, c, run, nextId);
      n := Node(run, children);
    }
  }
}
