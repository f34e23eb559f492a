/** `crates/contextra-agent/src/graph.rs` and the edge selection of `engine.rs`.  How a condition text or a
    goal is evaluated is left open: `Rules` holds arbitrary deterministic predicates. */
module WorkflowGraph {
  import opened Basics
  import opened AuditLog

  datatype NodeType = Start | Task | Decision | End

  datatype Node = Node(id: string, nodeType: NodeType, handler: Option<string>)

  datatype Edge = Edge(from: string, to: string, condition: Option<string>, goal: Option<string>, priority: nat)

  datatype Graph = Graph(nodes: map<string, Node>, edges: seq<Edge>)

  datatype StepResult = StepResult(nodeId: string, output: Value, tokens: nat, nextEdge: Option<string>)

  // What a Decision node's expressions can see.
  datatype View = View(taskId: string, node: string, step: nat, memory: map<string, Value>)

  datatype Rules = Rules(
    blank: string -> bool,                       // the text is empty once trimmed
    parse: string -> Option<string>,             // the legacy condition as a goal
    goalHolds: (string, StepResult) -> bool,
    exprHolds: (string, View) -> bool)

  /** `has_condition` */
  predicate HasCondition(rules: Rules, e: Edge) {
    e.goal.Some? || (e.condition.Some? && !rules.blank(e.condition.value))
  }

  /** `evaluate_condition` */
  predicate EvaluateCondition(rules: Rules, e: Edge, result: StepResult) {
    if e.goal.Some? then rules.goalHolds(e.goal.value, result)
    else if e.condition.Some? then
      rules.blank(e.condition.value) ||
      (rules.parse(e.condition.value).Some? && rules.goalHolds(rules.parse(e.condition.value).value, result))
    else true
  }

  // Edge `i` leads out of a Start or Task node whose step ended with `result`.
  predicate OpenAfter(rules: Rules, g: Graph, node: string, result: StepResult, i: nat)
    requires i < |g.edges|
  {
    var e := g.edges[i];
    e.from == node && (!HasCondition(rules, e) || EvaluateCondition(rules, e, result))
  }

  // Edge `i` leads out of a Decision node.  Its goal, if any, plays no part.
  predicate OpenAt(rules: Rules, g: Graph, node: string, view: View, i: nat)
    requires i < |g.edges|
  {
    var e := g.edges[i];
    e.from == node && (e.condition.None? || rules.exprHolds(e.condition.value, view))
  }

  /** After a step an edge is open for what its goal says of the result; without a goal, for what its condition
      says once parsed; and unconditionally if it has neither, a blank condition counting as none.  A condition
      that does not parse never opens it.  That is what evaluating its condition says; asking first whether it has
      one makes no difference. */
  lemma OpenAfterExactly(rules: Rules, g: Graph, node: string, result: StepResult, i: nat)
    requires i < |g.edges|
    ensures var e := g.edges[i];
      OpenAfter(rules, g, node, result, i) <==>
        && e.from == node
        && (e.goal.Some? ==> rules.goalHolds(e.goal.value, result))
        && (e.goal.None? && e.condition.Some? && !rules.blank(e.condition.value) ==>
              exists goal :: rules.parse(e.condition.value) == Some(goal) && rules.goalHolds(goal, result))
    ensures OpenAfter(rules, g, node, result, i) <==>
      g.edges[i].from == node && EvaluateCondition(rules, g.edges[i], result)
  {
  }

  /** At a Decision node the goal plays no part, and a blank condition is an expression like any other: an edge
      that is always open after a step is open there only if that expression holds. */
  lemma TwoReadings(rules: Rules, g: Graph, node: string, view: View, result: StepResult, i: nat, e: Edge)
    requires i < |g.edges| && e.from == g.edges[i].from == node && e.condition == g.edges[i].condition
    ensures OpenAt(rules, g, node, view, i) == OpenAt(rules, g.(edges := g.edges[i := e]), node, view, i)
    ensures e.condition.Some? && rules.blank(e.condition.value) ==>
      && OpenAfter(rules, g.(edges := g.edges[i := e.(goal := None)]), node, result, i)
      && (OpenAt(rules, g, node, view, i) <==> rules.exprHolds(e.condition.value, view))
    ensures e.condition.None? ==> OpenAt(rules, g, node, view, i)
  {
  }

  // ---- Filters ----------------------------------------------------------------------------------

  predicate Rising(s: seq<nat>, n: nat) {
    && (forall i :: 0 <= i < |s| ==> s[i] < n)
    && (forall i, j :: 0 <= i < j < |s| ==> s[i] < s[j])
  }

  // The first `n` edges that are open after a step, by index.
  function AllOpenAfter(rules: Rules, g: Graph, node: string, result: StepResult, n: nat): (s: seq<nat>)
    requires n <= |g.edges|
    ensures Rising(s, n)
    ensures forall i :: i in s <==> 0 <= i < n && OpenAfter(rules, g, node, result, i)
  {
    if n == 0 then []
    else AllOpenAfter(rules, g, node, result,
      n - 1) + (if OpenAfter(rules, g, node, result, n - 1) then [n - 1] else [])
  }

  function AllOpenAt(rules: Rules, g: Graph, node: string, view: View, n: nat): (s: seq<nat>)
    requires n <= |g.edges|
    ensures Rising(s, n)
    ensures forall i :: i in s <==> 0 <= i < n && OpenAt(rules, g, node, view, i)
  {
    if n == 0 then []
    else AllOpenAt(rules, g, node, view, n - 1) + (if OpenAt(rules, g, node, view, n - 1) then [n - 1] else [])
  }

  // ---- Choosing ---------------------------------------------------------------------------------

  // `find`: the first of `s` that leads to `to`.
  function FirstTo(g: Graph, s: seq<nat>, to: string): (r: Option<nat>)
    requires Rising(s, |g.edges|)
    ensures r.None? ==> forall i :: i in s ==> g.edges[i].to != to
    ensures r.Some? ==> r.value in s && g.edges[r.value].to == to
    ensures r.Some? ==> forall i :: i in s && g.edges[i].to == to ==> r.value <= i
  {
    if s == [] then None
    else if g.edges[s[0]].to == to then Some(s[0])
    else FirstTo(g, s[1..], to)
  }

  // `max_by_key` keeps the last of several maxima.
  function LastMaximum(g: Graph, s: seq<nat>): (r: nat)
    requires s != [] && Rising(s, |g.edges|)
    ensures r in s
    ensures forall i :: i in s ==> g.edges[i].priority <= g.edges[r].priority
    ensures forall i :: i in s && i > r ==> g.edges[i].priority < g.edges[r].priority
  {
    if |s| == 1 then s[0]
    else
      var front, last := s[..|s| - 1], s[|s| - 1];
      assert s == front + [last] && forall i :: i in s <==> i in front || i == last;
      var before := LastMaximum(g, front);
      if g.edges[before].priority <= g.edges[last].priority then last else before
  }

  predicate InRange(g: Graph, s: seq<nat>) {
    forall k :: 0 <= k < |s| ==> s[k] < |g.edges|
  }

  // A stable sort by falling priority, built from the back.
  function Place(g: Graph, i: nat, s: seq<nat>): seq<nat>
    requires i < |g.edges| && InRange(g, s)
  {
    if s == [] || g.edges[s[0]].priority <= g.edges[i].priority then [i] + s else [s[0]] + Place(g, i, s[1..])
  }

  function ByFallingPriority(g: Graph, s: seq<nat>): (r: seq<nat>)
    requires InRange(g, s)
    ensures InRange(g, r) && forall k :: k in r <==> k in s
  {
    if s == [] then []
    else
      var rest := ByFallingPriority(g, s[1..]);
      PlaceMembers(g, s[0], rest);
      assert s == [s[0]] + s[1..];
      Place(g, s[0], rest)
  }

  lemma {:induction false} PlaceMembers(g: Graph, i: nat, s: seq<nat>)
    requires i < |g.edges| && InRange(g, s)
    ensures InRange(g, Place(g, i, s))
    ensures forall k :: k in Place(g, i, s) <==> k == i || k in s
  {
    if s != [] {
      PlaceMembers(g, i, s[1..]);
      assert s == [s[0]] + s[1..];
    }
  }

  /** The first element of that sort is the first of the edges of maximal priority. */
  lemma {:induction false} SortedFirst(g: Graph, s: seq<nat>)
    requires s != [] && Rising(s, |g.edges|)
    ensures var r := ByFallingPriority(g, s)[0];
      && r in s && (forall i :: i in s ==> g.edges[i].priority <= g.edges[r].priority)
      && (forall i :: i in s && i < r ==> g.edges[i].priority < g.edges[r].priority)
  {
    assert s == [s[0]] + s[1..];
    if |s| > 1 {
      SortedFirst(g, s[1..]);
    }
  }

  /** `resolve_outgoing_edge`, as the index of the edge. */
  function ResolveOutgoing(rules: Rules, g: Graph, node: string, result: StepResult): Option<nat> {
    var open := AllOpenAfter(rules, g, node, result, |g.edges|);
    if open == [] then None
    else
      var forced := if result.nextEdge.Some? then FirstTo(g, open, result.nextEdge.value) else None;
      if forced.Some? then forced else Some(LastMaximum(g, open))
  }

  datatype DecisionError = NoOutgoingEdge | NoMatchingEdge

  datatype Decided = Next(edge: nat) | Refused(error: DecisionError)

  /** `evaluate_decision`, as the index of the edge. */
  function EvaluateDecision(rules: Rules, g: Graph, node: string, view: View): Decided {
    if forall i :: 0 <= i < |g.edges| ==> g.edges[i].from != node then Refused(NoOutgoingEdge)
    else
      var matching := ByFallingPriority(g, AllOpenAt(rules, g, node, view, |g.edges|));
      if matching == [] then Refused(NoMatchingEdge) else Next(matching[0])
  }

  // Edge `j` is open and leads to the node the tool named.
  predicate Named(rules: Rules, g: Graph, node: string, result: StepResult, j: nat)
    requires j < |g.edges|
  {
    result.nextEdge.Some? && OpenAfter(rules, g, node, result, j) && g.edges[j].to == result.nextEdge.value
  }

  // What the design promises of the edge taken after a step.
  ghost predicate RightAfterStep(rules: Rules, g: Graph, node: string, result: StepResult, i: nat) {
    && i < |g.edges| && OpenAfter(rules, g, node, result, i)
    && if exists j :: 0 <= j < |g.edges| && Named(rules, g, node, result, j)
       then
         Named(rules, g, node, result, i) && forall j :: 0 <= j < i ==> !Named(rules, g, node, result, j)
       else
         forall j :: 0 <= j < |g.edges| && OpenAfter(rules, g, node, result, j) ==>
           g.edges[j].priority <= g.edges[i].priority && (j > i ==> g.edges[j].priority < g.edges[i].priority)
  }

  // And of the edge taken at a Decision node.
  ghost predicate RightAtDecision(rules: Rules, g: Graph, node: string, view: View, i: nat) {
    && i < |g.edges| && OpenAt(rules, g, node, view, i)
    && forall j :: 0 <= j < |g.edges| && OpenAt(rules, g, node, view, j) ==>
         g.edges[j].priority <= g.edges[i].priority && (j < i ==> g.edges[j].priority < g.edges[i].priority)
  }

  /** A step takes the first open edge to the node the tool named, if there is one, and otherwise the last
      of the open edges of maximal priority; it is a dead end exactly when no edge is open. */
  lemma OutgoingIsRight(rules: Rules, g: Graph, node: string, result: StepResult)
    ensures match ResolveOutgoing(rules, g, node, result)
      case Some(i) => RightAfterStep(rules, g, node, result, i)
      case None => forall i :: 0 <= i < |g.edges| ==> !OpenAfter(rules, g, node, result, i)
  {
    hide LastMaximum, FirstTo;
    var open := AllOpenAfter(rules, g, node, result, |g.edges|);
    assert open == [] ==> forall i :: i !in open;
    if open != [] && result.nextEdge.Some? {
      var forced := FirstTo(g, open, result.nextEdge.value);
      assert forced.None? ==> forall j :: 0 <= j < |g.edges| ==> !Named(rules, g, node, result, j);
      assert forced.Some? ==> Named(rules, g, node, result, forced.value);
    }
  }

  /** A Decision node takes the first of the open edges of maximal priority, and refuses exactly when no
      edge is open, telling apart the node that no edge leaves. */
  lemma DecisionIsRight(rules: Rules, g: Graph, node: string, view: View)
    ensures match EvaluateDecision(rules, g, node, view)
      case Next(i) => RightAtDecision(rules, g, node, view, i)
      case Refused(error) =>
        && (forall i :: 0 <= i < |g.edges| ==> !OpenAt(rules, g, node, view, i))
        && (error == NoOutgoingEdge <==> forall i :: 0 <= i < |g.edges| ==> g.edges[i].from != node)
  {
    hide ByFallingPriority, AllOpenAt;
    var open := AllOpenAt(rules, g, node, view, |g.edges|);
    var matching := ByFallingPriority(g, open);
    assert matching != [] ==> matching[0] in matching;
    if open == [] {
      assert forall i :: 0 <= i < |g.edges| ==> i !in open;
    } else {
      assert open[0] in open && open[0] in matching;
      SortedFirst(g, open);
    }
  }
}
