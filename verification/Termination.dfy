/** On which graphs the engine always comes to an end: a condition on the graph alone. */
module Termination {
  import opened Basics
  import opened AuditLog
  import opened WorkflowGraph
  import opened TokenBudget
  import opened Engine
  import opened EngineRun

  ghost predicate Ends(j: Job, s: State, world: nat -> Choice) {
    exists n: nat :: !Alive(j, s, world, n)
  }

  // Edge `k` is preferred to edge `i` where both are open.
  predicate Outranks(g: Graph, k: nat, i: nat)
    requires k < |g.edges| && i < |g.edges|
  {
    g.edges[k].priority > g.edges[i].priority || (g.edges[k].priority == g.edges[i].priority && k < i)
  }

  // Some conditions make a Decision node with this id take edge `i`: whatever outranks it can be shut.
  predicate Takeable(g: Graph, id: string, i: nat) {
    && i < |g.edges| && g.edges[i].from == id
    && forall k :: 0 <= k < |g.edges| && g.edges[k].from == id && Outranks(g, k, i) ==>
         g.edges[k].condition.Some? && g.edges[k].condition != g.edges[i].condition
  }

  predicate LeadsInto(g: Graph, a: string, t: set<string>, i: nat)
    requires a in g.nodes
  {
    Takeable(g, g.nodes[a].id, i) && g.edges[i].to in t
  }

  // Decision nodes each of which can pass on to one of them.
  ghost predicate Trap(g: Graph, t: set<string>) {
    && t != {}
    && forall a {:trigger PassesOn(g, a, t)} :: a in t ==> PassesOn(g, a, t)
  }

  ghost predicate PassesOn(g: Graph, a: string, t: set<string>) {
    a in g.nodes && g.nodes[a].nodeType == Decision && exists i: nat :: LeadsInto(g, a, t, i)
  }

  // ---- A circling run shows a trap --------------------------------------------------------------

  lemma RightIsTakeable(rules: Rules, g: Graph, id: string, view: View, i: nat)
    requires RightAtDecision(rules, g, id, view, i)
    ensures Takeable(g, id, i)
  {
    forall k | 0 <= k < |g.edges| && g.edges[k].from == id && Outranks(g, k, i)
      ensures g.edges[k].condition.Some? && g.edges[k].condition != g.edges[i].condition
    {
      assert !OpenAt(rules, g, id, view, k);
    }
  }

  function Visited(j: Job, s: State, world: nat -> Choice, a: nat, b: nat): set<string> {
    set i: nat | a <= i < b :: After(j, s, world, i).node
  }

  lemma CircleIsTrap(j: Job, s: State, world: nat -> Choice, a: nat, b: nat)
    requires Alive(j, s, world, b) && Circles(j, s, world, a, b)
    ensures Trap(j.graph, Visited(j, s, world, a, b))
  {
    hide TurnOf, RightAtDecision, Takeable;
    var t := Visited(j, s, world, a, b);
    assert After(j, s, world, a).node in t;
    forall x | x in t ensures PassesOn(j.graph, x, t)
    {
      var i: nat :| a <= i < b && After(j, s, world, i).node == x;
      var m := After(j, s, world, i);
      assert OutcomeAt(j, s, world, i).kind == Continues && OutcomeAt(j, s, world, i).hop.Some?;
      GoesOnRightly(j, m, world(i));
      var h := OutcomeAt(j, s, world, i).hop.value;
      RightIsTakeable(j.env.rules, j.graph, j.graph.nodes[x].id, h.view, h.edge);
      assert After(j, s, world, i + 1) == OutcomeAt(j, s, world, i).state;
      var next := if i + 1 < b then i + 1 else a;
      assert After(j, s, world, next).node == j.graph.edges[h.edge].to;
      assert LeadsInto(j.graph, x, t, h.edge);
    }
  }

  // ---- A trap keeps a run going -----------------------------------------------------------------

  // The edge a node of the trap passes on along.
  ghost function Way(g: Graph, t: set<string>, a: string): (i: nat)
    requires Trap(g, t) && a in t
    ensures PassesOn(g, a, t) && LeadsInto(g, a, t, i)
  {
    assert PassesOn(g, a, t);
    var i: nat :| LeadsInto(g, a, t, i);
    i
  }

  // Conditions that hold just for the edges of the trap, each at its own node.
  ghost function Holding(g: Graph, t: set<string>): Rules
    requires Trap(g, t)
  {
    Rules(_ => false, _ => None, (_, _) => false,
          (text, view: View) => view.node in t && g.edges[Way(g, t, view.node)].condition == Some(text))
  }

  lemma TakesTheWay(g: Graph, t: set<string>, a: string, view: View)
    requires Trap(g, t) && a in t && view.node == a
    ensures EvaluateDecision(Holding(g, t), g, g.nodes[a].id, view) == Next(Way(g, t, a))
  {
    hide EvaluateDecision, Trap;
    TrapNode(g, t, a);
    var rules, id, i := Holding(g, t), g.nodes[a].id, Way(g, t, a);
    DecisionIsRight(rules, g, id, view);
    assert OpenAt(rules, g, id, view, i);
  }

  lemma {:induction false} TrappedForEver(j: Job, t: set<string>, s: State, world: nat -> Choice, n: nat)
    requires Trap(j.graph, t) && j.env.rules == Holding(j.graph, t) && s.node in t && s.step < MAX_WORKFLOW_STEPS
    ensures Alive(j, s, world, n) && After(j, s, world, n).node in t && After(j, s, world, n).step == s.step
  {
    hide Trap, EvaluateDecision, StepTurn, Holding;
    if n > 0 {
      TrappedForEver(j, t, s, world, n - 1);
      var m := After(j, s, world, n - 1);
      var view := View(j.taskId, m.node, m.step, m.memory);
      TrapNode(j.graph, t, m.node);
      TakesTheWay(j.graph, t, m.node, view);
      assert OutcomeAt(j, s, world, n - 1).kind == Continues;
    }
  }

  lemma TrapNode(g: Graph, t: set<string>, a: string)
    requires Trap(g, t) && a in t
    ensures a in g.nodes && g.nodes[a].nodeType == Decision
  {
    assert PassesOn(g, a, t);
  }

  /** On a graph every run ends - under all conditions, tools and storage, from all contexts - if and only if
      the graph has no trap. */
  lemma EndsExactly(g: Graph)
    ensures (forall j: Job, s: State, world: nat -> Choice :: j.graph == g ==> Ends(j, s, world)) <==>
            (forall t: set<string> :: !Trap(g, t))
  {
    hide Trap, Alive, Circles, After;
    if t: set<string> :| Trap(g, t) {
      TrapIsNotEmpty(g, t);
      var a :| a in t;
      var env := Env(Holding(g, t), map[], _ => true, _ => true, _ => true);
      var j, s := Job(env, g, ""), State(a, 0, map[], Budget(0, Conservative, 0, 0), Running, map[]);
      var c := Choice(false, true, _ => Errored, "", Done, false, Done, false, Done, false, false, Done, false, false);
      var world: nat -> Choice := _ => c;
      forall n: nat ensures Alive(j, s, world, n) { TrappedForEver(j, t, s, world, n); }
      assert !Ends(j, s, world);
    } else {
      forall j: Job, s: State, world: nat -> Choice | j.graph == g ensures Ends(j, s, world) {
        NoTrapEnds(j, s, world);
      }
    }
  }

  lemma TrapIsNotEmpty(g: Graph, t: set<string>)
    requires Trap(g, t)
    ensures t != {}
  {
  }

  lemma NoTrapEnds(j: Job, s: State, world: nat -> Choice)
    requires forall t: set<string> :: !Trap(j.graph, t)
    ensures Ends(j, s, world)
  {
    hide Trap, Circles, After;
    if forall n: nat :: Alive(j, s, world, n) {
      EndlessExactly(j, s, world);
      var a: nat, b: nat :| Alive(j, s, world, b) && Circles(j, s, world, a, b);
      CircleIsTrap(j, s, world, a, b);
      assert false;
    }
  }

  /** A run that ends does so within the bound. */
  lemma EndingRunsAreShort(j: Job, s: State, world: nat -> Choice, n: nat)
    requires Ends(j, s, world) && Alive(j, s, world, n)
    ensures n <= Bound(j, s)
  {
    hide TurnOf, Alive, Circles;
    forall a: nat, b: nat | b <= n ensures !Circles(j, s, world, a, b) {
      AliveBefore(j, s, world, b, n);
      if Circles(j, s, world, a, b) {
        EndlessExactly(j, s, world);
        assert false;
      }
    }
    EndsInTime(j, s, world, n);
  }
}
