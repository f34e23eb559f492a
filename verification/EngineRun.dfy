/** Whole runs of the engine: what the audit trail of a finished run says, what the run costs, and when it
    ends at all. */
module EngineRun {
  import opened Basics
  import opened AuditLog
  import opened WorkflowGraph
  import opened TokenBudget
  import opened Engine

  // What stays fixed during a run.
  datatype Job = Job(env: Env, graph: Graph, taskId: string)

  function TurnAt(j: Job, s: State, c: Choice): Outcome {
    TurnOf(j.env, j.graph, j.taskId, s, c)
  }

  // The state after `n` turns, turn `i` meeting the outside world `world(i)`.
  function After(j: Job, s: State, world: nat -> Choice, n: nat): State
    decreases n, 0
  {
    if n == 0 then s else OutcomeAt(j, s, world, n - 1).state
  }

  function OutcomeAt(j: Job, s: State, world: nat -> Choice, n: nat): Outcome
    decreases n, 1
  {
    TurnAt(j, After(j, s, world, n), world(n))
  }

  // The loop goes on for at least `n` turns.
  predicate Alive(j: Job, s: State, world: nat -> Choice, n: nat) {
    forall i: nat :: i < n ==> OutcomeAt(j, s, world, i).kind == Continues
  }

  // ---- Turns that go on -------------------------------------------------------------------------

  // A turn that was a step: audited, committed, and followed along the right edge.
  ghost predicate IsStep(j: Job, s: State, o: Outcome) {
    && o.hop.Some? && o.hop.value.Step?
    && var h := o.hop.value;
    && s.node in j.graph.nodes && j.graph.nodes[s.node].nodeType in {Start, Task}
    && h.node == s.node && h.step == s.step
    && o.executed == Some(h.result)
    && AuditKey(j.taskId, s.step) !in s.kv
    && EntryOf(j, o.state.kv, h)
    && RightAfterStep(j.env.rules, j.graph, s.node, h.result, h.edge)
    && o.state.node == j.graph.edges[h.edge].to && o.state.step == s.step + 1
    && o.state.memory == s.memory["last_output" := h.result.output]
  }

  // A turn at a Decision node, which moves on and changes nothing else.
  ghost predicate IsTurn(j: Job, s: State, o: Outcome) {
    && o.hop.Some? && o.hop.value.Turn?
    && var h := o.hop.value;
    && s.node in j.graph.nodes && j.graph.nodes[s.node].nodeType == Decision
    && h.node == s.node && h.view == View(j.taskId, s.node, s.step, s.memory)
    && o.executed == None
    && RightAtDecision(j.env.rules, j.graph, j.graph.nodes[s.node].id, h.view, h.edge)
    && o.state == s.(node := j.graph.edges[h.edge].to)
  }

  // `kv` holds the error-free audit entry of the step.
  ghost predicate EntryOf(j: Job, kv: Store, h: Hop)
    requires h.Step?
  {
    var k := AuditKey(j.taskId, h.step);
    k in kv && kv[k] == Audit(Entry(j.taskId, h.step, h.node, h.result.tokens, h.result.output, None))
  }

  lemma GoesOnRightly(j: Job, s: State, c: Choice)
    requires TurnAt(j, s, c).kind == Continues
    ensures IsStep(j, s, TurnAt(j, s, c)) || IsTurn(j, s, TurnAt(j, s, c))
  {
    hide IsStep, IsTurn, StepTurn, DecisionTurn;
    if j.graph.nodes[s.node].nodeType == Decision {
      TurnGoesOn(j, s, c);
    } else {
      StepGoesOn(j, s, c);
    }
  }

  lemma TurnGoesOn(j: Job, s: State, c: Choice)
    requires s.node in j.graph.nodes && j.graph.nodes[s.node].nodeType == Decision
    requires DecisionTurn(j.env, j.graph, j.taskId, s, j.graph.nodes[s.node], c).kind == Continues
    ensures IsTurn(j, s, DecisionTurn(j.env, j.graph, j.taskId, s, j.graph.nodes[s.node], c))
  {
    hide RightAtDecision, EvaluateDecision, AuditKey;
    var id, view := j.graph.nodes[s.node].id, View(j.taskId, s.node, s.step, s.memory);
    DecisionIsRight(j.env.rules, j.graph, id, view);
    DecisionInRange(j.env.rules, j.graph, id, view);
  }

  lemma StepGoesOn(j: Job, s: State, c: Choice)
    requires s.node in j.graph.nodes && j.graph.nodes[s.node].nodeType in {Start, Task}
    requires StepTurn(j.env, j.graph, j.taskId, s, j.graph.nodes[s.node], c).kind == Continues
    ensures IsStep(j, s, StepTurn(j.env, j.graph, j.taskId, s, j.graph.nodes[s.node], c))
  {
    hide RightAfterStep, AuditKey, Recorded, Performed, Append, Estimate;
    var o := StepTurn(j.env, j.graph, j.taskId, s, j.graph.nodes[s.node], c);
    forall s': State, result | Recorded(j.env, j.graph, j.taskId, s', result, c).kind == Continues
      ensures Stepped(j, s', result, Recorded(j.env, j.graph, j.taskId, s', result, c))
    {
      RecordedGoesOn(j, s', result, c);
    }
  }

  // What recording a result and moving on leaves behind.
  ghost predicate Stepped(j: Job, s: State, result: StepResult, o: Outcome) {
    && o.hop.Some? && o.hop.value.Step? && o.executed == Some(result)
    && var h := o.hop.value;
    && h.node == s.node && h.step == s.step && h.result == result
    && AuditKey(j.taskId, s.step) !in s.kv && EntryOf(j, o.state.kv, h)
    && RightAfterStep(j.env.rules, j.graph, s.node, result, h.edge)
    && o.state.node == j.graph.edges[h.edge].to && o.state.step == s.step + 1 && o.state.memory == s.memory
  }

  lemma RecordedGoesOn(j: Job, s: State, result: StepResult, c: Choice)
    requires Recorded(j.env, j.graph, j.taskId, s, result, c).kind == Continues
    ensures Stepped(j, s, result, Recorded(j.env, j.graph, j.taskId, s, result, c))
  {
    hide AuditKey, CommitKey, FinalKey, RightAfterStep, ResolveOutgoing, HasCondition, EvaluateCondition;
    KeysApart(j.taskId, s.step, j.taskId, s.step);
    OutgoingIsRight(j.env.rules, j.graph, s.node, result);
  }

  lemma DecisionInRange(rules: Rules, g: Graph, node: string, view: View)
    requires EvaluateDecision(rules, g, node, view).Next?
    ensures EvaluateDecision(rules, g, node, view).edge < |g.edges|
  {
  }

  // ---- The audit trail --------------------------------------------------------------------------

  function Hops(j: Job, s: State, world: nat -> Choice, n: nat): (r: seq<Hop>)
    requires forall i: nat :: i < n ==> OutcomeAt(j, s, world, i).hop.Some?
  {
    if n == 0 then [] else Hops(j, s, world, n - 1) + [OutcomeAt(j, s, world, n - 1).hop.value]
  }

  /** The hops lead from (`node`, `step`) to (`node'`, `step'`) along edges of the graph: one step number
      per hop from a Start or Task node, none per hop from a Decision node, every edge the right one, and
      every step with its error-free entry in `kv`. */
  ghost predicate Trail(j: Job, kv: Store, node: string, step: nat, hops: seq<Hop>, node': string, step': nat) {
    if hops == [] then node' == node && step' == step
    else
      var before, h := hops[..|hops| - 1], hops[|hops| - 1];
      && h.node in j.graph.nodes && h.edge < |j.graph.edges| && node' == j.graph.edges[h.edge].to
      && match h {
           case Step(n, k, result, e) =>
             && j.graph.nodes[n].nodeType in {Start, Task} && step' == k + 1
             && EntryOf(j, kv, h)
             && RightAfterStep(j.env.rules, j.graph, n, result, e)
             && Trail(j, kv, node, step, before, n, k)
           case Turn(n, view, e) =>
             && j.graph.nodes[n].nodeType == Decision && step' == view.step && view.node == n && view.taskId == j.taskId
             && RightAtDecision(j.env.rules, j.graph, j.graph.nodes[n].id, view, e)
             && Trail(j, kv, node, step, before, n, step')
         }
  }

  lemma {:induction false} TrailStays(j: Job, kv: Store, kv': Store, node: string, step: nat, hops: seq<Hop>,
                                      node': string, step': nat)
    requires Trail(j, kv, node, step, hops, node', step') && Preserves(kv, kv')
    ensures Trail(j, kv', node, step, hops, node', step')
    decreases |hops|
  {
    hide RightAfterStep, RightAtDecision, AuditKey;
    if hops != [] {
      var h := hops[|hops| - 1];
      TrailStays(j, kv, kv', node, step, hops[..|hops| - 1], h.node, if h.Step? then h.step else step');
    }
  }

  // Every audit entry `kv'` has and `kv` has not is this task's, from step `lo` to before step `hi`.
  ghost predicate NewEntries(j: Job, kv: Store, kv': Store, lo: nat, hi: nat) {
    forall k :: k in kv' && kv'[k].Audit? && k !in kv ==>
      kv'[k].entry.taskId == j.taskId && lo <= kv'[k].entry.step < hi
  }

  lemma TurnEntries(j: Job, s: State, c: Choice)
    requires TurnAt(j, s, c).kind != Fails
    ensures var s' := TurnAt(j, s, c).state; s.step <= s'.step && NewEntries(j, s.kv, s'.kv, s.step, s'.step)
  {
    hide AuditKey, CommitKey, FinalKey, EvaluateDecision, Performed, Estimate, Recorded, NewEntries;
    NoNewEntries(j, s.kv, s.step);
    FinalEntries(j, s.kv, s.step, s.budget.consumed, c.finalIo);
    forall s': State, result | s'.kv == s.kv && s'.step == s.step
      ensures var o := Recorded(j.env, j.graph, j.taskId, s', result, c);
        o.kind != Fails ==> s.step <= o.state.step && NewEntries(j, s.kv, o.state.kv, s.step, o.state.step)
    {
      RecordedEntries(j, s', result, c);
    }
  }

  lemma FinalEntries(j: Job, kv: Store, step: nat, total: nat, io: Io)
    ensures NewEntries(j, kv, Put(kv, Final(j.taskId, step, total), io).0, step, step)
  {
  }

  lemma RecordedEntries(j: Job, s: State, result: StepResult, c: Choice)
    ensures var o := Recorded(j.env, j.graph, j.taskId, s, result, c);
      o.kind != Fails ==> s.step <= o.state.step && NewEntries(j, s.kv, o.state.kv, s.step, o.state.step)
  {
    hide AuditKey, CommitKey, FinalKey, ResolveOutgoing, HasCondition, EvaluateCondition;
  }

  /** As long as a run goes on, its hops form a trail through the graph, with exactly one new audit entry
      for each step number passed. */
  lemma {:induction false} GoesOnAlongTrail(j: Job, s: State, world: nat -> Choice, n: nat)
    requires Backed(s.kv) && Alive(j, s, world, n)
    ensures forall i: nat :: i < n ==> OutcomeAt(j, s, world, i).hop.Some?
    ensures var s' := After(j, s, world, n);
      && Backed(s'.kv) && Preserves(s.kv, s'.kv)
      && s.step <= s'.step && NewEntries(j, s.kv, s'.kv, s.step, s'.step)
      && Trail(j, s'.kv, s.node, s.step, Hops(j, s, world, n), s'.node, s'.step)
  {
    hide Backed, Preserves, TurnOf, RightAfterStep, RightAtDecision, AuditKey, NewEntries;
    if n == 0 {
      PreservesSelf(s.kv);
      assert NewEntries(j, s.kv, s.kv, s.step, s.step) by { NoNewEntries(j, s.kv, s.step); }
    } else {
      GoesOnAlongTrail(j, s, world, n - 1);
      var m, s' := After(j, s, world, n - 1), After(j, s, world, n);
      assert OutcomeAt(j, s, world, n - 1).kind == Continues;
      GoesOnRightly(j, m, world(n - 1));
      TurnKeeps(j.env, j.graph, j.taskId, m, world(n - 1));
      TurnEntries(j, m, world(n - 1));
      PreservesOn(s.kv, m.kv, s'.kv);
      EntriesTogether(j, s.kv, m.kv, s'.kv, s.step, m.step, s'.step);
      TrailStays(j, m.kv, s'.kv, s.node, s.step, Hops(j, s, world, n - 1), m.node, m.step);
      TrailGrows(j, m, OutcomeAt(j, s, world, n - 1), s.node, s.step, Hops(j, s, world, n - 1));
    }
  }

  lemma TrailGrows(j: Job, m: State, o: Outcome, node: string, step: nat, before: seq<Hop>)
    requires IsStep(j, m, o) || IsTurn(j, m, o)
    requires Trail(j, o.state.kv, node, step, before, m.node, m.step)
    ensures Trail(j, o.state.kv, node, step, before + [o.hop.value], o.state.node, o.state.step)
  {
  }

  lemma NoNewEntries(j: Job, kv: Store, step: nat)
    ensures NewEntries(j, kv, kv, step, step)
  {
  }

  lemma PreservesOn(a: Store, b: Store, c: Store)
    requires Preserves(a, b) && Preserves(b, c)
    ensures Preserves(a, c)
  {
  }

  lemma EntriesTogether(j: Job, a: Store, b: Store, c: Store, lo: nat, mid: nat, hi: nat)
    requires NewEntries(j, a, b, lo, mid) && NewEntries(j, b, c, mid, hi) && Preserves(b, c) && lo <= mid <= hi
    requires Backed(b) && Backed(c)
    ensures NewEntries(j, a, c, lo, hi)
  {
    forall k | k in c && c[k].Audit? && k !in a
      ensures c[k].entry.taskId == j.taskId && lo <= c[k].entry.step < hi
    {
      if k in b {
        assert k == KeyOf(b[k]) && k == KeyOf(c[k]);
        if b[k].Final? {
          KeysApart(c[k].entry.taskId, c[k].entry.step, b[k].taskId, 0);
        }
      }
    }
  }

  /** Every step number a trail passes has exactly one hop, and that hop's entry is in the store. */
  lemma {:induction false} TrailCovers(j: Job, kv: Store, node: string, step: nat, hops: seq<Hop>, node': string,
                                       step': nat, k: nat)
    requires Trail(j, kv, node, step, hops, node', step')
    ensures step <= step'
    ensures forall i :: 0 <= i < |hops| && hops[i].Step? ==> step <= hops[i].step < step'
    ensures step <= k < step' ==> exists i :: 0 <= i < |hops| && IsHopOf(j, kv, hops, i, k)
    decreases |hops|
  {
    hide RightAfterStep, RightAtDecision, AuditKey;
    if hops != [] {
      var before, h := hops[..|hops| - 1], hops[|hops| - 1];
      var middle := if h.Step? then h.step else step';
      TrailCovers(j, kv, node, step, before, h.node, middle, k);
      assert forall i :: 0 <= i < |before| ==> before[i] == hops[i];
      if h.Step? && k == h.step {
        assert IsHopOf(j, kv, hops, |hops| - 1, k);
      } else if step <= k < step' {
        var i :| 0 <= i < |before| && IsHopOf(j, kv, before, i, k);
        assert IsHopOf(j, kv, hops, i, k);
      }
    }
  }

  // Hop `i`, and no other, is the step numbered `k`.
  ghost predicate IsHopOf(j: Job, kv: Store, hops: seq<Hop>, i: nat, k: nat) {
    && i < |hops| && hops[i].Step? && hops[i].step == k && EntryOf(j, kv, hops[i])
    && forall m :: 0 <= m < |hops| && hops[m].Step? && hops[m].step == k ==> m == i
  }

  // The run wrote the step's only audit entry, and it records no error.
  ghost predicate OneCleanEntry(j: Job, before: Store, after: Store, k: nat) {
    && AuditKey(j.taskId, k) !in before && AuditKey(j.taskId, k) in after
    && after[AuditKey(j.taskId, k)].Audit? && after[AuditKey(j.taskId, k)].entry.error.None?
    && forall q :: q in after && after[q].Audit? && after[q].entry.taskId == j.taskId && after[q].entry.step == k ==>
         q == AuditKey(j.taskId, k)
  }

  lemma {:induction false} StepsWereFresh(j: Job, s: State, world: nat -> Choice, n: nat, k: nat)
    requires Backed(s.kv) && Alive(j, s, world, n) && s.step <= k < After(j, s, world, n).step
    ensures AuditKey(j.taskId, k) !in s.kv
  {
    hide Backed, TurnOf, RightAfterStep, RightAtDecision, AuditKey, NewEntries, Trail;
    if n > 0 {
      var m := After(j, s, world, n - 1);
      assert OutcomeAt(j, s, world, n - 1).kind == Continues;
      GoesOnRightly(j, m, world(n - 1));
      if k < m.step {
        StepsWereFresh(j, s, world, n - 1, k);
      } else {
        GoesOnAlongTrail(j, s, world, n - 1);
        NoFinalAt(s.kv, j.taskId, k);
      }
    }
  }

  lemma NoFinalAt(kv: Store, taskId: string, k: nat)
    requires Backed(kv)
    ensures AuditKey(taskId, k) in kv ==> !kv[AuditKey(taskId, k)].Final?
  {
    var q := AuditKey(taskId, k);
    if q in kv && kv[q].Final? {
      KeysApart(taskId, k, kv[q].taskId, 0);
    }
  }

  /** When a run ends well, it stands at an End node; its hops are a trail from where it started; the audit
      log has gained exactly one entry for each step from the initial step count to the final one less one,
      none of them an error; and the final state has been stored. */
  lemma FinishedRun(j: Job, s: State, world: nat -> Choice, n: nat)
    requires Backed(s.kv) && Alive(j, s, world, n) && OutcomeAt(j, s, world, n).kind == Finished
    ensures forall i: nat :: i < n ==> OutcomeAt(j, s, world, i).hop.Some?
    ensures var f := OutcomeAt(j, s, world, n).state;
      && f.status == Completed && f.node in j.graph.nodes && j.graph.nodes[f.node].nodeType == End
      && Trail(j, f.kv, s.node, s.step, Hops(j, s, world, n), f.node, f.step)
      && NewEntries(j, s.kv, f.kv, s.step, f.step)
      && (forall k :: s.step <= k < f.step ==> OneCleanEntry(j, s.kv, f.kv, k))
      && FinalKey(j.taskId) in f.kv && f.kv[FinalKey(j.taskId)] == Final(j.taskId, f.step, f.budget.consumed)
  {
    hide TurnOf, RightAfterStep, RightAtDecision, AuditKey, NewEntries, Trail, Backed;
    var m, f := After(j, s, world, n), OutcomeAt(j, s, world, n).state;
    GoesOnAlongTrail(j, s, world, n);
    EndsAtEnd(j, m, world(n));
    TurnKeeps(j.env, j.graph, j.taskId, m, world(n));
    TurnEntries(j, m, world(n));
    EntriesTogether(j, s.kv, m.kv, f.kv, s.step, m.step, f.step);
    var hops := Hops(j, s, world, n);
    TrailStays(j, m.kv, f.kv, s.node, s.step, hops, f.node, f.step);
    forall k | s.step <= k < f.step ensures OneCleanEntry(j, s.kv, f.kv, k) {
      StepsWereFresh(j, s, world, n, k);
      TrailCovers(j, f.kv, s.node, s.step, hops, f.node, f.step, k);
      OnlyEntry(j, f.kv, k);
    }
  }

  lemma EndsAtEnd(j: Job, s: State, c: Choice)
    requires TurnAt(j, s, c).kind == Finished
    ensures var f := TurnAt(j, s, c).state;
      && f.node == s.node && f.step == s.step && f.status == Completed
      && f.node in j.graph.nodes && j.graph.nodes[f.node].nodeType == End
      && FinalKey(j.taskId) in f.kv && f.kv[FinalKey(j.taskId)] == Final(j.taskId, f.step, f.budget.consumed)
  {
    hide AuditKey, CommitKey, FinalKey, ResolveOutgoing, EvaluateDecision, Execute, HasCondition, EvaluateCondition;
  }

  lemma OnlyEntry(j: Job, kv: Store, k: nat)
    requires Backed(kv)
    ensures forall q :: q in kv && kv[q].Audit? && kv[q].entry.taskId == j.taskId && kv[q].entry.step == k ==>
      q == AuditKey(j.taskId, k)
  {
  }

  // ---- What a run costs -------------------------------------------------------------------------

  // The tokens of the tool execution that returned a result in this turn, if one did.
  function Used(o: Outcome): nat {
    if o.executed.Some? then o.executed.value.tokens else 0
  }

  // `b'` is `b` with `tokens` more consumed, as far as the machine word reaches.
  predicate Charged(b: Budget, b': Budget, tokens: nat) {
    && b'.limit == b.limit && b'.strategy == b.strategy && b'.reserved == b.reserved
    && (b.consumed + tokens <= USIZE_MAX ==> b'.consumed == b.consumed + tokens)
    && (b.consumed + tokens > USIZE_MAX ==> b'.consumed == USIZE_MAX)
  }

  function TotalUsed(j: Job, s: State, world: nat -> Choice, n: nat): nat {
    if n == 0 then 0 else TotalUsed(j, s, world, n - 1) + Used(OutcomeAt(j, s, world, n - 1))
  }

  /** Whatever was estimated, and however the turn ends, exactly the tokens used are on the account. */
  lemma TurnCost(j: Job, s: State, c: Choice)
    requires Fits(s.budget)
    ensures TurnAt(j, s, c).state.budget == Consume(s.budget, Used(TurnAt(j, s, c)))
    ensures Charged(s.budget, TurnAt(j, s, c).state.budget, Used(TurnAt(j, s, c)))
    ensures Fits(TurnAt(j, s, c).state.budget)
  {
    hide AuditKey, CommitKey, FinalKey, ResolveOutgoing, EvaluateDecision, Attempts, Consume, Refund, Settle,
      CanReserve, Available;
    NothingConsumed(s.budget);
    ConsumedIsCharged(s.budget, Used(TurnAt(j, s, c)));
    ConsumedFits(s.budget, Used(TurnAt(j, s, c)));
    if s.node in j.graph.nodes {
      var estimate := Estimate(j.env, j.graph.nodes[s.node], s.memory);
      if CanReserve(s.budget, estimate) {
        DroppedWithoutMark(s.budget, estimate);
        SettledExactly(s.budget, estimate, Used(TurnAt(j, s, c)));
      }
    }
  }

  lemma NothingConsumed(b: Budget)
    requires Fits(b)
    ensures Consume(b, 0) == b
  {
  }

  lemma ConsumedIsCharged(b: Budget, n: nat)
    ensures Charged(b, Consume(b, n), n)
  {
  }

  lemma ConsumedFits(b: Budget, n: nat)
    requires Fits(b)
    ensures Fits(Consume(b, n))
  {
  }

  /** Over a run of any length, failures included, the account has grown by the tokens of exactly the
      executions that returned a result. */
  lemma {:induction false} RunCost(j: Job, s: State, world: nat -> Choice, n: nat)
    requires Fits(s.budget)
    ensures Fits(After(j, s, world, n).budget)
    ensures After(j, s, world, n).budget == Consume(s.budget, TotalUsed(j, s, world, n))
    ensures Charged(s.budget, After(j, s, world, n).budget, TotalUsed(j, s, world, n))
  {
    hide TurnOf, Fits, Charged;
    ConsumedIsCharged(s.budget, TotalUsed(j, s, world, n));
    if n == 0 {
      NothingConsumed(s.budget);
    } else {
      RunCost(j, s, world, n - 1);
      TurnCost(j, After(j, s, world, n - 1), world(n - 1));
      ConsumedTogether(s.budget, TotalUsed(j, s, world, n - 1), Used(OutcomeAt(j, s, world, n - 1)));
    }
  }

  // ---- When a run ends --------------------------------------------------------------------------

  // Turns `a` to `b` of the run are all at Decision nodes.
  predicate OnlyDeciding(j: Job, s: State, world: nat -> Choice, a: nat, b: nat) {
    forall i: nat :: a <= i < b ==> OutcomeAt(j, s, world, i).hop.Some? && OutcomeAt(j, s, world, i).hop.value.Turn?
  }

  // The run comes back to a Decision node without a step in between.
  predicate Circles(j: Job, s: State, world: nat -> Choice, a: nat, b: nat) {
    a < b && OnlyDeciding(j, s, world, a, b) && After(j, s, world, a).node == After(j, s, world, b).node
  }

  // Where the latest stretch of Decision turns before turn `n` began.
  function StretchStart(j: Job, s: State, world: nat -> Choice, n: nat): (m: nat)
    ensures m <= n && OnlyDeciding(j, s, world, m, n)
  {
    hide TurnOf, After;
    if n > 0 && OutcomeAt(j, s, world, n - 1).hop.Some? && OutcomeAt(j, s, world, n - 1).hop.value.Turn?
    then StretchStart(j, s, world, n - 1) else n
  }

  // Deciding changes the node and nothing else.
  lemma {:induction false} DecidingMovesOnly(j: Job, s: State, world: nat -> Choice, a: nat, b: nat)
    requires a <= b && Alive(j, s, world, b) && OnlyDeciding(j, s, world, a, b)
    ensures After(j, s, world, b) == After(j, s, world, a).(node := After(j, s, world, b).node)
    ensures forall i: nat :: a <= i < b ==> After(j, s, world, i).node in j.graph.nodes
    decreases b
  {
    hide TurnOf, RightAtDecision, RightAfterStep, AuditKey;
    if a < b {
      DecidingMovesOnly(j, s, world, a, b - 1);
      assert OutcomeAt(j, s, world, b - 1).kind == Continues;
      GoesOnRightly(j, After(j, s, world, b - 1), world(b - 1));
    }
  }

  // What the outside world does is of no account at a Decision node.
  lemma DecidingIsDetermined(j: Job, s: State, c: Choice, c': Choice)
    requires TurnAt(j, s, c).kind == Continues && TurnAt(j, s, c).hop.value.Turn?
    ensures TurnAt(j, s, c') == TurnAt(j, s, c)
  {
    hide AuditKey, CommitKey, FinalKey, ResolveOutgoing, EvaluateDecision, Execute, HasCondition, EvaluateCondition;
  }

  /** A run that has circled once goes round for ever. */
  lemma {:induction false} CirclesForEver(j: Job, s: State, world: nat -> Choice, a: nat, b: nat, n: nat)
    requires Alive(j, s, world, b) && Circles(j, s, world, a, b)
    ensures Alive(j, s, world, n)
    ensures n >= b ==> exists r: nat :: a <= r < b && After(j, s, world, n) == After(j, s, world, r)
    decreases n
  {
    hide TurnOf, TurnAt;
    if n == b {
      DecidingMovesOnly(j, s, world, a, b);
      assert After(j, s, world, b) == After(j, s, world, a);
    } else if n > b {
      CirclesForEver(j, s, world, a, b, n - 1);
      var r: nat :| a <= r < b && After(j, s, world, n - 1) == After(j, s, world, r);
      assert OutcomeAt(j, s, world, r).kind == Continues && OutcomeAt(j, s, world, r).hop.Some?;
      DecidingIsDetermined(j, After(j, s, world, r), world(r), world(n - 1));
      assert OutcomeAt(j, s, world, n - 1) == OutcomeAt(j, s, world, r);
      assert After(j, s, world, n) == After(j, s, world, r + 1);
      if r + 1 == b {
        DecidingMovesOnly(j, s, world, a, b);
        assert After(j, s, world, b) == After(j, s, world, a);
      }
    }
  }

  // Distinct members of a set are no more than the set has.
  lemma {:induction false} Pigeonhole(w: seq<string>, nodes: set<string>)
    requires forall i :: 0 <= i < |w| ==> w[i] in nodes
    requires forall i, k :: 0 <= i < k < |w| ==> w[i] != w[k]
    ensures |w| <= |nodes|
  {
    if w != [] {
      var last := w[|w| - 1];
      Pigeonhole(w[..|w| - 1], nodes - {last});
    }
  }

  // The most turns a run can go on for without circling.
  function Bound(j: Job, s: State): nat {
    if s.step >= MAX_WORKFLOW_STEPS then 0
    else (MAX_WORKFLOW_STEPS - s.step) * (|j.graph.nodes.Keys| + 1) + |j.graph.nodes.Keys|
  }

  lemma StretchIsShort(j: Job, s: State, world: nat -> Choice, n: nat)
    requires Alive(j, s, world, n) && forall a, b: nat :: b <= n ==> !Circles(j, s, world, a, b)
    ensures n - StretchStart(j, s, world, n) <= |j.graph.nodes.Keys|
  {
    hide TurnOf, OutcomeAt, After;
    var m := StretchStart(j, s, world, n);
    DecidingMovesOnly(j, s, world, m, n);
    var w := seq(n - m, i requires 0 <= i < n - m => After(j, s, world, m + i).node);
    forall i, k | 0 <= i < k < |w| ensures w[i] != w[k] {
      assert !Circles(j, s, world, m + i, m + k);
    }
    Pigeonhole(w, j.graph.nodes.Keys);
  }

  // Each step allows for one turn more than there are nodes.
  lemma {:induction false} TurnsCounted(j: Job, s: State, world: nat -> Choice, n: nat)
    requires Alive(j, s, world, n) && forall a, b: nat :: b <= n ==> !Circles(j, s, world, a, b)
    ensures s.step <= After(j, s, world, n).step
    ensures n > 0 ==> s.step < MAX_WORKFLOW_STEPS && After(j, s, world, n).step <= MAX_WORKFLOW_STEPS
    ensures n <= (After(j, s, world, n).step - s.step) * (|j.graph.nodes.Keys| + 1) + (n - StretchStart(j, s, world, n))
  {
    hide TurnOf, RightAtDecision, RightAfterStep, AuditKey, Circles;
    if n > 0 {
      TurnsCounted(j, s, world, n - 1);
      StretchIsShort(j, s, world, n - 1);
      var m, s' := After(j, s, world, n - 1), After(j, s, world, n);
      assert OutcomeAt(j, s, world, n - 1).kind == Continues;
      GoesOnRightly(j, m, world(n - 1));
      GoesOnBelowLimit(j, m, world(n - 1));
      OneMore(m.step - s.step, |j.graph.nodes.Keys| + 1);
    }
  }

  lemma GoesOnBelowLimit(j: Job, s: State, c: Choice)
    requires TurnAt(j, s, c).kind == Continues
    ensures s.step < MAX_WORKFLOW_STEPS
  {
  }

  lemma OneMore(d: nat, w: nat)
    ensures (d + 1) * w == d * w + w
  {
  }

  lemma Dearer(d: nat, d': nat, w: nat)
    requires d <= d'
    ensures d * w <= d' * w
  {
  }

  /** A run that never circles ends within a number of turns known from the graph. */
  lemma EndsInTime(j: Job, s: State, world: nat -> Choice, n: nat)
    requires Alive(j, s, world, n) && forall a, b: nat :: b <= n ==> !Circles(j, s, world, a, b)
    ensures n <= Bound(j, s)
  {
    hide TurnOf, After, Circles, Alive;
    TurnsCounted(j, s, world, n);
    StretchIsShort(j, s, world, n);
    if n > 0 {
      Dearer(After(j, s, world, n).step - s.step, MAX_WORKFLOW_STEPS - s.step, |j.graph.nodes.Keys| + 1);
    }
  }

  /** A run goes on for ever exactly when it ever circles through Decision nodes. */
  lemma EndlessExactly(j: Job, s: State, world: nat -> Choice)
    ensures (forall n: nat :: Alive(j, s, world, n)) <==>
            (exists a: nat, b: nat :: Alive(j, s, world, b) && Circles(j, s, world, a, b))
  {
    hide TurnOf, Alive, Circles;
    if a: nat, b: nat :| Alive(j, s, world, b) && Circles(j, s, world, a, b) {
      forall n: nat ensures Alive(j, s, world, n) { CirclesForEver(j, s, world, a, b, n); }
    } else {
      var n := Bound(j, s) + 1;
      if Alive(j, s, world, n) {
        forall a, b: nat | b <= n ensures !Circles(j, s, world, a, b) { AliveBefore(j, s, world, b, n); }
        EndsInTime(j, s, world, n);
      }
    }
  }

  lemma AliveBefore(j: Job, s: State, world: nat -> Choice, m: nat, n: nat)
    requires m <= n && Alive(j, s, world, n)
    ensures Alive(j, s, world, m)
  {
  }

  // A closed walk of edges through Decision nodes only.
  predicate DecisionCycle(g: Graph, w: seq<string>) {
    && |w| > 1 && w[0] == w[|w| - 1]
    && forall i :: 0 <= i < |w| - 1 ==> DecisionEdge(g, w[i], w[i + 1])
  }

  predicate DecisionEdge(g: Graph, a: string, b: string) {
    && a in g.nodes && g.nodes[a].nodeType == Decision
    && exists e :: 0 <= e < |g.edges| && g.edges[e].from == g.nodes[a].id && g.edges[e].to == b
  }

  // Every cycle of the graph contains a node that is not a Decision node.
  ghost predicate CyclesHaveSteps(g: Graph) {
    forall w :: !DecisionCycle(g, w)
  }

  /** On a graph whose every cycle passes a Start or Task node no run ever circles, so every run ends. */
  lemma CirclesOnlyOnCycles(j: Job, s: State, world: nat -> Choice, a: nat, b: nat)
    requires CyclesHaveSteps(j.graph) && Alive(j, s, world, b)
    ensures !Circles(j, s, world, a, b)
  {
    hide TurnOf, CyclesHaveSteps;
    if Circles(j, s, world, a, b) {
      var w := seq(b - a + 1, i requires 0 <= i <= b - a => After(j, s, world, a + i).node);
      forall i | 0 <= i < |w| - 1 ensures DecisionEdge(j.graph, w[i], w[i + 1]) {
        assert OutcomeAt(j, s, world, a + i).kind == Continues && OutcomeAt(j, s, world, a + i).hop.Some?;
        GoesOnRightly(j, After(j, s, world, a + i), world(a + i));
        assert After(j, s, world, a + i + 1) == OutcomeAt(j, s, world, a + i).state;
      }
      NotACycle(j.graph, w);
    }
  }

  lemma NotACycle(g: Graph, w: seq<string>)
    requires CyclesHaveSteps(g)
    ensures !DecisionCycle(g, w)
  {
  }

  lemma EveryRunEnds(j: Job, s: State, world: nat -> Choice, n: nat)
    requires CyclesHaveSteps(j.graph) && Alive(j, s, world, n)
    ensures n <= Bound(j, s)
  {
    hide TurnOf, Alive, Circles, CyclesHaveSteps;
    forall a, b: nat | b <= n ensures !Circles(j, s, world, a, b) {
      AliveBefore(j, s, world, b, n);
      CirclesOnlyOnCycles(j, s, world, a, b);
    }
    EndsInTime(j, s, world, n);
  }

  /** Two Decision nodes that lead to each other unconditionally are enough to keep a run going for ever:
      the step limit does not stop it. */
  lemma Livelock(env: Env, s: State, world: nat -> Choice, n: nat)
    requires s.node == "a" && s.step < MAX_WORKFLOW_STEPS
    ensures var g := Graph(
        map["a" := Node("a", Decision, None), "b" := Node("b", Decision, None)],
        [Edge("a", "b", None, None, 0), Edge("b", "a", None, None, 0)]);
      Alive(Job(env, g, "t"), s, world, n)
  {
    hide RightAtDecision, StepTurn, EvaluateDecision;
    var g := Graph(
      map["a" := Node("a", Decision, None), "b" := Node("b", Decision, None)],
      [Edge("a", "b", None, None, 0), Edge("b", "a", None, None, 0)]);
    var j := Job(env, g, "t");
    OnlyWayOut(env.rules, g, "a", View("t", "a", s.step, s.memory), 0);
    OnlyWayOut(env.rules, g, "b", View("t", "b", s.step, s.memory), 1);
    var s1 := s.(node := "b");
    assert OutcomeAt(j, s, world, 0).state == s1;
    assert After(j, s, world, 1) == s1;
    assert OutcomeAt(j, s, world, 1).state == s;
    assert After(j, s, world, 2) == s;
    assert After(j, s, world, 0) == s;
    assert Circles(j, s, world, 0, 2);
    CirclesForEver(j, s, world, 0, 2, n);
  }

  lemma OnlyWayOut(rules: Rules, g: Graph, node: string, view: View, e: nat)
    requires e < |g.edges| && g.edges[e].from == node && g.edges[e].condition.None?
    requires forall i :: 0 <= i < |g.edges| && i != e ==> g.edges[i].from != node
    ensures EvaluateDecision(rules, g, node, view) == Next(e)
  {
    DecisionIsRight(rules, g, node, view);
    assert OpenAt(rules, g, node, view, e);
  }
}
