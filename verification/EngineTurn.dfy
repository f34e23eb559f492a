/** What one turn of the engine's loop may be relied on for, put in terms of the graph, the tools and what the
    outside world does: when a tool runs, when the turn succeeds, and what it leaves in the store. */
module EngineTurn {
  import opened Basics
  import opened AuditLog
  import opened WorkflowGraph
  import opened TokenBudget
  import opened Engine

  predicate IsStepNode(g: Graph, s: State) {
    s.node in g.nodes && g.nodes[s.node].nodeType in {Start, Task}
  }

  // What the step reserves before it runs its tool: nothing at a Start node or without a registered tool.
  function Reserves(env: Env, g: Graph, s: State): nat
    requires s.node in g.nodes
  {
    var node := g.nodes[s.node];
    if node.nodeType == Task && node.handler.Some? && node.handler.value in env.tools
    then env.tools[node.handler.value].estimate(if "last_output" in s.memory then s.memory["last_output"] else Null)
    else 0
  }

  // A step at `s` gets the result `r`.
  ghost predicate Obtains(env: Env, g: Graph, s: State, c: Choice, r: StepResult) {
    && s.step < 10000 && IsStepNode(g, s) && !c.setupFails
    && var node, cost := g.nodes[s.node], Reserves(env, g, s);
    && cost <= Available(s.budget)
    && match node.handler
       case None => node.nodeType == Start && r == StepResult(node.id, Null, 0, None)
       case Some(h) =>
         && c.authorized && h in env.tools
         && exists k: nat :: AnswersAt(env.tools[h], cost, Available(s.budget), c, k, r)
  }

  // Attempt `k` is the first to succeed; all after the first are retries, which take a retriable tool and
  // something left on the account beyond the reservation.
  ghost predicate AnswersAt(t: Tool, cost: nat, available: nat, c: Choice, k: nat, r: StepResult) {
    && (k > 0 ==> t.retriable && k <= t.maxRetries && cost < available)
    && c.tool(k) == Returned(r) && forall j: nat :: j < k ==> !c.tool(j).Returned?
  }

  // What is left on the account once the estimate is reserved.
  lemma LeftAfterReserving(b: Budget, cost: nat)
    requires Fits(b) && cost <= Available(b)
    ensures Available(Consume(b, cost)) == Available(b) - cost
    ensures Consume(b, 0) == b
  {
  }

  lemma PerformsExactly(env: Env, node: Node, b: Budget, cost: nat, available: nat, c: Choice, r: StepResult)
    requires node.nodeType in {Start, Task} && cost + Available(b) == available
    ensures Performed(env, node, b, c) == Some(r) <==>
      match node.handler
      case None => node.nodeType == Start && r == StepResult(node.id, Null, 0, None)
      case Some(h) =>
        c.authorized && h in env.tools && exists k: nat :: AnswersAt(env.tools[h], cost, available, c, k, r)
  {
    hide Execute, Available;
    if node.handler.Some? {
      var h := node.handler.value;
      AnswersExactly(env, h, b, c, r);
      forall k: nat
        ensures FirstAnswer(env, h, b, c, k, r) <==>
          c.authorized && h in env.tools && AnswersAt(env.tools[h], cost, available, c, k, r)
      {
      }
    }
  }

  lemma RecordedExecutes(env: Env, g: Graph, taskId: string, s: State, result: StepResult, c: Choice)
    ensures Recorded(env, g, taskId, s, result, c).executed == Some(result)
  {
  }

  /** A turn has a result exactly when it is a step below the limit whose setup succeeds, whose estimate is
      covered, and whose tool - authorised and registered - answers within the attempts it is allowed; the
      result is the answer of the first successful attempt, or empty at a Start node without a handler. */
  lemma ObtainsExactly(env: Env, g: Graph, taskId: string, s: State, c: Choice, r: StepResult)
    requires Fits(s.budget)
    ensures TurnOf(env, g, taskId, s, c).executed == Some(r) <==> Obtains(env, g, s, c, r)
  {
    hide Recorded, Performed, Append, EvaluateDecision, Put, Available, AnswersAt, Settle;
    if s.step < MAX_WORKFLOW_STEPS && IsStepNode(g, s) && !c.setupFails {
      var node, cost := g.nodes[s.node], Reserves(env, g, s);
      assert Estimate(env, node, s.memory) == cost;
      forall s': State, r' ensures Recorded(env, g, taskId, s', r', c).executed == Some(r') {
        RecordedExecutes(env, g, taskId, s', r', c);
      }
      if cost <= Available(s.budget) {
        LeftAfterReserving(s.budget, cost);
        PerformsExactly(env, node, Consume(s.budget, cost), cost, Available(s.budget), c, r);
      }
    }
  }

  // ---- When a turn succeeds ---------------------------------------------------------------------

  // The audit log takes an entry of this step in.
  predicate Admits(env: Env, taskId: string, s: State, payload: Value, error: Option<string>) {
    && env.validId(taskId) && env.validId(s.node) && env.validPayload(payload)
    && (error.Some? ==> env.validMessage(error.value)) && AuditKey(taskId, s.step) !in s.kv
  }

  // With result `r` the step is audited, committed, and moves on along the right edge.
  ghost predicate Lands(env: Env, g: Graph, taskId: string, s: State, c: Choice, r: StepResult) {
    && !c.auditTxFails && Admits(env, taskId, s, r.output, None) && c.auditIo.Done?
    && !c.commitTxFails && c.commitIo.Done?
    && exists i: nat :: RightAfterStep(env.rules, g, s.node, r, i) && !Stuck(env, g, c, i)
  }

  // The edge would reset the scratchpad, which fails.
  predicate Stuck(env: Env, g: Graph, c: Choice, i: nat)
    requires i < |g.edges|
  {
    HasCondition(env.rules, g.edges[i]) && c.scratchpadFails
  }

  lemma RightIsUnique(rules: Rules, g: Graph, node: string, r: StepResult, i: nat, k: nat)
    requires RightAfterStep(rules, g, node, r, i) && RightAfterStep(rules, g, node, r, k)
    ensures i == k
  {
  }

  lemma RecordedExactly(env: Env, g: Graph, taskId: string, s: State, r: StepResult, c: Choice)
    ensures var o := Recorded(env, g, taskId, s, r, c);
      && o.kind == (if Lands(env, g, taskId, s, c, r) && !c.guardFails then Continues else Fails)
      && o.state.step == (if Lands(env, g, taskId, s, c, r) then s.step + 1 else s.step)
      && (o.state.step == s.step ==> o.state.node == s.node)
      && o.state.memory == s.memory && o.state.status == s.status
  {
    hide AuditKey, CommitKey, FinalKey, RightAfterStep, ResolveOutgoing, HasCondition, EvaluateCondition;
    KeysApart(taskId, s.step, taskId, s.step);
    OutgoingIsRight(env.rules, g, s.node, r);
    var next := ResolveOutgoing(env.rules, g, s.node, r);
    if next.Some? {
      InRangeAndOpen(env.rules, g, s.node, r, next.value);
    }
    forall i: nat | RightAfterStep(env.rules, g, s.node, r, i) ensures next == Some(i) {
      if next.Some? { RightIsUnique(env.rules, g, s.node, r, i, next.value); }
      InRangeAndOpen(env.rules, g, s.node, r, i);
    }
  }

  lemma InRangeAndOpen(rules: Rules, g: Graph, node: string, r: StepResult, i: nat)
    requires RightAfterStep(rules, g, node, r, i)
    ensures i < |g.edges| && OpenAfter(rules, g, node, r, i)
    ensures HasCondition(rules, g.edges[i]) ==> EvaluateCondition(rules, g.edges[i], r)
  {
  }

  // A turn that goes on: a step that lands, or a Decision node with an edge open.
  ghost predicate Proceeds(env: Env, g: Graph, taskId: string, s: State, c: Choice) {
    if IsStepNode(g, s) then
      !c.guardFails && exists r :: Obtains(env, g, s, c, r) && Lands(env, g, taskId, s, c, r)
    else
      && s.step < MAX_WORKFLOW_STEPS && s.node in g.nodes && g.nodes[s.node].nodeType == Decision
      && exists i :: 0 <= i < |g.edges| &&
           OpenAt(env.rules, g, g.nodes[s.node].id, View(taskId, s.node, s.step, s.memory), i)
  }

  predicate AtEnd(g: Graph, s: State) {
    s.step < MAX_WORKFLOW_STEPS && s.node in g.nodes && g.nodes[s.node].nodeType == End
  }

  /** Exactly when a turn goes on, when it finishes the run, and when it moves the context; it fails in all other
      cases.  A failing guard is the one failure that leaves the context moved. */
  lemma SucceedsExactly(env: Env, g: Graph, taskId: string, s: State, c: Choice)
    requires Fits(s.budget)
    ensures var o := TurnOf(env, g, taskId, s, c);
      && (o.kind == Continues <==> Proceeds(env, g, taskId, s, c))
      && (o.kind == Finished <==> AtEnd(g, s) && c.finalIo.Done? && !c.flushFails && !c.checkpointFails)
      && o.state.step == s.step +
           (if exists r :: Obtains(env, g, s, c, r) && Lands(env, g, taskId, s, c, r) then 1 else 0)
      && (o.state.step == s.step && o.kind != Continues ==> o.state.node == s.node)
      && o.state.memory == (if o.executed.Some? then s.memory["last_output" := o.executed.value.output] else s.memory)
      && o.state.status == (if AtEnd(g, s) then Completed else s.status)
  {
    hide Recorded, Performed, Append, EvaluateDecision, Available, Obtains, Lands, Settle, Estimate, OpenAt, FinalKey;
    forall r ensures TurnOf(env, g, taskId, s, c).executed == Some(r) <==> Obtains(env, g, s, c, r) {
      ObtainsExactly(env, g, taskId, s, c, r);
    }
    if s.step < MAX_WORKFLOW_STEPS && IsStepNode(g, s) {
      StepExactly(env, g, taskId, s, c);
    } else if s.step < MAX_WORKFLOW_STEPS && s.node in g.nodes && g.nodes[s.node].nodeType == Decision {
      DecidesExactly(env.rules, g, g.nodes[s.node].id, View(taskId, s.node, s.step, s.memory));
    }
  }

  lemma DecidesExactly(rules: Rules, g: Graph, node: string, view: View)
    ensures match EvaluateDecision(rules, g, node, view)
      case Next(e) => e < |g.edges| && OpenAt(rules, g, node, view, e)
      case Refused(_) => forall i :: 0 <= i < |g.edges| ==> !OpenAt(rules, g, node, view, i)
  {
    hide EvaluateDecision;
    DecisionIsRight(rules, g, node, view);
  }

  lemma StepExactly(env: Env, g: Graph, taskId: string, s: State, c: Choice)
    requires s.node in g.nodes
    ensures var o := StepTurn(env, g, taskId, s, g.nodes[s.node], c);
      && o.kind == (if o.executed.Some? && Lands(env, g, taskId, s, c, o.executed.value) && !c.guardFails
                    then Continues else Fails)
      && o.state.step == (if o.executed.Some? && Lands(env, g, taskId, s, c, o.executed.value)
                          then s.step + 1 else s.step)
      && (o.state.step == s.step ==> o.state.node == s.node)
      && o.state.memory == (if o.executed.Some? then s.memory["last_output" := o.executed.value.output] else s.memory)
      && o.state.status == s.status
  {
    hide Recorded, Performed, Append, Available, Lands, Settle, Estimate, CanReserve;
    forall s': State, r | s'.kv == s.kv && s'.node == s.node && s'.step == s.step
      ensures var o := Recorded(env, g, taskId, s', r, c);
        && o.executed == Some(r)
        && o.kind == (if Lands(env, g, taskId, s, c, r) && !c.guardFails then Continues else Fails)
        && o.state.step == (if Lands(env, g, taskId, s, c, r) then s.step + 1 else s.step)
        && (o.state.step == s.step ==> o.state.node == s.node)
        && o.state.memory == s'.memory && o.state.status == s'.status
    {
      RecordedExecutes(env, g, taskId, s', r, c);
      RecordedExactly(env, g, taskId, s', r, c);
      SameLanding(env, g, taskId, s, s', c, r);
    }
  }

  lemma SameLanding(env: Env, g: Graph, taskId: string, s: State, s': State, c: Choice, r: StepResult)
    requires s'.kv == s.kv && s'.node == s.node && s'.step == s.step
    ensures Lands(env, g, taskId, s', c, r) <==> Lands(env, g, taskId, s, c, r)
  {
  }

  // ---- What a turn leaves in the store ----------------------------------------------------------

  // A turn that breaks off without a result and still gets to write its failure down.
  predicate Reports(g: Graph, s: State, c: Choice, o: Outcome) {
    && o.kind == Fails && o.executed.None?
    && (s.step >= MAX_WORKFLOW_STEPS ||
        (s.node in g.nodes && g.nodes[s.node].nodeType != End && (IsStepNode(g, s) ==> !c.setupFails)))
  }

  function Failure(taskId: string, s: State, c: Choice): Entry {
    Entry(taskId, s.step, s.node, 0, Null, Some(c.message))
  }

  function Clean(taskId: string, s: State, r: StepResult): Entry {
    Entry(taskId, s.step, s.node, r.tokens, r.output, None)
  }

  // What the turn may have put under key `k`.
  ghost predicate Written(env: Env, g: Graph, taskId: string, s: State, c: Choice, o: Outcome, k: string, rec: Record) {
    match rec
    case Audit(e) =>
      && k == AuditKey(taskId, s.step) && Admits(env, taskId, s, e.payload, e.error)
      && e == (if o.executed.Some? then Clean(taskId, s, o.executed.value) else Failure(taskId, s, c))
      && (o.executed.None? ==> Reports(g, s, c, o))
    case Commit(_, _, _, _, _) =>
      && k == CommitKey(taskId, s.step) && o.executed.Some?
      && rec == Commit(taskId, s.step, s.node, o.executed.value.output, o.executed.value.tokens)
    case Final(_, _, _) =>
      k == FinalKey(taskId) && AtEnd(g, s) && rec == Final(taskId, s.step, s.budget.consumed)
  }

  ghost predicate WritesOnly(env: Env, g: Graph, taskId: string, s: State, c: Choice, o: Outcome) {
    && (forall k :: k in s.kv ==> k in o.state.kv)
    && forall k :: k in o.state.kv && (k in s.kv ==> o.state.kv[k] != s.kv[k]) ==>
         Written(env, g, taskId, s, c, o, k, o.state.kv[k])
  }

  // What the store must hold afterwards, writes that are reported as failed included.
  ghost predicate Leaves(env: Env, g: Graph, taskId: string, s: State, c: Choice, o: Outcome) {
    var kv, k := o.state.kv, AuditKey(taskId, s.step);
    && (Reports(g, s, c, o) && Admits(env, taskId, s, Null, Some(c.message)) && !c.failureIo.Lost? ==>
          k in kv && kv[k] == Audit(Failure(taskId, s, c)))
    && (o.executed.Some? ==> LeavesStep(env, taskId, s, c, o.executed.value, kv))
    && (AtEnd(g, s) && !c.finalIo.Lost? ==>
          FinalKey(taskId) in kv && kv[FinalKey(taskId)] == Final(taskId, s.step, s.budget.consumed))
  }

  ghost predicate LeavesStep(env: Env, taskId: string, s: State, c: Choice, r: StepResult, kv: Store) {
    var k, q := AuditKey(taskId, s.step), CommitKey(taskId, s.step);
    !c.auditTxFails && Admits(env, taskId, s, r.output, None) && !c.auditIo.Lost? ==>
      && k in kv && kv[k] == Audit(Clean(taskId, s, r))
      && (c.auditIo.Done? && !c.commitTxFails && !c.commitIo.Lost? ==>
            q in kv && kv[q] == Commit(taskId, s.step, s.node, r.output, r.tokens))
  }

  // Between two stores that differ by what recording a result may write.
  ghost predicate RecordsOnly(env: Env, taskId: string, s: State, r: StepResult, kv': Store) {
    && (forall k :: k in s.kv ==> k in kv')
    && forall k :: k in kv' && (k in s.kv ==> kv'[k] != s.kv[k]) ==>
         || (k == AuditKey(taskId, s.step) && Admits(env, taskId, s, r.output, None)
             && kv'[k] == Audit(Clean(taskId, s, r)))
         || (k == CommitKey(taskId, s.step) && kv'[k] == Commit(taskId, s.step, s.node, r.output, r.tokens))
  }

  // The store after recording: untouched, with the audit entry, or with the commit as well.
  lemma RecordedStore(env: Env, g: Graph, taskId: string, s: State, r: StepResult, c: Choice)
    ensures var k, q := AuditKey(taskId, s.step), CommitKey(taskId, s.step);
      var kv1 := s.kv[k := Audit(Clean(taskId, s, r))];
      Recorded(env, g, taskId, s, r, c).state.kv ==
        if c.auditTxFails || !Admits(env, taskId, s, r.output, None) || c.auditIo.Lost? then s.kv
        else if !c.auditIo.Done? || c.commitTxFails || c.commitIo.Lost? then kv1
        else kv1[q := Commit(taskId, s.step, s.node, r.output, r.tokens)]
  {
    hide AuditKey, CommitKey, FinalKey, ResolveOutgoing, HasCondition, EvaluateCondition;
    KeysApart(taskId, s.step, taskId, s.step);
  }

  lemma RecordedWrites(env: Env, g: Graph, taskId: string, s: State, r: StepResult, c: Choice)
    ensures var kv' := Recorded(env, g, taskId, s, r, c).state.kv;
      RecordsOnly(env, taskId, s, r, kv') && LeavesStep(env, taskId, s, c, r, kv')
  {
    hide AuditKey, CommitKey, FinalKey, Recorded, Admits, Clean;
    KeysApart(taskId, s.step, taskId, s.step);
    RecordedStore(env, g, taskId, s, r, c);
  }

  /** All a turn writes, and all it may be relied on to write: for a result the step's clean audit entry and then
      its commit, and no error whatever happens later; without a result the step's error entry, with the message
      and no tokens; at the end the final record.  It never takes the place of an audit entry. */
  lemma WritesExactly(env: Env, g: Graph, taskId: string, s: State, c: Choice)
    ensures WritesOnly(env, g, taskId, s, c, TurnOf(env, g, taskId, s, c))
    ensures Leaves(env, g, taskId, s, c, TurnOf(env, g, taskId, s, c))
  {
    hide Recorded, Performed, EvaluateDecision, Available, Settle, Estimate, CanReserve, AuditKey, CommitKey, FinalKey,
         LeavesStep, RecordsOnly, StepTurn, WritesOnly, Leaves;
    if s.step < MAX_WORKFLOW_STEPS && IsStepNode(g, s) {
      StepWritesExactly(env, g, taskId, s, c, TurnOf(env, g, taskId, s, c));
    } else {
      OtherWritesExactly(env, g, taskId, s, c);
    }
  }

  lemma OtherWritesExactly(env: Env, g: Graph, taskId: string, s: State, c: Choice)
    requires s.step >= MAX_WORKFLOW_STEPS || !IsStepNode(g, s)
    ensures WritesOnly(env, g, taskId, s, c, TurnOf(env, g, taskId, s, c))
    ensures Leaves(env, g, taskId, s, c, TurnOf(env, g, taskId, s, c))
  {
    hide EvaluateDecision, AuditKey, CommitKey, FinalKey, StepTurn, LeavesStep;
    if s.node in g.nodes {
      DecidesExactly(env.rules, g, g.nodes[s.node].id, View(taskId, s.node, s.step, s.memory));
    }
  }

  lemma StepWritesExactly(env: Env, g: Graph, taskId: string, s: State, c: Choice, o: Outcome)
    requires IsStepNode(g, s) && s.step < MAX_WORKFLOW_STEPS && o == StepTurn(env, g, taskId, s, g.nodes[s.node], c)
    ensures WritesOnly(env, g, taskId, s, c, o) && Leaves(env, g, taskId, s, c, o)
  {
    hide AuditKey, CommitKey, FinalKey, StepTurn, LeavesStep;
    StepWrites(env, g, taskId, s, c);
  }

  lemma StepWrites(env: Env, g: Graph, taskId: string, s: State, c: Choice)
    requires IsStepNode(g, s)
    ensures var o := StepTurn(env, g, taskId, s, g.nodes[s.node], c);
      && (o.executed.Some? ==>
            RecordsOnly(env, taskId, s, o.executed.value, o.state.kv)
            && LeavesStep(env, taskId, s, c, o.executed.value, o.state.kv))
      && (o.executed.None? ==> o.kind == Fails)
      && (o.executed.None? ==>
            o.state.kv == if c.setupFails then s.kv else Append(env, s.kv, Failure(taskId, s, c), c.failureIo).0)
  {
    hide Recorded, Performed, Append, Available, Settle, Estimate, CanReserve, LeavesStep, RecordsOnly;
    forall s': State, r | s'.kv == s.kv && s'.node == s.node && s'.step == s.step
      ensures var o := Recorded(env, g, taskId, s', r, c);
        o.executed == Some(r) && RecordsOnly(env, taskId, s, r, o.state.kv)
        && LeavesStep(env, taskId, s, c, r, o.state.kv)
    {
      RecordedExecutes(env, g, taskId, s', r, c);
      RecordedWrites(env, g, taskId, s', r, c);
      SameRecords(env, taskId, s, s', r, c, Recorded(env, g, taskId, s', r, c).state.kv);
    }
  }

  lemma SameRecords(env: Env, taskId: string, s: State, s': State, r: StepResult, c: Choice, kv: Store)
    requires s'.kv == s.kv && s'.node == s.node && s'.step == s.step
    ensures RecordsOnly(env, taskId, s', r, kv) == RecordsOnly(env, taskId, s, r, kv)
    ensures LeavesStep(env, taskId, s', c, r, kv) == LeavesStep(env, taskId, s, c, r, kv)
  {
  }

  // ---- Where records come from ------------------------------------------------------------------

  // The turn `a` accounts for the record.
  ghost predicate Accounts(env: Env, a: Act, rec: Record) {
    match rec
    case Audit(e) =>
      && e.taskId == a.taskId && e.step == a.from.step && e.nodeId == a.from.node
      && (e.error.None? ==> exists r :: Obtains(env, a.graph, a.from, a.choice, r) && r.tokens == e.tokens
                                        && r.output == e.payload)
      && (e.error.Some? ==> e.tokens == 0 && e.error.value == a.choice.message
                            && forall r :: !Obtains(env, a.graph, a.from, a.choice, r))
    case Commit(t, n, node, output, tokens) =>
      && t == a.taskId && n == a.from.step && node == a.from.node
      && exists r :: Obtains(env, a.graph, a.from, a.choice, r) && r.tokens == tokens && r.output == output
    case Final(t, n, total) =>
      t == a.taskId && n == a.from.step && total == a.from.budget.consumed && AtEnd(a.graph, a.from)
  }

  lemma ActAccounts(env: Env, a: Act, kv: Store, k: string)
    requires Fits(a.from.budget)
    requires var kv' := TurnOf(env, a.graph, a.taskId, a.from.(kv := kv), a.choice).state.kv;
      k in kv' && (k in kv ==> kv'[k] != kv[k])
    ensures Accounts(env, a, TurnOf(env, a.graph, a.taskId, a.from.(kv := kv), a.choice).state.kv[k])
  {
    hide TurnOf, Obtains, Leaves, AuditKey, CommitKey, FinalKey;
    var s := a.from.(kv := kv);
    WritesExactly(env, a.graph, a.taskId, s, a.choice);
    forall r
      ensures TurnOf(env, a.graph, a.taskId, s, a.choice).executed == Some(r) <==>
        Obtains(env, a.graph, a.from, a.choice, r)
    {
      ObtainsExactly(env, a.graph, a.taskId, s, a.choice, r);
      assert Obtains(env, a.graph, s, a.choice, r) == Obtains(env, a.graph, a.from, a.choice, r) by {
        SameObtained(env, a.graph, a.from, s, a.choice, r);
      }
    }
  }

  lemma SameObtained(env: Env, g: Graph, s: State, s': State, c: Choice, r: StepResult)
    requires s' == s.(kv := s'.kv)
    ensures Obtains(env, g, s, c, r) == Obtains(env, g, s', c, r)
  {
    hide AnswersAt, Available, Reserves;
    assert s'.step == s.step && s'.node == s.node && s'.memory == s.memory && s'.budget == s.budget;
    if s.node in g.nodes {
      SameReserve(env, g, s, s');
    }
  }

  lemma SameReserve(env: Env, g: Graph, s: State, s': State)
    requires s.node in g.nodes && s.node == s'.node && s.memory == s'.memory
    ensures Reserves(env, g, s) == Reserves(env, g, s')
  {
  }

  /** Nothing gets on record by itself: over every history, each record that was not there before is one a turn of
      the history accounts for - a result by a step that obtained it, so by an authorised tool or a Start node. */
  lemma {:induction false} EveryRecordIsAccountedFor(env: Env, kv: Store, acts: seq<Act>, k: string)
    requires forall i :: 0 <= i < |acts| ==> Fits(acts[i].from.budget)
    requires k in StoreAfter(env, kv, acts) && (k in kv ==> StoreAfter(env, kv, acts)[k] != kv[k])
    ensures exists i :: 0 <= i < |acts| && Accounts(env, acts[i], StoreAfter(env, kv, acts)[k])
  {
    hide TurnOf, Accounts;
    var n := |acts| - 1;
    var before := StoreAfter(env, kv, acts[..n]);
    if k in before && before[k] == StoreAfter(env, kv, acts)[k] {
      EveryRecordIsAccountedFor(env, kv, acts[..n], k);
    } else {
      ActAccounts(env, acts[n], before, k);
    }
  }
}
