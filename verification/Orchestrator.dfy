/** The engine as `engine.rs` writes it: methods that update one agent's context and the store behind it,
    each proved against the turn it should amount to. */
module Orchestrator {
  import opened Basics
  import opened AuditLog
  import opened WorkflowGraph
  import opened TokenBudget
  import opened Engine
  import opened EngineRun
  import opened Termination

  class AgentContext {
    const taskId: string
    var currentNode: string
    var stepCount: nat
    var memory: map<string, Value>
    var budget: Budget
    var status: Status
    var stateCollection: Store

    constructor (taskId: string, startNode: string, budget: Budget, stateCollection: Store)
      ensures this.taskId == taskId
      ensures Snapshot() == State(startNode, 0, map[], budget, Idle, stateCollection)
    {
      this.taskId := taskId;
      currentNode, stepCount, memory := startNode, 0, map[];
      this.budget, status, this.stateCollection := budget, Idle, stateCollection;
    }

    function Snapshot(): State
      reads this
    {
      State(currentNode, stepCount, memory, budget, status, stateCollection)
    }

    /** `AuditLog::append_to` */
    method AppendTo(env: Env, e: Entry, io: Io) returns (ok: bool)
      modifies this`stateCollection
      ensures (stateCollection, ok) == Append(env, old(stateCollection), e, io)
    {
      if !env.validId(e.taskId) || !env.validId(e.nodeId) || !env.validPayload(e.payload) {
        return false;
      }
      if e.error.Some? && !env.validMessage(e.error.value) {
        return false;
      }
      var key := AuditKey(e.taskId, e.step);
      if key in stateCollection {
        return false;
      }
      ok := PutKv(Audit(e), io);
    }

    method PutKv(r: Record, io: Io) returns (ok: bool)
      modifies this`stateCollection
      ensures (stateCollection, ok) == Put(old(stateCollection), r, io)
    {
      if io.Lost? {
        return false;
      }
      stateCollection := stateCollection[KeyOf(r) := r];
      ok := io.Done?;
    }

    method AuditLogFailure(env: Env, message: string, io: Io)
      modifies this`stateCollection
      ensures stateCollection ==
        Append(env, old(stateCollection), Entry(taskId, stepCount, currentNode, 0, Null, Some(message)), io).0
    {
      var _ := AppendTo(env, Entry(taskId, stepCount, currentNode, 0, Null, Some(message)), io);
    }

    /** `execute_tool_with_retries` */
    method ExecuteToolWithRetries(env: Env, handler: string, c: Choice) returns (res: Option<StepResult>)
      ensures forall r :: res == Some(r) <==> exists k: nat :: FirstAnswer(env, handler, budget, c, k, r)
      ensures res == Execute(env, handler, budget, c)
    {
      forall r ensures Execute(env, handler, budget, c) == Some(r) <==>
        exists k: nat :: FirstAnswer(env, handler, budget, c, k, r)
      {
        AnswersExactly(env, handler, budget, c, r);
      }
      res := None;
      if !c.authorized || handler !in env.tools {
        return;
      }
      var tool := env.tools[handler];
      var maxAttempts := if tool.retriable then tool.maxRetries + 1 else 1;
      var attempt := 0;
      while attempt < maxAttempts
        invariant 0 <= attempt <= maxAttempts == MaxAttempts(tool) && res == None
        invariant Execute(env, handler, budget, c) ==
          Attempts(tool, c.tool, Available(budget) > 0, attempt, maxAttempts)
      {
        if attempt > 0 && Available(budget) == 0 {
          break;
        }
        match c.tool(attempt) {
          case Returned(result) =>
            res := Some(result);
            break;
          case Errored =>
            if !tool.retriable { break; }
          case TimedOut =>
            if !tool.retriable { break; }
        }
        attempt := attempt + 1;
      }
    }

    /** `execute_start_or_task_step` */
    method ExecuteStartOrTaskStep(env: Env, g: Graph, node: Node, c: Choice)
      returns (kind: Kind, ghost executed: Option<StepResult>, ghost hop: Option<Hop>)
      requires currentNode in g.nodes && g.nodes[currentNode] == node
      modifies this
      ensures Outcome(Snapshot(), kind, executed, hop) == StepTurn(env, g, taskId, old(Snapshot()), node, c)
    {
      hide Append, Put, Attempts, ResolveOutgoing, Consume, Refund, CanReserve;
      kind, executed, hop := Fails, None, None;
      if c.setupFails {
        return;
      }
      var input := if "last_output" in memory then memory["last_output"] else Null;
      var estimatedCost := 0;
      if node.nodeType != Start && node.handler.Some? && node.handler.value in env.tools {
        estimatedCost := env.tools[node.handler.value].estimate(input);
      }
      var reserved := false;
      if node.nodeType != Start && estimatedCost > 0 {
        if !CanReserve(budget, estimatedCost) {
          AuditLogFailure(env, c.message, c.failureIo);
          return;
        }
        budget := Consume(budget, estimatedCost);
        reserved := true;
      }

      var performed: Option<StepResult> := None;
      if node.handler.Some? {
        performed := ExecuteToolWithRetries(env, node.handler.value, c);
      } else if node.nodeType == Start {
        performed := Some(StepResult(node.id, Null, 0, None));
      }
      if performed.None? {
        AuditLogFailure(env, c.message, c.failureIo);
        if reserved {
          budget := Refund(budget, estimatedCost);
        }
        return;
      }

      var result := performed.value;
      executed := Some(result);
      if reserved {
        if result.tokens > estimatedCost {
          budget := Consume(budget, result.tokens - estimatedCost);
        } else if estimatedCost > result.tokens {
          budget := Refund(budget, estimatedCost - result.tokens);
        }
      } else {
        budget := Consume(budget, result.tokens);
      }
      memory := memory["last_output" := result.output];
      kind, hop := RecordAndAdvance(env, g, result, c);
    }

    // The audit entry, then the commit, then the edge.
    method RecordAndAdvance(env: Env, g: Graph, result: StepResult, c: Choice)
      returns (kind: Kind, ghost hop: Option<Hop>)
      modifies this`stateCollection, this`currentNode, this`stepCount
      ensures Outcome(Snapshot(), kind, Some(result), hop) == Recorded(env, g, taskId, old(Snapshot()), result, c)
    {
      hide Append, Put, ResolveOutgoing;
      kind, hop := Fails, None;
      if c.auditTxFails {
        return;
      }
      var audited := AppendTo(env, Entry(taskId, stepCount, currentNode, result.tokens, result.output, None),
        c.auditIo);
      if !audited || c.commitTxFails {
        return;
      }
      var committed := PutKv(Commit(taskId, stepCount, currentNode, result.output, result.tokens), c.commitIo);
      if !committed {
        return;
      }

      var outgoing := ResolveOutgoing(env.rules, g, currentNode, result);
      if outgoing.None? {
        AuditLogFailure(env, c.message, c.failureIo);
        return;
      }
      var i := outgoing.value;
      if i >= |g.edges| {
        return;
      }
      var edge := g.edges[i];
      if HasCondition(env.rules, edge) && EvaluateCondition(env.rules, edge, result) && c.scratchpadFails {
        return;
      }
      ghost var made := Step(currentNode, stepCount, result, i);
      currentNode := edge.to;
      stepCount := stepCount + 1;
      if c.guardFails {
        return;
      }
      kind, hop := Continues, Some(made);
    }

    /** One iteration of the loop of `run_internal`. */
    method Iterate(env: Env, g: Graph, c: Choice)
      returns (kind: Kind, ghost executed: Option<StepResult>, ghost hop: Option<Hop>)
      modifies this
      ensures Outcome(Snapshot(), kind, executed, hop) == TurnOf(env, g, taskId, old(Snapshot()), c)
    {
      hide Append, Put, StepTurn, EvaluateDecision;
      kind, executed, hop := Fails, None, None;
      if stepCount >= MAX_WORKFLOW_STEPS {
        AuditLogFailure(env, c.message, c.failureIo);
        return;
      }
      if currentNode !in g.nodes {
        return;
      }
      var node := g.nodes[currentNode];
      match node.nodeType {
        case End =>
          status := Completed;
          var stored := PutKv(Final(taskId, stepCount, budget.consumed), c.finalIo);
          if stored && !c.flushFails && !c.checkpointFails {
            kind := Finished;
          }
        case Start =>
          kind, executed, hop := ExecuteStartOrTaskStep(env, g, node, c);
        case Task =>
          kind, executed, hop := ExecuteStartOrTaskStep(env, g, node, c);
        case Decision =>
          var view := View(taskId, currentNode, stepCount, memory);
          var decided := EvaluateDecision(env.rules, g, node.id, view);
          if decided.Refused? {
            AuditLogFailure(env, c.message, c.failureIo);
            return;
          }
          if decided.edge >= |g.edges| {
            return;
          }
          hop := Some(Turn(currentNode, view, decided.edge));
          currentNode := g.edges[decided.edge].to;
          kind := Continues;
      }
    }

    /** `run`.  It returns whenever the run it starts is not endless; the turns it took are those of `After`,
        so all that is proved of them holds of it. */
    method Run(env: Env, g: Graph, world: nat -> Choice, recoveryFails: bool) returns (ok: bool, ghost turns: nat)
      requires recoveryFails || Ends(Job(env, g, taskId), Snapshot().(status := Running), world)
      modifies this
      ensures var j, s := Job(env, g, taskId), old(Snapshot()).(status := Running);
        if recoveryFails then !ok && Snapshot() == s.(status := Failed)
        else
          && Alive(j, s, world, turns) && turns <= Bound(j, s)
          && var o := OutcomeAt(j, s, world, turns);
          && o.kind != Continues && ok == (o.kind == Finished)
          && Snapshot() == (if ok then o.state else o.state.(status := Failed))
    {
      hide TurnOf, Bound, Ends;
      ok, turns := false, 0;
      status := Running;
      if recoveryFails {
        status := Failed;
        return;
      }
      ghost var j, s := Job(env, g, taskId), Snapshot();
      var kind := Continues;
      var i: nat := 0;
      while kind == Continues
        invariant kind == Continues ==> Snapshot() == After(j, s, world, i) && Alive(j, s, world, i) && i <= Bound(j, s)
        invariant kind != Continues ==> (
          && i > 0 && Alive(j, s, world, i - 1) && i - 1 <= Bound(j, s)
          && OutcomeAt(j, s, world, i - 1).kind == kind && Snapshot() == OutcomeAt(j, s, world, i - 1).state)
        decreases kind == Continues, Bound(j, s) - i
      {
        ghost var executed, hop;
        kind, executed, hop := Iterate(env, g, world(i));
        assert Outcome(Snapshot(), kind, executed, hop) == OutcomeAt(j, s, world, i);
        i := i + 1;
        if kind == Continues {
          EndingRunsAreShort(j, s, world, i);
        }
      }
      turns := i - 1;
      ok := kind == Finished;
      if !ok {
        status := Failed;
      }
    }
  }
}
