/** The step engine of `crates/contextra-agent/src/engine.rs`.  Everything the outside world decides in one
    turn of its loop - what storage does, what the tool does - is one `Choice`; a run takes its choices
    from an arbitrary function, so what is proved holds for every behaviour of storage and tools. */
module Engine {
  import opened Basics
  import opened AuditLog
  import opened WorkflowGraph
  import opened TokenBudget

  const MAX_WORKFLOW_STEPS: nat := 10000

  datatype Status = Idle | Running | Completed | Failed

  // One write to the store: done, failed without effect, or reported as failed after taking effect.
  datatype Io = Done | Lost | Torn

  datatype Attempt = Returned(result: StepResult) | Errored | TimedOut

  datatype Choice = Choice(
    setupFails: bool,                 // transaction id, guard, or checkpoint before the step
    authorized: bool,
    tool: nat -> Attempt,             // what attempt number n of the tool does
    message: string,                  // the error text, should the turn fail
    failureIo: Io,
    auditTxFails: bool, auditIo: Io,
    commitTxFails: bool, commitIo: Io,
    scratchpadFails: bool,
    guardFails: bool,
    finalIo: Io, flushFails: bool, checkpointFails: bool)

  datatype Tool = Tool(retriable: bool, maxRetries: nat, estimate: Value -> nat)

  datatype Env = Env(
    rules: Rules,
    tools: map<string, Tool>,
    validId: string -> bool,
    validPayload: Value -> bool,
    validMessage: string -> bool)

  // The part of the agent context the loop works on, and the store it writes to.
  datatype State = State(node: string, step: nat, memory: map<string, Value>, budget: Budget, status: Status, kv: Store)

  // What one turn of the loop did: a step along an edge, or a turn at a Decision node.
  datatype Hop =
    | Step(node: string, step: nat, result: StepResult, edge: nat)
    | Turn(node: string, view: View, edge: nat)

  datatype Kind = Continues | Finished | Fails

  // `executed` is the tool execution of the turn, if one returned a result.
  datatype Outcome = Outcome(state: State, kind: Kind, executed: Option<StepResult>, hop: Option<Hop>)

  // ---- Writing ----------------------------------------------------------------------------------

  /** `append_to` */
  function Append(env: Env, kv: Store, e: Entry, io: Io): (r: (Store, bool))
  {
    var k := AuditKey(e.taskId, e.step);
    if !env.validId(e.taskId) || !env.validId(e.nodeId) || !env.validPayload(e.payload)
       || (e.error.Some? && !env.validMessage(e.error.value)) || k in kv || io.Lost?
    then (kv, false)
    else (kv[k := Audit(e)], io.Done?)
  }

  /** `put_kv` */
  function Put(kv: Store, r: Record, io: Io): (Store, bool) {
    if io.Lost? then (kv, false) else (kv[KeyOf(r) := r], io.Done?)
  }

  /** `audit_log_failure` and the error return after it. */
  function FailTurn(env: Env, taskId: string, s: State, c: Choice, executed: Option<StepResult>): Outcome {
    var e := Entry(taskId, s.step, s.node, 0, Null, Some(c.message));
    Outcome(s.(kv := Append(env, s.kv, e, c.failureIo).0), Fails, executed, None)
  }

  // ---- Executing a tool -------------------------------------------------------------------------

  // The attempts from number `n` on, of at most `most`; retries need budget left.
  function Attempts(t: Tool, outcomes: nat -> Attempt, budgetLeft: bool, n: nat, most: nat): Option<StepResult>
    decreases if n < most then most - n else 0
  {
    if n >= most || (n > 0 && !budgetLeft) then None
    else
      match outcomes(n)
      case Returned(r) => Some(r)
      case _ => if t.retriable then Attempts(t, outcomes, budgetLeft, n + 1, most) else None
  }

  function MaxAttempts(t: Tool): nat {
    if t.retriable then t.maxRetries + 1 else 1
  }

  /** `execute_tool_with_retries` */
  function Execute(env: Env, handler: string, b: Budget, c: Choice): Option<StepResult> {
    if !c.authorized || handler !in env.tools then None
    else Attempts(env.tools[handler], c.tool, Available(b) > 0, 0, MaxAttempts(env.tools[handler]))
  }

  // How many attempts a tool gets: one if it is not retriable or the budget is used up, else one more than
  // its retries.
  function Allowed(t: Tool, budgetLeft: bool): nat {
    if t.retriable && budgetLeft then t.maxRetries + 1 else 1
  }

  // What a caller may count on: only an authorised, registered tool is run, and attempt `k` is its first
  // successful one; all after the first are retries, for a retriable tool whose budget is not used up.
  ghost predicate FirstAnswer(env: Env, handler: string, b: Budget, c: Choice, k: nat, r: StepResult) {
    && c.authorized && handler in env.tools
    && (k > 0 ==> env.tools[handler].retriable && k <= env.tools[handler].maxRetries && Available(b) > 0)
    && c.tool(k) == Returned(r)
    && forall j: nat :: j < k ==> !c.tool(j).Returned?
  }

  /** A tool's answer is that of its first successful attempt among those allowed. */
  lemma FirstSuccess(t: Tool, outcomes: nat -> Attempt, budgetLeft: bool)
    ensures match Attempts(t, outcomes, budgetLeft, 0, MaxAttempts(t))
      case Some(r) => exists k :: 0 <= k < Allowed(t, budgetLeft) && outcomes(k) == Returned(r)
                        && forall j :: 0 <= j < k ==> !outcomes(j).Returned?
      case None => forall k :: 0 <= k < Allowed(t, budgetLeft) ==> !outcomes(k).Returned?
  {
    FirstSuccessFrom(t, outcomes, budgetLeft, 0);
  }

  lemma {:induction false} FirstSuccessFrom(t: Tool, outcomes: nat -> Attempt, budgetLeft: bool, n: nat)
    requires n <= Allowed(t, budgetLeft)
    ensures match Attempts(t, outcomes, budgetLeft, n, MaxAttempts(t))
      case Some(r) => exists k :: n <= k < Allowed(t, budgetLeft) && outcomes(k) == Returned(r)
                        && forall j :: n <= j < k ==> !outcomes(j).Returned?
      case None => forall k :: n <= k < Allowed(t, budgetLeft) ==> !outcomes(k).Returned?
    decreases Allowed(t, budgetLeft) - n
  {
    if n < Allowed(t, budgetLeft) && !outcomes(n).Returned? && t.retriable {
      FirstSuccessFrom(t, outcomes, budgetLeft, n + 1);
    }
  }

  /** A handler answers exactly when it is authorised, registered, and one of the attempts it is allowed
      succeeds; then the answer is that of the first such attempt. */
  lemma AnswersExactly(env: Env, handler: string, b: Budget, c: Choice, r: StepResult)
    ensures Execute(env, handler, b, c) == Some(r) <==> exists k: nat :: FirstAnswer(env, handler, b, c, k, r)
  {
    if c.authorized && handler in env.tools {
      var t := env.tools[handler];
      FirstSuccess(t, c.tool, Available(b) > 0);
      match Execute(env, handler, b, c) {
        case Some(r') =>
          var k: nat :| k < Allowed(t, Available(b) > 0) && c.tool(k) == Returned(r')
                        && forall j :: 0 <= j < k ==> !c.tool(j).Returned?;
          assert FirstAnswer(env, handler, b, c, k, r');
          forall k': nat | FirstAnswer(env, handler, b, c, k', r) ensures k' == k && r == r' {
          }
        case None =>
      }
    }
  }

  // ---- One turn of the loop ---------------------------------------------------------------------

  function LastOutput(memory: map<string, Value>): Value {
    if "last_output" in memory then memory["last_output"] else Null
  }

  // The estimate a step reserves; zero for none.
  function Estimate(env: Env, node: Node, memory: map<string, Value>): nat {
    if node.nodeType != Start && node.handler.Some? && node.handler.value in env.tools
    then env.tools[node.handler.value].estimate(LastOutput(memory)) else 0
  }

  function Performed(env: Env, node: Node, b: Budget, c: Choice): Option<StepResult> {
    if node.handler.Some? then Execute(env, node.handler.value, b, c)
    else if node.nodeType == Start then Some(StepResult(node.id, Null, 0, None))
    else None
  }

  /** `execute_start_or_task_step` */
  function StepTurn(env: Env, g: Graph, taskId: string, s: State, node: Node, c: Choice): Outcome {
    if c.setupFails then Outcome(s, Fails, None, None)
    else
      var estimate := Estimate(env, node, s.memory);
      if estimate > 0 && !CanReserve(s.budget, estimate) then FailTurn(env, taskId, s, c, None)
      else
        var held := if estimate > 0 then Consume(s.budget, estimate) else s.budget;
        var performed := Performed(env, node, held, c);
        if performed.None? then
          FailTurn(env, taskId, s.(budget := if estimate > 0 then Refund(held, estimate) else held), c, None)
        else
          var result := performed.value;
          var settled := if estimate > 0 then Settle(held, estimate, result.tokens) else Consume(held, result.tokens);
          var s' := s.(budget := settled, memory := s.memory["last_output" := result.output]);
          Recorded(env, g, taskId, s', result, c)
  }

  // The rest of a step, once its tool has answered: audit, commit, choose the edge, move on.
  function Recorded(env: Env, g: Graph, taskId: string, s: State, result: StepResult, c: Choice): Outcome {
    if c.auditTxFails then Outcome(s, Fails, Some(result), None)
    else
      var audited := Append(env, s.kv, Entry(taskId, s.step, s.node, result.tokens, result.output, None), c.auditIo);
      var s1 := s.(kv := audited.0);
      if !audited.1 || c.commitTxFails then Outcome(s1, Fails, Some(result), None)
      else
        var committed := Put(s1.kv, Commit(taskId, s.step, s.node, result.output, result.tokens), c.commitIo);
        var s2 := s1.(kv := committed.0);
        if !committed.1 then Outcome(s2, Fails, Some(result), None)
        else Advance(env, g, taskId, s2, result, c)
  }

  function Advance(env: Env, g: Graph, taskId: string, s: State, result: StepResult, c: Choice): Outcome {
    match ResolveOutgoing(env.rules, g, s.node, result)
    case None => FailTurn(env, taskId, s, c, Some(result))
    case Some(i) =>
      if i >= |g.edges| then Outcome(s, Fails, Some(result), None)
      else if HasCondition(env.rules, g.edges[i]) && EvaluateCondition(env.rules, g.edges[i], result)
              && c.scratchpadFails then
        Outcome(s, Fails, Some(result), None)
      else
        var s' := s.(node := g.edges[i].to, step := s.step + 1);
        if c.guardFails then Outcome(s', Fails, Some(result), None)
        else Outcome(s', Continues, Some(result), Some(Step(s.node, s.step, result, i)))
  }

  function DecisionTurn(env: Env, g: Graph, taskId: string, s: State, node: Node, c: Choice): Outcome {
    var view := View(taskId, s.node, s.step, s.memory);
    match EvaluateDecision(env.rules, g, node.id, view)
    case Refused(_) => FailTurn(env, taskId, s, c, None)
    case Next(i) =>
      if i >= |g.edges| then Outcome(s, Fails, None, None)
      else Outcome(s.(node := g.edges[i].to), Continues, None, Some(Turn(s.node, view, i)))
  }

  function EndTurn(taskId: string, s: State, c: Choice): Outcome {
    var s' := s.(status := Completed);
    var put := Put(s'.kv, Final(taskId, s'.step, s'.budget.consumed), c.finalIo);
    var kind := if put.1 && !c.flushFails && !c.checkpointFails then Finished else Fails;
    Outcome(s'.(kv := put.0), kind, None, None)
  }

  /** The body of the loop of `run_internal`. */
  function TurnOf(env: Env, g: Graph, taskId: string, s: State, c: Choice): Outcome {
    if s.step >= MAX_WORKFLOW_STEPS then FailTurn(env, taskId, s, c, None)
    else if s.node !in g.nodes then Outcome(s, Fails, None, None)
    else
      var node := g.nodes[s.node];
      match node.nodeType
      case End => EndTurn(taskId, s, c)
      case Decision => DecisionTurn(env, g, taskId, s, node, c)
      case Start => StepTurn(env, g, taskId, s, node, c)
      case Task => StepTurn(env, g, taskId, s, node, c)
  }

  // ---- What every turn keeps --------------------------------------------------------------------

  // `kv'` holds every audit entry and every commit of `kv`, unchanged.
  ghost predicate Preserves(kv: Store, kv': Store) {
    forall k :: k in kv && !kv[k].Final? ==> k in kv' && kv'[k] == kv[k]
  }

  // Every commit record repeats an error-free audit entry of the same task and step.
  ghost predicate Backed(kv: Store) {
    && WellKeyed(kv)
    && forall k :: k in kv && kv[k].Commit? ==> BackedAt(kv, kv[k])
  }

  ghost predicate BackedAt(kv: Store, r: Record)
    requires r.Commit?
  {
    var k := AuditKey(r.taskId, r.step);
    k in kv && kv[k] == Audit(Entry(r.taskId, r.step, r.nodeId, r.tokens, r.output, None))
  }

  lemma AppendKeeps(env: Env, kv: Store, e: Entry, io: Io)
    requires Backed(kv)
    ensures Backed(Append(env, kv, e, io).0) && Preserves(kv, Append(env, kv, e, io).0)
  {
  }

  /** A commit is written only where the audit entry has just been written, so never over another. */
  lemma RecordKeeps(env: Env, g: Graph, taskId: string, s: State, result: StepResult, c: Choice)
    requires Backed(s.kv)
    ensures var kv' := Recorded(env, g, taskId, s, result, c).state.kv; Backed(kv') && Preserves(s.kv, kv')
  {
    var e := Entry(taskId, s.step, s.node, result.tokens, result.output, None);
    AppendKeeps(env, s.kv, e, c.auditIo);
    var audited := Append(env, s.kv, e, c.auditIo);
    if !c.auditTxFails && audited.1 && !c.commitTxFails {
      var r := Commit(taskId, s.step, s.node, result.output, result.tokens);
      CommitFollowsAudit(s.kv, audited.0, e, r, c.commitIo);
      AppendKeeps(env, Put(audited.0, r, c.commitIo).0, Entry(taskId, s.step, s.node, 0, Null, Some(c.message)),
        c.failureIo);
    }
  }

  lemma CommitFollowsAudit(kv: Store, kv1: Store, e: Entry, r: Record, io: Io)
    requires Backed(kv) && Backed(kv1) && AuditKey(e.taskId, e.step) !in kv
    requires kv1 == kv[AuditKey(e.taskId, e.step) := Audit(e)] && e.error.None?
    requires r == Commit(e.taskId, e.step, e.nodeId, e.payload, e.tokens)
    ensures KeyOf(r) !in kv
    ensures Backed(Put(kv1, r, io).0) && Preserves(kv, Put(kv1, r, io).0)
  {
    var k := KeyOf(r);
    KeysApart(e.taskId, e.step, e.taskId, e.step);
    assert k in kv ==> k == KeyOf(kv[k]) && (kv[k].Commit? ==> BackedAt(kv, kv[k]));
    if k in kv {
      match kv[k] {
        case Audit(e0) => KeysApart(e0.taskId, e0.step, e.taskId, e.step);
        case Final(t0, _, _) => KeysApart(e.taskId, e.step, t0, 0);
        case Commit(t0, n0, _, _, _) => CommitKeyInjective(e.taskId, e.step, t0, n0);
      }
    }
    var kv2 := Put(kv1, r, io).0;
    forall q | q in kv2 && kv2[q].Commit? ensures BackedAt(kv2, kv2[q]) {
      if q != k {
        assert BackedAt(kv1, kv1[q]);
        KeysApart(kv1[q].taskId, kv1[q].step, e.taskId, e.step);
      }
    }
  }

  lemma FinalKeeps(kv: Store, taskId: string, step: nat, total: nat, io: Io)
    requires Backed(kv)
    ensures var kv' := Put(kv, Final(taskId, step, total), io).0; Backed(kv') && Preserves(kv, kv')
  {
    var k := FinalKey(taskId);
    var kv' := Put(kv, Final(taskId, step, total), io).0;
    forall q | q in kv && !kv[q].Final? ensures q != k {
      assert q == KeyOf(kv[q]);
      match kv[q] {
        case Audit(e) => KeysApart(e.taskId, e.step, taskId, 0);
        case Commit(t, n, _, _, _) => KeysApart(t, n, taskId, 0);
      }
    }
    forall q | q in kv' && kv'[q].Commit? ensures BackedAt(kv', kv'[q]) {
      assert BackedAt(kv, kv[q]);
      KeysApart(kv[q].taskId, kv[q].step, taskId, 0);
    }
  }

  /** One turn of any task in any state: audit entries and commits are never changed, and every commit is
      backed by its audit entry. */
  lemma TurnKeeps(env: Env, g: Graph, taskId: string, s: State, c: Choice)
    requires Backed(s.kv)
    ensures var kv' := TurnOf(env, g, taskId, s, c).state.kv; Backed(kv') && Preserves(s.kv, kv')
  {
    hide Backed, Preserves, Append, Put, Recorded;
    PreservesSelf(s.kv);
    AppendKeeps(env, s.kv, Entry(taskId, s.step, s.node, 0, Null, Some(c.message)), c.failureIo);
    FinalKeeps(s.kv, taskId, s.step, s.budget.consumed, c.finalIo);
    forall s': State, result | s'.kv == s.kv
      ensures var kv' := Recorded(env, g, taskId, s', result, c).state.kv; Backed(kv') && Preserves(s.kv, kv')
    {
      RecordKeeps(env, g, taskId, s', result, c);
    }
  }

  lemma PreservesSelf(kv: Store)
    ensures Preserves(kv, kv)
  {
  }

  // ---- Histories --------------------------------------------------------------------------------

  // One turn by some task, from whatever context its caller has put it in.
  datatype Act = Act(graph: Graph, taskId: string, from: State, choice: Choice)

  // The store after a history of turns: of any tasks, on any graphs, from any contexts.
  function StoreAfter(env: Env, kv: Store, acts: seq<Act>): Store {
    if acts == [] then kv
    else
      var a := acts[|acts| - 1];
      TurnOf(env, a.graph, a.taskId, a.from.(kv := StoreAfter(env, kv, acts[..|acts| - 1])), a.choice).state.kv
  }

  /** Over every history, whatever fails and however often tasks are run again from wherever: an audit entry
      once written never changes, a commit once written never changes, and each commit repeats the audit
      entry of its step. */
  lemma {:induction false} HistoryKeeps(env: Env, kv: Store, acts: seq<Act>)
    requires Backed(kv)
    ensures Backed(StoreAfter(env, kv, acts)) && Preserves(kv, StoreAfter(env, kv, acts))
  {
    hide Backed, TurnOf;
    if acts == [] {
    } else {
      var a := acts[|acts| - 1];
      HistoryKeeps(env, kv, acts[..|acts| - 1]);
      TurnKeeps(env, a.graph, a.taskId, a.from.(kv := StoreAfter(env, kv, acts[..|acts| - 1])), a.choice);
    }
  }

  /** The store as it was at any earlier point of a history is preserved too. */
  lemma {:induction false} HistoryKeepsPrefix(env: Env, kv: Store, acts: seq<Act>, n: nat)
    requires Backed(kv) && n <= |acts|
    ensures Preserves(StoreAfter(env, kv, acts[..n]), StoreAfter(env, kv, acts))
    decreases |acts| - n
  {
    hide Backed, TurnOf;
    if n == |acts| {
      assert acts[..n] == acts;
    } else {
      var next := acts[..n + 1];
      assert next[..|next| - 1] == acts[..n] && next[|next| - 1] == acts[n];
      HistoryKeeps(env, kv, acts[..n]);
      var a := acts[n];
      TurnKeeps(env, a.graph, a.taskId, a.from.(kv := StoreAfter(env, kv, acts[..n])), a.choice);
      HistoryKeepsPrefix(env, kv, acts, n + 1);
    }
  }

  /** Running a step again after its audit entry was written never gets past the audit log and writes
      nothing: the caller has to move on to another step number. */
  lemma RerunConflicts(env: Env, g: Graph, taskId: string, s: State, c: Choice)
    requires AuditKey(taskId, s.step) in s.kv && s.node in g.nodes && g.nodes[s.node].nodeType in {Start, Task}
    ensures TurnOf(env, g, taskId, s, c).kind == Fails && TurnOf(env, g, taskId, s, c).state.kv == s.kv
  {
  }
}
