/** Whole runs: every execution reached from the start by any sequence of operations. */
module ExecutionRuns {
  import opened Prelude
  import opened WorkflowGraph
  import opened AdapterContract
  import opened GraphOperations
  import opened ExecutionInvariant

  datatype Step =
    | DoClaimReady(owner: string, limit: nat)
    | DoClaimNode(id: NodeId, owner: string)
    | DoStage(id: NodeId, owner: string, run: RunId)
    | DoActivate(id: NodeId, owner: string, run: RunId)
    | DoCancelStaged(id: NodeId, owner: string, run: RunId)
    | DoBind(id: NodeId, owner: string, run: RunId)
    | DoComplete(id: NodeId, owner: string, succeeded: bool)
    | DoFinish(id: NodeId, owner: string, state: NodeState, failure: Option<AdapterFailure>)
    | DoRecord(output: Output)
    | DoRetry(id: NodeId)
    | DoReconcile

  ghost function Attempt(digest: Digest, e: Execution, step: Step): Change {
    match step
    case DoClaimReady(owner, limit) =>
      var r := ClaimReady(e, owner, limit);
      if r.Ok? then Ok(r.value.1) else Err(r.error)
    case DoClaimNode(id, owner) => ClaimNode(e, id, owner)
    case DoStage(id, owner, run) => StageNode(e, id, owner, run)
    case DoActivate(id, owner, run) => ActivateStagedNode(e, id, owner, run)
    case DoCancelStaged(id, owner, run) => CancelStagedNode(e, id, owner, run)
    case DoBind(id, owner, run) => BindRun(e, id, owner, run)
    case DoComplete(id, owner, succeeded) => Complete(e, id, owner, succeeded)
    case DoFinish(id, owner, state, failure) => FinishTerminal(e, id, owner, state, failure)
    case DoRecord(output) => RecordOutput(digest, e, output)
    case DoRetry(id) => RetryFailed(e, id)
    case DoReconcile => Ok(ReconcileAfterRestart(e))
  }

  /** A refused operation leaves the execution as it was. */
  ghost function Apply(digest: Digest, e: Execution, step: Step): Execution {
    var r := Attempt(digest, e, step);
    if r.Ok? then r.value else e
  }

  ghost function Run(digest: Digest, e: Execution, steps: seq<Step>): Execution
    decreases |steps|
  {
    if steps == [] then e else Run(digest, Apply(digest, e, steps[0]), steps[1..])
  }

  // ---------------------------------------------------------------- the invariant over runs

  lemma ApplyIsSound(digest: Digest, e: Execution, step: Step)
    requires Sound(digest, e)
    ensures Sound(digest, Apply(digest, e, step))
  {
    hide Sound, ClaimReady, ClaimNode, StageNode, ActivateStagedNode, CancelStagedNode, BindRun, FinishTerminal;
    hide RecordOutput, RetryFailed, ReconcileAfterRestart;
    if Attempt(digest, e, step).Ok? {
      match step
      case DoClaimReady(owner, limit) => ClaimReadyIsSound(digest, e, owner, limit);
      case DoClaimNode(id, owner) => ClaimNodeIsSound(digest, e, id, owner);
      case DoStage(id, owner, run) => StageIsSound(digest, e, id, owner, run);
      case DoActivate(id, owner, run) => ActivateIsSound(digest, e, id, owner, run);
      case DoCancelStaged(id, owner, run) => CancelIsSound(digest, e, id, owner, run);
      case DoBind(id, owner, run) => BindIsSound(digest, e, id, owner, run);
      case DoComplete(id, owner, succeeded) =>
        FinishIsSound(digest, e, id, owner, if succeeded then Succeeded else Failed, None);
      case DoFinish(id, owner, state, failure) => FinishIsSound(digest, e, id, owner, state, failure);
      case DoRecord(output) => RecordIsSound(digest, e, output);
      case DoRetry(id) => RetryIsSound(digest, e, id);
      case DoReconcile => ReconcileIsSound(digest, e);
    }
  }

  lemma {:induction false} RunIsSound(digest: Digest, e: Execution, steps: seq<Step>)
    requires Sound(digest, e)
    ensures Sound(digest, Run(digest, e, steps))
    decreases |steps|
  {
    if steps != [] {
      ApplyIsSound(digest, e, steps[0]);
      RunIsSound(digest, Apply(digest, e, steps[0]), steps[1..]);
    }
  }

  lemma SoundPassesValidation(digest: Digest, e: Execution)
    requires Sound(digest, e)
    ensures ExecutionVerdict(digest, e).None?
  {
    forall i, j | 0 <= i < j < |e.nodes|
      ensures ExecIds(e.nodes)[i] != ExecIds(e.nodes)[j]
    {
      assert e.nodes[i].nodeId != e.nodes[j].nodeId;
    }
    forall n | n in e.nodes
      ensures n.nodeId in Ids(e.graph) && ValidNodeState(n)
    {
      var i :| 0 <= i < |e.nodes| && e.nodes[i] == n;
      assert TidyNode(e.nodes[i]);
    }
  }

  /** The safety theorem: what holds after any run from a fresh execution of a valid graph. */
  lemma ReachableIsSafe(digest: Digest, id: ExecutionId, g: Graph, steps: seq<Step>, a: NodeId, b: NodeId)
    requires Verdict(g).None? && DependsOn(g, a, b)
    ensures var e := Run(digest, Started(id, g), steps);
      && ExecutionVerdict(digest, e).None?
      && StateOf(e.nodes, a).Some? && StateOf(e.nodes, b).Some?
      && (StateOf(e.nodes, a).value !in {Pending, Blocked} ==> StateOf(e.nodes, b).value == Succeeded)
      && (StateOf(e.nodes, b).value in {Failed, Cancelled, Blocked} ==> StateOf(e.nodes, a).value == Blocked)
  {
    var e := Run(digest, Started(id, g), steps);
    StartedIsSound(digest, id, g);
    RunIsSound(digest, Started(id, g), steps);
    RunKeepsGraph(digest, Started(id, g), steps);
    SoundPassesValidation(digest, e);
    WellFormedFacts(g);
    var p :| PathBetween(g, p, a, b);
    LinkedAlongPath(g, e.nodes, p);
    PathIsKnown(g, p);
  }

  lemma PathIsKnown(g: Graph, p: seq<NodeId>)
    requires ClosedNeeds(g) && IsPath(g, p) && |p| >= 2
    ensures p[0] in Ids(g) && p[|p| - 1] in Ids(g)
  {
    assert Edge(g, p[0], p[0 + 1]);
    var last := |p| - 2;
    assert Edge(g, p[last], p[last + 1]);
  }

  /** The link between a node and its need carries over to transitive needs. */
  lemma {:induction false} LinkedAlongPath(g: Graph, nodes: seq<NodeExecution>, p: seq<NodeId>)
    requires NeedsRespected(g, nodes) && IsPath(g, p) && |p| >= 2
    ensures Linked(StateOf(nodes, p[0]), StateOf(nodes, p[|p| - 1]))
  {
    assert Edge(g, p[0], p[0 + 1]);
    if |p| > 2 {
      TailIsPath(g, p, 1);
      LinkedAlongPath(g, nodes, p[1..]);
    }
  }

  lemma {:induction false} RunKeepsGraph(digest: Digest, e: Execution, steps: seq<Step>)
    ensures Run(digest, e, steps).graph == e.graph && Run(digest, e, steps).id == e.id
    decreases |steps|
  {
    if steps != [] {
      RunKeepsGraph(digest, Apply(digest, e, steps[0]), steps[1..]);
    }
  }

  // ---------------------------------------------------------------- retry

  /**
    After a successful retry, blocked means: some transitive dependency failed or was
    cancelled. Besides the retried node, only blocked nodes change, and only to pending.
   */
  lemma RetrySettlesBlocking(digest: Digest, e: Execution, id: NodeId, a: NodeId)
    requires Sound(digest, e) && RetryFailed(e, id).Ok?
    ensures var after := RetryFailed(e, id).value;
      && StateOf(after.nodes, id) == Some(Pending)
      && (StateOf(after.nodes, a) == Some(Blocked) <==>
          exists c :: DependsOn(e.graph, a, c) && StateOf(after.nodes, c) in {Some(Failed), Some(Cancelled)})
      && (a != id && StateOf(after.nodes, a) != StateOf(e.nodes, a) ==>
           StateOf(e.nodes, a) == Some(Blocked) && StateOf(after.nodes, a) == Some(Pending))
  {
    var i := Find(e.nodes, id);
    var e1 := Replace(e, i, Reopened(e.nodes[i]));
    NeedsOfPlace(digest, e, i);
    MoveIsSound(digest, e, i, Reopened(e.nodes[i]));
    StateAfterReplace(e.nodes, i, Reopened(e.nodes[i]));
    StateAfterReopening(e.graph, e1.nodes);
    StuckMeans(e.graph, e1.nodes, a);
    if Stuck(e.graph, e1.nodes, a) {
      var p :| StuckPath(e.graph, e1.nodes, p, a);
      assert StateOf(e1.nodes, p[0]) == Some(Blocked);
    }
  }

  /** A state that keeps the transitive dependents of a node blocked, whatever else is retried. */
  predicate IsObstacle(state: Option<NodeState>) {
    state in {Some(Failed), Some(Cancelled)}
  }

  /** A retry reopens a blocked node exactly when no other node stands in its way beforehand. */
  lemma RetryReopensExactly(digest: Digest, e: Execution, id: NodeId, a: NodeId)
    requires Sound(digest, e) && RetryFailed(e, id).Ok? && StateOf(e.nodes, a) == Some(Blocked)
    ensures StateOf(RetryFailed(e, id).value.nodes, a) in {Some(Pending), Some(Blocked)}
    ensures StateOf(RetryFailed(e, id).value.nodes, a) == Some(Pending) <==>
      forall c {:trigger DependsOn(e.graph, a, c)} ::
        DependsOn(e.graph, a, c) && IsObstacle(StateOf(e.nodes, c)) ==> c == id
  {
    var after := RetryFailed(e, id).value;
    hide RetryFailed, Sound;
    forall c
      ensures IsObstacle(StateOf(after.nodes, c)) <==> IsObstacle(StateOf(e.nodes, c)) && c != id
    {
      RetrySettlesBlocking(digest, e, id, c);
    }
    RetrySettlesBlocking(digest, e, id, a);
  }

  /** Every node that the retry of `id` takes out of the blocked state depends on `id`. */
  ghost predicate RetryIsConfined(e: Execution, id: NodeId)
    requires RetryFailed(e, id).Ok?
  {
    forall a :: StateOf(e.nodes, a) == Some(Blocked) && StateOf(RetryFailed(e, id).value.nodes, a) != Some(Blocked) ==>
      DependsOn(e.graph, a, id)
  }

  /** The node depends on a failed or cancelled one. */
  ghost predicate IsObstructed(e: Execution, a: NodeId) {
    exists c :: DependsOn(e.graph, a, c) && IsObstacle(StateOf(e.nodes, c))
  }

  /**
    A retry is confined to the dependents of its node exactly when, before the call, every
    other blocked node has a failed or cancelled transitive dependency.
   */
  lemma RetryConfinedExactlyWhen(digest: Digest, e: Execution, id: NodeId)
    requires Sound(digest, e) && RetryFailed(e, id).Ok?
    ensures RetryIsConfined(e, id) <==>
      forall a {:trigger IsObstructed(e, a)} ::
        StateOf(e.nodes, a) == Some(Blocked) && !DependsOn(e.graph, a, id) ==> IsObstructed(e, a)
  {
    hide RetryFailed, Sound;
    forall a | StateOf(e.nodes, a) == Some(Blocked) && !DependsOn(e.graph, a, id)
      ensures StateOf(RetryFailed(e, id).value.nodes, a) == Some(Blocked) <==> IsObstructed(e, a)
    {
      RetryReopensExactly(digest, e, id, a);
    }
  }

  /**
    So a retry is not confined when the provider reported a node without needs blocked: the
    retry of any other node reopens it.
   */
  lemma RetryReopensProviderBlocked(digest: Digest, e: Execution, id: NodeId, a: NodeId)
    requires Sound(digest, e) && RetryFailed(e, id).Ok? && StateOf(e.nodes, a) == Some(Blocked)
    requires forall b {:trigger Edge(e.graph, a, b)} :: !Edge(e.graph, a, b)
    ensures !DependsOn(e.graph, a, id)
    ensures StateOf(RetryFailed(e, id).value.nodes, a) == Some(Pending)
    ensures !RetryIsConfined(e, id)
  {
    hide RetryFailed, Sound;
    RetryReopensExactly(digest, e, id, a);
    if c :| DependsOn(e.graph, a, c) {
      var b := DependsOnFirst(e.graph, a, c);
    }
  }

  // ---------------------------------------------------------------- runs bound to nodes

  /** No run is bound to two nodes. */
  ghost predicate RunsDiffer(nodes: seq<NodeExecution>) {
    forall i, j :: 0 <= i < j < |nodes| && nodes[i].runId.Some? ==> nodes[i].runId != nodes[j].runId
  }

  /** The step is accepted and binds a run that some node already carries. */
  predicate BindsTakenRun(e: Execution, step: Step) {
    && step.DoBind? && BindRun(e, step.id, step.owner, step.run).Ok?
    && exists n | n in e.nodes :: n.runId == Some(step.run)
  }

  /** Entries keep their run or lose it. */
  ghost predicate RunsOnlyCleared(nodes: seq<NodeExecution>, after: seq<NodeExecution>) {
    |nodes| == |after| && forall i :: 0 <= i < |nodes| ==> after[i].runId in {nodes[i].runId, None}
  }

  lemma ClearedStayDifferent(nodes: seq<NodeExecution>, after: seq<NodeExecution>)
    requires RunsDiffer(nodes) && RunsOnlyCleared(nodes, after)
    ensures RunsDiffer(after)
  {
  }

  lemma OthersOnlyClear(digest: Digest, e: Execution, step: Step)
    requires !step.DoBind? && !step.DoStage?
    ensures RunsOnlyCleared(e.nodes, Apply(digest, e, step).nodes)
  {
    hide DependsOn, Stuck, RunInUse, ValidOutput, IsReady;
  }

  /** A run bound where none was repeats one exactly when some entry carries it. */
  lemma NewRunDiffers(nodes: seq<NodeExecution>, i: nat, n: NodeExecution)
    requires RunsDiffer(nodes) && i < |nodes| && nodes[i].runId.None? && n.runId.Some?
    ensures RunsDiffer(nodes[i := n]) <==> forall m :: m in nodes ==> m.runId != n.runId
  {
    var after := nodes[i := n];
    if RunsDiffer(after) {
      forall k | 0 <= k < |nodes|
        ensures nodes[k].runId != n.runId
      {
        assert k != i ==> after[k] == nodes[k];
        assert after[i].runId == n.runId;
      }
    }
  }

  /**
    Staging tests that a run is fresh and binding does not: a step makes two nodes share a run
    exactly when it binds one that some node already carries.
   */
  lemma RunsDifferExactlyWhen(digest: Digest, e: Execution, step: Step)
    requires RunsDiffer(e.nodes)
    ensures RunsDiffer(Apply(digest, e, step).nodes) <==> !BindsTakenRun(e, step)
  {
    hide RunsDiffer, IsReady;
    if step.DoBind? && BindRun(e, step.id, step.owner, step.run).Ok? {
      var i := Find(e.nodes, step.id);
      NewRunDiffers(e.nodes, i, e.nodes[i].(runId := Some(step.run)));
    } else if step.DoStage? && StageNode(e, step.id, step.owner, step.run).Ok? {
      var i := Find(e.nodes, step.id);
      NewRunDiffers(e.nodes, i, Staged(e.nodes[i], step.owner, step.run));
    } else if !step.DoBind? && !step.DoStage? {
      OthersOnlyClear(digest, e, step);
      ClearedStayDifferent(e.nodes, Apply(digest, e, step).nodes);
    }
  }

  /** One more step at the end of a run. */
  lemma {:induction false} RunLonger(digest: Digest, e: Execution, steps: seq<Step>, step: Step)
    ensures Run(digest, e, steps + [step]) == Apply(digest, Run(digest, e, steps), step)
    decreases |steps|
  {
    if steps == [] {
      assert steps + [step] == [step];
      assert Run(digest, Apply(digest, e, step), [step][1..]) == Apply(digest, e, step);
    } else {
      assert (steps + [step])[1..] == steps[1..] + [step];
      RunLonger(digest, Apply(digest, e, steps[0]), steps[1..], step);
    }
  }

  /** The execution after the first `k` steps. */
  ghost function Moment(digest: Digest, e: Execution, steps: seq<Step>, k: nat): Execution
    requires k <= |steps|
  {
    Run(digest, e, steps[..k])
  }

  lemma NextMoment(digest: Digest, e: Execution, steps: seq<Step>, k: nat)
    requires k < |steps|
    ensures Moment(digest, e, steps, k + 1) == Apply(digest, Moment(digest, e, steps, k), steps[k])
  {
    hide Apply;
    assert steps[..k + 1] == steps[..k] + [steps[k]];
    RunLonger(digest, e, steps[..k], steps[k]);
  }

  /**
    All through a run no two nodes share a run exactly when no step of it binds a run that
    some node carries at that moment.
   */
  lemma RunsDifferThroughout(digest: Digest, e: Execution, steps: seq<Step>)
    requires RunsDiffer(e.nodes)
    ensures (forall k :: 0 <= k <= |steps| ==> RunsDiffer(Moment(digest, e, steps, k).nodes)) <==>
            (forall k :: 0 <= k < |steps| ==> !BindsTakenRun(Moment(digest, e, steps, k), steps[k]))
  {
    hide RunsDiffer, BindsTakenRun, Apply;
    forall k | 0 <= k < |steps| && RunsDiffer(Moment(digest, e, steps, k).nodes)
      ensures RunsDiffer(Moment(digest, e, steps, k + 1).nodes) <==>
        !BindsTakenRun(Moment(digest, e, steps, k), steps[k])
    {
      NextMoment(digest, e, steps, k);
      RunsDifferExactlyWhen(digest, Moment(digest, e, steps, k), steps[k]);
    }
    if forall k :: 0 <= k < |steps| ==> !BindsTakenRun(Moment(digest, e, steps, k), steps[k]) {
      assert Moment(digest, e, steps, 0) == Run(digest, e, []) == e by {
        assert steps[..0] == [];
      }
      var n := 0;
      while n < |steps|
        invariant n <= |steps| && forall k :: 0 <= k <= n ==> RunsDiffer(Moment(digest, e, steps, k).nodes)
      {
        assert RunsDiffer(Moment(digest, e, steps, n).nodes) && !BindsTakenRun(Moment(digest, e, steps, n), steps[n]);
        n := n + 1;
      }
    } else {
      var k :| 0 <= k < |steps| && BindsTakenRun(Moment(digest, e, steps, k), steps[k]);
      if RunsDiffer(Moment(digest, e, steps, k).nodes) {
        assert !RunsDiffer(Moment(digest, e, steps, k + 1).nodes);
      }
    }
  }

  lemma StartedRunsDiffer(id: ExecutionId, g: Graph)
    ensures RunsDiffer(Started(id, g).nodes)
  {
  }

  /** Any path to failure, cancellation or provider block leaves all transitive dependents blocked. */
  lemma FailureSpreads(digest: Digest, e: Execution, step: Step, id: NodeId, a: NodeId)
    requires Sound(digest, e) && Attempt(digest, e, step).Ok? && DependsOn(e.graph, a, id)
    requires
      || step.DoCancelStaged?
      || (step.DoComplete? && !step.succeeded)
      || (step.DoFinish? && step.state in {Failed, Cancelled, Blocked})
    requires step.id == id
    ensures StateOf(Apply(digest, e, step).nodes, a) == Some(Blocked)
  {
    var i := Find(e.nodes, id);
    var n := match step
      case DoCancelStaged(_, _, _) => StagingCancelled(e.nodes[i])
      case DoComplete(_, owner, _) => Finished(e.nodes[i], owner, Failed, None)
      case DoFinish(_, owner, state, failure) => Finished(e.nodes[i], owner, state, failure);
    FailureBlocksDependents(e.graph, e.nodes, i, n, a);
  }

  // ---------------------------------------------------------------- settled outputs

  /** The node succeeded in a run that is bound to it and has a recorded output. */
  ghost predicate Settled(e: Execution, id: NodeId, o: Output) {
    var i := Find(e.nodes, id);
    && i < |e.nodes| && e.nodes[i].state == Succeeded && e.nodes[i].runId.Some?
    && FirstOutput(e.outputs, id, e.nodes[i].runId.value) == Some(o)
  }

  lemma EndingLeavesSucceeded(digest: Digest, e: Execution, step: Step, i: nat)
    requires i < |e.nodes| && e.nodes[i].state == Succeeded
    ensures step.DoCancelStaged? || step.DoComplete? || step.DoFinish? ==>
      var after := Apply(digest, e, step);
      SameNodes(e.nodes, after.nodes) && after.nodes[i] == e.nodes[i] && e.outputs == after.outputs
  {
    hide DependsOn, ClaimReady, ClaimNode, StageNode, ActivateStagedNode, BindRun, RecordOutput, RetryFailed;
  }

  /** No operation touches a succeeded node, and outputs are only ever appended. */
  lemma SucceededIsFinal(digest: Digest, e: Execution, step: Step, i: nat)
    requires i < |e.nodes| && e.nodes[i].state == Succeeded
    ensures var after := Apply(digest, e, step);
      SameNodes(e.nodes, after.nodes) && after.nodes[i] == e.nodes[i] && e.outputs <= after.outputs
  {
    hide DependsOn, Stuck, RunInUse, ValidOutput, CancelStagedNode, FinishTerminal;
    EndingLeavesSucceeded(digest, e, step, i);
    if step.DoClaimReady? && ClaimReady(e, step.owner, step.limit).Ok? {
      assert i !in Chosen(e, step.limit);
    }
  }

  lemma {:induction false} FirstOutputOfLonger(outputs: seq<Output>, longer: seq<Output>, id: NodeId, run: RunId)
    requires outputs <= longer && FirstOutput(outputs, id, run).Some?
    ensures FirstOutput(longer, id, run) == FirstOutput(outputs, id, run)
  {
    if !(outputs[0].nodeId == id && outputs[0].runId == run) {
      FirstOutputOfLonger(outputs[1..], longer[1..], id, run);
    }
  }

  /** A settled output is the node's output for ever. */
  lemma {:induction false} SettledOutputStays(digest: Digest, e: Execution, steps: seq<Step>, id: NodeId, o: Output)
    requires Settled(e, id, o)
    ensures Settled(Run(digest, e, steps), id, o)
    ensures OutputOf(Run(digest, e, steps), id) == Some(o)
    decreases |steps|
  {
    if steps != [] {
      var after := Apply(digest, e, steps[0]);
      var i := Find(e.nodes, id);
      SucceededIsFinal(digest, e, steps[0], i);
      FindSame(e.nodes, after.nodes, id);
      FirstOutputOfLonger(e.outputs, after.outputs, id, e.nodes[i].runId.value);
      SettledOutputStays(digest, after, steps[1..], id, o);
    }
  }

  // ---------------------------------------------------------------- the revision guards the states

  ghost predicate SameStates(nodes: seq<NodeExecution>, others: seq<NodeExecution>) {
    SameNodes(nodes, others) && forall i :: 0 <= i < |nodes| ==> nodes[i].state == others[i].state
  }

  lemma StepCountsChanges(digest: Digest, e: Execution, step: Step)
    ensures var after := Apply(digest, e, step);
      && after.revision >= e.revision
      && (after.revision == e.revision ==> SameStates(e.nodes, after.nodes))
  {
    if step.DoReconcile? && ReconcileAfterRestart(e).revision == e.revision {
      forall i | 0 <= i < |e.nodes|
        ensures e.nodes[i].state != Running
      {
        assert e.nodes[i] in e.nodes;
      }
    }
  }

  /** Two moments of a run with the same execution revision have the same node states. */
  lemma {:induction false} EqualRevisionEqualStates(digest: Digest, e: Execution, steps: seq<Step>)
    ensures var after := Run(digest, e, steps);
      && after.revision >= e.revision
      && (after.revision == e.revision ==> SameStates(e.nodes, after.nodes))
    decreases |steps|
  {
    if steps != [] {
      StepCountsChanges(digest, e, steps[0]);
      EqualRevisionEqualStates(digest, Apply(digest, e, steps[0]), steps[1..]);
    }
  }
}
