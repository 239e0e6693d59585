/** The executor itself: an object whose operations update its nodes in place. */
module GraphExecutor {
  import opened Prelude
  import opened WorkflowGraph
  import opened AdapterContract
  import opened E = GraphOperations
  import opened ExecutionInvariant
  import opened ExecutorLoops

  /** The operation's specified change took effect, or it was refused and changed nothing. */
  ghost predicate Took(r: Change, error: Option<GraphError>, before: Execution, after: Execution) {
    if r.Ok? then error.None? && after == r.value else error == Some(r.error) && after == before
  }

  /** What the fixpoint loops rely on, from the invariant. */
  lemma LoopFacts(digest: Digest, e: Execution, i: nat, n: NodeExecution)
    requires Sound(digest, e) && i < |e.nodes| && n.nodeId == e.nodes[i].nodeId
    ensures UniqueIds(e.graph) && ClosedNeeds(e.graph) && !HasCycle(e.graph)
    ensures UniqueNodes(e.nodes[i := n])
    ensures forall m :: m in e.nodes[i := n] ==> m.nodeId in Ids(e.graph)
  {
    WellFormedFacts(e.graph);
  }

  lemma RestartedIsSound(digest: Digest, e: Execution, newId: ExecutionId)
    requires ExecutionVerdict(digest, e).None?
    ensures Sound(digest, E.Started(newId, e.graph).(restartedFrom := Some(e.id)))
  {
    StartedIsSound(digest, newId, e.graph);
  }

  /** All nodes succeeded, and some node has no output. */
  ghost predicate CanRestart(e: Execution) {
    && (forall i :: 0 <= i < |e.nodes| ==> e.nodes[i].state == Succeeded)
    && exists i :: 0 <= i < |e.nodes| && OutputOf(e, e.nodes[i].nodeId).None?
  }

  lemma PlacesAreKnown(digest: Digest, e: Execution)
    requires Sound(digest, e)
    ensures forall i :: 0 <= i < |e.nodes| ==> e.nodes[i].nodeId in Ids(e.graph)
  {
  }

  class GraphExecution {
    const digest: Digest
    const id: ExecutionId
    const graph: Graph
    var nodes: seq<NodeExecution>
    var outputs: seq<Output>
    const restartedFrom: Option<ExecutionId>
    var revision: nat

    function Value(): Execution
      reads this
    {
      Execution(id, graph, nodes, outputs, restartedFrom, revision)
    }

    ghost predicate Valid()
      reads this
    {
      Sound(digest, Value())
    }

    constructor Create(digest: Digest, e: Execution)
      ensures Value() == e && this.digest == digest
    {
      this.digest, id, graph, restartedFrom := digest, e.id, e.graph, e.restartedFrom;
      nodes, outputs, revision := e.nodes, e.outputs, e.revision;
    }

    static method Start(digest: Digest, id: ExecutionId, graph: Graph)
      returns (error: Option<GraphError>, execution: GraphExecution?)
      ensures error == Verdict(graph)
      ensures error.None? <==> execution != null
      ensures execution != null ==>
        && fresh(execution) && execution.digest == digest
        && execution.Value() == E.Started(id, graph) && execution.Valid()
    {
      error := WorkflowGraph.Validate(graph);
      execution := null;
      if error.None? {
        StartedIsSound(digest, id, graph);
        execution := new GraphExecution.Create(digest, E.Started(id, graph));
      }
    }

    /** `GraphExecution::validate`, for any stored state. */
    method Validate() returns (error: Option<GraphError>)
      ensures error == ExecutionVerdict(digest, Value())
    {
      error := WorkflowGraph.Validate(graph);
      if error.Some? {
        return;
      }
      var ids := Elements(ExecIds(nodes));
      ElementsCount(ExecIds(nodes));
      if |nodes| != |graph.nodes| || |ids| != |nodes|
         || exists n | n in nodes :: n.nodeId !in Ids(graph) || !ValidNodeState(n) {
        return Some(InvalidExecution);
      }
      var runs := Elements(OutputRuns(outputs));
      ElementsCount(OutputRuns(outputs));
      if |runs| != |outputs|
         || exists o | o in outputs :: !ValidOutput(digest, o) || o.nodeId !in Ids(graph) {
        return Some(InvalidOutput);
      }
    }

    /**
      For any stored state: its own fault first, then restarting is offered only when all nodes
      succeeded and some output is missing.
     */
    method RestartAs(newId: ExecutionId) returns (error: Option<GraphError>, restarted: GraphExecution?)
      ensures error.None? <==> restarted != null
      ensures var fault := ExecutionVerdict(digest, Value());
        error == if fault.Some? then fault else if CanRestart(Value()) then None else Some(InvalidOutput)
      ensures restarted != null ==>
        && fresh(restarted) && restarted.Valid()
        && restarted.Value() == E.Started(newId, graph).(restartedFrom := Some(id))
    {
      hide Sound, OutputOf, ExecutionVerdict;
      restarted := null;
      error := Validate();
      if error.Some? {
        return;
      }
      if exists i :: 0 <= i < |nodes| && nodes[i].state != Succeeded {
        return Some(InvalidOutput), null;
      }
      if forall i :: 0 <= i < |nodes| ==> OutputOf(Value(), nodes[i].nodeId).Some? {
        return Some(InvalidOutput), null;
      }
      RestartedIsSound(digest, Value(), newId);
      restarted := new GraphExecution.Create(digest, E.Started(newId, graph).(restartedFrom := Some(id)));
    }

    function Output(node: NodeId): (r: Option<Output>)
      reads this
      ensures r == OutputOf(Value(), node)
    {
      OutputOf(Value(), node)
    }

    method RecordOutput(o: Output) returns (error: Option<GraphError>)
      requires Valid()
      modifies this`outputs
      ensures Valid()
      ensures Took(E.RecordOutput(digest, old(Value()), o), error, old(Value()), Value())
    {
      hide Sound;
      if !ValidOutput(digest, o) {
        return Some(InvalidOutput);
      }
      var i := Find(nodes, o.nodeId);
      if || (exists existing | existing in outputs :: existing.runId == o.runId)
         || i == |nodes|
         || nodes[i].state !in {Succeeded, Failed}
         || (nodes[i].runId.Some? && nodes[i].runId.value != o.runId) {
        return Some(InvalidOutput);
      }
      RecordIsSound(digest, Value(), o);
      outputs := outputs + [o];
      return None;
    }

    method ReconcileAfterRestart() returns (changed: nat)
      requires Valid()
      modifies this`nodes, this`revision
      ensures Valid() && Value() == E.ReconcileAfterRestart(old(Value()))
      ensures changed == |PlacesRunning(old(nodes))|
    {
      hide Sound;
      ReconcileIsSound(digest, Value());
      NoneRunning(nodes);
      changed := MarkRunningUncertain();
      if changed > 0 {
        revision := revision + 1;
      }
    }

    /** The loop of `reconcile_after_restart`. */
    method MarkRunningUncertain() returns (changed: nat)
      modifies this`nodes
      ensures nodes == Reconciled(old(nodes)) && changed == |PlacesRunning(old(nodes))|
    {
      ghost var before := nodes;
      ghost var seen: set<nat> := {};
      changed := 0;
      for i := 0 to |nodes|
        invariant |nodes| == |before| && changed == |seen| && seen == PlacesRunning(before[..i])
        invariant nodes == Reconciled(before[..i]) + before[i..]
      {
        ReconcileOne(before, i);
        if nodes[i].state == Running {
          nodes := nodes[i := MarkedUncertain(nodes[i])];
          changed := changed + 1;
          seen := seen + {i};
        }
      }
      assert before[..|nodes|] == before;
    }

    method ClaimReady(owner: string, limit: nat) returns (r: Result<seq<NodeId>, GraphError>)
      requires Valid()
      modifies this`nodes, this`revision
      ensures Valid()
      ensures var spec := E.ClaimReady(old(Value()), owner, limit);
        if spec.Ok? then r == Ok(spec.value.0) && Value() == spec.value.1
        else r == Err(spec.error) && Value() == old(Value())
    {
      hide Sound, Chosen, ClaimPlaces, IsReady;
      if Blank(owner) || limit == 0 {
        return Err(InvalidExecution);
      }
      ClaimReadyIsSound(digest, Value(), owner, limit);
      PlacesAreKnown(digest, Value());
      var claimed := ClaimPass(owner, limit);
      if claimed != [] {
        revision := revision + 1;
      }
      return Ok(claimed);
    }

    /** The loop of `claim_ready`, which judges needs by the states from before it. */
    method ClaimPass(owner: string, limit: nat) returns (claimed: seq<NodeId>)
      requires forall i :: 0 <= i < |nodes| ==> nodes[i].nodeId in Ids(graph)
      modifies this`nodes
      ensures nodes == ClaimPlaces(old(nodes), Chosen(old(Value()), limit), owner)
      ensures claimed == IdsAt(old(nodes), Chosen(old(Value()), limit))
    {
      hide ClaimScan, Chosen, IsReady, StateOf, Take, ClaimPlaces;
      ghost var before := Value();
      var states := nodes;
      claimed := [];
      ghost var places: seq<nat> := [];
      ScanStarts(before, owner, limit);
      for i := 0 to |nodes|
        invariant |nodes| == |states| && ClaimScan(before, owner, limit, i, places, claimed, nodes)
      {
        ScanFacts(before, owner, limit, i, places, claimed, nodes);
        if |claimed| == limit || nodes[i].state != Pending {
          ScanPasses(before, owner, limit, i, places, claimed, nodes);
          continue;
        }
        FindNodeKnown(graph, nodes[i].nodeId);
        var node := graph.nodes[FindNode(graph.nodes, nodes[i].nodeId)];
        if NeedsSucceeded(states, node.needs) {
          ScanClaims(before, owner, limit, i, places, claimed, nodes);
          nodes := nodes[i := Claimed(nodes[i], owner)];
          claimed := claimed + [nodes[i].nodeId];
          places := places + [i];
        } else {
          ScanPasses(before, owner, limit, i, places, claimed, nodes);
        }
      }
      ScanEnds(before, owner, limit, places, claimed, nodes);
    }

    method ClaimNode(node: NodeId, owner: string) returns (error: Option<GraphError>)
      requires Valid()
      modifies this`nodes, this`revision
      ensures Valid() && Took(E.ClaimNode(old(Value()), node, owner), error, old(Value()), Value())
    {
      hide Sound;
      var i := Find(nodes, node);
      if Blank(owner) || i == |nodes| || !IsReady(Value(), i) {
        return Some(InvalidExecution);
      }
      ClaimNodeIsSound(digest, Value(), node, owner);
      nodes := nodes[i := Claimed(nodes[i], owner)];
      revision := revision + 1;
      return None;
    }

    method StageNode(node: NodeId, owner: string, run: RunId) returns (error: Option<GraphError>)
      requires Valid()
      modifies this`nodes, this`revision
      ensures Valid() && Took(E.StageNode(old(Value()), node, owner, run), error, old(Value()), Value())
    {
      hide Sound;
      var i := Find(nodes, node);
      if Blank(owner) || RunInUse(Value(), run) || i == |nodes| || !IsReady(Value(), i)
         || nodes[i].owner.Some? || nodes[i].runId.Some? {
        return Some(InvalidExecution);
      }
      StageIsSound(digest, Value(), node, owner, run);
      nodes := nodes[i := Staged(nodes[i], owner, run)];
      revision := revision + 1;
      return None;
    }

    method ActivateStagedNode(node: NodeId, owner: string, run: RunId) returns (error: Option<GraphError>)
      requires Valid()
      modifies this`nodes, this`revision
      ensures Valid() && Took(E.ActivateStagedNode(old(Value()), node, owner, run), error, old(Value()), Value())
    {
      hide Sound;
      var i := Find(nodes, node);
      if i == |nodes| || !IsStagedAs(nodes[i], owner, run) {
        return Some(InvalidExecution);
      }
      ActivateIsSound(digest, Value(), node, owner, run);
      nodes := nodes[i := Activated(nodes[i])];
      revision := revision + 1;
      return None;
    }

    method CancelStagedNode(node: NodeId, owner: string, run: RunId) returns (error: Option<GraphError>)
      requires Valid()
      modifies this`nodes, this`revision
      ensures Valid() && Took(E.CancelStagedNode(old(Value()), node, owner, run), error, old(Value()), Value())
    {
      hide Sound;
      var i := Find(nodes, node);
      if i == |nodes| || !IsStagedAs(nodes[i], owner, run) {
        return Some(InvalidExecution);
      }
      CancelIsSound(digest, Value(), node, owner, run);
      LoopFacts(digest, Value(), i, StagingCancelled(nodes[i]));
      nodes := nodes[i := StagingCancelled(nodes[i])];
      revision := revision + 1;
      BlockDependents(node);
      return None;
    }

    method BindRun(node: NodeId, owner: string, run: RunId) returns (error: Option<GraphError>)
      requires Valid()
      modifies this`nodes
      ensures Valid() && Took(E.BindRun(old(Value()), node, owner, run), error, old(Value()), Value())
    {
      hide Sound;
      var i := Find(nodes, node);
      if i == |nodes| || nodes[i].state != Running || nodes[i].owner != Some(owner) || nodes[i].runId.Some? {
        return Some(InvalidExecution);
      }
      BindIsSound(digest, Value(), node, owner, run);
      nodes := nodes[i := nodes[i].(runId := Some(run))];
      return None;
    }

    method Complete(node: NodeId, owner: string, succeeded: bool) returns (error: Option<GraphError>)
      requires Valid()
      modifies this`nodes, this`revision
      ensures Valid() && Took(E.Complete(old(Value()), node, owner, succeeded), error, old(Value()), Value())
    {
      hide Sound;
      var i := Find(nodes, node);
      if i == |nodes| || nodes[i].state != Running || nodes[i].owner != Some(owner) {
        return Some(InvalidExecution);
      }
      var state := if succeeded then Succeeded else Failed;
      FinishIsSound(digest, Value(), node, owner, state, None);
      LoopFacts(digest, Value(), i, Finished(nodes[i], owner, state, None));
      assert nodes[i].(state := state, failure := None, revision := nodes[i].revision + 1)
             == Finished(nodes[i], owner, state, None);
      nodes := nodes[i := nodes[i].(state := state, failure := None, revision := nodes[i].revision + 1)];
      revision := revision + 1;
      if !succeeded {
        BlockDependents(node);
      }
      return None;
    }

    method FinishTerminal(node: NodeId, owner: string, state: NodeState, failure: Option<AdapterFailure>)
      returns (error: Option<GraphError>)
      requires Valid()
      modifies this`nodes, this`revision
      ensures Valid()
      ensures Took(E.FinishTerminal(old(Value()), node, owner, state, failure), error, old(Value()), Value())
    {
      hide Sound;
      if state !in {Succeeded, Failed, Cancelled, Blocked, Uncertain} {
        return Some(InvalidExecution);
      }
      var i := Find(nodes, node);
      if i == |nodes| || nodes[i].state != Running || nodes[i].owner != Some(owner) {
        return Some(InvalidExecution);
      }
      FinishIsSound(digest, Value(), node, owner, state, failure);
      LoopFacts(digest, Value(), i, Finished(nodes[i], owner, state, failure));
      nodes := nodes[i := Finished(nodes[i], owner, state, failure)];
      revision := revision + 1;
      if state in {Failed, Cancelled, Blocked} {
        BlockDependents(node);
      }
      return None;
    }

    /** Gathers the transitive dependents of a node pass by pass and blocks the pending ones. */
    method BlockDependents(failed: NodeId)
      requires UniqueNodes(nodes) && !HasCycle(graph)
      modifies this`nodes
      ensures nodes == E.BlockDependents(graph, old(nodes), failed)
    {
      ghost var before := nodes;
      var gathered := {failed};
      var changed := true;
      assert MarkIn(before, gathered - {failed}) == before;
      while changed
        invariant Gathered(graph, failed, gathered) && nodes == MarkIn(before, gathered - {failed})
        invariant !changed ==> ClosedUpTo(graph, gathered, |graph.nodes|)
        decreases Ids(graph) + {failed} - gathered, changed
      {
        ghost var start := gathered;
        changed := false;
        for k := 0 to |graph.nodes|
          invariant Gathered(graph, failed, gathered) && nodes == MarkIn(before, gathered - {failed})
          invariant start <= gathered && (changed ==> start != gathered)
          invariant !changed ==> start == gathered && ClosedUpTo(graph, gathered, k)
        {
          var node := graph.nodes[k];
          if NeedsSome(node, gathered) && node.id !in gathered {
            GatherOne(graph, failed, gathered, k);
            MarkOne(before, gathered - {failed}, node.id);
            assert gathered + {node.id} - {failed} == gathered - {failed} + {node.id};
            gathered := gathered + {node.id};
            var i := Find(nodes, node.id);
            if i < |nodes| && nodes[i].state == Pending {
              nodes := nodes[i := MarkedBlocked(nodes[i])];
            }
            changed := true;
          }
        }
      }
      GatheredBlocks(graph, before, failed, gathered);
    }

    /** Reopens one failed node, then pass by pass every blocked node without a failing need. */
    method RetryFailed(node: NodeId) returns (error: Option<GraphError>)
      requires Valid()
      modifies this`nodes, this`revision
      ensures Valid() && Took(E.RetryFailed(old(Value()), node), error, old(Value()), Value())
    {
      hide Sound;
      var i := Find(nodes, node);
      if i == |nodes| || nodes[i].state != Failed {
        return Some(InvalidExecution);
      }
      RetryIsSound(digest, Value(), node);
      LoopFacts(digest, Value(), i, Reopened(nodes[i]));
      nodes := nodes[i := Reopened(nodes[i])];
      ReopenPasses();
      revision := revision + 1;
      return None;
    }

    /** The loop of `retry_failed`. */
    method ReopenPasses()
      requires UniqueIds(graph) && ClosedNeeds(graph) && !HasCycle(graph)
      requires UniqueNodes(nodes) && forall m :: m in nodes ==> m.nodeId in Ids(graph)
      modifies this`nodes
      ensures nodes == ReopenUnstuck(graph, old(nodes))
    {
      ghost var before := nodes;
      while true
        invariant UniqueNodes(nodes) && PartlyReopened(graph, before, nodes)
        decreases BlockedPlaces(nodes)
      {
        var reopened := SelectReopened();
        if reopened == [] {
          NothingSelected(graph, nodes);
          ReopeningIsExact(graph, before, nodes);
          return;
        }
        PassReopens(graph, before, nodes, reopened);
        PassShrinks(nodes, reopened);
        ReopenSelected(reopened);
      }
    }

    /** One pass: the blocked nodes with no failed, cancelled or blocked dependency. */
    method SelectReopened() returns (reopened: seq<NodeId>)
      requires UniqueIds(graph)
      ensures Selected(graph, nodes, reopened, |graph.nodes|)
    {
      reopened := [];
      for k := 0 to |graph.nodes|
        invariant Selected(graph, nodes, reopened, k)
      {
        if StateOf(nodes, graph.nodes[k].id) != Some(Blocked) || HasFailingNeed(nodes, graph.nodes[k]) {
          SkipOne(graph, nodes, reopened, k);
        } else {
          SelectOne(graph, nodes, reopened, k);
          reopened := reopened + [graph.nodes[k].id];
        }
      }
    }

    method ReopenSelected(reopened: seq<NodeId>)
      requires UniqueNodes(nodes) && Distinct(reopened)
      requires forall j :: 0 <= j < |reopened| ==> StateOf(nodes, reopened[j]) == Some(Blocked)
      modifies this`nodes
      ensures nodes == ReopenIn(old(nodes), reopened) && UniqueNodes(nodes)
    {
      ghost var before := nodes;
      assert ReopenIn(before, []) == before;
      for j := 0 to |reopened|
        invariant nodes == ReopenIn(before, reopened[..j])
      {
        assert reopened[..j + 1] == reopened[..j] + [reopened[j]];
        assert StateOf(before, reopened[j]) == Some(Blocked);
        ReopenOne(before, reopened[..j], reopened[j]);
        var i := Find(nodes, reopened[j]);
        nodes := nodes[i := Reopened(nodes[i])];
      }
      assert reopened[..|reopened|] == reopened;
    }
  }
}
