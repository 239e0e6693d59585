/**
  When each operation of the executor is accepted and what it leaves of every entry, field by
  field: the entry it names, the entries it only blocks or reopens, and all the others.
 */
module OperationEffects {
  import opened Prelude
  import opened WorkflowGraph
  import opened AdapterContract
  import opened GraphOperations
  import opened ExecutionInvariant

  // ---------------------------------------------------------------- entries before and after

  /** The same attempt of the same node, one revision later, in this state. */
  predicate Moved(n: NodeExecution, m: NodeExecution, state: NodeState) {
    m.nodeId == n.nodeId && m.state == state && m.revision == n.revision + 1
  }

  /** A pending entry that became blocked, and is otherwise the same. */
  predicate GotBlocked(n: NodeExecution, m: NodeExecution) {
    n.state == Pending && Moved(n, m, Blocked) && m.owner == n.owner && m.runId == n.runId && m.failure == n.failure
  }

  /** An entry whose attempt is over and forgotten. */
  predicate StartsOver(n: NodeExecution, m: NodeExecution, state: NodeState) {
    Moved(n, m, state) && m.owner.None? && m.runId.None? && m.failure.None?
  }

  /** The operation kept everything but the entries, and counted one more revision. */
  ghost predicate OnlyEntriesChange(e: Execution, after: Execution, revisions: nat) {
    && after.id == e.id && after.graph == e.graph && after.outputs == e.outputs
    && after.restartedFrom == e.restartedFrom && after.revision == e.revision + revisions
    && |after.nodes| == |e.nodes|
  }

  /** All other entries are as before. */
  ghost predicate OthersStay(e: Execution, after: Execution, i: nat)
    requires |after.nodes| == |e.nodes|
  {
    forall j :: 0 <= j < |e.nodes| && j != i ==> after.nodes[j] == e.nodes[j]
  }

  /** All other entries are as before, except that the pending dependents of `id` got blocked. */
  ghost predicate OthersOnlyBlock(e: Execution, after: Execution, i: nat, id: NodeId)
    requires |after.nodes| == |e.nodes|
  {
    forall j :: 0 <= j < |e.nodes| && j != i ==>
      if e.nodes[j].state == Pending && DependsOn(e.graph, e.nodes[j].nodeId, id)
      then GotBlocked(e.nodes[j], after.nodes[j])
      else after.nodes[j] == e.nodes[j]
  }

  /** The node can be started: it waits, and all it needs has succeeded. */
  ghost predicate CanStart(e: Execution, i: nat)
    requires i < |e.nodes|
  {
    && e.nodes[i].state == Pending
    && forall d {:trigger Edge(e.graph, e.nodes[i].nodeId, d)} ::
         Edge(e.graph, e.nodes[i].nodeId, d) ==> StateOf(e.nodes, d) == Some(Succeeded)
  }

  lemma ReadyMeans(digest: Digest, e: Execution, i: nat)
    requires Sound(digest, e) && i < |e.nodes|
    ensures IsReady(e, i) <==> CanStart(e, i)
  {
    hide WellFormed, HasCycle, IsResearchJoin, TidyNodes, NeedsRespected, OutputsFit, Edge, Ids;
    WellFormedFacts(e.graph);
    var id := e.nodes[i].nodeId;
    assert id in Ids(e.graph);
    EdgeOfDefinition(e.graph, id);
    assert Definition(e.graph, id) == e.graph.nodes[FindNode(e.graph.nodes, id)];
  }

  // ---------------------------------------------------------------- starting executions

  /** A new execution has one entry for each place of the graph, in order, none of which has a history. */
  lemma StartEffect(id: ExecutionId, g: Graph)
    ensures var e := Started(id, g);
      && e.id == id && e.graph == g && e.outputs == [] && e.restartedFrom.None? && e.revision == 0
      && |e.nodes| == |g.nodes|
      && forall j :: 0 <= j < |g.nodes| ==>
           && e.nodes[j].nodeId == g.nodes[j].id && e.nodes[j].state == Pending && e.nodes[j].revision == 0
           && e.nodes[j].owner.None? && e.nodes[j].runId.None? && e.nodes[j].failure.None?
  {
  }

  // ---------------------------------------------------------------- starting nodes

  /** A claimed entry runs for the owner; run and everything else stay as they were. */
  predicate RunsFor(n: NodeExecution, m: NodeExecution, owner: string) {
    Moved(n, m, Running) && m.owner == Some(owner) && m.runId == n.runId && m.failure.None?
  }

  lemma ClaimReadyEffect(digest: Digest, e: Execution, owner: string, limit: nat)
    requires Sound(digest, e)
    ensures ClaimReady(e, owner, limit).Ok? <==> !Blank(owner) && limit > 0
    ensures ClaimReady(e, owner, limit).Ok? ==>
      var (ids, after) := ClaimReady(e, owner, limit).value;
      && OnlyEntriesChange(e, after, if ids == [] then 0 else 1)
      && forall j :: 0 <= j < |e.nodes| ==>
           if e.nodes[j].nodeId in ids
           then CanStart(e, j) && RunsFor(e.nodes[j], after.nodes[j], owner)
           else after.nodes[j] == e.nodes[j]
  {
    hide Sound, IsReady, CanStart, Chosen, Blank;
    if !Blank(owner) && limit > 0 {
      var places := Chosen(e, limit);
      forall j | 0 <= j < |e.nodes|
        ensures e.nodes[j].nodeId in IdsAt(e.nodes, places) <==> j in places
        ensures j in places ==> CanStart(e, j)
      {
        ChosenPlace(digest, e, limit, j);
        ReadyMeans(digest, e, j);
      }
    }
  }

  lemma ChosenPlace(digest: Digest, e: Execution, limit: nat, j: nat)
    requires Sound(digest, e) && j < |e.nodes|
    ensures e.nodes[j].nodeId in IdsAt(e.nodes, Chosen(e, limit)) <==> j in Chosen(e, limit)
    ensures j in Chosen(e, limit) ==> IsReady(e, j)
  {
    hide IsReady, Chosen;
    var places := Chosen(e, limit);
    if e.nodes[j].nodeId in IdsAt(e.nodes, places) {
      var k :| 0 <= k < |places| && IdsAt(e.nodes, places)[k] == e.nodes[j].nodeId;
      FindUnique(e.nodes, j);
      FindUnique(e.nodes, places[k]);
    }
    if j in places {
      var k :| 0 <= k < |places| && places[k] == j;
      assert IdsAt(e.nodes, places)[k] == e.nodes[j].nodeId;
    }
  }

  lemma ClaimNodeEffect(digest: Digest, e: Execution, id: NodeId, owner: string)
    requires Sound(digest, e)
    ensures var i, r := Find(e.nodes, id), ClaimNode(e, id, owner);
      && (r.Ok? <==> !Blank(owner) && i < |e.nodes| && CanStart(e, i))
      && (r.Ok? ==>
            && OnlyEntriesChange(e, r.value, 1) && OthersStay(e, r.value, i)
            && RunsFor(e.nodes[i], r.value.nodes[i], owner))
  {
    hide Sound, IsReady, CanStart, Blank;
    if Find(e.nodes, id) < |e.nodes| {
      ReadyMeans(digest, e, Find(e.nodes, id));
    }
  }

  /** The run is bound to no node and has no output. */
  ghost predicate RunIsFree(e: Execution, run: RunId) {
    && (forall j :: 0 <= j < |e.nodes| ==> e.nodes[j].runId != Some(run))
    && forall k :: 0 <= k < |e.outputs| ==> e.outputs[k].runId != run
  }

  lemma StageEffect(digest: Digest, e: Execution, id: NodeId, owner: string, run: RunId)
    requires Sound(digest, e)
    ensures var i, r := Find(e.nodes, id), StageNode(e, id, owner, run);
      && (r.Ok? <==> !Blank(owner) && RunIsFree(e, run) && i < |e.nodes| && CanStart(e, i))
      && (r.Ok? ==>
            && OnlyEntriesChange(e, r.value, 1) && OthersStay(e, r.value, i)
            && Moved(e.nodes[i], r.value.nodes[i], AwaitingApproval) && r.value.nodes[i].owner == Some(owner)
            && r.value.nodes[i].runId == Some(run) && r.value.nodes[i].failure.None?)
  {
    hide WellFormed, Covers, NeedsRespected, OutputsFit, IsReady, CanStart, Blank;
    if Find(e.nodes, id) < |e.nodes| {
      ReadyMeans(digest, e, Find(e.nodes, id));
      assert TidyNode(e.nodes[Find(e.nodes, id)]);
    }
    FreeRun(e, run);
    PendingIsUnowned(digest, e, id);
  }

  lemma FreeRun(e: Execution, run: RunId)
    ensures RunInUse(e, run) <==> !RunIsFree(e, run)
  {
    if !RunIsFree(e, run) {
      if j :| 0 <= j < |e.nodes| && e.nodes[j].runId == Some(run) {
        assert e.nodes[j] in e.nodes;
      } else {
        var k :| 0 <= k < |e.outputs| && e.outputs[k].runId == run;
        assert e.outputs[k] in e.outputs;
      }
    }
  }

  lemma PendingIsUnowned(digest: Digest, e: Execution, id: NodeId)
    requires Sound(digest, e)
    ensures var i := Find(e.nodes, id);
      i < |e.nodes| && CanStart(e, i) ==> e.nodes[i].owner.None? && e.nodes[i].runId.None?
  {
    hide WellFormed, Covers, NeedsRespected, OutputsFit;
    if Find(e.nodes, id) < |e.nodes| {
      assert TidyNode(e.nodes[Find(e.nodes, id)]);
    }
  }

  /** The entry waits for approval for exactly this owner and run. */
  predicate Awaits(e: Execution, i: nat, owner: string, run: RunId) {
    && i < |e.nodes| && e.nodes[i].state == AwaitingApproval
    && e.nodes[i].owner == Some(owner) && e.nodes[i].runId == Some(run)
  }

  lemma ActivateEffect(e: Execution, id: NodeId, owner: string, run: RunId)
    ensures var i, r := Find(e.nodes, id), ActivateStagedNode(e, id, owner, run);
      && (r.Ok? <==> Awaits(e, i, owner, run))
      && (r.Ok? ==>
            && OnlyEntriesChange(e, r.value, 1) && OthersStay(e, r.value, i)
            && Moved(e.nodes[i], r.value.nodes[i], Running)
            && r.value.nodes[i].owner == Some(owner) && r.value.nodes[i].runId == Some(run)
            && r.value.nodes[i].failure == e.nodes[i].failure)
  {
  }

  lemma BindEffect(e: Execution, id: NodeId, owner: string, run: RunId)
    ensures var i, r := Find(e.nodes, id), BindRun(e, id, owner, run);
      && (r.Ok? <==>
            && i < |e.nodes| && e.nodes[i].state == Running
            && e.nodes[i].owner == Some(owner) && e.nodes[i].runId.None?)
      && (r.Ok? ==>
            && OnlyEntriesChange(e, r.value, 0) && OthersStay(e, r.value, i)
            && r.value.nodes[i].nodeId == e.nodes[i].nodeId && r.value.nodes[i].state == Running
            && r.value.nodes[i].owner == Some(owner) && r.value.nodes[i].runId == Some(run)
            && r.value.nodes[i].failure == e.nodes[i].failure && r.value.nodes[i].revision == e.nodes[i].revision)
  {
  }

  // ---------------------------------------------------------------- ending nodes

  lemma BlockingEffect(e: Execution, i: nat, n: NodeExecution, id: NodeId)
    requires i < |e.nodes| && n.nodeId == e.nodes[i].nodeId && n.state != Pending
    ensures var e1 := Replace(e, i, n);
      var after := e1.(nodes := BlockDependents(e.graph, e1.nodes, id));
      OnlyEntriesChange(e, after, 1) && OthersOnlyBlock(e, after, i, id) && after.nodes[i] == n
  {
    hide DependsOn;
  }

  lemma CancelStagedEffect(e: Execution, id: NodeId, owner: string, run: RunId)
    ensures var i, r := Find(e.nodes, id), CancelStagedNode(e, id, owner, run);
      && (r.Ok? <==> Awaits(e, i, owner, run))
      && (r.Ok? ==>
            && OnlyEntriesChange(e, r.value, 1) && OthersOnlyBlock(e, r.value, i, id)
            && Moved(e.nodes[i], r.value.nodes[i], Cancelled)
            && r.value.nodes[i].owner == Some(owner) && r.value.nodes[i].runId == Some(run)
            && r.value.nodes[i].failure.None?)
  {
    var i := Find(e.nodes, id);
    hide DependsOn, BlockDependents, OthersOnlyBlock;
    if Awaits(e, i, owner, run) {
      BlockingEffect(e, i, StagingCancelled(e.nodes[i]), id);
    }
  }

  /** What the end of an attempt leaves: its state, its failure and its run; the owner only if it is settled. */
  predicate Ended(n: NodeExecution, m: NodeExecution, state: NodeState, failure: Option<AdapterFailure>) {
    && Moved(n, m, state) && m.failure == failure && m.runId == n.runId
    && m.owner == (if state in {Succeeded, Failed, Cancelled} then n.owner else None)
  }

  lemma FinishEffect(e: Execution, id: NodeId, owner: string, state: NodeState, failure: Option<AdapterFailure>)
    ensures var i, r := Find(e.nodes, id), FinishTerminal(e, id, owner, state, failure);
      && (r.Ok? <==>
            && state in {Succeeded, Failed, Cancelled, Blocked, Uncertain}
            && i < |e.nodes| && e.nodes[i].state == Running && e.nodes[i].owner == Some(owner))
      && (r.Ok? ==>
            && OnlyEntriesChange(e, r.value, 1) && Ended(e.nodes[i], r.value.nodes[i], state, failure)
            && if state in {Failed, Cancelled, Blocked}
               then OthersOnlyBlock(e, r.value, i, id)
               else OthersStay(e, r.value, i))
  {
    hide DependsOn, BlockDependents, OthersOnlyBlock;
    var i := Find(e.nodes, id);
    if FinishTerminal(e, id, owner, state, failure).Ok? {
      BlockingEffect(e, i, Finished(e.nodes[i], owner, state, failure), id);
    }
  }

  lemma CompleteEffect(e: Execution, id: NodeId, owner: string, succeeded: bool)
    ensures var i, r := Find(e.nodes, id), Complete(e, id, owner, succeeded);
      && (r.Ok? <==> i < |e.nodes| && e.nodes[i].state == Running && e.nodes[i].owner == Some(owner))
      && (r.Ok? ==>
            && OnlyEntriesChange(e, r.value, 1)
            && Ended(e.nodes[i], r.value.nodes[i], if succeeded then Succeeded else Failed, None)
            && if succeeded then OthersStay(e, r.value, i) else OthersOnlyBlock(e, r.value, i, id))
  {
    hide FinishTerminal, OthersOnlyBlock;
    FinishEffect(e, id, owner, if succeeded then Succeeded else Failed, None);
  }

  lemma RetryEffect(digest: Digest, e: Execution, id: NodeId)
    requires Sound(digest, e)
    ensures var i, r := Find(e.nodes, id), RetryFailed(e, id);
      && (r.Ok? <==> StateOf(e.nodes, id) == Some(Failed))
      && (r.Ok? ==>
            && OnlyEntriesChange(e, r.value, 1) && StartsOver(e.nodes[i], r.value.nodes[i], Pending)
            && forall j :: 0 <= j < |e.nodes| && j != i ==>
                 || r.value.nodes[j] == e.nodes[j]
                 || (e.nodes[j].state == Blocked && StartsOver(e.nodes[j], r.value.nodes[j], Pending)))
  {
    hide Stuck;
  }

  lemma ReconcileEffect(e: Execution)
    ensures var after := ReconcileAfterRestart(e);
      var running := exists j :: 0 <= j < |e.nodes| && e.nodes[j].state == Running;
      && OnlyEntriesChange(e, after, if running then 1 else 0)
      && forall j :: 0 <= j < |e.nodes| ==>
           if e.nodes[j].state == Running
           then StartsOver(e.nodes[j], after.nodes[j], Uncertain)
           else after.nodes[j] == e.nodes[j]
  {
    if j :| 0 <= j < |e.nodes| && e.nodes[j].state == Running {
      assert e.nodes[j] in e.nodes;
    }
  }

  // ---------------------------------------------------------------- outputs

  lemma RecordEffect(digest: Digest, e: Execution, o: Output)
    ensures var i, r := Find(e.nodes, o.nodeId), RecordOutput(digest, e, o);
      && (r.Ok? <==>
            && !Blank(o.markdown) && Utf8Length(o.markdown) <= 262_144 && o.contentHash == digest(o.markdown)
            && (forall k :: 0 <= k < |e.outputs| ==> e.outputs[k].runId != o.runId)
            && i < |e.nodes| && e.nodes[i].state in {Succeeded, Failed}
            && e.nodes[i].runId in {None, Some(o.runId)})
      && (r.Ok? ==>
            && r.value.nodes == e.nodes && r.value.outputs == e.outputs + [o] && r.value.revision == e.revision
            && r.value.id == e.id && r.value.graph == e.graph && r.value.restartedFrom == e.restartedFrom)
  {
    hide Blank, Utf8Length;
  }

  /** The output of a node is the one of its bound run, or the newest if it has none. */
  lemma OutputMeans(digest: Digest, e: Execution, id: NodeId, o: Output)
    requires Sound(digest, e) && Find(e.nodes, id) < |e.nodes|
    ensures var run := e.nodes[Find(e.nodes, id)].runId;
      OutputOf(e, id) == Some(o) <==>
        exists k :: 0 <= k < |e.outputs| && e.outputs[k] == o && o.nodeId == id
          && if run.Some? then o.runId == run.value
             else forall l :: k < l < |e.outputs| ==> e.outputs[l].nodeId != id
  {
    hide WellFormed, Covers, TidyNodes, NeedsRespected;
    var run := e.nodes[Find(e.nodes, id)].runId;
    if run.Some? {
      FirstOutputMeans(e.outputs, id, run.value, o);
    } else {
      LatestOutputMeans(e.outputs, id, o);
    }
  }

  lemma FirstOutputMeans(outputs: seq<Output>, id: NodeId, run: RunId, o: Output)
    requires Distinct(OutputRuns(outputs))
    ensures FirstOutput(outputs, id, run) == Some(o) <==>
      exists k :: 0 <= k < |outputs| && outputs[k] == o && o.nodeId == id && o.runId == run
  {
    if k :| 0 <= k < |outputs| && outputs[k] == o && o.nodeId == id && o.runId == run {
      assert o in outputs && FirstOutput(outputs, id, run).Some?;
      OnePerRun(outputs, o, FirstOutput(outputs, id, run).value);
    }
  }

  lemma OnePerRun(outputs: seq<Output>, o: Output, p: Output)
    requires Distinct(OutputRuns(outputs)) && o in outputs && p in outputs && o.runId == p.runId
    ensures o == p
  {
    var i :| 0 <= i < |outputs| && outputs[i] == o;
    var j :| 0 <= j < |outputs| && outputs[j] == p;
    assert OutputRuns(outputs)[i] == OutputRuns(outputs)[j];
  }

  lemma {:induction false} LatestOutputMeans(outputs: seq<Output>, id: NodeId, o: Output)
    ensures LatestOutput(outputs, id) == Some(o) <==>
      exists k :: 0 <= k < |outputs| && outputs[k] == o && o.nodeId == id
        && forall l :: k < l < |outputs| ==> outputs[l].nodeId != id
  {
    if outputs != [] {
      var last := |outputs| - 1;
      LatestOutputMeans(outputs[..last], id, o);
      if outputs[last].nodeId == id {
        assert LatestOutput(outputs, id) == Some(outputs[last]);
      } else {
        assert LatestOutput(outputs, id) == LatestOutput(outputs[..last], id);
        if k :| 0 <= k < |outputs| && outputs[k] == o && o.nodeId == id
                && forall l :: k < l < |outputs| ==> outputs[l].nodeId != id {
          assert outputs[..last][k] == o;
        }
        if k :| 0 <= k < last && outputs[..last][k] == o && o.nodeId == id
                && forall l :: k < l < last ==> outputs[..last][l].nodeId != id {
          forall l | k < l < |outputs|
            ensures outputs[l].nodeId != id
          {
            assert l < last ==> outputs[..last][l] == outputs[l];
          }
        }
      }
    }
  }

  // ---------------------------------------------------------------- what validation demands of an entry

  /** The states in which somebody owns the node. */
  const OWNED: set<NodeState> := {AwaitingApproval, Running, Succeeded, Failed, Cancelled}

  lemma EntryIsValidExactlyWhen(n: NodeExecution)
    ensures ValidNodeState(n) <==>
      && (n.owner.Some? <==> n.state in OWNED)
      && (n.state == AwaitingApproval ==> !Blank(n.owner.value) && n.runId.Some? && n.failure.None?)
  {
    hide Blank;
  }
}
