/** What every operation keeps, and what therefore holds in every reachable execution. */
module ExecutionInvariant {
  import opened Prelude
  import opened WorkflowGraph
  import opened AdapterContract
  import opened GraphOperations

  /** How the states of a node and of one of its needs may stand to each other. */
  predicate Linked(node: Option<NodeState>, need: Option<NodeState>) {
    && (node in {Some(Pending), Some(Blocked)} || need == Some(Succeeded))
    && (IsFailing(need) ==> node == Some(Blocked))
  }

  /**
    Every node that is neither pending nor blocked has only succeeded needs, and every
    node with a failed, cancelled or blocked need is itself blocked.
   */
  ghost predicate NeedsRespected(g: Graph, nodes: seq<NodeExecution>) {
    forall a, b {:trigger Edge(g, a, b)} :: Edge(g, a, b) ==> Linked(StateOf(nodes, a), StateOf(nodes, b))
  }

  /** A pending node carries nothing over from an earlier attempt. */
  predicate TidyNode(n: NodeExecution) {
    ValidNodeState(n) && (n.state == Pending ==> n.runId.None? && n.failure.None?)
  }

  ghost predicate TidyNodes(nodes: seq<NodeExecution>) {
    forall i :: 0 <= i < |nodes| ==> TidyNode(nodes[i])
  }

  /** One entry for every node of the graph. */
  ghost predicate Covers(nodes: seq<NodeExecution>, g: Graph) {
    && |nodes| == |g.nodes| && UniqueNodes(nodes)
    && (forall i :: 0 <= i < |nodes| ==> nodes[i].nodeId in Ids(g))
    && forall id :: id in Ids(g) ==> Find(nodes, id) < |nodes|
  }

  ghost predicate Sound(digest: Digest, e: Execution) {
    && WellFormed(e.graph)
    && Covers(e.nodes, e.graph)
    && TidyNodes(e.nodes)
    && NeedsRespected(e.graph, e.nodes)
    && OutputsFit(digest, e)
  }

  // ---------------------------------------------------------------- lookups under change

  lemma FindUnique(nodes: seq<NodeExecution>, i: nat)
    requires UniqueNodes(nodes) && i < |nodes|
    ensures Find(nodes, nodes[i].nodeId) == i
  {
    assert Find(nodes, nodes[i].nodeId) <= i;
  }

  lemma FindSame(nodes: seq<NodeExecution>, others: seq<NodeExecution>, id: NodeId)
    requires SameNodes(nodes, others)
    ensures Find(nodes, id) == Find(others, id)
  {
    assert Find(nodes, id) <= Find(others, id);
  }

  /** The state of any node after a change that keeps the list's ids. */
  lemma StateAfter(nodes: seq<NodeExecution>, others: seq<NodeExecution>)
    requires SameNodes(nodes, others)
    ensures forall id {:trigger StateOf(others, id)} ::
      StateOf(others, id) ==
        (if Find(nodes, id) < |nodes| then Some(others[Find(nodes, id)].state) else None)
  {
    forall id
      ensures Find(nodes, id) == Find(others, id)
    {
      FindSame(nodes, others, id);
    }
  }

  lemma StateAfterReplace(nodes: seq<NodeExecution>, i: nat, n: NodeExecution)
    requires UniqueNodes(nodes) && i < |nodes| && n.nodeId == nodes[i].nodeId
    ensures SameNodes(nodes, nodes[i := n])
    ensures forall id {:trigger StateOf(nodes[i := n], id)} ::
      StateOf(nodes[i := n], id) == if id == n.nodeId then Some(n.state) else StateOf(nodes, id)
  {
    FindUnique(nodes, i);
    StateAfter(nodes, nodes[i := n]);
  }

  lemma CoversKept(nodes: seq<NodeExecution>, others: seq<NodeExecution>, g: Graph)
    requires Covers(nodes, g) && SameNodes(nodes, others)
    ensures Covers(others, g)
  {
    forall id | id in Ids(g)
      ensures Find(others, id) < |others|
    {
      FindSame(nodes, others, id);
    }
  }

  /** A ready node's needs have all succeeded. */
  lemma ReadyNeeds(e: Execution, i: nat)
    requires UniqueIds(e.graph) && i < |e.nodes| && e.nodes[i].nodeId in Ids(e.graph)
    requires IsReady(e, i)
    ensures NeedsDone(e.graph, e.nodes, e.nodes[i].nodeId)
  {
    EdgeOfDefinition(e.graph, e.nodes[i].nodeId);
  }

  ghost predicate NeedsDone(g: Graph, nodes: seq<NodeExecution>, id: NodeId) {
    forall b {:trigger Edge(g, id, b)} :: Edge(g, id, b) ==> StateOf(nodes, b) == Some(Succeeded)
  }

  /** A node that is neither pending nor blocked can only have succeeded needs. */
  lemma StartedNeeds(g: Graph, nodes: seq<NodeExecution>, id: NodeId)
    requires NeedsRespected(g, nodes)
    requires StateOf(nodes, id) !in {Some(Pending), Some(Blocked)}
    ensures NeedsDone(g, nodes, id)
  {
  }

  // ---------------------------------------------------------------- one lemma per kind of change

  /** A node whose needs are done may move between unfinished and non-failing states. */
  lemma MoveKeeps(g: Graph, nodes: seq<NodeExecution>, i: nat, n: NodeExecution)
    requires UniqueNodes(nodes) && i < |nodes| && n.nodeId == nodes[i].nodeId
    requires NeedsRespected(g, nodes) && NeedsDone(g, nodes, n.nodeId)
    requires nodes[i].state != Succeeded && !IsFailing(Some(n.state))
    ensures NeedsRespected(g, nodes[i := n])
  {
    FindUnique(nodes, i);
    StateAfterReplace(nodes, i, n);
  }

  /** Changing what is recorded about a node, but not its state, keeps the links. */
  lemma RelabelKeeps(g: Graph, nodes: seq<NodeExecution>, i: nat, n: NodeExecution)
    requires UniqueNodes(nodes) && i < |nodes| && n.nodeId == nodes[i].nodeId && n.state == nodes[i].state
    requires NeedsRespected(g, nodes)
    ensures NeedsRespected(g, nodes[i := n])
  {
    FindUnique(nodes, i);
    StateAfterReplace(nodes, i, n);
  }

  /** The states after a node fails and its dependents are blocked. */
  lemma StateAfterBlocking(g: Graph, nodes: seq<NodeExecution>, failed: NodeId)
    requires UniqueNodes(nodes)
    ensures SameNodes(nodes, BlockDependents(g, nodes, failed))
    ensures forall id {:trigger StateOf(BlockDependents(g, nodes, failed), id)} ::
      StateOf(BlockDependents(g, nodes, failed), id) ==
        if StateOf(nodes, id) == Some(Pending) && DependsOn(g, id, failed) then Some(Blocked)
        else StateOf(nodes, id)
  {
    StateAfter(nodes, BlockDependents(g, nodes, failed));
  }

  lemma FailureKeeps(g: Graph, nodes: seq<NodeExecution>, i: nat, n: NodeExecution)
    requires UniqueNodes(nodes) && i < |nodes| && n.nodeId == nodes[i].nodeId
    requires NeedsRespected(g, nodes)
    requires nodes[i].state in {Running, AwaitingApproval} && IsFailing(Some(n.state))
    ensures NeedsRespected(g, BlockDependents(g, nodes[i := n], n.nodeId))
  {
    var id, failed := n.nodeId, nodes[i := n];
    var after := BlockDependents(g, failed, id);
    FindUnique(nodes, i);
    StateAfterReplace(nodes, i, n);
    StateAfterBlocking(g, failed, id);
    forall a, b | Edge(g, a, b)
      ensures Linked(StateOf(after, a), StateOf(after, b))
    {
      assert Linked(StateOf(nodes, a), StateOf(nodes, b));
      if b == id {
        DependsOnDirect(g, a, id);
      } else if DependsOn(g, b, id) {
        DependsOnExtend(g, a, b, id);
      }
    }
  }

  /** Every transitive dependent of a node that was running or staged ends blocked. */
  lemma FailureBlocksDependents(g: Graph, nodes: seq<NodeExecution>, i: nat, n: NodeExecution, a: NodeId)
    requires UniqueNodes(nodes) && i < |nodes| && n.nodeId == nodes[i].nodeId
    requires NeedsRespected(g, nodes)
    requires nodes[i].state in {Running, AwaitingApproval} && IsFailing(Some(n.state))
    requires DependsOn(g, a, n.nodeId)
    ensures StateOf(BlockDependents(g, nodes[i := n], n.nodeId), a) == Some(Blocked)
  {
    var id := n.nodeId;
    var after := BlockDependents(g, nodes[i := n], id);
    FailureKeeps(g, nodes, i, n);
    FindUnique(nodes, i);
    StateAfterReplace(nodes, i, n);
    StateAfterBlocking(g, nodes[i := n], id);
    assert StateOf(after, id) == Some(n.state);
    var p :| PathBetween(g, p, a, id);
    FailingEndBlocksPath(g, after, p);
  }

  /** All nodes on a path to a failing node are blocked. */
  lemma {:induction false} FailingEndBlocksPath(g: Graph, nodes: seq<NodeExecution>, p: seq<NodeId>)
    requires NeedsRespected(g, nodes) && IsPath(g, p) && p != []
    requires IsFailing(StateOf(nodes, p[|p| - 1]))
    ensures forall k :: 0 <= k < |p| - 1 ==> StateOf(nodes, p[k]) == Some(Blocked)
  {
    if |p| >= 2 {
      TailIsPath(g, p, 1);
      FailingEndBlocksPath(g, nodes, p[1..]);
      assert Edge(g, p[0], p[0 + 1]);
      assert IsFailing(StateOf(nodes, p[1]));
      forall k | 0 <= k < |p| - 1
        ensures StateOf(nodes, p[k]) == Some(Blocked)
      {
        assert k > 0 ==> p[k] == p[1..][k - 1];
      }
    }
  }

  // ---------------------------------------------------------------- retry

  lemma StuckMeans(g: Graph, nodes: seq<NodeExecution>, a: NodeId)
    requires NeedsRespected(g, nodes)
    ensures Stuck(g, nodes, a) <==>
            exists c :: DependsOn(g, a, c) && StateOf(nodes, c) in {Some(Failed), Some(Cancelled)}
  {
    if Stuck(g, nodes, a) {
      var p :| StuckPath(g, nodes, p, a);
      assert PathBetween(g, p, a, p[|p| - 1]);
    }
    if c :| DependsOn(g, a, c) && StateOf(nodes, c) in {Some(Failed), Some(Cancelled)} {
      var p :| PathBetween(g, p, a, c);
      FailingEndBlocksPath(g, nodes, p);
      assert StuckPath(g, nodes, p, a);
    }
  }

  lemma StateAfterReopening(g: Graph, nodes: seq<NodeExecution>)
    requires UniqueNodes(nodes)
    ensures SameNodes(nodes, ReopenUnstuck(g, nodes))
    ensures forall id {:trigger StateOf(ReopenUnstuck(g, nodes), id)} ::
      StateOf(ReopenUnstuck(g, nodes), id) ==
        if StateOf(nodes, id) == Some(Blocked) && !Stuck(g, nodes, id) then Some(Pending)
        else StateOf(nodes, id)
  {
    StateAfter(nodes, ReopenUnstuck(g, nodes));
  }

  lemma ReopeningKeeps(g: Graph, nodes: seq<NodeExecution>)
    requires UniqueNodes(nodes) && NeedsRespected(g, nodes)
    ensures NeedsRespected(g, ReopenUnstuck(g, nodes))
  {
    var after := ReopenUnstuck(g, nodes);
    StateAfterReopening(g, nodes);
    forall a, b | Edge(g, a, b)
      ensures Linked(StateOf(after, a), StateOf(after, b))
    {
      assert Linked(StateOf(nodes, a), StateOf(nodes, b));
      if IsFailing(StateOf(after, b)) {
        StuckExtends(g, nodes, a, b);
      }
    }
  }

  lemma StuckExtends(g: Graph, nodes: seq<NodeExecution>, a: NodeId, b: NodeId)
    requires Edge(g, a, b) && StateOf(nodes, a) == Some(Blocked)
    requires StateOf(nodes, b) in {Some(Failed), Some(Cancelled)} || Stuck(g, nodes, b)
    ensures Stuck(g, nodes, a)
  {
    if StateOf(nodes, b) in {Some(Failed), Some(Cancelled)} {
      assert StuckPath(g, nodes, [a, b], a);
    } else {
      var p :| StuckPath(g, nodes, p, b);
      assert StuckPath(g, nodes, [a] + p, a);
    }
  }

  // ---------------------------------------------------------------- claiming and reconciling

  lemma ClaimPlacesKeeps(e: Execution, places: seq<nat>, owner: string)
    requires UniqueIds(e.graph) && Covers(e.nodes, e.graph) && NeedsRespected(e.graph, e.nodes)
    requires forall j :: 0 <= j < |places| ==> places[j] < |e.nodes| && IsReady(e, places[j])
    ensures NeedsRespected(e.graph, ClaimPlaces(e.nodes, places, owner))
  {
    hide IsReady, UniqueIds, Covers, Edge, StateOf;
    var after := ClaimPlaces(e.nodes, places, owner);
    forall a, b | Edge(e.graph, a, b)
      ensures Linked(StateOf(after, a), StateOf(after, b))
    {
      assert Linked(StateOf(e.nodes, a), StateOf(e.nodes, b));
      StateOfClaimed(e, places, owner, a);
      StateOfClaimed(e, places, owner, b);
      NeedsOfClaimed(e, places, a);
      NeedsOfClaimed(e, places, b);
    }
  }

  lemma StateOfClaimed(e: Execution, places: seq<nat>, owner: string, id: NodeId)
    ensures StateOf(ClaimPlaces(e.nodes, places, owner), id)
            == if Find(e.nodes, id) < |e.nodes| && Find(e.nodes, id) in places then Some(Running)
               else StateOf(e.nodes, id)
  {
    FindSame(e.nodes, ClaimPlaces(e.nodes, places, owner), id);
  }

  /** Either a node is not among the claimed places, or it was pending with its needs done. */
  lemma NeedsOfClaimed(e: Execution, places: seq<nat>, id: NodeId)
    requires UniqueIds(e.graph) && Covers(e.nodes, e.graph)
    requires forall j :: 0 <= j < |places| ==> places[j] < |e.nodes| && IsReady(e, places[j])
    ensures Find(e.nodes, id) in places ==>
              Find(e.nodes, id) < |e.nodes| && StateOf(e.nodes, id) == Some(Pending) && NeedsDone(e.graph, e.nodes, id)
  {
    var i := Find(e.nodes, id);
    if i in places {
      var j :| 0 <= j < |places| && places[j] == i;
      ReadyNeeds(e, i);
    }
  }

  lemma ReconcilingKeeps(g: Graph, nodes: seq<NodeExecution>)
    requires UniqueNodes(nodes) && NeedsRespected(g, nodes)
    ensures NeedsRespected(g, Reconciled(nodes))
  {
    var after := Reconciled(nodes);
    StateAfter(nodes, after);
    forall a, b | Edge(g, a, b)
      ensures Linked(StateOf(after, a), StateOf(after, b))
    {
      assert Linked(StateOf(nodes, a), StateOf(nodes, b));
    }
  }

  // ---------------------------------------------------------------- every operation keeps Sound

  /** All but the links follows from the places being kept and the entries being tidy. */
  lemma SoundFrom(digest: Digest, e: Execution, after: Execution)
    requires Sound(digest, e)
    requires after.graph == e.graph && after.outputs == e.outputs && SameNodes(e.nodes, after.nodes)
    requires TidyNodes(after.nodes) && NeedsRespected(e.graph, after.nodes)
    ensures Sound(digest, after)
  {
    CoversKept(e.nodes, after.nodes, e.graph);
  }

  lemma StartedCovers(id: ExecutionId, g: Graph)
    requires UniqueIds(g)
    ensures Covers(Started(id, g).nodes, g)
  {
    var e := Started(id, g);
    forall i, j | 0 <= i < j < |e.nodes|
      ensures e.nodes[i].nodeId != e.nodes[j].nodeId
    {
      assert NodeIds(g.nodes)[i] != NodeIds(g.nodes)[j];
    }
    forall i | 0 <= i < |e.nodes|
      ensures e.nodes[i].nodeId in Ids(g)
    {
      assert NodeIds(g.nodes)[i] in NodeIds(g.nodes);
    }
    forall a | a in Ids(g)
      ensures Find(e.nodes, a) < |e.nodes|
    {
      var i :| 0 <= i < |g.nodes| && NodeIds(g.nodes)[i] == a;
      assert e.nodes[i].nodeId == a;
    }
  }

  lemma PendingIsRespected(g: Graph, nodes: seq<NodeExecution>)
    requires ClosedNeeds(g) && Covers(nodes, g)
    requires forall i :: 0 <= i < |nodes| ==> nodes[i].state == Pending
    ensures NeedsRespected(g, nodes)
  {
    hide Ids;
  }

  lemma StartedIsSound(digest: Digest, id: ExecutionId, g: Graph)
    requires WellFormed(g)
    ensures Sound(digest, Started(id, g))
  {
    hide WellFormed, Covers, NeedsRespected, UniqueIds, ClosedNeeds, HasCycle, IsResearchJoin;
    WellFormedFacts(g);
    StartedCovers(id, g);
    PendingIsRespected(g, Started(id, g).nodes);
  }

  lemma ClaimPlacesIsTidy(nodes: seq<NodeExecution>, places: seq<nat>, owner: string)
    requires TidyNodes(nodes)
    ensures TidyNodes(ClaimPlaces(nodes, places, owner))
  {
  }

  lemma ClaimPlacesIsSound(digest: Digest, e: Execution, places: seq<nat>, owner: string, revision: nat)
    requires Sound(digest, e)
    requires forall j :: 0 <= j < |places| ==> places[j] < |e.nodes| && IsReady(e, places[j])
    ensures Sound(digest, e.(nodes := ClaimPlaces(e.nodes, places, owner), revision := revision))
  {
    WellFormedFacts(e.graph);
    ClaimPlacesKeeps(e, places, owner);
    ClaimPlacesIsTidy(e.nodes, places, owner);
    SoundFrom(digest, e, e.(nodes := ClaimPlaces(e.nodes, places, owner), revision := revision));
  }

  lemma ClaimReadyIsSound(digest: Digest, e: Execution, owner: string, limit: nat)
    requires Sound(digest, e) && ClaimReady(e, owner, limit).Ok?
    ensures Sound(digest, ClaimReady(e, owner, limit).value.1)
  {
    ClaimPlacesIsSound(digest, e, Chosen(e, limit), owner, ClaimReady(e, owner, limit).value.1.revision);
  }

  /** The operations that only move one node whose needs are done. */
  lemma MoveIsSound(digest: Digest, e: Execution, i: nat, n: NodeExecution)
    requires Sound(digest, e) && i < |e.nodes| && n.nodeId == e.nodes[i].nodeId && TidyNode(n)
    requires e.nodes[i].state != Succeeded && !IsFailing(Some(n.state))
    requires NeedsDone(e.graph, e.nodes, n.nodeId)
    ensures Sound(digest, Replace(e, i, n))
  {
    MoveKeeps(e.graph, e.nodes, i, n);
    SoundFrom(digest, e, Replace(e, i, n));
  }

  lemma NeedsOfPlace(digest: Digest, e: Execution, i: nat)
    requires Sound(digest, e) && i < |e.nodes|
    requires e.nodes[i].state !in {Pending, Blocked} || IsReady(e, i)
    ensures NeedsDone(e.graph, e.nodes, e.nodes[i].nodeId)
  {
    WellFormedFacts(e.graph);
    if IsReady(e, i) {
      ReadyNeeds(e, i);
    } else {
      FindUnique(e.nodes, i);
      StartedNeeds(e.graph, e.nodes, e.nodes[i].nodeId);
    }
  }

  /** The operations that fail one node and block its dependents. */
  lemma FailureIsSound(digest: Digest, e: Execution, i: nat, n: NodeExecution)
    requires Sound(digest, e) && i < |e.nodes| && n.nodeId == e.nodes[i].nodeId && TidyNode(n)
    requires e.nodes[i].state in {Running, AwaitingApproval} && IsFailing(Some(n.state))
    ensures Sound(digest, Replace(e, i, n).(nodes := BlockDependents(e.graph, Replace(e, i, n).nodes, n.nodeId)))
  {
    FailureKeeps(e.graph, e.nodes, i, n);
    FailureIsTidy(e.graph, e.nodes, i, n);
    hide UniqueNodes, NeedsRespected, WellFormed, OutputsFit, TidyNodes;
    SoundFrom(digest, e, Replace(e, i, n).(nodes := BlockDependents(e.graph, Replace(e, i, n).nodes, n.nodeId)));
  }

  lemma FailureIsTidy(g: Graph, nodes: seq<NodeExecution>, i: nat, n: NodeExecution)
    requires TidyNodes(nodes) && i < |nodes| && n.nodeId == nodes[i].nodeId && TidyNode(n)
    ensures SameNodes(nodes, BlockDependents(g, nodes[i := n], n.nodeId))
    ensures TidyNodes(BlockDependents(g, nodes[i := n], n.nodeId))
  {
  }

  lemma RetryIsSound(digest: Digest, e: Execution, id: NodeId)
    requires Sound(digest, e) && RetryFailed(e, id).Ok?
    ensures Sound(digest, RetryFailed(e, id).value)
  {
    var i := Find(e.nodes, id);
    NeedsOfPlace(digest, e, i);
    MoveIsSound(digest, e, i, Reopened(e.nodes[i]));
    var e1 := Replace(e, i, Reopened(e.nodes[i]));
    ReopeningKeeps(e.graph, e1.nodes);
    SoundFrom(digest, e1, RetryFailed(e, id).value);
  }

  lemma BindIsSound(digest: Digest, e: Execution, id: NodeId, owner: string, run: RunId)
    requires Sound(digest, e) && BindRun(e, id, owner, run).Ok?
    ensures Sound(digest, BindRun(e, id, owner, run).value)
  {
    var i := Find(e.nodes, id);
    RelabelKeeps(e.graph, e.nodes, i, e.nodes[i].(runId := Some(run)));
    SoundFrom(digest, e, BindRun(e, id, owner, run).value);
  }

  lemma RecordIsSound(digest: Digest, e: Execution, o: Output)
    requires Sound(digest, e) && RecordOutput(digest, e, o).Ok?
    ensures Sound(digest, RecordOutput(digest, e, o).value)
  {
    var after := RecordOutput(digest, e, o).value;
    assert Find(e.nodes, o.nodeId) < |e.nodes|;
    forall i, j | 0 <= i < j < |after.outputs|
      ensures OutputRuns(after.outputs)[i] != OutputRuns(after.outputs)[j]
    {
      assert after.outputs[i] == e.outputs[i];
      if j < |e.outputs| {
        assert OutputRuns(e.outputs)[i] != OutputRuns(e.outputs)[j];
      }
    }
  }

  lemma ClaimNodeIsSound(digest: Digest, e: Execution, id: NodeId, owner: string)
    requires Sound(digest, e) && ClaimNode(e, id, owner).Ok?
    ensures Sound(digest, ClaimNode(e, id, owner).value)
  {
    var i := Find(e.nodes, id);
    NeedsOfPlace(digest, e, i);
    MoveIsSound(digest, e, i, Claimed(e.nodes[i], owner));
  }

  lemma StageIsSound(digest: Digest, e: Execution, id: NodeId, owner: string, run: RunId)
    requires Sound(digest, e) && StageNode(e, id, owner, run).Ok?
    ensures Sound(digest, StageNode(e, id, owner, run).value)
  {
    var i := Find(e.nodes, id);
    NeedsOfPlace(digest, e, i);
    MoveIsSound(digest, e, i, Staged(e.nodes[i], owner, run));
  }

  lemma ActivateIsSound(digest: Digest, e: Execution, id: NodeId, owner: string, run: RunId)
    requires Sound(digest, e) && ActivateStagedNode(e, id, owner, run).Ok?
    ensures Sound(digest, ActivateStagedNode(e, id, owner, run).value)
  {
    var i := Find(e.nodes, id);
    NeedsOfPlace(digest, e, i);
    MoveIsSound(digest, e, i, Activated(e.nodes[i]));
  }

  lemma CancelIsSound(digest: Digest, e: Execution, id: NodeId, owner: string, run: RunId)
    requires Sound(digest, e) && CancelStagedNode(e, id, owner, run).Ok?
    ensures Sound(digest, CancelStagedNode(e, id, owner, run).value)
  {
    var i := Find(e.nodes, id);
    FailureIsSound(digest, e, i, StagingCancelled(e.nodes[i]));
  }

  lemma FinishIsSound(digest: Digest, e: Execution, id: NodeId, owner: string, state: NodeState,
                      failure: Option<AdapterFailure>)
    requires Sound(digest, e) && FinishTerminal(e, id, owner, state, failure).Ok?
    ensures Sound(digest, FinishTerminal(e, id, owner, state, failure).value)
  {
    var i := Find(e.nodes, id);
    var n := Finished(e.nodes[i], owner, state, failure);
    if IsFailing(Some(state)) {
      FailureIsSound(digest, e, i, n);
    } else {
      NeedsOfPlace(digest, e, i);
      MoveIsSound(digest, e, i, n);
    }
  }

  lemma ReconcileIsSound(digest: Digest, e: Execution)
    requires Sound(digest, e)
    ensures Sound(digest, ReconcileAfterRestart(e))
  {
    ReconcilingKeeps(e.graph, e.nodes);
    SoundFrom(digest, e, ReconcileAfterRestart(e));
  }
}
