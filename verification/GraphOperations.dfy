/** The state of one graph execution as a value, and what each operation does to it. */
module GraphOperations {
  import opened Prelude
  import opened WorkflowGraph
  import opened AdapterContract

  type ExecutionId = nat

  datatype NodeState =
    | Pending | AwaitingApproval | Running | Succeeded | Failed | Cancelled | Blocked | Uncertain

  datatype NodeExecution = NodeExecution(
    nodeId: NodeId, state: NodeState, owner: Option<string>, revision: nat,
    runId: Option<RunId>, failure: Option<AdapterFailure>)

  datatype Output = Output(nodeId: NodeId, runId: RunId, contentHash: string, markdown: string)

  datatype Execution = Execution(
    id: ExecutionId, graph: Graph, nodes: seq<NodeExecution>, outputs: seq<Output>,
    restartedFrom: Option<ExecutionId>, revision: nat)

  type Digest = string -> string

  const MAX_NODE_OUTPUT_BYTES: nat := 256 * 1024

  // ---------------------------------------------------------------- looking things up

  /** Position of the first entry for this node, or the list's length. */
  function Find(nodes: seq<NodeExecution>, id: NodeId): (i: nat)
    ensures i <= |nodes|
    ensures i < |nodes| ==> nodes[i].nodeId == id
    ensures forall k :: 0 <= k < i ==> nodes[k].nodeId != id
  {
    FirstWhere(nodes, (n: NodeExecution) => n.nodeId == id)
  }

  function StateOf(nodes: seq<NodeExecution>, id: NodeId): Option<NodeState> {
    var i := Find(nodes, id);
    if i < |nodes| then Some(nodes[i].state) else None
  }

  ghost predicate UniqueNodes(nodes: seq<NodeExecution>) {
    forall i, j :: 0 <= i < j < |nodes| ==> nodes[i].nodeId != nodes[j].nodeId
  }

  /** The two lists describe the same nodes in the same places. */
  ghost predicate SameNodes(nodes: seq<NodeExecution>, others: seq<NodeExecution>) {
    |nodes| == |others| && forall i :: 0 <= i < |nodes| ==> nodes[i].nodeId == others[i].nodeId
  }

  /** Every dependency of the node has succeeded. */
  predicate NeedsSucceeded(nodes: seq<NodeExecution>, needs: seq<NodeId>) {
    forall d | d in needs :: StateOf(nodes, d) == Some(Succeeded)
  }

  predicate IsReady(e: Execution, i: nat)
    requires i < |e.nodes|
  {
    && e.nodes[i].state == Pending
    && var k := FindNode(e.graph.nodes, e.nodes[i].nodeId);
    && k < |e.graph.nodes|
    && NeedsSucceeded(e.nodes, e.graph.nodes[k].needs)
  }

  predicate IsFailing(state: Option<NodeState>) {
    state in {Some(Failed), Some(Cancelled), Some(Blocked)}
  }

  // ---------------------------------------------------------------- outputs

  predicate ValidOutput(digest: Digest, o: Output) {
    && !Blank(o.markdown) && Utf8Length(o.markdown) <= MAX_NODE_OUTPUT_BYTES
    && o.contentHash == digest(o.markdown)
  }

  function FirstOutput(outputs: seq<Output>, id: NodeId, run: RunId): (r: Option<Output>)
    ensures r.Some? ==> r.value in outputs && r.value.nodeId == id && r.value.runId == run
    ensures r.None? ==> forall o :: o in outputs ==> o.nodeId != id || o.runId != run
  {
    if outputs == [] then None
    else if outputs[0].nodeId == id && outputs[0].runId == run then Some(outputs[0])
    else FirstOutput(outputs[1..], id, run)
  }

  function LatestOutput(outputs: seq<Output>, id: NodeId): (r: Option<Output>)
    ensures r.Some? ==> r.value in outputs && r.value.nodeId == id
    ensures r.None? ==> forall o :: o in outputs ==> o.nodeId != id
  {
    if outputs == [] then None
    else
      var last := |outputs| - 1;
      assert outputs == outputs[..last] + [outputs[last]];
      if outputs[last].nodeId == id then Some(outputs[last])
      else LatestOutput(outputs[..last], id)
  }

  /** The output of the node's current attempt; without a bound run, its latest output. */
  function OutputOf(e: Execution, id: NodeId): Option<Output> {
    var i := Find(e.nodes, id);
    if i < |e.nodes| && e.nodes[i].runId.Some? then FirstOutput(e.outputs, id, e.nodes[i].runId.value)
    else LatestOutput(e.outputs, id)
  }

  predicate RunInUse(e: Execution, run: RunId) {
    || (exists n | n in e.nodes :: n.runId == Some(run))
    || (exists o | o in e.outputs :: o.runId == run)
  }

  // ---------------------------------------------------------------- one node's change

  function Fresh(id: NodeId): NodeExecution {
    NodeExecution(id, Pending, None, 0, None, None)
  }

  function Claimed(n: NodeExecution, owner: string): NodeExecution {
    n.(state := Running, owner := Some(owner), failure := None, revision := n.revision + 1)
  }

  function Staged(n: NodeExecution, owner: string, run: RunId): NodeExecution {
    n.(state := AwaitingApproval, owner := Some(owner), runId := Some(run), failure := None, revision := n.revision + 1)
  }

  function Activated(n: NodeExecution): NodeExecution {
    n.(state := Running, revision := n.revision + 1)
  }

  function StagingCancelled(n: NodeExecution): NodeExecution {
    n.(state := Cancelled, failure := None, revision := n.revision + 1)
  }

  function Finished(n: NodeExecution, owner: string, state: NodeState, failure: Option<AdapterFailure>): NodeExecution {
    n.(state := state,
       owner := if state in {Succeeded, Failed, Cancelled} then Some(owner) else None,
       failure := failure, revision := n.revision + 1)
  }

  function Reopened(n: NodeExecution): NodeExecution {
    n.(state := Pending, owner := None, runId := None, failure := None, revision := n.revision + 1)
  }

  function MarkedBlocked(n: NodeExecution): NodeExecution {
    n.(state := Blocked, revision := n.revision + 1)
  }

  function MarkedUncertain(n: NodeExecution): NodeExecution {
    n.(state := Uncertain, owner := None, runId := None, failure := None, revision := n.revision + 1)
  }

  // ---------------------------------------------------------------- the fixpoints, by what they mean

  /** Blocking: exactly the pending transitive dependents of `failed` become blocked. */
  ghost function BlockDependents(g: Graph, nodes: seq<NodeExecution>, failed: NodeId): (r: seq<NodeExecution>)
    ensures SameNodes(r, nodes)
    ensures forall i :: 0 <= i < |nodes| ==>
      r[i] == if nodes[i].state == Pending && DependsOn(g, nodes[i].nodeId, failed)
              then MarkedBlocked(nodes[i]) else nodes[i]
  {
    seq(|nodes|, i requires 0 <= i < |nodes| =>
      if nodes[i].state == Pending && DependsOn(g, nodes[i].nodeId, failed)
      then MarkedBlocked(nodes[i]) else nodes[i])
  }

  /** A chain of blocked nodes that ends in a failed or cancelled dependency. */
  ghost predicate StuckPath(g: Graph, nodes: seq<NodeExecution>, p: seq<NodeId>, id: NodeId) {
    && |p| >= 2 && p[0] == id && IsPath(g, p)
    && (forall k :: 0 <= k < |p| - 1 ==> StateOf(nodes, p[k]) == Some(Blocked))
    && StateOf(nodes, p[|p| - 1]) in {Some(Failed), Some(Cancelled)}
  }

  ghost predicate Stuck(g: Graph, nodes: seq<NodeExecution>, id: NodeId) {
    exists p :: StuckPath(g, nodes, p, id)
  }

  /** Reopening: exactly the blocked nodes that are not stuck become pending again. */
  ghost function ReopenUnstuck(g: Graph, nodes: seq<NodeExecution>): (r: seq<NodeExecution>)
    ensures SameNodes(r, nodes)
    ensures forall i :: 0 <= i < |nodes| ==>
      r[i] == if nodes[i].state == Blocked && !Stuck(g, nodes, nodes[i].nodeId)
              then Reopened(nodes[i]) else nodes[i]
  {
    seq(|nodes|, i requires 0 <= i < |nodes| =>
      if nodes[i].state == Blocked && !Stuck(g, nodes, nodes[i].nodeId)
      then Reopened(nodes[i]) else nodes[i])
  }

  /** Reconciling: every running node becomes uncertain. */
  function Reconciled(nodes: seq<NodeExecution>): (r: seq<NodeExecution>)
    ensures SameNodes(r, nodes)
    ensures forall i :: 0 <= i < |nodes| ==>
      r[i] == if nodes[i].state == Running then MarkedUncertain(nodes[i]) else nodes[i]
  {
    seq(|nodes|, i requires 0 <= i < |nodes| =>
      if nodes[i].state == Running then MarkedUncertain(nodes[i]) else nodes[i])
  }

  /** Places of the ready nodes from `k` on, in list order. */
  function ReadyFrom(e: Execution, k: nat): (ready: seq<nat>)
    requires k <= |e.nodes|
    ensures |ready| <= |e.nodes| - k
    ensures forall j :: 0 <= j < |ready| ==> k <= ready[j] < |e.nodes| && IsReady(e, ready[j])
    decreases |e.nodes| - k
  {
    if k == |e.nodes| then []
    else if IsReady(e, k) then [k] + ReadyFrom(e, k + 1)
    else ReadyFrom(e, k + 1)
  }

  function Take<T>(s: seq<T>, limit: nat): seq<T> {
    if |s| <= limit then s else s[..limit]
  }

  /** The places `claim_ready` claims: the first `limit` ready nodes. */
  function Chosen(e: Execution, limit: nat): (chosen: seq<nat>)
    ensures forall j :: 0 <= j < |chosen| ==> chosen[j] < |e.nodes| && IsReady(e, chosen[j])
  {
    Take(ReadyFrom(e, 0), limit)
  }

  function ClaimPlaces(nodes: seq<NodeExecution>, places: seq<nat>, owner: string): (r: seq<NodeExecution>)
    ensures SameNodes(r, nodes)
    ensures forall i :: 0 <= i < |nodes| ==> r[i] == if i in places then Claimed(nodes[i], owner) else nodes[i]
  {
    seq(|nodes|, i requires 0 <= i < |nodes| => if i in places then Claimed(nodes[i], owner) else nodes[i])
  }

  function IdsAt(nodes: seq<NodeExecution>, places: seq<nat>): (ids: seq<NodeId>)
    requires forall j :: 0 <= j < |places| ==> places[j] < |nodes|
    ensures |ids| == |places| && forall k :: 0 <= k < |places| ==> ids[k] == nodes[places[k]].nodeId
  {
    seq(|places|, k requires 0 <= k < |places| => nodes[places[k]].nodeId)
  }

  // ---------------------------------------------------------------- the operations

  type Change = Result<Execution, GraphError>

  function Started(id: ExecutionId, g: Graph): (e: Execution)
    ensures e.graph == g && |e.nodes| == |g.nodes|
    ensures forall i :: 0 <= i < |g.nodes| ==> e.nodes[i] == Fresh(g.nodes[i].id)
  {
    Execution(id, g, seq(|g.nodes|, i requires 0 <= i < |g.nodes| => Fresh(g.nodes[i].id)), [], None, 0)
  }

  /** Replaces the node at place `i` and counts one more revision of the execution. */
  function Replace(e: Execution, i: nat, n: NodeExecution): Execution
    requires i < |e.nodes|
  {
    e.(nodes := e.nodes[i := n], revision := e.revision + 1)
  }

  function ClaimReady(e: Execution, owner: string, limit: nat): Result<(seq<NodeId>, Execution), GraphError> {
    if Blank(owner) || limit == 0 then Err(InvalidExecution)
    else
      var places := Chosen(e, limit);
      Ok((IdsAt(e.nodes, places),
          e.(nodes := ClaimPlaces(e.nodes, places, owner),
             revision := e.revision + if places == [] then 0 else 1)))
  }

  function ClaimNode(e: Execution, id: NodeId, owner: string): Change {
    var i := Find(e.nodes, id);
    if Blank(owner) || i == |e.nodes| || !IsReady(e, i) then Err(InvalidExecution)
    else Ok(Replace(e, i, Claimed(e.nodes[i], owner)))
  }

  function StageNode(e: Execution, id: NodeId, owner: string, run: RunId): Change {
    var i := Find(e.nodes, id);
    if Blank(owner) || RunInUse(e, run) || i == |e.nodes| || !IsReady(e, i)
       || e.nodes[i].owner.Some? || e.nodes[i].runId.Some?
    then Err(InvalidExecution)
    else Ok(Replace(e, i, Staged(e.nodes[i], owner, run)))
  }

  predicate IsStagedAs(n: NodeExecution, owner: string, run: RunId) {
    n.state == AwaitingApproval && n.owner == Some(owner) && n.runId == Some(run)
  }

  function ActivateStagedNode(e: Execution, id: NodeId, owner: string, run: RunId): Change {
    var i := Find(e.nodes, id);
    if i == |e.nodes| || !IsStagedAs(e.nodes[i], owner, run) then Err(InvalidExecution)
    else Ok(Replace(e, i, Activated(e.nodes[i])))
  }

  ghost function CancelStagedNode(e: Execution, id: NodeId, owner: string, run: RunId): Change {
    var i := Find(e.nodes, id);
    if i == |e.nodes| || !IsStagedAs(e.nodes[i], owner, run) then Err(InvalidExecution)
    else
      var e1 := Replace(e, i, StagingCancelled(e.nodes[i]));
      Ok(e1.(nodes := BlockDependents(e.graph, e1.nodes, id)))
  }

  function BindRun(e: Execution, id: NodeId, owner: string, run: RunId): Change {
    var i := Find(e.nodes, id);
    if i == |e.nodes| || e.nodes[i].state != Running || e.nodes[i].owner != Some(owner) || e.nodes[i].runId.Some?
    then Err(InvalidExecution)
    else Ok(e.(nodes := e.nodes[i := e.nodes[i].(runId := Some(run))]))
  }

  predicate IsRunningFor(e: Execution, i: nat, owner: string) {
    i < |e.nodes| && e.nodes[i].state == Running && e.nodes[i].owner == Some(owner)
  }

  ghost function FinishTerminal(e: Execution, id: NodeId, owner: string, state: NodeState,
                                failure: Option<AdapterFailure>): Change {
    var i := Find(e.nodes, id);
    if state in {Pending, AwaitingApproval, Running} || !IsRunningFor(e, i, owner) then Err(InvalidExecution)
    else
      var e1 := Replace(e, i, Finished(e.nodes[i], owner, state, failure));
      Ok(if IsFailing(Some(state)) then e1.(nodes := BlockDependents(e.graph, e1.nodes, id)) else e1)
  }

  ghost function Complete(e: Execution, id: NodeId, owner: string, succeeded: bool): Change {
    FinishTerminal(e, id, owner, if succeeded then Succeeded else Failed, None)
  }

  function RecordOutput(digest: Digest, e: Execution, o: Output): Change {
    var i := Find(e.nodes, o.nodeId);
    if || !ValidOutput(digest, o)
       || (exists existing | existing in e.outputs :: existing.runId == o.runId)
       || i == |e.nodes|
       || e.nodes[i].state !in {Succeeded, Failed}
       || (e.nodes[i].runId.Some? && e.nodes[i].runId.value != o.runId)
    then Err(InvalidOutput)
    else Ok(e.(outputs := e.outputs + [o]))
  }

  ghost function RetryFailed(e: Execution, id: NodeId): Change {
    var i := Find(e.nodes, id);
    if i == |e.nodes| || e.nodes[i].state != Failed then Err(InvalidExecution)
    else
      var e1 := Replace(e, i, Reopened(e.nodes[i]));
      Ok(e1.(nodes := ReopenUnstuck(e.graph, e1.nodes)))
  }

  function ReconcileAfterRestart(e: Execution): Execution {
    e.(nodes := Reconciled(e.nodes),
       revision := e.revision + if exists n | n in e.nodes :: n.state == Running then 1 else 0)
  }

  // ---------------------------------------------------------------- the code's own validation

  predicate ValidNodeState(n: NodeExecution) {
    match n.state
    case Pending | Blocked | Uncertain => n.owner.None?
    case AwaitingApproval => n.owner.Some? && !Blank(n.owner.value) && n.runId.Some? && n.failure.None?
    case Running | Succeeded | Failed | Cancelled => n.owner.Some?
  }

  function ExecIds(nodes: seq<NodeExecution>): (ids: seq<NodeId>)
    ensures |ids| == |nodes| && forall i :: 0 <= i < |nodes| ==> ids[i] == nodes[i].nodeId
  {
    seq(|nodes|, i requires 0 <= i < |nodes| => nodes[i].nodeId)
  }

  function OutputRuns(outputs: seq<Output>): (runs: seq<RunId>)
    ensures |runs| == |outputs| && forall i :: 0 <= i < |outputs| ==> runs[i] == outputs[i].runId
  {
    seq(|outputs|, i requires 0 <= i < |outputs| => outputs[i].runId)
  }

  ghost predicate NodesFit(e: Execution) {
    && |e.nodes| == |e.graph.nodes| && Distinct(ExecIds(e.nodes))
    && forall n :: n in e.nodes ==> n.nodeId in Ids(e.graph) && ValidNodeState(n)
  }

  ghost predicate OutputsFit(digest: Digest, e: Execution) {
    && Distinct(OutputRuns(e.outputs))
    && forall o :: o in e.outputs ==> ValidOutput(digest, o) && o.nodeId in Ids(e.graph)
  }

  /** What `GraphExecution::validate` answers. */
  ghost function ExecutionVerdict(digest: Digest, e: Execution): Option<GraphError> {
    if Verdict(e.graph).Some? then Verdict(e.graph)
    else if !NodesFit(e) then Some(InvalidExecution)
    else if !OutputsFit(digest, e) then Some(InvalidOutput)
    else None
  }
}
