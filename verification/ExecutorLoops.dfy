/** What the two fixpoint loops of the executor maintain, pass by pass. */
module ExecutorLoops {
  import opened Prelude
  import opened WorkflowGraph
  import opened GraphOperations
  import opened ExecutionInvariant

  // ---------------------------------------------------------------- facts for the loops

  /** The pending entries among `ids`, marked blocked. */
  ghost function MarkIn(nodes: seq<NodeExecution>, ids: set<NodeId>): (r: seq<NodeExecution>)
    ensures SameNodes(r, nodes)
    ensures forall i :: 0 <= i < |nodes| ==>
      r[i] == if nodes[i].state == Pending && nodes[i].nodeId in ids then MarkedBlocked(nodes[i]) else nodes[i]
  {
    seq(|nodes|, i requires 0 <= i < |nodes| =>
      if nodes[i].state == Pending && nodes[i].nodeId in ids then MarkedBlocked(nodes[i]) else nodes[i])
  }

  lemma MarkOne(nodes: seq<NodeExecution>, ids: set<NodeId>, id: NodeId)
    requires UniqueNodes(nodes) && id !in ids
    ensures var marked, i := MarkIn(nodes, ids), Find(MarkIn(nodes, ids), id);
      MarkIn(nodes, ids + {id}) ==
        if i < |marked| && marked[i].state == Pending then marked[i := MarkedBlocked(marked[i])] else marked
  {
    FindSame(nodes, MarkIn(nodes, ids), id);
    var marked, i := MarkIn(nodes, ids), Find(nodes, id);
    forall j | 0 <= j < |nodes|
      ensures nodes[j].nodeId == id <==> j == i
    {
      FindUnique(nodes, j);
    }
  }

  /** Everything gathered so far is the failed node or one of its dependents. */
  ghost predicate Gathered(g: Graph, failed: NodeId, ids: set<NodeId>) {
    && failed in ids && ids <= Ids(g) + {failed}
    && forall b :: b in ids ==> b == failed || DependsOn(g, b, failed)
  }

  predicate NeedsSome(node: Node, ids: set<NodeId>) {
    exists d | d in node.needs :: d in ids
  }

  ghost predicate ClosedUpTo(g: Graph, ids: set<NodeId>, k: nat) {
    forall j :: 0 <= j < k && j < |g.nodes| && NeedsSome(g.nodes[j], ids) ==> g.nodes[j].id in ids
  }

  lemma GatherOne(g: Graph, failed: NodeId, ids: set<NodeId>, k: nat)
    requires Gathered(g, failed, ids) && k < |g.nodes| && NeedsSome(g.nodes[k], ids)
    ensures Gathered(g, failed, ids + {g.nodes[k].id})
  {
    var node := g.nodes[k];
    var d :| d in node.needs && d in ids;
    assert Edge(g, node.id, d);
    if d == failed {
      DependsOnDirect(g, node.id, failed);
    } else {
      DependsOnExtend(g, node.id, d, failed);
    }
    assert NodeIds(g.nodes)[k] == node.id;
  }

  lemma {:induction false} ClosedHoldsPath(g: Graph, ids: set<NodeId>, p: seq<NodeId>)
    requires ClosedUpTo(g, ids, |g.nodes|) && IsPath(g, p) && p != [] && p[|p| - 1] in ids
    ensures p[0] in ids
  {
    if |p| >= 2 {
      TailIsPath(g, p, 1);
      ClosedHoldsPath(g, ids, p[1..]);
      assert Edge(g, p[0], p[0 + 1]);
      var i :| 0 <= i < |g.nodes| && g.nodes[i].id == p[0] && p[1] in g.nodes[i].needs;
      assert NeedsSome(g.nodes[i], ids);
    }
  }

  /** A closed gathering holds exactly the dependents, so marking it is blocking them. */
  lemma GatheredBlocks(g: Graph, nodes: seq<NodeExecution>, failed: NodeId, ids: set<NodeId>)
    requires Gathered(g, failed, ids) && ClosedUpTo(g, ids, |g.nodes|) && !HasCycle(g)
    ensures MarkIn(nodes, ids - {failed}) == BlockDependents(g, nodes, failed)
  {
    forall b
      ensures b in ids - {failed} <==> DependsOn(g, b, failed)
    {
      if DependsOn(g, b, failed) {
        var p :| PathBetween(g, p, b, failed);
        ClosedHoldsPath(g, ids, p);
        assert b != failed;
      }
    }
  }

  // ---------------------------------------------------------------- facts for reopening

  predicate HasFailingNeed(nodes: seq<NodeExecution>, node: Node) {
    exists d | d in node.needs :: IsFailing(StateOf(nodes, d))
  }

  /** `nodes` is `before` with some blocked entries reopened, none of which has a failing need. */
  ghost predicate PartlyReopened(g: Graph, before: seq<NodeExecution>, nodes: seq<NodeExecution>) {
    && SameNodes(before, nodes)
    && (forall i :: 0 <= i < |nodes| ==>
         nodes[i] == before[i] || (before[i].state == Blocked && nodes[i] == Reopened(before[i])))
    && forall i, d :: 0 <= i < |nodes| && nodes[i] != before[i] && Edge(g, nodes[i].nodeId, d) ==>
         !IsFailing(StateOf(nodes, d))
  }

  ghost predicate ReopenedAll(g: Graph, nodes: seq<NodeExecution>) {
    forall j :: 0 <= j < |g.nodes| && StateOf(nodes, g.nodes[j].id) == Some(Blocked) ==>
      HasFailingNeed(nodes, g.nodes[j])
  }

  /** Reopens the entries of these ids. */
  ghost function ReopenIn(nodes: seq<NodeExecution>, ids: seq<NodeId>): (r: seq<NodeExecution>)
    ensures SameNodes(r, nodes)
    ensures forall i :: 0 <= i < |nodes| ==> r[i] == if nodes[i].nodeId in ids then Reopened(nodes[i]) else nodes[i]
  {
    seq(|nodes|, i requires 0 <= i < |nodes| => if nodes[i].nodeId in ids then Reopened(nodes[i]) else nodes[i])
  }

  lemma ReopenOne(nodes: seq<NodeExecution>, ids: seq<NodeId>, id: NodeId)
    requires UniqueNodes(nodes) && id !in ids && Find(nodes, id) < |nodes|
    ensures var part, i := ReopenIn(nodes, ids), Find(ReopenIn(nodes, ids), id);
      i < |part| && ReopenIn(nodes, ids + [id]) == part[i := Reopened(part[i])]
  {
    FindSame(nodes, ReopenIn(nodes, ids), id);
    var i := Find(nodes, id);
    forall j | 0 <= j < |nodes|
      ensures nodes[j].nodeId == id <==> j == i
    {
      FindUnique(nodes, j);
    }
  }

  /** The ids one pass selects: blocked nodes with no failing need. */
  ghost predicate Selected(g: Graph, nodes: seq<NodeExecution>, ids: seq<NodeId>, k: nat) {
    && Distinct(ids)
    && (forall j :: 0 <= j < |ids| ==> StateOf(nodes, ids[j]) == Some(Blocked) && NoFailingNeed(g, nodes, ids[j]))
    && (forall j :: 0 <= j < |ids| ==> IdBefore(g, ids[j], k))
    && (forall j :: 0 <= j < k && j < |g.nodes| ==> Considered(g, nodes, ids, j))
  }

  ghost predicate Considered(g: Graph, nodes: seq<NodeExecution>, ids: seq<NodeId>, j: nat)
    requires j < |g.nodes|
  {
    StateOf(nodes, g.nodes[j].id) == Some(Blocked) && !HasFailingNeed(nodes, g.nodes[j]) ==> g.nodes[j].id in ids
  }

  ghost predicate IdBefore(g: Graph, id: NodeId, k: nat) {
    exists j :: 0 <= j < k && j < |g.nodes| && g.nodes[j].id == id
  }

  ghost predicate NoFailingNeed(g: Graph, nodes: seq<NodeExecution>, id: NodeId) {
    forall d {:trigger Edge(g, id, d)} :: Edge(g, id, d) ==> !IsFailing(StateOf(nodes, d))
  }

  lemma DefinitionAt(g: Graph, k: nat)
    requires UniqueIds(g) && k < |g.nodes|
    ensures g.nodes[k].id in Ids(g) && Definition(g, g.nodes[k].id) == g.nodes[k]
  {
    var i := FindNode(g.nodes, g.nodes[k].id);
    assert NodeIds(g.nodes)[i] == NodeIds(g.nodes)[k];
  }

  lemma NoFailingNeedAt(g: Graph, nodes: seq<NodeExecution>, k: nat)
    requires UniqueIds(g) && k < |g.nodes|
    ensures NoFailingNeed(g, nodes, g.nodes[k].id) <==> !HasFailingNeed(nodes, g.nodes[k])
  {
    DefinitionAt(g, k);
    EdgeOfDefinition(g, g.nodes[k].id);
  }

  lemma SelectOne(g: Graph, nodes: seq<NodeExecution>, ids: seq<NodeId>, k: nat)
    requires UniqueIds(g) && k < |g.nodes| && Selected(g, nodes, ids, k)
    requires StateOf(nodes, g.nodes[k].id) == Some(Blocked) && !HasFailingNeed(nodes, g.nodes[k])
    ensures Selected(g, nodes, ids + [g.nodes[k].id], k + 1)
  {
    NoFailingNeedAt(g, nodes, k);
    LaterIdIsNew(g, k);
    var id := g.nodes[k].id;
    assert IdBefore(g, id, k + 1);
    forall j | 0 <= j < |ids|
      ensures IdBefore(g, ids[j], k + 1)
    {
      assert IdBefore(g, ids[j], k);
    }
    forall j | 0 <= j < k + 1
      ensures Considered(g, nodes, ids + [id], j)
    {
      assert j < k ==> Considered(g, nodes, ids, j);
    }
  }

  lemma SkipOne(g: Graph, nodes: seq<NodeExecution>, ids: seq<NodeId>, k: nat)
    requires k < |g.nodes| && Selected(g, nodes, ids, k)
    requires StateOf(nodes, g.nodes[k].id) != Some(Blocked) || HasFailingNeed(nodes, g.nodes[k])
    ensures Selected(g, nodes, ids, k + 1)
  {
    forall j | 0 <= j < |ids|
      ensures IdBefore(g, ids[j], k + 1)
    {
      assert IdBefore(g, ids[j], k);
    }
  }

  lemma LaterIdIsNew(g: Graph, k: nat)
    requires UniqueIds(g) && k < |g.nodes|
    ensures !IdBefore(g, g.nodes[k].id, k)
  {
    forall i | 0 <= i < k
      ensures g.nodes[i].id != g.nodes[k].id
    {
      assert NodeIds(g.nodes)[i] != NodeIds(g.nodes)[k];
    }
  }

  lemma StateAfterReopenIn(nodes: seq<NodeExecution>, ids: seq<NodeId>)
    requires forall j :: 0 <= j < |ids| ==> StateOf(nodes, ids[j]) == Some(Blocked)
    ensures forall id {:trigger StateOf(ReopenIn(nodes, ids), id)} ::
      StateOf(ReopenIn(nodes, ids), id) == if id in ids then Some(Pending) else StateOf(nodes, id)
  {
    StateAfter(nodes, ReopenIn(nodes, ids));
  }

  /** One pass over the selected nodes keeps the picture of a partial reopening. */
  lemma PassReopens(g: Graph, before: seq<NodeExecution>, nodes: seq<NodeExecution>, ids: seq<NodeId>)
    requires UniqueNodes(before) && PartlyReopened(g, before, nodes) && Selected(g, nodes, ids, |g.nodes|)
    ensures PartlyReopened(g, before, ReopenIn(nodes, ids))
  {
    var after := ReopenIn(nodes, ids);
    StateAfterReopenIn(nodes, ids);
    forall i | 0 <= i < |nodes| && after[i] != before[i]
      ensures before[i].state == Blocked && after[i] == Reopened(before[i]) && NoFailingNeed(g, after, after[i].nodeId)
    {
      if nodes[i].nodeId in ids {
        var j :| 0 <= j < |ids| && ids[j] == nodes[i].nodeId;
        FindUnique(nodes, i);
        assert NoFailingNeed(g, nodes, ids[j]);
      } else {
        assert NoFailingNeed(g, nodes, nodes[i].nodeId);
      }
    }
  }

  lemma NothingSelected(g: Graph, nodes: seq<NodeExecution>)
    requires Selected(g, nodes, [], |g.nodes|)
    ensures ReopenedAll(g, nodes)
  {
    forall j | 0 <= j < |g.nodes| && StateOf(nodes, g.nodes[j].id) == Some(Blocked)
      ensures HasFailingNeed(nodes, g.nodes[j])
    {
      assert Considered(g, nodes, [], j);
    }
  }

  ghost function BlockedPlaces(nodes: seq<NodeExecution>): set<nat> {
    set i | 0 <= i < |nodes| && nodes[i].state == Blocked
  }

  /** Each pass leaves strictly fewer blocked nodes. */
  lemma PassShrinks(nodes: seq<NodeExecution>, ids: seq<NodeId>)
    requires UniqueNodes(nodes) && ids != []
    requires forall j :: 0 <= j < |ids| ==> StateOf(nodes, ids[j]) == Some(Blocked)
    ensures BlockedPlaces(ReopenIn(nodes, ids)) < BlockedPlaces(nodes)
  {
    var i := Find(nodes, ids[0]);
    assert StateOf(nodes, ids[0]) == Some(Blocked);
    assert nodes[i].nodeId in ids;
    assert i in BlockedPlaces(nodes) && i !in BlockedPlaces(ReopenIn(nodes, ids));
  }

  // ---------------------------------------------------------------- the reopening fixpoint

  lemma {:induction false} StuckStaysBlocked(g: Graph, before: seq<NodeExecution>, nodes: seq<NodeExecution>,
                                             p: seq<NodeId>, id: NodeId)
    requires UniqueNodes(before) && PartlyReopened(g, before, nodes) && StuckPath(g, before, p, id)
    ensures StateOf(nodes, id) == Some(Blocked)
  {
    StateAfter(before, nodes);
    assert Edge(g, p[0], p[0 + 1]);
    assert StateOf(before, p[0]) == Some(Blocked);
    if |p| > 2 {
      TailIsPath(g, p, 1);
      assert StuckPath(g, before, p[1..], p[1]);
      StuckStaysBlocked(g, before, nodes, p[1..], p[1]);
    }
    assert IsFailing(StateOf(nodes, p[1]));
  }

  /** Reopening never touches a failed, cancelled or still blocked node. */
  lemma FailingIsOld(g: Graph, before: seq<NodeExecution>, nodes: seq<NodeExecution>, id: NodeId)
    requires PartlyReopened(g, before, nodes) && IsFailing(StateOf(nodes, id))
    ensures StateOf(before, id) == StateOf(nodes, id)
  {
    FindSame(before, nodes, id);
  }

  lemma FailingNeedOf(g: Graph, nodes: seq<NodeExecution>, id: NodeId) returns (d: NodeId)
    requires UniqueIds(g) && id in Ids(g) && ReopenedAll(g, nodes) && StateOf(nodes, id) == Some(Blocked)
    ensures Edge(g, id, d) && IsFailing(StateOf(nodes, d))
  {
    var k := FindNode(g.nodes, id);
    assert HasFailingNeed(nodes, g.nodes[k]);
    d :| d in g.nodes[k].needs && IsFailing(StateOf(nodes, d));
  }

  lemma {:induction false} StillBlockedIsStuck(g: Graph, before: seq<NodeExecution>, nodes: seq<NodeExecution>,
                                               rank: map<NodeId, nat>, id: NodeId)
    requires UniqueIds(g) && Ranked(g, Ids(g), rank) && id in Ids(g)
    requires UniqueNodes(before) && PartlyReopened(g, before, nodes) && ReopenedAll(g, nodes)
    requires StateOf(nodes, id) == Some(Blocked)
    ensures Stuck(g, before, id)
    decreases rank[id]
  {
    hide PartlyReopened, ReopenedAll, UniqueNodes, UniqueIds, Stuck, Edge, Ids, StateOf;
    var d := FailingNeedOf(g, nodes, id);
    FailingIsOld(g, before, nodes, id);
    FailingIsOld(g, before, nodes, d);
    if StateOf(nodes, d) == Some(Blocked) {
      StillBlockedIsStuck(g, before, nodes, rank, d);
    }
    StuckExtends(g, before, id, d);
  }

  /** When no pass selects anything more, exactly the unstuck nodes have been reopened. */
  lemma ReopeningIsExact(g: Graph, before: seq<NodeExecution>, nodes: seq<NodeExecution>)
    requires UniqueIds(g) && ClosedNeeds(g) && !HasCycle(g)
    requires UniqueNodes(before) && (forall i :: 0 <= i < |before| ==> before[i].nodeId in Ids(g))
    requires PartlyReopened(g, before, nodes) && ReopenedAll(g, nodes)
    ensures nodes == ReopenUnstuck(g, before)
  {
    var rank := AcyclicHasRank(g);
    forall i | 0 <= i < |before|
      ensures nodes[i] == ReopenUnstuck(g, before)[i]
    {
      ReopenedPlaceIsExact(g, before, nodes, rank, i);
    }
  }

  lemma ReopenedPlaceIsExact(g: Graph, before: seq<NodeExecution>, nodes: seq<NodeExecution>,
                             rank: map<NodeId, nat>, i: nat)
    requires UniqueIds(g) && Ranked(g, Ids(g), rank)
    requires UniqueNodes(before) && i < |before| && before[i].nodeId in Ids(g)
    requires PartlyReopened(g, before, nodes) && ReopenedAll(g, nodes)
    ensures nodes[i] == ReopenUnstuck(g, before)[i]
  {
    var id := before[i].nodeId;
    FindUnique(before, i);
    FindSame(before, nodes, id);
    if nodes[i].state == Blocked {
      StillBlockedIsStuck(g, before, nodes, rank, id);
    } else if Stuck(g, before, id) {
      var p :| StuckPath(g, before, p, id);
      StuckStaysBlocked(g, before, nodes, p, id);
    }
  }

  // ---------------------------------------------------------------- facts for claiming and reconciling

  ghost function PlacesRunning(nodes: seq<NodeExecution>): set<nat> {
    set i | 0 <= i < |nodes| && nodes[i].state == Running
  }

  lemma ReconcileOne(before: seq<NodeExecution>, i: nat)
    requires i < |before|
    ensures var mixed := Reconciled(before[..i]) + before[i..];
      Reconciled(before[..i + 1]) + before[i + 1..] ==
        if before[i].state == Running then mixed[i := MarkedUncertain(before[i])] else mixed
    ensures PlacesRunning(before[..i + 1]) ==
      PlacesRunning(before[..i]) + if before[i].state == Running then {i} else {}
  {
  }

  lemma NoneRunning(nodes: seq<NodeExecution>)
    ensures |PlacesRunning(nodes)| == 0 <==> !exists n :: n in nodes && n.state == Running
  {
    if n :| n in nodes && n.state == Running {
      var i :| 0 <= i < |nodes| && nodes[i] == n;
      assert i in PlacesRunning(nodes);
    }
    if |PlacesRunning(nodes)| != 0 {
      var i :| i in PlacesRunning(nodes);
      assert nodes[i] in nodes;
    }
  }

  /** After the first `i` entries: `places` begins the final choice, and exactly it is claimed. */
  ghost predicate ClaimScan(e: Execution, owner: string, limit: nat, i: nat, places: seq<nat>,
                            claimed: seq<NodeId>, nodes: seq<NodeExecution>) {
    && i <= |e.nodes| && |places| <= limit
    && (forall j :: 0 <= j < |places| ==> places[j] < i)
    && Chosen(e, limit) == places + Take(ReadyFrom(e, i), limit - |places|)
    && nodes == ClaimPlaces(e.nodes, places, owner)
    && claimed == IdsAt(e.nodes, places)
  }

  lemma ScanStarts(e: Execution, owner: string, limit: nat)
    ensures ClaimScan(e, owner, limit, 0, [], [], e.nodes)
  {
  }

  lemma ScanFacts(e: Execution, owner: string, limit: nat, i: nat, places: seq<nat>,
                  claimed: seq<NodeId>, nodes: seq<NodeExecution>)
    requires ClaimScan(e, owner, limit, i, places, claimed, nodes) && i < |e.nodes|
    ensures |nodes| == |e.nodes| && nodes[i] == e.nodes[i]
  {
  }

  lemma ScanPasses(e: Execution, owner: string, limit: nat, i: nat, places: seq<nat>,
                   claimed: seq<NodeId>, nodes: seq<NodeExecution>)
    requires ClaimScan(e, owner, limit, i, places, claimed, nodes) && i < |e.nodes|
    requires |claimed| == limit || e.nodes[i].state != Pending || NeedsUnmet(e, i)
    ensures ClaimScan(e, owner, limit, i + 1, places, claimed, nodes)
  {
    if |claimed| < limit {
      assert !IsReady(e, i);
    }
  }

  ghost predicate NeedsUnmet(e: Execution, i: nat)
    requires i < |e.nodes|
  {
    var k := FindNode(e.graph.nodes, e.nodes[i].nodeId);
    k < |e.graph.nodes| && !NeedsSucceeded(e.nodes, e.graph.nodes[k].needs)
  }

  lemma ScanClaims(e: Execution, owner: string, limit: nat, i: nat, places: seq<nat>,
                   claimed: seq<NodeId>, nodes: seq<NodeExecution>)
    requires ClaimScan(e, owner, limit, i, places, claimed, nodes) && i < |e.nodes|
    requires |claimed| != limit && e.nodes[i].state == Pending
    requires FindNode(e.graph.nodes, e.nodes[i].nodeId) < |e.graph.nodes|
    requires !NeedsUnmet(e, i)
    ensures ClaimScan(e, owner, limit, i + 1, places + [i], claimed + [e.nodes[i].nodeId],
                      nodes[i := Claimed(e.nodes[i], owner)])
  {
    hide StateOf, NeedsSucceeded, Take, Chosen;
    assert ReadyFrom(e, i) == [i] + ReadyFrom(e, i + 1);
    ChoiceGrows(places, i, ReadyFrom(e, i + 1), limit);
    ClaimPlacesAppend(e.nodes, places, owner, i);
  }

  lemma ChoiceGrows(places: seq<nat>, i: nat, rest: seq<nat>, limit: nat)
    requires |places| < limit
    ensures places + Take([i] + rest, limit - |places|) == (places + [i]) + Take(rest, limit - |places + [i]|)
  {
    TakeOne(i, rest, limit - |places|);
  }

  lemma ClaimPlacesAppend(nodes: seq<NodeExecution>, places: seq<nat>, owner: string, i: nat)
    requires i < |nodes| && forall j :: 0 <= j < |places| ==> places[j] < i
    ensures ClaimPlaces(nodes, places + [i], owner) == ClaimPlaces(nodes, places, owner)[i := Claimed(nodes[i], owner)]
    ensures forall j :: 0 <= j < |places + [i]| ==> (places + [i])[j] < |nodes|
    ensures IdsAt(nodes, places + [i]) == IdsAt(nodes, places) + [nodes[i].nodeId]
  {
  }

  lemma TakeOne(i: nat, rest: seq<nat>, n: nat)
    requires n > 0
    ensures Take([i] + rest, n) == [i] + Take(rest, n - 1)
  {
  }

  lemma ScanEnds(e: Execution, owner: string, limit: nat, places: seq<nat>,
                 claimed: seq<NodeId>, nodes: seq<NodeExecution>)
    requires ClaimScan(e, owner, limit, |e.nodes|, places, claimed, nodes)
    ensures nodes == ClaimPlaces(e.nodes, Chosen(e, limit), owner) && claimed == IdsAt(e.nodes, Chosen(e, limit))
  {
    assert Chosen(e, limit) == places;
  }

  lemma FindNodeKnown(g: Graph, id: NodeId)
    requires id in Ids(g)
    ensures FindNode(g.nodes, id) < |g.nodes|
  {
    var i :| 0 <= i < |g.nodes| && NodeIds(g.nodes)[i] == id;
    assert g.nodes[i].id == id;
  }
}
