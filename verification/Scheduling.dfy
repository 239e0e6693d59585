/** What claiming ready nodes selects, and that scheduling cannot get stuck. */
module Scheduling {
  import opened Prelude
  import opened WorkflowGraph
  import opened GraphOperations
  import opened ExecutionInvariant

  // ---------------------------------------------------------------- which nodes are claimed

  ghost predicate Increasing(places: seq<nat>) {
    forall i, j :: 0 <= i < j < |places| ==> places[i] < places[j]
  }

  /** `ReadyFrom` lists every ready place from `k` on, once and in order. */
  lemma {:induction false} ReadyFromMeans(e: Execution, k: nat)
    requires k <= |e.nodes|
    ensures Increasing(ReadyFrom(e, k))
    ensures forall i :: k <= i < |e.nodes| && IsReady(e, i) ==> i in ReadyFrom(e, k)
    decreases |e.nodes| - k
  {
    hide IsReady;
    if k < |e.nodes| {
      ReadyFromMeans(e, k + 1);
      if IsReady(e, k) {
        assert ReadyFrom(e, k) == [k] + ReadyFrom(e, k + 1);
        forall i | k <= i < |e.nodes| && IsReady(e, i)
          ensures i in ReadyFrom(e, k)
        {
          assert i == k || i in ReadyFrom(e, k + 1);
        }
      }
    }
  }

  ghost function ReadyBefore(e: Execution, i: nat): set<nat>
    requires i <= |e.nodes|
  {
    set k | 0 <= k < i && IsReady(e, k)
  }

  lemma ReadyPlaceCount(e: Execution, j: nat)
    requires j < |ReadyFrom(e, 0)|
    ensures |ReadyBefore(e, ReadyFrom(e, 0)[j])| == j
  {
    hide IsReady;
    ReadyFromMeans(e, 0);
    var ready := ReadyFrom(e, 0);
    ElementsCount(ready[..j]);
    forall k | k in ReadyBefore(e, ready[j])
      ensures k in ready[..j]
    {
      var m :| 0 <= m < |ready| && ready[m] == k;
      assert m < j;
      assert ready[..j][m] == k;
    }
    assert ReadyBefore(e, ready[j]) == Elements(ready[..j]);
  }

  /**
    `claim_ready` claims, in list order, the first ready nodes up to the limit: exactly the
    ready nodes with fewer than `limit` ready ones before them.
   */
  lemma ClaimsFirstReady(e: Execution, owner: string, limit: nat)
    requires !Blank(owner) && limit > 0
    ensures ClaimReady(e, owner, limit).Ok?
    ensures ClaimReady(e, owner, limit).value.0 == IdsAt(e.nodes, Chosen(e, limit)) && Increasing(Chosen(e, limit))
    ensures forall i :: 0 <= i < |e.nodes| ==>
      (i in Chosen(e, limit) <==> IsReady(e, i) && |ReadyBefore(e, i)| < limit)
  {
    hide IsReady, ReadyBefore;
    ReadyFromMeans(e, 0);
    var ready, chosen := ReadyFrom(e, 0), Chosen(e, limit);
    forall i | 0 <= i < |e.nodes|
      ensures i in chosen <==> IsReady(e, i) && |ReadyBefore(e, i)| < limit
    {
      if IsReady(e, i) {
        var j :| 0 <= j < |ready| && ready[j] == i;
        ReadyPlaceCount(e, j);
        if j < limit {
          assert chosen[j] == i;
        }
      }
    }
  }

  // ---------------------------------------------------------------- claiming one by one

  /** Claims the nodes in turn with `claim_node`, stopping at the first refusal. */
  function ClaimOneByOne(e: Execution, ids: seq<NodeId>, owner: string): Change
    decreases |ids|
  {
    if ids == [] then Ok(e)
    else
      var r := ClaimNode(e, ids[0], owner);
      if r.Err? then r else ClaimOneByOne(r.value, ids[1..], owner)
  }

  ghost predicate AllReady(e: Execution, places: seq<nat>) {
    forall j :: 0 <= j < |places| ==> places[j] < |e.nodes| && IsReady(e, places[j])
  }

  /** Claiming one ready node leaves another ready node ready. */
  lemma OthersStayReady(e: Execution, i: nat, j: nat, owner: string)
    requires UniqueNodes(e.nodes) && i < |e.nodes| && j < |e.nodes| && i != j
    requires IsReady(e, i) && IsReady(e, j)
    ensures IsReady(Replace(e, i, Claimed(e.nodes[i], owner)), j)
  {
    StateAfterReplace(e.nodes, i, Claimed(e.nodes[i], owner));
    FindUnique(e.nodes, i);
  }

  lemma RestStaysReady(e: Execution, places: seq<nat>, owner: string)
    requires UniqueNodes(e.nodes) && Increasing(places) && AllReady(e, places) && places != []
    ensures AllReady(Replace(e, places[0], Claimed(e.nodes[places[0]], owner)), places[1..])
    ensures Increasing(places[1..])
  {
    var after := Replace(e, places[0], Claimed(e.nodes[places[0]], owner));
    forall j | 0 <= j < |places[1..]|
      ensures places[1..][j] < |after.nodes| && IsReady(after, places[1..][j])
    {
      OthersStayReady(e, places[0], places[j + 1], owner);
    }
  }

  /** The first claim succeeds, and leaves the rest as ready as before. */
  lemma ClaimFirst(e: Execution, places: seq<nat>, owner: string) returns (e1: Execution)
    requires !Blank(owner) && UniqueNodes(e.nodes) && Increasing(places) && AllReady(e, places) && places != []
    ensures forall j :: 0 <= j < |places| ==> places[j] < |e.nodes|
    ensures e1 == Replace(e, places[0], Claimed(e.nodes[places[0]], owner))
    ensures ClaimNode(e, IdsAt(e.nodes, places)[0], owner) == Ok(e1)
    ensures forall j :: 0 <= j < |places[1..]| ==> places[1..][j] < |e1.nodes|
    ensures IdsAt(e1.nodes, places[1..]) == IdsAt(e.nodes, places)[1..]
    ensures UniqueNodes(e1.nodes) && Increasing(places[1..]) && AllReady(e1, places[1..])
  {
    hide StateOf, NeedsSucceeded;
    FindUnique(e.nodes, places[0]);
    e1 := Replace(e, places[0], Claimed(e.nodes[places[0]], owner));
    assert forall j :: 0 <= j < |places[1..]| ==> places[1..][j] == places[j + 1];
    RestStaysReady(e, places, owner);
    UniqueAfterReplace(e.nodes, places[0], Claimed(e.nodes[places[0]], owner));
  }

  /** One unfolding of the claims in turn. */
  lemma OneByOneUnfolds(e: Execution, ids: seq<NodeId>, owner: string, e1: Execution)
    requires ids != [] && ClaimNode(e, ids[0], owner) == Ok(e1)
    ensures ClaimOneByOne(e, ids, owner) == ClaimOneByOne(e1, ids[1..], owner)
  {
    hide ClaimNode;
  }

  lemma ClaimEmpty(e: Execution, owner: string)
    ensures ClaimOneByOne(e, IdsAt(e.nodes, []), owner)
            == Ok(e.(nodes := ClaimPlaces(e.nodes, [], owner), revision := e.revision + 0))
  {
    assert ClaimPlaces(e.nodes, [], owner) == e.nodes;
  }

  lemma {:induction false} OneByOneMatches(e: Execution, places: seq<nat>, owner: string)
    requires !Blank(owner) && UniqueNodes(e.nodes) && Increasing(places) && AllReady(e, places)
    ensures forall j :: 0 <= j < |places| ==> places[j] < |e.nodes|
    ensures ClaimOneByOne(e, IdsAt(e.nodes, places), owner)
            == Ok(e.(nodes := ClaimPlaces(e.nodes, places, owner), revision := e.revision + |places|))
    decreases |places|
  {
    hide ClaimOneByOne, ClaimNode, AllReady, IsReady, UniqueNodes, Increasing, Blank;
    if places == [] {
      ClaimEmpty(e, owner);
    } else {
      var e1 := ClaimFirst(e, places, owner);
      OneByOneUnfolds(e, IdsAt(e.nodes, places), owner, e1);
      OneByOneMatches(e1, places[1..], owner);
      ClaimPlacesSplit(e.nodes, places, owner);
      assert e1.revision + |places[1..]| == e.revision + |places|;
    }
  }

  lemma UniqueAfterReplace(nodes: seq<NodeExecution>, i: nat, n: NodeExecution)
    requires UniqueNodes(nodes) && i < |nodes| && n.nodeId == nodes[i].nodeId
    ensures UniqueNodes(nodes[i := n])
  {
  }

  lemma ClaimPlacesSplit(nodes: seq<NodeExecution>, places: seq<nat>, owner: string)
    requires places != [] && Increasing(places) && places[0] < |nodes|
    ensures ClaimPlaces(nodes[places[0] := Claimed(nodes[places[0]], owner)], places[1..], owner)
            == ClaimPlaces(nodes, places, owner)
  {
    assert places == [places[0]] + places[1..];
    assert places[0] !in places[1..];
  }

  /** One batch claim and the same claims one by one differ only in the execution's revision. */
  lemma BatchClaimIsOneByOne(e: Execution, owner: string, limit: nat, ids: seq<NodeId>, batch: Execution)
    requires UniqueNodes(e.nodes) && ClaimReady(e, owner, limit) == Ok((ids, batch))
    ensures ClaimOneByOne(e, ids, owner) == Ok(batch.(revision := e.revision + |ids|))
    ensures batch.revision == e.revision + (if ids == [] then 0 else 1)
  {
    hide *;
    var places := BatchPlaces(e, owner, limit, ids, batch);
    OneByOneMatches(e, places, owner);
    assert batch.(revision := e.revision + |places|)
        == e.(nodes := ClaimPlaces(e.nodes, places, owner), revision := e.revision + |places|);
  }

  lemma BatchPlaces(e: Execution, owner: string, limit: nat, ids: seq<NodeId>, batch: Execution)
    returns (places: seq<nat>)
    requires ClaimReady(e, owner, limit) == Ok((ids, batch))
    ensures !Blank(owner) && Increasing(places) && AllReady(e, places) && ids == IdsAt(e.nodes, places)
    ensures batch == e.(nodes := ClaimPlaces(e.nodes, places, owner), revision := batch.revision)
    ensures batch.revision == e.revision + (if ids == [] then 0 else 1)
  {
    hide IsReady;
    places := Chosen(e, limit);
    ReadyFromMeans(e, 0);
  }

  // ---------------------------------------------------------------- no deadlock

  /** Every node is waiting or done: nothing is running, staged, failed or uncertain. */
  ghost predicate Quiet(nodes: seq<NodeExecution>) {
    forall i :: 0 <= i < |nodes| ==> nodes[i].state in {Pending, Succeeded}
  }

  ghost predicate AllSucceeded(nodes: seq<NodeExecution>) {
    forall i :: 0 <= i < |nodes| ==> nodes[i].state == Succeeded
  }

  ghost function PendingPlaces(nodes: seq<NodeExecution>): set<nat> {
    set i | 0 <= i < |nodes| && nodes[i].state == Pending
  }

  /** Following unfinished needs downward from a pending node ends at a ready one. */
  lemma {:induction false} SomeNodeIsReady(digest: Digest, e: Execution, rank: map<NodeId, nat>, i: nat)
    returns (ready: nat)
    requires Sound(digest, e) && Quiet(e.nodes) && Ranked(e.graph, Ids(e.graph), rank)
    requires i < |e.nodes| && e.nodes[i].state == Pending
    ensures ready < |e.nodes| && IsReady(e, ready)
    decreases rank[e.nodes[i].nodeId]
  {
    if IsReady(e, i) {
      return i;
    }
    var d := UnfinishedNeed(digest, e, i);
    hide IsReady, Find, Edge;
    assert Edge(e.graph, e.nodes[i].nodeId, d);
    ready := SomeNodeIsReady(digest, e, rank, Find(e.nodes, d));
  }

  lemma UnfinishedNeed(digest: Digest, e: Execution, i: nat) returns (d: NodeId)
    requires Sound(digest, e) && Quiet(e.nodes)
    requires i < |e.nodes| && e.nodes[i].state == Pending && !IsReady(e, i)
    ensures Edge(e.graph, e.nodes[i].nodeId, d)
    ensures Find(e.nodes, d) < |e.nodes| && e.nodes[Find(e.nodes, d)].state == Pending
  {
    WellFormedFacts(e.graph);
    var id := e.nodes[i].nodeId;
    EdgeOfDefinition(e.graph, id);
    d :| d in Definition(e.graph, id).needs && StateOf(e.nodes, d) != Some(Succeeded);
    assert Edge(e.graph, id, d);
  }

  lemma ReadyIsClaimed(e: Execution, owner: string, limit: nat, i: nat)
    requires !Blank(owner) && limit > 0 && i < |e.nodes| && IsReady(e, i)
    ensures ClaimReady(e, owner, limit).Ok? && ClaimReady(e, owner, limit).value.0 != []
  {
    hide IsReady;
    ReadyFromMeans(e, 0);
    assert i in ReadyFrom(e, 0);
  }

  /** With only pending and succeeded nodes, a claim always finds work if any is left. */
  lemma ClaimMakesProgress(digest: Digest, e: Execution, owner: string, limit: nat)
    requires Sound(digest, e) && Quiet(e.nodes) && !Blank(owner) && limit > 0
    requires PendingPlaces(e.nodes) != {}
    ensures ClaimReady(e, owner, limit).Ok? && ClaimReady(e, owner, limit).value.0 != []
  {
    hide IsReady, ClaimReady, WellFormed, IsResearchJoin, HasCycle, UniqueIds, Covers, TidyNodes, NeedsRespected;
    WellFormedFacts(e.graph);
    var rank := AcyclicHasRank(e.graph);
    var i :| i in PendingPlaces(e.nodes);
    var ready := SomeNodeIsReady(digest, e, rank, i);
    ReadyIsClaimed(e, owner, limit, ready);
  }

  /** Completes the nodes in turn with success, ignoring refusals. */
  ghost function CompleteAll(e: Execution, ids: seq<NodeId>, owner: string): Execution
    decreases |ids|
  {
    if ids == [] then e
    else
      var r := Complete(e, ids[0], owner, true);
      CompleteAll(if r.Ok? then r.value else e, ids[1..], owner)
  }

  /** One round of a scheduler: claim what is ready, then complete it all. */
  ghost function Round(e: Execution, owner: string, limit: nat): Execution {
    var r := ClaimReady(e, owner, limit);
    if r.Err? then e else CompleteAll(r.value.1, r.value.0, owner)
  }

  ghost function Rounds(e: Execution, owner: string, limit: nat, n: nat): Execution
    decreases n
  {
    if n == 0 then e else Rounds(Round(e, owner, limit), owner, limit, n - 1)
  }

  ghost predicate RunningPlaces(nodes: seq<NodeExecution>, places: seq<nat>, owner: string) {
    forall j :: 0 <= j < |places| ==>
      places[j] < |nodes| && nodes[places[j]].state == Running && nodes[places[j]].owner == Some(owner)
  }

  ghost predicate SucceededAt(before: seq<NodeExecution>, after: seq<NodeExecution>, places: seq<nat>) {
    && |after| == |before|
    && forall i :: 0 <= i < |before| ==> after[i].state == if i in places then Succeeded else before[i].state
  }

  lemma CompleteFirst(digest: Digest, e: Execution, places: seq<nat>, owner: string)
    requires Sound(digest, e) && Increasing(places) && RunningPlaces(e.nodes, places, owner) && places != []
    ensures var e1 := Replace(e, places[0], Finished(e.nodes[places[0]], owner, Succeeded, None));
      && Complete(e, IdsAt(e.nodes, places)[0], owner, true) == Ok(e1)
      && RunningPlaces(e1.nodes, places[1..], owner)
      && IdsAt(e1.nodes, places[1..]) == IdsAt(e.nodes, places)[1..]
  {
    FindUnique(e.nodes, places[0]);
    var e1 := Replace(e, places[0], Finished(e.nodes[places[0]], owner, Succeeded, None));
    assert forall j :: 0 <= j < |places[1..]| ==> places[1..][j] == places[j + 1];
  }

  lemma SucceededAtSplit(before: seq<NodeExecution>, mid: NodeExecution, after: seq<NodeExecution>, places: seq<nat>)
    requires places != [] && places[0] < |before| && mid.state == Succeeded
    requires SucceededAt(before[places[0] := mid], after, places[1..])
    ensures SucceededAt(before, after, places)
  {
    assert places == [places[0]] + places[1..];
  }

  lemma {:induction false} CompleteAllSucceeds(digest: Digest, e: Execution, places: seq<nat>, owner: string)
    requires Sound(digest, e) && Increasing(places) && RunningPlaces(e.nodes, places, owner)
    ensures Sound(digest, CompleteAll(e, IdsAt(e.nodes, places), owner))
    ensures SucceededAt(e.nodes, CompleteAll(e, IdsAt(e.nodes, places), owner).nodes, places)
    decreases |places|
  {
    if places != [] {
      var n := Finished(e.nodes[places[0]], owner, Succeeded, None);
      var e1 := Replace(e, places[0], n);
      CompleteFirst(digest, e, places, owner);
      FinishIsSound(digest, e, IdsAt(e.nodes, places)[0], owner, Succeeded, None);
      CompleteAllSucceeds(digest, e1, places[1..], owner);
      SucceededAtSplit(e.nodes, n, CompleteAll(e, IdsAt(e.nodes, places), owner).nodes, places);
    }
  }

  /** A round turns exactly the claimed nodes into succeeded ones. */
  lemma RoundCompletes(digest: Digest, e: Execution, owner: string, limit: nat)
    requires Sound(digest, e) && !Blank(owner) && limit > 0
    ensures Sound(digest, Round(e, owner, limit))
    ensures SucceededAt(e.nodes, Round(e, owner, limit).nodes, Chosen(e, limit))
  {
    hide *;
    var places := Chosen(e, limit);
    var claimed := RoundClaim(e, owner, limit);
    ClaimReadyIsSound(digest, e, owner, limit);
    ClaimedRun(e.nodes, places, owner);
    CompleteAllSucceeds(digest, claimed, places, owner);
    SucceededAfterClaim(e.nodes, places, owner, Round(e, owner, limit).nodes);
  }

  /** The claim a round starts with, and what the round makes of it. */
  lemma RoundClaim(e: Execution, owner: string, limit: nat) returns (claimed: Execution)
    requires !Blank(owner) && limit > 0
    ensures ClaimReady(e, owner, limit) == Ok((IdsAt(e.nodes, Chosen(e, limit)), claimed))
    ensures claimed.nodes == ClaimPlaces(e.nodes, Chosen(e, limit), owner)
    ensures Round(e, owner, limit) == CompleteAll(claimed, IdsAt(e.nodes, Chosen(e, limit)), owner)
    ensures Increasing(Chosen(e, limit))
  {
    hide IsReady, CompleteAll;
    ReadyFromMeans(e, 0);
    claimed := ClaimReady(e, owner, limit).value.1;
  }

  lemma SucceededAfterClaim(nodes: seq<NodeExecution>, places: seq<nat>, owner: string, after: seq<NodeExecution>)
    requires SucceededAt(ClaimPlaces(nodes, places, owner), after, places)
    ensures SucceededAt(nodes, after, places)
  {
  }

  lemma ClaimedRun(nodes: seq<NodeExecution>, places: seq<nat>, owner: string)
    requires forall j :: 0 <= j < |places| ==> places[j] < |nodes|
    ensures RunningPlaces(ClaimPlaces(nodes, places, owner), places, owner)
    ensures IdsAt(ClaimPlaces(nodes, places, owner), places) == IdsAt(nodes, places)
  {
    forall j | 0 <= j < |places|
      ensures ClaimPlaces(nodes, places, owner)[places[j]] == Claimed(nodes[places[j]], owner)
    {
      assert places[j] in places;
    }
  }

  lemma RoundSucceeds(digest: Digest, e: Execution, owner: string, limit: nat)
    requires Sound(digest, e) && Quiet(e.nodes) && !Blank(owner) && limit > 0
    ensures var after := Round(e, owner, limit);
      && Sound(digest, after) && Quiet(after.nodes)
      && PendingPlaces(after.nodes) <= PendingPlaces(e.nodes)
      && (PendingPlaces(e.nodes) != {} ==> PendingPlaces(after.nodes) < PendingPlaces(e.nodes))
  {
    RoundCompletes(digest, e, owner, limit);
    if PendingPlaces(e.nodes) != {} {
      ClaimMakesProgress(digest, e, owner, limit);
      ChosenWasPending(e, limit);
    }
  }

  lemma ChosenWasPending(e: Execution, limit: nat)
    requires Chosen(e, limit) != []
    ensures Chosen(e, limit)[0] in PendingPlaces(e.nodes) && Chosen(e, limit)[0] in Chosen(e, limit)
  {
  }

  /** Alternating claims and successful completions finishes within one round per pending node. */
  lemma {:induction false} SchedulingFinishes(digest: Digest, e: Execution, owner: string, limit: nat, n: nat)
    requires Sound(digest, e) && Quiet(e.nodes) && !Blank(owner) && limit > 0
    requires |PendingPlaces(e.nodes)| <= n
    ensures AllSucceeded(Rounds(e, owner, limit, n).nodes)
    decreases n
  {
    hide Sound, Round, AllSucceeded;
    if n == 0 {
      NothingPending(e.nodes);
      assert Rounds(e, owner, limit, n) == e;
    } else {
      var after := Round(e, owner, limit);
      RoundSucceeds(digest, e, owner, limit);
      SmallerSet(PendingPlaces(after.nodes), PendingPlaces(e.nodes));
      SchedulingFinishes(digest, after, owner, limit, n - 1);
      assert Rounds(e, owner, limit, n) == Rounds(after, owner, limit, n - 1);
    }
  }

  lemma NothingPending(nodes: seq<NodeExecution>)
    requires Quiet(nodes) && |PendingPlaces(nodes)| == 0
    ensures AllSucceeded(nodes)
  {
    forall i | 0 <= i < |nodes|
      ensures nodes[i].state == Succeeded
    {
      assert i !in PendingPlaces(nodes);
    }
  }

  lemma SmallerSet(a: set<nat>, b: set<nat>)
    requires a <= b && (b != {} ==> a < b)
    ensures |a| <= |b| && (b != {} ==> |a| < |b|)
  {
    assert |b| == |a| + |b - a|;
  }

  /** A fresh execution of n nodes is finished after n rounds. */
  lemma FreshExecutionFinishes(digest: Digest, id: ExecutionId, g: Graph, owner: string, limit: nat)
    requires WellFormed(g) && !Blank(owner) && limit > 0
    ensures AllSucceeded(Rounds(Started(id, g), owner, limit, |g.nodes|).nodes)
  {
    StartedIsSound(digest, id, g);
    PendingBound(Started(id, g).nodes);
    SchedulingFinishes(digest, Started(id, g), owner, limit, |g.nodes|);
  }

  lemma {:induction false} PendingBound(nodes: seq<NodeExecution>)
    ensures |PendingPlaces(nodes)| <= |nodes|
  {
    if nodes != [] {
      var last := |nodes| - 1;
      PendingBound(nodes[..last]);
      assert PendingPlaces(nodes) ==
        PendingPlaces(nodes[..last]) + if nodes[last].state == Pending then {last} else {};
    }
  }
}
