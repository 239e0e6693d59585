/** Which graphs validation accepts and which fault it reports, in terms of the graph alone. */
module GraphAcceptance {
  import opened Prelude
  import opened WorkflowGraph

  // ---------------------------------------------------------------- faults of single nodes

  /** Some other place has the same id. */
  ghost predicate RepeatsId(g: Graph) {
    exists i, j :: 0 <= i < j < |g.nodes| && g.nodes[i].id == g.nodes[j].id
  }

  ghost predicate IsId(g: Graph, id: NodeId) {
    exists i :: 0 <= i < |g.nodes| && g.nodes[i].id == id
  }

  /** The node needs itself or something that is not in the graph. */
  ghost predicate NeedsBadly(g: Graph, k: nat)
    requires k < |g.nodes|
  {
    exists d :: d in g.nodes[k].needs && (d == g.nodes[k].id || !IsId(g, d))
  }

  ghost predicate IsFine(g: Graph, k: nat)
    requires k < |g.nodes|
  {
    !Blank(g.nodes[k].title) && !NeedsBadly(g, k)
  }

  /** The first faulty node is this one. */
  ghost predicate FirstFaulty(g: Graph, k: nat) {
    k < |g.nodes| && !IsFine(g, k) && forall j :: 0 <= j < k ==> IsFine(g, j)
  }

  lemma IdsMean(g: Graph)
    ensures forall id :: id in Ids(g) <==> IsId(g, id)
    ensures UniqueIds(g) <==> !RepeatsId(g)
  {
    forall id | IsId(g, id)
      ensures id in Ids(g)
    {
      var i :| 0 <= i < |g.nodes| && g.nodes[i].id == id;
      assert NodeIds(g.nodes)[i] == id;
    }
    if i, j :| 0 <= i < j < |g.nodes| && g.nodes[i].id == g.nodes[j].id {
      assert NodeIds(g.nodes)[i] == NodeIds(g.nodes)[j];
    }
  }

  lemma NeedsMean(g: Graph, k: nat)
    requires k < |g.nodes|
    ensures NeedsAreKnown(g.nodes[k], Ids(g)) <==> !NeedsBadly(g, k)
  {
    hide Ids, IsId;
    IdsMean(g);
  }

  /** The scan gets as far as this node and finds it faulty. */
  ghost predicate ScanStops(nodes: seq<Node>, ids: set<NodeId>, k: nat) {
    && k < |nodes| && (Blank(nodes[k].title) || !NeedsAreKnown(nodes[k], ids))
    && forall j :: 0 <= j < k ==> !Blank(nodes[j].title) && NeedsAreKnown(nodes[j], ids)
  }

  /** A scan reports the first faulty node, its title before its needs. */
  lemma {:induction false} ScanReports(nodes: seq<Node>, ids: set<NodeId>)
    ensures NodeFault(nodes, ids).None? <==>
      forall k :: 0 <= k < |nodes| ==> !Blank(nodes[k].title) && NeedsAreKnown(nodes[k], ids)
    ensures forall k: nat :: ScanStops(nodes, ids, k) ==>
      NodeFault(nodes, ids) == Some(if Blank(nodes[k].title) then EmptyTitle else InvalidDependency)
  {
    hide Blank, NeedsAreKnown;
    if nodes != [] {
      var rest := nodes[1..];
      ScanReports(rest, ids);
      assert forall k :: 0 <= k < |rest| ==> rest[k] == nodes[k + 1];
      if !Blank(nodes[0].title) && NeedsAreKnown(nodes[0], ids) {
        assert NodeFault(nodes, ids) == NodeFault(rest, ids);
        forall k: nat | ScanStops(nodes, ids, k)
          ensures NodeFault(nodes, ids) == Some(if Blank(nodes[k].title) then EmptyTitle else InvalidDependency)
        {
          assert k > 0 && rest[k - 1] == nodes[k];
          assert forall j :: 0 <= j < k - 1 ==> rest[j] == nodes[j + 1];
          assert ScanStops(rest, ids, k - 1);
        }
      }
    }
  }

  lemma FaultMeans(g: Graph)
    ensures NodeFault(g.nodes, Ids(g)).None? <==> forall k :: 0 <= k < |g.nodes| ==> IsFine(g, k)
    ensures forall k: nat :: FirstFaulty(g, k) ==>
      NodeFault(g.nodes, Ids(g)) == Some(if Blank(g.nodes[k].title) then EmptyTitle else InvalidDependency)
  {
    hide Blank, NeedsAreKnown, NeedsBadly, Ids, NodeFault;
    ScanReports(g.nodes, Ids(g));
    forall k | 0 <= k < |g.nodes|
      ensures IsFine(g, k) <==> !Blank(g.nodes[k].title) && NeedsAreKnown(g.nodes[k], Ids(g))
    {
      NeedsMean(g, k);
    }
    if forall k :: 0 <= k < |g.nodes| ==> IsFine(g, k) {
      forall k | 0 <= k < |g.nodes|
        ensures !Blank(g.nodes[k].title) && NeedsAreKnown(g.nodes[k], Ids(g))
      {
        assert IsFine(g, k);
      }
    }
    forall k: nat | FirstFaulty(g, k)
      ensures ScanStops(g.nodes, Ids(g), k)
    {
      assert !IsFine(g, k);
      forall j | 0 <= j < k
        ensures !Blank(g.nodes[j].title) && NeedsAreKnown(g.nodes[j], Ids(g))
      {
        assert IsFine(g, j);
      }
    }
  }

  // ---------------------------------------------------------------- the two research nodes and their join

  /** The graph's only places of this kind are these. */
  ghost predicate OnlyPlaces(g: Graph, kind: NodeKind, places: set<nat>) {
    forall k :: k in places <==> 0 <= k < |g.nodes| && g.nodes[k].kind == kind
  }

  /** Two research nodes without needs, at places `a` and `b`, and one join at `c` that needs exactly those. */
  ghost predicate JoinsResearch(g: Graph, a: nat, b: nat, c: nat) {
    && a < b < |g.nodes| && c < |g.nodes|
    && OnlyPlaces(g, Research, {a, b}) && OnlyPlaces(g, Join, {c})
    && g.nodes[a].needs == [] && g.nodes[b].needs == []
    && forall d :: d in g.nodes[c].needs <==> d == g.nodes[a].id || d == g.nodes[b].id
  }

  lemma {:induction false} OfKindAppend(nodes: seq<Node>, n: Node, kind: NodeKind)
    ensures OfKind(nodes + [n], kind) == OfKind(nodes, kind) + if n.kind == kind then [n] else []
  {
    if nodes == [] {
      assert nodes + [n] == [n];
      assert [n][1..] == [];
    } else {
      assert (nodes + [n])[1..] == nodes[1..] + [n];
      OfKindAppend(nodes[1..], n, kind);
    }
  }

  /** These places are those of the picked nodes, in order. */
  ghost predicate Picks(nodes: seq<Node>, kind: NodeKind, places: seq<nat>) {
    && |places| == |OfKind(nodes, kind)|
    && (forall i, j :: 0 <= i < j < |places| ==> places[i] < places[j])
    && (forall i :: 0 <= i < |places| ==> places[i] < |nodes| && OfKind(nodes, kind)[i] == nodes[places[i]])
    && forall k :: 0 <= k < |nodes| ==> (nodes[k].kind == kind <==> k in places)
  }

  /** Picking by kind lists the places of that kind in order. */
  lemma {:induction false} PickedPlaces(nodes: seq<Node>, kind: NodeKind) returns (places: seq<nat>)
    ensures Picks(nodes, kind, places)
  {
    hide OfKind, Picks;
    if nodes == [] {
      places := [];
      NothingPicked(kind);
    } else {
      var last := |nodes| - 1;
      var front := PickedPlaces(nodes[..last], kind);
      assert nodes == nodes[..last] + [nodes[last]];
      places := if nodes[last].kind == kind then front + [last] else front;
      PickLast(nodes[..last], nodes[last], kind, front);
    }
  }

  lemma NothingPicked(kind: NodeKind)
    ensures Picks([], kind, [])
  {
  }

  lemma PickLast(nodes: seq<Node>, n: Node, kind: NodeKind, front: seq<nat>)
    requires Picks(nodes, kind, front)
    ensures Picks(nodes + [n], kind, if n.kind == kind then front + [|nodes|] else front)
  {
    hide Picks, OfKind;
    OfKindAppend(nodes, n, kind);
    if n.kind == kind {
      TakeLast(nodes, n, kind, front);
    } else {
      SkipLast(nodes, n, kind, front);
    }
  }

  lemma SkipLast(nodes: seq<Node>, n: Node, kind: NodeKind, front: seq<nat>)
    requires Picks(nodes, kind, front) && n.kind != kind && OfKind(nodes + [n], kind) == OfKind(nodes, kind)
    ensures Picks(nodes + [n], kind, front)
  {
    hide OfKind;
    var all := nodes + [n];
    forall k | 0 <= k < |all|
      ensures all[k].kind == kind <==> k in front
    {
      assert k < |nodes| ==> all[k] == nodes[k];
    }
  }

  lemma TakeLast(nodes: seq<Node>, n: Node, kind: NodeKind, front: seq<nat>)
    requires Picks(nodes, kind, front) && n.kind == kind && OfKind(nodes + [n], kind) == OfKind(nodes, kind) + [n]
    ensures Picks(nodes + [n], kind, front + [|nodes|])
  {
    hide OfKind;
    var all, places, picked := nodes + [n], front + [|nodes|], OfKind(nodes, kind);
    forall i | 0 <= i < |places|
      ensures places[i] < |all| && (picked + [n])[i] == all[places[i]]
    {
      assert i < |front| ==> places[i] == front[i] && picked[i] == nodes[front[i]];
    }
    forall k | 0 <= k < |all|
      ensures all[k].kind == kind <==> k in places
    {
      if k < |nodes| {
        assert all[k] == nodes[k];
        assert k in places <==> k in front;
      } else {
        assert places[|front|] == k;
      }
    }
  }

  lemma ResearchJoinMeans(g: Graph)
    ensures IsResearchJoin(g) <==> exists a: nat, b: nat, c: nat :: JoinsResearch(g, a, b, c)
  {
    hide IsResearchJoin, JoinsResearch, Picks;
    var r := PickedPlaces(g.nodes, Research);
    var j := PickedPlaces(g.nodes, Join);
    if IsResearchJoin(g) {
      AcceptedJoins(g, r, j);
    }
    if a: nat, b: nat, c: nat :| JoinsResearch(g, a, b, c) {
      JoinsAccepted(g, r, j, a, b, c);
    }
  }

  lemma AcceptedJoins(g: Graph, r: seq<nat>, j: seq<nat>)
    requires IsResearchJoin(g) && Picks(g.nodes, Research, r) && Picks(g.nodes, Join, j)
    ensures exists a: nat, b: nat, c: nat :: JoinsResearch(g, a, b, c)
  {
    hide OfKind;
    var a, b, c := r[0], r[1], j[0];
    assert r == [a, b] && j == [c];
    var research := OfKind(g.nodes, Research);
    assert NodeIds(research) == [g.nodes[a].id, g.nodes[b].id];
    assert research[0] in research && research[1] in research;
    forall d
      ensures d in g.nodes[c].needs <==> d == g.nodes[a].id || d == g.nodes[b].id
    {
      assert d in g.nodes[c].needs <==> d in Elements(OfKind(g.nodes, Join)[0].needs);
    }
    assert JoinsResearch(g, a, b, c);
  }

  lemma JoinsAccepted(g: Graph, r: seq<nat>, j: seq<nat>, a: nat, b: nat, c: nat)
    requires JoinsResearch(g, a, b, c) && Picks(g.nodes, Research, r) && Picks(g.nodes, Join, j)
    ensures IsResearchJoin(g)
  {
    hide OfKind;
    TwoPlaces(r, a, b);
    OnePlace(j, c);
    var research := OfKind(g.nodes, Research);
    assert NodeIds(research) == [g.nodes[a].id, g.nodes[b].id];
    assert Elements(OfKind(g.nodes, Join)[0].needs) == Elements(NodeIds(research));
  }

  lemma TwoPlaces(places: seq<nat>, a: nat, b: nat)
    requires a < b && forall k: nat :: k in places <==> k in {a, b}
    requires forall i, j :: 0 <= i < j < |places| ==> places[i] < places[j]
    ensures places == [a, b]
  {
    ElementsCount(places);
    assert Elements(places) == {a, b};
    assert |{a, b}| == 2;
    assert places[0] in places && places[1] in places;
  }

  lemma OnePlace(places: seq<nat>, c: nat)
    requires forall k: nat :: k in places <==> k in {c}
    requires forall i, j :: 0 <= i < j < |places| ==> places[i] < places[j]
    ensures places == [c]
  {
    ElementsCount(places);
    assert Elements(places) == {c};
    assert |{c}| == 1;
    assert places[0] in places;
  }

  // ---------------------------------------------------------------- the verdict

  /** Validation's answer, fault by fault, in terms of the graph's places and directed cycles. */
  lemma VerdictExactlyWhen(g: Graph)
    ensures Verdict(g) == Some(DuplicateNode) <==> RepeatsId(g)
    ensures Verdict(g) == Some(EmptyTitle) <==>
      !RepeatsId(g) && exists k: nat :: FirstFaulty(g, k) && Blank(g.nodes[k].title)
    ensures Verdict(g) == Some(InvalidDependency) <==>
      !RepeatsId(g) && exists k: nat :: FirstFaulty(g, k) && !Blank(g.nodes[k].title)
    ensures Verdict(g) == Some(Cycle) <==>
      && !RepeatsId(g) && (forall k :: 0 <= k < |g.nodes| ==> IsFine(g, k)) && HasCycle(g)
    ensures Verdict(g) == Some(InvalidResearchJoin) <==>
      && !RepeatsId(g) && (forall k :: 0 <= k < |g.nodes| ==> IsFine(g, k)) && !HasCycle(g)
      && !exists a: nat, b: nat, c: nat :: JoinsResearch(g, a, b, c)
    ensures Verdict(g).None? <==>
      && !RepeatsId(g) && (forall k :: 0 <= k < |g.nodes| ==> IsFine(g, k)) && !HasCycle(g)
      && exists a: nat, b: nat, c: nat :: JoinsResearch(g, a, b, c)
  {
    hide HasCycle, IsResearchJoin, JoinsResearch, RepeatsId, IsFine, NodeFault, UniqueIds, Ids, Blank;
    IdsMean(g);
    FaultMeans(g);
    ResearchJoinMeans(g);
    if k :| 0 <= k < |g.nodes| && !IsFine(g, k) {
      var first := FirstFaultyPlace(g, k);
    }
  }

  lemma {:induction false} FirstFaultyPlace(g: Graph, k: nat) returns (first: nat)
    requires k < |g.nodes| && !IsFine(g, k)
    ensures FirstFaulty(g, first)
  {
    hide IsFine;
    if j :| 0 <= j < k && !IsFine(g, j) {
      first := FirstFaultyPlace(g, j);
    } else {
      first := k;
    }
  }

  // ---------------------------------------------------------------- documents

  /** The graph with one more node at its end. */
  function Extended(g: Graph, n: Node): Graph {
    g.(nodes := g.nodes + [n])
  }

  lemma ExtendedEdges(g: Graph, n: Node)
    ensures forall a, b {:trigger Edge(Extended(g, n), a, b)} ::
      Edge(Extended(g, n), a, b) <==> Edge(g, a, b) || (a == n.id && b in n.needs)
  {
    var h := Extended(g, n);
    forall a, b
      ensures Edge(h, a, b) <==> Edge(g, a, b) || (a == n.id && b in n.needs)
    {
      assert h.nodes[|g.nodes|] == n && forall i :: 0 <= i < |g.nodes| ==> h.nodes[i] == g.nodes[i];
      if a == n.id && b in n.needs {
        assert h.nodes[|g.nodes|].id == a;
      }
      if i :| 0 <= i < |g.nodes| && g.nodes[i].id == a && b in g.nodes[i].needs {
        assert h.nodes[i].id == a && b in h.nodes[i].needs;
      }
    }
  }

  lemma ExtendedIds(g: Graph, n: Node)
    ensures Ids(Extended(g, n)) == Ids(g) + {n.id}
  {
    assert NodeIds(Extended(g, n).nodes) == NodeIds(g.nodes) + [n.id];
  }

  /** A new node that nothing needs yet closes no cycle. */
  lemma ExtendedIsAcyclic(g: Graph, n: Node)
    requires ClosedNeeds(g) && !HasCycle(g) && n.id !in Ids(g) && forall d :: d in n.needs ==> d in Ids(g)
    ensures !HasCycle(Extended(g, n))
  {
    hide HasCycle, Edge, Ids;
    var rank := AcyclicHasRank(g);
    ExtendedEdges(g, n);
    ExtendedIds(g, n);
    var h := Extended(g, n);
    assert |Ids(h)| == |Ids(g)| + 1;
    assert Ranked(h, Ids(h), rank[n.id := |Ids(g)|]);
    RankedIsAcyclic(h, rank[n.id := |Ids(g)|]);
  }

  lemma ExtendedPlaces(g: Graph, n: Node, a: nat, b: nat, c: nat)
    requires JoinsResearch(g, a, b, c) && n.kind == Document
    ensures JoinsResearch(Extended(g, n), a, b, c)
  {
    var h := Extended(g, n);
    assert h.nodes[|g.nodes|] == n && forall i :: 0 <= i < |g.nodes| ==> h.nodes[i] == g.nodes[i];
  }

  lemma ExtendedIsFine(g: Graph, n: Node)
    requires forall k :: 0 <= k < |g.nodes| ==> IsFine(g, k)
    requires !Blank(n.title) && !IsId(g, n.id) && forall d :: d in n.needs ==> IsId(g, d)
    ensures forall k :: 0 <= k < |g.nodes| + 1 ==> IsFine(Extended(g, n), k)
  {
    hide Blank;
    var h := Extended(g, n);
    forall id | IsId(g, id)
      ensures IsId(h, id)
    {
      var i :| 0 <= i < |g.nodes| && g.nodes[i].id == id;
      assert h.nodes[i].id == id;
    }
    forall k | 0 <= k < |g.nodes| + 1
      ensures IsFine(h, k)
    {
      if k < |g.nodes| {
        assert IsFine(g, k) && h.nodes[k] == g.nodes[k];
      } else {
        assert h.nodes[k] == n;
      }
    }
  }

  /** Any number of documents may follow: a titled one with a new id and known needs keeps a valid graph valid. */
  lemma DocumentKeepsValid(g: Graph, n: Node)
    requires Verdict(g).None? && n.kind == Document && !Blank(n.title)
    requires !IsId(g, n.id) && forall d :: d in n.needs ==> IsId(g, d)
    ensures Verdict(Extended(g, n)).None?
  {
    hide Verdict, HasCycle, JoinsResearch, IsFine, Blank, IsId, Ids;
    VerdictExactlyWhen(g);
    VerdictExactlyWhen(Extended(g, n));
    IdsMean(g);
    ValidIsClosed(g);
    ExtendedIsAcyclic(g, n);
    ExtendedIsFine(g, n);
    NewIdRepeatsNothing(g, n);
    var a: nat, b: nat, c: nat :| JoinsResearch(g, a, b, c);
    ExtendedPlaces(g, n, a, b, c);
  }

  lemma ValidIsClosed(g: Graph)
    requires Verdict(g).None?
    ensures ClosedNeeds(g) && !HasCycle(g)
  {
    WellFormedFacts(g);
  }

  lemma NewIdRepeatsNothing(g: Graph, n: Node)
    requires !RepeatsId(g) && !IsId(g, n.id)
    ensures !RepeatsId(Extended(g, n))
  {
    var h := Extended(g, n);
    forall i, j | 0 <= i < j < |h.nodes|
      ensures h.nodes[i].id != h.nodes[j].id
    {
      assert h.nodes[i] == g.nodes[i];
      assert j < |g.nodes| ==> h.nodes[j] == g.nodes[j];
    }
  }
}
