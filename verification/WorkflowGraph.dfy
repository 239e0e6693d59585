/** The workflow graph and its validation, including the depth-first cycle check. */
module WorkflowGraph {
  import opened Prelude

  type NodeId = nat
  type RoleId = nat
  type BaselineId = nat

  datatype NodeKind = Research | Join | Document

  datatype Node = Node(id: NodeId, kind: NodeKind, role: RoleId, title: string, needs: seq<NodeId>)

  datatype Graph = Graph(baseline: BaselineId, nodes: seq<Node>)

  datatype GraphError =
    | DuplicateNode | EmptyTitle | InvalidDependency | Cycle
    | InvalidResearchJoin | InvalidExecution | InvalidOutput

  function NodeIds(nodes: seq<Node>): (ids: seq<NodeId>)
    ensures |ids| == |nodes| && forall i :: 0 <= i < |nodes| ==> ids[i] == nodes[i].id
  {
    seq(|nodes|, i requires 0 <= i < |nodes| => nodes[i].id)
  }

  function Ids(g: Graph): set<NodeId> {
    Elements(NodeIds(g.nodes))
  }

  ghost predicate UniqueIds(g: Graph) {
    Distinct(NodeIds(g.nodes))
  }

  /** Position of the first node with this id, or the list's length (`iter().find`). */
  function FindNode(nodes: seq<Node>, id: NodeId): (i: nat)
    ensures i <= |nodes|
    ensures i < |nodes| ==> nodes[i].id == id
    ensures forall k :: 0 <= k < i ==> nodes[k].id != id
  {
    FirstWhere(nodes, (n: Node) => n.id == id)
  }

  /** The defining entry of a known id. */
  function Definition(g: Graph, id: NodeId): (node: Node)
    requires id in Ids(g)
    ensures node in g.nodes && node.id == id
  {
    g.nodes[FindNode(g.nodes, id)]
  }

  // ---------------------------------------------------------------- dependencies

  /** Some node `a` lists `b` among its needs. */
  ghost predicate Edge(g: Graph, a: NodeId, b: NodeId) {
    exists i :: 0 <= i < |g.nodes| && g.nodes[i].id == a && b in g.nodes[i].needs
  }

  ghost predicate IsPath(g: Graph, p: seq<NodeId>) {
    forall k :: 0 <= k < |p| - 1 ==> Edge(g, p[k], p[k + 1])
  }

  ghost predicate PathBetween(g: Graph, p: seq<NodeId>, a: NodeId, b: NodeId) {
    |p| >= 2 && p[0] == a && p[|p| - 1] == b && IsPath(g, p)
  }

  /** `b` is a transitive dependency of `a`. */
  ghost predicate DependsOn(g: Graph, a: NodeId, b: NodeId) {
    exists p :: PathBetween(g, p, a, b)
  }

  ghost predicate HasCycle(g: Graph) {
    exists a :: DependsOn(g, a, a)
  }

  ghost predicate ClosedNeeds(g: Graph) {
    forall a, b {:trigger Edge(g, a, b)} :: Edge(g, a, b) ==> a in Ids(g) && b in Ids(g)
  }

  lemma TailIsPath(g: Graph, p: seq<NodeId>, n: nat)
    requires IsPath(g, p) && n <= |p|
    ensures IsPath(g, p[n..])
  {
    var q := p[n..];
    forall k | 0 <= k < |q| - 1
      ensures Edge(g, q[k], q[k + 1])
    {
      var j := n + k;
      assert Edge(g, p[j], p[j + 1]);
    }
  }

  lemma PathExtend(g: Graph, p: seq<NodeId>, b: NodeId)
    requires IsPath(g, p) && p != [] && Edge(g, p[|p| - 1], b)
    ensures IsPath(g, p + [b])
  {
    var q := p + [b];
    forall k | 0 <= k < |q| - 1
      ensures Edge(g, q[k], q[k + 1])
    {
      if k < |p| - 1 {
        assert Edge(g, p[k], p[k + 1]);
      }
    }
  }

  lemma EdgeOfDefinition(g: Graph, id: NodeId)
    requires UniqueIds(g) && id in Ids(g)
    ensures forall b :: Edge(g, id, b) <==> b in Definition(g, id).needs
  {
    var k := FindNode(g.nodes, id);
    forall b | Edge(g, id, b)
      ensures b in Definition(g, id).needs
    {
      var i :| 0 <= i < |g.nodes| && g.nodes[i].id == id && b in g.nodes[i].needs;
      assert NodeIds(g.nodes)[i] == NodeIds(g.nodes)[k];
    }
  }

  lemma NeedIsKnown(g: Graph, id: NodeId, d: NodeId)
    requires UniqueIds(g) && ClosedNeeds(g) && id in Ids(g) && d in Definition(g, id).needs
    ensures d in Ids(g)
  {
    EdgeOfDefinition(g, id);
  }

  lemma DependsOnDirect(g: Graph, a: NodeId, b: NodeId)
    requires Edge(g, a, b)
    ensures DependsOn(g, a, b)
  {
    assert PathBetween(g, [a, b], a, b);
  }

  lemma DependsOnExtend(g: Graph, a: NodeId, b: NodeId, c: NodeId)
    requires Edge(g, a, b) && DependsOn(g, b, c)
    ensures DependsOn(g, a, c)
  {
    var p :| PathBetween(g, p, b, c);
    assert PathBetween(g, [a] + p, a, c);
  }

  /** A transitive dependency is a need, or a transitive dependency of a need. */
  lemma DependsOnFirst(g: Graph, a: NodeId, c: NodeId) returns (b: NodeId)
    requires DependsOn(g, a, c)
    ensures Edge(g, a, b) && (b == c || DependsOn(g, b, c))
  {
    var p :| PathBetween(g, p, a, c);
    b := p[1];
    assert Edge(g, p[0], p[0 + 1]);
    if |p| > 2 {
      assert PathBetween(g, p[1..], b, c);
    }
  }

  // ---------------------------------------------------------------- ranks

  /** `rank` numbers the ids of `done` so that every need has a smaller number. */
  ghost predicate Ranked(g: Graph, done: set<NodeId>, rank: map<NodeId, nat>) {
    && rank.Keys == done
    && (forall a {:trigger rank[a]} :: a in done ==> rank[a] < |done|)
    && forall a, b {:trigger Edge(g, a, b)} :: a in done && Edge(g, a, b) ==> b in done && rank[b] < rank[a]
  }

  lemma RankedExtend(g: Graph, done: set<NodeId>, rank: map<NodeId, nat>, id: NodeId)
    requires Ranked(g, done, rank) && id !in done
    requires forall b :: Edge(g, id, b) ==> b in done
    ensures Ranked(g, done + {id}, rank[id := |done|])
  {
  }

  lemma {:induction false} RankFallsAlongPath(g: Graph, done: set<NodeId>, rank: map<NodeId, nat>, p: seq<NodeId>)
    requires Ranked(g, done, rank) && IsPath(g, p) && |p| >= 2 && p[0] in done
    ensures p[|p| - 1] in done && rank[p[|p| - 1]] < rank[p[0]]
  {
    assert Edge(g, p[0], p[0 + 1]);
    if |p| > 2 {
      TailIsPath(g, p, 1);
      RankFallsAlongPath(g, done, rank, p[1..]);
    }
  }

  lemma RankedIsAcyclic(g: Graph, rank: map<NodeId, nat>)
    requires ClosedNeeds(g) && Ranked(g, Ids(g), rank)
    ensures !HasCycle(g)
  {
    forall a, p | PathBetween(g, p, a, a)
      ensures false
    {
      assert Edge(g, p[0], p[0 + 1]);
      RankFallsAlongPath(g, Ids(g), rank, p);
    }
  }

  ghost predicate HasNeedIn(g: Graph, a: NodeId, s: set<NodeId>) {
    exists b :: b in s && Edge(g, a, b)
  }

  /** A set whose members all need another member contains arbitrarily long walks. */
  lemma LongWalk(g: Graph, stuck: set<NodeId>, n: nat) returns (p: seq<NodeId>)
    requires stuck != {}
    requires forall a {:trigger HasNeedIn(g, a, stuck)} :: a in stuck ==> HasNeedIn(g, a, stuck)
    ensures |p| == n + 1 && IsPath(g, p) && forall k :: 0 <= k < |p| ==> p[k] in stuck
  {
    var a :| a in stuck;
    p := [a];
    while |p| <= n
      invariant 1 <= |p| <= n + 1 && IsPath(g, p) && forall k :: 0 <= k < |p| ==> p[k] in stuck
    {
      assert HasNeedIn(g, p[|p| - 1], stuck);
      var b :| b in stuck && Edge(g, p[|p| - 1], b);
      p := p + [b];
    }
  }

  lemma WalkRevisitIsCycle(g: Graph, p: seq<NodeId>, i: nat, j: nat)
    requires IsPath(g, p) && i < j < |p| && p[i] == p[j]
    ensures HasCycle(g)
  {
    var q := p[..j + 1][i..];
    assert IsPath(g, p[..j + 1]);
    TailIsPath(g, p[..j + 1], i);
    assert PathBetween(g, q, p[i], p[i]);
    assert DependsOn(g, p[i], p[i]);
  }

  /** The absence of directed cycles is exactly what a ranking needs. */
  lemma AcyclicHasRank(g: Graph) returns (rank: map<NodeId, nat>)
    requires ClosedNeeds(g) && !HasCycle(g)
    ensures Ranked(g, Ids(g), rank)
  {
    var done: set<NodeId> := {};
    rank := map[];
    while done != Ids(g)
      invariant done <= Ids(g) && Ranked(g, done, rank)
      decreases Ids(g) - done
    {
      var stuck := Ids(g) - done;
      if forall a {:trigger HasNeedIn(g, a, stuck)} :: a in stuck ==> HasNeedIn(g, a, stuck) {
        var p := LongWalk(g, stuck, |stuck|);
        var i, j := Pigeonhole(p, stuck);
        WalkRevisitIsCycle(g, p, i, j);
      }
      var a :| a in stuck && !HasNeedIn(g, a, stuck);
      RankedExtend(g, done, rank, a);
      done, rank := done + {a}, rank[a := |done|];
    }
  }

  // ---------------------------------------------------------------- validation

  predicate NeedsAreKnown(node: Node, ids: set<NodeId>) {
    forall d | d in node.needs :: d != node.id && d in ids
  }

  /** The first fault a scan of the nodes meets, if any. */
  function NodeFault(nodes: seq<Node>, ids: set<NodeId>): Option<GraphError> {
    if nodes == [] then None
    else if Blank(nodes[0].title) then Some(EmptyTitle)
    else if !NeedsAreKnown(nodes[0], ids) then Some(InvalidDependency)
    else NodeFault(nodes[1..], ids)
  }

  function OfKind(nodes: seq<Node>, kind: NodeKind): (picked: seq<Node>)
    ensures forall n :: n in picked <==> n in nodes && n.kind == kind
  {
    if nodes == [] then []
    else if nodes[0].kind == kind then [nodes[0]] + OfKind(nodes[1..], kind)
    else OfKind(nodes[1..], kind)
  }

  /** Exactly two research nodes without needs, and one join that needs exactly those two. */
  predicate IsResearchJoin(g: Graph) {
    var research := OfKind(g.nodes, Research);
    var joins := OfKind(g.nodes, Join);
    && |research| == 2 && |joins| == 1
    && Elements(joins[0].needs) == Elements(NodeIds(research))
    && forall n | n in research :: n.needs == []
  }

  /** What validation must answer, in the order in which the faults are looked for. */
  ghost function Verdict(g: Graph): Option<GraphError> {
    if !UniqueIds(g) then Some(DuplicateNode)
    else if NodeFault(g.nodes, Ids(g)).Some? then NodeFault(g.nodes, Ids(g))
    else if HasCycle(g) then Some(Cycle)
    else if !IsResearchJoin(g) then Some(InvalidResearchJoin)
    else None
  }

  ghost predicate WellFormed(g: Graph) {
    Verdict(g).None?
  }

  lemma {:induction false} NodeFaultMeaning(nodes: seq<Node>, ids: set<NodeId>)
    ensures NodeFault(nodes, ids).None? <==>
            forall n :: n in nodes ==> !Blank(n.title) && NeedsAreKnown(n, ids)
    ensures NodeFault(nodes, ids) in {None, Some(EmptyTitle), Some(InvalidDependency)}
  {
    if nodes != [] {
      NodeFaultMeaning(nodes[1..], ids);
      assert nodes == [nodes[0]] + nodes[1..];
    }
  }

  lemma NoFaultIsClosed(g: Graph)
    requires NodeFault(g.nodes, Ids(g)).None?
    ensures ClosedNeeds(g)
  {
    NodeFaultMeaning(g.nodes, Ids(g));
    forall a, b | Edge(g, a, b)
      ensures a in Ids(g) && b in Ids(g)
    {
      var i :| 0 <= i < |g.nodes| && g.nodes[i].id == a && b in g.nodes[i].needs;
      assert NodeIds(g.nodes)[i] == a;
    }
  }

  lemma WellFormedFacts(g: Graph)
    requires WellFormed(g)
    ensures UniqueIds(g) && ClosedNeeds(g) && !HasCycle(g) && IsResearchJoin(g)
  {
    NoFaultIsClosed(g);
  }

  /** The two mark sets of a search: on the current path, and finished with a ranking to show for it. */
  ghost predicate Marks(g: Graph, visiting: set<NodeId>, visited: set<NodeId>, rank: map<NodeId, nat>) {
    visiting <= Ids(g) && visited <= Ids(g) && visiting !! visited && Ranked(g, visited, rank)
  }

  /** `path` is a chain of needs, and the nodes before its end are the ones being visited. */
  ghost predicate SearchPath(g: Graph, path: seq<NodeId>, visiting: set<NodeId>) {
    path != [] && IsPath(g, path) && visiting == Elements(path[..|path| - 1])
  }

  lemma RevisitIsCycle(g: Graph, path: seq<NodeId>, visiting: set<NodeId>)
    requires SearchPath(g, path, visiting) && path[|path| - 1] in visiting
    ensures HasCycle(g)
  {
    var last := |path| - 1;
    var i :| 0 <= i < last && path[..last][i] == path[last];
    WalkRevisitIsCycle(g, path, i, last);
  }

  lemma DeeperPath(g: Graph, path: seq<NodeId>, visiting: set<NodeId>, d: NodeId)
    requires SearchPath(g, path, visiting) && UniqueIds(g)
    requires path[|path| - 1] in Ids(g) && d in Definition(g, path[|path| - 1]).needs
    ensures SearchPath(g, path + [d], visiting + {path[|path| - 1]})
  {
    EdgeOfDefinition(g, path[|path| - 1]);
    PathExtend(g, path, d);
    assert (path + [d])[..|path|] == path[..|path| - 1] + [path[|path| - 1]];
  }

  lemma FinishNode(g: Graph, id: NodeId, visiting: set<NodeId>, visited: set<NodeId>, rank: map<NodeId, nat>)
    requires UniqueIds(g) && id in Ids(g) && id !in visiting
    requires Marks(g, visiting + {id}, visited, rank)
    requires forall j :: 0 <= j < |Definition(g, id).needs| ==> Definition(g, id).needs[j] in visited
    ensures Marks(g, visiting, visited + {id}, rank[id := |visited|])
  {
    EdgeOfDefinition(g, id);
    RankedExtend(g, visited, rank, id);
  }

  lemma MoreVisited(needs: seq<NodeId>, k: nat, before: set<NodeId>, after: set<NodeId>)
    requires k < |needs| && before <= after && needs[k] in after
    requires forall j :: 0 <= j < k ==> needs[j] in before
    ensures forall j :: 0 <= j < k + 1 ==> needs[j] in after
  {
  }

  /**
    The recursive visit. `path` leads from the root of the search to `id`; `rank` orders
    everything finished so far. The nodes off the current path get fewer with every call.
   */
  method Visit(g: Graph, id: NodeId, visiting0: set<NodeId>, visited0: set<NodeId>,
               ghost path: seq<NodeId>, ghost rank0: map<NodeId, nat>)
    returns (error: Option<GraphError>, visiting: set<NodeId>, visited: set<NodeId>, ghost rank: map<NodeId, nat>)
    requires UniqueIds(g) && ClosedNeeds(g) && id in Ids(g)
    requires SearchPath(g, path, visiting0) && path[|path| - 1] == id
    requires Marks(g, visiting0, visited0, rank0)
    ensures error.Some? ==> error.value == Cycle && HasCycle(g)
    ensures error.None? ==> Marks(g, visiting, visited, rank)
    ensures error.None? ==> visiting == visiting0 && visited0 <= visited && id in visited
    decreases Ids(g) - visiting0
  {
    error, visiting, visited, rank := None, visiting0, visited0, rank0;
    if id in visited {
      return;
    }
    if id in visiting {
      RevisitIsCycle(g, path, visiting);
      error := Some(Cycle);
      return;
    }
    visiting := visiting + {id};
    var needs := Definition(g, id).needs;
    for k := 0 to |needs|
      invariant error.None? && visiting == visiting0 + {id} && visited0 <= visited
      invariant Marks(g, visiting, visited, rank)
      invariant forall j :: 0 <= j < k ==> needs[j] in visited
    {
      DeeperPath(g, path, visiting0, needs[k]);
      NeedIsKnown(g, id, needs[k]);
      ghost var before := visited;
      error, visiting, visited, rank := Visit(g, needs[k], visiting, visited, path + [needs[k]], rank);
      if error.Some? {
        return;
      }
      MoreVisited(needs, k, before, visited);
    }
    FinishNode(g, id, visiting0, visited, rank);
    visiting := visiting - {id};
    assert visiting == visiting0;
    rank := rank[id := |visited|];
    visited := visited + {id};
  }

  method Validate(g: Graph) returns (error: Option<GraphError>)
    ensures error == Verdict(g)
  {
    var ids := Ids(g);
    ElementsCount(NodeIds(g.nodes));
    if |ids| != |g.nodes| {
      return Some(DuplicateNode);
    }
    for k := 0 to |g.nodes|
      invariant NodeFault(g.nodes, ids) == NodeFault(g.nodes[k..], ids)
    {
      assert g.nodes[k..][0] == g.nodes[k] && g.nodes[k..][1..] == g.nodes[k + 1..];
      if Blank(g.nodes[k].title) {
        return Some(EmptyTitle);
      }
      if !NeedsAreKnown(g.nodes[k], ids) {
        return Some(InvalidDependency);
      }
    }
    NoFaultIsClosed(g);
    var visiting: set<NodeId>, visited: set<NodeId> := {}, {};
    ghost var rank: map<NodeId, nat> := map[];
    for k := 0 to |g.nodes|
      invariant visiting == {} && Marks(g, visiting, visited, rank)
      invariant forall i :: 0 <= i < k ==> g.nodes[i].id in visited
    {
      assert NodeIds(g.nodes)[k] in ids;
      ghost var before := visited;
      error, visiting, visited, rank := Visit(g, g.nodes[k].id, visiting, visited, [g.nodes[k].id], rank);
      if error.Some? {
        return;
      }
      forall i | 0 <= i < k + 1
        ensures g.nodes[i].id in visited
      {
        assert i < k ==> g.nodes[i].id in before;
      }
    }
    assert visited == ids;
    RankedIsAcyclic(g, rank);
    error := if IsResearchJoin(g) then None else Some(InvalidResearchJoin);
  }
}
