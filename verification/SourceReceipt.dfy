/** The catalog's check of the source receipts that document versions carry. */
module SourceReceipt {
  import opened Prelude
  import opened WorkflowGraph
  import opened AdapterContract
  import opened E = GraphOperations
  import opened ExecutionInvariant
  import opened ExecutionRuns

  datatype Version = Version(
    sourceExecution: Option<ExecutionId>, joinNode: Option<NodeId>, joinHash: Option<string>,
    sourceNodes: seq<NodeId>)

  /** Position of the first execution with this id, or the list's length. */
  function FindExecution(executions: seq<E.Execution>, id: ExecutionId): (k: nat)
    ensures k <= |executions|
    ensures k < |executions| ==> executions[k].id == id
    ensures forall j :: 0 <= j < k ==> executions[j].id != id
  {
    FirstWhere(executions, (e: E.Execution) => e.id == id)
  }

  predicate IsNodeOfKind(g: Graph, id: NodeId, kind: NodeKind) {
    var i := FindNode(g.nodes, id);
    i < |g.nodes| && g.nodes[i].kind == kind
  }

  /** The first node that has this id and is a join. */
  function FindJoin(nodes: seq<Node>, id: NodeId): Option<Node> {
    if nodes == [] then None
    else if nodes[0].id == id && nodes[0].kind == Join then Some(nodes[0])
    else FindJoin(nodes[1..], id)
  }

  /** A receipt names an execution, its join node, the join's sources and the join's output hash. */
  predicate InvalidReceipt(executions: seq<E.Execution>, v: Version) {
    if v.sourceExecution.None? || v.joinNode.None? || v.joinHash.None? then
      v.sourceExecution.Some? || v.joinNode.Some? || v.joinHash.Some?
    else
      var k := FindExecution(executions, v.sourceExecution.value);
      if k == |executions| then true
      else InvalidAgainst(executions[k], v.joinNode.value, v.joinHash.value, v.sourceNodes)
  }

  predicate InvalidAgainst(e: E.Execution, join: NodeId, hash: string, sources: seq<NodeId>) {
    var node := FindJoin(e.graph.nodes, join);
    || node.None?
    || Elements(sources) != Elements(node.value.needs)
    || (exists d | d in node.value.needs :: OutputOf(e, d).None? || !IsNodeOfKind(e.graph, d, Research))
    || OutputOf(e, join).None?
    || OutputOf(e, join).value.contentHash != hash
  }

  // ---------------------------------------------------------------- which receipts are accepted

  /** The receipt names all three things, or none of them. */
  predicate IsEmptyReceipt(v: Version) {
    v.sourceExecution.None? && v.joinNode.None? && v.joinHash.None?
  }

  /**
    The first execution of that id has a join node of that id whose needs are exactly the
    named sources; each source is a research node with an output, and the join has an output
    of that hash.
   */
  ghost predicate IsFounded(executions: seq<E.Execution>, v: Version, k: nat, c: nat) {
    && v.sourceExecution.Some? && v.joinNode.Some? && v.joinHash.Some?
    && k < |executions| && executions[k].id == v.sourceExecution.value
    && (forall j :: 0 <= j < k ==> executions[j].id != v.sourceExecution.value)
    && var nodes := executions[k].graph.nodes;
    && c < |nodes| && nodes[c].id == v.joinNode.value && nodes[c].kind == Join
    && (forall j :: 0 <= j < c ==> nodes[j].id != v.joinNode.value || nodes[j].kind != Join)
    && (forall d :: d in v.sourceNodes <==> d in nodes[c].needs)
    && (forall d :: d in nodes[c].needs ==>
          OutputOf(executions[k], d).Some? && IsResearch(executions[k].graph, d))
    && OutputOf(executions[k], v.joinNode.value).Some?
    && OutputOf(executions[k], v.joinNode.value).value.contentHash == v.joinHash.value
  }

  /** The first node with this id is a research node. */
  ghost predicate IsResearch(g: Graph, id: NodeId) {
    exists k :: 0 <= k < |g.nodes| && g.nodes[k].id == id && g.nodes[k].kind == Research
      && forall j :: 0 <= j < k ==> g.nodes[j].id != id
  }

  lemma ResearchMeans(g: Graph, id: NodeId)
    ensures IsNodeOfKind(g, id, Research) <==> IsResearch(g, id)
  {
    var i := FindNode(g.nodes, id);
    if k :| 0 <= k < |g.nodes| && g.nodes[k].id == id && g.nodes[k].kind == Research
            && forall j :: 0 <= j < k ==> g.nodes[j].id != id {
      assert i == k;
    }
  }

  lemma {:induction false} JoinMeans(nodes: seq<Node>, id: NodeId) returns (c: nat)
    ensures c <= |nodes| && forall j :: 0 <= j < c ==> nodes[j].id != id || nodes[j].kind != Join
    ensures if c < |nodes|
      then nodes[c].id == id && nodes[c].kind == Join && FindJoin(nodes, id) == Some(nodes[c])
      else FindJoin(nodes, id).None?
  {
    if nodes == [] || (nodes[0].id == id && nodes[0].kind == Join) {
      c := 0;
    } else {
      c := JoinMeans(nodes[1..], id);
      c := c + 1;
      assert forall j :: 1 <= j < |nodes| ==> nodes[j] == nodes[1..][j - 1];
    }
  }

  /** A receipt is accepted exactly when it is empty or founded; a wrong hash or source is refused. */
  lemma ReceiptAcceptedExactlyWhen(executions: seq<E.Execution>, v: Version)
    ensures !InvalidReceipt(executions, v) <==>
      IsEmptyReceipt(v) || exists k: nat, c: nat :: IsFounded(executions, v, k, c)
  {
    hide OutputOf, IsNodeOfKind, IsResearch, FindJoin;
    if v.sourceExecution.Some? && v.joinNode.Some? && v.joinHash.Some? {
      var k := FindExecution(executions, v.sourceExecution.value);
      if k < |executions| {
        var e := executions[k];
        var c := JoinMeans(e.graph.nodes, v.joinNode.value);
        forall d
          ensures IsNodeOfKind(e.graph, d, Research) <==> IsResearch(e.graph, d)
        {
          ResearchMeans(e.graph, d);
        }
        if c < |e.graph.nodes| {
          SourcesMean(v.sourceNodes, e.graph.nodes[c].needs);
        }
        assert !InvalidReceipt(executions, v) <==> IsFounded(executions, v, k, c);
        OnlyOneFoundation(executions, v, k, c);
      }
    }
  }

  lemma SourcesMean(sources: seq<NodeId>, needs: seq<NodeId>)
    ensures Elements(sources) == Elements(needs) <==> forall d :: d in sources <==> d in needs
  {
    if Elements(sources) == Elements(needs) {
      forall d
        ensures d in sources <==> d in needs
      {
        assert d in Elements(sources) <==> d in Elements(needs);
      }
    }
  }

  lemma OnlyOneFoundation(executions: seq<E.Execution>, v: Version, k: nat, c: nat)
    requires v.sourceExecution.Some? && v.joinNode.Some?
    requires k < |executions| && executions[k].id == v.sourceExecution.value
    requires forall j :: 0 <= j < k ==> executions[j].id != v.sourceExecution.value
    requires var nodes := executions[k].graph.nodes;
      && c <= |nodes| && (forall j :: 0 <= j < c ==> nodes[j].id != v.joinNode.value || nodes[j].kind != Join)
      && (c < |nodes| ==> nodes[c].id == v.joinNode.value && nodes[c].kind == Join)
    ensures (exists l: nat, d: nat :: IsFounded(executions, v, l, d)) <==> IsFounded(executions, v, k, c)
  {
    hide OutputOf, IsResearch;
  }

  /** Every node the receipt rests on succeeded in a bound run with a recorded output. */
  ghost predicate RestsOnSettled(executions: seq<E.Execution>, v: Version) {
    v.sourceExecution.Some? && v.joinNode.Some? ==>
      var k := FindExecution(executions, v.sourceExecution.value);
      k < |executions| ==>
        && (exists o :: Settled(executions[k], v.joinNode.value, o))
        && forall d :: d in v.sourceNodes ==> exists o :: Settled(executions[k], d, o)
  }

  /** Later states of the same list of executions, each after its own further operations. */
  ghost predicate Advanced(digest: Digest, executions: seq<E.Execution>, runs: seq<seq<Step>>,
                           later: seq<E.Execution>)
  {
    && |runs| == |executions| == |later|
    && forall j :: 0 <= j < |later| ==> later[j] == Run(digest, executions[j], runs[j])
  }

  lemma FindAdvanced(digest: Digest, executions: seq<E.Execution>, runs: seq<seq<Step>>, later: seq<E.Execution>,
                     id: ExecutionId)
    requires Advanced(digest, executions, runs, later)
    ensures FindExecution(later, id) == FindExecution(executions, id)
  {
    forall j | 0 <= j < |later|
      ensures later[j].id == executions[j].id
    {
      RunKeepsGraph(digest, executions[j], runs[j]);
    }
  }

  /** An accepted receipt that rests on settled nodes is accepted for ever after. */
  lemma AcceptedReceiptStays(digest: Digest, executions: seq<E.Execution>, runs: seq<seq<Step>>,
                             later: seq<E.Execution>, v: Version)
    requires Advanced(digest, executions, runs, later)
    requires !InvalidReceipt(executions, v) && RestsOnSettled(executions, v)
    ensures !InvalidReceipt(later, v)
  {
    hide InvalidAgainst;
    if v.sourceExecution.Some? && v.joinNode.Some? && v.joinHash.Some? {
      FindAdvanced(digest, executions, runs, later, v.sourceExecution.value);
      var k := FindExecution(executions, v.sourceExecution.value);
      ReceiptStaysValid(digest, executions[k], runs[k], v.joinNode.value, v.joinHash.value, v.sourceNodes);
    }
  }

  lemma ReceiptStaysValid(digest: Digest, e: E.Execution, steps: seq<Step>, join: NodeId, hash: string,
                          sources: seq<NodeId>)
    requires !InvalidAgainst(e, join, hash, sources)
    requires exists o :: Settled(e, join, o)
    requires forall d :: d in sources ==> exists o :: Settled(e, d, o)
    ensures !InvalidAgainst(Run(digest, e, steps), join, hash, sources)
  {
    hide Run, Settled, OutputOf;
    RunKeepsGraph(digest, e, steps);
    SettledStays(digest, e, steps, join);
    var node := FindJoin(e.graph.nodes, join).value;
    forall d | d in node.needs
      ensures OutputOf(Run(digest, e, steps), d).Some?
    {
      assert d in Elements(node.needs);
      SettledStays(digest, e, steps, d);
    }
  }

  lemma SettledStays(digest: Digest, e: E.Execution, steps: seq<Step>, id: NodeId)
    requires exists o :: Settled(e, id, o)
    ensures OutputOf(e, id).Some? && OutputOf(Run(digest, e, steps), id) == OutputOf(e, id)
  {
    var o :| Settled(e, id, o);
    SettledOutputStays(digest, e, steps, id, o);
  }

  // ---------------------------------------------------------------- exactly when an output is stable

  ghost predicate StableOutput(digest: Digest, e: E.Execution, id: NodeId) {
    forall steps :: OutputOf(Run(digest, e, steps), id) == OutputOf(e, id)
  }

  function LargestRun(outputs: seq<Output>): (m: nat)
    ensures forall o :: o in outputs ==> o.runId <= m
  {
    if outputs == [] then 0
    else
      var m := LargestRun(outputs[1..]);
      if outputs[0].runId > m then outputs[0].runId else m
  }

  lemma RunOne(digest: Digest, e: E.Execution, step: Step)
    ensures Run(digest, e, [step]) == Apply(digest, e, step)
  {
    hide Apply;
    assert Run(digest, Apply(digest, e, step), []) == Apply(digest, e, step);
  }

  /** An output can be recorded for a succeeded node without a bound run under any unused run id. */
  lemma RecordsUnderNewRun(digest: Digest, e: E.Execution, o: Output)
    requires StateOf(e.nodes, o.nodeId) == Some(Succeeded) && e.nodes[Find(e.nodes, o.nodeId)].runId.None?
    requires ValidOutput(digest, o) && o.runId > LargestRun(e.outputs)
    ensures RecordOutput(digest, e, o) == Ok(e.(outputs := e.outputs + [o]))
    ensures OutputOf(e.(outputs := e.outputs + [o]), o.nodeId) == Some(o)
  {
  }

  lemma SmallOutputIsValid(digest: Digest, id: NodeId, run: RunId)
    ensures ValidOutput(digest, Output(id, run, digest("a"), "a"))
  {
    assert !IsWhitespace("a"[0]);
    assert Utf8Length("a") == 1 + Utf8Length("a"[1..]);
  }

  lemma OutputIsRecorded(e: E.Execution, id: NodeId)
    ensures OutputOf(e, id).Some? ==> OutputOf(e, id).value in e.outputs
  {
  }

  /** A further output of a succeeded node without a bound run takes the place of the first. */
  lemma UnboundOutputIsReplaced(digest: Digest, e: E.Execution, id: NodeId)
    requires StateOf(e.nodes, id) == Some(Succeeded)
    requires e.nodes[Find(e.nodes, id)].runId.None? && OutputOf(e, id).Some?
    ensures exists steps :: OutputOf(Run(digest, e, steps), id) != OutputOf(e, id)
  {
    hide Run, RecordOutput, ValidOutput, OutputOf;
    var run := LargestRun(e.outputs) + 1;
    OutputIsRecorded(e, id);
    var o := Output(id, run, digest("a"), "a");
    SmallOutputIsValid(digest, id, run);
    RecordsUnderNewRun(digest, e, o);
    RunOne(digest, e, DoRecord(o));
    assert OutputOf(Run(digest, e, [DoRecord(o)]), id) == Some(o);
    assert OutputOf(e, id) != Some(o);
  }

  /** A succeeded node's output can never change again exactly when its run is bound. */
  lemma StableExactlyWhenBound(digest: Digest, e: E.Execution, id: NodeId)
    requires StateOf(e.nodes, id) == Some(Succeeded) && OutputOf(e, id).Some?
    ensures StableOutput(digest, e, id) <==> e.nodes[Find(e.nodes, id)].runId.Some?
  {
    if e.nodes[Find(e.nodes, id)].runId.Some? {
      assert Settled(e, id, OutputOf(e, id).value);
      forall steps
        ensures OutputOf(Run(digest, e, steps), id) == OutputOf(e, id)
      {
        SettledStays(digest, e, steps, id);
      }
    } else {
      UnboundOutputIsReplaced(digest, e, id);
    }
  }

  // ---------------------------------------------------------------- when an output is possible at all

  /** Some output under this run was recorded for another node. */
  ghost predicate RunIsSpent(outputs: seq<Output>, id: NodeId, run: RunId) {
    exists o :: o in outputs && o.runId == run && o.nodeId != id
  }

  /** One output per run. */
  ghost predicate OneOutputPerRun(outputs: seq<Output>) {
    Distinct(OutputRuns(outputs))
  }

  lemma SpentRunStaysSpent(outputs: seq<Output>, longer: seq<Output>, id: NodeId, run: RunId)
    requires outputs <= longer && RunIsSpent(outputs, id, run)
    ensures RunIsSpent(longer, id, run)
  {
    var o :| o in outputs && o.runId == run && o.nodeId != id;
    assert o in longer;
  }

  lemma SpentRunGivesNone(outputs: seq<Output>, id: NodeId, run: RunId)
    requires OneOutputPerRun(outputs) && RunIsSpent(outputs, id, run)
    ensures FirstOutput(outputs, id, run).None?
  {
    var o :| o in outputs && o.runId == run && o.nodeId != id;
    if FirstOutput(outputs, id, run).Some? {
      SameRunSameOutput(outputs, o, FirstOutput(outputs, id, run).value);
    }
  }

  lemma SameRunSameOutput(outputs: seq<Output>, o: Output, p: Output)
    requires OneOutputPerRun(outputs) && o in outputs && p in outputs && o.runId == p.runId
    ensures o == p
  {
    var i :| 0 <= i < |outputs| && outputs[i] == o;
    var j :| 0 <= j < |outputs| && outputs[j] == p;
    assert OutputRuns(outputs)[i] == OutputRuns(outputs)[j];
  }

  lemma StepKeepsOneOutputPerRun(digest: Digest, e: E.Execution, step: Step)
    requires OneOutputPerRun(e.outputs)
    ensures OneOutputPerRun(Apply(digest, e, step).outputs)
  {
    if step.DoRecord? && RecordOutput(digest, e, step.output).Ok? {
      var before, after := e.outputs, e.outputs + [step.output];
      forall i, j | 0 <= i < j < |after|
        ensures OutputRuns(after)[i] != OutputRuns(after)[j]
      {
        assert after[i] == before[i];
        if j < |before| {
          assert OutputRuns(before)[i] != OutputRuns(before)[j];
        }
      }
    } else {
      OnlyRecordingWrites(digest, e, step);
    }
  }

  lemma OnlyRecordingWrites(digest: Digest, e: E.Execution, step: Step)
    requires !step.DoRecord? || RecordOutput(digest, e, step.output).Err?
    ensures Apply(digest, e, step).outputs == e.outputs
  {
    hide RecordOutput;
  }

  /** A succeeded node whose run carries another node's output never gets one of its own. */
  lemma {:induction false} SpentRunNeverPays(digest: Digest, e: E.Execution, steps: seq<Step>, id: NodeId, run: RunId)
    requires OneOutputPerRun(e.outputs) && RunIsSpent(e.outputs, id, run)
    requires StateOf(e.nodes, id) == Some(Succeeded) && e.nodes[Find(e.nodes, id)].runId == Some(run)
    ensures OutputOf(Run(digest, e, steps), id).None?
    decreases |steps|
  {
    hide Apply, FirstOutput, OneOutputPerRun, RunIsSpent;
    if steps == [] {
      SpentRunGivesNone(e.outputs, id, run);
    } else {
      var after := Apply(digest, e, steps[0]);
      SucceededIsFinal(digest, e, steps[0], Find(e.nodes, id));
      FindSame(e.nodes, after.nodes, id);
      SpentRunStaysSpent(e.outputs, after.outputs, id, run);
      StepKeepsOneOutputPerRun(digest, e, steps[0]);
      SpentRunNeverPays(digest, after, steps[1..], id, run);
    }
  }

  lemma RecordsUnderItsRun(digest: Digest, e: E.Execution, o: Output)
    requires StateOf(e.nodes, o.nodeId) == Some(Succeeded) && e.nodes[Find(e.nodes, o.nodeId)].runId == Some(o.runId)
    requires ValidOutput(digest, o) && forall p :: p in e.outputs ==> p.runId != o.runId
    ensures OutputOf(Apply(digest, e, DoRecord(o)), o.nodeId).Some?
  {
    var after := Apply(digest, e, DoRecord(o));
    assert after.outputs == e.outputs + [o] && o in after.outputs;
  }

  /**
    A succeeded node with a bound run has an output, now or after some operations, exactly
    when its run carries no output of another node.
   */
  lemma OutputPossibleExactlyWhen(digest: Digest, e: E.Execution, id: NodeId, run: RunId)
    requires OneOutputPerRun(e.outputs)
    requires StateOf(e.nodes, id) == Some(Succeeded) && e.nodes[Find(e.nodes, id)].runId == Some(run)
    ensures (exists steps :: OutputOf(Run(digest, e, steps), id).Some?) <==> !RunIsSpent(e.outputs, id, run)
  {
    hide Run, Apply, ValidOutput, OneOutputPerRun;
    if RunIsSpent(e.outputs, id, run) {
      forall steps
        ensures OutputOf(Run(digest, e, steps), id).None?
      {
        SpentRunNeverPays(digest, e, steps, id, run);
      }
    } else if o :| o in e.outputs && o.runId == run {
      assert o.nodeId == id && OutputOf(e, id).Some?;
      RunNothing(digest, e);
      assert OutputOf(Run(digest, e, []), id).Some?;
    } else {
      var o := Output(id, run, digest("a"), "a");
      SmallOutputIsValid(digest, id, run);
      RecordsUnderItsRun(digest, e, o);
      RunOne(digest, e, DoRecord(o));
      assert OutputOf(Run(digest, e, [DoRecord(o)]), id).Some?;
    }
  }

  lemma RunNothing(digest: Digest, e: E.Execution)
    ensures Run(digest, e, []) == e
  {
  }
}
