/** Two concrete runs, from the start, into the states in which the obvious expectations fail. */
module SampleRuns {
  import opened Prelude
  import opened WorkflowGraph
  import opened AdapterContract
  import opened GraphOperations
  import opened ExecutionInvariant
  import opened ExecutionRuns
  import SourceReceipt

  const FIRST: Node := Node(0, Research, 0, "first", [])
  const SECOND: Node := Node(1, Research, 0, "second", [])
  const SUMMARY: Node := Node(2, Join, 0, "summary", [0, 1])

  /** Two research nodes and their join. */
  const PAIR: Graph := Graph(0, [FIRST, SECOND, SUMMARY])

  lemma PairIds()
    ensures NodeIds(PAIR.nodes) == [0, 1, 2] && Ids(PAIR) == {0, 1, 2} && UniqueIds(PAIR)
  {
    assert NodeIds(PAIR.nodes) == [0, 1, 2];
  }

  lemma PairEdges()
    ensures forall a, b {:trigger Edge(PAIR, a, b)} :: Edge(PAIR, a, b) <==> a == 2 && b in {0, 1}
  {
    forall a, b
      ensures Edge(PAIR, a, b) <==> a == 2 && b in {0, 1}
    {
      assert PAIR.nodes[2] == SUMMARY;
    }
  }

  lemma PairIsAcyclic()
    ensures !HasCycle(PAIR)
  {
    PairIds();
    PairEdges();
    RankedIsAcyclic(PAIR, map[0 := 0, 1 := 1, 2 := 2]);
  }

  lemma PairHasNoFault()
    ensures NodeFault(PAIR.nodes, {0, 1, 2}).None?
  {
    NodeFaultMeaning(PAIR.nodes, {0, 1, 2});
    forall n | n in PAIR.nodes
      ensures !Blank(n.title)
    {
      assert !IsWhitespace(n.title[0]);
    }
  }

  lemma PairIsResearchJoin()
    ensures IsResearchJoin(PAIR)
  {
    var nodes := PAIR.nodes;
    assert nodes[1..] == [SECOND, SUMMARY] && nodes[1..][1..] == [SUMMARY];
    assert [SUMMARY][1..] == [];
    assert OfKind([SUMMARY], Research) == [] && OfKind([SUMMARY], Join) == [SUMMARY];
    assert OfKind([SECOND, SUMMARY], Research) == [SECOND] && OfKind([SECOND, SUMMARY], Join) == [SUMMARY];
    assert OfKind(nodes, Research) == [FIRST, SECOND] && OfKind(nodes, Join) == [SUMMARY];
    assert NodeIds([FIRST, SECOND]) == [0, 1];
    assert Elements([0, 1]) == Elements(SUMMARY.needs);
  }

  lemma PairIsValid()
    ensures Verdict(PAIR).None?
  {
    PairIds();
    PairHasNoFault();
    PairIsAcyclic();
    PairIsResearchJoin();
  }

  // ---------------------------------------------------------------- running step by step

  /** An execution of the pair whose entries are these. */
  ghost predicate Shows(e: Execution, first: NodeExecution, second: NodeExecution, summary: NodeExecution) {
    && e.graph == PAIR && e.nodes == [first, second, summary]
    && first.nodeId == 0 && second.nodeId == 1 && summary.nodeId == 2
  }

  lemma ShownStates(e: Execution, first: NodeExecution, second: NodeExecution, summary: NodeExecution)
    requires Shows(e, first, second, summary)
    ensures Find(e.nodes, 0) == 0 && Find(e.nodes, 1) == 1 && Find(e.nodes, 2) == 2
    ensures StateOf(e.nodes, 0) == Some(first.state) && StateOf(e.nodes, 1) == Some(second.state)
    ensures StateOf(e.nodes, 2) == Some(summary.state)
  {
    assert e.nodes[0] == first && e.nodes[1] == second && e.nodes[2] == summary;
    assert UniqueNodes(e.nodes);
    FindUnique(e.nodes, 0);
    FindUnique(e.nodes, 1);
    FindUnique(e.nodes, 2);
  }

  lemma ResearchIsReady(e: Execution, i: nat)
    requires e.graph == PAIR && i < 2 && i < |e.nodes| && e.nodes[i].nodeId == i && e.nodes[i].state == Pending
    ensures IsReady(e, i)
  {
    PairIds();
    var k := FindNode(PAIR.nodes, i);
    assert PAIR.nodes[i].id == i && k <= i;
  }

  lemma PairStarts(id: ExecutionId)
    ensures Shows(Started(id, PAIR), Fresh(0), Fresh(1), Fresh(2)) && Started(id, PAIR).outputs == []
  {
    assert Started(id, PAIR).nodes == [Fresh(0), Fresh(1), Fresh(2)];
  }

  /** Claiming a pending research node by its id. */
  lemma ClaimShows(digest: Digest, e: Execution, first: NodeExecution, second: NodeExecution, summary: NodeExecution,
                   id: NodeId)
    requires Shows(e, first, second, summary) && id < 2 && e.nodes[id].state == Pending
    ensures var after := Apply(digest, e, DoClaimNode(id, "ada"));
      && after.outputs == e.outputs
      && (id == 0 ==> Shows(after, Claimed(first, "ada"), second, summary))
      && (id == 1 ==> Shows(after, first, Claimed(second, "ada"), summary))
  {
    ShownStates(e, first, second, summary);
    ResearchIsReady(e, id);
    assert !IsWhitespace("ada"[0]);
  }

  /** Ending a running research node; if it fails or is blocked, the pending join becomes blocked. */
  lemma FinishShows(digest: Digest, e: Execution, first: NodeExecution, second: NodeExecution, summary: NodeExecution,
                    id: NodeId, state: NodeState)
    requires Shows(e, first, second, summary) && id < 2 && state in {Failed, Blocked}
    requires e.nodes[id].state == Running && e.nodes[id].owner == Some("ada")
    ensures var after := Apply(digest, e, DoFinish(id, "ada", state, None));
      && (id == 0 ==> Shows(after, Finished(first, "ada", state, None), second, after.nodes[2]))
      && (id == 1 ==> Shows(after, first, Finished(second, "ada", state, None), after.nodes[2]))
  {
    ShownStates(e, first, second, summary);
    var n := Finished(e.nodes[id], "ada", state, None);
    var after := Apply(digest, e, DoFinish(id, "ada", state, None));
    assert after.nodes == BlockDependents(PAIR, e.nodes[id := n], id);
    forall k | 0 <= k < 2
      ensures !DependsOn(PAIR, k, id)
    {
      NothingBelowResearch(k, id);
    }
    assert after.nodes == [after.nodes[0], after.nodes[1], after.nodes[2]];
  }

  lemma NothingBelowResearch(a: NodeId, b: NodeId)
    requires a < 2
    ensures !DependsOn(PAIR, a, b)
  {
    PairEdges();
    if DependsOn(PAIR, a, b) {
      var c := DependsOnFirst(PAIR, a, b);
    }
  }

  // ---------------------------------------------------------------- a retry that is not confined

  /** The provider reports the first node blocked, the second fails. */
  const BLOCKED_AND_FAILED: seq<Step> := [
    DoClaimNode(0, "ada"), DoClaimNode(1, "ada"),
    DoFinish(0, "ada", Blocked, None), DoFinish(1, "ada", Failed, None)]

  lemma RunOfFour(digest: Digest, e: Execution, s: seq<Step>)
    requires |s| == 4
    ensures Run(digest, e, s) == Apply(digest, Apply(digest, Apply(digest, Apply(digest, e, s[0]), s[1]), s[2]), s[3])
  {
    hide Apply;
    assert s[..1] == [] + [s[0]] && s[..2] == s[..1] + [s[1]] && s[..3] == s[..2] + [s[2]] && s == s[..3] + [s[3]];
    RunLonger(digest, e, [], s[0]);
    RunLonger(digest, e, s[..1], s[1]);
    RunLonger(digest, e, s[..2], s[2]);
    RunLonger(digest, e, s[..3], s[3]);
    assert Run(digest, e, []) == e;
  }

  /** The retry of the second node is reachable, accepted, and reopens the unrelated first one. */
  lemma UnconfinedRetryIsReachable(digest: Digest, id: ExecutionId)
    ensures Verdict(PAIR).None?
    ensures var e := Run(digest, Started(id, PAIR), BLOCKED_AND_FAILED);
      && StateOf(e.nodes, 0) == Some(Blocked) && !DependsOn(PAIR, 0, 1)
      && RetryFailed(e, 1).Ok? && StateOf(RetryFailed(e, 1).value.nodes, 0) == Some(Pending)
      && !RetryIsConfined(e, 1)
  {
    hide Run, Apply, Sound, Verdict, RetryIsConfined;
    PairIsValid();
    StartedSound(digest, id);
    RunIsSound(digest, Started(id, PAIR), BLOCKED_AND_FAILED);
    RunKeepsGraph(digest, Started(id, PAIR), BLOCKED_AND_FAILED);
    var e := Run(digest, Started(id, PAIR), BLOCKED_AND_FAILED);
    BlockedAndFailed(digest, id);
    RetryIsAccepted(e, 1);
    PairEdges();
    RetryReopensProviderBlocked(digest, e, 1, 0);
  }

  lemma StartedSound(digest: Digest, id: ExecutionId)
    ensures Sound(digest, Started(id, PAIR))
  {
    PairIsValid();
    StartedIsSound(digest, id, PAIR);
  }

  lemma RetryIsAccepted(e: Execution, id: NodeId)
    requires StateOf(e.nodes, id) == Some(Failed)
    ensures RetryFailed(e, id).Ok?
  {
  }

  lemma BlockedAndFailed(digest: Digest, id: ExecutionId)
    ensures var e := Run(digest, Started(id, PAIR), BLOCKED_AND_FAILED);
      StateOf(e.nodes, 0) == Some(Blocked) && StateOf(e.nodes, 1) == Some(Failed)
  {
    hide Run, Apply, Started;
    RunOfFour(digest, Started(id, PAIR), BLOCKED_AND_FAILED);
    PairStarts(id);
    var e0 := Started(id, PAIR);
    ClaimShows(digest, e0, Fresh(0), Fresh(1), Fresh(2), 0);
    var e1 := Apply(digest, e0, DoClaimNode(0, "ada"));
    var first := Claimed(Fresh(0), "ada");
    ClaimShows(digest, e1, first, Fresh(1), Fresh(2), 1);
    var e2 := Apply(digest, e1, DoClaimNode(1, "ada"));
    var second := Claimed(Fresh(1), "ada");
    FinishShows(digest, e2, first, second, Fresh(2), 0, Blocked);
    var e3 := Apply(digest, e2, DoFinish(0, "ada", Blocked, None));
    FinishShows(digest, e3, Finished(first, "ada", Blocked, None), second, e3.nodes[2], 1, Failed);
    var e4 := Apply(digest, e3, DoFinish(1, "ada", Failed, None));
    ShownStates(e4, Finished(first, "ada", Blocked, None), Finished(second, "ada", Failed, None), e4.nodes[2]);
  }

  // ---------------------------------------------------------------- an output that is replaced

  function Note(digest: Digest, run: RunId): Output {
    Output(0, run, digest("a"), "a")
  }

  /** A node claimed without a run, completed, and given an output under each of two run ids. */
  function TwoOutputs(digest: Digest): seq<Step> {
    [DoClaimNode(0, "ada"), DoComplete(0, "ada", true), DoRecord(Note(digest, 1)), DoRecord(Note(digest, 2))]
  }

  lemma RunOfThree(digest: Digest, e: Execution, s: seq<Step>)
    requires |s| == 4
    ensures Run(digest, e, s[..3]) == Apply(digest, Apply(digest, Apply(digest, e, s[0]), s[1]), s[2])
  {
    hide Apply;
    assert s[..1] == [] + [s[0]] && s[..2] == s[..1] + [s[1]] && s[..3] == s[..2] + [s[2]];
    RunLonger(digest, e, [], s[0]);
    RunLonger(digest, e, s[..1], s[1]);
    RunLonger(digest, e, s[..2], s[2]);
    assert Run(digest, e, []) == e;
  }

  /** From the start, a succeeded node's output gives way to one recorded later. */
  lemma ReplacedOutputIsReachable(digest: Digest, id: ExecutionId)
    ensures Verdict(PAIR).None?
    ensures var before := Run(digest, Started(id, PAIR), TwoOutputs(digest)[..3]);
      && StateOf(before.nodes, 0) == Some(Succeeded) && OutputOf(before, 0) == Some(Note(digest, 1))
      && OutputOf(Run(digest, Started(id, PAIR), TwoOutputs(digest)), 0) == Some(Note(digest, 2))
  {
    hide Run, Apply, Started, Verdict;
    PairIsValid();
    var s, e0 := TwoOutputs(digest), Started(id, PAIR);
    RunOfThree(digest, e0, s);
    RunOfFour(digest, e0, s);
    PairStarts(id);
    ClaimShows(digest, e0, Fresh(0), Fresh(1), Fresh(2), 0);
    var e1 := Apply(digest, e0, s[0]);
    var first := Claimed(Fresh(0), "ada");
    CompleteShows(digest, e1, first);
    var e2 := Apply(digest, e1, s[1]);
    RecordShows(digest, e2, Finished(first, "ada", Succeeded, None), 1);
    var e3 := Apply(digest, e2, s[2]);
    RecordShows(digest, e3, Finished(first, "ada", Succeeded, None), 2);
    ShownStates(e3, Finished(first, "ada", Succeeded, None), Fresh(1), Fresh(2));
  }

  lemma CompleteShows(digest: Digest, e: Execution, first: NodeExecution)
    requires Shows(e, first, Fresh(1), Fresh(2)) && first.state == Running && first.owner == Some("ada")
    ensures var after := Apply(digest, e, DoComplete(0, "ada", true));
      Shows(after, Finished(first, "ada", Succeeded, None), Fresh(1), Fresh(2)) && after.outputs == e.outputs
  {
    ShownStates(e, first, Fresh(1), Fresh(2));
  }

  lemma RecordShows(digest: Digest, e: Execution, first: NodeExecution, run: RunId)
    requires Shows(e, first, Fresh(1), Fresh(2)) && first.state == Succeeded && first.runId.None?
    requires forall o :: o in e.outputs ==> o.runId < run
    ensures var after := Apply(digest, e, DoRecord(Note(digest, run)));
      && Shows(after, first, Fresh(1), Fresh(2)) && after.outputs == e.outputs + [Note(digest, run)]
      && OutputOf(after, 0) == Some(Note(digest, run))
  {
    hide ValidOutput, Fresh;
    ShownStates(e, first, Fresh(1), Fresh(2));
    NoteIsValid(digest, run);
  }

  lemma NoteIsValid(digest: Digest, run: RunId)
    ensures ValidOutput(digest, Note(digest, run))
  {
    assert !IsWhitespace("a"[0]);
    assert Utf8Length("a") == 1 + Utf8Length("a"[1..]);
  }

  // ---------------------------------------------------------------- two nodes in one run

  /** Both research nodes are claimed and bound to the same run, and both succeed; the first gives an output. */
  function SharedRun(digest: Digest): seq<Step> {
    [DoClaimNode(0, "ada"), DoClaimNode(1, "ada"), DoBind(0, "ada", 7), DoBind(1, "ada", 7),
     DoComplete(0, "ada", true), DoComplete(1, "ada", true), DoRecord(Note(digest, 7))]
  }

  lemma BindShows(digest: Digest, e: Execution, first: NodeExecution, second: NodeExecution, id: NodeId)
    requires Shows(e, first, second, Fresh(2)) && id < 2 && e.nodes[id].state == Running
    requires e.nodes[id].owner == Some("ada") && e.nodes[id].runId.None?
    ensures var after := Apply(digest, e, DoBind(id, "ada", 7));
      && after.outputs == e.outputs
      && (id == 0 ==> Shows(after, first.(runId := Some(7)), second, Fresh(2)))
      && (id == 1 ==> Shows(after, first, second.(runId := Some(7)), Fresh(2)))
  {
    hide Fresh;
    ShownStates(e, first, second, Fresh(2));
  }

  lemma SucceedShows(digest: Digest, e: Execution, first: NodeExecution, second: NodeExecution, id: NodeId)
    requires Shows(e, first, second, Fresh(2)) && id < 2
    requires e.nodes[id].state == Running && e.nodes[id].owner == Some("ada")
    ensures var after := Apply(digest, e, DoComplete(id, "ada", true));
      && after.outputs == e.outputs
      && (id == 0 ==> Shows(after, Finished(first, "ada", Succeeded, None), second, Fresh(2)))
      && (id == 1 ==> Shows(after, first, Finished(second, "ada", Succeeded, None), Fresh(2)))
  {
    hide Fresh;
    ShownStates(e, first, second, Fresh(2));
  }

  /** A run bound to both nodes: reachable, accepted, and the second node can then never have an output. */
  lemma SharedRunIsReachable(digest: Digest, id: ExecutionId, later: seq<Step>)
    ensures Verdict(PAIR).None?
    ensures var start, steps := Started(id, PAIR), SharedRun(digest);
      && RunsDiffer(Moment(digest, start, steps, 3).nodes) && BindsTakenRun(Moment(digest, start, steps, 3), steps[3])
      && !RunsDiffer(Moment(digest, start, steps, 4).nodes)
      && StateOf(Moment(digest, start, steps, 7).nodes, 1) == Some(Succeeded)
      && OutputOf(Run(digest, Moment(digest, start, steps, 7), later), 1).None?
  {
    hide Run, Apply, Started, Verdict, Moment, RunsDiffer, BindsTakenRun, Fresh, Claimed, Finished;
    PairIsValid();
    var start, steps := Started(id, PAIR), SharedRun(digest);
    var first, second := Claimed(Fresh(0), "ada").(runId := Some(7)), Claimed(Fresh(1), "ada").(runId := Some(7));
    BoundTwice(digest, id);
    SharedRunEnds(digest, id);
    var e := Moment(digest, start, steps, 7);
    SharedRunIsSpent(digest, e, first, second, later);
  }

  lemma MomentZero(digest: Digest, e: Execution, steps: seq<Step>)
    ensures Moment(digest, e, steps, 0) == e
  {
    assert steps[..0] == [];
    assert Run(digest, e, []) == e;
  }

  lemma ClaimedTwice(digest: Digest, id: ExecutionId)
    ensures var e := Moment(digest, Started(id, PAIR), SharedRun(digest), 2);
      Shows(e, Claimed(Fresh(0), "ada"), Claimed(Fresh(1), "ada"), Fresh(2)) && e.outputs == []
  {
    hide Run, Apply, Started, Moment, Fresh;
    var start, steps := Started(id, PAIR), SharedRun(digest);
    PairStarts(id);
    MomentZero(digest, start, steps);
    NextMoment(digest, start, steps, 0);
    NextMoment(digest, start, steps, 1);
    FreshIsPending();
    ClaimShows(digest, start, Fresh(0), Fresh(1), Fresh(2), 0);
    ClaimShows(digest, Moment(digest, start, steps, 1), Claimed(Fresh(0), "ada"), Fresh(1), Fresh(2), 1);
  }

  lemma FreshIsPending()
    ensures forall id :: Fresh(id).state == Pending && Fresh(id).nodeId == id && Fresh(id).runId.None?
  {
  }

  lemma BoundTwice(digest: Digest, id: ExecutionId)
    ensures var start, steps := Started(id, PAIR), SharedRun(digest);
      var first, second := Claimed(Fresh(0), "ada"), Claimed(Fresh(1), "ada");
      && RunsDiffer(Moment(digest, start, steps, 3).nodes) && BindsTakenRun(Moment(digest, start, steps, 3), steps[3])
      && !RunsDiffer(Moment(digest, start, steps, 4).nodes)
      && Shows(Moment(digest, start, steps, 4), first.(runId := Some(7)), second.(runId := Some(7)), Fresh(2))
      && Moment(digest, start, steps, 4).outputs == []
  {
    hide Run, Apply, Started, Moment;
    var start, steps := Started(id, PAIR), SharedRun(digest);
    var first, second := Claimed(Fresh(0), "ada"), Claimed(Fresh(1), "ada");
    ClaimedTwice(digest, id);
    NextMoment(digest, start, steps, 2);
    NextMoment(digest, start, steps, 3);
    BindShows(digest, Moment(digest, start, steps, 2), first, second, 0);
    var e3 := Moment(digest, start, steps, 3);
    BindShows(digest, e3, first.(runId := Some(7)), second, 1);
    var e4 := Moment(digest, start, steps, 4);
    ShownStates(e3, first.(runId := Some(7)), second, Fresh(2));
    assert e4.nodes[0].runId == e4.nodes[1].runId == Some(7);
    assert e3.nodes[0] in e3.nodes;
  }

  lemma SharedRunEnds(digest: Digest, id: ExecutionId)
    ensures var e := Moment(digest, Started(id, PAIR), SharedRun(digest), 7);
      var first, second := Claimed(Fresh(0), "ada").(runId := Some(7)), Claimed(Fresh(1), "ada").(runId := Some(7));
      && Shows(e, Finished(first, "ada", Succeeded, None), Finished(second, "ada", Succeeded, None), Fresh(2))
      && e.outputs == [Note(digest, 7)]
  {
    hide Run, Apply, Started, Moment, RunsDiffer, BindsTakenRun, Fresh;
    var start, steps := Started(id, PAIR), SharedRun(digest);
    var first, second := Claimed(Fresh(0), "ada").(runId := Some(7)), Claimed(Fresh(1), "ada").(runId := Some(7));
    BoundTwice(digest, id);
    NextMoment(digest, start, steps, 4);
    NextMoment(digest, start, steps, 5);
    NextMoment(digest, start, steps, 6);
    SucceedShows(digest, Moment(digest, start, steps, 4), first, second, 0);
    SucceedShows(digest, Moment(digest, start, steps, 5), Finished(first, "ada", Succeeded, None), second, 1);
    NoteShows(digest, Moment(digest, start, steps, 6), Finished(first, "ada", Succeeded, None),
      Finished(second, "ada", Succeeded, None));
  }

  lemma NoteShows(digest: Digest, e: Execution, first: NodeExecution, second: NodeExecution)
    requires Shows(e, first, second, Fresh(2)) && first.state == Succeeded && first.runId == Some(7) && e.outputs == []
    ensures var after := Apply(digest, e, DoRecord(Note(digest, 7)));
      Shows(after, first, second, Fresh(2)) && after.outputs == [Note(digest, 7)]
  {
    hide ValidOutput, Fresh;
    ShownStates(e, first, second, Fresh(2));
    NoteIsValid(digest, 7);
  }

  lemma SharedRunIsSpent(digest: Digest, e: Execution, first: NodeExecution, second: NodeExecution, later: seq<Step>)
    requires first.runId == Some(7) && second.runId == Some(7) && e.outputs == [Note(digest, 7)]
    requires Shows(e, Finished(first, "ada", Succeeded, None), Finished(second, "ada", Succeeded, None), Fresh(2))
    ensures StateOf(e.nodes, 1) == Some(Succeeded) && OutputOf(Run(digest, e, later), 1).None?
  {
    hide Run, OutputOf, Fresh;
    ShownStates(e, Finished(first, "ada", Succeeded, None), Finished(second, "ada", Succeeded, None), Fresh(2));
    assert e.outputs[0] in e.outputs;
    assert SourceReceipt.RunIsSpent(e.outputs, 1, 7);
    SourceReceipt.SpentRunNeverPays(digest, e, later, 1, 7);
  }
}
