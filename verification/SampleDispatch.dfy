/** A concrete run of the credential protocol in which a native lookup takes place. */
module SampleDispatch {
  import opened Prelude
  import opened WorkflowGraph
  import opened E = GraphOperations
  import opened CredentialDispatch
  import DispatchRecovery
  import SampleRuns

  const APPROVAL := Request(0, 10, Some(1), 0, false)
  const FIRST_NODE := Plan(0, 0, "ada")

  /** Ready, start a graph, stage its first node, approve, claim, look up. */
  const STEPS: seq<Step> := [
    DoMarkReady, DoStart(0, SampleRuns.PAIR), DoStage(0, APPROVAL, 1, FIRST_NODE, 0, true),
    DoApprove(0, 0, true), DoClaim(0, 0, true), DoLookup(0, true)]

  lemma OneStep(digest: Digest, s: Store, steps: seq<Step>, i: nat)
    requires i < |steps|
    ensures RunSteps(digest, s, steps[i..]) == RunSteps(digest, Next(digest, s, steps[i]), steps[i + 1..])
  {
    hide Next;
    assert steps[i..][0] == steps[i] && steps[i..][1..] == steps[i + 1..];
  }

  /** A store in which nothing has happened to this graph yet. */
  const STARTED := EMPTY.(ready := true, executions := map[0 := Started(0, SampleRuns.PAIR)])

  lemma GraphStarts(digest: Digest)
    ensures Next(digest, Next(digest, EMPTY, STEPS[0]), STEPS[1]) == STARTED
  {
    hide Started, Verdict;
    SampleRuns.PairIsValid();
  }

  lemma NodeIsStaged()
    ensures var e := Started(0, SampleRuns.PAIR);
      && StageNode(e, 0, "ada", 1).Ok?
      && var nodes := StageNode(e, 0, "ada", 1).value.nodes;
      && Find(nodes, 0) == 0 < |nodes| && IsStagedAs(nodes[0], "ada", 1)
  {
    hide IsReady;
    var e := Started(0, SampleRuns.PAIR);
    SampleRuns.PairStarts(0);
    SampleRuns.ShownStates(e, Fresh(0), Fresh(1), Fresh(2));
    SampleRuns.ResearchIsReady(e, 0);
    assert !IsWhitespace("ada"[0]);
  }

  lemma LaunchIsStaged(digest: Digest)
    ensures var s := Next(digest, STARTED, STEPS[2]);
      && s.ready && s.requests == map[0 := APPROVAL] && s.grants == map[] && s.lookups == [] && CatalogFits(s.runs)
      && s.launches == map[0 := Launch(1, AwaitingDecision, 0)] && StagedContext(s, 0)
  {
    hide StageNode, Find, Started;
    NodeIsStaged();
  }

  lemma LaunchIsReady(digest: Digest, s: Store)
    requires s.ready && s.requests == map[0 := APPROVAL] && s.grants == map[] && s.lookups == []
    requires s.launches == map[0 := Launch(1, AwaitingDecision, 0)] && StagedContext(s, 0) && CatalogFits(s.runs)
    ensures var t := Next(digest, s, STEPS[3]); Claimable(t, 0, 0) && t.lookups == [] && CatalogFits(t.runs)
  {
    hide Find, CatalogFits, IsStagedAs;
  }

  lemma LaunchIsClaimed(digest: Digest, s: Store)
    requires Claimable(s, 0, 0) && s.lookups == [] && CatalogFits(s.runs)
    ensures var t := Next(digest, Next(digest, s, STEPS[4]), STEPS[5]); t.lookups == [0] && IsConsumed(t, 0)
  {
    hide CatalogFits, StagedContext, ActivateStagedNode, Usable;
    DispatchRecovery.ClaimExactlyWhen(s, 0, 0, true);
    DispatchRecovery.ClaimMovesTogether(s, 0, 0, true);
    ClaimLooksNothingUp(s);
  }

  lemma ClaimLooksNothingUp(s: Store)
    requires Claim(s, 0, 0, true).Some?
    ensures Claim(s, 0, 0, true).value.lookups == s.lookups
  {
    hide CatalogFits, Claimable, ActivateStagedNode;
  }

  /** From the empty store, six accepted steps lead to a lookup. */
  lemma LookupIsReachable(digest: Digest)
    ensures RunSteps(digest, EMPTY, STEPS).lookups == [0] && IsConsumed(RunSteps(digest, EMPTY, STEPS), 0)
  {
    hide Next, RunSteps, Claimable, StagedContext, CatalogFits, IsConsumed;
    assert STEPS[0..] == STEPS;
    OneStep(digest, EMPTY, STEPS, 0);
    OneStep(digest, Next(digest, EMPTY, STEPS[0]), STEPS, 1);
    GraphStarts(digest);
    OneStep(digest, STARTED, STEPS, 2);
    LaunchIsStaged(digest);
    var staged := Next(digest, STARTED, STEPS[2]);
    OneStep(digest, staged, STEPS, 3);
    LaunchIsReady(digest, staged);
    var ready := Next(digest, staged, STEPS[3]);
    OneStep(digest, ready, STEPS, 4);
    LaunchIsClaimed(digest, ready);
    OneStep(digest, Next(digest, ready, STEPS[4]), STEPS, 5);
    NoStepsLeft(digest, Next(digest, Next(digest, ready, STEPS[4]), STEPS[5]));
  }

  lemma NoStepsLeft(digest: Digest, s: Store)
    ensures RunSteps(digest, s, STEPS[6..]) == s
  {
    assert STEPS[6..] == [];
  }
}
