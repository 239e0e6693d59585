/** What a committed claim guarantees until its lookup is recorded or the daemon restarts. */
module DispatchRecovery {
  import opened Prelude
  import opened WorkflowGraph
  import opened AdapterContract
  import opened E = GraphOperations
  import opened ExecutionInvariant
  import opened ExecutionRuns
  import opened CredentialDispatch

  // ---------------------------------------------------------------- spent grants stay as they are

  ghost predicate Spent(s: Store, id: RequestId) {
    IsConsumed(s, id) || IsRevoked(s, id)
  }

  lemma CancelLeavesSpent(s: Store, id: RequestId, now: Time, other: RequestId, intact: bool)
    requires CancelForRequest(s, id, now, intact).Some? && Spent(s, other)
    ensures other in CancelForRequest(s, id, now, intact).value.grants
    ensures CancelForRequest(s, id, now, intact).value.grants[other] == s.grants[other]
  {
    hide CancelStagedNode, Find;
  }

  /** No step changes a grant once it is consumed or revoked. */
  lemma SpentIsFinal(digest: Digest, s: Store, step: CredentialDispatch.Step, id: RequestId)
    requires Spent(s, id)
    ensures id in Next(digest, s, step).grants && Next(digest, s, step).grants[id] == s.grants[id]
  {
    hide CancelForRequest, FailClaim, StagedContext, ActivateStagedNode, StageNode, Find, Blank, Utf8Length, Apply,
      Started, ReconcileAfterRestart, ValidTime;
    if Attempted(digest, s, step).Some? {
      match step
      case DoRevoke(other, actor, now, intact) =>
        CancelLeavesSpent(RevokedAt(s, other, now), other, now, id, intact);
      case DoDeny(other, now, intact) =>
        CancelLeavesSpent(Decided(s, other), other, now, id, intact);
      case DoCancel(other, now, intact) => CancelLeavesSpent(s, other, now, id, intact);
      case DoFailClaim(other, intact) => FailClaimLeavesGrants(s, other, intact);
      case _ =>
    }
  }

  lemma FailClaimLeavesGrants(s: Store, id: RequestId, intact: bool)
    requires FailClaim(s, id, intact).Some?
    ensures FailClaim(s, id, intact).value.grants == s.grants
  {
    hide FinishTerminal, Find;
  }

  /** A consumed grant is never un-consumed, and a revoked one never revived, whatever happens. */
  lemma {:induction false} SpentForEver(digest: Digest, s: Store, steps: seq<CredentialDispatch.Step>, id: RequestId)
    requires Spent(s, id)
    ensures id in RunSteps(digest, s, steps).grants && RunSteps(digest, s, steps).grants[id] == s.grants[id]
    decreases |steps|
  {
    hide Next;
    if steps != [] {
      SpentIsFinal(digest, s, steps[0], id);
      SpentForEver(digest, Next(digest, s, steps[0]), steps[1..], id);
    }
  }

  // ---------------------------------------------------------------- after a crash

  /** The grant is spent and nothing in memory remembers it any more. */
  ghost predicate Forgotten(s: Store, id: RequestId) {
    IsConsumed(s, id) && id !in s.claims && id !in s.receipts
  }

  lemma ForgottenStays(digest: Digest, s: Store, step: CredentialDispatch.Step, id: RequestId)
    requires Forgotten(s, id)
    ensures Forgotten(Next(digest, s, step), id)
    ensures id in Next(digest, s, step).lookups <==> id in s.lookups
  {
    hide FailClaim, CancelForRequest, StagedContext, ActivateStagedNode, StageNode, Apply, Started;
    hide ReconcileAfterRestart;
    hide ValidTime, Blank, Utf8Length;
    SpentIsFinal(digest, s, step, id);
    if Attempted(digest, s, step).Some? {
      match step
      case DoRevoke(other, actor, now, intact) =>
        CancelLeavesMemory(RevokedAt(s, other, now), other, now, id, intact);
      case DoDeny(other, now, intact) =>
        CancelLeavesMemory(Decided(s, other), other, now, id, intact);
      case DoCancel(other, now, intact) => CancelLeavesMemory(s, other, now, id, intact);
      case DoFailClaim(other, intact) => FailClaimLeavesMemory(s, other, id, intact);
      case _ =>
    }
  }

  lemma CancelLeavesMemory(s: Store, other: RequestId, now: Time, id: RequestId, intact: bool)
    requires CancelForRequest(s, other, now, intact).Some?
    ensures var t := CancelForRequest(s, other, now, intact).value;
      && t.claims == s.claims && t.receipts == s.receipts && t.lookups == s.lookups
      && t.launches.Keys == s.launches.Keys
      && (id in s.launches && s.launches[id].state == LaunchUncertain ==>
            id in t.launches && t.launches[id] == s.launches[id])
  {
    hide CancelStagedNode, Find;
  }

  lemma FailClaimLeavesMemory(s: Store, other: RequestId, id: RequestId, intact: bool)
    requires FailClaim(s, other, intact).Some?
    ensures var t := FailClaim(s, other, intact).value;
      && t.claims == s.claims && t.receipts == s.receipts && t.lookups == s.lookups
      && t.launches.Keys == s.launches.Keys
      && (id in s.launches && s.launches[id].state == LaunchUncertain ==>
            id in t.launches && t.launches[id] == s.launches[id])
  {
    hide FinishTerminal, Find;
  }

  lemma UncertainLaunchStays(digest: Digest, s: Store, step: CredentialDispatch.Step, id: RequestId)
    requires id in s.launches && s.launches[id].state == LaunchUncertain
    ensures id in Next(digest, s, step).launches && Next(digest, s, step).launches[id] == s.launches[id]
  {
    hide FailClaim, CancelForRequest, ActivateStagedNode, StageNode, Apply, Started, ReconcileAfterRestart, Find;
    hide ValidTime, Blank, Utf8Length;
    if Attempted(digest, s, step).Some? {
      match step
      case DoRevoke(other, actor, now, intact) =>
        CancelLeavesMemory(RevokedAt(s, other, now), other, now, id, intact);
      case DoDeny(other, now, intact) =>
        CancelLeavesMemory(Decided(s, other), other, now, id, intact);
      case DoCancel(other, now, intact) => CancelLeavesMemory(s, other, now, id, intact);
      case DoFailClaim(other, intact) => FailClaimLeavesMemory(s, other, id, intact);
      case _ =>
    }
  }

  lemma {:induction false} ForgottenForEver(digest: Digest, s: Store, steps: seq<CredentialDispatch.Step>,
                                            id: RequestId)
    requires Forgotten(s, id)
    requires id in s.launches ==> s.launches[id].state == LaunchUncertain
    ensures var t := RunSteps(digest, s, steps);
      && Forgotten(t, id) && (id in t.lookups <==> id in s.lookups)
      && (id in s.launches ==> id in t.launches && t.launches[id] == s.launches[id])
    decreases |steps|
  {
    hide Next, Forgotten;
    if steps != [] {
      ForgottenStays(digest, s, steps[0], id);
      if id in s.launches {
        UncertainLaunchStays(digest, s, steps[0], id);
      } else {
        SpentStaysUnstaged(digest, s, steps[0], id);
      }
      ForgottenForEver(digest, Next(digest, s, steps[0]), steps[1..], id);
    }
  }

  lemma SpentStaysUnstaged(digest: Digest, s: Store, step: CredentialDispatch.Step, id: RequestId)
    requires Forgotten(s, id) && id !in s.launches
    ensures id !in Next(digest, s, step).launches
  {
    hide FailClaim, CancelForRequest, ActivateStagedNode, StageNode, Apply, Started, ReconcileAfterRestart, Find;
    hide ValidTime, Blank, Utf8Length, IsStagedAs;
    if Attempted(digest, s, step).Some? {
      match step
      case DoRevoke(other, actor, now, intact) =>
        CancelLeavesMemory(RevokedAt(s, other, now), other, now, id, intact);
      case DoDeny(other, now, intact) =>
        CancelLeavesMemory(Decided(s, other), other, now, id, intact);
      case DoCancel(other, now, intact) => CancelLeavesMemory(s, other, now, id, intact);
      case DoFailClaim(other, intact) => FailClaimLeavesMemory(s, other, id, intact);
      case _ =>
    }
  }

  /**
    A crash after a claim is neither replayed nor refunded: the launch is uncertain from then
    on, the grant stays spent, and whether its lookup was made never changes again.
   */
  lemma RestartNeverReplays(digest: Digest, before: seq<CredentialDispatch.Step>, id: RequestId,
                            after: seq<CredentialDispatch.Step>)
    requires var s := RunSteps(digest, EMPTY, before); id in s.launches && s.launches[id].state == Dispatching
    ensures var s := RunSteps(digest, EMPTY, before);
      var t := RunSteps(digest, Restart(s), after);
      && IsConsumed(s, id) && IsConsumed(t, id) && t.grants[id] == s.grants[id]
      && (id in t.lookups <==> id in s.lookups)
      && id in t.launches && t.launches[id].state == LaunchUncertain
  {
    hide RunSteps, ReconcileAfterRestart;
    var s := RunSteps(digest, EMPTY, before);
    EmptyIsSafe();
    RunStepsKeep(digest, EMPTY, before);
    assert GrantFitsLaunch(s, id);
    ForgottenForEver(digest, Restart(s), after, id);
    SpentForEver(digest, Restart(s), after, id);
  }

  // ---------------------------------------------------------------- the catalog stays valid

  lemma ClaimKeepsCatalog(s: Store, id: RequestId, now: Time, authorized: bool)
    requires Claim(s, id, now, authorized).Some?
    ensures CatalogFits(Claim(s, id, now, authorized).value.runs)
  {
    hide CatalogFits, Claimable, ActivateStagedNode;
  }

  lemma CancelKeepsCatalog(s: Store, id: RequestId, now: Time, intact: bool)
    requires CatalogFits(s.runs) && CancelForRequest(s, id, now, intact).Some?
    ensures CatalogFits(CancelForRequest(s, id, now, intact).value.runs)
  {
    hide CatalogFits, StagedContext, CancelStagedNode;
  }

  lemma FailClaimKeepsCatalog(s: Store, id: RequestId, intact: bool)
    requires FailClaim(s, id, intact).Some?
    ensures CatalogFits(FailClaim(s, id, intact).value.runs)
  {
    hide CatalogFits, Find, FinishTerminal;
  }

  lemma StageKeepsCatalog(s: Store, id: RequestId, r: Request, run: RunId, plan: Plan, now: Time, intact: bool)
    requires Stage(s, id, r, run, plan, now, intact).Some?
    ensures CatalogFits(Stage(s, id, r, run, plan, now, intact).value.runs)
  {
    hide CatalogFits, StageNode;
  }

  /** Recovery gives no run a state that its recorded times do not fit. */
  lemma RestartKeepsCatalog(s: Store)
    requires CatalogFits(s.runs)
    ensures CatalogFits(Restart(s).runs)
  {
    hide RecoveredLaunch, ReconcileAfterRestart;
    forall run | run in s.runs
      ensures TimingFits(RecoveredRun(s.runs[run]))
    {
      assert TimingFits(s.runs[run]);
    }
  }

  lemma NextKeepsCatalog(digest: Digest, s: Store, step: CredentialDispatch.Step)
    requires CatalogFits(s.runs)
    ensures CatalogFits(Next(digest, s, step).runs)
  {
    hide CatalogFits, Claim, FailClaim, CancelForRequest, Stage, Approve, Restart, Apply, Started;
    hide Blank, Utf8Length, ValidTime;
    if Attempted(digest, s, step).Some? {
      match step
      case DoClaim(id, now, authorized) => ClaimKeepsCatalog(s, id, now, authorized);
      case DoFailClaim(id, intact) => FailClaimKeepsCatalog(s, id, intact);
      case DoRevoke(id, actor, now, intact) =>
        CancelKeepsCatalog(RevokedAt(s, id, now), id, now, intact);
      case DoDeny(id, now, intact) =>
        CancelKeepsCatalog(Decided(s, id), id, now, intact);
      case DoCancel(id, now, intact) => CancelKeepsCatalog(s, id, now, intact);
      case DoStage(id, r, run, plan, now, intact) => StageKeepsCatalog(s, id, r, run, plan, now, intact);
      case DoApprove(id, now, authorized) => ApproveLeavesRuns(s, id, now, authorized);
      case DoRestart => RestartKeepsCatalog(s);
      case _ =>
    }
  }

  lemma ApproveLeavesRuns(s: Store, id: RequestId, now: Time, authorized: bool)
    requires Approve(s, id, now, authorized).Some?
    ensures Approve(s, id, now, authorized).value.runs == s.runs
  {
    hide StagedContext, ValidTime;
  }

  /** Validation accepts the catalog in every reachable state. */
  lemma {:induction false} RunStepsKeepCatalog(digest: Digest, s: Store, steps: seq<CredentialDispatch.Step>)
    requires CatalogFits(s.runs)
    ensures CatalogFits(RunSteps(digest, s, steps).runs)
    decreases |steps|
  {
    hide CatalogFits, Next;
    if steps != [] {
      NextKeepsCatalog(digest, s, steps[0]);
      RunStepsKeepCatalog(digest, Next(digest, s, steps[0]), steps[1..]);
    }
  }

  lemma EmptyCatalogFits()
    ensures CatalogFits(EMPTY.runs)
  {
  }

  // ---------------------------------------------------------------- exactly when a transaction commits

  lemma ChangedRunFits(runs: map<RunId, RunRow>, run: RunId, row: RunRow)
    requires CatalogFits(runs) && TimingFits(row)
    ensures CatalogFits(runs[run := row])
  {
  }

  /** With a valid catalog, its check never refuses a claim. */
  lemma ClaimExactlyWhen(s: Store, id: RequestId, now: Time, authorized: bool)
    requires CatalogFits(s.runs)
    ensures Claim(s, id, now, authorized).Some? <==> Claimable(s, id, now) && authorized
  {
    hide CatalogFits, Usable, Find;
    if Claimable(s, id, now) {
      var run := s.launches[id].run;
      ChangedRunFits(s.runs, run, s.runs[run].(state := RunStarting, startedAt := Some(now)));
    }
  }

  /** A request without a launch, or with one that was cancelled before, has nothing to cancel. */
  predicate NothingToCancel(s: Store, id: RequestId) {
    id !in s.launches || s.launches[id].state == LaunchCancelled
  }

  /** With a valid catalog, its check never refuses a cancellation. */
  lemma CancelExactlyWhen(s: Store, id: RequestId, now: Time, intact: bool)
    requires CatalogFits(s.runs)
    ensures CancelForRequest(s, id, now, intact).Some? <==> NothingToCancel(s, id) || (StagedContext(s, id) && intact)
  {
    hide CatalogFits, Find;
    if StagedContext(s, id) {
      var run, finished := s.launches[id].run, Later(now, s.launches[id].stagedAt);
      ChangedRunFits(s.runs, run, s.runs[run].(state := RunCancelled, finishedAt := Some(finished)));
    }
  }

  /** Nothing but an unusable grant, a launch that is no longer as staged or damaged data refuses a revocation. */
  lemma RevokeExactlyWhen(s: Store, id: RequestId, actor: string, now: Time, intact: bool)
    requires Safe(s) && CatalogFits(s.runs)
    ensures Revoke(s, id, actor, now, intact).Some? <==>
      && !Blank(actor) && Utf8Length(actor) <= 200 && Usable(s, id, now) && intact
      && (id in s.launches ==> StagedContext(s, id))
  {
    hide CancelForRequest, CatalogFits, Blank, Utf8Length, Find, LookupsAreCovered, NeverBoth, RunsAreOwned;
    if Usable(s, id, now) {
      CancelExactlyWhen(RevokedAt(s, id, now), id, now, intact);
      assert id in s.launches ==> GrantFitsLaunch(s, id);
    }
  }

  /** The same for staging: the node must be ready for this run, and the request and run new. */
  lemma StageExactlyWhen(s: Store, id: RequestId, r: Request, run: RunId, plan: Plan, now: Time, intact: bool)
    requires CatalogFits(s.runs)
    ensures Stage(s, id, r, run, plan, now, intact).Some? <==>
      && s.ready && intact
      && id !in s.requests && id !in s.grants && id !in s.launches && run !in s.runs && run !in s.plans
      && r.run == Some(run) && !r.decided && plan.execution in s.executions
      && StageNode(s.executions[plan.execution], plan.node, plan.owner, run).Ok?
  {
    hide CatalogFits, StageNode;
    ChangedRunFits(s.runs, run, RunRow(RunAwaitingApproval, None, None));
  }

  // ---------------------------------------------------------------- a dispatch in flight

  /** This entry runs the given run for the given owner. */
  predicate RunsAs(n: NodeExecution, owner: string, run: RunId) {
    n.state == Running && n.owner == Some(owner) && n.runId == Some(run)
  }

  predicate NodeRunsAs(e: E.Execution, node: NodeId, owner: string, run: RunId) {
    var i := Find(e.nodes, node);
    i < |e.nodes| && RunsAs(e.nodes[i], owner, run)
  }

  /** Grant, launch, run and node as a claim leaves them, all together. */
  ghost predicate InFlight(s: Store, id: RequestId) {
    && IsConsumed(s, id)
    && id in s.launches && s.launches[id].state == Dispatching
    && var run := s.launches[id].run;
    && run in s.runs && s.runs[run].state == RunStarting && s.runs[run].startedAt.Some?
    && run in s.plans && s.plans[run].execution in s.executions
    && NodeRunsAs(s.executions[s.plans[run].execution], s.plans[run].node, s.plans[run].owner, run)
  }

  /** A claim moves grant, launch, run and node together. */
  lemma ClaimMovesTogether(s: Store, id: RequestId, now: Time, authorized: bool)
    requires Claim(s, id, now, authorized).Some?
    ensures var t := Claim(s, id, now, authorized).value;
      && InFlight(t, id) && id in t.claims && t.grants[id].consumedAt == Some(now)
      && t.runs[t.launches[id].run].startedAt == Some(now)
  {
    var plan := s.plans[s.launches[id].run];
    var e := s.executions[plan.execution];
    var i := Find(e.nodes, plan.node);
    FindSame(e.nodes, e.nodes[i := Activated(e.nodes[i])], plan.node);
  }

  /** The run, launch and node of a dispatch whose lookup failed. */
  ghost predicate EndedUncertain(s: Store, id: RequestId) {
    && IsConsumed(s, id)
    && id in s.launches && s.launches[id].state == LaunchUncertain
    && var run := s.launches[id].run;
    && run in s.runs && s.runs[run].state == RunUncertain
    && run in s.plans && s.plans[run].execution in s.executions
    && StateOf(s.executions[s.plans[run].execution].nodes, s.plans[run].node) == Some(Uncertain)
  }

  /**
    In flight, with a catalog that fits, only the checks left out can refuse to record a
    failed lookup: the catalog is found valid again, and everything ends uncertain.
   */
  lemma FailureCanBeRecorded(s: Store, id: RequestId, intact: bool)
    requires InFlight(s, id) && CatalogFits(s.runs)
    ensures FailClaim(s, id, intact).Some? <==> intact
    ensures intact ==>
      var t := FailClaim(s, id, intact).value;
      && EndedUncertain(t, id) && CatalogFits(t.runs) && t.grants == s.grants && t.lookups == s.lookups
      && t.launches == s.launches[id := s.launches[id].(state := LaunchUncertain)]
  {
    var run := s.launches[id].run;
    var plan := s.plans[run];
    var e := s.executions[plan.execution];
    var i := Find(e.nodes, plan.node);
    FindSame(e.nodes, e.nodes[i := Finished(e.nodes[i], plan.owner, Uncertain, None)], plan.node);
  }

  // ---------------------------------------------------------------- who can touch a running node

  /** The graph operation is addressed to this node, or to all running nodes. */
  predicate Names(step: ExecutionRuns.Step, node: NodeId) {
    match step
    case DoClaimReady(_, _) => false
    case DoClaimNode(id, _) => id == node
    case DoStage(id, _, _) => id == node
    case DoActivate(id, _, _) => id == node
    case DoCancelStaged(id, _, _) => id == node
    case DoBind(id, _, _) => id == node
    case DoComplete(id, _, _) => id == node
    case DoFinish(id, _, _, _) => id == node
    case DoRecord(_) => false
    case DoRetry(id) => id == node
    case DoReconcile => true
  }

  /** An operation addressed elsewhere leaves a running node exactly as it is. */
  lemma RunningStays(digest: Digest, e: E.Execution, step: ExecutionRuns.Step, node: NodeId, owner: string, run: RunId)
    requires NodeRunsAs(e, node, owner, run) && !Names(step, node)
    ensures NodeRunsAs(Apply(digest, e, step), node, owner, run)
  {
    var after := Apply(digest, e, step);
    var i := Find(e.nodes, node);
    RunningEntryStays(digest, e, step, i, node);
    FindSame(e.nodes, after.nodes, node);
  }

  lemma RunningEntryStays(digest: Digest, e: E.Execution, step: ExecutionRuns.Step, i: nat, node: NodeId)
    requires i < |e.nodes| && e.nodes[i].state == Running && e.nodes[i].nodeId == node && !Names(step, node)
    ensures var after := Apply(digest, e, step); SameNodes(e.nodes, after.nodes) && after.nodes[i] == e.nodes[i]
  {
    hide IsReady, RunInUse, ValidOutput, CancelStagedNode, FinishTerminal, RetryFailed, ClaimReady;
    if step.DoClaimReady? && ClaimReady(e, step.owner, step.limit).Ok? {
      ClaimSkipsRunning(e, step.owner, step.limit, i);
    } else if step.DoCancelStaged? || step.DoComplete? || step.DoFinish? {
      EndingSkipsRunning(digest, e, step, i);
    } else if step.DoRetry? && RetryFailed(e, step.id).Ok? {
      RetrySkipsRunning(e, step.id, i);
    }
  }

  lemma EndingSkipsRunning(digest: Digest, e: E.Execution, step: ExecutionRuns.Step, i: nat)
    requires i < |e.nodes| && e.nodes[i].state == Running && !Names(step, e.nodes[i].nodeId)
    requires step.DoCancelStaged? || step.DoComplete? || step.DoFinish?
    ensures var after := Apply(digest, e, step); SameNodes(e.nodes, after.nodes) && after.nodes[i] == e.nodes[i]
  {
    hide DependsOn, ClaimReady, ClaimNode, StageNode, ActivateStagedNode, BindRun, RecordOutput, RetryFailed;
  }

  lemma RetrySkipsRunning(e: E.Execution, id: NodeId, i: nat)
    requires i < |e.nodes| && e.nodes[i].state == Running && RetryFailed(e, id).Ok?
    ensures var after := RetryFailed(e, id).value; SameNodes(e.nodes, after.nodes) && after.nodes[i] == e.nodes[i]
  {
    hide Stuck;
  }

  lemma ClaimSkipsRunning(e: E.Execution, owner: string, limit: nat, i: nat)
    requires i < |e.nodes| && e.nodes[i].state == Running && ClaimReady(e, owner, limit).Ok?
    ensures var after := ClaimReady(e, owner, limit).value.1;
      SameNodes(e.nodes, after.nodes) && after.nodes[i] == e.nodes[i]
  {
    hide IsReady;
    ChosenIsPending(e, limit, i);
  }

  lemma ChosenIsPending(e: E.Execution, limit: nat, i: nat)
    requires i < |e.nodes| && e.nodes[i].state == Running
    ensures i !in Chosen(e, limit)
  {
  }

  // ---------------------------------------------------------------- nothing else ends a dispatch

  /** The step is addressed to the launch's run or node, or is a restart. */
  predicate Touches(s: Store, step: CredentialDispatch.Step, id: RequestId)
    requires id in s.launches && s.launches[id].run in s.plans
  {
    var run := s.launches[id].run;
    match step
    case DoFailClaim(other, _) => other == id
    case DoRun(other, _) => other == run
    case DoGraph(x, graphStep) => x == s.plans[run].execution && Names(graphStep, s.plans[run].node)
    case DoRestart => true
    case _ => false
  }

  /** The tables of a dispatch after a change of one other run, launch and execution. */
  lemma OtherRowsKeep(s: Store, t: Store, id: RequestId)
    requires InFlight(s, id)
    requires id in t.grants && t.grants[id] == s.grants[id] && id in t.launches && t.launches[id] == s.launches[id]
    requires var run := s.launches[id].run;
      && run in t.runs && t.runs[run] == s.runs[run] && run in t.plans && t.plans[run] == s.plans[run]
      && s.plans[run].execution in t.executions
      && NodeRunsAs(t.executions[s.plans[run].execution], s.plans[run].node, s.plans[run].owner, run)
    ensures InFlight(t, id)
  {
  }

  /** A graph operation on behalf of another run keeps the node of a dispatch running. */
  lemma OtherOperationKeeps(digest: Digest, s: Store, id: RequestId, x: ExecutionId, step: ExecutionRuns.Step,
                            after: E.Execution)
    requires InFlight(s, id) && x in s.executions && Attempt(digest, s.executions[x], step) == Ok(after)
    requires x == s.plans[s.launches[id].run].execution ==> !Names(step, s.plans[s.launches[id].run].node)
    ensures var plan := s.plans[s.launches[id].run];
      NodeRunsAs(s.executions[x := after][plan.execution], plan.node, plan.owner, s.launches[id].run)
  {
    hide Attempt;
    var plan := s.plans[s.launches[id].run];
    if x == plan.execution {
      RunningStays(digest, s.executions[x], step, plan.node, plan.owner, s.launches[id].run);
      assert Apply(digest, s.executions[x], step) == after;
    }
  }

  lemma ClaimKeepsOther(digest: Digest, s: Store, id: RequestId, other: RequestId, now: Time, authorized: bool)
    requires Safe(s) && InFlight(s, id) && Claim(s, other, now, authorized).Some?
    ensures InFlight(Claim(s, other, now, authorized).value, id)
    ensures Claim(s, other, now, authorized).value.launches[id] == s.launches[id]
  {
    var t := Claim(s, other, now, authorized).value;
    var run := s.launches[other].run;
    var plan := s.plans[run];
    assert other != id;
    OtherOperationKeeps(digest, s, id, plan.execution, DoActivate(plan.node, plan.owner, run),
      t.executions[plan.execution]);
    OtherRowsKeep(s, t, id);
  }

  lemma CancelKeepsOther(digest: Digest, s: Store, id: RequestId, other: RequestId, now: Time, intact: bool)
    requires RunsAreOwned(s) && InFlight(s, id) && CancelForRequest(s, other, now, intact).Some?
    ensures InFlight(CancelForRequest(s, other, now, intact).value, id)
    ensures CancelForRequest(s, other, now, intact).value.launches[id] == s.launches[id]
  {
    var t := CancelForRequest(s, other, now, intact).value;
    if other in s.launches && s.launches[other].state != LaunchCancelled {
      var run := s.launches[other].run;
      var plan := s.plans[run];
      assert other != id;
      CancelOperation(digest, s, other, now, intact);
      OtherOperationKeeps(digest, s, id, plan.execution, DoCancelStaged(plan.node, plan.owner, run),
        t.executions[plan.execution]);
      CancelLeavesSpent(s, other, now, id, intact);
      CancelFrame(s, other, now, id, intact);
      OtherRowsKeep(s, t, id);
    }
  }

  lemma CancelOperation(digest: Digest, s: Store, other: RequestId, now: Time, intact: bool)
    requires other in s.launches && s.launches[other].state != LaunchCancelled
    requires CancelForRequest(s, other, now, intact).Some?
    ensures var run := s.launches[other].run;
      && run in s.plans && s.plans[run].execution in s.executions
      && var plan, t := s.plans[run], CancelForRequest(s, other, now, intact).value;
      && t.executions.Keys == s.executions.Keys
      && Attempt(digest, s.executions[plan.execution], DoCancelStaged(plan.node, plan.owner, run))
         == Ok(t.executions[plan.execution])
      && t.executions == s.executions[plan.execution := t.executions[plan.execution]]
  {
    hide CancelStagedNode, Find;
  }

  lemma CancelFrame(s: Store, other: RequestId, now: Time, id: RequestId, intact: bool)
    requires CancelForRequest(s, other, now, intact).Some? && RunsAreOwned(s) && id != other && id in s.launches
    requires s.launches[id].run in s.runs
    ensures var t := CancelForRequest(s, other, now, intact).value;
      && id in t.launches && t.launches[id] == s.launches[id] && t.plans == s.plans
      && s.launches[id].run in t.runs && t.runs[s.launches[id].run] == s.runs[s.launches[id].run]
  {
    hide CancelStagedNode, Find;
  }

  lemma FailClaimKeepsOther(digest: Digest, s: Store, id: RequestId, other: RequestId, intact: bool)
    requires Safe(s) && InFlight(s, id) && other != id && FailClaim(s, other, intact).Some?
    ensures InFlight(FailClaim(s, other, intact).value, id)
    ensures FailClaim(s, other, intact).value.launches[id] == s.launches[id]
  {
    var t := FailClaim(s, other, intact).value;
    var run := s.launches[other].run;
    var plan := s.plans[run];
    OtherOperationKeeps(digest, s, id, plan.execution, DoFinish(plan.node, plan.owner, Uncertain, None),
      t.executions[plan.execution]);
    OtherRowsKeep(s, t, id);
  }

  lemma StageKeepsOther(digest: Digest, s: Store, id: RequestId, other: RequestId, r: Request, run: RunId,
                        plan: Plan, now: Time, intact: bool)
    requires Safe(s) && InFlight(s, id) && Stage(s, other, r, run, plan, now, intact).Some?
    ensures InFlight(Stage(s, other, r, run, plan, now, intact).value, id)
    ensures Stage(s, other, r, run, plan, now, intact).value.launches[id] == s.launches[id]
  {
    var t := Stage(s, other, r, run, plan, now, intact).value;
    OtherOperationKeeps(digest, s, id, plan.execution, ExecutionRuns.Step.DoStage(plan.node, plan.owner, run),
      t.executions[plan.execution]);
    OtherRowsKeep(s, t, id);
  }

  lemma ApproveKeepsOther(s: Store, id: RequestId, other: RequestId, now: Time, authorized: bool)
    requires InFlight(s, id) && Approve(s, other, now, authorized).Some?
    ensures InFlight(Approve(s, other, now, authorized).value, id)
    ensures Approve(s, other, now, authorized).value.launches[id] == s.launches[id]
  {
    hide Find, RunsAs;
  }

  lemma GraphKeepsOther(digest: Digest, s: Store, id: RequestId, x: ExecutionId, graphStep: ExecutionRuns.Step)
    requires InFlight(s, id) && !Touches(s, DoGraph(x, graphStep), id) && x in s.executions
    ensures InFlight(s.(executions := s.executions[x := Apply(digest, s.executions[x], graphStep)]), id)
  {
    var plan := s.plans[s.launches[id].run];
    if x == plan.execution {
      RunningStays(digest, s.executions[x], graphStep, plan.node, plan.owner, s.launches[id].run);
    }
  }

  lemma NextKeepsInFlight(digest: Digest, s: Store, step: CredentialDispatch.Step, id: RequestId)
    requires Safe(s) && InFlight(s, id) && !Touches(s, step, id)
    ensures InFlight(Next(digest, s, step), id)
  {
    hide Safe, Claim, FailClaim, CancelForRequest, Stage, Approve, Apply, NodeRunsAs, Started, ValidTime;
    hide Blank, Utf8Length;
    if Attempted(digest, s, step).Some? {
      match step
      case DoClaim(other, now, authorized) => ClaimKeepsOther(digest, s, id, other, now, authorized);
      case DoFailClaim(other, intact) => FailClaimKeepsOther(digest, s, id, other, intact);
      case DoRevoke(other, actor, now, intact) => RevokeKeepsOther(digest, s, id, other, actor, now, intact);
      case DoDeny(other, now, intact) => DenyKeepsOther(digest, s, id, other, now, intact);
      case DoCancel(other, now, intact) => CancelKeepsOtherSafe(digest, s, id, other, now, intact);
      case DoStage(other, r, run, plan, now, intact) =>
        StageKeepsOther(digest, s, id, other, r, run, plan, now, intact);
      case DoApprove(other, now, authorized) => ApproveKeepsOther(s, id, other, now, authorized);
      case DoGraph(x, graphStep) => GraphKeepsOther(digest, s, id, x, graphStep);
      case DoConsume(other, action, now, authorized) => ConsumeKeepsOther(s, id, other, action, now, authorized);
      case _ =>
    }
  }

  lemma ConsumeKeepsOther(s: Store, id: RequestId, other: RequestId, action: Action, now: Time, authorized: bool)
    requires InFlight(s, id) && Consume(s, other, action, now, authorized).Some?
    ensures InFlight(Consume(s, other, action, now, authorized).value, id)
  {
    hide NodeRunsAs;
  }

  lemma RevokeKeepsOther(digest: Digest, s: Store, id: RequestId, other: RequestId, actor: string,
                         now: Time, intact: bool)
    requires Safe(s) && InFlight(s, id) && Revoke(s, other, actor, now, intact).Some?
    ensures InFlight(Revoke(s, other, actor, now, intact).value, id)
  {
    hide CancelForRequest, NodeRunsAs, Blank, Utf8Length;
    CancelKeepsOther(digest, RevokedAt(s, other, now), id, other, now, intact);
  }

  lemma DenyKeepsOther(digest: Digest, s: Store, id: RequestId, other: RequestId, now: Time, intact: bool)
    requires Safe(s) && InFlight(s, id) && Deny(s, other, now, intact).Some?
    ensures InFlight(Deny(s, other, now, intact).value, id)
  {
    hide CancelForRequest, NodeRunsAs;
    CancelKeepsOther(digest, Decided(s, other), id, other, now, intact);
  }

  lemma CancelKeepsOtherSafe(digest: Digest, s: Store, id: RequestId, other: RequestId, now: Time, intact: bool)
    requires Safe(s) && InFlight(s, id) && CancelForRequest(s, other, now, intact).Some?
    ensures InFlight(CancelForRequest(s, other, now, intact).value, id)
  {
    hide CancelForRequest, NodeRunsAs;
    CancelKeepsOther(digest, s, id, other, now, intact);
  }

  /** None of the steps, in the state it meets, touches the launch. */
  ghost predicate Undisturbed(digest: Digest, s: Store, steps: seq<CredentialDispatch.Step>, id: RequestId)
    decreases |steps|
  {
    steps == [] ||
    (&& id in s.launches && s.launches[id].run in s.plans && !Touches(s, steps[0], id)
     && Undisturbed(digest, Next(digest, s, steps[0]), steps[1..], id))
  }

  lemma {:induction false} UndisturbedStaysInFlight(digest: Digest, s: Store, steps: seq<CredentialDispatch.Step>,
                                                    id: RequestId)
    requires Safe(s) && InFlight(s, id) && Undisturbed(digest, s, steps, id)
    ensures InFlight(RunSteps(digest, s, steps), id)
    decreases |steps|
  {
    hide Safe, InFlight, Next, Touches;
    if steps != [] {
      NextKeepsInFlight(digest, s, steps[0], id);
      NextKeeps(digest, s, steps[0]);
      UndisturbedStaysInFlight(digest, Next(digest, s, steps[0]), steps[1..], id);
    }
  }

  /**
    After a claim from any reachable state, and any further steps that leave its run alone, a
    failed lookup can be recorded: launch, run and node end uncertain and the grant stays spent.
   */
  lemma FailedLookupIsRecordable(digest: Digest, before: seq<CredentialDispatch.Step>, id: RequestId, now: Time,
                                 authorized: bool, between: seq<CredentialDispatch.Step>, intact: bool)
    requires var s := RunSteps(digest, EMPTY, before); Claim(s, id, now, authorized).Some?
    requires Undisturbed(digest, Claim(RunSteps(digest, EMPTY, before), id, now, authorized).value, between, id)
    ensures var t := RunSteps(digest, Claim(RunSteps(digest, EMPTY, before), id, now, authorized).value, between);
      && (FailClaim(t, id, intact).Some? <==> intact)
      && (intact ==> EndedUncertain(FailClaim(t, id, intact).value, id))
  {
    hide Claim, RunSteps, Undisturbed, Safe, FailClaim, CatalogFits, EndedUncertain;
    var s := RunSteps(digest, EMPTY, before);
    EmptyIsSafe();
    RunStepsKeep(digest, EMPTY, before);
    ClaimKeeps(s, id, now, authorized);
    ClaimMovesTogether(s, id, now, authorized);
    ClaimKeepsCatalog(s, id, now, authorized);
    EmptyCatalogFits();
    UndisturbedStaysInFlight(digest, Claim(s, id, now, authorized).value, between, id);
    RunStepsKeepCatalog(digest, EMPTY, before);
    RunStepsKeepCatalog(digest, Claim(s, id, now, authorized).value, between);
    FailureCanBeRecorded(RunSteps(digest, Claim(s, id, now, authorized).value, between), id, intact);
  }

  lemma EmptyIsSafe()
    ensures Safe(EMPTY)
  {
  }
}
