/** Exactly when each transaction of the daemon commits, and every row it writes. */
module DispatchEffects {
  import opened Prelude
  import opened WorkflowGraph
  import opened AdapterContract
  import opened E = GraphOperations
  import opened CredentialDispatch
  import DispatchRecovery
  import OperationEffects

  // ---------------------------------------------------------------- conditions, by the rows alone

  /** The grant may be used now: its request is decided and open, and it is neither spent nor revoked. */
  predicate GrantIsOpen(s: Store, id: RequestId, now: Time) {
    && id in s.requests && s.requests[id].decided
    && s.requests[id].createdAt <= now && now < s.requests[id].expiresAt
    && s.requests[id].expiresAt <= 9_223_372_036_854_775_807
    && id in s.grants && s.grants[id].issuedAt <= now
    && s.grants[id].consumedAt.None? && s.grants[id].revokedAt.None?
  }

  /** The run of the launch has not begun, and its node waits for approval for the plan's owner and this run. */
  predicate RunWaits(s: Store, run: RunId) {
    && run in s.runs && s.runs[run] == RunRow(RunAwaitingApproval, None, None)
    && run in s.plans && s.plans[run].execution in s.executions
    && var e, plan := s.executions[s.plans[run].execution], s.plans[run];
    && OperationEffects.Awaits(e, Find(e.nodes, plan.node), plan.owner, run)
  }

  predicate LaunchWaits(s: Store, id: RequestId) {
    && id in s.launches && (s.launches[id].state == AwaitingDecision || s.launches[id].state == ReadyToLaunch)
    && RunWaits(s, s.launches[id].run)
  }

  lemma UsableMeans(s: Store, id: RequestId, now: Time)
    ensures Usable(s, id, now) <==> GrantIsOpen(s, id, now)
  {
  }

  lemma ContextMeans(s: Store, id: RequestId)
    ensures StagedContext(s, id) <==> LaunchWaits(s, id)
  {
  }

  /** Which times a run needs, state by state. */
  predicate TimesOf(r: RunRow) {
    match r.state
    case RunStarting | RunAwaitingApproval => true
    case RunCancelled => r.finishedAt.Some?
    case RunFailed | RunSucceeded => r.startedAt.Some? && r.finishedAt.Some?
    case RunRunning | RunBlocked | RunCancelling | RunRecovering | RunUncertain => r.startedAt.Some?
  }

  lemma TimingMeans(r: RunRow)
    ensures TimingFits(r) <==> TimesOf(r)
  {
  }

  ghost predicate AllTimed(s: Store) {
    forall run :: run in s.runs ==> TimesOf(s.runs[run])
  }

  lemma CatalogMeans(s: Store)
    ensures CatalogFits(s.runs) <==> AllTimed(s)
  {
    hide TimingFits, TimesOf;
    forall run | run in s.runs
      ensures TimingFits(s.runs[run]) <==> TimesOf(s.runs[run])
    {
      TimingMeans(s.runs[run]);
    }
  }

  // ---------------------------------------------------------------- one launch, run and node at a time

  /** What stays the same in memory, and the tables no transaction of a launch touches. */
  ghost predicate RestStays(s: Store, t: Store) {
    t.ready == s.ready && t.failures == s.failures && t.receipts == s.receipts && t.lookups == s.lookups
  }

  lemma ClaimEffect(s: Store, id: RequestId, now: Time, authorized: bool)
    requires AllTimed(s)
    ensures Claim(s, id, now, authorized).Some? <==>
      && s.ready && authorized && GrantIsOpen(s, id, now) && LaunchWaits(s, id)
      && s.launches[id].state == ReadyToLaunch && s.requests[id].run == Some(s.launches[id].run)
    ensures Claim(s, id, now, authorized).Some? ==>
      var t, run := Claim(s, id, now, authorized).value, s.launches[id].run;
      var plan := s.plans[run];
      && RestStays(s, t) && t.requests == s.requests && t.plans == s.plans && t.claims == s.claims + {id}
      && t.grants == s.grants[id := Grant(s.grants[id].issuedAt, Some(now), None)]
      && t.launches == s.launches[id := Launch(run, Dispatching, s.launches[id].stagedAt)]
      && t.runs == s.runs[run := RunRow(RunStarting, Some(now), None)]
      && plan.execution in t.executions && t.executions == s.executions[plan.execution := t.executions[plan.execution]]
      && ActivateStagedNode(s.executions[plan.execution], plan.node, plan.owner, run)
         == Ok(t.executions[plan.execution])
  {
    hide AllTimed, CatalogFits, Usable, StagedContext, Find;
    CatalogMeans(s);
    UsableMeans(s, id, now);
    ContextMeans(s, id);
    DispatchRecovery.ClaimExactlyWhen(s, id, now, authorized);
  }

  lemma LookupEffect(s: Store, id: RequestId, found: bool)
    ensures Lookup(s, id, found).Some? <==> id in s.claims
    ensures id in s.claims ==>
      var t := Lookup(s, id, found).value;
      && t.lookups == s.lookups + [id] && t.claims == s.claims - {id}
      && t.failures == (if found then s.failures else s.failures + {id})
      && t.ready == s.ready && t.requests == s.requests && t.grants == s.grants && t.launches == s.launches
      && t.runs == s.runs && t.plans == s.plans && t.executions == s.executions && t.receipts == s.receipts
  {
  }

  lemma FailClaimEffect(s: Store, id: RequestId, intact: bool)
    requires FailClaim(s, id, intact).Some?
    ensures intact && id in s.launches && s.launches[id].state == Dispatching
    ensures var t, run := FailClaim(s, id, intact).value, s.launches[id].run;
      && run in s.runs && s.runs[run].state == RunStarting && run in s.plans && s.plans[run].execution in s.executions
      && var plan := s.plans[run];
      && RestStays(s, t) && t.requests == s.requests && t.plans == s.plans && t.claims == s.claims
      && t.grants == s.grants
      && t.launches == s.launches[id := Launch(run, LaunchUncertain, s.launches[id].stagedAt)]
      && t.runs == s.runs[run := RunRow(RunUncertain, s.runs[run].startedAt, s.runs[run].finishedAt)]
      && plan.execution in t.executions && t.executions == s.executions[plan.execution := t.executions[plan.execution]]
      && FinishTerminal(s.executions[plan.execution], plan.node, plan.owner, Uncertain, None)
         == Ok(t.executions[plan.execution])
  {
    hide FinishTerminal, CatalogFits, Find;
  }

  lemma ConsumeEffect(s: Store, id: RequestId, action: Action, now: Time, authorized: bool)
    ensures Consume(s, id, action, now, authorized).Some? <==>
      && s.ready && authorized && GrantIsOpen(s, id, now) && id !in s.launches && s.requests[id].action == action
      && exists run ::
           && s.requests[id].run == Some(run) && run in s.runs
           && s.runs[run].state == RunStarting && s.runs[run].finishedAt.None?
           && forall other :: other in s.launches ==> s.launches[other].run != run
    ensures Consume(s, id, action, now, authorized).Some? ==>
      Consume(s, id, action, now, authorized).value
      == s.(grants := s.grants[id := Grant(s.grants[id].issuedAt, Some(now), None)], receipts := s.receipts + {id})
  {
    hide Usable;
    UsableMeans(s, id, now);
  }

  /** The later of two times. */
  ghost predicate IsLater(t: Time, a: Time, b: Time) {
    t >= a && t >= b && (t == a || t == b)
  }

  /** The grant as cancelling leaves it: revoked at the end of the run, or when it was issued if that is later. */
  ghost predicate RevokedAfter(g: Grant, h: Grant, ended: Time) {
    if g.consumedAt.None? && g.revokedAt.None?
    then
      && h.issuedAt == g.issuedAt && h.consumedAt.None?
      && h.revokedAt.Some? && IsLater(h.revokedAt.value, g.issuedAt, ended)
    else h == g
  }

  lemma CancelEffect(s: Store, id: RequestId, now: Time, intact: bool)
    requires AllTimed(s)
    ensures CancelForRequest(s, id, now, intact).Some? <==>
      id !in s.launches || s.launches[id].state == LaunchCancelled || (LaunchWaits(s, id) && intact)
    ensures id !in s.launches || s.launches[id].state == LaunchCancelled ==>
      CancelForRequest(s, id, now, intact) == Some(s)
    ensures LaunchWaits(s, id) && intact ==>
      var t, run := CancelForRequest(s, id, now, intact).value, s.launches[id].run;
      var plan := s.plans[run];
      && RestStays(s, t) && t.requests == s.requests && t.plans == s.plans && t.claims == s.claims
      && t.launches == s.launches[id := Launch(run, LaunchCancelled, s.launches[id].stagedAt)]
      && run in t.runs && t.runs == s.runs[run := t.runs[run]]
      && t.runs[run].state == RunCancelled && t.runs[run].startedAt.None? && t.runs[run].finishedAt.Some?
      && var ended := t.runs[run].finishedAt.value;
      && IsLater(ended, now, s.launches[id].stagedAt)
      && t.grants.Keys == s.grants.Keys
      && (forall other :: other in s.grants && other != id ==> t.grants[other] == s.grants[other])
      && (id in s.grants ==> RevokedAfter(s.grants[id], t.grants[id], ended))
      && plan.execution in t.executions && t.executions == s.executions[plan.execution := t.executions[plan.execution]]
      && CancelStagedNode(s.executions[plan.execution], plan.node, plan.owner, run) == Ok(t.executions[plan.execution])
  {
    hide AllTimed, CatalogFits, StagedContext, Find, CancelStagedNode;
    CatalogMeans(s);
    ContextMeans(s, id);
    DispatchRecovery.CancelExactlyWhen(s, id, now, intact);
  }

  lemma RevokeEffect(s: Store, id: RequestId, actor: string, now: Time, intact: bool)
    requires Revoke(s, id, actor, now, intact).Some?
    ensures GrantIsOpen(s, id, now) && intact && !Blank(actor) && Utf8Length(actor) <= 200
    ensures var t, revoked := Revoke(s, id, actor, now, intact).value,
                              s.(grants := s.grants[id := Grant(s.grants[id].issuedAt, None, Some(now))]);
      CancelForRequest(revoked, id, now, intact) == Some(t) && t.grants == revoked.grants
  {
    hide CancelForRequest, Usable, Blank, Utf8Length;
    UsableMeans(s, id, now);
    var revoked := s.(grants := s.grants[id := Grant(s.grants[id].issuedAt, None, Some(now))]);
    assert RevokedAt(s, id, now) == revoked;
    RevokedStaysRevoked(revoked, id, now, intact);
  }

  lemma RevokedStaysRevoked(s: Store, id: RequestId, now: Time, intact: bool)
    requires CancelForRequest(s, id, now, intact).Some? && id in s.grants && s.grants[id].revokedAt.Some?
    ensures CancelForRequest(s, id, now, intact).value.grants == s.grants
  {
    hide StagedContext, CancelStagedNode, CatalogFits, Find;
  }

  // ---------------------------------------------------------------- decisions and staging

  lemma ApproveEffect(s: Store, id: RequestId, now: Time, authorized: bool)
    ensures Approve(s, id, now, authorized).Some? <==>
      && authorized && id in s.requests && !s.requests[id].decided && id !in s.grants
      && s.requests[id].createdAt <= now && now < s.requests[id].expiresAt
      && s.requests[id].expiresAt <= 9_223_372_036_854_775_807
      && (id in s.launches ==> LaunchWaits(s, id) && s.launches[id].state == AwaitingDecision)
    ensures Approve(s, id, now, authorized).Some? ==>
      Approve(s, id, now, authorized).value == s.(
        requests := s.requests[id := s.requests[id].(decided := true)],
        grants := s.grants[id := Grant(now, None, None)],
        launches := if id in s.launches
                    then s.launches[id := Launch(s.launches[id].run, ReadyToLaunch, s.launches[id].stagedAt)]
                    else s.launches)
  {
    hide StagedContext;
    ContextMeans(s, id);
  }

  lemma DenyEffect(s: Store, id: RequestId, now: Time, intact: bool)
    requires AllTimed(s)
    ensures Deny(s, id, now, intact).Some? <==>
      && intact && id in s.requests && !s.requests[id].decided
      && s.requests[id].createdAt <= now && now < s.requests[id].expiresAt
      && s.requests[id].expiresAt <= 9_223_372_036_854_775_807
      && (id in s.launches ==> LaunchWaits(s, id) && s.launches[id].state == AwaitingDecision)
    ensures Deny(s, id, now, intact).Some? ==>
      CancelForRequest(s.(requests := s.requests[id := s.requests[id].(decided := true)]), id, now, intact)
      == Deny(s, id, now, intact)
  {
    hide CancelForRequest, AllTimed, RunWaits;
    if id in s.requests {
      var decided := s.(requests := s.requests[id := s.requests[id].(decided := true)]);
      assert Decided(s, id) == decided;
      SameTimes(s, decided);
      CancelEffect(decided, id, now, intact);
      SameWaits(s, decided, id);
    }
  }

  lemma SameTimes(s: Store, t: Store)
    requires AllTimed(s) && t.runs == s.runs
    ensures AllTimed(t)
  {
  }

  lemma SameWaits(s: Store, t: Store, id: RequestId)
    requires t.runs == s.runs && t.plans == s.plans && t.executions == s.executions && t.launches == s.launches
    ensures LaunchWaits(t, id) <==> LaunchWaits(s, id)
  {
  }

  lemma StageEffect(s: Store, id: RequestId, r: Request, run: RunId, plan: Plan, now: Time, intact: bool)
    requires Stage(s, id, r, run, plan, now, intact).Some?
    ensures plan.execution in s.executions
    ensures var t := Stage(s, id, r, run, plan, now, intact).value;
      && RestStays(s, t) && t.grants == s.grants && t.claims == s.claims
      && t.requests == s.requests[id := r] && t.plans == s.plans[run := plan]
      && t.launches == s.launches[id := Launch(run, AwaitingDecision, now)]
      && t.runs == s.runs[run := RunRow(RunAwaitingApproval, None, None)]
      && plan.execution in t.executions && t.executions == s.executions[plan.execution := t.executions[plan.execution]]
      && StageNode(s.executions[plan.execution], plan.node, plan.owner, run) == Ok(t.executions[plan.execution])
  {
    hide StageNode, CatalogFits;
  }

  // ---------------------------------------------------------------- restart

  /** A run that may have been under way when the daemon stopped. */
  predicate WasUnderWay(r: RunRow) {
    || r.state == RunRunning || r.state == RunCancelling || r.state == RunRecovering
    || ((r.state == RunStarting || r.state == RunAwaitingApproval) && r.startedAt.Some?)
  }

  /** Restarting marks what was under way uncertain, forgets what was in memory, and keeps all else. */
  lemma RestartEffect(s: Store)
    ensures var t := Restart(s);
      && !t.ready && t.claims == {} && t.failures == {} && t.receipts == {}
      && t.requests == s.requests && t.grants == s.grants && t.plans == s.plans && t.lookups == s.lookups
      && t.runs.Keys == s.runs.Keys && t.launches.Keys == s.launches.Keys && t.executions.Keys == s.executions.Keys
      && (forall run :: run in s.runs ==>
            t.runs[run] == if WasUnderWay(s.runs[run])
                           then RunRow(RunUncertain, s.runs[run].startedAt, s.runs[run].finishedAt)
                           else s.runs[run])
      && (forall id :: id in s.launches ==>
            t.launches[id] == if s.launches[id].state == Dispatching
                              then Launch(s.launches[id].run, LaunchUncertain, s.launches[id].stagedAt)
                              else s.launches[id])
      && (forall x :: x in s.executions ==> t.executions[x] == ReconcileAfterRestart(s.executions[x]))
  {
    hide ReconcileAfterRestart;
  }

  // ---------------------------------------------------------------- the remaining steps

  /** At first nothing is stored, and the daemon is not ready. */
  lemma NothingAtFirst()
    ensures !EMPTY.ready && EMPTY.requests == map[] && EMPTY.grants == map[] && EMPTY.launches == map[]
    ensures EMPTY.runs == map[] && EMPTY.plans == map[] && EMPTY.executions == map[]
    ensures EMPTY.claims == {} && EMPTY.failures == {} && EMPTY.receipts == {} && EMPTY.lookups == []
  {
  }

  lemma PlainSteps(digest: Digest, s: Store, step: Step)
    ensures step.DoMarkReady? ==> Attempted(digest, s, step) == Some(s.(ready := true))
    ensures step.DoRestart? ==> Attempted(digest, s, step) == Some(Restart(s))
    ensures step.DoRequest? ==>
      && (Attempted(digest, s, step).Some? <==>
            step.id !in s.requests && step.id !in s.grants && step.id !in s.launches && !step.request.decided)
      && (Attempted(digest, s, step).Some? ==>
            Next(digest, s, step) == s.(requests := s.requests[step.id := step.request]))
    ensures step.DoDirectLookup? ==>
      && (Attempted(digest, s, step).Some? <==> step.id in s.receipts)
      && (step.id in s.receipts ==>
            Next(digest, s, step) == s.(receipts := s.receipts - {step.id}, lookups := s.lookups + [step.id]))
    ensures step.DoGraph? && step.execution in s.executions ==>
      Next(digest, s, step) == s.(executions :=
        s.executions[step.execution := ExecutionRuns.Apply(digest, s.executions[step.execution], step.step)])
    ensures step.DoGraph? ==> (Attempted(digest, s, step).Some? <==> step.execution in s.executions)
    ensures step.DoStart? ==>
      && (Attempted(digest, s, step).Some? <==> step.execution !in s.executions && Verdict(step.graph).None?)
      && (Attempted(digest, s, step).Some? ==>
            Next(digest, s, step) == s.(executions :=
              s.executions[step.execution := Started(step.execution, step.graph)]))
    ensures step.DoRun? ==>
      && (Attempted(digest, s, step).Some? <==> CatalogFits(s.runs[step.run := step.row]))
      && (Attempted(digest, s, step).Some? ==> Next(digest, s, step) == s.(runs := s.runs[step.run := step.row]))
    ensures step.DoFailClaim? ==>
      var r := FailClaim(s, step.id, step.intact);
      && (Attempted(digest, s, step).Some? <==> r.Some? && step.id in s.failures)
      && (Attempted(digest, s, step).Some? ==>
            Next(digest, s, step) == r.value.(failures := s.failures - {step.id}))
    ensures Attempted(digest, s, step).None? ==> Next(digest, s, step) == s
  {
    hide Claim, FailClaim, Consume, CancelForRequest, Approve, Stage, Revoke, Deny, Restart, Started, CatalogFits;
    hide ExecutionRuns.Apply, Lookup, Verdict;
  }
}
