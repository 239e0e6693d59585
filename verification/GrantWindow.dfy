/** When grants are issued, consumed and revoked, by the clock and the request's own times. */
module GrantWindow {
  import opened Prelude
  import opened AdapterContract
  import opened E = GraphOperations
  import opened CredentialDispatch
  import DispatchRecovery

  /** The request is open: it was made, and has not expired. */
  predicate IsOpen(r: Request, now: Time) {
    r.createdAt <= now && now < r.expiresAt
  }

  /** The grant was issued and spent while its request was open, and only ended after it was issued. */
  predicate InTime(r: Request, g: Grant) {
    && IsOpen(r, g.issuedAt) && r.decided && r.expiresAt <= 9_223_372_036_854_775_807
    && (g.consumedAt.Some? ==> g.issuedAt <= g.consumedAt.value && IsOpen(r, g.consumedAt.value))
    && (g.revokedAt.Some? ==> g.issuedAt <= g.revokedAt.value)
  }

  ghost predicate GrantsInTime(s: Store) {
    forall id :: id in s.grants ==> id in s.requests && InTime(s.requests[id], s.grants[id])
  }

  /** Requests are kept, and only ever become decided. */
  ghost predicate RequestsStay(s: Store, t: Store) {
    forall id :: id in s.requests ==>
      && id in t.requests
      && (t.requests[id] == s.requests[id] || t.requests[id] == s.requests[id].(decided := true))
  }

  // ---------------------------------------------------------------- what each transaction does to grants

  lemma ClaimSpends(s: Store, id: RequestId, now: Time, authorized: bool)
    requires Claim(s, id, now, authorized).Some?
    ensures id in s.requests && id in s.grants && s.requests[id].decided && IsOpen(s.requests[id], now)
    ensures s.grants[id].issuedAt <= now && s.grants[id].consumedAt.None? && s.grants[id].revokedAt.None?
    ensures var t := Claim(s, id, now, authorized).value;
      t.requests == s.requests && t.grants == s.grants[id := s.grants[id].(consumedAt := Some(now))]
  {
    hide StagedContext, ActivateStagedNode, CatalogFits;
  }

  lemma ConsumeSpends(s: Store, id: RequestId, action: Action, now: Time, authorized: bool)
    requires Consume(s, id, action, now, authorized).Some?
    ensures id in s.requests && id in s.grants && s.requests[id].decided && IsOpen(s.requests[id], now)
    ensures s.grants[id].issuedAt <= now && s.grants[id].consumedAt.None? && s.grants[id].revokedAt.None?
    ensures var t := Consume(s, id, action, now, authorized).value;
      t.requests == s.requests && t.grants == s.grants[id := s.grants[id].(consumedAt := Some(now))]
  {
  }

  lemma ApproveIssues(s: Store, id: RequestId, now: Time, authorized: bool)
    requires Approve(s, id, now, authorized).Some?
    ensures id in s.requests && id !in s.grants && !s.requests[id].decided && IsOpen(s.requests[id], now)
    ensures s.requests[id].expiresAt <= 9_223_372_036_854_775_807
    ensures var t := Approve(s, id, now, authorized).value;
      && t.requests == s.requests[id := s.requests[id].(decided := true)]
      && t.grants == s.grants[id := Grant(now, None, None)]
  {
    hide StagedContext;
  }

  /** Cancelling revokes at most the grant of its own request, and not before it was issued. */
  lemma CancelRevokes(s: Store, id: RequestId, now: Time, intact: bool)
    requires CancelForRequest(s, id, now, intact).Some?
    ensures var t := CancelForRequest(s, id, now, intact).value;
      && t.requests == s.requests
      && (t.grants == s.grants
          || (&& id in s.grants && s.grants[id].consumedAt.None?
              && id in t.grants && t.grants == s.grants[id := s.grants[id].(revokedAt := t.grants[id].revokedAt)]
              && t.grants[id].revokedAt.Some? && s.grants[id].issuedAt <= t.grants[id].revokedAt.value))
  {
    hide StagedContext, CancelStagedNode, CatalogFits, Find;
  }

  lemma RevokeEnds(s: Store, id: RequestId, actor: string, now: Time, intact: bool)
    requires Revoke(s, id, actor, now, intact).Some?
    ensures id in s.requests && id in s.grants && s.requests[id].decided && IsOpen(s.requests[id], now)
    ensures s.grants[id].issuedAt <= now && s.grants[id].consumedAt.None? && s.grants[id].revokedAt.None?
    ensures var t := Revoke(s, id, actor, now, intact).value;
      t.requests == s.requests && t.grants == s.grants[id := s.grants[id].(revokedAt := Some(now))]
  {
    hide CancelForRequest, Blank, Utf8Length;
    CancelKeepsRevoked(RevokedAt(s, id, now), id, now, intact);
  }

  /** A grant that is revoked already is not revoked again. */
  lemma CancelKeepsRevoked(s: Store, id: RequestId, now: Time, intact: bool)
    requires CancelForRequest(s, id, now, intact).Some? && id in s.grants && s.grants[id].revokedAt.Some?
    ensures CancelForRequest(s, id, now, intact).value.grants == s.grants
    ensures CancelForRequest(s, id, now, intact).value.requests == s.requests
  {
    hide StagedContext, CancelStagedNode, CatalogFits, Find;
  }

  lemma DenyDecides(s: Store, id: RequestId, now: Time, intact: bool)
    requires Deny(s, id, now, intact).Some?
    ensures id in s.requests && !s.requests[id].decided && IsOpen(s.requests[id], now)
  {
    hide CancelForRequest;
  }

  // ---------------------------------------------------------------- every step

  /** Consumption is recorded only by a claim or a direct use, at a time when the request is open. */
  lemma ConsumedOnlyInTime(digest: Digest, s: Store, step: Step, id: RequestId)
    requires IsConsumed(Next(digest, s, step), id) && !IsConsumed(s, id)
    ensures step.DoClaim? || step.DoConsume?
    ensures step.id == id && id in s.requests && id in s.grants && s.requests[id].decided
    ensures IsOpen(s.requests[id], step.now) && s.grants[id].issuedAt <= step.now
    ensures Next(digest, s, step).grants[id].consumedAt == Some(step.now)
  {
    hide Claim, FailClaim, Consume, CancelForRequest, Approve, Stage, Revoke, Deny, Restart, Started;
    hide StagedContext, ValidTime, ExecutionRuns.Apply;
    if Attempted(digest, s, step).Some? {
      match step
      case DoClaim(other, now, authorized) => ClaimSpends(s, other, now, authorized);
      case DoConsume(other, action, now, authorized) => ConsumeSpends(s, other, action, now, authorized);
      case DoApprove(other, now, authorized) => ApproveIssues(s, other, now, authorized);
      case DoCancel(other, now, intact) => CancelRevokes(s, other, now, intact);
      case DoRevoke(other, actor, now, intact) => RevokeEnds(s, other, actor, now, intact);
      case DoDeny(other, now, intact) => DenyRevokes(s, other, now, intact);
      case DoFailClaim(other, intact) => DispatchRecovery.FailClaimLeavesGrants(s, other, intact);
      case DoStage(other, r, run, plan, now, intact) => StageRequests(s, other, r, run, plan, now, intact);
      case DoRestart => RestartLeavesGrants(s);
      case _ =>
    }
  }

  lemma DenyRevokes(s: Store, id: RequestId, now: Time, intact: bool)
    requires Deny(s, id, now, intact).Some?
    ensures id in s.requests
    ensures var t := Deny(s, id, now, intact).value;
      && t.requests == s.requests[id := s.requests[id].(decided := true)]
      && (t.grants == s.grants
          || (&& id in s.grants && s.grants[id].consumedAt.None?
              && id in t.grants && t.grants == s.grants[id := s.grants[id].(revokedAt := t.grants[id].revokedAt)]
              && t.grants[id].revokedAt.Some? && s.grants[id].issuedAt <= t.grants[id].revokedAt.value))
  {
    hide CancelForRequest;
    CancelRevokes(Decided(s, id), id, now, intact);
  }

  lemma StageRequests(s: Store, id: RequestId, r: Request, run: RunId, plan: Plan, now: Time, intact: bool)
    requires Stage(s, id, r, run, plan, now, intact).Some?
    ensures id !in s.requests && id !in s.grants
    ensures var t := Stage(s, id, r, run, plan, now, intact).value;
      t.requests == s.requests[id := r] && t.grants == s.grants
  {
    hide StageNode, CatalogFits;
  }

  lemma RestartLeavesGrants(s: Store)
    ensures Restart(s).grants == s.grants && Restart(s).requests == s.requests
  {
    hide RecoveredRun, RecoveredLaunch, ReconcileAfterRestart;
  }

  /** One grant of a known request is written, in time; requests stay or one becomes decided. */
  lemma WrittenInTime(s: Store, t: Store, id: RequestId, g: Grant)
    requires GrantsInTime(s) && RequestsStay(s, t) && t.requests.Keys == s.requests.Keys
    requires t.grants == s.grants[id := g] && id in t.requests && InTime(t.requests[id], g)
    ensures GrantsInTime(t)
  {
  }

  lemma UntouchedInTime(s: Store, t: Store)
    requires GrantsInTime(s) && RequestsStay(s, t) && t.grants == s.grants
    ensures GrantsInTime(t)
  {
  }

  lemma SameRequestsStay(s: Store, t: Store)
    requires t.requests == s.requests || exists id :: Decides(s, t, id)
    ensures RequestsStay(s, t) && t.requests.Keys == s.requests.Keys
  {
  }

  ghost predicate Decides(s: Store, t: Store, id: RequestId) {
    id in s.requests && t.requests == s.requests[id := s.requests[id].(decided := true)]
  }

  lemma NextKeepsInTime(digest: Digest, s: Store, step: Step)
    requires GrantsInTime(s)
    ensures GrantsInTime(Next(digest, s, step)) && RequestsStay(s, Next(digest, s, step))
  {
    hide Claim, FailClaim, Consume, CancelForRequest, Approve, Stage, Revoke, Deny, Restart, Started;
    hide StagedContext, ValidTime, ExecutionRuns.Apply, GrantsInTime, RequestsStay;
    var t := Next(digest, s, step);
    if step.DoStage? || step.DoRequest? {
      NewRequestKeepsInTime(digest, s, step);
    } else if step.DoDeny? || step.DoCancel? || step.DoRevoke? || step.DoApprove? {
      DecisionKeepsInTime(digest, s, step);
    } else {
      OthersLeaveRequests(digest, s, step);
      SameRequestsStay(s, t);
      if step.DoClaim? && Attempted(digest, s, step).Some? {
        ClaimSpends(s, step.id, step.now, step.authorized);
        GrantAt(s, step.id);
        WrittenInTime(s, t, step.id, s.grants[step.id].(consumedAt := Some(step.now)));
      } else if step.DoConsume? && Attempted(digest, s, step).Some? {
        ConsumeSpends(s, step.id, step.action, step.now, step.authorized);
        GrantAt(s, step.id);
        WrittenInTime(s, t, step.id, s.grants[step.id].(consumedAt := Some(step.now)));
      } else {
        UntouchedInTime(s, t);
      }
    }
  }

  lemma GrantAt(s: Store, id: RequestId)
    requires GrantsInTime(s) && id in s.grants
    ensures id in s.requests && InTime(s.requests[id], s.grants[id])
  {
  }

  lemma OthersLeaveRequests(digest: Digest, s: Store, step: Step)
    requires !step.DoStage? && !step.DoRequest? && !step.DoDeny? && !step.DoCancel?
    requires !step.DoRevoke? && !step.DoApprove?
    ensures Next(digest, s, step).requests == s.requests
    ensures !step.DoClaim? && !step.DoConsume? ==> Next(digest, s, step).grants == s.grants
  {
    hide Claim, FailClaim, Consume, CancelForRequest, Approve, Stage, Revoke, Deny, Restart, Started;
    hide ExecutionRuns.Apply;
    if Attempted(digest, s, step).Some? {
      match step
      case DoClaim(other, now, authorized) => ClaimSpends(s, other, now, authorized);
      case DoConsume(other, action, now, authorized) => ConsumeSpends(s, other, action, now, authorized);
      case DoFailClaim(other, intact) => FailClaimLeavesRequests(s, other, intact);
      case DoRestart => RestartLeavesGrants(s);
      case _ =>
    }
  }

  lemma NewRequestKeepsInTime(digest: Digest, s: Store, step: Step)
    requires GrantsInTime(s) && (step.DoStage? || step.DoRequest?)
    ensures GrantsInTime(Next(digest, s, step)) && RequestsStay(s, Next(digest, s, step))
  {
    hide Stage, InTime;
    if step.DoStage? && Attempted(digest, s, step).Some? {
      StageRequests(s, step.id, step.request, step.run, step.plan, step.now, step.intact);
    }
  }

  lemma DecisionKeepsInTime(digest: Digest, s: Store, step: Step)
    requires GrantsInTime(s) && (step.DoDeny? || step.DoCancel? || step.DoRevoke? || step.DoApprove?)
    ensures GrantsInTime(Next(digest, s, step)) && RequestsStay(s, Next(digest, s, step))
  {
    hide CancelForRequest, Approve, Revoke, Deny, GrantsInTime, RequestsStay;
    var t := Next(digest, s, step);
    if Attempted(digest, s, step).None? {
      SameRequestsStay(s, t);
      UntouchedInTime(s, t);
    } else {
      match step
      case DoApprove(other, now, authorized) =>
        ApproveIssues(s, other, now, authorized);
        assert Decides(s, t, other);
        SameRequestsStay(s, t);
        WrittenInTime(s, t, other, Grant(now, None, None));
      case DoRevoke(other, actor, now, intact) =>
        RevokeEnds(s, other, actor, now, intact);
        SameRequestsStay(s, t);
        GrantAt(s, other);
        WrittenInTime(s, t, other, s.grants[other].(revokedAt := Some(now)));
      case DoCancel(other, now, intact) =>
        CancelRevokes(s, other, now, intact);
        SameRequestsStay(s, t);
        RevocationInTime(s, t, other);
      case DoDeny(other, now, intact) =>
        DenyRevokes(s, other, now, intact);
        assert Decides(s, t, other);
        SameRequestsStay(s, t);
        RevocationInTime(s, t, other);
    }
  }

  /** At most one grant is revoked, and not before it was issued. */
  lemma RevocationInTime(s: Store, t: Store, id: RequestId)
    requires GrantsInTime(s) && RequestsStay(s, t) && t.requests.Keys == s.requests.Keys
    requires t.grants == s.grants
      || (&& id in s.grants && s.grants[id].consumedAt.None?
          && id in t.grants && t.grants == s.grants[id := s.grants[id].(revokedAt := t.grants[id].revokedAt)]
          && t.grants[id].revokedAt.Some? && s.grants[id].issuedAt <= t.grants[id].revokedAt.value)
    ensures GrantsInTime(t)
  {
    if t.grants != s.grants {
      GrantAt(s, id);
      WrittenInTime(s, t, id, s.grants[id].(revokedAt := t.grants[id].revokedAt));
    }
  }

  lemma FailClaimLeavesRequests(s: Store, id: RequestId, intact: bool)
    requires FailClaim(s, id, intact).Some?
    ensures FailClaim(s, id, intact).value.requests == s.requests
    ensures FailClaim(s, id, intact).value.grants == s.grants
  {
    hide FinishTerminal, Find, CatalogFits;
  }

  lemma {:induction false} RunKeepsInTime(digest: Digest, s: Store, steps: seq<Step>)
    requires GrantsInTime(s)
    ensures GrantsInTime(RunSteps(digest, s, steps))
    decreases |steps|
  {
    hide Next, GrantsInTime;
    if steps != [] {
      NextKeepsInTime(digest, s, steps[0]);
      RunKeepsInTime(digest, Next(digest, s, steps[0]), steps[1..]);
    }
  }

  /**
    In every reachable state a grant belongs to a decided request, was issued while that
    request was open, and if it was consumed, then later, but still while it was open.
   */
  lemma ConsumedBeforeExpiry(digest: Digest, steps: seq<Step>, id: RequestId)
    requires id in RunSteps(digest, EMPTY, steps).grants
    ensures var s := RunSteps(digest, EMPTY, steps);
      && id in s.requests && s.requests[id].decided
      && s.requests[id].createdAt <= s.grants[id].issuedAt < s.requests[id].expiresAt <= 9_223_372_036_854_775_807
      && (s.grants[id].consumedAt.Some? ==>
            s.grants[id].issuedAt <= s.grants[id].consumedAt.value < s.requests[id].expiresAt)
      && (s.grants[id].revokedAt.Some? ==> s.grants[id].issuedAt <= s.grants[id].revokedAt.value)
  {
    hide RunSteps;
    assert GrantsInTime(EMPTY);
    RunKeepsInTime(digest, EMPTY, steps);
  }
}
