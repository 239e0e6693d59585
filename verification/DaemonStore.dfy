/** The daemon's store as an object: each method is one transaction over its tables. */
module DaemonStore {
  import opened Prelude
  import opened AdapterContract
  import opened E = GraphOperations
  import opened ExecutionInvariant
  import opened GraphExecutor
  import opened D = CredentialDispatch
  import DispatchRecovery

  datatype BrokerOutcome = Prepared | AuthorizationRejected | CredentialFailed | RecoveryUnavailable

  ghost predicate SoundExecutions(digest: Digest, executions: map<ExecutionId, E.Execution>) {
    forall x :: x in executions ==> Sound(digest, executions[x])
  }

  lemma SoundAt(digest: Digest, executions: map<ExecutionId, E.Execution>, x: ExecutionId)
    requires SoundExecutions(digest, executions) && x in executions
    ensures Sound(digest, executions[x])
  {
  }

  lemma SoundUpdate(digest: Digest, executions: map<ExecutionId, E.Execution>, x: ExecutionId, e: E.Execution)
    requires SoundExecutions(digest, executions) && Sound(digest, e)
    ensures SoundExecutions(digest, executions[x := e])
  {
  }

  /** The transaction committed what is specified, or was rejected and changed nothing. */
  ghost predicate Committed(r: Option<Store>, ok: bool, before: Store, after: Store) {
    ok == r.Some? && after == if r.Some? then r.value else before
  }

  class Database {
    const digest: Digest
    var ready: bool
    var requests: map<RequestId, Request>
    var grants: map<RequestId, Grant>
    var launches: map<RequestId, Launch>
    var runs: map<RunId, RunRow>
    var plans: map<RunId, Plan>
    var executions: map<ExecutionId, E.Execution>
    var claims: set<RequestId>
    var failures: set<RequestId>
    var receipts: set<RequestId>
    var lookups: seq<RequestId>

    function Value(): Store
      reads this
    {
      Store(ready, requests, grants, launches, runs, plans, executions, claims, failures, receipts, lookups)
    }

    ghost predicate Valid()
      reads this
    {
      Safe(Value()) && CatalogFits(runs) && SoundExecutions(digest, executions)
    }

    // Each of these three loads the plan's graph and changes it, for its caller to store.

    method Activated(plan: Plan, run: RunId) returns (r: Change)
      requires SoundExecutions(digest, executions) && plan.execution in executions
      ensures r == ActivateStagedNode(executions[plan.execution], plan.node, plan.owner, run)
      ensures r.Ok? ==> Sound(digest, r.value)
    {
      hide Sound, SoundExecutions, ActivateStagedNode;
      SoundAt(digest, executions, plan.execution);
      var graph := new GraphExecution.Create(digest, executions[plan.execution]);
      var error := graph.ActivateStagedNode(plan.node, plan.owner, run);
      r := if error.Some? then Err(error.value) else Ok(graph.Value());
    }

    method StagingCancelled(plan: Plan, run: RunId) returns (r: Change)
      requires SoundExecutions(digest, executions) && plan.execution in executions
      ensures r == CancelStagedNode(executions[plan.execution], plan.node, plan.owner, run)
      ensures r.Ok? ==> Sound(digest, r.value)
    {
      hide Sound, SoundExecutions, CancelStagedNode;
      SoundAt(digest, executions, plan.execution);
      var graph := new GraphExecution.Create(digest, executions[plan.execution]);
      var error := graph.CancelStagedNode(plan.node, plan.owner, run);
      r := if error.Some? then Err(error.value) else Ok(graph.Value());
    }

    method MarkedUncertain(plan: Plan) returns (r: Change)
      requires SoundExecutions(digest, executions) && plan.execution in executions
      ensures r == FinishTerminal(executions[plan.execution], plan.node, plan.owner, Uncertain, None)
      ensures r.Ok? ==> Sound(digest, r.value)
    {
      hide Sound, SoundExecutions, FinishTerminal;
      SoundAt(digest, executions, plan.execution);
      var graph := new GraphExecution.Create(digest, executions[plan.execution]);
      var error := graph.FinishTerminal(plan.node, plan.owner, Uncertain, None);
      r := if error.Some? then Err(error.value) else Ok(graph.Value());
    }

    /** `claim_staged_dispatch`: loads the graph, activates the node, and writes all rows. */
    method ClaimStagedDispatch(id: RequestId, now: Time, authorized: bool) returns (ok: bool)
      requires Valid()
      modifies this
      ensures Valid() && Committed(Claim(old(Value()), id, now, authorized), ok, old(Value()), Value())
    {
      hide Safe, Sound, SoundExecutions, Claimable, ActivateStagedNode, CatalogFits;
      if !Claimable(Value(), id, now) || !authorized {
        return false;
      }
      ClaimableFacts(Value(), id, now);
      var run := launches[id].run;
      var plan := plans[run];
      var graph := Activated(plan, run);
      if graph.Err? {
        return false;
      }
      var catalog := runs[run := runs[run].(state := RunStarting, startedAt := Some(now))];
      if !CatalogFits(catalog) {
        return false;
      }
      ClaimKeeps(Value(), id, now, authorized);
      runs := catalog;
      grants := grants[id := grants[id].(consumedAt := Some(now))];
      launches := launches[id := launches[id].(state := Dispatching)];
      SoundUpdate(digest, executions, plan.execution, graph.value);
      executions := executions[plan.execution := graph.value];
      claims := claims + {id};
      return true;
    }

    /** `fail_dispatch_claim` */
    method FailDispatchClaim(id: RequestId, intact: bool) returns (ok: bool)
      requires Valid()
      modifies this`runs, this`launches, this`executions
      ensures Valid() && Committed(FailClaim(old(Value()), id, intact), ok, old(Value()), Value())
    {
      hide Safe, Sound, SoundExecutions, FinishTerminal, CatalogFits;
      if id !in launches || !intact {
        return false;
      }
      var run := launches[id].run;
      if run !in plans || run !in runs || runs[run].state != RunStarting
         || plans[run].execution !in executions || launches[id].state != Dispatching {
        return false;
      }
      var plan := plans[run];
      var nodes := executions[plan.execution].nodes;
      var i := Find(nodes, plan.node);
      if i == |nodes| || nodes[i].runId != Some(run) {
        return false;
      }
      var graph := MarkedUncertain(plan);
      if graph.Err? {
        return false;
      }
      var catalog := runs[run := runs[run].(state := RunUncertain)];
      if !CatalogFits(catalog) {
        return false;
      }
      FailClaimKeepsSafe(Value(), id, intact);
      runs := catalog;
      launches := launches[id := launches[id].(state := LaunchUncertain)];
      SoundUpdate(digest, executions, plan.execution, graph.value);
      executions := executions[plan.execution := graph.value];
      return true;
    }

    /** `prepare_staged_credentials`: claim, look up outside the transaction, record a failure. */
    method PrepareStagedCredentials(id: RequestId, now: Time, authorized: bool, found: bool, intact: bool)
      returns (outcome: BrokerOutcome)
      requires Valid()
      modifies this
      ensures Valid()
      ensures outcome == AuthorizationRejected <==> !(Claimable(old(Value()), id, now) && authorized)
      ensures outcome == AuthorizationRejected ==> Value() == old(Value())
      ensures outcome != AuthorizationRejected ==>
        && outcome == (if found then Prepared else if intact then CredentialFailed else RecoveryUnavailable)
        && lookups == old(lookups) + [id] && id !in old(lookups)
        && if outcome == CredentialFailed then DispatchRecovery.EndedUncertain(Value(), id)
           else DispatchRecovery.InFlight(Value(), id)
    {
      hide Claim, Claimable, FailClaim, Sound, CatalogFits, DispatchRecovery.NodeRunsAs;
      DispatchRecovery.ClaimExactlyWhen(Value(), id, now, authorized);
      if Claim(Value(), id, now, authorized).Some? {
        DispatchRecovery.ClaimMovesTogether(Value(), id, now, authorized);
      }
      var claimed := ClaimStagedDispatch(id, now, authorized);
      if !claimed {
        return AuthorizationRejected;
      }
      ClaimFrame(old(Value()), id, now, authorized);
      LookupKeeps(Value(), id, true);
      claims, lookups := claims - {id}, lookups + [id];
      if found {
        return Prepared;
      }
      DispatchRecovery.FailureCanBeRecorded(Value(), id, intact);
      var recorded := FailDispatchClaim(id, intact);
      if !recorded {
        return RecoveryUnavailable;
      }
      return CredentialFailed;
    }

    /** `consume_credential_grant` */
    method ConsumeCredentialGrant(id: RequestId, action: Action, now: Time, authorized: bool) returns (ok: bool)
      requires Valid()
      modifies this`grants, this`receipts
      ensures Valid() && Committed(Consume(old(Value()), id, action, now, authorized), ok, old(Value()), Value())
    {
      hide Safe, Sound, Usable, CatalogFits;
      if id in launches || !Usable(Value(), id, now) || !ready || !authorized {
        return false;
      }
      UsableFacts(Value(), id, now);
      if requests[id].action != action || requests[id].run.None? || requests[id].run.value !in runs {
        return false;
      }
      var run := requests[id].run.value;
      if runs[run].finishedAt.Some? || runs[run].state != RunStarting
         || exists other | other in launches :: launches[other].run == run {
        return false;
      }
      ConsumeKeeps(Value(), id, action, now, authorized);
      grants := grants[id := grants[id].(consumedAt := Some(now))];
      receipts := receipts + {id};
      return true;
    }

    /** `cancel_for_request`, inside the transaction of its caller. */
    method CancelForRequest(id: RequestId, now: Time, intact: bool) returns (ok: bool)
      requires CatalogFits(runs) && SoundExecutions(digest, executions)
      modifies this`runs, this`launches, this`executions, this`grants
      ensures CatalogFits(runs) && SoundExecutions(digest, executions)
      ensures Committed(D.CancelForRequest(old(Value()), id, now, intact), ok, old(Value()), Value())
    {
      hide Sound, SoundExecutions, StagedContext, CatalogFits, CancelStagedNode, RevokeUnspent, Later;
      if id !in launches || launches[id].state == LaunchCancelled {
        return true;
      }
      if !StagedContext(Value(), id) || !intact {
        return false;
      }
      ContextFacts(Value(), id);
      var run := launches[id].run;
      var finished := Later(now, launches[id].stagedAt);
      var plan := plans[run];
      var graph := StagingCancelled(plan, run);
      if graph.Err? {
        return false;
      }
      var catalog := runs[run := runs[run].(state := RunCancelled, finishedAt := Some(finished))];
      if !CatalogFits(catalog) {
        return false;
      }
      runs := catalog;
      SoundUpdate(digest, executions, plan.execution, graph.value);
      executions := executions[plan.execution := graph.value];
      launches := launches[id := launches[id].(state := LaunchCancelled)];
      RevokeUnspentGrant(id, finished);
      return true;
    }

    /** The end of `cancel_for_request`: an issued, unspent grant can never be used again. */
    method RevokeUnspentGrant(id: RequestId, now: Time)
      modifies this`grants
      ensures Value() == RevokeUnspent(old(Value()), id, now)
    {
      if id in grants && grants[id].consumedAt.None? && grants[id].revokedAt.None? {
        grants := grants[id := grants[id].(revokedAt := Some(Later(grants[id].issuedAt, now)))];
      }
    }

    /** `revoke_credential_grant`; a failure to cancel the launch rolls the revocation back. */
    method RevokeCredentialGrant(id: RequestId, actor: string, now: Time, intact: bool) returns (ok: bool)
      requires Valid()
      modifies this`runs, this`launches, this`executions, this`grants
      ensures Valid() && Committed(Revoke(old(Value()), id, actor, now, intact), ok, old(Value()), Value())
    {
      hide Safe, Sound, Usable, D.CancelForRequest, CatalogFits;
      if Blank(actor) || Utf8Length(actor) > 200 || !Usable(Value(), id, now) || !intact {
        return false;
      }
      UsableFacts(Value(), id, now);
      if Revoke(Value(), id, actor, now, intact).Some? {
        RevokeKeeps(Value(), id, actor, now, intact);
      }
      var rollback := grants;
      grants := grants[id := grants[id].(revokedAt := Some(now))];
      ok := CancelForRequest(id, now, intact);
      if !ok {
        grants := rollback;
      }
    }
  }

  lemma ContextFacts(s: Store, id: RequestId)
    requires StagedContext(s, id)
    ensures id in s.launches && s.launches[id].run in s.runs && s.launches[id].run in s.plans
    ensures s.plans[s.launches[id].run].execution in s.executions
  {
  }

  lemma ClaimableFacts(s: Store, id: RequestId, now: Time)
    requires Claimable(s, id, now)
    ensures id in s.grants && id in s.launches && s.launches[id].run in s.runs && s.launches[id].run in s.plans
    ensures s.plans[s.launches[id].run].execution in s.executions
  {
  }

  lemma UsableFacts(s: Store, id: RequestId, now: Time)
    requires Usable(s, id, now)
    ensures id in s.requests && id in s.grants
  {
  }

  lemma FailClaimKeepsSafe(s: Store, id: RequestId, intact: bool)
    requires Safe(s) && FailClaim(s, id, intact).Some?
    ensures Safe(FailClaim(s, id, intact).value)
  {
    hide FailClaim;
    FailClaimKeeps(s, id, intact);
    FailClaimFrame(s, id, intact);
    DispatchRecovery.FailClaimLeavesGrants(s, id, intact);
    var t := FailClaim(s, id, intact).value;
    FailureKeepsSafe(s, t, id);
  }

  lemma FailureKeepsSafe(s: Store, t: Store, id: RequestId)
    requires Safe(s) && Safe(t.(failures := s.failures - {id})) && t.failures == s.failures && t.grants == s.grants
    ensures Safe(t)
  {
  }

  lemma ClaimFrame(s: Store, id: RequestId, now: Time, authorized: bool)
    requires Safe(s) && Claim(s, id, now, authorized).Some?
    ensures Claim(s, id, now, authorized).value.lookups == s.lookups
    ensures id !in s.lookups && id in Claim(s, id, now, authorized).value.claims
  {
    hide StagedContext, ActivateStagedNode;
  }
}
