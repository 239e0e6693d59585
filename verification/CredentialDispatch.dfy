/**
  Single-use credential grants and the dispatch of staged launches, as atomic transactions
  over the daemon's tables, with crashes and restarts possible between any two of them.
 */
module CredentialDispatch {
  import opened Prelude
  import opened WorkflowGraph
  import opened AdapterContract
  import opened E = GraphOperations
  import opened ExecutionRuns

  type RequestId = nat
  type Action = nat
  type Time = nat

  const MAX_TIME: nat := 0x7FFF_FFFF_FFFF_FFFF

  /** The part of an approval request that decides about its grant. */
  datatype Request = Request(createdAt: Time, expiresAt: Time, run: Option<RunId>, action: Action, decided: bool)

  datatype Grant = Grant(issuedAt: Time, consumedAt: Option<Time>, revokedAt: Option<Time>)

  datatype LaunchState = AwaitingDecision | ReadyToLaunch | LaunchCancelled | Dispatching | LaunchUncertain

  /** A row of the staged launches. Each has its own request and its own run. */
  datatype Launch = Launch(run: RunId, state: LaunchState, stagedAt: Time)

  datatype RunRow = RunRow(state: RunState, startedAt: Option<Time>, finishedAt: Option<Time>)

  /** What a run was begun for; never changed once written. */
  datatype Plan = Plan(execution: ExecutionId, node: NodeId, owner: string)

  /**
    The tables, then what lives in the daemon's memory only (claims not yet looked up, failed
    lookups not yet recorded, directly consumed grants), then every native lookup made.
   */
  datatype Store = Store(
    ready: bool, requests: map<RequestId, Request>, grants: map<RequestId, Grant>,
    launches: map<RequestId, Launch>, runs: map<RunId, RunRow>, plans: map<RunId, Plan>,
    executions: map<ExecutionId, E.Execution>,
    claims: set<RequestId>, failures: set<RequestId>, receipts: set<RequestId>,
    lookups: seq<RequestId>)

  const EMPTY := Store(false, map[], map[], map[], map[], map[], map[], {}, {}, {}, [])

  predicate ValidTime(r: Request, now: Time) {
    r.createdAt <= now < r.expiresAt <= MAX_TIME
  }

  /** `validate_run_timing`: a run that got going has a start time, one that ended has an end time. */
  predicate TimingFits(r: RunRow) {
    && (r.state !in {RunStarting, RunAwaitingApproval, RunCancelled} ==> r.startedAt.Some?)
    && (r.state in {RunCancelled, RunFailed, RunSucceeded} ==> r.finishedAt.Some?)
  }

  /** What the catalog's validation demands of the runs, checked before every write of the catalog. */
  predicate CatalogFits(runs: map<RunId, RunRow>) {
    forall run | run in runs :: TimingFits(runs[run])
  }

  /** An issued, decided grant that is neither consumed nor revoked and may be used now. */
  predicate Usable(s: Store, id: RequestId, now: Time) {
    && id in s.requests && s.requests[id].decided && id in s.grants && ValidTime(s.requests[id], now)
    && s.grants[id].issuedAt <= now && s.grants[id].consumedAt.None? && s.grants[id].revokedAt.None?
  }

  function Later(a: Time, b: Time): Time {
    if a < b then b else a
  }

  /** A launch that waits for its decision or its dispatch, with its run and node as staged. */
  predicate StagedContext(s: Store, id: RequestId) {
    && id in s.launches && s.launches[id].state in {AwaitingDecision, ReadyToLaunch}
    && var run := s.launches[id].run;
    && run in s.runs && run in s.plans && s.plans[run].execution in s.executions
    && s.runs[run].state == RunAwaitingApproval && s.runs[run].startedAt.None? && s.runs[run].finishedAt.None?
    && var e, plan := s.executions[s.plans[run].execution], s.plans[run];
    && var i := Find(e.nodes, plan.node);
    && i < |e.nodes| && IsStagedAs(e.nodes[i], plan.owner, run)
  }

  // ---------------------------------------------------------------- the transactions of this protocol

  /** The daemon is ready, the grant usable, and the launch of its run ready to be dispatched. */
  predicate Claimable(s: Store, id: RequestId, now: Time) {
    && s.ready && Usable(s, id, now) && StagedContext(s, id)
    && s.launches[id].state == ReadyToLaunch && s.requests[id].run == Some(s.launches[id].run)
  }

  /** `claim_staged_dispatch`; `authorized` stands for the catalog, policy and reader checks. */
  function Claim(s: Store, id: RequestId, now: Time, authorized: bool): Option<Store> {
    if !Claimable(s, id, now) || !authorized then None
    else
      var run := s.launches[id].run;
      var plan := s.plans[run];
      var e := ActivateStagedNode(s.executions[plan.execution], plan.node, plan.owner, run);
      if e.Err? || !CatalogFits(AfterClaim(s, id, now, e.value).runs) then None
      else Some(AfterClaim(s, id, now, e.value))
  }

  /** The rows a claim writes, with the plan's execution as activated. */
  function AfterClaim(s: Store, id: RequestId, now: Time, activated: E.Execution): Store
    requires id in s.grants && id in s.launches && s.launches[id].run in s.runs && s.launches[id].run in s.plans
  {
    var run := s.launches[id].run;
    s.(grants := s.grants[id := s.grants[id].(consumedAt := Some(now))],
       launches := s.launches[id := s.launches[id].(state := Dispatching)],
       runs := s.runs[run := s.runs[run].(state := RunStarting, startedAt := Some(now))],
       executions := s.executions[s.plans[run].execution := activated],
       claims := s.claims + {id})
  }

  /** The native lookup that one claim entitles to, made after its transaction was committed. */
  function Lookup(s: Store, id: RequestId, found: bool): Option<Store> {
    if id !in s.claims then None
    else Some(s.(claims := s.claims - {id}, lookups := s.lookups + [id],
                 failures := if found then s.failures else s.failures + {id}))
  }

  /**
    `fail_dispatch_claim`, without the bookkeeping of which failures are still to be recorded.
    Here and below, `intact` stands for all checks of stored data that are not modelled.
   */
  ghost function FailClaim(s: Store, id: RequestId, intact: bool): Option<Store> {
    if id !in s.launches || !intact then None
    else
      var run := s.launches[id].run;
      if run !in s.plans || run !in s.runs || s.runs[run].state != RunStarting
         || s.plans[run].execution !in s.executions || s.launches[id].state != Dispatching then None
      else
        var plan := s.plans[run];
        var e := s.executions[plan.execution];
        var i := Find(e.nodes, plan.node);
        if i == |e.nodes| || e.nodes[i].runId != Some(run) then None
        else
          var done := FinishTerminal(e, plan.node, plan.owner, Uncertain, None);
          var runs := s.runs[run := s.runs[run].(state := RunUncertain)];
          if done.Err? || !CatalogFits(runs) then None
          else Some(s.(
            launches := s.launches[id := s.launches[id].(state := LaunchUncertain)],
            runs := runs,
            executions := s.executions[plan.execution := done.value]))
  }

  /** `consume_credential_grant`, for grants that no staged launch belongs to. */
  function Consume(s: Store, id: RequestId, action: Action, now: Time, authorized: bool): Option<Store> {
    if !s.ready || !Usable(s, id, now) || id in s.launches || s.requests[id].action != action || !authorized then None
    else if s.requests[id].run.None? || s.requests[id].run.value !in s.runs then None
    else
      var run := s.requests[id].run.value;
      if s.runs[run].finishedAt.Some? || s.runs[run].state != RunStarting
         || exists other | other in s.launches :: s.launches[other].run == run then None
      else Some(s.(grants := s.grants[id := s.grants[id].(consumedAt := Some(now))], receipts := s.receipts + {id}))
  }

  /** `cancel_for_request`: ends a launch that was never dispatched, and revokes its unspent grant. */
  ghost function CancelForRequest(s: Store, id: RequestId, now: Time, intact: bool): Option<Store> {
    if id !in s.launches || s.launches[id].state == LaunchCancelled then Some(s)
    else if !StagedContext(s, id) || !intact then None
    else
      var run, finished := s.launches[id].run, Later(now, s.launches[id].stagedAt);
      var plan := s.plans[run];
      var e := CancelStagedNode(s.executions[plan.execution], plan.node, plan.owner, run);
      var runs := s.runs[run := s.runs[run].(state := RunCancelled, finishedAt := Some(finished))];
      if e.Err? || !CatalogFits(runs) then None
      else Some(RevokeUnspent(s.(
        launches := s.launches[id := s.launches[id].(state := LaunchCancelled)],
        runs := runs,
        executions := s.executions[plan.execution := e.value]), id, finished))
  }

  function RevokeUnspent(s: Store, id: RequestId, now: Time): Store {
    if id in s.grants && s.grants[id].consumedAt.None? && s.grants[id].revokedAt.None?
    then s.(grants := s.grants[id := s.grants[id].(revokedAt := Some(Later(s.grants[id].issuedAt, now)))])
    else s
  }

  /** The grant's own row, revoked. */
  function RevokedAt(s: Store, id: RequestId, now: Time): Store
    requires id in s.grants
  {
    s.(grants := s.grants[id := s.grants[id].(revokedAt := Some(now))])
  }

  /** The request's own row, decided. */
  function Decided(s: Store, id: RequestId): Store
    requires id in s.requests
  {
    s.(requests := s.requests[id := s.requests[id].(decided := true)])
  }

  /** `revoke_credential_grant` */
  ghost function Revoke(s: Store, id: RequestId, actor: string, now: Time, intact: bool): Option<Store> {
    if Blank(actor) || Utf8Length(actor) > 200 || !Usable(s, id, now) || !intact then None
    else CancelForRequest(RevokedAt(s, id, now), id, now, intact)
  }

  // ---------------------------------------------------------------- the steps around it

  /** Begins a launch that needs an approval: its node, run, plan, request and launch row. */
  function Stage(s: Store, id: RequestId, r: Request, run: RunId, plan: Plan, now: Time, intact: bool): Option<Store> {
    if !s.ready || id in s.requests || id in s.grants || id in s.launches || run in s.runs || run in s.plans
       || r.run != Some(run) || r.decided || plan.execution !in s.executions || !intact then None
    else
      var e := StageNode(s.executions[plan.execution], plan.node, plan.owner, run);
      var runs := s.runs[run := RunRow(RunAwaitingApproval, None, None)];
      if e.Err? || !CatalogFits(runs) then None
      else Some(s.(
        requests := s.requests[id := r], launches := s.launches[id := Launch(run, AwaitingDecision, now)],
        runs := runs, plans := s.plans[run := plan],
        executions := s.executions[plan.execution := e.value]))
  }

  /** Approving issues the grant and readies the launch, if there is one. */
  function Approve(s: Store, id: RequestId, now: Time, authorized: bool): Option<Store> {
    if id !in s.requests || s.requests[id].decided || id in s.grants then None
    else if !ValidTime(s.requests[id], now) || !authorized then None
    else if id in s.launches && (s.launches[id].state != AwaitingDecision || !StagedContext(s, id)) then None
    else
      var t := s.(requests := s.requests[id := s.requests[id].(decided := true)],
                  grants := s.grants[id := Grant(now, None, None)]);
      Some(if id in s.launches then t.(launches := t.launches[id := t.launches[id].(state := ReadyToLaunch)]) else t)
  }

  ghost function Deny(s: Store, id: RequestId, now: Time, intact: bool): Option<Store> {
    if id !in s.requests || s.requests[id].decided || !ValidTime(s.requests[id], now) || !intact then None
    else if id in s.launches && s.launches[id].state != AwaitingDecision then None
    else CancelForRequest(Decided(s, id), id, now, intact)
  }

  /** Recovery of one catalog run after a restart. */
  function RecoveredRun(r: RunRow): RunRow {
    if (r.state == RunStarting && r.startedAt.Some?)
       || r.state in {RunRunning, RunCancelling, RunRecovering}
       || (r.state == RunAwaitingApproval && r.startedAt.Some?)
    then r.(state := RunUncertain) else r
  }

  function RecoveredLaunch(l: Launch): Launch {
    if l.state == Dispatching then l.(state := LaunchUncertain) else l
  }

  /** A crash loses what was in memory; reopening the store reconciles runs, graphs and launches. */
  function Restart(s: Store): Store {
    s.(ready := false, claims := {}, failures := {}, receipts := {},
       runs := map run | run in s.runs :: RecoveredRun(s.runs[run]),
       launches := map id | id in s.launches :: RecoveredLaunch(s.launches[id]),
       executions := map x | x in s.executions :: ReconcileAfterRestart(s.executions[x]))
  }

  datatype Step =
    | DoClaim(id: RequestId, now: Time, authorized: bool)
    | DoLookup(id: RequestId, found: bool)
    | DoFailClaim(id: RequestId, intact: bool)
    | DoConsume(id: RequestId, action: Action, now: Time, authorized: bool)
    | DoDirectLookup(id: RequestId)
    | DoRevoke(id: RequestId, actor: string, now: Time, intact: bool)
    | DoStage(id: RequestId, request: Request, run: RunId, plan: Plan, now: Time, intact: bool)
    | DoRequest(id: RequestId, request: Request)
    | DoApprove(id: RequestId, now: Time, authorized: bool)
    | DoDeny(id: RequestId, now: Time, intact: bool)
    | DoCancel(id: RequestId, now: Time, intact: bool)
    | DoRun(run: RunId, row: RunRow)
    | DoStart(execution: ExecutionId, graph: Graph)
    | DoGraph(execution: ExecutionId, step: ExecutionRuns.Step)
    | DoMarkReady
    | DoRestart

  /** One step; `None` is a rejected transaction. */
  ghost function Attempted(digest: Digest, s: Store, step: Step): Option<Store> {
    match step
    case DoClaim(id, now, authorized) => Claim(s, id, now, authorized)
    case DoLookup(id, found) => Lookup(s, id, found)
    case DoFailClaim(id, intact) =>
      var r := FailClaim(s, id, intact);
      if id in s.failures && r.Some? then Some(r.value.(failures := s.failures - {id})) else None
    case DoConsume(id, action, now, authorized) => Consume(s, id, action, now, authorized)
    case DoDirectLookup(id) =>
      if id in s.receipts then Some(s.(receipts := s.receipts - {id}, lookups := s.lookups + [id])) else None
    case DoRevoke(id, actor, now, intact) => Revoke(s, id, actor, now, intact)
    case DoStage(id, r, run, plan, now, intact) => Stage(s, id, r, run, plan, now, intact)
    case DoRequest(id, r) =>
      if id in s.requests || id in s.grants || id in s.launches || r.decided then None
      else Some(s.(requests := s.requests[id := r]))
    case DoApprove(id, now, authorized) => Approve(s, id, now, authorized)
    case DoDeny(id, now, intact) => Deny(s, id, now, intact)
    case DoCancel(id, now, intact) => CancelForRequest(s, id, now, intact)
    case DoRun(run, row) => if CatalogFits(s.runs[run := row]) then Some(s.(runs := s.runs[run := row])) else None
    case DoStart(x, g) =>
      if x in s.executions || Verdict(g).Some? then None
      else Some(s.(executions := s.executions[x := Started(x, g)]))
    case DoGraph(x, graphStep) =>
      if x in s.executions then Some(s.(executions := s.executions[x := Apply(digest, s.executions[x], graphStep)]))
      else None
    case DoMarkReady => Some(s.(ready := true))
    case DoRestart => Some(Restart(s))
  }

  ghost function Next(digest: Digest, s: Store, step: Step): Store {
    var r := Attempted(digest, s, step);
    if r.Some? then r.value else s
  }

  ghost function RunSteps(digest: Digest, s: Store, steps: seq<Step>): Store
    decreases |steps|
  {
    if steps == [] then s else RunSteps(digest, Next(digest, s, steps[0]), steps[1..])
  }

  // ---------------------------------------------------------------- what every step keeps

  predicate IsConsumed(s: Store, id: RequestId) {
    id in s.grants && s.grants[id].consumedAt.Some?
  }

  predicate IsRevoked(s: Store, id: RequestId) {
    id in s.grants && s.grants[id].revokedAt.Some?
  }

  /** Each consumed grant stands for one lookup: still owed, or made. */
  ghost predicate LookupsAreCovered(s: Store) {
    && Distinct(s.lookups)
    && s.claims !! s.receipts
    && (forall i :: 0 <= i < |s.lookups| ==>
          s.lookups[i] !in s.claims && s.lookups[i] !in s.receipts && IsConsumed(s, s.lookups[i]))
    && (forall id :: id in s.claims || id in s.receipts || id in s.failures ==> IsConsumed(s, id))
  }

  ghost predicate NeverBoth(s: Store) {
    forall id :: id in s.grants ==> !(IsConsumed(s, id) && IsRevoked(s, id))
  }

  /** How far a staged launch has got, and what has become of its grant. */
  predicate GrantFitsLaunch(s: Store, id: RequestId)
    requires id in s.launches
  {
    match s.launches[id].state
    case AwaitingDecision => id !in s.grants
    case ReadyToLaunch => id in s.grants && !IsConsumed(s, id) && !IsRevoked(s, id)
    case LaunchCancelled => id in s.grants ==> IsRevoked(s, id)
    case Dispatching => IsConsumed(s, id)
    case LaunchUncertain => IsConsumed(s, id)
  }

  ghost predicate GrantsFitLaunches(s: Store) {
    forall id :: id in s.launches ==> GrantFitsLaunch(s, id)
  }

  /** Every launch has its own run, with a plan. */
  ghost predicate RunsAreOwned(s: Store) {
    && (forall id :: id in s.launches ==> s.launches[id].run in s.plans)
    && forall id, other :: id in s.launches && other in s.launches && s.launches[id].run == s.launches[other].run ==>
         id == other
  }

  ghost predicate Safe(s: Store) {
    LookupsAreCovered(s) && NeverBoth(s) && GrantsFitLaunches(s) && RunsAreOwned(s)
  }

  /** A step that leaves grants, launches and lookups alone is safe. */
  lemma UnrelatedKeeps(s: Store, t: Store)
    requires Safe(s)
    requires t.grants == s.grants && t.launches == s.launches && t.plans == s.plans
    requires t.claims == s.claims && t.failures == s.failures && t.receipts == s.receipts && t.lookups == s.lookups
    ensures Safe(t)
  {
  }

  lemma ClaimKeeps(s: Store, id: RequestId, now: Time, authorized: bool)
    requires Safe(s) && Claim(s, id, now, authorized).Some?
    ensures Safe(Claim(s, id, now, authorized).value)
  {
    hide ActivateStagedNode, Find, ValidTime, IsStagedAs;
  }

  lemma LookupKeeps(s: Store, id: RequestId, found: bool)
    requires Safe(s) && Lookup(s, id, found).Some?
    ensures Safe(Lookup(s, id, found).value)
  {
  }

  lemma FailClaimKeeps(s: Store, id: RequestId, intact: bool)
    requires Safe(s) && FailClaim(s, id, intact).Some?
    ensures Safe(FailClaim(s, id, intact).value.(failures := s.failures - {id}))
  {
    hide FinishTerminal, Find;
  }

  lemma ConsumeKeeps(s: Store, id: RequestId, action: Action, now: Time, authorized: bool)
    requires Safe(s) && Consume(s, id, action, now, authorized).Some?
    ensures Safe(Consume(s, id, action, now, authorized).value)
  {
  }

  lemma DirectLookupKeeps(s: Store, id: RequestId)
    requires Safe(s) && id in s.receipts
    ensures Safe(s.(receipts := s.receipts - {id}, lookups := s.lookups + [id]))
  {
  }

  /** Cancelling is safe for a grant that does not exist, is unspent or was just revoked. */
  lemma CancelKeeps(s: Store, id: RequestId, now: Time, intact: bool)
    requires LookupsAreCovered(s) && NeverBoth(s) && RunsAreOwned(s)
    requires forall other :: other in s.launches && other != id ==> GrantFitsLaunch(s, other)
    requires id in s.launches ==> GrantFitsLaunch(s, id) || IsRevoked(s, id)
    requires id in s.launches && s.launches[id].state in {Dispatching, LaunchUncertain} ==> GrantFitsLaunch(s, id)
    requires CancelForRequest(s, id, now, intact).Some?
    ensures Safe(CancelForRequest(s, id, now, intact).value)
  {
    hide CancelForRequest, LookupsAreCovered, NeverBoth, RunsAreOwned;
    CancelEffect(s, id, now, intact);
    var t := CancelForRequest(s, id, now, intact).value;
    RevokedGrantsFit(s, t, id);
  }

  /** What cancelling does to grants and launches, whatever happens to runs and graphs. */
  lemma CancelEffect(s: Store, id: RequestId, now: Time, intact: bool)
    requires CancelForRequest(s, id, now, intact).Some?
    ensures var t := CancelForRequest(s, id, now, intact).value;
      && t.plans == s.plans
      && t.claims == s.claims && t.failures == s.failures && t.receipts == s.receipts && t.lookups == s.lookups
      && (if id !in s.launches || s.launches[id].state == LaunchCancelled then t == s
          else
            && s.launches[id].state in {AwaitingDecision, ReadyToLaunch}
            && t.launches == s.launches[id := s.launches[id].(state := LaunchCancelled)]
            && t.grants == RevokeUnspent(s, id, Later(now, s.launches[id].stagedAt)).grants)
  {
    hide CancelStagedNode, Find;
  }

  lemma RevokedGrantsFit(s: Store, t: Store, id: RequestId)
    requires LookupsAreCovered(s) && NeverBoth(s) && RunsAreOwned(s)
    requires t.plans == s.plans
    requires t.claims == s.claims && t.failures == s.failures && t.receipts == s.receipts && t.lookups == s.lookups
    requires t == s || (&& id in s.launches && t.launches == s.launches[id := s.launches[id].(state := LaunchCancelled)]
                        && exists now :: t.grants == RevokeUnspent(s, id, now).grants)
    ensures LookupsAreCovered(t) && NeverBoth(t) && RunsAreOwned(t)
  {
  }

  lemma RevokeKeeps(s: Store, id: RequestId, actor: string, now: Time, intact: bool)
    requires Safe(s) && Revoke(s, id, actor, now, intact).Some?
    ensures Safe(Revoke(s, id, actor, now, intact).value)
  {
    hide CancelForRequest, Blank, Utf8Length;
    var t := RevokedAt(s, id, now);
    CancelKeeps(t, id, now, intact);
  }

  lemma StageKeeps(s: Store, id: RequestId, r: Request, run: RunId, plan: Plan, now: Time, intact: bool)
    requires Safe(s) && Stage(s, id, r, run, plan, now, intact).Some?
    ensures Safe(Stage(s, id, r, run, plan, now, intact).value)
  {
    hide StageNode;
  }

  lemma ApproveKeeps(s: Store, id: RequestId, now: Time, authorized: bool)
    requires Safe(s) && Approve(s, id, now, authorized).Some?
    ensures Safe(Approve(s, id, now, authorized).value)
  {
    hide StagedContext, LookupsAreCovered, NeverBoth, GrantsFitLaunches, RunsAreOwned, ValidTime;
    var t := Approve(s, id, now, authorized).value;
    GrantIssued(s, t, id, now);
    LaunchReadied(s, t, id);
  }

  lemma GrantIssued(s: Store, t: Store, id: RequestId, now: Time)
    requires LookupsAreCovered(s) && NeverBoth(s)
    requires id !in s.grants && t.grants == s.grants[id := Grant(now, None, None)]
    requires t.claims == s.claims && t.failures == s.failures && t.receipts == s.receipts && t.lookups == s.lookups
    ensures LookupsAreCovered(t) && NeverBoth(t)
  {
  }

  lemma LaunchReadied(s: Store, t: Store, id: RequestId)
    requires GrantsFitLaunches(s) && RunsAreOwned(s) && id !in s.grants && t.plans == s.plans
    requires id in t.grants && t.grants == s.grants[id := t.grants[id]]
    requires t.grants[id].consumedAt.None? && t.grants[id].revokedAt.None?
    requires id !in s.launches ==> t.launches == s.launches
    requires id in s.launches ==> t.launches == s.launches[id := s.launches[id].(state := ReadyToLaunch)]
    ensures GrantsFitLaunches(t) && RunsAreOwned(t)
  {
  }

  lemma DenyKeeps(s: Store, id: RequestId, now: Time, intact: bool)
    requires Safe(s) && Deny(s, id, now, intact).Some?
    ensures Safe(Deny(s, id, now, intact).value)
  {
    hide CancelForRequest;
    var t := Decided(s, id);
    UnrelatedKeeps(s, t);
    CancelKeeps(t, id, now, intact);
  }

  lemma RestartKeeps(s: Store)
    requires Safe(s)
    ensures Safe(Restart(s))
  {
    hide ReconcileAfterRestart;
  }

  lemma NextKeeps(digest: Digest, s: Store, step: Step)
    requires Safe(s)
    ensures Safe(Next(digest, s, step))
  {
    hide Safe, Claim, Lookup, FailClaim, Consume, Revoke, Stage, Approve, Deny, CancelForRequest, Restart;
    hide Apply, Started;
    if Attempted(digest, s, step).Some? {
      match step
      case DoClaim(id, now, authorized) => ClaimKeeps(s, id, now, authorized);
      case DoLookup(id, found) => LookupKeeps(s, id, found);
      case DoFailClaim(id, intact) => FailClaimStepKeeps(digest, s, id, intact);
      case DoConsume(id, action, now, authorized) => ConsumeKeeps(s, id, action, now, authorized);
      case DoDirectLookup(id) => DirectLookupKeeps(s, id);
      case DoRevoke(id, actor, now, intact) => RevokeKeeps(s, id, actor, now, intact);
      case DoStage(id, r, run, plan, now, intact) => StageKeeps(s, id, r, run, plan, now, intact);
      case DoApprove(id, now, authorized) => ApproveKeeps(s, id, now, authorized);
      case DoDeny(id, now, intact) => DenyKeeps(s, id, now, intact);
      case DoCancel(id, now, intact) => CancelAloneKeeps(s, id, now, intact);
      case DoRestart => RestartKeeps(s);
      case _ => UnrelatedKeeps(s, Next(digest, s, step));
    }
  }

  lemma FailClaimStepKeeps(digest: Digest, s: Store, id: RequestId, intact: bool)
    requires Safe(s) && Attempted(digest, s, DoFailClaim(id, intact)).Some?
    ensures Safe(Next(digest, s, DoFailClaim(id, intact)))
  {
    hide Safe;
    FailClaimKeeps(s, id, intact);
    FailClaimFrame(s, id, intact);
  }

  lemma FailClaimFrame(s: Store, id: RequestId, intact: bool)
    requires FailClaim(s, id, intact).Some?
    ensures FailClaim(s, id, intact).value.failures == s.failures
  {
    hide FinishTerminal, Find;
  }

  lemma CancelAloneKeeps(s: Store, id: RequestId, now: Time, intact: bool)
    requires Safe(s) && CancelForRequest(s, id, now, intact).Some?
    ensures Safe(CancelForRequest(s, id, now, intact).value)
  {
    hide CancelForRequest;
    CancelKeeps(s, id, now, intact);
  }

  lemma {:induction false} RunStepsKeep(digest: Digest, s: Store, steps: seq<Step>)
    requires Safe(s)
    ensures Safe(RunSteps(digest, s, steps))
    decreases |steps|
  {
    hide Safe, Next;
    if steps != [] {
      NextKeeps(digest, s, steps[0]);
      RunStepsKeep(digest, Next(digest, s, steps[0]), steps[1..]);
    }
  }

  /**
    Over any interleaving of claims, lookups, direct consumption, revocation, cancellation,
    crashes and restarts: every approval leads to at most one native lookup, only a consumed
    grant is looked up, and no grant is both consumed and revoked.
   */
  lemma AtMostOneLookup(digest: Digest, steps: seq<Step>, i: nat, j: nat, id: RequestId)
    ensures var s := RunSteps(digest, EMPTY, steps);
      && (i < j < |s.lookups| ==> s.lookups[i] != s.lookups[j])
      && (i < |s.lookups| ==> IsConsumed(s, s.lookups[i]))
      && !(IsConsumed(s, id) && IsRevoked(s, id))
      && (id in s.launches ==> GrantFitsLaunch(s, id))
  {
    hide RunSteps;
    RunStepsKeep(digest, EMPTY, steps);
  }

  /** A lookup starts from a state in which the consumption has already been committed. */
  lemma LookupFollowsCommit(digest: Digest, steps: seq<Step>, step: Step)
    requires step.DoLookup? || step.DoDirectLookup?
    requires Attempted(digest, RunSteps(digest, EMPTY, steps), step).Some?
    ensures IsConsumed(RunSteps(digest, EMPTY, steps), step.id)
    ensures step.id !in RunSteps(digest, EMPTY, steps).lookups
  {
    hide RunSteps;
    RunStepsKeep(digest, EMPTY, steps);
  }
}
