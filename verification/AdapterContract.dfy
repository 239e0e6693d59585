/** The vocabulary adapters report in: runs, their states, failures and normalized events. */
module AdapterContract {
  import opened Prelude

  const AGENT_ADAPTER_CONTRACT_VERSION: nat := 1

  type RunId = nat

  datatype RunState =
    | RunStarting | RunRunning | RunAwaitingApproval | RunBlocked | RunCancelling | RunCancelled
    | RunFailed | RunSucceeded | RunRecovering | RunUncertain

  datatype FailureKind =
    | BinaryMissing | Authentication | Quota | PermissionDenied | Timeout | CancelledByUser
    | Crashed | ProtocolDrift | MalformedOutput | Unsupported | Unknown

  datatype AdapterFailure = AdapterFailure(
    kind: FailureKind, messageKey: string, retryable: bool,
    providerCode: Option<string>, redactedDetail: Option<string>)

  datatype EvidenceClass = ProviderReported | AgentReported | LocallyMeasured | Estimated | UnknownEvidence

  /** A payload that is the text of some JSON value, or any other text. */
  datatype Payload = JsonPayload(fields: map<string, string>) | RawPayload(text: string)

  datatype NormalizedEvent = NormalizedEvent(
    version: nat, run: RunId, sequence: nat, state: RunState, eventType: string, occurredAt: string,
    evidence: EvidenceClass, providerEventId: Option<string>, payload: Payload)

  /** The states a run ends in. */
  predicate IsTerminal(state: RunState) {
    state in {RunBlocked, RunCancelled, RunFailed, RunSucceeded, RunUncertain}
  }

  /** What is required of an event by itself. */
  predicate WellFormedEvent(e: NormalizedEvent, run: RunId) {
    && e.version == AGENT_ADAPTER_CONTRACT_VERSION && e.run == run
    && !Blank(e.eventType) && !Blank(e.occurredAt) && e.evidence != UnknownEvidence
    && (e.providerEventId.Some? ==> !Blank(e.providerEventId.value))
    && e.payload.JsonPayload?
  }
}
