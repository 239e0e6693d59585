/** What the Codex stream reports for each input, from the raw notification to the finished event. */
module CodexMeaning {
  import opened Prelude
  import opened AdapterContract
  import opened CodexStream

  /** An event can be made now. */
  predicate CanReport(s: Stream, at: string) {
    !Blank(at) && s.next < 18_446_744_073_709_551_615
  }

  /** The step emitted exactly this event and failure, and ended the stream if it is the last. */
  ghost predicate Reports(s: Stream, step: (Stream, Outcome), state: RunState, name: string, at: string,
                          evidence: EvidenceClass, provider: Option<string>, fields: map<string, string>,
                          failure: Option<AdapterFailure>, last: bool) {
    step == (s.(next := s.next + 1, terminal := s.terminal || last),
             Ok(Some(CodexEvent(
               NormalizedEvent(1, s.run, s.next, state, name, at, evidence, provider, JsonPayload(fields)), failure))))
  }

  /** The step emitted nothing and changed nothing. */
  predicate IsSilent(s: Stream, step: (Stream, Outcome)) {
    step.0 == s && (step.1.Ok? ==> step.1.value.None?)
  }

  lemma EmitReports(s: Stream, state: RunState, name: string, at: string, evidence: EvidenceClass,
                    provider: Option<string>, fields: map<string, string>, failure: Option<AdapterFailure>)
    ensures var step := Emit(s, state, name, at, evidence, provider, fields, failure);
      && (CanReport(s, at) ==>
            && Reports(s, step, state, name, at, evidence, provider, fields, failure, false)
            && Reports(s, Closing(step), state, name, at, evidence, provider, fields, failure, true))
      && (!CanReport(s, at) ==> step.1.Err? && IsSilent(s, step) && Closing(step) == step)
  {
    hide Blank;
  }

  // ---------------------------------------------------------------- notifications

  /** The notification's turn has this text under this key, and it is not blank. */
  predicate TurnSays(params: Json, key: string, value: string) {
    && params.Object? && "turn" in params.fields && params.fields["turn"].Object?
    && key in params.fields["turn"].fields && params.fields["turn"].fields[key] == J.Text(value)
    && !Blank(value)
  }

  lemma TurnMeans(params: Json, key: string)
    ensures forall value :: Turn(params).Some? && RequiredString(Turn(params).value, key) == Some(value) <==>
      TurnSays(params, key, value)
  {
    hide Blank;
  }

  /** Only these two notifications matter. */
  predicate IsAboutTurns(name: string) {
    name == "turn/started" || name == "turn/completed"
  }

  const FINAL_STATES: map<string, RunState> :=
    map["completed" := RunSucceeded, "interrupted" := RunCancelled, "failed" := RunFailed]

  /** A notification about another turn, or not about turns, is ignored; one that names no turn is drift. */
  lemma OthersAreSilent(s: Stream, name: string, params: Json, at: string)
    requires !IsAboutTurns(name) || !TurnSays(params, "id", s.turnId) || s.terminal
    ensures IsSilent(s, Step(s, Notified(name, params, at)))
    ensures Step(s, Notified(name, params, at)).1.Ok? <==>
      !IsAboutTurns(name) || exists id :: id != s.turnId && TurnSays(params, "id", id)
  {
    hide Started, Completed, Turn, RequiredString, TurnSays;
    TurnMeans(params, "id");
    if IsAboutTurns(name) && Turn(params).Some? && RequiredString(Turn(params).value, "id").Some? {
      var id := RequiredString(Turn(params).value, "id").value;
      assert TurnSays(params, "id", id);
      OneIdOnly(params, id, s.turnId);
    }
  }

  lemma OneIdOnly(params: Json, id: string, other: string)
    requires TurnSays(params, "id", id)
    ensures forall x :: TurnSays(params, "id", x) ==> x == id
  {
    hide Blank;
  }

  /** The own turn's start is reported exactly when it says that it is in progress. */
  lemma StartIsReported(s: Stream, params: Json, at: string)
    requires TurnSays(params, "id", s.turnId) && !s.terminal
    ensures var step := Step(s, Notified("turn/started", params, at));
      if TurnSays(params, "status", "inProgress") && CanReport(s, at)
      then Reports(s, step, RunRunning, "codex.turn_started", at, ProviderReported, Some(s.turnId),
                   map["turn_id" := s.turnId, "status" := "running"], None, false)
      else step.1.Err? && IsSilent(s, step)
  {
    hide Turn, RequiredString, TurnSays, Emit, Reports, CanReport;
    TurnMeans(params, "id");
    TurnMeans(params, "status");
    EmitReports(s, RunRunning, "codex.turn_started", at, ProviderReported, Some(s.turnId),
      map["turn_id" := s.turnId, "status" := "running"], None);
    if TurnSays(params, "status", "inProgress") {
      assert RequiredString(Turn(params).value, "status") == Some("inProgress");
    }
  }

  /** The own turn's end is reported, once, in the state its status stands for. */
  lemma EndIsReported(s: Stream, params: Json, at: string, status: string)
    requires TurnSays(params, "id", s.turnId) && !s.terminal && TurnSays(params, "status", status)
    ensures var step := Step(s, Notified("turn/completed", params, at));
      if status in FINAL_STATES && CanReport(s, at)
      then exists failure ::
        && FailureFits(params, status, failure)
        && Reports(s, step, FINAL_STATES[status], "codex.turn_completed", at, ProviderReported, Some(s.turnId),
                   map["turn_id" := s.turnId, "status" := status], failure, true)
      else step.1.Err? && IsSilent(s, step)
  {
    hide Turn, RequiredString, TurnSays, Emit, Reports, CanReport, Ending, FailureFits;
    TurnMeans(params, "id");
    TurnMeans(params, "status");
    assert RequiredString(Turn(params).value, "status") == Some(status);
    EndingMeans(params, status);
    if status in FINAL_STATES {
      var failure := Ending(Turn(params).value, status).value.1;
      EmitReports(s, FINAL_STATES[status], "codex.turn_completed", at, ProviderReported, Some(s.turnId),
        map["turn_id" := s.turnId, "status" := status], failure);
      assert FailureFits(params, status, failure);
    }
  }

  lemma EndWithoutStatusIsDrift(s: Stream, params: Json, at: string)
    requires TurnSays(params, "id", s.turnId) && !s.terminal && forall status :: !TurnSays(params, "status", status)
    ensures var step := Step(s, Notified("turn/completed", params, at)); step.1 == Err(Drift) && IsSilent(s, step)
  {
    hide Turn, RequiredString, TurnSays, Ending, Emit;
    TurnMeans(params, "id");
    TurnMeans(params, "status");
  }

  // ---------------------------------------------------------------- failures

  /** The codes that may be kept, the kind each stands for and whether to retry. */
  const FAILURES: map<string, (FailureKind, bool)> := map[
    "Unauthorized" := (Authentication, false), "UsageLimitExceeded" := (Quota, true),
    "SandboxError" := (PermissionDenied, false), "ResponseStreamConnectionFailed" := (Crashed, true),
    "ResponseStreamDisconnected" := (Crashed, true), "ResponseTooManyFailedAttempts" := (Crashed, true),
    "HttpConnectionFailed" := (Crashed, true), "InternalServerError" := (Crashed, true),
    "ContextWindowExceeded" := (Unknown, false), "BadRequest" := (Unknown, false), "Other" := (Unknown, false)]

  /** The code a turn gives for its failure: a text, or the `type` of an object. */
  predicate GivesCode(params: Json, code: string) {
    var turn := if params.Object? && "turn" in params.fields then params.fields["turn"] else J.Null;
    var error := if turn.Object? && "error" in turn.fields then turn.fields["error"] else J.Null;
    var info := if error.Object? && "codexErrorInfo" in error.fields then error.fields["codexErrorInfo"] else J.Null;
    info == J.Text(code) || (info.Object? && "type" in info.fields && info.fields["type"] == J.Text(code))
  }

  lemma CodeMeans(params: Json)
    requires Turn(params).Some?
    ensures forall code :: FailureCode(Turn(params).value) == Some(code) <==> GivesCode(params, code)
  {
  }

  /** A failure with a code that may be kept, or without one. */
  function FailureOf(kind: FailureKind, code: Option<string>, retryable: bool): Option<AdapterFailure> {
    Some(AdapterFailure(
      kind, if code.Some? then "codex.failure." + SnakeCased(code.value) else "codex.failure.unknown",
      retryable, code, None))
  }

  /** The failure that an end with this status carries: one by its code, or none. */
  ghost predicate FailureFits(params: Json, status: string, failure: Option<AdapterFailure>) {
    && (status == "completed" ==> failure.None?)
    && (status == "interrupted" ==> failure == FailureOf(CancelledByUser, Some("Interrupted"), false))
    && (status == "failed" ==>
         && (forall code :: GivesCode(params, code) ==> failure == FailureByCode(code))
         && ((forall code :: !GivesCode(params, code)) ==> failure == FailureByCode("Other")))
  }

  /** A failure by its code; the code itself is only kept when it is one of the known ones. */
  function FailureByCode(code: string): Option<AdapterFailure> {
    if code in FAILURES then FailureOf(FAILURES[code].0, Some(code), FAILURES[code].1)
    else FailureOf(Unknown, None, false)
  }

  lemma KindMeans(code: string)
    ensures MapFailure(code) ==
      if code in FAILURES then (FAILURES[code].0, FAILURES[code].1, Some(code)) else (Unknown, false, None)
  {
  }

  lemma EndingMeans(params: Json, status: string)
    requires Turn(params).Some?
    ensures Ending(Turn(params).value, status).Some? <==> status in FINAL_STATES
    ensures status in FINAL_STATES ==>
      var end := Ending(Turn(params).value, status).value;
      end.0 == FINAL_STATES[status] && FailureFits(params, status, end.1)
  {
    hide Turn, FailureCode, MapFailure, FAILURES, GivesCode, SnakeCased;
    CodeMeans(params);
    var code := FailureCode(Turn(params).value);
    KindMeans(if code.Some? then code.value else "Other");
    if code.None? {
      forall other
        ensures !GivesCode(params, other)
      {
        assert code != Some(other);
      }
    } else {
      assert GivesCode(params, code.value);
    }
  }

  // ---------------------------------------------------------------- local signals

  /** While the run lasts, a request to cancel it and the resumption of its thread are reported. */
  lemma SignalsAreReported(s: Stream, thread: string, at: string)
    ensures var step := Step(s, CancellationRequested(at));
      if !s.terminal && CanReport(s, at)
      then Reports(s, step, RunCancelling, "codex.turn_interrupt_requested", at, LocallyMeasured, None,
                   map["status" := "cancelling"], None, false)
      else step.1.Err? && IsSilent(s, step)
    ensures var step := Step(s, RecoveryStarted(thread, at));
      if !s.terminal && !Blank(thread) && CanReport(s, at)
      then Reports(s, step, RunRecovering, "codex.thread_resume_requested", at, LocallyMeasured, Some(thread),
                   map["thread_id" := thread, "status" := "recovering"], None, false)
      else step.1.Err? && IsSilent(s, step)
  {
    hide Emit, Reports, CanReport, Blank;
    EmitReports(s, RunCancelling, "codex.turn_interrupt_requested", at, LocallyMeasured, None,
      map["status" := "cancelling"], None);
    EmitReports(s, RunRecovering, "codex.thread_resume_requested", at, LocallyMeasured, Some(thread),
      map["thread_id" := thread, "status" := "recovering"], None);
  }

  /** A missed deadline fails the run and a lost transport leaves it uncertain, both for good and worth a retry. */
  lemma LocalEndsAreReported(s: Stream, at: string)
    ensures var step := Step(s, DeadlineExceeded(at));
      if !s.terminal && CanReport(s, at)
      then Reports(s, step, RunFailed, "codex.deadline_exceeded", at, LocallyMeasured, None, map["status" := "failed"],
                   Some(AdapterFailure(Timeout, "codex.failure.timeout", true, None, None)), true)
      else step.1.Err? && IsSilent(s, step)
    ensures var step := Step(s, TransportLost(at));
      if !s.terminal && CanReport(s, at)
      then Reports(s, step, RunUncertain, "codex.transport_lost", at, LocallyMeasured, None,
                   map["status" := "uncertain"],
                   Some(AdapterFailure(Crashed, "codex.failure.transport_lost", true, None, None)), true)
      else step.1.Err? && IsSilent(s, step)
  {
    hide Emit, Reports, CanReport;
    EmitReports(s, RunFailed, "codex.deadline_exceeded", at, LocallyMeasured, None, map["status" := "failed"],
      Some(AdapterFailure(Timeout, "codex.failure.timeout", true, None, None)));
    EmitReports(s, RunUncertain, "codex.transport_lost", at, LocallyMeasured, None, map["status" := "uncertain"],
      Some(AdapterFailure(Crashed, "codex.failure.transport_lost", true, None, None)));
  }
}
