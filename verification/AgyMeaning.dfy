/** What the Agy stream does with each line and signal, from the raw line to the finished event. */
module AgyMeaning {
  import opened Prelude
  import opened AdapterContract
  import opened AgyStream

  // ---------------------------------------------------------------- events

  predicate CanReport(s: Stream, at: string) {
    !Blank(at) && s.sequence < 18_446_744_073_709_551_615
  }

  /** The step's outcome is exactly this event, numbered next. */
  ghost predicate Reports(s: Stream, r: Outcome, state: RunState, name: string, at: string, evidence: EvidenceClass,
                          failure: Option<AdapterFailure>) {
    r == Ok(Some(Lifecycle(
      NormalizedEvent(1, s.run, s.sequence + 1, state, name, at, evidence, None,
                      JsonPayload(map["provider" := "agy_cli"])), failure)))
  }

  /** The event is reported with the next number, or drift is, whatever else the step has changed. */
  ghost predicate ReportsIfPossible(s: Stream, changed: Stream, step: (Stream, Outcome), state: RunState, name: string,
                                    at: string, evidence: EvidenceClass, failure: Option<AdapterFailure>) {
    if CanReport(s, at)
    then Reports(s, step.1, state, name, at, evidence, failure) && step.0 == changed.(sequence := s.sequence + 1)
    else step == (changed, Err(Drift))
  }

  lemma EmitReports(s: Stream, changed: Stream, state: RunState, name: string, at: string,
                    failure: Option<AdapterFailure>, evidence: EvidenceClass)
    requires changed.sequence == s.sequence && changed.run == s.run
    ensures ReportsIfPossible(s, changed, Emit(changed, state, name, at, failure, evidence), state, name, at, evidence,
                              failure)
  {
    hide Blank;
  }

  function FailureOf(kind: FailureKind, key: string, retryable: bool): Option<AdapterFailure> {
    Some(AdapterFailure(kind, key, retryable, None, None))
  }

  // ---------------------------------------------------------------- opening

  /** A stream starts with nothing read or said; to resume, the conversation must not be blank. */
  lemma OpeningMeans(run: RunId, expected: Option<string>)
    ensures Opened(run, expected) ==
      if expected.Some? && Blank(expected.value) then Err(Drift)
      else Ok(Stream(run, 0, None, expected, false, false, "", false))
  {
    hide Blank;
  }

  // ---------------------------------------------------------------- reading lines

  /** The object has this text under this key, and it is not blank. */
  predicate Says(j: Json, key: string, text: string) {
    j.Object? && key in j.fields && j.fields[key] == J.Text(text) && !Blank(text)
  }

  /** The object has this value under this key. */
  predicate Has(j: Json, key: string, value: Json) {
    j.Object? && key in j.fields && j.fields[key] == value
  }

  lemma TextMeans(j: Json, key: string)
    ensures forall text :: RequiredText(J.Get(j, key)) == Some(text) <==> Says(j, key, text)
  {
    hide Blank;
  }

  lemma OneTextOnly(j: Json, key: string, text: string)
    requires Says(j, key, text)
    ensures forall other :: Says(j, key, other) ==> other == text
  {
    hide Blank;
  }

  lemma LineIsRead(s: Stream, line: Json, event: string, at: string)
    requires !s.closed && Has(line, "event", J.Text(event))
    ensures Step(s, Line(Some(line), at)) ==
      if event == "init" then AfterInit(s, line, at)
      else if event == "step_update" then AfterUpdate(s, line)
      else if event == "result" then AfterResult(s, line, at)
      else (s, Err(Drift))
  {
    hide AfterInit, AfterUpdate, AfterResult;
  }

  /** A line that is no JSON, or names no event, is drift; a closed stream takes no line at all. */
  lemma OtherLinesAreDrift(s: Stream, line: Option<Json>, at: string)
    requires s.closed || line.None? || forall event :: !Has(line.value, "event", J.Text(event))
    ensures Step(s, Line(line, at)) == (s, Err(if s.closed then Closed else Drift))
  {
    hide AfterInit, AfterUpdate, AfterResult;
    hide J.AsText, J.Get;
    if line.Some? {
      EventMeans(line.value);
    }
  }

  lemma EventMeans(line: Json)
    ensures forall event :: J.AsText(J.Get(line, "event")) == Some(event) <==> Has(line, "event", J.Text(event))
  {
  }

  // ---------------------------------------------------------------- the first line

  /** The start is accepted once, with a conversation that is the expected one if one is expected. */
  lemma InitIsReported(s: Stream, line: Json, at: string, conversation: string)
    requires !s.closed && Has(line, "event", J.Text("init")) && Says(line, "conversation_id", conversation)
    ensures var step := Step(s, Line(Some(line), at));
      if !s.initialized && s.expected in {None, Some(conversation)}
      then ReportsIfPossible(s, s.(conversation := Some(conversation), initialized := true), step,
                             RunRunning, "run.started", at, ProviderReported, None)
      else step == (s, Err(Drift))
  {
    hide Emit, ReportsIfPossible, Blank;
    LineIsRead(s, line, "init", at);
    TextMeans(line, "conversation_id");
    assert RequiredText(J.Get(line, "conversation_id")) == Some(conversation);
    EmitReports(s, s.(conversation := Some(conversation), initialized := true), RunRunning, "run.started", at, None,
      ProviderReported);
  }

  lemma InitNeedsConversation(s: Stream, line: Json, at: string)
    requires !s.closed && Has(line, "event", J.Text("init")) && forall c :: !Says(line, "conversation_id", c)
    ensures Step(s, Line(Some(line), at)) == (s, Err(Drift))
  {
    hide Emit, Blank, Says;
    LineIsRead(s, line, "init", at);
    TextMeans(line, "conversation_id");
  }

  // ---------------------------------------------------------------- updates

  /** An update of the stream's own conversation. */
  predicate IsUpdate(s: Stream, line: Json, update: Json) {
    && Has(line, "event", J.Text("step_update")) && Has(line, "step_update", update) && update.Object?
    && s.conversation.Some? && Says(update, "conversation_id", s.conversation.value)
  }

  /** Usage counts that are whole numbers, of which the total is at least input and output together. */
  predicate CountsTokens(usage: Json, input: nat, output: nat) {
    && IsCount(usage, "input_tokens", input) && IsCount(usage, "output_tokens", output)
    && input + output <= 18_446_744_073_709_551_615
    && (exists n | 0 <= n <= 18_446_744_073_709_551_615 :: input + output <= n && IsCount(usage, "total_tokens", n))
    && (exists n | 0 <= n <= 18_446_744_073_709_551_615 :: IsCount(usage, "thinking_tokens", n))
    && (exists n | 0 <= n <= 18_446_744_073_709_551_615 :: IsCount(usage, "cache_read_tokens", n))
  }

  predicate IsCount(usage: Json, key: string, n: nat) {
    Has(usage, key, J.Number(n)) && n <= 18_446_744_073_709_551_615
  }

  lemma CountMeans(usage: Json, key: string)
    ensures forall n: nat :: J.AsU64(J.Get(usage, key)) == Some(n) <==> IsCount(usage, key, n)
  {
  }

  lemma UsageMeans(usage: Json)
    ensures forall input: nat, output: nat ::
      ParseUsage(usage) == Ok(Some(Cost(input, output))) <==> CountsTokens(usage, input, output)
    ensures ParseUsage(usage) == Err(Drift) <==> forall input: nat, output: nat :: !CountsTokens(usage, input, output)
    ensures ParseUsage(usage).Ok? ==> ParseUsage(usage).value.Some? && ParseUsage(usage).value.value.Cost?
  {
    hide IsCount, J.Get;
    CountMeans(usage, "input_tokens");
    CountMeans(usage, "output_tokens");
    CountMeans(usage, "total_tokens");
    CountMeans(usage, "thinking_tokens");
    CountMeans(usage, "cache_read_tokens");
    CountsNeedObject(usage);
    var r := ParseUsage(usage);
    if r.Ok? {
      assert CountsTokens(usage, r.value.value.inputTokens, r.value.value.outputTokens);
    }
  }

  lemma CountsNeedObject(usage: Json)
    ensures !usage.Object? ==> forall key, n: nat :: !IsCount(usage, key, n)
  {
  }

  /** An update adds the text of an agent's response and reports the cost it states, if any. */
  lemma UpdateIsTaken(s: Stream, line: Json, update: Json, at: string)
    requires !s.closed && IsUpdate(s, line, update)
    ensures var step := Step(s, Line(Some(line), at));
      && step.0 == (if Has(update, "step_type", J.Text("agent_response")) && "text_delta" in update.fields
                       && update.fields["text_delta"].Text?
                    then Collect(s, update.fields["text_delta"].s) else s)
      && step.1 == if "usage" in update.fields then ParseUsage(update.fields["usage"]) else Ok(None)
  {
    hide ParseUsage, Collect, Blank;
    LineIsRead(s, line, "step_update", at);
    TextMeans(update, "conversation_id");
  }

  lemma OtherUpdatesAreDrift(s: Stream, line: Json, at: string)
    requires !s.closed && Has(line, "event", J.Text("step_update")) && forall update :: !IsUpdate(s, line, update)
    ensures Step(s, Line(Some(line), at)) == (s, Err(Drift))
  {
    hide ParseUsage, Collect, Blank;
    LineIsRead(s, line, "step_update", at);
    var update := J.Get(line, "step_update");
    if update.Some? {
      TextMeans(update.value, "conversation_id");
      assert !IsUpdate(s, line, update.value);
    }
  }

  // ---------------------------------------------------------------- the last line

  const FINAL_STATES: map<string, (RunState, string)> := map[
    "SUCCESS" := (RunSucceeded, "run.succeeded"), "ERROR" := (RunFailed, "run.failed"),
    "CANCELED" := (RunCancelled, "run.cancelled"), "INTERRUPTED" := (RunCancelled, "run.cancelled"),
    "INVALID" := (RunFailed, "run.failed"), "WAITING" := (RunBlocked, "run.blocked"),
    "RUNNING" := (RunUncertain, "run.uncertain")]

  /** The result is a success in name only: actions were denied and nothing was said. */
  predicate OnlyDenied(s: Stream, result: Json, status: string) {
    && status == "SUCCESS" && s.output == ""
    && result.Object? && "denied_actions" in result.fields
    && result.fields["denied_actions"].List? && result.fields["denied_actions"].items != []
  }

  /** The failure reported with a final status. */
  ghost predicate FailureFits(result: Json, status: string, failure: Option<AdapterFailure>) {
    && (status in {"SUCCESS", "WAITING", "RUNNING"} ==> failure.None?)
    && (status in {"CANCELED", "INTERRUPTED"} ==> failure == FailureOf(CancelledByUser, "adapter.agy.cancelled", false))
    && (status == "INVALID" ==> failure == FailureOf(MalformedOutput, "adapter.agy.invalid_state", false))
    && (status == "ERROR" ==> exists kind ::
          && failure == FailureOf(kind, "adapter.agy.failed", kind == Quota || kind == Timeout)
          && KindFits(result, kind))
  }

  /** The kind follows from what the error's text mentions, the first of these that applies. */
  ghost predicate KindFits(result: Json, kind: FailureKind) {
    if !(result.Object? && "error" in result.fields && result.fields["error"].Text?) then kind == Unknown
    else
      var e := result.fields["error"].s;
      if Contains(e, "not logged in") || Contains(e, "authentication") || Contains(e, "unauthorized") then
        kind == Authentication
      else if Contains(e, "quota") || Contains(e, "rate limit") then kind == Quota
      else if Contains(e, "timed out") || Contains(e, "timeout") then kind == Timeout
      else if Contains(e, "permission") then kind == PermissionDenied
      else kind == Unknown
  }

  function Lowered(text: string): string {
    seq(|text|, i requires 0 <= i < |text| => LowerAscii(text[i]))
  }

  /** The text, its capitals lowered, is something, then the part, then something. */
  ghost predicate Contains(text: string, part: string) {
    exists before: string, after: string :: Lowered(text) == before + part + after
  }

  lemma MentionsMeans(text: string, part: string)
    ensures Mentions(text, part) <==> Contains(text, part)
  {
    hide LowerAscii;
    var low := Lowered(text);
    if Mentions(text, part) {
      var i :| 0 <= i <= |text| - |part| && OccursAt(text, part, i);
      assert low[i..i + |part|] == part;
      assert low == low[..i] + part + low[i + |part|..];
    }
    if before: string, after: string :| low == before + part + after {
      var i := |before|;
      assert |low| == |text|;
      forall k | 0 <= k < |part|
        ensures LowerAscii(text[i + k]) == part[k]
      {
        assert low[i + k] == part[k];
      }
      assert OccursAt(text, part, i);
    }
  }

  lemma KindMeans(result: Json)
    ensures KindFits(result, ClassifyError(J.AsText(J.Get(result, "error"))))
  {
    hide Mentions, Contains;
    var error := J.AsText(J.Get(result, "error"));
    if error.Some? {
      MentionsMeans(error.value, "not logged in");
      MentionsMeans(error.value, "authentication");
      MentionsMeans(error.value, "unauthorized");
      MentionsMeans(error.value, "quota");
      MentionsMeans(error.value, "rate limit");
      MentionsMeans(error.value, "timed out");
      MentionsMeans(error.value, "timeout");
      MentionsMeans(error.value, "permission");
    }
  }

  lemma VerdictMeans(s: Stream, result: Json, status: string)
    ensures Verdict(s, result, status).Some? <==> status in FINAL_STATES
    ensures OnlyDenied(s, result, status) ==>
      Verdict(s, result, status) == Some((RunFailed, "run.failed",
        FailureOf(PermissionDenied, "adapter.agy.permission_denied", false)))
    ensures status in FINAL_STATES && !OnlyDenied(s, result, status) ==>
      var v := Verdict(s, result, status).value;
      (v.0, v.1) == FINAL_STATES[status] && FailureFits(result, status, v.2)
  {
    hide ClassifyError, KindFits;
    KindMeans(result);
  }

  /** A final line of the own conversation; before the start, an error needs none. */
  predicate IsResult(s: Stream, line: Json, result: Json, status: string) {
    && Has(line, "event", J.Text("result")) && Has(line, "result", result) && result.Object?
    && Says(result, "status", status)
    && if s.conversation.Some? then Says(result, "conversation_id", s.conversation.value) else status == "ERROR"
  }

  /** A final line closes the stream and reports what its status stands for; an unknown status is drift. */
  lemma ResultIsReported(s: Stream, line: Json, result: Json, status: string, at: string)
    requires !s.closed && IsResult(s, line, result, status)
    ensures var step := Step(s, Line(Some(line), at));
      && (OnlyDenied(s, result, status) ==>
            ReportsIfPossible(s, s.(closed := true), step, RunFailed, "run.failed", at, ProviderReported,
                              FailureOf(PermissionDenied, "adapter.agy.permission_denied", false)))
      && (status in FINAL_STATES && !OnlyDenied(s, result, status) ==> exists failure ::
            && FailureFits(result, status, failure)
            && ReportsIfPossible(s, s.(closed := true), step, FINAL_STATES[status].0, FINAL_STATES[status].1, at,
                                 ProviderReported, failure))
      && (status !in FINAL_STATES ==> step == (s, Err(Drift)))
  {
    hide Emit, ReportsIfPossible, Blank, Verdict, OnlyDenied, FailureFits, FINAL_STATES, RequiredText, Says;
    LineIsRead(s, line, "result", at);
    TextMeans(result, "status");
    TextMeans(result, "conversation_id");
    assert RequiredText(J.Get(result, "status")) == Some(status);
    VerdictMeans(s, result, status);
    var v := Verdict(s, result, status);
    if v.Some? {
      EmitReports(s, s.(closed := true), v.value.0, v.value.1, at, v.value.2, ProviderReported);
    }
  }

  lemma OtherResultsAreDrift(s: Stream, line: Json, at: string)
    requires !s.closed && Has(line, "event", J.Text("result"))
    requires forall result, status :: !IsResult(s, line, result, status)
    ensures Step(s, Line(Some(line), at)) == (s, Err(Drift))
  {
    hide Emit, Blank, Verdict, RequiredText, Says;
    LineIsRead(s, line, "result", at);
    var result := J.Get(line, "result");
    if result.Some? && result.value.Object? {
      TextMeans(result.value, "status");
      TextMeans(result.value, "conversation_id");
      var status := RequiredText(J.Get(result.value, "status"));
      if status.Some? {
        assert !IsResult(s, line, result.value, status.value);
      }
    }
  }

  // ---------------------------------------------------------------- local signals

  lemma SignalsAreReported(s: Stream, at: string)
    ensures var step := Step(s, Input.RecoveryStarted(at));
      if s.expected.Some? && !s.initialized && !s.closed
      then ReportsIfPossible(s, s, step, RunRecovering, "run.recovering", at, LocallyMeasured, None)
      else step == (s, Err(Drift))
    ensures var step := Step(s, Input.CancellationStarted(at));
      if s.initialized && !s.closed
      then ReportsIfPossible(s, s, step, RunCancelling, "run.cancelling", at, LocallyMeasured, None)
      else step == (s, Err(Drift))
  {
    hide Emit, ReportsIfPossible;
    EmitReports(s, s, RunRecovering, "run.recovering", at, None, LocallyMeasured);
    EmitReports(s, s, RunCancelling, "run.cancelling", at, None, LocallyMeasured);
  }

  /** Being cancelled, timing out and crashing close the stream; only a crash is worth a retry. */
  lemma LocalEndsAreReported(s: Stream, at: string)
    ensures s.closed ==>
      && Step(s, CancelledLocally(at)) == (s, Err(Closed)) && Step(s, TimedOutLocally(at)) == (s, Err(Closed))
      && Step(s, CrashedLocally(at)) == (s, Err(Closed))
    ensures !s.closed ==>
      && ReportsIfPossible(s, s.(closed := true), Step(s, CancelledLocally(at)), RunCancelled, "run.cancelled", at,
                           LocallyMeasured, FailureOf(CancelledByUser, "adapter.agy.cancelled", false))
      && ReportsIfPossible(s, s.(closed := true), Step(s, TimedOutLocally(at)), RunFailed, "run.timed_out", at,
                           LocallyMeasured, FailureOf(Timeout, "adapter.agy.timed_out", false))
      && ReportsIfPossible(s, s.(closed := true), Step(s, CrashedLocally(at)), RunUncertain, "run.crashed", at,
                           LocallyMeasured, FailureOf(Crashed, "adapter.agy.crashed", true))
  {
    hide Emit, ReportsIfPossible;
    var t := s.(closed := true);
    EmitReports(s, t, RunCancelled, "run.cancelled", at, FailureOf(CancelledByUser, "adapter.agy.cancelled", false),
      LocallyMeasured);
    EmitReports(s, t, RunFailed, "run.timed_out", at, FailureOf(Timeout, "adapter.agy.timed_out", false),
      LocallyMeasured);
    EmitReports(s, t, RunUncertain, "run.crashed", at, FailureOf(Crashed, "adapter.agy.crashed", true),
      LocallyMeasured);
  }
}
