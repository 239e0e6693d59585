/** The Agy adapter's run stream: lines and local signals in, normalized events out. */
module AgyStream {
  import opened Prelude
  import opened AdapterContract
  import opened Conformance
  import J = RpcTransport

  type Json = J.Json

  const MAX_FINAL_OUTPUT_BYTES: nat := 256 * 1024

  datatype StreamError = Drift | Closed

  datatype Update =
    | Lifecycle(event: NormalizedEvent, failure: Option<AdapterFailure>)
    | Cost(inputTokens: nat, outputTokens: nat)

  type Outcome = Result<Option<Update>, StreamError>

  /** The stream's fields. */
  datatype Stream = Stream(
    run: RunId, sequence: nat, conversation: Option<string>, expected: Option<string>,
    initialized: bool, closed: bool, output: string, overflowed: bool)

  function New(run: RunId): Stream {
    Stream(run, 0, None, None, false, false, "", false)
  }

  function Resuming(run: RunId, conversation: string): Result<Stream, StreamError> {
    if Blank(conversation) then Err(Drift)
    else Ok(New(run).(expected := Some(conversation)))
  }

  /** A stream for a new conversation, or for one that is to be resumed. */
  function Opened(run: RunId, expected: Option<string>): Result<Stream, StreamError> {
    if expected.None? then Ok(New(run)) else Resuming(run, expected.value)
  }

  // ---------------------------------------------------------------- reading values

  function RequiredText(j: Option<Json>): Option<string> {
    var text := J.AsText(j);
    if text.Some? && !Blank(text.value) then text else None
  }

  /** Whether `s`, its ASCII letters lowered, contains `part`. */
  predicate Mentions(s: string, part: string) {
    exists i | 0 <= i <= |s| - |part| :: OccursAt(s, part, i)
  }

  predicate OccursAt(s: string, part: string, i: nat)
    requires i + |part| <= |s|
  {
    forall k | 0 <= k < |part| :: LowerAscii(s[i + k]) == part[k]
  }

  function ClassifyError(error: Option<string>): FailureKind {
    if error.None? then Unknown
    else
      var e := error.value;
      if Mentions(e, "not logged in") || Mentions(e, "authentication") || Mentions(e, "unauthorized")
      then Authentication
      else if Mentions(e, "quota") || Mentions(e, "rate limit") then Quota
      else if Mentions(e, "timed out") || Mentions(e, "timeout") then Timeout
      else if Mentions(e, "permission") then PermissionDenied
      else Unknown
  }

  function ParseUsage(usage: Json): Outcome {
    if !usage.Object? then Err(Drift)
    else
      var input, output := J.AsU64(J.Get(usage, "input_tokens")), J.AsU64(J.Get(usage, "output_tokens"));
      var total := J.AsU64(J.Get(usage, "total_tokens"));
      if input.None? || output.None? || total.None?
         || J.AsU64(J.Get(usage, "thinking_tokens")).None? || J.AsU64(J.Get(usage, "cache_read_tokens")).None?
         || input.value + output.value > J.U64_MAX || total.value < input.value + output.value
      then Err(Drift)
      else Ok(Some(Cost(input.value, output.value)))
  }

  // ---------------------------------------------------------------- emitting

  function Failure(kind: FailureKind, key: string, retryable: bool): Option<AdapterFailure> {
    Some(AdapterFailure(kind, key, retryable, None, None))
  }

  /** `lifecycle_with_evidence`: the next event, unless its time is blank or numbers run out. */
  function Emit(s: Stream, state: RunState, name: string, at: string, failure: Option<AdapterFailure>,
                evidence: EvidenceClass): (Stream, Outcome)
  {
    if Blank(at) || s.sequence >= J.U64_MAX then (s, Err(Drift))
    else
      var e := NormalizedEvent(AGENT_ADAPTER_CONTRACT_VERSION, s.run, s.sequence + 1, state, name, at, evidence, None,
                               JsonPayload(map["provider" := "agy_cli"]));
      (s.(sequence := s.sequence + 1), Ok(Some(Lifecycle(e, failure))))
  }

  function AfterTerminal(s: Stream, state: RunState, name: string, kind: FailureKind, key: string, at: string)
    : (Stream, Outcome)
  {
    if s.closed then (s, Err(Closed))
    else Emit(s.(closed := true), state, name, at, Failure(kind, key, kind == Crashed), LocallyMeasured)
  }

  // ---------------------------------------------------------------- lines

  function AfterInit(s: Stream, value: Json, at: string): (Stream, Outcome) {
    var id := RequiredText(J.Get(value, "conversation_id"));
    if s.initialized || id.None? || (s.expected.Some? && s.expected != id) then (s, Err(Drift))
    else Emit(s.(conversation := id, initialized := true), RunRunning, "run.started", at, None, ProviderReported)
  }

  predicate MatchesConversation(s: Stream, actual: Option<Json>) {
    s.conversation.Some? && RequiredText(actual) == s.conversation
  }

  /** The text a step adds to the final output, if any. */
  function StepText(update: Json): Option<string> {
    if J.AsText(J.Get(update, "step_type")) != Some("agent_response") then None
    else J.AsText(J.Get(update, "text_delta"))
  }

  /** Appends within the limit; the first text that does not fit discards everything for good. */
  function Collect(s: Stream, text: string): Stream {
    if s.overflowed then s
    else if Utf8Length(s.output) + Utf8Length(text) <= MAX_FINAL_OUTPUT_BYTES then s.(output := s.output + text)
    else s.(output := "", overflowed := true)
  }

  function AfterUpdate(s: Stream, value: Json): (Stream, Outcome) {
    var update := J.Get(value, "step_update");
    if update.None? || !update.value.Object? || !MatchesConversation(s, J.Get(update.value, "conversation_id"))
    then (s, Err(Drift))
    else
      var text := StepText(update.value);
      var s1 := if text.Some? then Collect(s, text.value) else s;
      var usage := J.Get(update.value, "usage");
      (s1, if usage.None? then Ok(None) else ParseUsage(usage.value))
  }

  /** What a final status means: the state, the event's name and the failure reported with it. */
  function Verdict(s: Stream, result: Json, status: string): Option<(RunState, string, Option<AdapterFailure>)> {
    if status == "SUCCESS" && s.output == "" && DeniedSomething(result) then
      Some((RunFailed, "run.failed", Failure(PermissionDenied, "adapter.agy.permission_denied", false)))
    else if status == "SUCCESS" then Some((RunSucceeded, "run.succeeded", None))
    else if status == "ERROR" then
      var kind := ClassifyError(J.AsText(J.Get(result, "error")));
      Some((RunFailed, "run.failed", Failure(kind, "adapter.agy.failed", kind in {Quota, Timeout})))
    else if status == "CANCELED" || status == "INTERRUPTED" then
      Some((RunCancelled, "run.cancelled", Failure(CancelledByUser, "adapter.agy.cancelled", false)))
    else if status == "INVALID" then
      Some((RunFailed, "run.failed", Failure(MalformedOutput, "adapter.agy.invalid_state", false)))
    else if status == "WAITING" then Some((RunBlocked, "run.blocked", None))
    else if status == "RUNNING" then Some((RunUncertain, "run.uncertain", None))
    else None
  }

  function AfterResult(s: Stream, value: Json, at: string): (Stream, Outcome) {
    var result := J.Get(value, "result");
    if result.None? || !result.value.Object? then (s, Err(Drift))
    else
      var status := RequiredText(J.Get(result.value, "status"));
      if status.None? then (s, Err(Drift))
      else if s.conversation.Some? && !MatchesConversation(s, J.Get(result.value, "conversation_id"))
      then (s, Err(Drift))
      else if s.conversation.None? && status.value != "ERROR" then (s, Err(Drift))
      else
        var v := Verdict(s, result.value, status.value);
        if v.None? then (s, Err(Drift))
        else Emit(s.(closed := true), v.value.0, v.value.1, at, v.value.2, ProviderReported)
  }

  /** A line's effect; `None` is a line that is no JSON text. */
  function AfterLine(s: Stream, line: Option<Json>, at: string): (Stream, Outcome) {
    if s.closed then (s, Err(Closed))
    else if line.None? then (s, Err(Drift))
    else
      var event := J.AsText(J.Get(line.value, "event"));
      if event == Some("init") then AfterInit(s, line.value, at)
      else if event == Some("step_update") then AfterUpdate(s, line.value)
      else if event == Some("result") then AfterResult(s, line.value, at)
      else (s, Err(Drift))
  }

  // ---------------------------------------------------------------- runs

  datatype Input =
    | Line(json: Option<Json>, at: string)
    | RecoveryStarted(at: string) | CancellationStarted(at: string)
    | CancelledLocally(at: string) | TimedOutLocally(at: string) | CrashedLocally(at: string)

  function Step(s: Stream, input: Input): (Stream, Outcome) {
    match input
    case Line(json, at) => AfterLine(s, json, at)
    case RecoveryStarted(at) =>
      if s.expected.None? || s.initialized || s.closed then (s, Err(Drift))
      else Emit(s, RunRecovering, "run.recovering", at, None, LocallyMeasured)
    case CancellationStarted(at) =>
      if !s.initialized || s.closed then (s, Err(Drift))
      else Emit(s, RunCancelling, "run.cancelling", at, None, LocallyMeasured)
    case CancelledLocally(at) =>
      AfterTerminal(s, RunCancelled, "run.cancelled", CancelledByUser, "adapter.agy.cancelled", at)
    case TimedOutLocally(at) => AfterTerminal(s, RunFailed, "run.timed_out", Timeout, "adapter.agy.timed_out", at)
    case CrashedLocally(at) => AfterTerminal(s, RunUncertain, "run.crashed", Crashed, "adapter.agy.crashed", at)
  }

  /** The event a step emits, if any. */
  function Emitted(r: Outcome): seq<NormalizedEvent> {
    if r.Ok? && r.value.Some? && r.value.value.Lifecycle? then [r.value.value.event] else []
  }

  function Events(s: Stream, inputs: seq<Input>): seq<NormalizedEvent>
    decreases |inputs|
  {
    if inputs == [] then []
    else
      var (s1, r) := Step(s, inputs[0]);
      Emitted(r) + Events(s1, inputs[1..])
  }

  function After(s: Stream, inputs: seq<Input>): Stream
    decreases |inputs|
  {
    if inputs == [] then s else After(Step(s, inputs[0]).0, inputs[1..])
  }

  /** What one emission is: the next number, and terminal only when the stream has closed. */
  ghost predicate Sequenced(s: Stream, s1: Stream, r: Outcome) {
    && s1.run == s.run && (s.closed ==> s1.closed && Emitted(r) == [])
    && (Emitted(r) == [] ==> s1.sequence == s.sequence)
    && (Emitted(r) != [] ==>
         && s1.sequence == s.sequence + 1 == Emitted(r)[0].sequence
         && WellFormedEvent(Emitted(r)[0], s.run)
         && (IsTerminal(Emitted(r)[0].state) <==> s1.closed))
  }

  lemma EmitSequenced(s: Stream, state: RunState, name: string, at: string, failure: Option<AdapterFailure>,
                      evidence: EvidenceClass)
    requires !Blank(name) && evidence != UnknownEvidence && (IsTerminal(state) <==> s.closed)
    ensures var (s1, r) := Emit(s, state, name, at, failure, evidence);
      && s1 == s.(sequence := s1.sequence)
      && (Emitted(r) == [] ==> s1.sequence == s.sequence)
      && (Emitted(r) != [] ==>
           && s1.sequence == s.sequence + 1 == Emitted(r)[0].sequence
           && WellFormedEvent(Emitted(r)[0], s.run) && (IsTerminal(Emitted(r)[0].state) <==> s1.closed))
  {
  }

  lemma NameIsNotBlank(name: string)
    requires |name| > 0 && name[0] == 'r'
    ensures !Blank(name)
  {
    assert !IsWhitespace(name[0]);
  }

  lemma VerdictIsTerminal(s: Stream, result: Json, status: string)
    requires Verdict(s, result, status).Some?
    ensures IsTerminal(Verdict(s, result, status).value.0)
    ensures !Blank(Verdict(s, result, status).value.1)
  {
    hide ClassifyError, Blank;
    var name := Verdict(s, result, status).value.1;
    assert name[0] == 'r';
    NameIsNotBlank(name);
  }

  lemma StepSequenced(s: Stream, input: Input)
    ensures Sequenced(s, Step(s, input).0, Step(s, input).1)
  {
    hide Emit, Verdict, RequiredText, MatchesConversation, StepText, ParseUsage, Collect, WellFormedEvent, Blank;
    match input
    case Line(json, at) => LineSequenced(s, json, at);
    case RecoveryStarted(at) =>
      NameIsNotBlank("run.recovering");
      if !s.closed { EmitSequenced(s, RunRecovering, "run.recovering", at, None, LocallyMeasured); }
    case CancellationStarted(at) =>
      NameIsNotBlank("run.cancelling");
      if !s.closed { EmitSequenced(s, RunCancelling, "run.cancelling", at, None, LocallyMeasured); }
    case CancelledLocally(at) =>
      NameIsNotBlank("run.cancelled");
      EmitSequenced(s.(closed := true), RunCancelled, "run.cancelled", at,
        Failure(CancelledByUser, "adapter.agy.cancelled", false), LocallyMeasured);
    case TimedOutLocally(at) =>
      NameIsNotBlank("run.timed_out");
      EmitSequenced(s.(closed := true), RunFailed, "run.timed_out", at,
        Failure(Timeout, "adapter.agy.timed_out", false), LocallyMeasured);
    case CrashedLocally(at) =>
      NameIsNotBlank("run.crashed");
      EmitSequenced(s.(closed := true), RunUncertain, "run.crashed", at,
        Failure(Crashed, "adapter.agy.crashed", true), LocallyMeasured);
  }

  lemma LineSequenced(s: Stream, line: Option<Json>, at: string)
    ensures Sequenced(s, AfterLine(s, line, at).0, AfterLine(s, line, at).1)
  {
    hide Emit, Verdict, RequiredText, MatchesConversation, WellFormedEvent, Blank;
    if !s.closed && line.Some? {
      var event := J.AsText(J.Get(line.value, "event"));
      if event == Some("init") {
        NameIsNotBlank("run.started");
        var id := RequiredText(J.Get(line.value, "conversation_id"));
        EmitSequenced(s.(conversation := id, initialized := true), RunRunning, "run.started", at, None,
          ProviderReported);
      } else if event == Some("step_update") {
        StepIsSilent(s, line.value);
      } else if event == Some("result") {
        ResultSequenced(s, line.value, at);
      }
    }
  }

  lemma StepIsSilent(s: Stream, value: Json)
    ensures var (s1, r) := AfterUpdate(s, value);
      Emitted(r) == [] && s1 == s.(output := s1.output, overflowed := s1.overflowed)
  {
    hide MatchesConversation, StepText;
  }

  lemma ResultSequenced(s: Stream, value: Json, at: string)
    requires !s.closed
    ensures Sequenced(s, AfterResult(s, value, at).0, AfterResult(s, value, at).1)
  {
    hide Emit, Verdict, RequiredText, MatchesConversation, WellFormedEvent, Blank;
    var result := J.Get(value, "result");
    if result.Some? {
      var status := RequiredText(J.Get(result.value, "status"));
      if status.Some? {
        var v := Verdict(s, result.value, status.value);
        if v.Some? {
          VerdictIsTerminal(s, result.value, status.value);
          EmitSequenced(s.(closed := true), v.value.0, v.value.1, at, v.value.2, ProviderReported);
        }
      }
    }
  }

  lemma {:induction false} ClosedIsSilent(s: Stream, inputs: seq<Input>)
    requires s.closed
    ensures Events(s, inputs) == []
    decreases |inputs|
  {
    hide Step;
    if inputs != [] {
      StepSequenced(s, inputs[0]);
      ClosedIsSilent(Step(s, inputs[0]).0, inputs[1..]);
    }
  }

  /** Every run emits events numbered in steps of one, the last of which alone may be terminal. */
  lemma {:induction false} EventsAreTrace(s: Stream, inputs: seq<Input>)
    ensures Trace(Events(s, inputs), s.run, s.sequence + 1)
    decreases |inputs|
  {
    hide Step, WellFormedEvent, IsTerminal;
    if inputs != [] {
      var (s1, r) := Step(s, inputs[0]);
      StepSequenced(s, inputs[0]);
      EventsAreTrace(s1, inputs[1..]);
      if Emitted(r) != [] {
        if s1.closed {
          ClosedIsSilent(s1, inputs[1..]);
        }
        TracePrepend(Emitted(r)[0], Events(s1, inputs[1..]), s.run);
        assert Emitted(r) == [Emitted(r)[0]];
      } else {
        assert Emitted(r) + Events(s1, inputs[1..]) == Events(s1, inputs[1..]);
      }
    }
  }

  /** Any non-empty run of a new or resuming stream passes the conformance checker's event rules. */
  lemma RunPassesConformance(run: RunId, expected: Option<string>, inputs: seq<Input>)
    requires Opened(run, expected).Ok?
    ensures var events := Events(Opened(run, expected).value, inputs);
      && Trace(events, run, 1)
      && (events != [] ==> ExpectedFindings(events, run, events[|events| - 1].state) == [])
  {
    var s := Opened(run, expected).value;
    EventsAreTrace(s, inputs);
    if Events(s, inputs) != [] {
      TracePasses(Events(s, inputs), run, 1);
    }
  }

  // ---------------------------------------------------------------- the order of states

  /**
    Recovering comes before the run starts, which it does at most once and before it is
    being cancelled; `begun` says the start is already behind.
   */
  ghost predicate InStages(events: seq<NormalizedEvent>, begun: bool) {
    && (begun ==> forall i :: 0 <= i < |events| ==> events[i].state !in {RunRecovering, RunRunning})
    && forall i, j :: 0 <= i < j < |events| && events[i].state in {RunRunning, RunCancelling} ==>
         events[j].state !in {RunRecovering, RunRunning}
  }

  lemma StepIsStaged(s: Stream, input: Input)
    ensures var (s1, r) := Step(s, input);
      && (s.initialized ==> s1.initialized)
      && (Emitted(r) != [] && Emitted(r)[0].state in {RunRunning, RunCancelling} ==> s1.initialized)
      && (Emitted(r) != [] && Emitted(r)[0].state in {RunRecovering, RunRunning} ==> !s.initialized)
  {
    hide AfterUpdate, AfterResult, RequiredText, Blank;
    if input.Line? && input.json.Some? && !s.closed {
      ResultIsStaged(s, input.json.value, input.at);
      StepIsSilent(s, input.json.value);
    }
  }

  lemma ResultIsStaged(s: Stream, value: Json, at: string)
    ensures var (s1, r) := AfterResult(s, value, at);
      s1.initialized == s.initialized && (Emitted(r) != [] ==> IsTerminal(Emitted(r)[0].state))
  {
    hide Verdict, RequiredText, MatchesConversation, Blank, IsTerminal;
    var result := J.Get(value, "result");
    if result.Some? && RequiredText(J.Get(result.value, "status")).Some? {
      var status := RequiredText(J.Get(result.value, "status")).value;
      if Verdict(s, result.value, status).Some? {
        VerdictIsTerminal(s, result.value, status);
      }
    }
  }

  lemma StagesPrepend(e: NormalizedEvent, rest: seq<NormalizedEvent>, begun: bool, after: bool)
    requires InStages(rest, after) && (begun ==> after)
    requires e.state in {RunRunning, RunCancelling} ==> after
    requires e.state in {RunRecovering, RunRunning} ==> !begun
    ensures InStages([e] + rest, begun)
  {
    var all := [e] + rest;
    assert forall i :: 1 <= i < |all| ==> all[i] == rest[i - 1];
  }

  lemma {:induction false} EventsInStages(s: Stream, inputs: seq<Input>)
    ensures InStages(Events(s, inputs), s.initialized)
    decreases |inputs|
  {
    hide Step;
    if inputs != [] {
      var (s1, r) := Step(s, inputs[0]);
      var rest := Events(s1, inputs[1..]);
      StepIsStaged(s, inputs[0]);
      EventsInStages(s1, inputs[1..]);
      if Emitted(r) != [] {
        assert Emitted(r) == [Emitted(r)[0]];
        StagesPrepend(Emitted(r)[0], rest, s.initialized, s1.initialized);
      } else {
        assert Emitted(r) + rest == rest;
      }
    }
  }

  // ---------------------------------------------------------------- the bounded final output

  function FinalOutput(s: Stream): Option<string> {
    if !s.overflowed && s.output != "" then Some(s.output) else None
  }

  /** The text one input contributes to the run's output. */
  function TextOf(s: Stream, input: Input): string {
    if !input.Line? || s.closed || input.json.None? then ""
    else if J.AsText(J.Get(input.json.value, "event")) != Some("step_update") then ""
    else
      var update := J.Get(input.json.value, "step_update");
      if update.None? || !update.value.Object? then ""
      else if !MatchesConversation(s, J.Get(update.value, "conversation_id")) then ""
      else if StepText(update.value).Some? then StepText(update.value).value else ""
  }

  function AllText(s: Stream, inputs: seq<Input>): string
    decreases |inputs|
  {
    if inputs == [] then "" else TextOf(s, inputs[0]) + AllText(Step(s, inputs[0]).0, inputs[1..])
  }

  lemma StepCollects(s: Stream, input: Input)
    ensures var s1, t := Step(s, input).0, Collect(s, TextOf(s, input));
      || (s1.output == t.output && s1.overflowed == t.overflowed)
      || (TextOf(s, input) == "" && s1.output == s.output && s1.overflowed == s.overflowed)
  {
    hide Verdict, RequiredText, MatchesConversation, StepText, ParseUsage, Collect, Blank;
  }

  /** The output is all text collected so far, unless that is over the limit. */
  ghost predicate HoldsText(s: Stream, all: string) {
    && s.overflowed == (Utf8Length(all) > MAX_FINAL_OUTPUT_BYTES)
    && s.output == if s.overflowed then "" else all
  }

  lemma CollectHolds(s: Stream, all: string, text: string)
    requires HoldsText(s, all)
    ensures HoldsText(Collect(s, text), all + text)
  {
    Utf8LengthConcat(all, text);
  }

  lemma {:induction false} OutputHolds(s: Stream, all: string, inputs: seq<Input>)
    requires HoldsText(s, all)
    ensures HoldsText(After(s, inputs), all + AllText(s, inputs))
    decreases |inputs|
  {
    hide Step, TextOf, Utf8Length, Collect;
    if inputs == [] {
      assert all + "" == all;
    } else {
      var text, s1 := TextOf(s, inputs[0]), Step(s, inputs[0]).0;
      StepCollects(s, inputs[0]);
      CollectHolds(s, all, text);
      assert text == "" ==> all + text == all;
      OutputHolds(s1, all + text, inputs[1..]);
      assert all + (text + AllText(s1, inputs[1..])) == all + text + AllText(s1, inputs[1..]);
    }
  }

  /**
    After any run the final output is the whole text of the run's accepted steps, or nothing
    exactly when that text is empty or over 256 KiB; only the latter counts as an overflow.
   */
  lemma FinalOutputIsBounded(run: RunId, expected: Option<string>, inputs: seq<Input>)
    requires Opened(run, expected).Ok?
    ensures var s := Opened(run, expected).value;
      var all, size := AllText(s, inputs), Utf8Length(AllText(s, inputs));
      && After(s, inputs).overflowed == (size > 262_144)
      && FinalOutput(After(s, inputs)) == if 0 < size <= 262_144 then Some(all) else None
  {
    hide Step, TextOf;
    var s := Opened(run, expected).value;
    OutputHolds(s, "", inputs);
    assert "" + AllText(s, inputs) == AllText(s, inputs);
  }

  /** The result names at least one action that was denied. */
  predicate DeniedSomething(result: Json) {
    var denied := J.Get(result, "denied_actions");
    denied.Some? && denied.value.List? && denied.value.items != []
  }

  /**
    A success with denied actions is reported as a failure exactly when the run's text is
    empty or over 256 KiB: text that overflowed counts as if nothing had been said.
   */
  lemma SuccessFailsExactlyWhen(run: RunId, expected: Option<string>, inputs: seq<Input>, result: Json)
    requires Opened(run, expected).Ok?
    ensures var s := Opened(run, expected).value;
      var verdict, size := Verdict(After(s, inputs), result, "SUCCESS"), Utf8Length(AllText(s, inputs));
      && verdict.Some? && verdict.value.0 in {RunFailed, RunSucceeded}
      && (verdict.value.0 == RunFailed <==> DeniedSomething(result) && (size == 0 || size > 262_144))
  {
    hide Step, TextOf, J.Get;
    var s := Opened(run, expected).value;
    OutputHolds(s, "", inputs);
    assert "" + AllText(s, inputs) == AllText(s, inputs);
  }

  // ---------------------------------------------------------------- the stream object

  class AgyRunStream {
    var runId: RunId
    var sequence: nat
    var conversationId: Option<string>
    var expectedConversationId: Option<string>
    var initialized: bool
    var closed: bool
    var finalOutput: string
    var finalOutputOverflowed: bool

    ghost function Value(): Stream
      reads this
    {
      Stream(runId, sequence, conversationId, expectedConversationId, initialized, closed, finalOutput,
             finalOutputOverflowed)
    }

    constructor (run: RunId, expected: Option<string>)
      requires Opened(run, expected).Ok?
      ensures Value() == Opened(run, expected).value
    {
      runId, sequence := run, 0;
      conversationId, expectedConversationId := None, expected;
      initialized, closed := false, false;
      finalOutput, finalOutputOverflowed := "", false;
    }

    method LifecycleWithEvidence(state: RunState, name: string, at: string, failure: Option<AdapterFailure>,
                                 evidence: EvidenceClass) returns (r: Outcome)
      modifies this
      ensures (Value(), r) == Emit(old(Value()), state, name, at, failure, evidence)
    {
      if Blank(at) || sequence >= J.U64_MAX {
        return Err(Drift);
      }
      sequence := sequence + 1;
      r := Ok(Some(Lifecycle(
        NormalizedEvent(AGENT_ADAPTER_CONTRACT_VERSION, runId, sequence, state, name, at, evidence, None,
                        JsonPayload(map["provider" := "agy_cli"])), failure)));
    }

    method RecoveryStarted(at: string) returns (r: Outcome)
      modifies this
      ensures (Value(), r) == Step(old(Value()), Input.RecoveryStarted(at))
    {
      if expectedConversationId.None? || initialized || closed {
        return Err(Drift);
      }
      r := LifecycleWithEvidence(RunRecovering, "run.recovering", at, None, LocallyMeasured);
    }

    method CancellationStarted(at: string) returns (r: Outcome)
      modifies this
      ensures (Value(), r) == Step(old(Value()), Input.CancellationStarted(at))
    {
      if !initialized || closed {
        return Err(Drift);
      }
      r := LifecycleWithEvidence(RunCancelling, "run.cancelling", at, None, LocallyMeasured);
    }

    method LocalTerminal(state: RunState, name: string, kind: FailureKind, key: string, at: string)
      returns (r: Outcome)
      modifies this
      ensures (Value(), r) == AfterTerminal(old(Value()), state, name, kind, key, at)
      ensures closed && (old(closed) ==> r == Err(Closed) && Value() == old(Value()))
      ensures !old(closed) ==> (r.Ok? <==> sequence == old(sequence) + 1) && (r.Err? ==> r == Err(Drift))
    {
      if closed {
        return Err(Closed);
      }
      closed := true;
      r := LifecycleWithEvidence(state, name, at, Failure(kind, key, kind == FailureKind.Crashed), LocallyMeasured);
    }

    method Cancelled(at: string) returns (r: Outcome)
      modifies this
      ensures (Value(), r) == Step(old(Value()), CancelledLocally(at))
    {
      r := LocalTerminal(RunCancelled, "run.cancelled", CancelledByUser, "adapter.agy.cancelled", at);
    }

    method TimedOut(at: string) returns (r: Outcome)
      modifies this
      ensures (Value(), r) == Step(old(Value()), TimedOutLocally(at))
    {
      r := LocalTerminal(RunFailed, "run.timed_out", Timeout, "adapter.agy.timed_out", at);
    }

    method Crashed(at: string) returns (r: Outcome)
      modifies this
      ensures (Value(), r) == Step(old(Value()), CrashedLocally(at))
    {
      r := LocalTerminal(RunUncertain, "run.crashed", FailureKind.Crashed, "adapter.agy.crashed", at);
    }

    method ConsumeInit(value: Json, at: string) returns (r: Outcome)
      modifies this
      ensures (Value(), r) == AfterInit(old(Value()), value, at)
    {
      hide RequiredText;
      if initialized {
        return Err(Drift);
      }
      var id := RequiredText(J.Get(value, "conversation_id"));
      if id.None? || (expectedConversationId.Some? && expectedConversationId != id) {
        return Err(Drift);
      }
      conversationId := id;
      initialized := true;
      r := LifecycleWithEvidence(RunRunning, "run.started", at, None, ProviderReported);
    }

    /** Appends `text`, or empties the output for good when it no longer fits. */
    method Append(text: string)
      modifies this
      ensures Value() == Collect(old(Value()), text)
    {
      if !finalOutputOverflowed {
        if Utf8Length(finalOutput) + Utf8Length(text) <= MAX_FINAL_OUTPUT_BYTES {
          finalOutput := finalOutput + text;
        } else {
          finalOutput := "";
          finalOutputOverflowed := true;
        }
      }
    }

    method ConsumeStep(value: Json) returns (r: Outcome)
      modifies this
      ensures (Value(), r) == AfterUpdate(old(Value()), value)
    {
      hide MatchesConversation, StepText, ParseUsage, Collect;
      var update := J.Get(value, "step_update");
      if update.None? || !update.value.Object? {
        return Err(Drift);
      }
      var s := Stream(runId, sequence, conversationId, expectedConversationId, initialized, closed, finalOutput,
                      finalOutputOverflowed);
      if !MatchesConversation(s, J.Get(update.value, "conversation_id")) {
        return Err(Drift);
      }
      var text := StepText(update.value);
      if text.Some? {
        Append(text.value);
      }
      var usage := J.Get(update.value, "usage");
      r := if usage.None? then Ok(None) else ParseUsage(usage.value);
    }

    method ConsumeResult(value: Json, at: string) returns (r: Outcome)
      modifies this
      ensures (Value(), r) == AfterResult(old(Value()), value, at)
    {
      hide MatchesConversation, RequiredText, Verdict;
      var result := J.Get(value, "result");
      if result.None? || !result.value.Object? {
        return Err(Drift);
      }
      var status := RequiredText(J.Get(result.value, "status"));
      if status.None? {
        return Err(Drift);
      }
      var s := Stream(runId, sequence, conversationId, expectedConversationId, initialized, closed, finalOutput,
                      finalOutputOverflowed);
      if conversationId.Some? {
        if !MatchesConversation(s, J.Get(result.value, "conversation_id")) {
          return Err(Drift);
        }
      } else if status.value != "ERROR" {
        return Err(Drift);
      }
      var verdict := Verdict(s, result.value, status.value);
      if verdict.None? {
        return Err(Drift);
      }
      closed := true;
      r := LifecycleWithEvidence(verdict.value.0, verdict.value.1, at, verdict.value.2, ProviderReported);
    }

    method ConsumeLine(line: Option<Json>, at: string) returns (r: Outcome)
      modifies this
      ensures (Value(), r) == Step(old(Value()), Line(line, at))
      ensures old(closed) ==> r == Err(Closed) && Value() == old(Value())
    {
      hide AfterInit, AfterUpdate, AfterResult;
      if closed {
        return Err(Closed);
      }
      if line.None? {
        return Err(Drift);
      }
      var event := J.AsText(J.Get(line.value, "event"));
      if event == Some("init") {
        r := ConsumeInit(line.value, at);
      } else if event == Some("step_update") {
        r := ConsumeStep(line.value);
      } else if event == Some("result") {
        r := ConsumeResult(line.value, at);
      } else {
        r := Err(Drift);
      }
    }
  }
}
