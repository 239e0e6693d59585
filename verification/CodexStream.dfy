/** The Codex adapter's run stream: notifications and local signals in, normalized events out. */
module CodexStream {
  import opened Prelude
  import opened AdapterContract
  import opened Conformance
  import J = RpcTransport

  type Json = J.Json

  datatype LifecycleError = Drift | SequenceOverflow

  datatype CodexEvent = CodexEvent(event: NormalizedEvent, failure: Option<AdapterFailure>)

  type Outcome = Result<Option<CodexEvent>, LifecycleError>

  /** The fields of a run stream and of the normalizer it owns. */
  datatype Stream = Stream(turnId: string, run: RunId, next: nat, terminal: bool)

  function New(run: RunId, turnId: string): Result<Stream, LifecycleError> {
    if Blank(turnId) then Err(Drift) else Ok(Stream(turnId, run, 1, false))
  }

  // ---------------------------------------------------------------- reading values

  function Turn(params: Json): Option<Json> {
    var turn := J.Get(params, "turn");
    if turn.Some? && turn.value.Object? then turn else None
  }

  function RequiredString(j: Json, key: string): Option<string> {
    var text := J.AsText(J.Get(j, key));
    if text.Some? && !Blank(text.value) then text else None
  }

  function FailureCode(turn: Json): Option<string> {
    var error := J.Get(turn, "error");
    var info := if error.Some? then J.Get(error.value, "codexErrorInfo") else None;
    if info.None? then None
    else if info.value.Text? then Some(info.value.s)
    else J.AsText(J.Get(info.value, "type"))
  }

  const LOST: set<string> := {
    "ResponseStreamConnectionFailed", "ResponseStreamDisconnected", "ResponseTooManyFailedAttempts",
    "HttpConnectionFailed", "InternalServerError"}

  const UNEXPLAINED: set<string> := {"ContextWindowExceeded", "BadRequest", "Other"}

  const RECOGNISED: set<string> := LOST + UNEXPLAINED + {"Unauthorized", "UsageLimitExceeded", "SandboxError"}

  /** The failure kind a provider code stands for, whether to retry, and the code when it may be kept. */
  function MapFailure(code: string): (FailureKind, bool, Option<string>) {
    if code == "Unauthorized" then (Authentication, false, Some(code))
    else if code == "UsageLimitExceeded" then (Quota, true, Some(code))
    else if code == "SandboxError" then (PermissionDenied, false, Some(code))
    else if code in LOST then (Crashed, true, Some(code))
    else if code in UNEXPLAINED then (Unknown, false, Some(code))
    else (Unknown, false, None)
  }

  /** The name with its ASCII capitals lowered, every one but a leading capital after an underscore. */
  function SnakeCased(value: string): string {
    if value == "" then ""
    else
      var last := |value| - 1;
      SnakeCased(value[..last])
      + (if 'A' <= value[last] <= 'Z' && last > 0 then "_" else "") + [LowerAscii(value[last])]
  }

  method SnakeCase(value: string) returns (result: string)
    ensures result == SnakeCased(value)
  {
    result := "";
    for index := 0 to |value|
      invariant result == SnakeCased(value[..index])
    {
      if 'A' <= value[index] <= 'Z' && index > 0 {
        result := result + "_";
      }
      result := result + [LowerAscii(value[index])];
      assert value[..index + 1][..index] == value[..index];
    }
    assert value[..|value|] == value;
  }

  /** Reads a snake-cased name back: every underscore makes the next letter a capital, as does the start. */
  function PascalCased(name: string): string {
    if |name| <= 1 then (if name == "" then "" else [UpperAscii(name[0])])
    else
      var last := |name| - 1;
      if name[last - 1] == '_' then PascalCased(name[..last - 1]) + [UpperAscii(name[last])]
      else PascalCased(name[..last]) + [name[last]]
  }

  /** A name that starts with a capital and has no underscore. */
  predicate IsPascal(name: string) {
    name != "" && 'A' <= name[0] <= 'Z' && '_' !in name
  }

  lemma CaseOfLetter(c: char)
    ensures 'A' <= c <= 'Z' ==> UpperAscii(LowerAscii(c)) == c
    ensures c != '_' ==> LowerAscii(c) != '_'
    ensures !('A' <= LowerAscii(c) <= 'Z')
  {
  }

  lemma {:induction false} SnakeCaseHasNoCapitals(value: string)
    ensures forall c :: c in SnakeCased(value) ==> !('A' <= c <= 'Z')
  {
    if value != "" {
      SnakeCaseHasNoCapitals(value[..|value| - 1]);
      CaseOfLetter(value[|value| - 1]);
    }
  }

  /** The last letter of a name is the last of its snake case, lowered. */
  lemma SnakeCaseEnds(value: string)
    requires value != ""
    ensures SnakeCased(value) != "" && SnakeCased(value)[|SnakeCased(value)| - 1] == LowerAscii(value[|value| - 1])
  {
  }

  /** Nothing of a Pascal-cased name is lost in its snake case. */
  lemma {:induction false} SnakeCaseRoundTrip(value: string)
    requires IsPascal(value)
    ensures PascalCased(SnakeCased(value)) == value
  {
    hide SnakeCased, PascalCased, LowerAscii, UpperAscii;
    var last := |value| - 1;
    CaseOfLetter(value[last]);
    SnakeCaseUnfolds(value);
    assert value == value[..last] + [value[last]];
    if last == 0 {
      PascalCaseOfLetter([LowerAscii(value[0])]);
      assert SnakeCased(value) == [LowerAscii(value[0])];
    } else {
      var front := SnakeCased(value[..last]);
      SnakeCaseRoundTrip(value[..last]);
      SnakeCaseEnds(value[..last]);
      CaseOfLetter(value[last - 1]);
      if 'A' <= value[last] <= 'Z' {
        PascalCaseCapital(front, LowerAscii(value[last]));
      } else {
        LowerKeeps(value[last]);
        PascalCaseOther(front, value[last]);
        assert front + "" == front;
      }
    }
  }

  lemma LowerKeeps(c: char)
    requires !('A' <= c <= 'Z')
    ensures LowerAscii(c) == c
  {
  }

  lemma SnakeCaseUnfolds(value: string)
    requires value != ""
    ensures var last := |value| - 1;
      SnakeCased(value) ==
        SnakeCased(value[..last])
        + (if 'A' <= value[last] <= 'Z' && last > 0 then "_" else "") + [LowerAscii(value[last])]
    ensures SnakeCased("") == ""
  {
  }

  lemma PascalCaseOfLetter(name: string)
    requires |name| == 1
    ensures PascalCased(name) == [UpperAscii(name[0])]
  {
  }

  lemma PascalCaseCapital(front: string, c: char)
    requires front != ""
    ensures PascalCased(front + "_" + [c]) == PascalCased(front) + [UpperAscii(c)]
  {
    hide UpperAscii;
    var s := front + "_" + [c];
    assert s[..|s| - 2] == front && s[|s| - 2] == '_' && s[|s| - 1] == c;
  }

  lemma PascalCaseOther(front: string, c: char)
    requires front != "" && front[|front| - 1] != '_'
    ensures PascalCased(front + [c]) == PascalCased(front) + [c]
  {
    hide UpperAscii;
    var s := front + [c];
    assert s[..|s| - 1] == front && s[|s| - 2] == front[|front| - 1] && s[|s| - 1] == c;
  }

  /** Different provider codes that may be kept are reported under different message keys. */
  lemma MessageKeysDiffer(kind: FailureKind, code: string, other: string, retryable: bool)
    requires code in RECOGNISED + {"Interrupted"} && other in RECOGNISED + {"Interrupted"} && code != other
    ensures var key := Failure(kind, Some(code), retryable).value.messageKey;
      && key != Failure(kind, Some(other), retryable).value.messageKey
      && key != Failure(kind, None, retryable).value.messageKey
  {
    hide SnakeCased, PascalCased;
    RecognisedArePascal(code);
    RecognisedArePascal(other);
    SnakeCaseRoundTrip(code);
    SnakeCaseRoundTrip(other);
    PrefixCancels(SnakeCased(code), SnakeCased(other));
    PrefixCancels(SnakeCased(code), "unknown");
    RecognisedEnd(code);
    SnakeCaseEnds(code);
  }

  lemma PrefixCancels(a: string, b: string)
    ensures "codex.failure." + a == "codex.failure." + b ==> a == b
  {
    var prefix := "codex.failure.";
    assert (prefix + a)[|prefix|..] == a && (prefix + b)[|prefix|..] == b;
  }

  lemma RecognisedArePascal(code: string)
    requires code in RECOGNISED + {"Interrupted"}
    ensures IsPascal(code)
  {
    hide IsPascal;
    if code in LOST {
      LostArePascal(code);
    } else {
      OthersArePascal(code);
    }
  }

  lemma LostArePascal(code: string)
    requires code in LOST
    ensures IsPascal(code)
  {
    hide IsPascal;
    StreamNamesArePascal();
    ServerNamesArePascal();
  }

  lemma StreamNamesArePascal()
    ensures IsPascal("ResponseStreamConnectionFailed") && IsPascal("ResponseStreamDisconnected")
  {
  }

  lemma ServerNamesArePascal()
    ensures IsPascal("ResponseTooManyFailedAttempts")
    ensures IsPascal("HttpConnectionFailed") && IsPascal("InternalServerError")
  {
  }

  lemma OthersArePascal(code: string)
    requires code in UNEXPLAINED + {"Unauthorized", "UsageLimitExceeded", "SandboxError", "Interrupted"}
    ensures IsPascal(code)
  {
  }

  lemma RecognisedEnd(code: string)
    requires code in RECOGNISED + {"Interrupted"}
    ensures code != "" && LowerAscii(code[|code| - 1]) != 'n'
  {
  }

  function Failure(kind: FailureKind, code: Option<string>, retryable: bool): Option<AdapterFailure> {
    var key := if code.None? then "codex.failure.unknown" else "codex.failure." + SnakeCased(code.value);
    Some(AdapterFailure(kind, key, retryable, code, None))
  }

  // ---------------------------------------------------------------- emitting

  /** The next event, unless its time is blank or numbers run out. */
  function Emit(s: Stream, state: RunState, name: string, at: string, evidence: EvidenceClass,
                provider: Option<string>, fields: map<string, string>, failure: Option<AdapterFailure>)
    : (Stream, Outcome)
  {
    if Blank(at) then (s, Err(Drift))
    else if s.next >= J.U64_MAX then (s, Err(SequenceOverflow))
    else
      var e := NormalizedEvent(AGENT_ADAPTER_CONTRACT_VERSION, s.run, s.next, state, name, at, evidence, provider,
                               JsonPayload(fields));
      (s.(next := s.next + 1), Ok(Some(CodexEvent(e, failure))))
  }

  /** An emission that succeeds carries an event of the given state. */
  lemma EmitOutcome(s: Stream, state: RunState, name: string, at: string, evidence: EvidenceClass,
                    provider: Option<string>, fields: map<string, string>, failure: Option<AdapterFailure>)
    ensures var r := Emit(s, state, name, at, evidence, provider, fields, failure).1;
      r.Ok? ==> r.value.Some? && r.value.value.event.state == state
  {
    hide Blank;
  }

  /** Closes the stream once the event that ends it has been made. */
  function Closing(step: (Stream, Outcome)): (Stream, Outcome) {
    (if step.1.Ok? then step.0.(terminal := true) else step.0, step.1)
  }

  function Started(s: Stream, turn: Json, id: string, at: string): (Stream, Outcome) {
    if RequiredString(turn, "status") != Some("inProgress") then (s, Err(Drift))
    else
      Emit(s, RunRunning, "codex.turn_started", at, ProviderReported, Some(id),
           map["turn_id" := id, "status" := "running"], None)
  }

  /** The state a completed turn ends in and the failure it reports, for a status that is known. */
  function Ending(turn: Json, status: string): Option<(RunState, Option<AdapterFailure>)> {
    if status == "completed" then Some((RunSucceeded, None))
    else if status == "interrupted" then
      Some((RunCancelled, Failure(CancelledByUser, Some("Interrupted"), false)))
    else if status == "failed" then
      var code := FailureCode(turn);
      var (kind, retryable, safe) := MapFailure(if code.Some? then code.value else "Other");
      Some((RunFailed, Failure(kind, safe, retryable)))
    else None
  }

  function Completed(s: Stream, turn: Json, id: string, at: string): (Stream, Outcome) {
    var status := RequiredString(turn, "status");
    if status.None? then (s, Err(Drift))
    else
      var end := Ending(turn, status.value);
      if end.None? then (s, Err(Drift))
      else
        Emit(s, end.value.0, "codex.turn_completed", at, ProviderReported, Some(id),
             map["turn_id" := id, "status" := status.value], end.value.1)
  }

  lemma CompletedOutcome(s: Stream, turn: Json, id: string, at: string)
    ensures Completed(s, turn, id, at).1.Ok? ==> Completed(s, turn, id, at).1.value.Some?
  {
    hide Blank, RequiredString, Ending;
  }

  function Ingested(s: Stream, name: string, params: Json, at: string): (Stream, Outcome) {
    if name != "turn/started" && name != "turn/completed" then (s, Ok(None))
    else
      var turn := Turn(params);
      var id := if turn.Some? then RequiredString(turn.value, "id") else None;
      if id.None? then (s, Err(Drift))
      else if id.value != s.turnId then (s, Ok(None))
      else if s.terminal then (s, Err(Drift))
      else if name == "turn/started" then Started(s, turn.value, id.value, at)
      else Closing(Completed(s, turn.value, id.value, at))
  }

  function LocalEnd(s: Stream, state: RunState, name: string, status: string, kind: FailureKind, key: string,
                    at: string): (Stream, Outcome)
  {
    if s.terminal then (s, Err(Drift))
    else
      Closing(Emit(s, state, name, at, LocallyMeasured, None, map["status" := status],
                   Some(AdapterFailure(kind, key, true, None, None))))
  }

  // ---------------------------------------------------------------- runs

  datatype Input =
    | Notified(name: string, params: Json, at: string)
    | CancellationRequested(at: string) | RecoveryStarted(thread: string, at: string)
    | DeadlineExceeded(at: string) | TransportLost(at: string)

  function Step(s: Stream, input: Input): (Stream, Outcome) {
    match input
    case Notified(name, params, at) => Ingested(s, name, params, at)
    case CancellationRequested(at) =>
      if s.terminal then (s, Err(Drift))
      else
        Emit(s, RunCancelling, "codex.turn_interrupt_requested", at, LocallyMeasured, None,
             map["status" := "cancelling"], None)
    case RecoveryStarted(thread, at) =>
      if s.terminal || Blank(thread) then (s, Err(Drift))
      else
        Emit(s, RunRecovering, "codex.thread_resume_requested", at, LocallyMeasured, Some(thread),
             map["thread_id" := thread, "status" := "recovering"], None)
    case DeadlineExceeded(at) =>
      LocalEnd(s, RunFailed, "codex.deadline_exceeded", "failed", Timeout, "codex.failure.timeout", at)
    case TransportLost(at) =>
      LocalEnd(s, RunUncertain, "codex.transport_lost", "uncertain", Crashed, "codex.failure.transport_lost", at)
  }

  function Emitted(r: Outcome): seq<NormalizedEvent> {
    if r.Ok? && r.value.Some? then [r.value.value.event] else []
  }

  function Events(s: Stream, inputs: seq<Input>): seq<NormalizedEvent>
    decreases |inputs|
  {
    if inputs == [] then []
    else
      var (s1, r) := Step(s, inputs[0]);
      Emitted(r) + Events(s1, inputs[1..])
  }

  /** What the provider reports is about this stream's turn. */
  ghost predicate Attributed(e: NormalizedEvent, turnId: string) {
    e.evidence == ProviderReported ==> e.providerEventId == Some(turnId)
  }

  /** What one emission is: the next number, and terminal only when the stream has closed. */
  ghost predicate Sequenced(s: Stream, s1: Stream, r: Outcome) {
    && s1.run == s.run && s1.turnId == s.turnId && (s.terminal ==> s1 == s && Emitted(r) == [])
    && (Emitted(r) == [] ==> s1 == s)
    && (Emitted(r) != [] ==>
         && s1.next == s.next + 1 && Emitted(r)[0].sequence == s.next
         && WellFormedEvent(Emitted(r)[0], s.run) && Attributed(Emitted(r)[0], s.turnId)
         && (IsTerminal(Emitted(r)[0].state) <==> s1.terminal))
  }

  lemma EmitSequenced(s: Stream, state: RunState, name: string, at: string, evidence: EvidenceClass,
                      provider: Option<string>, fields: map<string, string>, failure: Option<AdapterFailure>)
    requires |name| > 0 && name[0] == 'c' && evidence != UnknownEvidence && !s.terminal
    requires provider.Some? ==> !Blank(provider.value)
    requires evidence == ProviderReported ==> provider == Some(s.turnId)
    ensures var step := Emit(s, state, name, at, evidence, provider, fields, failure);
      if IsTerminal(state) then Sequenced(s, Closing(step).0, step.1) else Sequenced(s, step.0, step.1)
  {
    hide Blank, IsTerminal;
    NameIsNotBlank(name);
  }

  lemma NameIsNotBlank(name: string)
    requires |name| > 0 && name[0] == 'c'
    ensures !Blank(name)
  {
    assert !IsWhitespace(name[0]);
  }

  lemma EndingIsTerminal(turn: Json, status: string)
    ensures Ending(turn, status).Some? ==> IsTerminal(Ending(turn, status).value.0)
  {
  }

  lemma TurnSequenced(s: Stream, turn: Json, at: string)
    requires !s.terminal && RequiredString(turn, "id") == Some(s.turnId)
    ensures Sequenced(s, Started(s, turn, s.turnId, at).0, Started(s, turn, s.turnId, at).1)
    ensures Sequenced(s, Closing(Completed(s, turn, s.turnId, at)).0, Completed(s, turn, s.turnId, at).1)
  {
    hide Emit, Sequenced, Ending, Blank;
    EmitSequenced(s, RunRunning, "codex.turn_started", at, ProviderReported, Some(s.turnId),
      map["turn_id" := s.turnId, "status" := "running"], None);
    SilentSequenced(s);
    var status := RequiredString(turn, "status");
    if status.Some? && Ending(turn, status.value).Some? {
      var end := Ending(turn, status.value).value;
      EndingIsTerminal(turn, status.value);
      EmitSequenced(s, end.0, "codex.turn_completed", at, ProviderReported, Some(s.turnId),
        map["turn_id" := s.turnId, "status" := status.value], end.1);
    }
  }

  lemma SilentSequenced(s: Stream)
    ensures Sequenced(s, s, Ok(None)) && Sequenced(s, s, Err(Drift))
  {
  }

  lemma StepSequenced(s: Stream, input: Input)
    ensures Sequenced(s, Step(s, input).0, Step(s, input).1)
  {
    hide Emit, Sequenced, Started, Completed, RequiredString, Blank;
    SilentSequenced(s);
    if !s.terminal {
      match input
      case Notified(name, params, at) =>
        if Turn(params).Some? && RequiredString(Turn(params).value, "id") == Some(s.turnId) {
          TurnSequenced(s, Turn(params).value, at);
        }
      case CancellationRequested(at) =>
        EmitSequenced(s, RunCancelling, "codex.turn_interrupt_requested", at, LocallyMeasured, None,
          map["status" := "cancelling"], None);
      case RecoveryStarted(thread, at) =>
        if !Blank(thread) {
          EmitSequenced(s, RunRecovering, "codex.thread_resume_requested", at, LocallyMeasured, Some(thread),
            map["thread_id" := thread, "status" := "recovering"], None);
        }
      case DeadlineExceeded(at) =>
        EmitSequenced(s, RunFailed, "codex.deadline_exceeded", at, LocallyMeasured, None, map["status" := "failed"],
          Some(AdapterFailure(Timeout, "codex.failure.timeout", true, None, None)));
      case TransportLost(at) =>
        EmitSequenced(s, RunUncertain, "codex.transport_lost", at, LocallyMeasured, None, map["status" := "uncertain"],
          Some(AdapterFailure(Crashed, "codex.failure.transport_lost", true, None, None)));
    }
  }

  lemma {:induction false} TerminalIsSilent(s: Stream, inputs: seq<Input>)
    requires s.terminal
    ensures Events(s, inputs) == []
    decreases |inputs|
  {
    hide Step;
    if inputs != [] {
      StepSequenced(s, inputs[0]);
      TerminalIsSilent(s, inputs[1..]);
    }
  }

  /**
    Every run emits events numbered in steps of one, the last of which alone may be terminal,
    and attributes to the provider only events of its own turn.
   */
  lemma {:induction false} EventsAreTrace(s: Stream, inputs: seq<Input>)
    ensures Trace(Events(s, inputs), s.run, s.next)
    ensures forall e :: e in Events(s, inputs) ==> Attributed(e, s.turnId)
    decreases |inputs|
  {
    hide Step, WellFormedEvent, IsTerminal, Attributed;
    if inputs != [] {
      var (s1, r) := Step(s, inputs[0]);
      var rest := Events(s1, inputs[1..]);
      StepSequenced(s, inputs[0]);
      EventsAreTrace(s1, inputs[1..]);
      if Emitted(r) != [] {
        if s1.terminal {
          TerminalIsSilent(s1, inputs[1..]);
        }
        TracePrepend(Emitted(r)[0], rest, s.run);
        assert Emitted(r) == [Emitted(r)[0]];
      } else {
        assert Emitted(r) + rest == rest;
      }
    }
  }

  /** Any non-empty run of a new stream passes the conformance checker's event rules. */
  lemma RunPassesConformance(run: RunId, turnId: string, inputs: seq<Input>)
    requires New(run, turnId).Ok?
    ensures var events := Events(New(run, turnId).value, inputs);
      && Trace(events, run, 1) && (forall e :: e in events ==> Attributed(e, turnId))
      && (events != [] ==> ExpectedFindings(events, run, events[|events| - 1].state) == [])
  {
    var s := New(run, turnId).value;
    EventsAreTrace(s, inputs);
    if Events(s, inputs) != [] {
      TracePasses(Events(s, inputs), run, 1);
    }
  }

  // ---------------------------------------------------------------- what a notification can reveal

  /** The failure code of a turn, when it is one of those that may be repeated. */
  function RecognisedCode(turn: Json): Option<string> {
    var code := FailureCode(turn);
    if code.None? then Some("Other") else if code.value in RECOGNISED then code else None
  }

  /** An ending depends on the turn through its recognised code alone. */
  lemma EndingRevealsCode(t: Json, u: Json, status: string)
    requires RecognisedCode(t) == RecognisedCode(u)
    ensures Ending(t, status) == Ending(u, status)
  {
    hide FailureCode, Failure;
  }

  /**
    Two notifications whose turns agree on id, status and recognised failure code have the
    same effect and yield the same event, whatever else they carry: error messages, items and
    unknown codes never reach an event.
   */
  lemma NothingElseIsRevealed(s: Stream, name: string, params: Json, other: Json, at: string)
    requires Turn(params).Some? && Turn(other).Some?
    requires var t, u := Turn(params).value, Turn(other).value;
      && RequiredString(t, "id") == RequiredString(u, "id")
      && RequiredString(t, "status") == RequiredString(u, "status")
      && RecognisedCode(t) == RecognisedCode(u)
    ensures Step(s, Notified(name, params, at)) == Step(s, Notified(name, other, at))
  {
    hide Emit, Ending, RequiredString, Turn, RecognisedCode;
    var t, u := Turn(params).value, Turn(other).value;
    var status := RequiredString(t, "status");
    if status.Some? {
      EndingRevealsCode(t, u, status.value);
    }
  }

  // ---------------------------------------------------------------- the stream objects

  class CodexEventNormalizer {
    const runId: RunId
    var nextSequence: nat

    constructor (run: RunId)
      ensures runId == run && nextSequence == 1
    {
      runId, nextSequence := run, 1;
    }

    /** `event`, seen from any stream that owns this normalizer. */
    method Event(ghost s: Stream, state: RunState, name: string, at: string, evidence: EvidenceClass,
                 provider: Option<string>, fields: map<string, string>, failure: Option<AdapterFailure>)
      returns (r: Outcome)
      requires s.run == runId && s.next == nextSequence
      modifies this
      ensures (s.(next := nextSequence), r) == Emit(s, state, name, at, evidence, provider, fields, failure)
    {
      if Blank(at) {
        return Err(Drift);
      }
      var sequence := nextSequence;
      if sequence >= J.U64_MAX {
        return Err(SequenceOverflow);
      }
      nextSequence := sequence + 1;
      r := Ok(Some(CodexEvent(
        NormalizedEvent(AGENT_ADAPTER_CONTRACT_VERSION, runId, sequence, state, name, at, evidence, provider,
                        JsonPayload(fields)), failure)));
    }

    method TurnStarted(ghost s: Stream, turn: Json, id: string, at: string) returns (r: Outcome)
      requires s.run == runId && s.next == nextSequence
      modifies this
      ensures (s.(next := nextSequence), r) == Started(s, turn, id, at)
    {
      hide RequiredString, Emit;
      if RequiredString(turn, "status") != Some("inProgress") {
        return Err(Drift);
      }
      r := Event(s, RunRunning, "codex.turn_started", at, ProviderReported, Some(id),
                 map["turn_id" := id, "status" := "running"], None);
    }

    method TurnCompleted(ghost s: Stream, turn: Json, id: string, at: string) returns (r: Outcome)
      requires s.run == runId && s.next == nextSequence
      modifies this
      ensures (s.(next := nextSequence), r) == Completed(s, turn, id, at)
    {
      hide RequiredString, Emit, Ending;
      var status := RequiredString(turn, "status");
      if status.None? {
        return Err(Drift);
      }
      var end := Ending(turn, status.value);
      if end.None? {
        return Err(Drift);
      }
      r := Event(s, end.value.0, "codex.turn_completed", at, ProviderReported, Some(id),
                 map["turn_id" := id, "status" := status.value], end.value.1);
    }
  }

  class CodexRunStream {
    const providerTurnId: string
    const normalizer: CodexEventNormalizer
    var terminal: bool

    ghost function Value(): Stream
      reads this, normalizer
    {
      Stream(providerTurnId, normalizer.runId, normalizer.nextSequence, terminal)
    }

    constructor (run: RunId, turnId: string)
      requires New(run, turnId).Ok?
      ensures Value() == New(run, turnId).value && fresh(normalizer)
    {
      providerTurnId := turnId;
      normalizer := new CodexEventNormalizer(run);
      terminal := false;
    }

    method Ingest(name: string, params: Json, at: string) returns (r: Outcome)
      modifies this, normalizer
      ensures (Value(), r) == Step(old(Value()), Notified(name, params, at))
      ensures terminal && !old(terminal) ==> name == "turn/completed" && r.Ok? && r.value.Some?
      ensures old(terminal) ==> Value() == old(Value()) && (r == Ok(None) || r == Err(Drift))
    {
      hide Started, Completed, RequiredString, Turn;
      if name != "turn/started" && name != "turn/completed" {
        return Ok(None);
      }
      var turn := Turn(params);
      var id := if turn.Some? then RequiredString(turn.value, "id") else None;
      if id.None? {
        return Err(Drift);
      }
      if id.value != providerTurnId {
        return Ok(None);
      }
      if terminal {
        return Err(Drift);
      }
      if name == "turn/started" {
        r := normalizer.TurnStarted(Value(), turn.value, id.value, at);
      } else {
        CompletedOutcome(Value(), turn.value, id.value, at);
        r := normalizer.TurnCompleted(Value(), turn.value, id.value, at);
        terminal := r.Ok?;
      }
    }

    method RequestCancellation(at: string) returns (r: Outcome)
      modifies this, normalizer
      ensures (Value(), r) == Step(old(Value()), CancellationRequested(at))
    {
      hide Emit;
      if terminal {
        return Err(Drift);
      }
      r := normalizer.Event(Value(), RunCancelling, "codex.turn_interrupt_requested", at, LocallyMeasured, None,
                            map["status" := "cancelling"], None);
    }

    method StartRecovery(thread: string, at: string) returns (r: Outcome)
      modifies this, normalizer
      ensures (Value(), r) == Step(old(Value()), RecoveryStarted(thread, at))
    {
      hide Emit;
      if terminal || Blank(thread) {
        return Err(Drift);
      }
      r := normalizer.Event(Value(), RunRecovering, "codex.thread_resume_requested", at, LocallyMeasured, Some(thread),
                            map["thread_id" := thread, "status" := "recovering"], None);
    }

    method LocalTerminal(state: RunState, name: string, status: string, kind: FailureKind, key: string, at: string)
      returns (r: Outcome)
      modifies this, normalizer
      ensures (Value(), r) == LocalEnd(old(Value()), state, name, status, kind, key, at)
      ensures old(terminal) ==> r == Err(Drift) && Value() == old(Value())
      ensures !old(terminal) ==> (terminal <==> r.Ok?)
      ensures r.Ok? ==> r.value.Some? && r.value.value.event.state == state
    {
      hide Emit;
      if terminal {
        return Err(Drift);
      }
      EmitOutcome(Value(), state, name, at, LocallyMeasured, None, map["status" := status],
                  Some(AdapterFailure(kind, key, true, None, None)));
      r := normalizer.Event(Value(), state, name, at, LocallyMeasured, None, map["status" := status],
                            Some(AdapterFailure(kind, key, true, None, None)));
      terminal := r.Ok?;
    }

    method ExceedDeadline(at: string) returns (r: Outcome)
      modifies this, normalizer
      ensures (Value(), r) == Step(old(Value()), DeadlineExceeded(at))
    {
      hide LocalEnd;
      r := LocalTerminal(RunFailed, "codex.deadline_exceeded", "failed", Timeout, "codex.failure.timeout", at);
    }

    method LoseTransport(at: string) returns (r: Outcome)
      modifies this, normalizer
      ensures (Value(), r) == Step(old(Value()), TransportLost(at))
    {
      hide LocalEnd;
      r := LocalTerminal(RunUncertain, "codex.transport_lost", "uncertain", Crashed,
                         "codex.failure.transport_lost", at);
    }
  }
}
