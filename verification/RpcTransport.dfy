/**
  Request and notification traffic over a provider's standard streams: message decoding
  (JSON-RPC 2.0, sections 4.1 and 5, without the version member), deferral of notifications
  that arrive while a reply is awaited, and quarantine of late replies.
 */
module RpcTransport {
  import opened Prelude
  import opened OutputQueue
  import opened FrameBuffer

  const U64_MAX: nat := 0xFFFF_FFFF_FFFF_FFFF
  const I64_MAX: int := 0x7FFF_FFFF_FFFF_FFFF
  const MAX_ABANDONED_REQUESTS: nat := 64

  datatype Json =
    | Null | Boolean(b: bool) | Number(n: int) | Fraction(text: string) | Text(s: string)
    | List(items: seq<Json>) | Object(fields: map<string, Json>)

  datatype Notification = Notification(method_: string, params: Json)

  datatype TransportError =
    | Cancelled | Unavailable | TimedOut | ProtocolDrift | RemoteRejected(code: int, retryable: bool)

  /** The bytes a message takes as one frame, newline included. */
  type FrameLength = Json -> nat

  // ---------------------------------------------------------------- decoding

  function Get(j: Json, key: string): Option<Json> {
    if j.Object? && key in j.fields then Some(j.fields[key]) else None
  }

  function AsU64(j: Option<Json>): Option<nat> {
    if j.Some? && j.value.Number? && 0 <= j.value.n <= U64_MAX then Some(j.value.n) else None
  }

  function AsI64(j: Option<Json>): Option<int> {
    if j.Some? && j.value.Number? && -I64_MAX - 1 <= j.value.n <= I64_MAX then Some(j.value.n) else None
  }

  function AsText(j: Option<Json>): Option<string> {
    if j.Some? && j.value.Text? then Some(j.value.s) else None
  }

  function DecodeNotification(m: Json): Result<Notification, TransportError> {
    var name := AsText(Get(m, "method"));
    if Get(m, "id").Some? || name.None? || Blank(name.value) || Get(m, "params").None? then Err(ProtocolDrift)
    else Ok(Notification(name.value, Get(m, "params").value))
  }

  datatype Disposition = Deferred(n: Notification) | Reply(value: Json)

  function DecodeResponse(m: Json, expected: nat): Result<Disposition, TransportError> {
    if Get(m, "id").None? then
      var n := DecodeNotification(m);
      if n.Ok? then Ok(Deferred(n.value)) else Err(n.error)
    else if AsU64(Get(m, "id")) != Some(expected) then Err(ProtocolDrift)
    else if Get(m, "error").Some? then Err(DecodeRejection(Get(m, "error").value))
    else if Get(m, "result").Some? then Ok(Reply(Get(m, "result").value))
    else Err(ProtocolDrift)
  }

  function DecodeRejection(error: Json): TransportError {
    var code := AsI64(Get(error, "code"));
    var message := AsText(Get(error, "message"));
    if code.None? || message.None? || message.value == "" then ProtocolDrift
    else RemoteRejected(code.value, code.value == -32001)
  }

  // ---------------------------------------------------------------- state

  /** A request that returned: its id, the message that answered it, and the value returned. */
  datatype Answer = Answer(id: nat, message: Json, value: Json)

  /**
    The transport's fields, followed by what has passed through it: the messages read, the
    notifications handed to the caller, and the answers given to requests.
   */
  datatype Transport = Transport(
    nextId: nat, outputFailed: bool, stdinOpen: bool,
    pending: seq<(Notification, nat)>, pendingBytes: nat, abandoned: seq<nat>,
    wire: seq<Json>, delivered: seq<Notification>, answers: seq<Answer>)

  const INITIAL := Transport(0, false, true, [], 0, [], [], [], [])

  /** What a call observes next. `Expired` is its own deadline, `Inactive` that of the whole run. */
  datatype Event =
    | Arrived(m: Json) | ReaderFailed(e: TransportError) | Disconnected
    | QueueFailed | CancelSeen | Expired | Inactive

  /** How writing the request frame went. */
  datatype Written = Accepted | RefusedQueueFailed | RefusedCancelled | TooLong | Interrupted | Late | Broken

  function Closed(t: Transport): Transport {
    t.(stdinOpen := false)
  }

  /** The error reported after cleaning up, which is lost when cleaning up fails. */
  function AfterCleanup(cleanup: bool, e: TransportError): TransportError {
    if cleanup then e else Unavailable
  }

  /** The abandoned request a message replies to, if any. */
  function AbandonedAt(t: Transport, m: Json): Option<nat> {
    var id := AsU64(Get(m, "id"));
    if id.None? then None
    else
      var i := IndexOf(t.abandoned, id.value);
      if i < |t.abandoned| then Some(i) else None
  }

  function Forget(t: Transport, i: nat): Transport
    requires i < |t.abandoned|
  {
    t.(abandoned := t.abandoned[..i] + t.abandoned[i + 1..])
  }

  function Remember(t: Transport, id: nat): Transport {
    t.(abandoned := (if |t.abandoned| == MAX_ABANDONED_REQUESTS then t.abandoned[1..] else t.abandoned) + [id])
  }

  function Read(t: Transport, m: Json): Transport {
    t.(wire := t.wire + [m])
  }

  // ---------------------------------------------------------------- requests

  /** `route_request_message`: a reply, a deferred notification, or an error. */
  function Route(size: FrameLength, t: Transport, m: Json, id: nat): (Transport, Result<Option<Json>, TransportError>) {
    if size(m) > MAX_INPUT_FRAME_BYTES then (t, Err(ProtocolDrift))
    else
      var d := DecodeResponse(m, id);
      if d.Err? then (t, Err(d.error))
      else if d.value.Reply? then (t, Ok(Some(d.value.value)))
      else if |t.pending| >= OUTPUT_QUEUE_ITEMS || size(m) > Minus(OUTPUT_QUEUE_BYTES, t.pendingBytes)
      then (t, Err(ProtocolDrift))
      else (t.(pending := t.pending + [(d.value.n, size(m))], pendingBytes := t.pendingBytes + size(m)), Ok(None))
  }

  type Response = Result<Json, TransportError>

  /** Waiting for the reply to request `id`. */
  function Await(size: FrameLength, t: Transport, id: nat, abandon: bool, cleanup: bool, events: seq<Event>)
    : (Transport, Response)
    decreases |events|
  {
    if events == [] then
      (if abandon then Remember(t, id) else t, Err(TimedOut))
    else match events[0]
      case QueueFailed => (Closed(t), Err(Unavailable))
      case CancelSeen => (Closed(t), Err(AfterCleanup(cleanup, Cancelled)))
      case Expired => (if abandon then Remember(t, id) else t, Err(TimedOut))
      case ReaderFailed(e) =>
        (if abandon && e == TimedOut then Remember(t, id) else t, Err(e))
      case Disconnected => (t, Err(Unavailable))
      case Inactive => Await(size, t, id, abandon, cleanup, events[1..])
      case Arrived(m) =>
        var t1 := Read(t, m);
        if AbandonedAt(t, m).Some?
        then Await(size, Forget(t1, AbandonedAt(t, m).value), id, abandon, cleanup, events[1..])
        else
          var (t2, routed) := Route(size, t1, m, id);
          if routed.Err? then (Closed(t2.(outputFailed := true)), Err(AfterCleanup(cleanup, routed.error)))
          else if routed.value.Some? then
            (t2.(answers := t2.answers + [Answer(id, m, routed.value.value)]), Ok(routed.value.value))
          else Await(size, t2, id, abandon, cleanup, events[1..])
  }

  /** Writing a frame, with the checks made before it. */
  function WriteFrame(t: Transport, written: Written, cleanup: bool): (Transport, Option<TransportError>) {
    if t.outputFailed || written.RefusedQueueFailed? then (Closed(t), Some(Unavailable))
    else if written.RefusedCancelled? then (Closed(t), Some(AfterCleanup(cleanup, Cancelled)))
    else if written.TooLong? then (t, Some(ProtocolDrift))
    else if !t.stdinOpen then (t, Some(Unavailable))
    else match written
      case Interrupted => (Closed(t), Some(AfterCleanup(cleanup, Cancelled)))
      case Late => (Closed(t), Some(AfterCleanup(cleanup, TimedOut)))
      case Broken => (Closed(t), Some(Unavailable))
      case _ => (t, None)
  }

  function Request(size: FrameLength, t: Transport, written: Written, abandon: bool, cleanup: bool, events: seq<Event>)
    : (Transport, Response)
  {
    if t.nextId >= U64_MAX then (t, Err(ProtocolDrift))
    else
      var (t1, e) := WriteFrame(t.(nextId := t.nextId + 1), written, cleanup);
      if e.Some? then (t1, Err(e.value)) else Await(size, t1, t.nextId, abandon, cleanup, events)
  }

  // ---------------------------------------------------------------- polling

  type Polled = Result<Option<Notification>, TransportError>

  function Listen(t: Transport, cleanup: bool, events: seq<Event>): (Transport, Polled)
    decreases |events|
  {
    if events == [] then (t, Ok(None))
    else match events[0]
      case QueueFailed => (Closed(t), Err(Unavailable))
      case CancelSeen => (Closed(t), Err(AfterCleanup(cleanup, Cancelled)))
      case Expired => (t, Ok(None))
      case Inactive => (t, Err(TimedOut))
      case ReaderFailed(e) => (t, Err(e))
      case Disconnected => (t, Err(Unavailable))
      case Arrived(m) =>
        var t1 := Read(t, m);
        if AbandonedAt(t, m).Some? then Listen(Forget(t1, AbandonedAt(t, m).value), cleanup, events[1..])
        else Heard(t1, DecodeNotification(m))
  }

  function Poll(t: Transport, cleanup: bool, events: seq<Event>): (Transport, Polled) {
    if t.outputFailed || (events != [] && events[0].QueueFailed?) then (Closed(t), Err(Unavailable))
    else if events != [] && events[0].CancelSeen? then (Closed(t), Err(AfterCleanup(cleanup, Cancelled)))
    else if t.pending != [] then
      var (n, bytes) := t.pending[0];
      (t.(pending := t.pending[1..], pendingBytes := Minus(t.pendingBytes, bytes), delivered := t.delivered + [n]),
       Ok(Some(n)))
    else Listen(t, cleanup, events)
  }

  // ---------------------------------------------------------------- the invariant

  function PendingNotes(pending: seq<(Notification, nat)>): (notes: seq<Notification>)
    ensures |notes| == |pending| && forall i :: 0 <= i < |notes| ==> notes[i] == pending[i].0
  {
    seq(|pending|, i requires 0 <= i < |pending| => pending[i].0)
  }

  function PendingSize(pending: seq<(Notification, nat)>): nat {
    if pending == [] then 0 else pending[0].1 + PendingSize(pending[1..])
  }

  /** The well-formed notifications among the messages read, in wire order. */
  function WireNotes(wire: seq<Json>): seq<Notification> {
    if wire == [] then []
    else
      var last := |wire| - 1;
      var n := DecodeNotification(wire[last]);
      WireNotes(wire[..last]) + if n.Ok? then [n.value] else []
  }

  /** The message is a notification with this method and these params (JSON-RPC 2.0, section 4.1). */
  predicate BearsNote(m: Json, n: Notification) {
    && Get(m, "id").None? && Get(m, "method") == Some(Text(n.method_)) && !Blank(n.method_)
    && Get(m, "params") == Some(n.params)
  }

  lemma NoteExactlyWhen(m: Json, n: Notification)
    ensures DecodeNotification(m) == Ok(n) <==> BearsNote(m, n)
  {
    hide Blank;
  }

  /** The notifications are those at these places of the wire, in order. */
  ghost predicate NotesAt(wire: seq<Json>, notes: seq<Notification>, places: seq<nat>) {
    && |places| == |notes| && Rising(places)
    && forall i :: 0 <= i < |places| ==> places[i] < |wire| && BearsNote(wire[places[i]], notes[i])
  }

  /** No message elsewhere on the wire is a notification. */
  ghost predicate NoNoteElsewhere(wire: seq<Json>, places: seq<nat>) {
    forall k, n :: 0 <= k < |wire| && BearsNote(wire[k], n) ==> k in places
  }

  /** The notifications of a wire are those its messages bear: each once, in order, and none left out. */
  lemma {:induction false} WireNotesMean(wire: seq<Json>) returns (places: seq<nat>)
    ensures NotesAt(wire, WireNotes(wire), places) && NoNoteElsewhere(wire, places)
  {
    hide BearsNote, DecodeNotification;
    if wire == [] {
      places := [];
    } else {
      var last := |wire| - 1;
      var front := WireNotesMean(wire[..last]);
      var n := DecodeNotification(wire[last]);
      places := if n.Ok? then front + [last] else front;
      forall other
        ensures n == Ok(other) <==> BearsNote(wire[last], other)
      {
        NoteExactlyWhen(wire[last], other);
      }
      LastNote(wire, front, n);
    }
  }

  lemma PlacesOfLonger(wire: seq<Json>, m: Json, notes: seq<Notification>, places: seq<nat>)
    requires NotesAt(wire, notes, places)
    ensures NotesAt(wire + [m], notes, places)
    ensures forall n :: BearsNote(m, n) ==> NotesAt(wire + [m], notes + [n], places + [|wire|])
  {
    hide BearsNote;
    var longer := wire + [m];
    assert forall i :: 0 <= i < |places| ==> longer[places[i]] == wire[places[i]];
    forall n | BearsNote(m, n)
      ensures NotesAt(longer, notes + [n], places + [|wire|])
    {
      var more := places + [|wire|];
      forall i | 0 <= i < |more|
        ensures more[i] < |longer| && BearsNote(longer[more[i]], (notes + [n])[i])
      {
        assert i < |places| ==> more[i] == places[i] && (notes + [n])[i] == notes[i];
      }
      assert Rising(more);
    }
  }

  lemma NoNoteInLonger(wire: seq<Json>, m: Json, places: seq<nat>)
    requires NoNoteElsewhere(wire, places)
    ensures NoNoteElsewhere(wire + [m], places + [|wire|])
    ensures (forall n :: !BearsNote(m, n)) ==> NoNoteElsewhere(wire + [m], places)
  {
    hide BearsNote;
    var longer, more := wire + [m], places + [|wire|];
    assert more[|places|] == |wire|;
    forall k, n | 0 <= k < |longer| && BearsNote(longer[k], n)
      ensures k in more && (k < |wire| ==> k in places)
    {
      if k < |wire| {
        assert longer[k] == wire[k] && k in places;
      }
    }
  }

  lemma LastNote(wire: seq<Json>, front: seq<nat>, n: Result<Notification, TransportError>)
    requires wire != [] && n == DecodeNotification(wire[|wire| - 1])
    requires forall other :: n == Ok(other) <==> BearsNote(wire[|wire| - 1], other)
    requires NotesAt(wire[..|wire| - 1], WireNotes(wire[..|wire| - 1]), front)
    requires NoNoteElsewhere(wire[..|wire| - 1], front)
    ensures var places := if n.Ok? then front + [|wire| - 1] else front;
      NotesAt(wire, WireNotes(wire), places) && NoNoteElsewhere(wire, places)
  {
    hide BearsNote, DecodeNotification, NotesAt, NoNoteElsewhere;
    var last := |wire| - 1;
    var before, m := wire[..last], wire[last];
    assert wire == before + [m];
    PlacesOfLonger(before, m, WireNotes(before), front);
    NoNoteInLonger(before, m, front);
    if n.Ok? {
      assert BearsNote(m, n.value);
    } else {
      assert WireNotes(wire) == WireNotes(before);
      forall other
        ensures !BearsNote(m, other)
      {
        assert n != Ok(other);
      }
    }
  }

  /** Nothing lost, nothing reordered, nothing invented, as long as routing has not failed. */
  ghost predicate InWireOrder(t: Transport) {
    var seen := t.delivered + PendingNotes(t.pending);
    if t.outputFailed then seen <= WireNotes(t.wire) else seen == WireNotes(t.wire)
  }

  ghost predicate WithinLimits(t: Transport) {
    && |t.pending| <= OUTPUT_QUEUE_ITEMS && t.pendingBytes == PendingSize(t.pending) <= OUTPUT_QUEUE_BYTES
    && |t.abandoned| <= MAX_ABANDONED_REQUESTS
  }

  predicate AllBelow(ids: seq<nat>, bound: nat) {
    forall i | 0 <= i < |ids| :: ids[i] < bound
  }

  predicate Rising(ids: seq<nat>) {
    forall i, j | 0 <= i < j < |ids| :: ids[i] < ids[j]
  }

  /** Only past ids are abandoned, oldest first; every answer's message bears the answer's own id. */
  ghost predicate IdsMatch(t: Transport) {
    && t.nextId <= U64_MAX
    && AllBelow(t.abandoned, t.nextId) && Rising(t.abandoned)
    && (forall i :: 0 <= i < |t.answers| ==> t.answers[i].id < t.nextId && AnswerFits(t.wire, t.answers[i]))
    && forall i, j :: 0 <= i < j < |t.answers| ==> t.answers[i].id < t.answers[j].id
  }

  /** The answer's value is the result of a message that was read and names the answer's id. */
  ghost predicate AnswerFits(wire: seq<Json>, a: Answer) {
    && a.message in wire
    && AsU64(Get(a.message, "id")) == Some(a.id)
    && Get(a.message, "error").None?
    && Get(a.message, "result") == Some(a.value)
  }

  ghost predicate Consistent(t: Transport) {
    InWireOrder(t) && WithinLimits(t) && IdsMatch(t)
  }

  lemma ReadNote(t: Transport, m: Json)
    ensures WireNotes(Read(t, m).wire)
            == WireNotes(t.wire) + if DecodeNotification(m).Ok? then [DecodeNotification(m).value] else []
  {
    var wire := t.wire + [m];
    assert wire[..|wire| - 1] == t.wire;
  }

  /** Reading and setting aside a reply to an abandoned request keeps everything. */
  lemma DiscardKeeps(t: Transport, m: Json)
    requires Consistent(t) && AbandonedAt(t, m).Some?
    ensures Consistent(Forget(Read(t, m), AbandonedAt(t, m).value))
    ensures Forget(Read(t, m), AbandonedAt(t, m).value).nextId == t.nextId
  {
    hide DecodeNotification, AnswerFits, Get, AsU64, WireNotes, PendingNotes, PendingSize, IdsMatch, AbandonedAt;
    ReadNote(t, m);
    ReadIdsMatch(t, m);
    AbandonedIsNoNote(t, m);
    ForgetIdsMatch(Read(t, m), AbandonedAt(t, m).value);
  }

  lemma ForgetIdsMatch(t: Transport, k: nat)
    requires IdsMatch(t) && k < |t.abandoned|
    ensures IdsMatch(Forget(t, k)) && |Forget(t, k).abandoned| < |t.abandoned|
  {
    hide AnswerFits;
    ForgetKeeps(t.abandoned, k, t.nextId);
  }

  lemma FailedIdsMatch(t: Transport)
    requires IdsMatch(t)
    ensures IdsMatch(Closed(t.(outputFailed := true)))
  {
    hide AnswerFits;
  }

  lemma AbandonedIsNoNote(t: Transport, m: Json)
    requires AbandonedAt(t, m).Some?
    ensures DecodeNotification(m).Err? && AbandonedAt(t, m).value < |t.abandoned|
  {
  }

  lemma ForgetKeeps(ids: seq<nat>, k: nat, bound: nat)
    requires k < |ids| && AllBelow(ids, bound) && Rising(ids)
    ensures var rest := ids[..k] + ids[k + 1..]; |rest| < |ids| && AllBelow(rest, bound) && Rising(rest)
  {
  }

  lemma {:induction false} PendingSizeAppend(pending: seq<(Notification, nat)>, item: (Notification, nat))
    ensures PendingSize(pending + [item]) == PendingSize(pending) + item.1
  {
    if pending == [] {
      assert pending + [item] == [item];
    } else {
      assert (pending + [item])[1..] == pending[1..] + [item];
      PendingSizeAppend(pending[1..], item);
    }
  }

  lemma AppendNote(t: Transport, n: Notification, bytes: nat)
    ensures t.delivered + PendingNotes(t.pending + [(n, bytes)]) == t.delivered + PendingNotes(t.pending) + [n]
    ensures PendingSize(t.pending + [(n, bytes)]) == PendingSize(t.pending) + bytes
  {
    PendingSizeAppend(t.pending, (n, bytes));
  }

  /** What a deferral is: a well-formed notification appended within the limits. */
  lemma RouteDefers(size: FrameLength, t: Transport, m: Json, id: nat)
    requires Route(size, t, m, id).1 == Ok(None)
    ensures DecodeNotification(m).Ok?
    ensures |t.pending| < OUTPUT_QUEUE_ITEMS && size(m) <= Minus(OUTPUT_QUEUE_BYTES, t.pendingBytes)
    ensures Route(size, t, m, id).0 == t.(pending := t.pending + [(DecodeNotification(m).value, size(m))],
                                          pendingBytes := t.pendingBytes + size(m))
  {
  }

  /** More messages on the wire fit the same answers. */
  lemma ReadIdsMatch(t: Transport, m: Json)
    requires IdsMatch(t)
    ensures IdsMatch(Read(t, m))
  {
  }

  /** A notification met while waiting is deferred behind the earlier ones. */
  lemma DeferKeeps(size: FrameLength, t: Transport, m: Json, id: nat)
    requires Consistent(t) && !t.outputFailed && Route(size, Read(t, m), m, id).1 == Ok(None)
    ensures Consistent(Route(size, Read(t, m), m, id).0)
    ensures !Route(size, Read(t, m), m, id).0.outputFailed
  {
    hide Route, DecodeNotification, AnswerFits;
    RouteDefers(size, Read(t, m), m, id);
    ReadNote(t, m);
    ReadIdsMatch(t, m);
    AppendNote(t, DecodeNotification(m).value, size(m));
  }

  lemma RouteReplies(size: FrameLength, t: Transport, m: Json, id: nat, value: Json)
    requires Route(size, t, m, id).1 == Ok(Some(value))
    ensures Route(size, t, m, id).0 == t && DecodeNotification(m).Err?
    ensures AsU64(Get(m, "id")) == Some(id) && Get(m, "error").None? && Get(m, "result") == Some(value)
  {
  }

  lemma ReplyKeeps(size: FrameLength, t: Transport, m: Json, id: nat, value: Json)
    requires Consistent(t) && !t.outputFailed && Route(size, Read(t, m), m, id).1 == Ok(Some(value))
    requires id < t.nextId && forall i :: 0 <= i < |t.answers| ==> t.answers[i].id < id
    ensures Route(size, Read(t, m), m, id).0 == Read(t, m)
    ensures Consistent(Read(t, m).(answers := t.answers + [Answer(id, m, value)]))
  {
    hide Route, DecodeNotification, AsU64, Get, IdsMatch, PendingNotes, PendingSize;
    RouteReplies(size, Read(t, m), m, id, value);
    ReadNote(t, m);
    ReadIdsMatch(t, m);
    AnswerIdsMatch(Read(t, m), Answer(id, m, value));
  }

  lemma AnswerIdsMatch(t: Transport, a: Answer)
    requires IdsMatch(t) && AnswerFits(t.wire, a)
    requires a.id < t.nextId && forall i :: 0 <= i < |t.answers| ==> t.answers[i].id < a.id
    ensures IdsMatch(t.(answers := t.answers + [a]))
  {
    hide AnswerFits;
  }

  lemma RouteRefuses(size: FrameLength, t: Transport, m: Json, id: nat)
    requires Route(size, t, m, id).1.Err?
    ensures Route(size, t, m, id).0 == t
  {
  }

  lemma RoutingErrorKeeps(size: FrameLength, t: Transport, m: Json, id: nat)
    requires Consistent(t) && !t.outputFailed && Route(size, Read(t, m), m, id).1.Err?
    ensures Consistent(Closed(Route(size, Read(t, m), m, id).0.(outputFailed := true)))
  {
    hide Route, DecodeNotification, WireNotes, PendingNotes, PendingSize, IdsMatch;
    RouteRefuses(size, Read(t, m), m, id);
    ReadNote(t, m);
    ReadIdsMatch(t, m);
    FailedIdsMatch(Read(t, m));
  }

  lemma RememberKeeps(t: Transport, id: nat)
    requires Consistent(t) && id < t.nextId && AllBelow(t.abandoned, id)
    ensures Consistent(Remember(t, id))
  {
  }

  lemma {:induction false} AwaitKeeps(size: FrameLength, t: Transport, id: nat, abandon: bool, cleanup: bool,
                                      events: seq<Event>)
    requires Consistent(t) && !t.outputFailed
    requires id < t.nextId && AllBelow(t.abandoned, id) && forall i :: 0 <= i < |t.answers| ==> t.answers[i].id < id
    ensures var (t1, r) := Await(size, t, id, abandon, cleanup, events);
      && Consistent(t1) && t1.nextId == t.nextId
      && (if r.Ok?
          then
            && |t1.answers| == |t.answers| + 1
            && t1.answers[|t.answers|] == Answer(id, t1.answers[|t.answers|].message, r.value)
          else t1.answers == t.answers)
    decreases |events|
  {
    hide Consistent, Route;
    if events == [] || events[0].Expired? || events[0].ReaderFailed? {
      RememberKeeps(t, id);
    } else if events[0].Inactive? {
      AwaitKeeps(size, t, id, abandon, cleanup, events[1..]);
    } else if events[0].Arrived? {
      var m := events[0].m;
      if AbandonedAt(t, m).Some? {
        DiscardKeeps(t, m);
        AwaitKeeps(size, Forget(Read(t, m), AbandonedAt(t, m).value), id, abandon, cleanup, events[1..]);
      } else {
        var (t2, routed) := Route(size, Read(t, m), m, id);
        RouteFrame(size, Read(t, m), m, id);
        if routed.Err? {
          RoutingErrorKeeps(size, t, m, id);
        } else if routed.value.Some? {
          ReplyKeeps(size, t, m, id, routed.value.value);
        } else {
          DeferKeeps(size, t, m, id);
          AwaitKeeps(size, t2, id, abandon, cleanup, events[1..]);
        }
      }
    } else {
      ClosedKeeps(t);
    }
  }

  lemma RouteFrame(size: FrameLength, t: Transport, m: Json, id: nat)
    ensures var t1 := Route(size, t, m, id).0;
      && t1.nextId == t.nextId && t1.answers == t.answers && t1.abandoned == t.abandoned
      && t1.wire == t.wire && t1.delivered == t.delivered
  {
  }

  /** Waiting delivers nothing, and a reply is always the last message read. */
  lemma {:induction false} AwaitFrame(size: FrameLength, t: Transport, id: nat, abandon: bool, cleanup: bool,
                                      events: seq<Event>)
    ensures var (t1, r) := Await(size, t, id, abandon, cleanup, events);
      && t.wire <= t1.wire && t1.delivered == t.delivered
      && (r.Err? ==> t1.answers == t.answers)
      && (r.Ok? ==> |t.wire| < |t1.wire| && t1.answers == t.answers + [Answer(id, t1.wire[|t1.wire| - 1], r.value)])
    decreases |events|
  {
    hide Route, Get, AsU64;
    if events != [] && events[0].Inactive? {
      AwaitFrame(size, t, id, abandon, cleanup, events[1..]);
    } else if events != [] && events[0].Arrived? {
      var m := events[0].m;
      if AbandonedAt(t, m).Some? {
        AwaitFrame(size, Forget(Read(t, m), AbandonedAt(t, m).value), id, abandon, cleanup, events[1..]);
      } else {
        var (t2, routed) := Route(size, Read(t, m), m, id);
        RouteFrame(size, Read(t, m), m, id);
        if routed == Ok(None) {
          AwaitFrame(size, t2, id, abandon, cleanup, events[1..]);
        }
      }
    }
  }

  lemma WriteFrameFrame(t: Transport, written: Written, cleanup: bool)
    ensures var t1 := WriteFrame(t, written, cleanup).0;
      t1.wire == t.wire && t1.delivered == t.delivered && t1.answers == t.answers && t1.nextId == t.nextId
  {
  }

  /** A request delivers no notification, and what it returns is what it recorded. */
  lemma RequestFrame(size: FrameLength, t: Transport, written: Written, abandon: bool, cleanup: bool,
                     events: seq<Event>)
    ensures var (t1, r) := Request(size, t, written, abandon, cleanup, events);
      && t.wire <= t1.wire && t1.delivered == t.delivered
      && (r.Err? ==> t1.answers == t.answers)
      && (r.Ok? ==>
            |t.wire| < |t1.wire| && t1.answers == t.answers + [Answer(t.nextId, t1.wire[|t1.wire| - 1], r.value)])
  {
    hide Await, WriteFrame;
    if t.nextId < U64_MAX {
      var t0 := t.(nextId := t.nextId + 1);
      WriteFrameFrame(t0, written, cleanup);
      AwaitFrame(size, WriteFrame(t0, written, cleanup).0, t.nextId, abandon, cleanup, events);
    }
  }

  /** The notification a poll returned, if any. */
  function Got(r: Polled): seq<Notification> {
    if r.Ok? && r.value.Some? then [r.value.value] else []
  }

  lemma {:induction false} ListenFrame(t: Transport, cleanup: bool, events: seq<Event>)
    ensures var (t1, r) := Listen(t, cleanup, events);
      t1.delivered == t.delivered + Got(r) && t1.answers == t.answers
    decreases |events|
  {
    hide DecodeNotification, Get, AsU64;
    if events != [] && events[0].Arrived? && AbandonedAt(t, events[0].m).Some? {
      ListenFrame(Forget(Read(t, events[0].m), AbandonedAt(t, events[0].m).value), cleanup, events[1..]);
    }
  }

  lemma ClosedKeeps(t: Transport)
    requires Consistent(t)
    ensures Consistent(Closed(t))
  {
  }

  lemma WriteKeeps(t: Transport, written: Written, cleanup: bool)
    requires Consistent(t) && t.nextId < U64_MAX
    ensures var (t1, e) := WriteFrame(t.(nextId := t.nextId + 1), written, cleanup);
      && Consistent(t1) && t1.nextId == t.nextId + 1 && t1.answers == t.answers && t1.wire == t.wire
      && t1.abandoned == t.abandoned && AllBelow(t.abandoned, t.nextId)
      && (e.None? ==> !t1.outputFailed) && forall i :: 0 <= i < |t1.answers| ==> t1.answers[i].id < t.nextId
  {
  }

  /**
    A request uses an id no request used before, succeeds only with the result of a message
    that bears this id, and delivers no notification.
   */
  lemma RequestKeeps(size: FrameLength, t: Transport, written: Written, abandon: bool, cleanup: bool,
                     events: seq<Event>)
    requires Consistent(t)
    ensures var (t1, r) := Request(size, t, written, abandon, cleanup, events);
      && Consistent(t1) && t.nextId <= t1.nextId && t1.delivered == t.delivered
      && (r.Ok? ==>
            && t1.nextId == t.nextId + 1 && t1.answers != []
            && t1.answers[|t1.answers| - 1].id == t.nextId && t1.answers[|t1.answers| - 1].value == r.value)
  {
    hide Consistent, WriteFrame, Await;
    RequestFrame(size, t, written, abandon, cleanup, events);
    if t.nextId < U64_MAX {
      WriteKeeps(t, written, cleanup);
      var (t1, e) := WriteFrame(t.(nextId := t.nextId + 1), written, cleanup);
      if e.None? {
        AwaitKeeps(size, t1, t.nextId, abandon, cleanup, events);
      }
    }
  }

  lemma {:induction false} ListenKeeps(t: Transport, cleanup: bool, events: seq<Event>)
    requires Consistent(t) && !t.outputFailed && t.pending == []
    ensures var (t1, r) := Listen(t, cleanup, events);
      Consistent(t1) && t1.nextId == t.nextId
    decreases |events|
  {
    hide Consistent;
    if events != [] {
      match events[0]
      case QueueFailed => ClosedKeeps(t);
      case CancelSeen => ClosedKeeps(t);
      case Arrived(m) =>
        if AbandonedAt(t, m).Some? {
          DiscardKeeps(t, m);
          ListenKeeps(Forget(Read(t, m), AbandonedAt(t, m).value), cleanup, events[1..]);
        } else {
          ReadKeeps(t, m);
        }
      case _ =>
    }
  }

  /** A message read by a poll is delivered if it is a notification, and dropped otherwise. */
  lemma ReadKeeps(t: Transport, m: Json)
    requires Consistent(t) && !t.outputFailed && t.pending == []
    ensures DecodeNotification(m).Err? ==> Consistent(Read(t, m))
    ensures DecodeNotification(m).Ok? ==>
      Consistent(Read(t, m).(delivered := t.delivered + [DecodeNotification(m).value]))
  {
    hide DecodeNotification, AnswerFits, WireNotes, PendingSize;
    ReadNote(t, m);
    ReadIdsMatch(t, m);
    assert t.delivered + PendingNotes(t.pending) == t.delivered;
    var n := DecodeNotification(m);
    if n.Ok? {
      assert t.delivered + [n.value] + PendingNotes(t.pending) == t.delivered + [n.value];
    }
  }

  lemma PopKeeps(t: Transport)
    requires Consistent(t) && t.pending != []
    ensures Consistent(t.(pending := t.pending[1..], pendingBytes := Minus(t.pendingBytes, t.pending[0].1),
                   delivered := t.delivered + [t.pending[0].0]))
  {
    assert t.delivered + [t.pending[0].0] + PendingNotes(t.pending[1..]) == t.delivered + PendingNotes(t.pending);
  }

  /** What a poll returns is appended to the delivered notifications, and nothing else is. */
  lemma PollKeeps(t: Transport, cleanup: bool, events: seq<Event>)
    requires Consistent(t)
    ensures var (t1, r) := Poll(t, cleanup, events);
      Consistent(t1) && t1.nextId == t.nextId && t1.delivered == t.delivered + Got(r) && t1.answers == t.answers
  {
    hide Consistent, Listen;
    ListenFrame(t, cleanup, events);
    if t.outputFailed || (events != [] && (events[0].QueueFailed? || events[0].CancelSeen?)) {
      ClosedKeeps(t);
    } else if t.pending != [] {
      PopKeeps(t);
    } else {
      ListenKeeps(t, cleanup, events);
    }
  }

  // ---------------------------------------------------------------- runs

  datatype Operation =
    | DoRequest(written: Written, abandon: bool, cleanup: bool, events: seq<Event>)
    | DoPoll(cleanup: bool, events: seq<Event>)

  function Perform(size: FrameLength, t: Transport, op: Operation): Transport {
    match op
    case DoRequest(written, abandon, cleanup, events) => Request(size, t, written, abandon, cleanup, events).0
    case DoPoll(cleanup, events) => Poll(t, cleanup, events).0
  }

  function RunAll(size: FrameLength, t: Transport, ops: seq<Operation>): Transport
    decreases |ops|
  {
    if ops == [] then t else RunAll(size, Perform(size, t, ops[0]), ops[1..])
  }

  lemma {:induction false} RunKeeps(size: FrameLength, t: Transport, ops: seq<Operation>)
    requires Consistent(t)
    ensures Consistent(RunAll(size, t, ops))
    decreases |ops|
  {
    hide Consistent, Request, Poll;
    if ops != [] {
      match ops[0] {
        case DoRequest(written, abandon, cleanup, events) => RequestKeeps(size, t, written, abandon, cleanup, events);
        case DoPoll(cleanup, events) => PollKeeps(t, cleanup, events);
      }
      RunKeeps(size, Perform(size, t, ops[0]), ops[1..]);
    }
  }

  /** The notifications that the polls of a run returned, in order. */
  function PolledNotes(size: FrameLength, t: Transport, ops: seq<Operation>): seq<Notification>
    decreases |ops|
  {
    if ops == [] then []
    else
      (if ops[0].DoPoll? then Got(Poll(t, ops[0].cleanup, ops[0].events).1) else [])
      + PolledNotes(size, Perform(size, t, ops[0]), ops[1..])
  }

  /** The id a request used and the value it returned, if it succeeded. */
  function Replied(size: FrameLength, t: Transport, op: Operation): seq<(nat, Json)> {
    if !op.DoRequest? then []
    else
      var r := Request(size, t, op.written, op.abandon, op.cleanup, op.events).1;
      if r.Ok? then [(t.nextId, r.value)] else []
  }

  /** The ids and values of all successful requests of a run, in order. */
  function Replies(size: FrameLength, t: Transport, ops: seq<Operation>): seq<(nat, Json)>
    decreases |ops|
  {
    if ops == [] then [] else Replied(size, t, ops[0]) + Replies(size, Perform(size, t, ops[0]), ops[1..])
  }

  function AsReplies(answers: seq<Answer>): (r: seq<(nat, Json)>)
    ensures |r| == |answers| && forall i :: 0 <= i < |r| ==> r[i] == (answers[i].id, answers[i].value)
  {
    seq(|answers|, i requires 0 <= i < |answers| => (answers[i].id, answers[i].value))
  }

  lemma StepReturns(size: FrameLength, t: Transport, op: Operation)
    requires Consistent(t)
    ensures var t1 := Perform(size, t, op);
      && Consistent(t1)
      && t1.delivered == t.delivered + (if op.DoPoll? then Got(Poll(t, op.cleanup, op.events).1) else [])
      && AsReplies(t1.answers) == AsReplies(t.answers) + Replied(size, t, op)
  {
    hide Consistent, Request, Poll;
    match op
    case DoRequest(written, abandon, cleanup, events) =>
      RequestKeeps(size, t, written, abandon, cleanup, events);
      RequestFrame(size, t, written, abandon, cleanup, events);
    case DoPoll(cleanup, events) =>
      PollKeeps(t, cleanup, events);
  }

  /** The history of a run is what its calls returned. */
  lemma {:induction false} RunReturns(size: FrameLength, t: Transport, ops: seq<Operation>)
    requires Consistent(t)
    ensures RunAll(size, t, ops).delivered == t.delivered + PolledNotes(size, t, ops)
    ensures AsReplies(RunAll(size, t, ops).answers) == AsReplies(t.answers) + Replies(size, t, ops)
    decreases |ops|
  {
    hide Consistent, Perform, Poll, Replied;
    if ops != [] {
      StepReturns(size, t, ops[0]);
      RunReturns(size, Perform(size, t, ops[0]), ops[1..]);
    }
  }

  lemma InitialIsConsistent()
    ensures Consistent(INITIAL)
  {
  }

  /** Some message read has this id and this result, and no error. */
  ghost predicate IsReplyOf(wire: seq<Json>, reply: (nat, Json)) {
    exists m :: AnswerFits(wire, Answer(reply.0, m, reply.1))
  }

  /** What consistency says about the replies given so far. */
  lemma ConsistentReplies(t: Transport, i: nat, j: nat)
    requires IdsMatch(t)
    ensures var replies := AsReplies(t.answers);
      && (i < |replies| ==> IsReplyOf(t.wire, replies[i]))
      && (i < j < |replies| ==> replies[i].0 != replies[j].0)
  {
    hide AnswerFits;
    if i < |t.answers| {
      var a := t.answers[i];
      assert AnswerFits(t.wire, Answer(a.id, a.message, a.value));
    }
  }

  lemma NotesInWireOrder(size: FrameLength, ops: seq<Operation>)
    ensures var t, notes := RunAll(size, INITIAL, ops), PolledNotes(size, INITIAL, ops);
      && (!t.outputFailed ==> notes + PendingNotes(t.pending) == WireNotes(t.wire))
      && notes + PendingNotes(t.pending) <= WireNotes(t.wire)
  {
    hide RunAll, PolledNotes, Replies, WireNotes, IdsMatch, WithinLimits, PendingNotes, AsReplies;
    InitialIsConsistent();
    RunKeeps(size, INITIAL, ops);
    RunReturns(size, INITIAL, ops);
  }

  /** Notifications that begin those of the wire stand at the first places of those. */
  lemma NotesAreOnTheWire(t: Transport, notes: seq<Notification>)
    requires var all := notes + PendingNotes(t.pending);
      if t.outputFailed then all <= WireNotes(t.wire) else all == WireNotes(t.wire)
    ensures exists places :: NotesAt(t.wire, notes + PendingNotes(t.pending), places)
                             && (!t.outputFailed ==> NoNoteElsewhere(t.wire, places))
  {
    hide WireNotes, BearsNote, PendingNotes;
    var all := notes + PendingNotes(t.pending);
    var places := WireNotesMean(t.wire);
    assert NotesAt(t.wire, all, places[..|all|]);
    assert !t.outputFailed ==> places[..|all|] == places;
  }

  lemma RepliesBearTheirIds(size: FrameLength, ops: seq<Operation>, i: nat, j: nat)
    ensures var t, replies := RunAll(size, INITIAL, ops), Replies(size, INITIAL, ops);
      && (i < |replies| ==> IsReplyOf(t.wire, replies[i]))
      && (i < j < |replies| ==> replies[i].0 != replies[j].0)
  {
    hide RunAll, PolledNotes, Replies, InWireOrder, WithinLimits, IdsMatch, IsReplyOf;
    InitialIsConsistent();
    RunKeeps(size, INITIAL, ops);
    RunReturns(size, INITIAL, ops);
    assert AsReplies(INITIAL.answers) == [];
    ConsistentReplies(RunAll(size, INITIAL, ops), i, j);
  }

  lemma LimitsHold(size: FrameLength, ops: seq<Operation>)
    ensures WithinLimits(RunAll(size, INITIAL, ops))
  {
    hide RunAll, InWireOrder, WithinLimits, IdsMatch;
    InitialIsConsistent();
    RunKeeps(size, INITIAL, ops);
  }

  /**
    Over any interleaving of requests, timed-out requests and polls: what the polls returned,
    followed by what is deferred, is the notifications on the wire, in order, until routing
    fails, and a prefix of those afterwards, each with the method and params of its message;
    the requests that
    succeeded returned the results of messages bearing their own ids, which all differ.
   */
  lemma EveryRunKeepsOrder(size: FrameLength, ops: seq<Operation>, i: nat, j: nat)
    ensures var t, notes := RunAll(size, INITIAL, ops), PolledNotes(size, INITIAL, ops);
      var replies := Replies(size, INITIAL, ops);
      && (!t.outputFailed ==> notes + PendingNotes(t.pending) == WireNotes(t.wire))
      && notes <= WireNotes(t.wire)
      && (exists places :: NotesAt(t.wire, notes + PendingNotes(t.pending), places)
                           && (!t.outputFailed ==> NoNoteElsewhere(t.wire, places)))
      && (i < |replies| ==> IsReplyOf(t.wire, replies[i]))
      && (i < j < |replies| ==> replies[i].0 != replies[j].0)
      && |t.pending| <= 128 && t.pendingBytes <= 16_777_216 && |t.abandoned| <= 64
  {
    hide RunAll, PolledNotes, Replies, WireNotes, PendingNotes, PendingSize, IsReplyOf, NotesAt, NoNoteElsewhere;
    NotesInWireOrder(size, ops);
    NotesAreOnTheWire(RunAll(size, INITIAL, ops), PolledNotes(size, INITIAL, ops));
    RepliesBearTheirIds(size, ops, i, j);
    LimitsHold(size, ops);
  }

  // ---------------------------------------------------------------- the transport object

  lemma TailOf(events: seq<Event>, i: nat)
    requires i < |events|
    ensures events[i..] != [] && events[i..][0] == events[i] && events[i..][1..] == events[i + 1..]
  {
  }

  /** One event of a waiting request that does not end it. */
  lemma AwaitContinues(size: FrameLength, t: Transport, id: nat, abandon: bool, cleanup: bool,
                       events: seq<Event>, i: nat)
    requires i < |events|
    ensures events[i].Inactive? ==>
      Await(size, t, id, abandon, cleanup, events[i..]) == Await(size, t, id, abandon, cleanup, events[i + 1..])
    ensures events[i].Arrived? && AbandonedAt(t, events[i].m).Some? ==>
      Await(size, t, id, abandon, cleanup, events[i..])
      == Await(size, Forget(Read(t, events[i].m), AbandonedAt(t, events[i].m).value), id, abandon, cleanup,
               events[i + 1..])
    ensures events[i].Arrived? && AbandonedAt(t, events[i].m).None?
            && Route(size, Read(t, events[i].m), events[i].m, id).1 == Ok(None) ==>
      Await(size, t, id, abandon, cleanup, events[i..])
      == Await(size, Route(size, Read(t, events[i].m), events[i].m, id).0, id, abandon, cleanup, events[i + 1..])
  {
    hide Route, AbandonedAt;
    TailOf(events, i);
  }

  lemma AwaitEnds(size: FrameLength, t: Transport, id: nat, abandon: bool, cleanup: bool, events: seq<Event>, i: nat)
    requires i <= |events|
    ensures i == |events| || events[i].Expired? ==>
      Await(size, t, id, abandon, cleanup, events[i..]) == (if abandon then Remember(t, id) else t, Err(TimedOut))
    ensures i < |events| && events[i].QueueFailed? ==>
      Await(size, t, id, abandon, cleanup, events[i..]) == (Closed(t), Err(Unavailable))
    ensures i < |events| && events[i].CancelSeen? ==>
      Await(size, t, id, abandon, cleanup, events[i..]) == (Closed(t), Err(AfterCleanup(cleanup, Cancelled)))
    ensures i < |events| && events[i].Disconnected? ==>
      Await(size, t, id, abandon, cleanup, events[i..]) == (t, Err(Unavailable))
    ensures i < |events| && events[i].ReaderFailed? ==>
      Await(size, t, id, abandon, cleanup, events[i..])
      == (if abandon && events[i].e == TimedOut then Remember(t, id) else t, Err(events[i].e))
    ensures i < |events| && events[i].Arrived? && AbandonedAt(t, events[i].m).None? ==>
      var (t2, routed) := Route(size, Read(t, events[i].m), events[i].m, id);
      && (routed.Err? ==>
            Await(size, t, id, abandon, cleanup, events[i..])
            == (Closed(t2.(outputFailed := true)), Err(AfterCleanup(cleanup, routed.error))))
      && (routed.Ok? && routed.value.Some? ==>
            Await(size, t, id, abandon, cleanup, events[i..])
            == (t2.(answers := t2.answers + [Answer(id, events[i].m, routed.value.value)]), Ok(routed.value.value)))
  {
    hide Route, AbandonedAt;
    if i < |events| {
      TailOf(events, i);
    }
  }

  class StdioTransport {
    const size: FrameLength
    var nextId: nat
    var outputFailed: bool
    var stdinOpen: bool
    var pending: seq<(Notification, nat)>
    var pendingBytes: nat
    var abandoned: seq<nat>
    ghost var wire: seq<Json>
    ghost var delivered: seq<Notification>
    ghost var answers: seq<Answer>

    ghost function Value(): Transport
      reads this
    {
      Transport(nextId, outputFailed, stdinOpen, pending, pendingBytes, abandoned, wire, delivered, answers)
    }

    ghost predicate Valid()
      reads this
    {
      Consistent(Value())
    }

    constructor (size: FrameLength)
      ensures this.size == size && Value() == INITIAL && Valid()
    {
      this.size := size;
      nextId, outputFailed, stdinOpen, pending, pendingBytes, abandoned := 0, false, true, [], 0, [];
      wire, delivered, answers := [], [], [];
    }

    /** `request_inner`: writes the request, then reads until its reply, an error or the deadline. */
    method RequestInner(written: Written, abandonOnTimeout: bool, cleanup: bool, events: seq<Event>)
      returns (r: Response)
      requires Valid()
      modifies this
      ensures Valid()
      ensures (Value(), r) == Request(size, old(Value()), written, abandonOnTimeout, cleanup, events)
      ensures old(wire) <= wire
      ensures r.Ok? ==> exists m :: m in wire[|old(wire)|..] && AnswerFits(wire, Answer(old(nextId), m, r.value))
    {
      hide Consistent, Await, AnswerFits, WriteFrame;
      RequestFacts(size, Value(), written, abandonOnTimeout, cleanup, events);
      if nextId >= U64_MAX {
        return Err(ProtocolDrift);
      }
      var id := nextId;
      nextId := nextId + 1;
      var refused := WriteMessage(written, cleanup);
      if refused.Some? {
        return Err(refused.value);
      }
      r := AwaitReply(id, abandonOnTimeout, cleanup, events);
    }

    /** The loop of `request_inner`. */
    method AwaitReply(id: nat, abandonOnTimeout: bool, cleanup: bool, events: seq<Event>) returns (r: Response)
      modifies this
      ensures (Value(), r) == Await(size, old(Value()), id, abandonOnTimeout, cleanup, events)
    {
      hide Await, Route, AbandonedAt;
      ghost var goal := Await(size, Value(), id, abandonOnTimeout, cleanup, events);
      assert events[0..] == events;
      for i := 0 to |events|
        invariant Await(size, Value(), id, abandonOnTimeout, cleanup, events[i..]) == goal
      {
        AwaitEnds(size, Value(), id, abandonOnTimeout, cleanup, events, i);
        AwaitContinues(size, Value(), id, abandonOnTimeout, cleanup, events, i);
        match events[i] {
          case QueueFailed =>
            stdinOpen := false;
            return Err(Unavailable);
          case CancelSeen =>
            stdinOpen := false;
            return Err(AfterCleanup(cleanup, Cancelled));
          case Expired =>
            if abandonOnTimeout {
              RememberAbandoned(id);
            }
            return Err(TimedOut);
          case ReaderFailed(e) =>
            if abandonOnTimeout && e == TimedOut {
              RememberAbandoned(id);
            }
            return Err(e);
          case Disconnected =>
            return Err(Unavailable);
          case Inactive =>
          case Arrived(m) =>
            var discarded := DiscardAbandoned(m);
            if !discarded {
              var routed := RouteMessage(m, id);
              if routed.Err? {
                outputFailed := true;
                stdinOpen := false;
                return Err(AfterCleanup(cleanup, routed.error));
              }
              if routed.value.Some? {
                answers := answers + [Answer(id, m, routed.value.value)];
                return Ok(routed.value.value);
              }
            }
        }
      }
      AwaitEnds(size, Value(), id, abandonOnTimeout, cleanup, events, |events|);
      if abandonOnTimeout {
        RememberAbandoned(id);
      }
      return Err(TimedOut);
    }

    method WriteMessage(written: Written, cleanup: bool) returns (refused: Option<TransportError>)
      modifies this`stdinOpen
      ensures (Value(), refused) == WriteFrame(old(Value()), written, cleanup)
    {
      if outputFailed || written.RefusedQueueFailed? {
        stdinOpen := false;
        return Some(Unavailable);
      }
      if written.RefusedCancelled? {
        stdinOpen := false;
        return Some(AfterCleanup(cleanup, Cancelled));
      }
      if written.TooLong? {
        return Some(ProtocolDrift);
      }
      if !stdinOpen {
        return Some(Unavailable);
      }
      if written.Accepted? {
        return None;
      }
      stdinOpen := false;
      match written {
        case Interrupted => return Some(AfterCleanup(cleanup, Cancelled));
        case Late => return Some(AfterCleanup(cleanup, TimedOut));
        case _ => return Some(Unavailable);
      }
    }

    method RememberAbandoned(id: nat)
      modifies this`abandoned
      ensures Value() == Remember(old(Value()), id)
    {
      if |abandoned| == MAX_ABANDONED_REQUESTS {
        abandoned := abandoned[1..];
      }
      abandoned := abandoned + [id];
    }

    /** `discard_abandoned_response`, counting the message as read if it is discarded. */
    method DiscardAbandoned(m: Json) returns (discarded: bool)
      modifies this`abandoned, this`wire
      ensures discarded <==> AbandonedAt(old(Value()), m).Some?
      ensures Value() ==
        if discarded then Forget(Read(old(Value()), m), AbandonedAt(old(Value()), m).value) else Read(old(Value()), m)
    {
      var id := AsU64(Get(m, "id"));
      wire := wire + [m];
      if id.None? {
        return false;
      }
      var position := IndexOf(abandoned, id.value);
      if position == |abandoned| {
        return false;
      }
      abandoned := abandoned[..position] + abandoned[position + 1..];
      return true;
    }

    /** `route_request_message` */
    method RouteMessage(m: Json, id: nat) returns (r: Result<Option<Json>, TransportError>)
      modifies this`pending, this`pendingBytes
      ensures (Value(), r) == Route(size, old(Value()), m, id)
    {
      var bytes := size(m);
      if bytes > MAX_INPUT_FRAME_BYTES {
        return Err(ProtocolDrift);
      }
      var d := DecodeResponse(m, id);
      if d.Err? {
        return Err(d.error);
      }
      if d.value.Reply? {
        return Ok(Some(d.value.value));
      }
      if |pending| >= OUTPUT_QUEUE_ITEMS || bytes > Minus(OUTPUT_QUEUE_BYTES, pendingBytes) {
        return Err(ProtocolDrift);
      }
      pendingBytes := pendingBytes + bytes;
      pending := pending + [(d.value.n, bytes)];
      return Ok(None);
    }

    /** `poll_notification`: a deferred notification first, then what the wire brings. */
    method PollNotification(cleanup: bool, events: seq<Event>) returns (r: Polled)
      requires Valid()
      modifies this
      ensures Valid()
      ensures (Value(), r) == Poll(old(Value()), cleanup, events)
      ensures delivered == old(delivered) + Got(r)
    {
      hide Consistent, Listen, AbandonedAt, DecodeNotification;
      PollKeeps(Value(), cleanup, events);
      if outputFailed || (events != [] && events[0].QueueFailed?) {
        stdinOpen := false;
        return Err(Unavailable);
      }
      if events != [] && events[0].CancelSeen? {
        stdinOpen := false;
        return Err(AfterCleanup(cleanup, Cancelled));
      }
      if pending != [] {
        var (n, bytes) := pending[0];
        pending, pendingBytes := pending[1..], Minus(pendingBytes, bytes);
        delivered := delivered + [n];
        return Ok(Some(n));
      }
      ghost var begun := Value();
      assert events[0..] == events;
      for i := 0 to |events|
        invariant Listen(Value(), cleanup, events[i..]) == Listen(begun, cleanup, events)
      {
        ListenUnfolds(Value(), cleanup, events, i);
        match events[i] {
          case QueueFailed =>
            stdinOpen := false;
            return Err(Unavailable);
          case CancelSeen =>
            stdinOpen := false;
            return Err(AfterCleanup(cleanup, Cancelled));
          case Expired => return Ok(None);
          case Inactive => return Err(TimedOut);
          case ReaderFailed(e) => return Err(e);
          case Disconnected => return Err(Unavailable);
          case Arrived(m) =>
            var discarded := DiscardAbandoned(m);
            if !discarded {
              var n := DecodeNotification(m);
              if n.Err? {
                return Err(n.error);
              }
              delivered := delivered + [n.value];
              return Ok(Some(n.value));
            }
        }
      }
      ListenNothing(Value(), cleanup, events[|events|..]);
      return Ok(None);
    }
  }

  lemma ListenNothing(t: Transport, cleanup: bool, events: seq<Event>)
    requires events == []
    ensures Listen(t, cleanup, events) == (t, Ok(None))
  {
  }

  /** What a poll makes of a message that replies to no abandoned request. */
  function Heard(t: Transport, n: Result<Notification, TransportError>): (Transport, Polled) {
    if n.Err? then (t, Err(n.error)) else (t.(delivered := t.delivered + [n.value]), Ok(Some(n.value)))
  }

  lemma ListenUnfolds(t: Transport, cleanup: bool, events: seq<Event>, i: nat)
    requires i < |events|
    ensures events[i].QueueFailed? ==> Listen(t, cleanup, events[i..]) == (Closed(t), Err(Unavailable))
    ensures events[i].CancelSeen? ==>
      Listen(t, cleanup, events[i..]) == (Closed(t), Err(AfterCleanup(cleanup, Cancelled)))
    ensures events[i].Expired? ==> Listen(t, cleanup, events[i..]) == (t, Ok(None))
    ensures events[i].Inactive? ==> Listen(t, cleanup, events[i..]) == (t, Err(TimedOut))
    ensures events[i].ReaderFailed? ==> Listen(t, cleanup, events[i..]) == (t, Err(events[i].e))
    ensures events[i].Disconnected? ==> Listen(t, cleanup, events[i..]) == (t, Err(Unavailable))
    ensures events[i].Arrived? ==>
      Listen(t, cleanup, events[i..]) ==
        if AbandonedAt(t, events[i].m).Some?
        then Listen(Forget(Read(t, events[i].m), AbandonedAt(t, events[i].m).value), cleanup, events[i + 1..])
        else Heard(Read(t, events[i].m), DecodeNotification(events[i].m))
  {
    hide AbandonedAt, DecodeNotification;
    TailOf(events, i);
  }

  /** A successful request's value is the result of a message read during it that bears its id. */
  lemma RequestAnswers(size: FrameLength, t: Transport, written: Written, abandon: bool, cleanup: bool,
                       events: seq<Event>)
    requires Consistent(t) && Request(size, t, written, abandon, cleanup, events).1.Ok?
    ensures var (t1, r) := Request(size, t, written, abandon, cleanup, events);
      && t.wire <= t1.wire
      && exists m :: m in t1.wire[|t.wire|..] && AnswerFits(t1.wire, Answer(t.nextId, m, r.value))
  {
    hide Request, AnswerFits;
    RequestKeeps(size, t, written, abandon, cleanup, events);
    RequestFrame(size, t, written, abandon, cleanup, events);
    var (t1, r) := Request(size, t, written, abandon, cleanup, events);
    var m := t1.wire[|t1.wire| - 1];
    assert AnswerFits(t1.wire, t1.answers[|t1.answers| - 1]);
    assert m in t1.wire[|t.wire|..];
  }

  lemma RequestFacts(size: FrameLength, t: Transport, written: Written, abandon: bool, cleanup: bool,
                     events: seq<Event>)
    requires Consistent(t)
    ensures var (t1, r) := Request(size, t, written, abandon, cleanup, events);
      && Consistent(t1) && t.wire <= t1.wire
      && (r.Ok? ==> exists m :: m in t1.wire[|t.wire|..] && AnswerFits(t1.wire, Answer(t.nextId, m, r.value)))
  {
    hide Consistent, Request, AnswerFits;
    RequestKeeps(size, t, written, abandon, cleanup, events);
    RequestFrame(size, t, written, abandon, cleanup, events);
    if Request(size, t, written, abandon, cleanup, events).1.Ok? {
      RequestAnswers(size, t, written, abandon, cleanup, events);
    }
  }
}
