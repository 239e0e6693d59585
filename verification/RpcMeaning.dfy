/** How a request ends when it does not succeed: rejections, malformed replies and cancellation. */
module RpcMeaning {
  import opened Prelude
  import opened RpcTransport

  /** A message that replies to this request and has this field. */
  predicate RepliesWith(m: Json, id: nat, key: string, value: Json) {
    && m.Object? && "id" in m.fields && m.fields["id"] == Number(id) && id <= 18_446_744_073_709_551_615
    && key in m.fields && m.fields[key] == value
  }

  /** An error object with a whole-number code and a message that is not empty (JSON-RPC 2.0, section 5.1). */
  predicate IsRejection(error: Json, code: int) {
    && error.Object? && "code" in error.fields && error.fields["code"] == Number(code)
    && -9_223_372_036_854_775_808 <= code <= 9_223_372_036_854_775_807
    && "message" in error.fields && error.fields["message"].Text? && error.fields["message"].s != ""
  }

  lemma RejectionMeans(error: Json)
    ensures forall code :: IsRejection(error, code) ==> DecodeRejection(error) == RemoteRejected(code, code == -32001)
    ensures (forall code :: !IsRejection(error, code)) ==> DecodeRejection(error) == ProtocolDrift
  {
    var code := AsI64(Get(error, "code"));
    if code.Some? && AsText(Get(error, "message")).Some? && AsText(Get(error, "message")).value != "" {
      assert IsRejection(error, code.value);
    }
  }

  /** The transport as a failed reply leaves it. */
  ghost predicate FailsWith(t: Transport, m: Json, step: (Transport, Response), cleanup: bool, e: TransportError) {
    && step.1 == Err(if cleanup then e else Unavailable)
    && step.0 == t.(wire := t.wire + [m], outputFailed := true, stdinOpen := false)
  }

  /** A rejected request returns the provider's code and whether to retry, and closes the transport. */
  lemma RejectionFailsRequest(size: FrameLength, t: Transport, id: nat, abandon: bool, cleanup: bool, m: Json,
                              error: Json, rest: seq<Event>)
    requires RepliesWith(m, id, "error", error) && id !in t.abandoned && size(m) <= 8_388_608
    ensures var step := Await(size, t, id, abandon, cleanup, [Arrived(m)] + rest);
      && (forall code :: IsRejection(error, code) ==>
            FailsWith(t, m, step, cleanup, RemoteRejected(code, code == -32001)))
      && ((forall code :: !IsRejection(error, code)) ==> FailsWith(t, m, step, cleanup, ProtocolDrift))
  {
    hide DecodeRejection, IsRejection;
    var events := [Arrived(m)] + rest;
    assert events[0] == Arrived(m);
    NotAbandoned(t, m, id);
    RejectionMeans(error);
    assert Get(m, "error") == Some(error) && AsU64(Get(m, "id")) == Some(id);
  }

  lemma NotAbandoned(t: Transport, m: Json, id: nat)
    requires AsU64(Get(m, "id")) == Some(id) && id !in t.abandoned
    ensures AbandonedAt(t, m).None?
  {
  }

  /** Only this much of a message can be read as one; anything larger is drift. */
  lemma OversizedFailsRequest(size: FrameLength, t: Transport, id: nat, abandon: bool, cleanup: bool, m: Json,
                              rest: seq<Event>)
    requires size(m) > 8_388_608 && AbandonedAt(t, m).None?
    ensures FailsWith(t, m, Await(size, t, id, abandon, cleanup, [Arrived(m)] + rest), cleanup, ProtocolDrift)
  {
    var events := [Arrived(m)] + rest;
    assert events[0] == Arrived(m);
  }

  /** A reply with neither result nor error, and a message that is neither reply nor notification, are drift. */
  lemma MalformedFailsRequest(size: FrameLength, t: Transport, id: nat, abandon: bool, cleanup: bool, m: Json,
                              rest: seq<Event>)
    requires AbandonedAt(t, m).None? && size(m) <= 8_388_608
    requires forall value :: !RepliesWith(m, id, "result", value) && !RepliesWith(m, id, "error", value)
    requires forall n :: !BearsNote(m, n)
    ensures FailsWith(t, m, Await(size, t, id, abandon, cleanup, [Arrived(m)] + rest), cleanup, ProtocolDrift)
  {
    hide BearsNote, AbandonedAt, Blank;
    var events := [Arrived(m)] + rest;
    assert events[0] == Arrived(m);
    NoNote(m);
    NoReply(m, id);
  }

  lemma NoNote(m: Json)
    requires forall n :: !BearsNote(m, n)
    ensures DecodeNotification(m) == Err(ProtocolDrift)
  {
    hide BearsNote, Get;
    if DecodeNotification(m).Ok? {
      NoteExactlyWhen(m, DecodeNotification(m).value);
    }
  }

  lemma NoReply(m: Json, id: nat)
    requires forall value :: !RepliesWith(m, id, "result", value) && !RepliesWith(m, id, "error", value)
    ensures AsU64(Get(m, "id")) == Some(id) ==> Get(m, "result").None? && Get(m, "error").None?
  {
    if AsU64(Get(m, "id")) == Some(id) && Get(m, "result").Some? {
      assert RepliesWith(m, id, "result", Get(m, "result").value);
    }
    if AsU64(Get(m, "id")) == Some(id) && Get(m, "error").Some? {
      assert RepliesWith(m, id, "error", Get(m, "error").value);
    }
  }

  /** A notification that does not fit what may be deferred fails the request, too. */
  lemma FloodFailsRequest(size: FrameLength, t: Transport, id: nat, abandon: bool, cleanup: bool, m: Json,
                          n: Notification, rest: seq<Event>)
    requires BearsNote(m, n) && size(m) <= 8_388_608
    requires t.pendingBytes <= 16_777_216 && (|t.pending| >= 128 || t.pendingBytes + size(m) > 16_777_216)
    ensures FailsWith(t, m, Await(size, t, id, abandon, cleanup, [Arrived(m)] + rest), cleanup, ProtocolDrift)
  {
    hide Blank, AbandonedAt, BearsNote, Get, AsU64;
    NoteExactlyWhen(m, n);
    NoteIsNoReply(t, m, n);
    assert DecodeResponse(m, id) == Ok(Deferred(n));
    assert Route(size, Read(t, m), m, id) == (Read(t, m), Err(ProtocolDrift));
    var events := [Arrived(m)] + rest;
    assert events[0] == Arrived(m);
  }

  lemma NoteIsNoReply(t: Transport, m: Json, n: Notification)
    requires BearsNote(m, n)
    ensures AbandonedAt(t, m).None? && Get(m, "id").None?
  {
    hide Blank;
  }

  /** How waiting ends without a message. */
  lemma WaitEndsWithout(size: FrameLength, t: Transport, id: nat, abandon: bool, cleanup: bool, rest: seq<Event>)
    ensures Await(size, t, id, abandon, cleanup, [CancelSeen] + rest)
            == (t.(stdinOpen := false), Err(if cleanup then Cancelled else Unavailable))
    ensures Await(size, t, id, abandon, cleanup, [QueueFailed] + rest) == (t.(stdinOpen := false), Err(Unavailable))
    ensures Await(size, t, id, abandon, cleanup, [Disconnected] + rest) == (t, Err(Unavailable))
    ensures var step := Await(size, t, id, abandon, cleanup, [Expired] + rest);
      && step.1 == Err(TimedOut) && step.0 == t.(abandoned := step.0.abandoned)
      && (abandon ==> id in step.0.abandoned) && (!abandon ==> step.0.abandoned == t.abandoned)
    ensures forall e :: e != TimedOut || !abandon ==>
      Await(size, t, id, abandon, cleanup, [ReaderFailed(e)] + rest) == (t, Err(e))
  {
    hide AbandonedAt, Route;
    assert forall e: Event :: ([e] + rest)[0] == e;
    var all := [Expired] + rest;
    assert all[0] == Expired;
    if abandon {
      var ids := Remember(t, id).abandoned;
      assert ids[|ids| - 1] == id;
    }
  }

  /** When a frame can be written, and what becomes of the transport when it cannot. */
  lemma WritingMeans(t: Transport, written: Written, cleanup: bool)
    ensures var (t1, e) := WriteFrame(t, written, cleanup);
      && (e.None? <==> !t.outputFailed && t.stdinOpen && written == Accepted)
      && (e.None? ==> t1 == t)
      && (t.outputFailed || written == RefusedQueueFailed ==> e == Some(Unavailable) && t1 == t.(stdinOpen := false))
      && (!t.outputFailed && written == RefusedCancelled ==>
            e == Some(if cleanup then Cancelled else Unavailable) && t1 == t.(stdinOpen := false))
      && (!t.outputFailed && written == TooLong ==> e == Some(ProtocolDrift) && t1 == t)
      && (!t.outputFailed && !t.stdinOpen && written in {Accepted, Interrupted, Late, Broken} ==>
            e == Some(Unavailable) && t1 == t)
      && (!t.outputFailed && t.stdinOpen && written in {Interrupted, Late, Broken} ==>
            && t1 == t.(stdinOpen := false)
            && e == Some(if !cleanup || written == Broken then Unavailable
                         else if written == Late then TimedOut else Cancelled))
  {
  }

  /** How a poll with nothing deferred ends. */
  lemma PollEnds(t: Transport, cleanup: bool, rest: seq<Event>)
    requires !t.outputFailed && t.pending == []
    ensures Poll(t, cleanup, []) == (t, Ok(None)) && Poll(t, cleanup, [Expired] + rest) == (t, Ok(None))
    ensures Poll(t, cleanup, [Inactive] + rest) == (t, Err(TimedOut))
    ensures Poll(t, cleanup, [Disconnected] + rest) == (t, Err(Unavailable))
    ensures Poll(t, cleanup, [QueueFailed] + rest) == (t.(stdinOpen := false), Err(Unavailable))
    ensures Poll(t, cleanup, [CancelSeen] + rest)
            == (t.(stdinOpen := false), Err(if cleanup then Cancelled else Unavailable))
  {
    assert forall e: Event :: ([e] + rest)[0] == e && [e] + rest != [];
  }

  /** A poll returns the notification a message bears; any other message that is no late reply is drift. */
  lemma PollReads(t: Transport, cleanup: bool, m: Json, rest: seq<Event>)
    requires !t.outputFailed && t.pending == [] && AbandonedAt(t, m).None?
    ensures forall n :: BearsNote(m, n) ==>
      Poll(t, cleanup, [Arrived(m)] + rest) == (t.(wire := t.wire + [m], delivered := t.delivered + [n]), Ok(Some(n)))
    ensures (forall n :: !BearsNote(m, n)) ==>
      Poll(t, cleanup, [Arrived(m)] + rest) == (t.(wire := t.wire + [m]), Err(ProtocolDrift))
  {
    hide BearsNote, AbandonedAt, DecodeNotification;
    var events := [Arrived(m)] + rest;
    assert events[0] == Arrived(m);
    forall n
      ensures DecodeNotification(m) == Ok(n) <==> BearsNote(m, n)
    {
      NoteExactlyWhen(m, n);
    }
    if forall n :: !BearsNote(m, n) {
      NoNote(m);
    }
  }

  /** Deferred notifications are returned first, oldest first, whatever else there is to see. */
  lemma PollReturnsDeferred(t: Transport, cleanup: bool, events: seq<Event>)
    requires !t.outputFailed && t.pending != [] && t.pending[0].1 <= t.pendingBytes
    requires events == [] || !(events[0].QueueFailed? || events[0].CancelSeen?)
    ensures var n := t.pending[0].0;
      Poll(t, cleanup, events) ==
        (t.(pending := t.pending[1..], pendingBytes := t.pendingBytes - t.pending[0].1,
            delivered := t.delivered + [n]), Ok(Some(n)))
  {
  }
}
