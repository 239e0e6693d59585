/** Exactly when a request succeeds, and exactly when a late reply does no harm. */
module RequestCompletion {
  import opened Prelude
  import opened OutputQueue
  import opened FrameBuffer
  import opened RpcTransport

  // ---------------------------------------------------------------- what may come before the reply

  /** The message replies to one of these requests. */
  predicate RepliesToAny(ids: seq<nat>, m: Json) {
    AsU64(Get(m, "id")).Some? && AsU64(Get(m, "id")).value in ids
  }

  predicate IsNote(e: Event) {
    e.Arrived? && DecodeNotification(e.m).Ok?
  }

  /** What a waiting request takes in its stride: nothing new, a late reply, or a notification. */
  predicate Passing(size: FrameLength, abandoned: seq<nat>, e: Event) {
    || e.Inactive?
    || (e.Arrived? && RepliesToAny(abandoned, e.m))
    || (IsNote(e) && size(e.m) <= MAX_INPUT_FRAME_BYTES)
  }

  ghost predicate AllPassing(size: FrameLength, abandoned: seq<nat>, events: seq<Event>) {
    forall i :: 0 <= i < |events| ==> Passing(size, abandoned, events[i])
  }

  /** The id a message bears, if it does. */
  function IdOf(e: Event): Option<nat> {
    if e.Arrived? then AsU64(Get(e.m, "id")) else None
  }

  /** No two of the messages bear the same id. */
  ghost predicate IdsDiffer(events: seq<Event>) {
    forall i, j :: 0 <= i < j < |events| && IdOf(events[i]).Some? ==> IdOf(events[i]) != IdOf(events[j])
  }

  function NotesAmong(events: seq<Event>): nat {
    if events == [] then 0 else (if IsNote(events[0]) then 1 else 0) + NotesAmong(events[1..])
  }

  function NoteBytes(size: FrameLength, events: seq<Event>): nat {
    if events == [] then 0 else (if IsNote(events[0]) then size(events[0].m) else 0) + NoteBytes(size, events[1..])
  }

  /** All the events pass, no late reply comes twice, and the notifications fit what is free. */
  ghost predicate PassBy(size: FrameLength, t: Transport, events: seq<Event>) {
    && AllPassing(size, t.abandoned, events) && IdsDiffer(events)
    && |t.pending| + NotesAmong(events) <= OUTPUT_QUEUE_ITEMS
    && t.pendingBytes + NoteBytes(size, events) <= OUTPUT_QUEUE_BYTES
  }

  /** The message is a frame that gives request `id` the result `v`. */
  predicate AnswersWith(size: FrameLength, m: Json, id: nat, v: Json) {
    && size(m) <= MAX_INPUT_FRAME_BYTES && AsU64(Get(m, "id")) == Some(id)
    && Get(m, "error").None? && Get(m, "result") == Some(v)
  }

  /** The answer is the event at place `k`, and everything before it passes by. */
  ghost predicate AnsweredAt(size: FrameLength, t: Transport, id: nat, events: seq<Event>, v: Json, k: nat) {
    && k < |events| && events[k].Arrived? && AnswersWith(size, events[k].m, id, v)
    && PassBy(size, t, events[..k])
  }

  // ---------------------------------------------------------------- one event more in front

  lemma PassingHead(size: FrameLength, ids: seq<nat>, e: Event, rest: seq<Event>)
    ensures AllPassing(size, ids, [e] + rest) <==> Passing(size, ids, e) && AllPassing(size, ids, rest)
  {
    hide Passing;
    var all := [e] + rest;
    assert all[0] == e && forall i :: 0 <= i < |rest| ==> all[i + 1] == rest[i];
    if Passing(size, ids, e) && AllPassing(size, ids, rest) {
      forall i | 0 <= i < |all|
        ensures Passing(size, ids, all[i])
      {
        assert i > 0 ==> all[i] == rest[i - 1];
      }
    }
  }

  /** The event's message bears another id than those of the rest. */
  ghost predicate BearsOtherId(id: Option<nat>, rest: seq<Event>) {
    id.Some? ==> forall j :: 0 <= j < |rest| ==> IdOf(rest[j]) != id
  }

  lemma DifferHead(e: Event, rest: seq<Event>)
    ensures IdsDiffer([e] + rest) <==> BearsOtherId(IdOf(e), rest) && IdsDiffer(rest)
  {
    hide IdOf;
    var all := [e] + rest;
    assert all[0] == e && forall i :: 0 <= i < |rest| ==> all[i + 1] == rest[i];
    if BearsOtherId(IdOf(e), rest) && IdsDiffer(rest) {
      forall i, j | 0 <= i < j < |all| && IdOf(all[i]).Some?
        ensures IdOf(all[i]) != IdOf(all[j])
      {
        assert all[j] == rest[j - 1] && (i > 0 ==> all[i] == rest[i - 1]);
      }
    }
  }

  lemma CountHead(size: FrameLength, e: Event, rest: seq<Event>)
    ensures NotesAmong([e] + rest) == (if IsNote(e) then 1 else 0) + NotesAmong(rest)
    ensures NoteBytes(size, [e] + rest) == (if IsNote(e) then size(e.m) else 0) + NoteBytes(size, rest)
  {
    assert ([e] + rest)[1..] == rest;
  }

  lemma NoteHasNoId(e: Event)
    requires IsNote(e)
    ensures IdOf(e).None?
  {
  }

  lemma ForgottenIds(ids: seq<nat>, k: nat, id: nat)
    requires k < |ids| && Rising(ids)
    ensures id in ids[..k] + ids[k + 1..] <==> id in ids && id != ids[k]
  {
    var rest := ids[..k] + ids[k + 1..];
    if id in ids && id != ids[k] {
      var i :| 0 <= i < |ids| && ids[i] == id;
      assert if i < k then rest[i] == id else rest[i - 1] == id;
    }
  }

  /** Once a late reply has been set aside, exactly the other late replies still pass. */
  lemma PassingAfterForget(size: FrameLength, ids: seq<nat>, k: nat, e: Event)
    requires k < |ids| && Rising(ids)
    ensures Passing(size, ids[..k] + ids[k + 1..], e) <==> Passing(size, ids, e) && IdOf(e) != Some(ids[k])
  {
    hide AsU64, Get, DecodeNotification, Rising;
    if IsNote(e) {
      NoteHasNoId(e);
    }
    if IdOf(e).Some? {
      ForgottenIds(ids, k, IdOf(e).value);
    }
  }

  lemma AllPassingAfterForget(size: FrameLength, ids: seq<nat>, k: nat, rest: seq<Event>)
    requires k < |ids| && Rising(ids)
    ensures AllPassing(size, ids[..k] + ids[k + 1..], rest) <==>
      AllPassing(size, ids, rest) && BearsOtherId(Some(ids[k]), rest)
  {
    hide Passing, IdOf, Rising;
    forall i | 0 <= i < |rest|
      ensures Passing(size, ids[..k] + ids[k + 1..], rest[i]) <==>
        Passing(size, ids, rest[i]) && IdOf(rest[i]) != Some(ids[k])
    {
      PassingAfterForget(size, ids, k, rest[i]);
    }
  }

  lemma LateReplyPlace(t: Transport, m: Json)
    ensures AbandonedAt(t, m).Some? <==> RepliesToAny(t.abandoned, m)
    ensures AbandonedAt(t, m).Some? ==>
      && AbandonedAt(t, m).value < |t.abandoned|
      && IdOf(Arrived(m)) == Some(t.abandoned[AbandonedAt(t, m).value])
  {
    hide Get;
  }

  lemma PassNothing(size: FrameLength, t: Transport, rest: seq<Event>)
    ensures PassBy(size, t, [Inactive] + rest) <==> PassBy(size, t, rest)
  {
    hide AllPassing, IdsDiffer, NotesAmong, NoteBytes;
    PassingHead(size, t.abandoned, Inactive, rest);
    DifferHead(Inactive, rest);
    CountHead(size, Inactive, rest);
  }

  lemma PassLateReply(size: FrameLength, t: Transport, m: Json, rest: seq<Event>)
    requires Rising(t.abandoned) && AbandonedAt(t, m).Some? && AbandonedAt(t, m).value < |t.abandoned|
    ensures PassBy(size, t, [Arrived(m)] + rest) <==>
      PassBy(size, Forget(Read(t, m), AbandonedAt(t, m).value), rest)
  {
    hide IdOf, DecodeNotification, AbandonedAt, AllPassing, IdsDiffer, NotesAmong, NoteBytes, RepliesToAny, Rising;
    var e, k := Arrived(m), AbandonedAt(t, m).value;
    LateReplyPlace(t, m);
    PassingHead(size, t.abandoned, e, rest);
    DifferHead(e, rest);
    CountHead(size, e, rest);
    AllPassingAfterForget(size, t.abandoned, k, rest);
    if IsNote(e) {
      NoteHasNoId(e);
    }
  }

  lemma PassNote(size: FrameLength, t: Transport, m: Json, id: nat, rest: seq<Event>)
    requires Route(size, Read(t, m), m, id).1 == Ok(None)
    ensures PassBy(size, t, [Arrived(m)] + rest) <==> PassBy(size, Route(size, Read(t, m), m, id).0, rest)
  {
    hide IdOf, DecodeNotification, AllPassing, IdsDiffer, NotesAmong, NoteBytes, RepliesToAny, Route;
    var e := Arrived(m);
    RouteDefers(size, Read(t, m), m, id);
    RouteMeans(size, Read(t, m), m, id);
    NoteHasNoId(e);
    PassingHead(size, t.abandoned, e, rest);
    DifferHead(e, rest);
    CountHead(size, e, rest);
  }

  /** What routing answers, in terms of the two kinds of messages. */
  lemma RouteMeans(size: FrameLength, t: Transport, m: Json, id: nat)
    ensures forall v :: Route(size, t, m, id).1 == Ok(Some(v)) <==> AnswersWith(size, m, id, v)
    ensures Route(size, t, m, id).1 == Ok(None) <==>
      && IsNote(Arrived(m)) && size(m) <= MAX_INPUT_FRAME_BYTES
      && |t.pending| < OUTPUT_QUEUE_ITEMS && size(m) <= Minus(OUTPUT_QUEUE_BYTES, t.pendingBytes)
  {
    hide AsText, Blank, DecodeRejection;
  }

  // ---------------------------------------------------------------- exactly when waiting succeeds

  /** Moving the start behind an event that passes moves the answer's place by one. */
  lemma AnsweredLater(size: FrameLength, t: Transport, t1: Transport, id: nat, events: seq<Event>, v: Json, k: nat)
    requires 0 < k < |events|
    requires PassBy(size, t, [events[0]] + events[1..][..k - 1]) <==> PassBy(size, t1, events[1..][..k - 1])
    ensures AnsweredAt(size, t, id, events, v, k) <==> AnsweredAt(size, t1, id, events[1..], v, k - 1)
  {
    hide PassBy, AnswersWith;
    assert events[..k] == [events[0]] + events[1..][..k - 1];
    assert events[1..][k - 1] == events[k];
  }

  ghost predicate Answered(size: FrameLength, t: Transport, id: nat, events: seq<Event>, v: Json) {
    exists k: nat :: AnsweredAt(size, t, id, events, v, k)
  }

  /** The first event passes, so the answer is among the others. */
  lemma AnsweredInRest(size: FrameLength, t: Transport, t1: Transport, id: nat, events: seq<Event>, v: Json)
    requires events != [] && !(events[0].Arrived? && AnswersWith(size, events[0].m, id, v))
    requires forall rest :: PassBy(size, t, [events[0]] + rest) <==> PassBy(size, t1, rest)
    ensures Answered(size, t, id, events, v) <==> Answered(size, t1, id, events[1..], v)
  {
    hide PassBy, AnswersWith;
    if Answered(size, t, id, events, v) {
      var k: nat :| AnsweredAt(size, t, id, events, v, k);
      assert k > 0;
      AnsweredLater(size, t, t1, id, events, v, k);
    }
    if Answered(size, t1, id, events[1..], v) {
      var k: nat :| AnsweredAt(size, t1, id, events[1..], v, k);
      AnsweredLater(size, t, t1, id, events, v, k + 1);
    }
  }

  /** The first event neither passes nor answers, so nothing does. */
  lemma NotAnswered(size: FrameLength, t: Transport, id: nat, events: seq<Event>, v: Json)
    requires events != [] && !(events[0].Arrived? && AnswersWith(size, events[0].m, id, v))
    requires !PassBy(size, t, [events[0]])
    ensures !Answered(size, t, id, events, v)
  {
    hide AnswersWith, Passing;
    if k: nat :| AnsweredAt(size, t, id, events, v, k) {
      hide NotesAmong, NoteBytes;
      var rest := events[1..k];
      assert events[..k] == [events[0]] + rest && [events[0]] == [events[0]] + [];
      PassByHead(size, t, events[0], rest);
    }
  }

  lemma PassByHead(size: FrameLength, t: Transport, e: Event, rest: seq<Event>)
    requires PassBy(size, t, [e] + rest)
    ensures PassBy(size, t, [e])
  {
    hide Passing, IsNote;
    PassingHead(size, t.abandoned, e, rest);
    CountHead(size, e, rest);
    CountHead(size, e, []);
    assert [e] + [] == [e];
  }

  /** Answers first thing. */
  lemma AnsweredFirst(size: FrameLength, t: Transport, id: nat, events: seq<Event>, m: Json, u: Json, v: Json)
    requires events != [] && events[0] == Arrived(m) && AnswersWith(size, m, id, u)
    requires id !in t.abandoned && |t.pending| <= OUTPUT_QUEUE_ITEMS && t.pendingBytes <= OUTPUT_QUEUE_BYTES
    ensures Answered(size, t, id, events, v) <==> u == v
  {
    if u == v {
      assert events[..0] == [];
      assert AnsweredAt(size, t, id, events, v, 0);
    } else {
      if IsNote(events[0]) {
        NoteHasNoId(events[0]);
      }
      assert !Passing(size, t.abandoned, [events[0]][0]);
      NotAnswered(size, t, id, events, v);
    }
  }

  /**
    Waiting for `id` succeeds with `v` exactly when a message that answers it so arrives, and
    all that comes before it passes by.
   */
  lemma {:induction false} AwaitSucceedsExactlyWhen(size: FrameLength, t: Transport, id: nat, abandon: bool,
                                                    cleanup: bool, events: seq<Event>, v: Json)
    requires Rising(t.abandoned) && id !in t.abandoned
    requires |t.pending| <= OUTPUT_QUEUE_ITEMS && t.pendingBytes <= OUTPUT_QUEUE_BYTES
    ensures Await(size, t, id, abandon, cleanup, events).1 == Ok(v) <==> Answered(size, t, id, events, v)
    decreases |events|
  {
    hide Route, AbandonedAt, PassBy, Answered, AnswersWith, Rising;
    if events == [] {
      NoEventNoAnswer(size, t, id, v);
    } else if events[0].Inactive? {
      forall rest
        ensures PassBy(size, t, [events[0]] + rest) <==> PassBy(size, t, rest)
      {
        PassNothing(size, t, rest);
      }
      AnsweredInRest(size, t, t, id, events, v);
      AwaitSucceedsExactlyWhen(size, t, id, abandon, cleanup, events[1..], v);
    } else if events[0].Arrived? {
      AwaitMessage(size, t, id, abandon, cleanup, events, v);
      var t1 := AfterMessage(size, t, id, events[0].m);
      if t1.Some? {
        AwaitSucceedsExactlyWhen(size, t1.value, id, abandon, cleanup, events[1..], v);
      }
    } else {
      EndPasses(size, t, events[0]);
      NotAnswered(size, t, id, events, v);
    }
  }

  lemma NoEventNoAnswer(size: FrameLength, t: Transport, id: nat, v: Json)
    ensures !Answered(size, t, id, [], v)
  {
  }

  lemma EndPasses(size: FrameLength, t: Transport, e: Event)
    requires !e.Inactive? && !e.Arrived?
    ensures !PassBy(size, t, [e])
  {
    assert !Passing(size, t.abandoned, [e][0]);
  }

  /** The transport with which waiting goes on after a message, if it does. */
  function AfterMessage(size: FrameLength, t: Transport, id: nat, m: Json): Option<Transport> {
    if AbandonedAt(t, m).Some? && AbandonedAt(t, m).value < |t.abandoned|
    then Some(Forget(Read(t, m), AbandonedAt(t, m).value))
    else if Route(size, Read(t, m), m, id).1 == Ok(None) then Some(Route(size, Read(t, m), m, id).0)
    else None
  }

  /** One message: either it ends the wait, rightly, or what follows it decides. */
  lemma AwaitMessage(size: FrameLength, t: Transport, id: nat, abandon: bool, cleanup: bool, events: seq<Event>,
                     v: Json)
    requires events != [] && events[0].Arrived? && Rising(t.abandoned) && id !in t.abandoned
    requires |t.pending| <= OUTPUT_QUEUE_ITEMS && t.pendingBytes <= OUTPUT_QUEUE_BYTES
    ensures var t1 := AfterMessage(size, t, id, events[0].m);
      if t1.Some?
      then
        && Rising(t1.value.abandoned) && id !in t1.value.abandoned
        && |t1.value.pending| <= OUTPUT_QUEUE_ITEMS && t1.value.pendingBytes <= OUTPUT_QUEUE_BYTES
        && Await(size, t, id, abandon, cleanup, events).1
           == Await(size, t1.value, id, abandon, cleanup, events[1..]).1
        && (Answered(size, t, id, events, v) <==> Answered(size, t1.value, id, events[1..], v))
      else Await(size, t, id, abandon, cleanup, events).1 == Ok(v) <==> Answered(size, t, id, events, v)
  {
    hide Route, AbandonedAt, PassBy, Answered, AnswersWith, Rising;
    var m := events[0].m;
    LateReplyPlace(t, m);
    if AbandonedAt(t, m).Some? {
      LateReplyGoesOn(size, t, id, events, v);
      ForgetRising(t, id, AbandonedAt(t, m).value);
    } else if Route(size, Read(t, m), m, id).1 == Ok(None) {
      NoteGoesOn(size, t, id, events, v);
      NoteKeeps(size, t, id, m);
    } else {
      MessageEnds(size, t, id, events, v);
    }
  }

  lemma ForgetRising(t: Transport, id: nat, k: nat)
    requires k < |t.abandoned| && Rising(t.abandoned) && id !in t.abandoned
    ensures Rising(Forget(t, k).abandoned) && id !in Forget(t, k).abandoned
  {
    ForgottenIds(t.abandoned, k, id);
    assert AllBelow(t.abandoned, t.abandoned[|t.abandoned| - 1] + 1);
    ForgetKeeps(t.abandoned, k, t.abandoned[|t.abandoned| - 1] + 1);
  }

  lemma NoteKeeps(size: FrameLength, t: Transport, id: nat, m: Json)
    requires Route(size, Read(t, m), m, id).1 == Ok(None)
    requires |t.pending| <= OUTPUT_QUEUE_ITEMS && t.pendingBytes <= OUTPUT_QUEUE_BYTES
    ensures var t1 := Route(size, Read(t, m), m, id).0;
      && t1.abandoned == t.abandoned
      && |t1.pending| <= OUTPUT_QUEUE_ITEMS && t1.pendingBytes <= OUTPUT_QUEUE_BYTES
  {
    hide Route, DecodeNotification;
    RouteDefers(size, Read(t, m), m, id);
  }

  lemma LateReplyGoesOn(size: FrameLength, t: Transport, id: nat, events: seq<Event>, v: Json)
    requires events != [] && events[0].Arrived? && Rising(t.abandoned) && id !in t.abandoned
    requires AbandonedAt(t, events[0].m).Some? && AbandonedAt(t, events[0].m).value < |t.abandoned|
    ensures var t1 := Forget(Read(t, events[0].m), AbandonedAt(t, events[0].m).value);
      Answered(size, t, id, events, v) <==> Answered(size, t1, id, events[1..], v)
  {
    hide AbandonedAt, PassBy, Answered, Rising, Get, AsU64;
    var m := events[0].m;
    var t1 := Forget(Read(t, m), AbandonedAt(t, m).value);
    LateReplyPlace(t, m);
    forall rest
      ensures PassBy(size, t, [events[0]] + rest) <==> PassBy(size, t1, rest)
    {
      PassLateReply(size, t, m, rest);
    }
    AnsweredInRest(size, t, t1, id, events, v);
  }

  lemma NoteGoesOn(size: FrameLength, t: Transport, id: nat, events: seq<Event>, v: Json)
    requires events != [] && events[0].Arrived? && Route(size, Read(t, events[0].m), events[0].m, id).1 == Ok(None)
    ensures var t1 := Route(size, Read(t, events[0].m), events[0].m, id).0;
      Answered(size, t, id, events, v) <==> Answered(size, t1, id, events[1..], v)
  {
    hide Route, PassBy, Answered, AnswersWith;
    var m := events[0].m;
    var t1 := Route(size, Read(t, m), m, id).0;
    RouteMeans(size, Read(t, m), m, id);
    forall rest
      ensures PassBy(size, t, [events[0]] + rest) <==> PassBy(size, t1, rest)
    {
      PassNote(size, t, m, id, rest);
    }
    AnsweredInRest(size, t, t1, id, events, v);
  }

  lemma MessageEnds(size: FrameLength, t: Transport, id: nat, events: seq<Event>, v: Json)
    requires events != [] && events[0].Arrived? && AbandonedAt(t, events[0].m).None? && id !in t.abandoned
    requires |t.pending| <= OUTPUT_QUEUE_ITEMS && t.pendingBytes <= OUTPUT_QUEUE_BYTES
    requires Route(size, Read(t, events[0].m), events[0].m, id).1 != Ok(None)
    ensures Route(size, Read(t, events[0].m), events[0].m, id).1 == Ok(Some(v)) <==> Answered(size, t, id, events, v)
  {
    hide Route, AbandonedAt, PassBy, Answered, AnswersWith;
    var m := events[0].m;
    var routed := Route(size, Read(t, m), m, id).1;
    RouteMeans(size, Read(t, m), m, id);
    if routed.Ok? {
      assert AnswersWith(size, m, id, routed.value.value);
      AnsweredFirst(size, t, id, events, m, routed.value.value, v);
    } else {
      LateReplyPlace(t, m);
      RefusedDoesNotPass(size, t, m, id);
      NotAnswered(size, t, id, events, v);
    }
  }

  lemma RefusedDoesNotPass(size: FrameLength, t: Transport, m: Json, id: nat)
    requires !RepliesToAny(t.abandoned, m) && Route(size, Read(t, m), m, id).1.Err?
    requires |t.pending| <= OUTPUT_QUEUE_ITEMS && t.pendingBytes <= OUTPUT_QUEUE_BYTES
    ensures !PassBy(size, t, [Arrived(m)])
  {
    hide Route, RepliesToAny, IsNote;
    RouteMeans(size, Read(t, m), m, id);
    CountHead(size, Arrived(m), []);
    assert [Arrived(m)] + [] == [Arrived(m)];
    assert [Arrived(m)][0] == Arrived(m);
  }

  // ---------------------------------------------------------------- requests

  /** The frame was written to an open transport. */
  predicate IsSent(t: Transport, written: Written) {
    t.nextId < U64_MAX && !t.outputFailed && t.stdinOpen && written.Accepted?
  }

  /**
    A request succeeds with `v` exactly when its frame was written, a message arrives that
    answers its id with `v`, and before it come only events without news, replies to
    remembered abandoned requests, each once, and notifications that fit the deferral limits.
   */
  lemma RequestSucceedsExactlyWhen(size: FrameLength, t: Transport, written: Written, abandon: bool, cleanup: bool,
                                   events: seq<Event>, v: Json)
    requires Consistent(t)
    ensures Request(size, t, written, abandon, cleanup, events).1 == Ok(v) <==>
      IsSent(t, written) && exists k: nat :: AnsweredAt(size, t, t.nextId, events, v, k)
  {
    hide Await, AnsweredAt, InWireOrder;
    if IsSent(t, written) {
      var t1 := t.(nextId := t.nextId + 1);
      assert WriteFrame(t1, written, cleanup) == (t1, None);
      assert t.nextId !in t.abandoned;
      AwaitSucceedsExactlyWhen(size, t1, t.nextId, abandon, cleanup, events, v);
      SameAnswers(size, t, t1, t.nextId, events, v);
    }
  }

  lemma SameAnswers(size: FrameLength, t: Transport, t1: Transport, id: nat, events: seq<Event>, v: Json)
    requires t1.abandoned == t.abandoned && t1.pending == t.pending && t1.pendingBytes == t.pendingBytes
    ensures Answered(size, t1, id, events, v) <==> exists k: nat :: AnsweredAt(size, t, id, events, v, k)
  {
    hide AllPassing, IdsDiffer, AnswersWith;
    forall k
      ensures AnsweredAt(size, t1, id, events, v, k) <==> AnsweredAt(size, t, id, events, v, k)
    {
    }
  }

  // ---------------------------------------------------------------- late replies

  /** The transport that has given up on these requests, one after the other. */
  function RememberAll(t: Transport, ids: seq<nat>): Transport {
    if ids == [] then t else Remember(RememberAll(t, ids[..|ids| - 1]), ids[|ids| - 1])
  }

  /** The last 64 of a list. */
  function Newest(ids: seq<nat>): seq<nat> {
    if |ids| <= MAX_ABANDONED_REQUESTS then ids else ids[|ids| - MAX_ABANDONED_REQUESTS..]
  }

  lemma {:induction false} NewestAreRemembered(t: Transport, ids: seq<nat>)
    requires t.abandoned == []
    ensures RememberAll(t, ids).abandoned == Newest(ids)
  {
    if ids != [] {
      var front := ids[..|ids| - 1];
      NewestAreRemembered(t, front);
      assert ids == front + [ids[|ids| - 1]];
    }
  }

  /** A late reply either is set aside without a trace or fails the waiting request and the transport. */
  lemma LateReplyDecides(size: FrameLength, t: Transport, id: nat, abandon: bool, cleanup: bool, m: Json, late: nat,
                         rest: seq<Event>)
    requires AsU64(Get(m, "id")) == Some(late) && late != id
    ensures var (t1, r) := Await(size, t, id, abandon, cleanup, [Arrived(m)] + rest);
      if late in t.abandoned
      then AbandonedAt(t, m).Some? && AbandonedAt(t, m).value < |t.abandoned|
        && (t1, r) == Await(size, Forget(Read(t, m), AbandonedAt(t, m).value), id, abandon, cleanup, rest)
      else r == Err(AfterCleanup(cleanup, ProtocolDrift)) && t1.outputFailed && !t1.stdinOpen
  {
    var events := [Arrived(m)] + rest;
    assert events[0] == Arrived(m) && events[1..] == rest;
    LateReplyPlace(t, m);
    WrongIdIsRefused(size, Read(t, m), m, id, late);
  }

  lemma WrongIdIsRefused(size: FrameLength, t: Transport, m: Json, id: nat, late: nat)
    requires AsU64(Get(m, "id")) == Some(late) && late != id
    ensures Route(size, t, m, id) == (t, Err(ProtocolDrift))
  {
  }

  /**
    After giving up on any number of requests, a late reply to one of them makes a later
    request fail the transport exactly when 64 more have been given up on since.
   */
  lemma LateReplyHarmsExactlyWhen(size: FrameLength, t: Transport, ids: seq<nat>, k: nat, id: nat, abandon: bool,
                                  cleanup: bool, m: Json)
    requires t.abandoned == [] && !t.outputFailed && Distinct(ids) && k < |ids| && id !in ids
    requires AsU64(Get(m, "id")) == Some(ids[k])
    ensures Await(size, RememberAll(t, ids), id, abandon, cleanup, [Arrived(m)]).0.outputFailed <==>
      k + 64 < |ids|
  {
    hide Await, AbandonedAt, RememberAll;
    var t1 := RememberAll(t, ids);
    NewestAreRemembered(t, ids);
    RememberAllFrame(t, ids);
    NewestHolds(ids, k);
    LateReplyDecides(size, t1, id, abandon, cleanup, m, ids[k], []);
    assert [Arrived(m)] + [] == [Arrived(m)];
    if ids[k] in t1.abandoned {
      NothingMore(size, Forget(Read(t1, m), AbandonedAt(t1, m).value), id, abandon, cleanup);
    }
  }

  lemma NothingMore(size: FrameLength, t: Transport, id: nat, abandon: bool, cleanup: bool)
    ensures Await(size, t, id, abandon, cleanup, []).0.outputFailed == t.outputFailed
  {
  }

  lemma {:induction false} RememberAllFrame(t: Transport, ids: seq<nat>)
    ensures RememberAll(t, ids).outputFailed == t.outputFailed
  {
    if ids != [] {
      RememberAllFrame(t, ids[..|ids| - 1]);
    }
  }

  lemma NewestHolds(ids: seq<nat>, k: nat)
    requires Distinct(ids) && k < |ids|
    ensures ids[k] in Newest(ids) <==> k + MAX_ABANDONED_REQUESTS >= |ids|
  {
    var cut := |ids| - MAX_ABANDONED_REQUESTS;
    if cut > 0 {
      if k >= cut {
        assert Newest(ids)[k - cut] == ids[k];
      } else {
        forall j | 0 <= j < |Newest(ids)|
          ensures Newest(ids)[j] != ids[k]
        {
          assert Newest(ids)[j] == ids[cut + j];
        }
      }
    }
  }
}
