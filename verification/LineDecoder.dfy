/** The incremental decoder of provider output lines, and what it means for a whole stream. */
module LineDecoder {
  import opened Prelude

  type Byte = b: int | 0 <= b < 0x100

  const LF: Byte := 10
  const CR: Byte := 13
  const MAX_LINE_BYTES: nat := 8 * 1024 * 1024

  // ---------------------------------------------------------------- UTF-8 (section 4 of RFC 3629)

  predicate IsTail(b: Byte) {
    0x80 <= b <= 0xBF
  }

  /** Length of the well-formed character a text starts with, or 0. */
  function FirstCharacter(s: seq<Byte>): (n: nat)
    ensures n <= |s|
  {
    if s == [] then 0
    else if s[0] <= 0x7F then 1
    else if 0xC2 <= s[0] <= 0xDF && |s| >= 2 && IsTail(s[1]) then 2
    else if |s| >= 3 && IsTail(s[2]) && ThirdForm(s[0], s[1]) then 3
    else if |s| >= 4 && IsTail(s[2]) && IsTail(s[3]) && FourthForm(s[0], s[1]) then 4
    else 0
  }

  predicate ThirdForm(a: Byte, b: Byte) {
    || (a == 0xE0 && 0xA0 <= b <= 0xBF)
    || ((0xE1 <= a <= 0xEC || 0xEE <= a <= 0xEF) && IsTail(b))
    || (a == 0xED && 0x80 <= b <= 0x9F)
  }

  predicate FourthForm(a: Byte, b: Byte) {
    || (a == 0xF0 && 0x90 <= b <= 0xBF)
    || (0xF1 <= a <= 0xF3 && IsTail(b))
    || (a == 0xF4 && 0x80 <= b <= 0x8F)
  }

  predicate ValidUtf8(s: seq<Byte>) {
    s == [] || (FirstCharacter(s) > 0 && ValidUtf8(s[FirstCharacter(s)..]))
  }

  // ---------------------------------------------------------------- the sink

  /** A sink call carries a line, or reports an error. */
  datatype Call = Line(text: seq<Byte>) | Failure

  /** Whether the sink wants more, which may depend on everything it was given so far. */
  type Answer = seq<Call> -> bool

  class Sink {
    const answer: Answer
    var calls: seq<Call>

    constructor (answer: Answer)
      ensures this.answer == answer && calls == []
    {
      this.answer, calls := answer, [];
    }

    method Deliver(call: Call) returns (more: bool)
      modifies this
      ensures calls == old(calls) + [call] && more == answer(calls)
    {
      calls := calls + [call];
      more := answer(calls);
    }
  }

  /** The calls made so far, and whether reading goes on. */
  datatype Outcome = Outcome(calls: seq<Call>, alive: bool)

  // ---------------------------------------------------------------- the one-shot definition

  /** A terminated line without the one CR that may precede its LF. */
  function WithoutCr(line: seq<Byte>): seq<Byte> {
    if line != [] && line[|line| - 1] == CR then line[..|line| - 1] else line
  }

  /** Hands one complete line to the sink. */
  function Emit(answer: Answer, text: seq<Byte>, calls: seq<Call>): Outcome {
    if ValidUtf8(text) then Outcome(calls + [Line(text)], answer(calls + [Line(text)]))
    else Outcome(calls + [Failure], false)
  }

  /** One line of the stream, its LF excluded: too long, or handed on without its CR. */
  function TakeLine(answer: Answer, line: seq<Byte>, calls: seq<Call>): Outcome {
    if |line| > MAX_LINE_BYTES then Outcome(calls + [Failure], false)
    else Emit(answer, WithoutCr(line), calls)
  }

  /** All sink calls for a finished stream. */
  function OneShot(answer: Answer, stream: seq<Byte>, calls: seq<Call>): seq<Call>
    decreases |stream|
  {
    var i := IndexOf(stream, LF);
    if i < |stream| then
      var o := TakeLine(answer, stream[..i], calls);
      if o.alive then OneShot(answer, stream[i + 1..], o.calls) else o.calls
    else if |stream| > MAX_LINE_BYTES then calls + [Failure]
    else if stream == [] then calls
    else Emit(answer, stream, calls).calls
  }

  // ---------------------------------------------------------------- feeding a chunk

  /** What the decoder holds and has done after a chunk. */
  datatype Fed = Fed(partial: seq<Byte>, outcome: Outcome)

  function Feed(answer: Answer, partial: seq<Byte>, chunk: seq<Byte>, calls: seq<Call>): Fed
    decreases |chunk|
  {
    var i := IndexOf(chunk, LF);
    if i < |chunk| then
      var o := TakeLine(answer, partial + chunk[..i], calls);
      if o.alive then Feed(answer, [], chunk[i + 1..], o.calls) else Fed([], o)
    else if |partial + chunk| > MAX_LINE_BYTES then Fed(partial + chunk, Outcome(calls + [Failure], false))
    else Fed(partial + chunk, Outcome(calls, true))
  }

  /** The decoder holds less than a line. */
  ghost predicate Pending(partial: seq<Byte>) {
    LF !in partial && |partial| <= MAX_LINE_BYTES
  }

  /** The first line of a stream whose first part has no line end. */
  lemma FirstLine(answer: Answer, head: seq<Byte>, tail: seq<Byte>, calls: seq<Call>)
    requires LF !in head
    ensures var o := TakeLine(answer, head, calls);
      OneShot(answer, head + [LF] + tail, calls) == if o.alive then OneShot(answer, tail, o.calls) else o.calls
  {
    var s := head + [LF] + tail;
    IndexOfUnique(s, LF, |head|);
    assert s[..|head|] == head && s[|head| + 1..] == tail;
  }

  /** A stream that starts with too many bytes without a line end fails at once. */
  lemma Overlong(answer: Answer, head: seq<Byte>, tail: seq<Byte>, calls: seq<Call>)
    requires LF !in head && |head| > MAX_LINE_BYTES
    ensures OneShot(answer, head + tail, calls) == calls + [Failure]
  {
    var s := head + tail;
    assert forall k :: 0 <= k < |head| ==> s[k] == head[k];
    assert IndexOf(s, LF) >= |head|;
  }

  /** Feeding a chunk takes nothing away from, and adds nothing to, what the stream means. */
  lemma {:induction false} FeedKeepsMeaning(answer: Answer, partial: seq<Byte>, chunk: seq<Byte>, rest: seq<Byte>,
                                            calls: seq<Call>)
    requires Pending(partial)
    ensures var fed := Feed(answer, partial, chunk, calls);
      && (fed.outcome.alive ==> Pending(fed.partial))
      && OneShot(answer, partial + chunk + rest, calls)
         == if fed.outcome.alive then OneShot(answer, fed.partial + rest, fed.outcome.calls) else fed.outcome.calls
    decreases |chunk|
  {
    hide OneShot, TakeLine, Feed;
    var i := IndexOf(chunk, LF);
    if i < |chunk| {
      FeedAt(answer, partial, chunk, i, calls);
      var head, tail := partial + chunk[..i], chunk[i + 1..];
      assert partial + chunk + rest == head + [LF] + (tail + rest);
      FirstLine(answer, head, tail + rest, calls);
      var o := TakeLine(answer, head, calls);
      if o.alive {
        FeedKeepsMeaning(answer, [], tail, rest, o.calls);
        assert [] + tail + rest == tail + rest;
      }
    } else {
      FeedTail(answer, partial, chunk, calls);
      if |partial + chunk| > MAX_LINE_BYTES {
        Overlong(answer, partial + chunk, rest, calls);
      }
    }
  }

  // ---------------------------------------------------------------- the decoder

  lemma FeedLine(answer: Answer, partial: seq<Byte>, bytes: seq<Byte>, start: nat, end: nat, calls: seq<Call>)
    requires start <= end < |bytes| && end - start == IndexOf(bytes[start..], LF)
    ensures var o := TakeLine(answer, partial + bytes[start..end], calls);
      Feed(answer, partial, bytes[start..], calls)
      == if o.alive then Feed(answer, [], bytes[end + 1..], o.calls) else Fed([], o)
  {
    hide TakeLine;
    assert bytes[start..][..end - start] == bytes[start..end];
    assert bytes[start..][end - start + 1..] == bytes[end + 1..];
  }

  lemma FeedTail(answer: Answer, partial: seq<Byte>, bytes: seq<Byte>, calls: seq<Call>)
    requires IndexOf(bytes, LF) == |bytes|
    ensures Feed(answer, partial, bytes, calls) ==
      if |partial + bytes| > MAX_LINE_BYTES then Fed(partial + bytes, Outcome(calls + [Failure], false))
      else Fed(partial + bytes, Outcome(calls, true))
  {
  }

  lemma TakeLineUnfolds(answer: Answer, line: seq<Byte>, calls: seq<Call>)
    ensures TakeLine(answer, line, calls) ==
      if |line| > MAX_LINE_BYTES then Outcome(calls + [Failure], false) else Emit(answer, WithoutCr(line), calls)
  {
    hide Emit, WithoutCr;
  }

  class Decoder {
    var partial: seq<Byte>

    constructor ()
      ensures partial == []
    {
      partial := [];
    }

    method Push(bytes: seq<Byte>, sink: Sink) returns (more: bool)
      requires Pending(partial)
      modifies this, sink
      ensures var fed := Feed(sink.answer, old(partial), bytes, old(sink.calls));
        (more ==> partial == fed.partial) && sink.calls == fed.outcome.calls && more == fed.outcome.alive
    {
      hide Emit, Feed, TakeLine;
      var start := 0;
      assert bytes[0..] == bytes;
      ghost var result := Feed(sink.answer, partial, bytes, sink.calls);
      while start + IndexOf(bytes[start..], LF) < |bytes|
        invariant start <= |bytes|
        invariant result == Feed(sink.answer, partial, bytes[start..], sink.calls)
        decreases |bytes| - start
      {
        var end := start + IndexOf(bytes[start..], LF);
        FeedLine(sink.answer, partial, bytes, start, end, sink.calls);
        TakeLineUnfolds(sink.answer, partial + bytes[start..end], sink.calls);
        partial := partial + bytes[start..end];
        if |partial| > MAX_LINE_BYTES {
          var _ := sink.Deliver(Failure);
          return false;
        }
        more := EmitLine(sink, true);
        if !more {
          return false;
        }
        start := end + 1;
      }
      FeedTail(sink.answer, partial, bytes[start..], sink.calls);
      partial := partial + bytes[start..];
      if |partial| > MAX_LINE_BYTES {
        var _ := sink.Deliver(Failure);
        return false;
      }
      return true;
    }

    method Finish(sink: Sink) returns (more: bool)
      requires Pending(partial)
      modifies this, sink
      ensures sink.calls == OneShot(sink.answer, old(partial), old(sink.calls)) && partial == []
      ensures more == (old(partial) == [] || Emit(sink.answer, old(partial), old(sink.calls)).alive)
    {
      if partial == [] {
        return true;
      }
      ghost var text := partial;
      assert IndexOf(text, LF) == |text|;
      more := EmitLine(sink, false);
    }

    /** `emit`: takes the held bytes as one line. */
    method EmitLine(sink: Sink, newline: bool) returns (more: bool)
      modifies this, sink
      ensures partial == []
      ensures var o := Emit(sink.answer, if newline then WithoutCr(old(partial)) else old(partial), old(sink.calls));
        sink.calls == o.calls && more == o.alive
    {
      if newline && partial != [] && partial[|partial| - 1] == CR {
        partial := partial[..|partial| - 1];
      }
      var text := partial;
      partial := [];
      if !ValidUtf8(text) {
        var _ := sink.Deliver(Failure);
        return false;
      }
      more := sink.Deliver(Line(text));
    }
  }

  // ---------------------------------------------------------------- the read loop

  /** What one turn of the reading thread meets. */
  datatype Turn = Chunk(bytes: seq<Byte>) | NothingYet | EndOfStream | ReadFailed | StopRequested

  /** All bytes read before the thread meets something that ends it. */
  function BytesRead(turns: seq<Turn>): seq<Byte> {
    if turns == [] then []
    else match turns[0]
      case Chunk(bytes) => bytes + BytesRead(turns[1..])
      case NothingYet => BytesRead(turns[1..])
      case _ => []
  }

  /** The turn that ends the thread, if any. */
  function Ending(turns: seq<Turn>): Option<Turn> {
    if turns == [] then None
    else if turns[0].Chunk? || turns[0].NothingYet? then Ending(turns[1..])
    else Some(turns[0])
  }

  /**
    Every sink call the thread makes, for any division of the stream into chunks: read to its
    end, the stream means what the one-shot definition says; cut short, the calls are those
    of a decoder that was fed all bytes read, with one more failure if reading itself failed.
   */
  method ReadStdout(turns: seq<Turn>, sink: Sink) returns (decoder: Decoder)
    requires sink.calls == []
    modifies sink
    ensures fresh(decoder)
    ensures Ending(turns) == Some(EndOfStream) ==> sink.calls == OneShot(sink.answer, BytesRead(turns), [])
    ensures Ending(turns) in {None, Some(StopRequested)} ==>
      sink.calls == Feed(sink.answer, [], BytesRead(turns), []).outcome.calls
    ensures Ending(turns) == Some(ReadFailed) ==>
      var o := Feed(sink.answer, [], BytesRead(turns), []).outcome;
      sink.calls == if o.alive then o.calls + [Failure] else o.calls
  {
    hide Feed, OneShot, BytesRead, Ending, TakeLine;
    decoder := new Decoder();
    ghost var stream := BytesRead(turns);
    ghost var all := Feed(sink.answer, [], stream, []);
    ghost var whole := OneShot(sink.answer, stream, []);
    assert turns[0..] == turns && [] + stream == stream;
    for i := 0 to |turns|
      invariant Pending(decoder.partial) && fresh(decoder)
      invariant Ending(turns) == Ending(turns[i..])
      invariant whole == OneShot(sink.answer, decoder.partial + BytesRead(turns[i..]), sink.calls)
      invariant all == Feed(sink.answer, decoder.partial, BytesRead(turns[i..]), sink.calls)
    {
      TurnUnfolds(turns, i);
      match turns[i] {
        case NothingYet =>
        case EndOfStream =>
          assert decoder.partial + [] == decoder.partial;
          var _ := decoder.Finish(sink);
          return;
        case StopRequested =>
          FeedNothing(sink.answer, decoder.partial, sink.calls);
          return;
        case ReadFailed =>
          FeedNothing(sink.answer, decoder.partial, sink.calls);
          var _ := sink.Deliver(Failure);
          return;
        case Chunk(bytes) =>
          ghost var rest := BytesRead(turns[i + 1..]);
          FeedKeepsMeaning(sink.answer, decoder.partial, bytes, rest, sink.calls);
          FeedInTwo(sink.answer, decoder.partial, bytes, rest, sink.calls);
          assert decoder.partial + (bytes + rest) == decoder.partial + bytes + rest;
          var more := decoder.Push(bytes, sink);
          if !more {
            return;
          }
      }
    }
    NoTurns(turns[|turns|..]);
    FeedNothing(sink.answer, decoder.partial, sink.calls);
  }

  lemma TurnUnfolds(turns: seq<Turn>, i: nat)
    requires i < |turns|
    ensures turns[i].Chunk? ==> BytesRead(turns[i..]) == turns[i].bytes + BytesRead(turns[i + 1..])
    ensures turns[i].NothingYet? ==> BytesRead(turns[i..]) == BytesRead(turns[i + 1..])
    ensures turns[i].Chunk? || turns[i].NothingYet? ==> Ending(turns[i..]) == Ending(turns[i + 1..])
    ensures !turns[i].Chunk? && !turns[i].NothingYet? ==>
      BytesRead(turns[i..]) == [] && Ending(turns[i..]) == Some(turns[i])
  {
    assert turns[i..][0] == turns[i] && turns[i..][1..] == turns[i + 1..];
  }

  lemma NoTurns(turns: seq<Turn>)
    requires turns == []
    ensures BytesRead(turns) == [] && Ending(turns).None?
  {
  }

  lemma FeedNothing(answer: Answer, partial: seq<Byte>, calls: seq<Call>)
    requires Pending(partial)
    ensures Feed(answer, partial, [], calls) == Fed(partial, Outcome(calls, true))
  {
    assert partial + [] == partial;
  }

  /** Feeding two chunks one after the other is feeding them joined, as far as the sink can tell. */
  lemma {:induction false} FeedInTwo(answer: Answer, partial: seq<Byte>, first: seq<Byte>, second: seq<Byte>,
                                     calls: seq<Call>)
    requires Pending(partial)
    ensures var fed := Feed(answer, partial, first, calls);
      if fed.outcome.alive
      then Feed(answer, partial, first + second, calls) == Feed(answer, fed.partial, second, fed.outcome.calls)
      else Feed(answer, partial, first + second, calls).outcome == fed.outcome
    decreases |first|
  {
    hide Feed, TakeLine;
    var i := IndexOf(first, LF);
    var both := first + second;
    if i < |first| {
      IndexOfUnique(both, LF, i);
      assert both[..i] == first[..i] && both[i + 1..] == first[i + 1..] + second;
      FeedAt(answer, partial, first, i, calls);
      FeedAt(answer, partial, both, i, calls);
      var o := TakeLine(answer, partial + first[..i], calls);
      if o.alive {
        FeedInTwo(answer, [], first[i + 1..], second, o.calls);
      }
    } else {
      FeedTail(answer, partial, first, calls);
      FeedLongerPart(answer, partial, first, second, calls);
    }
  }

  /** A chunk without a line end only makes the held part longer. */
  lemma FeedLongerPart(answer: Answer, partial: seq<Byte>, first: seq<Byte>, second: seq<Byte>, calls: seq<Call>)
    requires Pending(partial) && LF !in first
    ensures |partial + first| <= MAX_LINE_BYTES ==>
      Feed(answer, partial, first + second, calls) == Feed(answer, partial + first, second, calls)
    ensures |partial + first| > MAX_LINE_BYTES ==>
      Feed(answer, partial, first + second, calls).outcome == Outcome(calls + [Failure], false)
  {
    hide TakeLine, Feed;
    var both, j := first + second, IndexOf(second, LF);
    if j < |second| {
      IndexOfUnique(both, LF, |first| + j);
      LineInBoth(partial, first, second, j);
      FeedAt(answer, partial, both, |first| + j, calls);
      FeedAt(answer, partial + first, second, j, calls);
      if |partial + first| > MAX_LINE_BYTES {
        TakeLineUnfolds(answer, partial + first + second[..j], calls);
      }
    } else {
      NoLineEnd(first, second);
      assert partial + both == partial + first + second;
      FeedTail(answer, partial, both, calls);
      FeedTail(answer, partial + first, second, calls);
    }
  }

  lemma LineInBoth(partial: seq<Byte>, first: seq<Byte>, second: seq<Byte>, j: nat)
    requires j < |second|
    ensures partial + (first + second)[..|first| + j] == partial + first + second[..j]
    ensures (first + second)[|first| + j + 1..] == second[j + 1..]
  {
    assert (first + second)[..|first| + j] == first + second[..j];
  }

  lemma FeedAt(answer: Answer, partial: seq<Byte>, chunk: seq<Byte>, k: nat, calls: seq<Call>)
    requires k < |chunk| && IndexOf(chunk, LF) == k
    ensures var o := TakeLine(answer, partial + chunk[..k], calls);
      Feed(answer, partial, chunk, calls)
      == if o.alive then Feed(answer, [], chunk[k + 1..], o.calls) else Fed([], o)
  {
    hide TakeLine;
  }

  lemma NoLineEnd(first: seq<Byte>, second: seq<Byte>)
    requires LF !in first && IndexOf(second, LF) == |second|
    ensures IndexOf(first + second, LF) == |first + second|
  {
  }
}
