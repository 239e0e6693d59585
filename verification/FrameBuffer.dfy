/** The bounded, geometrically growing buffer a JSON frame is serialized into. */
module FrameBuffer {
  import opened Prelude
  import opened LineDecoder

  const MAX_INPUT_FRAME_BYTES: nat := 8 * 1024 * 1024

  datatype WriteError = Oversized | OutOfMemory

  function Max(a: nat, b: nat): nat {
    if a < b then b else a
  }

  function Min(a: nat, b: nat): nat {
    if a < b then a else b
  }

  /** The capacity a write that needs `needed` bytes asks for. */
  function Grown(capacity: nat, needed: nat, limit: nat): nat {
    Min(Max(Max(capacity, 1024) * 2, needed), limit)
  }

  function Power2(n: nat): nat {
    if n == 0 then 1 else 2 * Power2(n - 1)
  }

  // ---------------------------------------------------------------- sizes only

  /** How much a buffer holds, its capacity, and how often it was reallocated. */
  datatype Extent = Extent(length: nat, capacity: nat, reallocations: nat)

  const EMPTY := Extent(0, 0, 0)

  /** An accepted write of `size` bytes. */
  function Extend(x: Extent, size: nat, limit: nat): Extent {
    var needed := x.length + size;
    if x.capacity < needed then Extent(needed, Grown(x.capacity, needed, limit), x.reallocations + 1)
    else x.(length := needed)
  }

  function ExtendAll(x: Extent, sizes: seq<nat>, limit: nat): Extent
    decreases |sizes|
  {
    if sizes == [] then x else ExtendAll(Extend(x, sizes[0], limit), sizes[1..], limit)
  }

  function Sum(sizes: seq<nat>): nat {
    if sizes == [] then 0 else sizes[0] + Sum(sizes[1..])
  }

  /** Writing a frame: its pieces under the smaller limit, then the newline. */
  function FrameExtent(sizes: seq<nat>): Extent {
    Extend(ExtendAll(EMPTY, sizes, MAX_INPUT_FRAME_BYTES - 1), 1, MAX_INPUT_FRAME_BYTES)
  }

  /** Each reallocation at least doubles the capacity, from 2 KiB on, until the limit is reached. */
  ghost predicate Geometric(x: Extent, limit: nat) {
    && x.length <= x.capacity <= limit
    && (x.reallocations > 0 ==> x.capacity >= Min(1024 * Power2(x.reallocations), limit))
  }

  lemma ExtendIsGeometric(x: Extent, size: nat, limit: nat)
    requires Geometric(x, limit) && x.length + size <= limit
    ensures Geometric(Extend(x, size, limit), limit)
  {
    var n := x.reallocations;
    assert Power2(n + 1) == 2 * Power2(n);
  }

  lemma {:induction false} Power2Grows(n: nat, m: nat)
    requires n <= m
    ensures Power2(n) <= Power2(m)
    decreases m - n
  {
    if n < m {
      Power2Grows(n, m - 1);
    }
  }

  lemma PowerOf13()
    ensures Power2(13) == 8192
  {
    assert Power2(3) == 8;
    assert Power2(6) == 64;
    assert Power2(9) == 512;
    assert Power2(12) == 4096;
  }

  /** A buffer reallocated 13 times has reached the limit and never grows under it again. */
  lemma ThirteenAreEnough(x: Extent, size: nat)
    requires Geometric(x, MAX_INPUT_FRAME_BYTES - 1) && x.reallocations <= 13
    requires x.length + size <= MAX_INPUT_FRAME_BYTES - 1
    ensures Extend(x, size, MAX_INPUT_FRAME_BYTES - 1).reallocations <= 13
  {
    if x.reallocations == 13 {
      PowerOf13();
    }
  }

  lemma {:induction false} PiecesReallocate(x: Extent, sizes: seq<nat>)
    requires Geometric(x, MAX_INPUT_FRAME_BYTES - 1) && x.reallocations <= 13
    requires x.length + Sum(sizes) <= MAX_INPUT_FRAME_BYTES - 1
    ensures var y := ExtendAll(x, sizes, MAX_INPUT_FRAME_BYTES - 1);
      Geometric(y, MAX_INPUT_FRAME_BYTES - 1) && y.reallocations <= 13 && y.length == x.length + Sum(sizes)
    decreases |sizes|
  {
    if sizes != [] {
      ThirteenAreEnough(x, sizes[0]);
      ExtendIsGeometric(x, sizes[0], MAX_INPUT_FRAME_BYTES - 1);
      PiecesReallocate(Extend(x, sizes[0], MAX_INPUT_FRAME_BYTES - 1), sizes[1..]);
    }
  }

  /** However small the pieces of a frame are, writing it reallocates at most 14 times. */
  lemma FourteenAreEnough(sizes: seq<nat>)
    requires Sum(sizes) + 1 <= MAX_INPUT_FRAME_BYTES
    ensures FrameExtent(sizes).reallocations <= 14
    ensures FrameExtent(sizes).length <= FrameExtent(sizes).capacity <= MAX_INPUT_FRAME_BYTES
  {
    PiecesReallocate(EMPTY, sizes);
  }

  /** Pieces that fill the buffer to the brim after each of the first n reallocations. */
  function Brimming(n: nat): seq<nat> {
    if n == 0 then [] else Brimming(n - 1) + [if n == 1 then 2048 else 1024 * Power2(n - 1)]
  }

  lemma {:induction false} ExtendAllAppend(x: Extent, sizes: seq<nat>, size: nat, limit: nat)
    ensures ExtendAll(x, sizes + [size], limit) == Extend(ExtendAll(x, sizes, limit), size, limit)
    decreases |sizes|
  {
    if sizes == [] {
      assert sizes + [size] == [size];
      assert ExtendAll(x, [size], limit) == ExtendAll(Extend(x, size, limit), [size][1..], limit);
    } else {
      assert (sizes + [size])[1..] == sizes[1..] + [size];
      ExtendAllAppend(Extend(x, sizes[0], limit), sizes[1..], size, limit);
    }
  }

  lemma {:induction false} BrimmingFills(n: nat)
    requires 1 <= n <= 12
    ensures ExtendAll(EMPTY, Brimming(n), MAX_INPUT_FRAME_BYTES - 1)
            == Extent(1024 * Power2(n), 1024 * Power2(n), n)
  {
    var limit := MAX_INPUT_FRAME_BYTES - 1;
    Power2Grows(n, 12);
    assert Power2(12) == 4096 by {
      PowerOf13();
    }
    if n == 1 {
      ExtendAllAppend(EMPTY, [], 2048, limit);
      assert Brimming(0) == [];
    } else {
      BrimmingFills(n - 1);
      ExtendAllAppend(EMPTY, Brimming(n - 1), 1024 * Power2(n - 1), limit);
    }
  }

  /** The bound of 14 is reached. */
  lemma FourteenAreNeeded()
    ensures FrameExtent(Brimming(12) + [4_194_303]).reallocations == 14
    ensures FrameExtent(Brimming(12) + [4_194_303]).length == MAX_INPUT_FRAME_BYTES
  {
    BrimmingFills(12);
    assert Power2(12) == 4096 by {
      PowerOf13();
    }
    ExtendAllAppend(EMPTY, Brimming(12), 4_194_303, MAX_INPUT_FRAME_BYTES - 1);
  }

  // ---------------------------------------------------------------- the buffer

  class BoundedVec {
    var bytes: seq<Byte>
    var capacity: nat
    var limit: nat
    var reallocations: nat

    function Size(): Extent
      reads this
    {
      Extent(|bytes|, capacity, reallocations)
    }

    constructor (limit: nat)
      ensures bytes == [] && this.limit == limit && Size() == EMPTY
    {
      bytes, capacity, this.limit, reallocations := [], 0, limit, 0;
    }

    /** Writes the whole piece or nothing; `granted` is the allocator's answer if it is asked. */
    method Write(buffer: seq<Byte>, granted: bool) returns (r: Result<nat, WriteError>)
      modifies this`bytes, this`capacity, this`reallocations
      ensures r == Err(Oversized) <==> |old(bytes)| + |buffer| > limit
      ensures r == Err(OutOfMemory) <==>
        |old(bytes)| + |buffer| <= limit && old(capacity) < |old(bytes)| + |buffer| && !granted
      ensures if r.Ok?
        then r.value == |buffer| && bytes == old(bytes) + buffer && Size() == Extend(old(Size()), |buffer|, limit)
        else bytes == old(bytes) && Size() == old(Size())
    {
      var needed := |bytes| + |buffer|;
      if needed > limit {
        return Err(Oversized);
      }
      if capacity < needed {
        if !granted {
          return Err(OutOfMemory);
        }
        capacity := Grown(capacity, needed, limit);
        reallocations := reallocations + 1;
      }
      bytes := bytes + buffer;
      return Ok(|buffer|);
    }
  }

  function Sizes(pieces: seq<seq<Byte>>): (sizes: seq<nat>)
    ensures |sizes| == |pieces|
  {
    if pieces == [] then [] else [|pieces[0]|] + Sizes(pieces[1..])
  }

  function Joined(pieces: seq<seq<Byte>>): (r: seq<Byte>)
    ensures |r| == Sum(Sizes(pieces))
  {
    if pieces == [] then []
    else
      assert Sizes(pieces)[1..] == Sizes(pieces[1..]);
      pieces[0] + Joined(pieces[1..])
  }

  /** What remains to be written after the first `i` pieces. */
  ghost predicate Midway(pieces: seq<seq<Byte>>, i: nat, written: seq<Byte>, x: Extent) {
    && i <= |pieces| && written + Joined(pieces[i..]) == Joined(pieces)
    && ExtendAll(x, Sizes(pieces[i..]), MAX_INPUT_FRAME_BYTES - 1)
       == ExtendAll(EMPTY, Sizes(pieces), MAX_INPUT_FRAME_BYTES - 1)
  }

  lemma MidwayStart(pieces: seq<seq<Byte>>)
    ensures Midway(pieces, 0, [], EMPTY)
  {
    assert pieces[0..] == pieces;
  }

  lemma MidwayStep(pieces: seq<seq<Byte>>, i: nat, written: seq<Byte>, x: Extent)
    requires i < |pieces| && Midway(pieces, i, written, x)
    ensures Midway(pieces, i + 1, written + pieces[i], Extend(x, |pieces[i]|, MAX_INPUT_FRAME_BYTES - 1))
    ensures |written| + |pieces[i]| <= |Joined(pieces)|
  {
    var rest := pieces[i..];
    assert rest[0] == pieces[i] && rest[1..] == pieces[i + 1..];
    assert Sizes(rest)[1..] == Sizes(rest[1..]);
    assert written + (pieces[i] + Joined(rest[1..])) == written + pieces[i] + Joined(rest[1..]);
  }

  /**
    Serializes a frame that arrives in any pieces; `granted(n)` says whether the allocator grants
    the request made after n earlier ones. If it grants them all, encoding succeeds exactly when
    the frame and its newline fit in 8 MiB. The buffer grows as `FrameExtent` says.
   */
  method EncodeJsonLine(pieces: seq<seq<Byte>>, granted: nat -> bool)
    returns (r: Result<seq<Byte>, WriteError>, size: Extent)
    ensures r == Err(Oversized) ==> |Joined(pieces)| + 1 > MAX_INPUT_FRAME_BYTES
    ensures (forall n :: granted(n)) ==> (r.Ok? <==> |Joined(pieces)| + 1 <= MAX_INPUT_FRAME_BYTES)
    ensures r.Ok? ==> r.value == Joined(pieces) + [LF] && size == FrameExtent(Sizes(pieces)) && size.reallocations <= 14
  {
    hide Midway, FrameExtent, Extend;
    var sink := new BoundedVec(MAX_INPUT_FRAME_BYTES - 1);
    MidwayStart(pieces);
    for i := 0 to |pieces|
      invariant sink.limit == MAX_INPUT_FRAME_BYTES - 1 && |sink.bytes| <= sink.limit
      invariant Midway(pieces, i, sink.bytes, sink.Size())
    {
      MidwayStep(pieces, i, sink.bytes, sink.Size());
      var w := sink.Write(pieces[i], granted(sink.reallocations));
      if w.Err? {
        assert w.error == Oversized || w.error == OutOfMemory;
        return Err(w.error), sink.Size();
      }
    }
    MidwayEnd(pieces, sink.bytes, sink.Size());
    sink.limit := MAX_INPUT_FRAME_BYTES;
    var last := sink.Write([LF], granted(sink.reallocations));
    size := sink.Size();
    if last.Err? {
      assert last.error == Oversized || last.error == OutOfMemory;
      return Err(last.error), size;
    }
    FourteenAreEnough(Sizes(pieces));
    return Ok(sink.bytes), size;
  }

  lemma MidwayEnd(pieces: seq<seq<Byte>>, written: seq<Byte>, x: Extent)
    requires Midway(pieces, |pieces|, written, x)
    ensures written == Joined(pieces)
    ensures Extend(x, 1, MAX_INPUT_FRAME_BYTES) == FrameExtent(Sizes(pieces))
  {
    assert pieces[|pieces|..] == [];
  }
}
