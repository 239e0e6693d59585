/** What the decoder's checks of single lines accept and hand on, byte by byte. */
module TextEncoding {
  import opened Prelude
  import opened LineDecoder

  // ---------------------------------------------------------------- UTF-8, as an encoder

  /** A Unicode scalar value. */
  type Scalar = c: int | 0 <= c <= 0xD7FF || 0xE000 <= c <= 0x10FFFF

  function Trailing(bits: int): (b: Byte)
    requires 0 <= bits
  {
    0x80 + bits % 64
  }

  /** The UTF-8 form of one character (section 3 of RFC 3629). */
  function EncodeScalar(c: Scalar): (bytes: seq<Byte>)
    ensures 1 <= |bytes| <= 4
  {
    if c < 0x80 then [c]
    else if c < 0x800 then [0xC0 + c / 64, Trailing(c)]
    else if c < 0x1_0000 then [0xE0 + c / 4096, Trailing(c / 64), Trailing(c)]
    else [0xF0 + c / 262_144, Trailing(c / 4096), Trailing(c / 64), Trailing(c)]
  }

  function EncodeText(text: seq<Scalar>): seq<Byte> {
    if text == [] then [] else EncodeScalar(text[0]) + EncodeText(text[1..])
  }

  /** A character's form is recognised at the front of any text, and nothing shorter or longer is. */
  lemma EncodedIsFirst(c: Scalar, rest: seq<Byte>)
    ensures FirstCharacter(EncodeScalar(c) + rest) == |EncodeScalar(c)|
  {
    var s := EncodeScalar(c) + rest;
    if c < 0x80 {
      assert s[0] == c;
    } else if c < 0x800 {
      assert s[0] == 0xC0 + c / 64 && s[1] == Trailing(c);
    } else if c < 0x1_0000 {
      assert s[0] == 0xE0 + c / 4096 && s[1] == Trailing(c / 64) && s[2] == Trailing(c);
    } else {
      assert s[0] == 0xF0 + c / 262_144 && s[1] == Trailing(c / 4096);
      assert s[2] == Trailing(c / 64) && s[3] == Trailing(c);
    }
  }

  lemma SixBits(high: nat, low: nat)
    requires low < 64
    ensures (high * 64 + low) / 64 == high && (high * 64 + low) % 64 == low
  {
  }

  lemma TwoBytes(s: seq<Byte>) returns (c: Scalar)
    requires FirstCharacter(s) == 2
    ensures EncodeScalar(c) == s[..2]
  {
    var a, b := s[0] as int - 0xC0, s[1] as int - 0x80;
    SixBits(a, b);
    c := a * 64 + b;
  }

  lemma ThreeBytes(s: seq<Byte>) returns (c: Scalar)
    requires FirstCharacter(s) == 3
    ensures EncodeScalar(c) == s[..3]
  {
    var a, b, d := s[0] as int - 0xE0, s[1] as int - 0x80, s[2] as int - 0x80;
    SixBits(a, b);
    SixBits(a * 64 + b, d);
    var n := (a * 64 + b) * 64 + d;
    assert n / 4096 == (n / 64) / 64;
    c := n;
  }

  lemma FourBytes(s: seq<Byte>) returns (c: Scalar)
    requires FirstCharacter(s) == 4
    ensures EncodeScalar(c) == s[..4]
  {
    var a, b, d, e := s[0] as int - 0xF0, s[1] as int - 0x80, s[2] as int - 0x80, s[3] as int - 0x80;
    SixBits(a, b);
    SixBits(a * 64 + b, d);
    SixBits((a * 64 + b) * 64 + d, e);
    var n := ((a * 64 + b) * 64 + d) * 64 + e;
    assert n / 4096 == (n / 64) / 64 && n / 262_144 == ((n / 64) / 64) / 64;
    c := n;
  }

  /** The character that the recognised bytes at the front of a text encode. */
  lemma FirstIsEncoded(s: seq<Byte>) returns (c: Scalar)
    requires FirstCharacter(s) > 0
    ensures EncodeScalar(c) == s[..FirstCharacter(s)]
  {
    hide EncodeScalar;
    var n := FirstCharacter(s);
    if n == 1 {
      c := OneByte(s);
    } else if n == 2 {
      c := TwoBytes(s);
    } else if n == 3 {
      c := ThreeBytes(s);
    } else {
      c := FourBytes(s);
    }
  }

  lemma OneByte(s: seq<Byte>) returns (c: Scalar)
    requires FirstCharacter(s) == 1
    ensures EncodeScalar(c) == s[..1]
  {
    c := s[0];
  }

  lemma {:induction false} EncodedIsValid(text: seq<Scalar>)
    ensures ValidUtf8(EncodeText(text))
  {
    hide FirstCharacter, EncodeScalar;
    if text != [] {
      var rest := EncodeText(text[1..]);
      EncodedIsFirst(text[0], rest);
      EncodedIsValid(text[1..]);
      assert (EncodeScalar(text[0]) + rest)[|EncodeScalar(text[0])|..] == rest;
    }
  }

  lemma {:induction false} ValidIsEncoded(s: seq<Byte>) returns (text: seq<Scalar>)
    requires ValidUtf8(s)
    ensures EncodeText(text) == s
    decreases |s|
  {
    hide FirstCharacter, EncodeScalar;
    if s == [] {
      text := [];
    } else {
      var n := FirstCharacter(s);
      var c := FirstIsEncoded(s);
      var rest := ValidIsEncoded(s[n..]);
      text := [c] + rest;
      assert text[1..] == rest && s == s[..n] + s[n..];
    }
  }

  /** A line is taken for text exactly when it is the UTF-8 form of some characters. */
  lemma ValidExactlyWhenEncoded(s: seq<Byte>)
    ensures ValidUtf8(s) <==> exists text: seq<Scalar> :: EncodeText(text) == s
  {
    if ValidUtf8(s) {
      var text := ValidIsEncoded(s);
    }
    if text: seq<Scalar> :| EncodeText(text) == s {
      EncodedIsValid(text);
    }
  }

  // ---------------------------------------------------------------- texts elsewhere

  function Scalars(text: string): (r: seq<Scalar>)
    ensures |r| == |text| && forall i :: 0 <= i < |r| ==> r[i] == text[i] as int
  {
    seq(|text|, i requires 0 <= i < |text| => AsScalar(text[i]))
  }

  function AsScalar(c: char): (r: Scalar)
    ensures r == c as int
  {
    c as int
  }

  /** The length by which texts are limited is that of their UTF-8 form. */
  lemma {:induction false} LengthIsOfEncoding(text: string)
    ensures Utf8Length(text) == |EncodeText(Scalars(text))|
  {
    if text != [] {
      assert Scalars(text)[1..] == Scalars(text[1..]);
      LengthIsOfEncoding(text[1..]);
      EncodedLength(text[0]);
    }
  }

  lemma EncodedLength(c: char)
    ensures |EncodeScalar(c as int)| ==
      if c < '\U{0080}' then 1 else if c < '\U{0800}' then 2 else if c < '\U{10000}' then 3 else 4
  {
  }

  /** The characters that count as blank are those with the Unicode property White_Space. */
  lemma BlankMeans(text: string)
    ensures Blank(text) <==> forall c :: c in text ==> c as int in WHITE_SPACE
  {
    hide WHITE_SPACE;
    forall c: char
      ensures IsWhitespace(c) <==> c as int in WHITE_SPACE
    {
      WhiteSpaceMeans(c);
    }
    if forall c :: c in text ==> c as int in WHITE_SPACE {
      assert forall i :: 0 <= i < |text| ==> text[i] in text;
    }
  }

  const WHITE_SPACE: set<int> := {
    9, 10, 11, 12, 13, 32, 133, 160, 5760, 8192, 8193, 8194, 8195, 8196, 8197, 8198, 8199, 8200, 8201, 8202,
    8232, 8233, 8239, 8287, 12288}

  lemma WhiteSpaceMeans(c: char)
    ensures IsWhitespace(c) <==> c as int in WHITE_SPACE
  {
  }

  // ---------------------------------------------------------------- one line

  lemma EndsAreCharacters()
    ensures LF == '\n' as int && CR == '\r' as int
  {
  }

  /** The first call for a stream whose first line is complete: the line, without one CR before its LF. */
  lemma LineIsHandedOn(answer: Answer, text: seq<Byte>, rest: seq<Byte>, calls: seq<Call>)
    requires LF !in text && |text| + 1 <= 8_388_608 && ValidUtf8(text)
    ensures var after := calls + [Line(text)];
      var next := if answer(after) then OneShot(answer, rest, after) else after;
      && OneShot(answer, text + [CR, LF] + rest, calls) == next
      && (text == [] || text[|text| - 1] != CR ==> OneShot(answer, text + [LF] + rest, calls) == next)
  {
    hide ValidUtf8, OneShot;
    var withCr := text + [CR];
    assert text + [CR, LF] + rest == withCr + [LF] + rest;
    assert WithoutCr(withCr) == text;
    FirstLine(answer, withCr, rest, calls);
    FirstLine(answer, text, rest, calls);
  }

  /** A complete line that is too long, or no text, is reported and ends everything. */
  lemma BadLineEnds(answer: Answer, line: seq<Byte>, rest: seq<Byte>, calls: seq<Call>)
    requires LF !in line
    requires |line| > 8_388_608
      || (!ValidUtf8(line) && (line == [] || line[|line| - 1] != CR))
      || (line != [] && line[|line| - 1] == CR && !ValidUtf8(line[..|line| - 1]))
    ensures OneShot(answer, line + [LF] + rest, calls) == calls + [Failure]
  {
    hide ValidUtf8, OneShot;
    FirstLine(answer, line, rest, calls);
  }

  /** What follows the last LF: nothing, a text kept with every CR, or one failure. */
  lemma TailIsKept(answer: Answer, tail: seq<Byte>, calls: seq<Call>)
    requires LF !in tail
    ensures OneShot(answer, tail, calls) ==
      if tail == [] then calls
      else if |tail| <= 8_388_608 && ValidUtf8(tail) then calls + [Line(tail)]
      else calls + [Failure]
  {
    hide ValidUtf8;
    assert IndexOf(tail, LF) == |tail|;
  }
}
