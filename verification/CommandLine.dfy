/**
  Native command lines: the encoder, and the Microsoft C runtime's argument parser it must
  be undone by (Microsoft C language reference, "Parsing C command-line arguments").
 */
module CommandLine {
  import opened Prelude

  /** A UTF-16 code unit. */
  type Unit = u: int | 0 <= u < 0x1_0000

  const NUL: Unit := 0
  const TAB: Unit := 9
  const SPACE: Unit := 32
  const QUOTE: Unit := 34
  const BACKSLASH: Unit := 92

  const MAX_COMMAND_UNITS: nat := 32_767

  /** The special units are the characters the rules are about. */
  lemma UnitsAreCharacters()
    ensures NUL == '\0' as int && TAB == '\t' as int && SPACE == ' ' as int
    ensures QUOTE == '\"' as int && BACKSLASH == '\\' as int
  {
  }

  function Repeat(unit: Unit, count: nat): (r: seq<Unit>)
    ensures |r| == count && forall i :: 0 <= i < count ==> r[i] == unit
  {
    seq(count, _ => unit)
  }

  // ---------------------------------------------------------------- the runtime's parser

  predicate IsDelimiter(u: Unit) {
    u == SPACE || u == TAB
  }

  /**
    The program name: quote marks only switch delimiters off and on, backslashes mean
    nothing. Returns the name and what follows it.
   */
  function ParseProgram(s: seq<Unit>, quoted: bool): (r: (seq<Unit>, seq<Unit>))
    ensures |r.1| <= |s|
  {
    if s == [] || (!quoted && IsDelimiter(s[0])) then ([], s)
    else if s[0] == QUOTE then ParseProgram(s[1..], !quoted)
    else
      var (name, rest) := ParseProgram(s[1..], quoted);
      ([s[0]] + name, rest)
  }

  /**
    One further argument. Of n backslashes before a quote mark, each pair stands for one;
    an odd one left over makes the quote mark literal, otherwise the mark opens or closes
    a quoted part, where a doubled mark stands for one. Other backslashes are literal.
   */
  function ParseArgument(s: seq<Unit>, quoted: bool, slashes: nat): (r: (seq<Unit>, seq<Unit>))
    ensures |r.1| <= |s|
  {
    if s == [] || (!quoted && IsDelimiter(s[0])) then (Repeat(BACKSLASH, slashes), s)
    else if s[0] == BACKSLASH then ParseArgument(s[1..], quoted, slashes + 1)
    else if s[0] != QUOTE then
      var (tail, rest) := ParseArgument(s[1..], quoted, 0);
      (Repeat(BACKSLASH, slashes) + [s[0]] + tail, rest)
    else if slashes % 2 == 1 then
      var (tail, rest) := ParseArgument(s[1..], quoted, 0);
      (Repeat(BACKSLASH, slashes / 2) + [QUOTE] + tail, rest)
    else if quoted && |s| > 1 && s[1] == QUOTE then
      var (tail, rest) := ParseArgument(s[2..], true, 0);
      (Repeat(BACKSLASH, slashes / 2) + [QUOTE] + tail, rest)
    else
      var (tail, rest) := ParseArgument(s[1..], !quoted, 0);
      (Repeat(BACKSLASH, slashes / 2) + tail, rest)
  }

  function SkipDelimiters(s: seq<Unit>): (r: seq<Unit>)
    ensures |r| <= |s|
    ensures r == [] || !IsDelimiter(r[0])
  {
    if s != [] && IsDelimiter(s[0]) then SkipDelimiters(s[1..]) else s
  }

  /** An argument that does not begin at a delimiter consumes something. */
  lemma ParseArgumentConsumes(s: seq<Unit>)
    requires s != [] && !IsDelimiter(s[0])
    ensures |ParseArgument(s, false, 0).1| < |s|
  {
  }

  function ParseArguments(s: seq<Unit>): seq<seq<Unit>>
    decreases |s|
  {
    var start := SkipDelimiters(s);
    if start == [] then []
    else
      ParseArgumentConsumes(start);
      var (argument, rest) := ParseArgument(start, false, 0);
      [argument] + ParseArguments(rest)
  }

  /** The text of a terminated buffer: everything before the first NUL. */
  function Terminated(s: seq<Unit>): seq<Unit> {
    if s == [] || s[0] == NUL then [] else [s[0]] + Terminated(s[1..])
  }

  /** The argument vector a started program sees. */
  function ParseCommandLine(s: seq<Unit>): seq<seq<Unit>> {
    var (program, rest) := ParseProgram(Terminated(s), false);
    [program] + ParseArguments(rest)
  }

  /** Outside quotes a space and a tab both end an argument, which keeps its backslashes; inside neither does. */
  lemma DelimiterRule(u: Unit, t: seq<Unit>, slashes: nat)
    requires u == 0x20 || u == 0x09
    ensures ParseArgument([u] + t, false, slashes) == (Repeat(BACKSLASH, slashes), [u] + t)
    ensures var (tail, rest) := ParseArgument(t, true, 0);
      ParseArgument([u] + t, true, slashes) == (Repeat(BACKSLASH, slashes) + [u] + tail, rest)
    ensures SkipDelimiters([u] + t) == SkipDelimiters(t)
  {
    assert ([u] + t)[1..] == t;
  }

  /**
    A quote mark after backslashes. An odd number of them makes it literal. After an even
    number it opens or closes a quoted part, except that inside one a doubled mark is one
    literal mark and the part goes on. In each case half of the backslashes stay.
   */
  lemma QuoteRule(t: seq<Unit>, quoted: bool, slashes: nat)
    ensures slashes % 2 == 1 ==>
      var (tail, rest) := ParseArgument(t, quoted, 0);
      ParseArgument([QUOTE] + t, quoted, slashes) == (Repeat(BACKSLASH, slashes / 2) + [QUOTE] + tail, rest)
    ensures slashes % 2 == 0 && !(quoted && t != [] && t[0] == QUOTE) ==>
      var (tail, rest) := ParseArgument(t, !quoted, 0);
      ParseArgument([QUOTE] + t, quoted, slashes) == (Repeat(BACKSLASH, slashes / 2) + tail, rest)
    ensures slashes % 2 == 0 ==>
      var (tail, rest) := ParseArgument(t, true, 0);
      ParseArgument([QUOTE, QUOTE] + t, true, slashes) == (Repeat(BACKSLASH, slashes / 2) + [QUOTE] + tail, rest)
  {
    assert ([QUOTE] + t)[1..] == t && ([QUOTE, QUOTE] + t)[2..] == t;
  }

  /** In the program name a quote mark only switches delimiters off and on, and backslashes are literal. */
  lemma ProgramRule(t: seq<Unit>, quoted: bool)
    ensures ParseProgram([QUOTE] + t, quoted) == ParseProgram(t, !quoted)
    ensures var (name, rest) := ParseProgram(t, quoted);
      ParseProgram([BACKSLASH] + t, quoted) == ([BACKSLASH] + name, rest)
    ensures ParseProgram([SPACE] + t, false) == ([], [SPACE] + t) && ParseProgram([TAB] + t, false) == ([], [TAB] + t)
  {
    assert ([QUOTE] + t)[1..] == t && ([BACKSLASH] + t)[1..] == t;
  }

  // ---------------------------------------------------------------- the encoding as a function

  /** The encoding of an argument's remaining units, with `slashes` backslashes held back. */
  function Escape(argument: seq<Unit>, slashes: nat): seq<Unit> {
    if argument == [] then Repeat(BACKSLASH, 2 * slashes)
    else if argument[0] == BACKSLASH then Escape(argument[1..], slashes + 1)
    else if argument[0] == QUOTE then
      Repeat(BACKSLASH, 2 * slashes + 1) + [QUOTE] + Escape(argument[1..], 0)
    else Repeat(BACKSLASH, slashes) + [argument[0]] + Escape(argument[1..], 0)
  }

  function EncodeArguments(arguments: seq<seq<Unit>>): seq<Unit> {
    if arguments == [] then []
    else [SPACE, QUOTE] + Escape(arguments[0], 0) + [QUOTE] + EncodeArguments(arguments[1..])
  }

  function EncodeCommand(executable: seq<Unit>, arguments: seq<seq<Unit>>): seq<Unit> {
    [QUOTE] + executable + [QUOTE] + EncodeArguments(arguments) + [NUL]
  }

  predicate ValidExecutable(executable: seq<Unit>) {
    executable != [] && NUL !in executable && QUOTE !in executable
  }

  ghost predicate ValidCommand(executable: seq<Unit>, arguments: seq<seq<Unit>>) {
    ValidExecutable(executable) && forall i :: 0 <= i < |arguments| ==> NUL !in arguments[i]
  }

  // ---------------------------------------------------------------- parsing undoes encoding

  lemma {:induction false} ParseBackslashes(n: nat, t: seq<Unit>, quoted: bool, slashes: nat)
    ensures ParseArgument(Repeat(BACKSLASH, n) + t, quoted, slashes) == ParseArgument(t, quoted, slashes + n)
  {
    var s := Repeat(BACKSLASH, n) + t;
    if n == 0 {
      assert s == t;
    } else {
      assert s[1..] == Repeat(BACKSLASH, n - 1) + t;
      ParseBackslashes(n - 1, t, quoted, slashes + 1);
    }
  }

  /** The closing quote mark ends the argument when a delimiter or nothing follows. */
  lemma ParseClosing(slashes: nat, rest: seq<Unit>)
    requires rest == [] || rest[0] == SPACE
    ensures ParseArgument(Repeat(BACKSLASH, 2 * slashes) + [QUOTE] + rest, true, 0)
            == (Repeat(BACKSLASH, slashes), rest)
  {
    var t := [QUOTE] + rest;
    assert Repeat(BACKSLASH, 2 * slashes) + [QUOTE] + rest == Repeat(BACKSLASH, 2 * slashes) + t;
    ParseBackslashes(2 * slashes, t, true, 0);
    assert t[1..] == rest;
    assert ParseArgument(rest, false, 0) == (Repeat(BACKSLASH, 0), rest);
    assert Repeat(BACKSLASH, slashes) + Repeat(BACKSLASH, 0) == Repeat(BACKSLASH, slashes);
  }

  lemma ParseEscapedQuote(slashes: nat, t: seq<Unit>)
    ensures var (tail, rest) := ParseArgument(t, true, 0);
      ParseArgument(Repeat(BACKSLASH, 2 * slashes + 1) + [QUOTE] + t, true, 0)
      == (Repeat(BACKSLASH, slashes) + [QUOTE] + tail, rest)
  {
    var u := [QUOTE] + t;
    assert Repeat(BACKSLASH, 2 * slashes + 1) + [QUOTE] + t == Repeat(BACKSLASH, 2 * slashes + 1) + u;
    ParseBackslashes(2 * slashes + 1, u, true, 0);
    assert u[1..] == t;
    assert (2 * slashes + 1) / 2 == slashes && (2 * slashes + 1) % 2 == 1;
  }

  lemma ParsePlain(slashes: nat, c: Unit, t: seq<Unit>)
    requires c != BACKSLASH && c != QUOTE
    ensures var (tail, rest) := ParseArgument(t, true, 0);
      ParseArgument(Repeat(BACKSLASH, slashes) + [c] + t, true, 0)
      == (Repeat(BACKSLASH, slashes) + [c] + tail, rest)
  {
    var u := [c] + t;
    assert Repeat(BACKSLASH, slashes) + [c] + t == Repeat(BACKSLASH, slashes) + u;
    ParseBackslashes(slashes, u, true, 0);
    assert u[1..] == t;
  }

  /** How many backslashes go in front of a unit when `slashes` are held back. */
  function Lead(c: Unit, slashes: nat): nat {
    if c == QUOTE then 2 * slashes + 1 else slashes
  }

  /** A backslash held back and one written out meet at the same place. */
  lemma EscapeSlash(argument: seq<Unit>, slashes: nat)
    requires argument != [] && argument[0] == BACKSLASH
    ensures Escape(argument, slashes) == Escape(argument[1..], slashes + 1)
    ensures Repeat(BACKSLASH, slashes + 1) + argument[1..] == Repeat(BACKSLASH, slashes) + argument
  {
    assert Repeat(BACKSLASH, slashes + 1) == Repeat(BACKSLASH, slashes) + [BACKSLASH];
    assert argument == [BACKSLASH] + argument[1..];
  }

  lemma EscapeOther(argument: seq<Unit>, slashes: nat)
    requires argument != [] && argument[0] != BACKSLASH
    ensures Escape(argument, slashes) ==
      Repeat(BACKSLASH, Lead(argument[0], slashes)) + [argument[0]] + Escape(argument[1..], 0)
  {
  }

  lemma Reassemble(argument: seq<Unit>, slashes: nat)
    requires argument != []
    ensures Repeat(BACKSLASH, slashes) + [argument[0]] + (Repeat(BACKSLASH, 0) + argument[1..])
            == Repeat(BACKSLASH, slashes) + argument
  {
    assert Repeat(BACKSLASH, 0) == [] && argument == [argument[0]] + argument[1..];
  }

  lemma {:induction false} ParseEscaped(argument: seq<Unit>, slashes: nat, rest: seq<Unit>)
    requires rest == [] || rest[0] == SPACE
    ensures ParseArgument(Escape(argument, slashes) + [QUOTE] + rest, true, 0)
            == (Repeat(BACKSLASH, slashes) + argument, rest)
    decreases |argument|, 1
  {
    hide ParseArgument, Lead;
    if argument == [] {
      ParseClosing(slashes, rest);
      assert Repeat(BACKSLASH, slashes) + argument == Repeat(BACKSLASH, slashes);
    } else if argument[0] == BACKSLASH {
      EscapeSlash(argument, slashes);
      ParseEscaped(argument[1..], slashes + 1, rest);
    } else {
      ParseEscapedOther(argument, slashes, rest);
    }
  }

  lemma {:induction false} ParseEscapedOther(argument: seq<Unit>, slashes: nat, rest: seq<Unit>)
    requires rest == [] || rest[0] == SPACE
    requires argument != [] && argument[0] != BACKSLASH
    ensures ParseArgument(Escape(argument, slashes) + [QUOTE] + rest, true, 0)
            == (Repeat(BACKSLASH, slashes) + argument, rest)
    decreases |argument|, 0
  {
    hide *;
    ParseEscaped(argument[1..], 0, rest);
    EscapeOther(argument, slashes);
    Reassemble(argument, slashes);
    var head := Repeat(BACKSLASH, Lead(argument[0], slashes)) + [argument[0]];
    var tail := Escape(argument[1..], 0) + [QUOTE] + rest;
    assert head + Escape(argument[1..], 0) + [QUOTE] + rest == head + tail;
    ParseHead(slashes, argument[0], tail);
  }

  lemma ParseHead(slashes: nat, c: Unit, t: seq<Unit>)
    requires c != BACKSLASH
    ensures var (tail, rest) := ParseArgument(t, true, 0);
      ParseArgument(Repeat(BACKSLASH, Lead(c, slashes)) + [c] + t, true, 0)
      == (Repeat(BACKSLASH, slashes) + [c] + tail, rest)
  {
    if c == QUOTE {
      ParseEscapedQuote(slashes, t);
    } else {
      ParsePlain(slashes, c, t);
    }
  }

  lemma {:induction false} ParseEncodedArguments(arguments: seq<seq<Unit>>)
    ensures ParseArguments(EncodeArguments(arguments)) == arguments
  {
    if arguments != [] {
      var s, rest := EncodeArguments(arguments), EncodeArguments(arguments[1..]);
      var body := Escape(arguments[0], 0) + [QUOTE] + rest;
      var started := [QUOTE] + body;
      assert s == [SPACE] + started;
      assert s[1..] == started;
      assert SkipDelimiters(s) == SkipDelimiters(started) == started;
      assert started[1..] == body;
      ParseEscaped(arguments[0], 0, rest);
      assert Repeat(BACKSLASH, 0) + arguments[0] == arguments[0];
      ParseOpening(body);
      ParseEncodedArguments(arguments[1..]);
    }
  }

  lemma ParseOpening(body: seq<Unit>)
    ensures ParseArgument([QUOTE] + body, false, 0) == ParseArgument(body, true, 0)
  {
    var s := [QUOTE] + body;
    assert s[1..] == body;
    var (tail, rest) := ParseArgument(body, true, 0);
    assert Repeat(BACKSLASH, 0) + tail == tail;
  }

  lemma {:induction false} ParseQuotedProgram(executable: seq<Unit>, rest: seq<Unit>)
    requires QUOTE !in executable && (rest == [] || rest[0] == SPACE)
    ensures ParseProgram(executable + [QUOTE] + rest, true) == (executable, rest)
  {
    var s := executable + [QUOTE] + rest;
    if executable == [] {
      assert s == [QUOTE] + rest && s[1..] == rest;
    } else {
      assert s[1..] == executable[1..] + [QUOTE] + rest && s[0] == executable[0];
      ParseQuotedProgram(executable[1..], rest);
      assert executable == [executable[0]] + executable[1..];
    }
  }

  lemma {:induction false} TerminatedPrefix(s: seq<Unit>)
    requires NUL !in s
    ensures Terminated(s + [NUL]) == s
  {
    if s != [] {
      assert (s + [NUL])[1..] == s[1..] + [NUL];
      TerminatedPrefix(s[1..]);
    }
  }

  lemma {:induction false} EscapeHasNoNul(argument: seq<Unit>, slashes: nat)
    requires NUL !in argument
    ensures NUL !in Escape(argument, slashes)
    decreases |argument|
  {
    if argument != [] {
      EscapeHasNoNul(argument[1..], if argument[0] == BACKSLASH then slashes + 1 else 0);
    }
  }

  lemma {:induction false} EncodedArgumentsHaveNoNul(arguments: seq<seq<Unit>>)
    requires forall i :: 0 <= i < |arguments| ==> NUL !in arguments[i]
    ensures NUL !in EncodeArguments(arguments)
  {
    if arguments != [] {
      EscapeHasNoNul(arguments[0], 0);
      EncodedArgumentsHaveNoNul(arguments[1..]);
    }
  }

  /** Parsing a valid command's encoding gives back the executable and every argument, in order. */
  lemma CommandRoundTrip(executable: seq<Unit>, arguments: seq<seq<Unit>>)
    requires ValidCommand(executable, arguments)
    ensures ParseCommandLine(EncodeCommand(executable, arguments)) == [executable] + arguments
  {
    var encoded := EncodeArguments(arguments);
    var text := [QUOTE] + executable + [QUOTE] + encoded;
    EncodedArgumentsHaveNoNul(arguments);
    TerminatedPrefix(text);
    assert text[1..] == executable + [QUOTE] + encoded;
    assert encoded == [] || encoded[0] == SPACE;
    ParseQuotedProgram(executable, encoded);
    ParseEncodedArguments(arguments);
  }

  // ---------------------------------------------------------------- the encoder

  method Append(output: seq<Unit>, unit: Unit, count: nat, limit: nat) returns (ok: bool, longer: seq<Unit>)
    ensures ok <==> |output| + count <= limit
    ensures longer == if ok then output + Repeat(unit, count) else output
  {
    ok := |output| + count <= limit;
    longer := if ok then output + Repeat(unit, count) else output;
  }

  lemma ArgumentsStart(executable: seq<Unit>, arguments: seq<seq<Unit>>)
    ensures [QUOTE] + executable[..|executable|] + Repeat(QUOTE, 1) + EncodeArguments(arguments[0..]) + [NUL]
            == EncodeCommand(executable, arguments)
  {
    assert arguments[0..] == arguments && executable[..|executable|] == executable;
    assert Repeat(QUOTE, 1) == [QUOTE];
  }

  lemma ArgumentStep(output: seq<Unit>, arguments: seq<seq<Unit>>, i: nat)
    requires i < |arguments|
    ensures output + EncodeArguments(arguments[i..]) + [NUL]
            == output + [SPACE, QUOTE] + Escape(arguments[i], 0) + [QUOTE] + EncodeArguments(arguments[i + 1..]) + [NUL]
  {
    hide Escape;
    assert arguments[i..][0] == arguments[i] && arguments[i..][1..] == arguments[i + 1..];
  }

  lemma NoArguments(arguments: seq<seq<Unit>>)
    requires arguments == []
    ensures EncodeArguments(arguments) == []
  {
  }

  /**
    Encodes a command, or fails exactly when an input is malformed or the encoding with its
    terminator does not fit.
   */
  method WindowsCommandLine(executable: seq<Unit>, arguments: seq<seq<Unit>>) returns (r: Option<seq<Unit>>)
    ensures r.Some? <==>
      ValidCommand(executable, arguments) && |EncodeCommand(executable, arguments)| <= 32_767
    ensures r.Some? ==> r.value == EncodeCommand(executable, arguments)
                        && ParseCommandLine(r.value) == [executable] + arguments
  {
    hide ParseCommandLine, Escape, EncodeArguments;
    if executable == [] || exists u | u in executable :: u == NUL || u == QUOTE {
      return None;
    }
    var ok, output := Append([], QUOTE, 1, MAX_COMMAND_UNITS);
    for i := 0 to |executable|
      invariant output == [QUOTE] + executable[..i] && |output| <= MAX_COMMAND_UNITS
    {
      ok, output := Append(output, executable[i], 1, MAX_COMMAND_UNITS);
      if !ok {
        return None;
      }
    }
    ok, output := Append(output, QUOTE, 1, MAX_COMMAND_UNITS);
    if !ok {
      return None;
    }
    ArgumentsStart(executable, arguments);
    for i := 0 to |arguments|
      invariant output + EncodeArguments(arguments[i..]) + [NUL] == EncodeCommand(executable, arguments)
      invariant |output| <= MAX_COMMAND_UNITS
      invariant forall j :: 0 <= j < i ==> NUL !in arguments[j]
    {
      ArgumentStep(output, arguments, i);
      ok, output := EncodeArgument(output, arguments[i]);
      if !ok {
        return None;
      }
    }
    assert EncodeArguments(arguments[|arguments|..]) == [] by {
      NoArguments(arguments[|arguments|..]);
    }
    ok, output := Append(output, NUL, 1, MAX_COMMAND_UNITS);
    if !ok {
      return None;
    }
    CommandRoundTrip(executable, arguments);
    return Some(output);
  }

  /** One unit of an argument: what is written for it, and what remains to be written. */
  lemma EscapeStep(output: seq<Unit>, argument: seq<Unit>, j: nat, slashes: nat)
    requires j < |argument|
    ensures argument[j] == BACKSLASH ==>
      output + Escape(argument[j..], slashes) == output + Escape(argument[j + 1..], slashes + 1)
    ensures argument[j] != BACKSLASH ==>
      output + Escape(argument[j..], slashes)
      == output + Repeat(BACKSLASH, Lead(argument[j], slashes)) + [argument[j]] + Escape(argument[j + 1..], 0)
  {
    assert argument[j..][0] == argument[j] && argument[j..][1..] == argument[j + 1..];
    if argument[j] == BACKSLASH {
      EscapeSlash(argument[j..], slashes);
    } else {
      EscapeOther(argument[j..], slashes);
    }
  }

  lemma EscapeEnd(output: seq<Unit>, argument: seq<Unit>, slashes: nat)
    ensures output + Escape(argument[|argument|..], slashes) == output + Repeat(BACKSLASH, 2 * slashes)
  {
    assert argument[|argument|..] == [];
  }

  /** Appends a unit that is no backslash behind the backslashes that go in front of it. */
  method AppendUnit(output: seq<Unit>, unit: Unit, slashes: nat) returns (ok: bool, longer: seq<Unit>)
    ensures ok <==> |output| + Lead(unit, slashes) + 1 <= MAX_COMMAND_UNITS
    ensures ok ==> longer == output + Repeat(BACKSLASH, Lead(unit, slashes)) + [unit]
  {
    var count := if unit == QUOTE then 2 * slashes + 1 else slashes;
    ok, longer := Append(output, BACKSLASH, count, MAX_COMMAND_UNITS);
    if ok {
      ok, longer := Append(longer, unit, 1, MAX_COMMAND_UNITS);
    }
  }

  /** The inner loop: appends one quoted argument. */
  method EncodeArgument(output0: seq<Unit>, argument: seq<Unit>) returns (ok: bool, output: seq<Unit>)
    requires |output0| <= MAX_COMMAND_UNITS
    ensures ok <==> NUL !in argument && |output0 + [SPACE, QUOTE] + Escape(argument, 0) + [QUOTE]| <= MAX_COMMAND_UNITS
    ensures ok ==> output == output0 + [SPACE, QUOTE] + Escape(argument, 0) + [QUOTE]
  {
    hide Escape;
    ghost var whole := output0 + [SPACE, QUOTE] + Escape(argument, 0);
    ok, output := Append(output0, SPACE, 1, MAX_COMMAND_UNITS);
    if !ok {
      return;
    }
    ok, output := Append(output, QUOTE, 1, MAX_COMMAND_UNITS);
    if !ok {
      return;
    }
    var slashes := 0;
    assert argument[0..] == argument;
    for j := 0 to |argument|
      invariant ok && |output| <= MAX_COMMAND_UNITS
      invariant output + Escape(argument[j..], slashes) == whole
      invariant forall k :: 0 <= k < j ==> argument[k] != NUL
    {
      EscapeStep(output, argument, j, slashes);
      if argument[j] == NUL {
        ok := false;
        return;
      }
      if argument[j] == BACKSLASH {
        slashes := slashes + 1;
      } else {
        ok, output := AppendUnit(output, argument[j], slashes);
        if !ok {
          return;
        }
        slashes := 0;
      }
    }
    EscapeEnd(output, argument, slashes);
    ok, output := Append(output, BACKSLASH, 2 * slashes, MAX_COMMAND_UNITS);
    if !ok {
      return;
    }
    ok, output := Append(output, QUOTE, 1, MAX_COMMAND_UNITS);
  }
}
