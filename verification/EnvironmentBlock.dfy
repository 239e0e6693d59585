/** Explicit environment blocks: the sorted, double-terminated encoding and its decoder. */
module EnvironmentBlock {
  import opened Prelude
  import opened CommandLine

  const EQUALS: Unit := 61
  const MAX_ENVIRONMENT_UNITS: nat := 32_767

  datatype Entry = Entry(key: string, value: seq<Unit>)

  predicate IsKeyChar(c: char) {
    'a' <= c <= 'z' || 'A' <= c <= 'Z' || '0' <= c <= '9' || c == '_'
  }

  predicate ValidEntry(e: Entry) {
    e.key != [] && (forall i | 0 <= i < |e.key| :: IsKeyChar(e.key[i])) && NUL !in e.value
  }

  function Upper(s: string): string {
    seq(|s|, i requires 0 <= i < |s| => UpperAscii(s[i]))
  }

  // ---------------------------------------------------------------- the order of keys

  predicate LexLeq(a: string, b: string) {
    a == [] || (b != [] && (a[0] < b[0] || (a[0] == b[0] && LexLeq(a[1..], b[1..]))))
  }

  lemma {:induction false} LexTotal(a: string, b: string)
    ensures LexLeq(a, b) || LexLeq(b, a)
  {
    if a != [] && b != [] && a[0] == b[0] {
      LexTotal(a[1..], b[1..]);
    }
  }

  lemma {:induction false} LexTransitive(a: string, b: string, c: string)
    requires LexLeq(a, b) && LexLeq(b, c)
    ensures LexLeq(a, c)
  {
    if a != [] && a[0] == b[0] && b[0] == c[0] {
      LexTransitive(a[1..], b[1..], c[1..]);
    }
  }

  lemma {:induction false} LexAntisymmetric(a: string, b: string)
    requires LexLeq(a, b) && LexLeq(b, a)
    ensures a == b
  {
    if a != [] {
      LexAntisymmetric(a[1..], b[1..]);
      assert a == [a[0]] + a[1..] && b == [b[0]] + b[1..];
    }
  }

  function UpperKeys(entries: seq<Entry>): (keys: seq<string>)
    ensures |keys| == |entries|
    ensures forall i :: 0 <= i < |entries| ==> keys[i] == Upper(entries[i].key)
  {
    seq(|entries|, i requires 0 <= i < |entries| => Upper(entries[i].key))
  }

  ghost predicate Ordered(keys: seq<string>) {
    forall i, j :: 0 <= i < j < |keys| ==> LexLeq(keys[i], keys[j])
  }

  /** Before: a prefix, or smaller at the first place where they differ. */
  ghost predicate ComesBefore(a: string, b: string) {
    || a <= b
    || exists i :: 0 <= i < |a| && i < |b| && a[..i] == b[..i] && a[i] < b[i]
  }

  lemma BeforeByFirst(a: string, b: string)
    requires a != [] && b != [] && a[0] != b[0]
    ensures ComesBefore(a, b) <==> a[0] < b[0]
  {
    if a[0] < b[0] {
      assert a[..0] == b[..0];
    }
    forall i | 0 < i <= |a| && i <= |b|
      ensures a[..i] != b[..i]
    {
      assert a[..i][0] == a[0] && b[..i][0] == b[0];
    }
  }

  lemma BeforeByRest(a: string, b: string)
    requires a != [] && b != [] && a[0] == b[0]
    ensures ComesBefore(a, b) <==> ComesBefore(a[1..], b[1..])
  {
    var c, d := a[1..], b[1..];
    assert a == [a[0]] + c && b == [b[0]] + d;
    if i :| 0 <= i < |c| && i < |d| && c[..i] == d[..i] && c[i] < d[i] {
      assert a[..i + 1] == [a[0]] + c[..i] && b[..i + 1] == [b[0]] + d[..i];
      assert a[i + 1] < b[i + 1];
    }
    if i :| 0 <= i < |a| && i < |b| && a[..i] == b[..i] && a[i] < b[i] {
      assert c[..i - 1] == a[..i][1..] && d[..i - 1] == b[..i][1..];
      assert c[i - 1] < d[i - 1];
    }
  }

  /** The order of keys is that of a dictionary. */
  lemma {:induction false} LexMeans(a: string, b: string)
    ensures LexLeq(a, b) <==> ComesBefore(a, b)
  {
    if a != [] && b != [] {
      if a[0] == b[0] {
        hide ComesBefore;
        LexMeans(a[1..], b[1..]);
        BeforeByRest(a, b);
      } else {
        BeforeByFirst(a, b);
      }
    }
  }

  /** The same character, or the small and the capital form of one ASCII letter, which are 32 apart. */
  predicate SameLetter(c: char, d: char) {
    || c == d
    || (97 <= c as int <= 122 && d as int + 32 == c as int)
    || (97 <= d as int <= 122 && c as int + 32 == d as int)
  }

  lemma UpperMeansSameLetter(c: char, d: char)
    ensures UpperAscii(c) == UpperAscii(d) <==> SameLetter(c, d)
  {
  }

  /** The keys differ at most in the case of ASCII letters. */
  ghost predicate SameKey(a: string, b: string) {
    |a| == |b| && forall i :: 0 <= i < |a| ==> SameLetter(a[i], b[i])
  }

  lemma UpperMeansSameKey(a: string, b: string)
    ensures Upper(a) == Upper(b) <==> SameKey(a, b)
  {
    hide SameLetter, UpperAscii;
    if |a| == |b| {
      forall i | 0 <= i < |a|
        ensures Upper(a)[i] == Upper(b)[i] <==> SameLetter(a[i], b[i])
      {
        UpperMeansSameLetter(a[i], b[i]);
      }
      if Upper(a) == Upper(b) {
        assert forall i :: 0 <= i < |a| ==> Upper(a)[i] == Upper(b)[i];
      }
    } else {
      assert |Upper(a)| == |a| && |Upper(b)| == |b|;
    }
  }

  // ---------------------------------------------------------------- sorting

  /** Puts an entry in front of the first one with a greater or equal key. */
  function InsertByKey(e: Entry, sorted: seq<Entry>): seq<Entry> {
    if sorted == [] || LexLeq(Upper(e.key), Upper(sorted[0].key)) then [e] + sorted
    else [sorted[0]] + InsertByKey(e, sorted[1..])
  }

  /** The stable sort by upper-cased key. */
  function SortByKey(entries: seq<Entry>): seq<Entry> {
    if entries == [] then [] else InsertByKey(entries[0], SortByKey(entries[1..]))
  }

  lemma {:induction false} InsertIsPermutation(e: Entry, sorted: seq<Entry>)
    ensures multiset(InsertByKey(e, sorted)) == multiset{e} + multiset(sorted)
  {
    if !(sorted == [] || LexLeq(Upper(e.key), Upper(sorted[0].key))) {
      InsertIsPermutation(e, sorted[1..]);
      assert sorted == [sorted[0]] + sorted[1..];
    }
  }

  lemma {:induction false} SortIsPermutation(entries: seq<Entry>)
    ensures multiset(SortByKey(entries)) == multiset(entries)
  {
    if entries != [] {
      SortIsPermutation(entries[1..]);
      InsertIsPermutation(entries[0], SortByKey(entries[1..]));
      assert entries == [entries[0]] + entries[1..];
    }
  }

  lemma PrependOrdered(key: string, keys: seq<string>)
    requires Ordered(keys) && (keys == [] || LexLeq(key, keys[0]))
    ensures Ordered([key] + keys)
  {
    forall j | 0 <= j < |keys|
      ensures LexLeq(key, keys[j])
    {
      if j > 0 {
        LexTransitive(key, keys[0], keys[j]);
      }
    }
  }

  lemma {:induction false} InsertKeepsOrder(e: Entry, sorted: seq<Entry>)
    requires Ordered(UpperKeys(sorted))
    ensures Ordered(UpperKeys(InsertByKey(e, sorted)))
    ensures InsertByKey(e, sorted) != []
    ensures InsertByKey(e, sorted)[0] == e || (sorted != [] && InsertByKey(e, sorted)[0] == sorted[0])
  {
    var key := Upper(e.key);
    if sorted == [] || LexLeq(key, Upper(sorted[0].key)) {
      PrependOrdered(key, UpperKeys(sorted));
      assert UpperKeys([e] + sorted) == [key] + UpperKeys(sorted);
    } else {
      var first, rest := sorted[0], sorted[1..];
      assert UpperKeys(rest) == UpperKeys(sorted)[1..];
      InsertKeepsOrder(e, rest);
      LexTotal(key, Upper(first.key));
      var tail := InsertByKey(e, rest);
      assert rest != [] ==> UpperKeys(sorted)[1] == Upper(rest[0].key);
      PrependOrdered(Upper(first.key), UpperKeys(tail));
      assert UpperKeys([first] + tail) == [Upper(first.key)] + UpperKeys(tail);
    }
  }

  lemma {:induction false} SortIsOrdered(entries: seq<Entry>)
    ensures Ordered(UpperKeys(SortByKey(entries)))
  {
    if entries != [] {
      SortIsOrdered(entries[1..]);
      InsertKeepsOrder(entries[0], SortByKey(entries[1..]));
    }
  }

  // ---------------------------------------------------------------- duplicates

  /** In an ordered list, comparing neighbours finds every repetition. */
  lemma NeighboursSuffice(keys: seq<string>)
    requires Ordered(keys)
    ensures Distinct(keys) <==> forall i {:trigger keys[i]} :: 0 <= i < |keys| - 1 ==> keys[i] != keys[i + 1]
  {
    if forall i {:trigger keys[i]} :: 0 <= i < |keys| - 1 ==> keys[i] != keys[i + 1] {
      forall i, j | 0 <= i < j < |keys|
        ensures keys[i] != keys[j]
      {
        if keys[i] == keys[j] && j > i + 1 {
          LexAntisymmetric(keys[i], keys[i + 1]);
        }
      }
    }
  }

  lemma {:induction false} KeysOfPermutation(entries: seq<Entry>)
    ensures multiset(UpperKeys(SortByKey(entries))) == multiset(UpperKeys(entries))
  {
    if entries != [] {
      KeysOfPermutation(entries[1..]);
      KeysOfInsert(entries[0], SortByKey(entries[1..]));
      assert UpperKeys(entries) == [Upper(entries[0].key)] + UpperKeys(entries[1..]);
    }
  }

  lemma {:induction false} KeysOfInsert(e: Entry, sorted: seq<Entry>)
    ensures multiset(UpperKeys(InsertByKey(e, sorted))) == multiset{Upper(e.key)} + multiset(UpperKeys(sorted))
  {
    if sorted == [] || LexLeq(Upper(e.key), Upper(sorted[0].key)) {
      assert UpperKeys([e] + sorted) == [Upper(e.key)] + UpperKeys(sorted);
    } else {
      var rest := sorted[1..];
      KeysOfInsert(e, rest);
      assert UpperKeys([sorted[0]] + InsertByKey(e, rest)) == [Upper(sorted[0].key)] + UpperKeys(InsertByKey(e, rest));
      assert UpperKeys(sorted) == [Upper(sorted[0].key)] + UpperKeys(rest);
    }
  }

  /** Two lists with the same elements repeat something both or neither. */
  lemma PermutationKeepsDistinct(a: seq<string>, b: seq<string>)
    requires multiset(a) == multiset(b)
    ensures Distinct(a) <==> Distinct(b)
  {
    ElementsCount(a);
    ElementsCount(b);
    assert |multiset(a)| == |a| && |multiset(b)| == |b|;
    assert forall x :: x in multiset(a) <==> x in a;
    assert forall x :: x in multiset(b) <==> x in b;
    assert Elements(a) == Elements(b);
  }

  /** No two keys of the given entries are equal when case is ignored. */
  ghost predicate DistinctKeys(entries: seq<Entry>) {
    Distinct(UpperKeys(entries))
  }

  /** So a list has distinct keys exactly when no two entries have the same key in any spelling. */
  lemma DistinctKeysMean(entries: seq<Entry>)
    ensures DistinctKeys(entries) <==>
      forall i, j :: 0 <= i < j < |entries| ==> !SameKey(entries[i].key, entries[j].key)
  {
    hide Upper, SameKey;
    forall i, j | 0 <= i < j < |entries|
      ensures UpperKeys(entries)[i] == UpperKeys(entries)[j] <==> SameKey(entries[i].key, entries[j].key)
    {
      UpperMeansSameKey(entries[i].key, entries[j].key);
    }
  }

  /** Keys are made of ASCII digits, capitals, underscores and small letters, by their numbers. */
  lemma EntryMeans(e: Entry)
    ensures ValidEntry(e) <==>
      && |e.key| > 0 && (forall u :: u in e.value ==> u != 0)
      && forall i :: 0 <= i < |e.key| ==>
           var n := e.key[i] as int; 48 <= n <= 57 || 65 <= n <= 90 || n == 95 || 97 <= n <= 122
  {
  }

  lemma SortedNeighboursSuffice(entries: seq<Entry>)
    ensures var keys := UpperKeys(SortByKey(entries));
      DistinctKeys(entries) <==> forall i {:trigger keys[i]} :: 0 <= i < |keys| - 1 ==> keys[i] != keys[i + 1]
  {
    var sorted := SortByKey(entries);
    SortIsOrdered(entries);
    NeighboursSuffice(UpperKeys(sorted));
    KeysOfPermutation(entries);
    PermutationKeepsDistinct(UpperKeys(sorted), UpperKeys(entries));
  }

  // ---------------------------------------------------------------- the encoding and its decoder

  function KeyUnit(c: char): Unit {
    if c < '\U{0080}' then c as int else NUL
  }

  function KeyUnits(key: string): (units: seq<Unit>)
    requires forall i | 0 <= i < |key| :: IsKeyChar(key[i])
    ensures |units| == |key| && forall i :: 0 <= i < |key| ==> units[i] == key[i] as int
  {
    assert forall i :: 0 <= i < |key| ==> IsKeyChar(key[i]) && KeyUnit(key[i]) == key[i] as int;
    seq(|key|, i requires 0 <= i < |key| => KeyUnit(key[i]))
  }

  function EntryUnits(e: Entry): seq<Unit>
    requires ValidEntry(e)
  {
    KeyUnits(e.key) + [EQUALS] + e.value + [NUL]
  }

  ghost predicate AllValid(entries: seq<Entry>) {
    forall i :: 0 <= i < |entries| ==> ValidEntry(entries[i])
  }

  function EncodeEntries(entries: seq<Entry>): seq<Unit>
    requires AllValid(entries)
  {
    if entries == [] then [] else EntryUnits(entries[0]) + EncodeEntries(entries[1..])
  }

  function EncodeBlock(entries: seq<Entry>): seq<Unit>
    requires AllValid(entries)
  {
    if entries == [] then [NUL, NUL] else EncodeEntries(entries) + [NUL]
  }

  lemma EqualsIsItsCharacter()
    ensures EQUALS == '=' as int
  {
  }

  /** One `name=value` string, split at its first equals sign. */
  function SplitVariable(s: seq<Unit>): (seq<Unit>, seq<Unit>) {
    var k := IndexOf(s, EQUALS);
    if k == |s| then (s, []) else (s[..k], s[k + 1..])
  }

  /** Reads NUL-terminated strings up to the empty one. */
  function DecodeBlock(s: seq<Unit>): seq<(seq<Unit>, seq<Unit>)>
    decreases |s|
  {
    var k := IndexOf(s, NUL);
    if k == 0 || k == |s| then [] else [SplitVariable(s[..k])] + DecodeBlock(s[k + 1..])
  }

  function AsUnits(entries: seq<Entry>): (r: seq<(seq<Unit>, seq<Unit>)>)
    requires AllValid(entries)
    ensures |r| == |entries|
    ensures forall i :: 0 <= i < |entries| ==> r[i] == (KeyUnits(entries[i].key), entries[i].value)
  {
    seq(|entries|, i requires 0 <= i < |entries| => (KeyUnits(entries[i].key), entries[i].value))
  }

  lemma DecodeOne(e: Entry, rest: seq<Unit>)
    requires ValidEntry(e)
    ensures DecodeBlock(EntryUnits(e) + rest) == [(KeyUnits(e.key), e.value)] + DecodeBlock(rest)
  {
    var key := KeyUnits(e.key);
    var text := key + [EQUALS] + e.value;
    var s := EntryUnits(e) + rest;
    assert s == text + [NUL] + rest;
    IndexOfUnique(s, NUL, |text|);
    assert s[..|text|] == text && s[|text| + 1..] == rest;
    IndexOfUnique(text, EQUALS, |key|);
    assert text[..|key|] == key && text[|key| + 1..] == e.value;
  }

  lemma {:induction false} DecodeEntries(entries: seq<Entry>)
    requires AllValid(entries)
    ensures DecodeBlock(EncodeEntries(entries) + [NUL]) == AsUnits(entries)
  {
    if entries == [] {
      assert EncodeEntries(entries) + [NUL] == [NUL];
    } else {
      var rest := EncodeEntries(entries[1..]) + [NUL];
      assert EncodeEntries(entries) + [NUL] == EntryUnits(entries[0]) + rest;
      DecodeOne(entries[0], rest);
      DecodeEntries(entries[1..]);
      assert AsUnits(entries) == [(KeyUnits(entries[0].key), entries[0].value)] + AsUnits(entries[1..]);
    }
  }

  /** Decoding a block gives back its entries, in their sorted order. */
  lemma BlockRoundTrip(entries: seq<Entry>)
    requires AllValid(entries)
    ensures DecodeBlock(EncodeBlock(entries)) == AsUnits(entries)
  {
    DecodeEntries(entries);
  }

  lemma SortKeepsValid(entries: seq<Entry>)
    ensures AllValid(SortByKey(entries)) <==> AllValid(entries)
  {
    SortIsPermutation(entries);
    var sorted := SortByKey(entries);
    forall i | 0 <= i < |sorted|
      ensures sorted[i] in entries
    {
      assert sorted[i] in multiset(sorted);
    }
    forall i | 0 <= i < |entries|
      ensures entries[i] in sorted
    {
      assert entries[i] in multiset(entries);
    }
  }

  // ---------------------------------------------------------------- the encoder

  /**
    Builds the block of the entries in key order, or fails exactly when an entry is
    malformed, two keys are equal ignoring case, or the block does not fit.
   */
  method WindowsEnvironmentBlock(entries: seq<Entry>) returns (r: Option<seq<Unit>>)
    ensures AllValid(entries) ==> AllValid(SortByKey(entries))
    ensures r.Some? <==>
      && AllValid(entries) && DistinctKeys(entries)
      && |EncodeBlock(SortByKey(entries))| <= 32_767
    ensures r.Some? ==>
      && r.value == EncodeBlock(SortByKey(entries))
      && DecodeBlock(r.value) == AsUnits(SortByKey(entries))
  {
    hide SortByKey, DecodeBlock, ValidEntry;
    SortKeepsValid(entries);
    for i := 0 to |entries|
      invariant forall j :: 0 <= j < i ==> ValidEntry(entries[j])
    {
      if !ValidEntry(entries[i]) {
        return None;
      }
    }
    var ordered := SortByKey(entries);
    SortedNeighboursSuffice(entries);
    var keys := UpperKeys(ordered);
    if exists i :: 0 <= i < |keys| - 1 && keys[i] == keys[i + 1] {
      return None;
    }
    BlockRoundTrip(ordered);
    r := EncodeOrdered(ordered);
  }

  lemma EntriesStep(output: seq<Unit>, entries: seq<Entry>, i: nat)
    requires AllValid(entries) && i < |entries|
    ensures AllValid(entries[i..]) && AllValid(entries[i + 1..])
    ensures output + EncodeEntries(entries[i..]) == output + EntryUnits(entries[i]) + EncodeEntries(entries[i + 1..])
  {
    assert entries[i..][0] == entries[i] && entries[i..][1..] == entries[i + 1..];
  }

  /** The loops that write the entries out, unit by unit. */
  method EncodeOrdered(entries: seq<Entry>) returns (r: Option<seq<Unit>>)
    requires AllValid(entries)
    ensures r.Some? <==> |EncodeBlock(entries)| <= MAX_ENVIRONMENT_UNITS
    ensures r.Some? ==> r.value == EncodeBlock(entries)
  {
    hide EntryUnits, EncodeEntries, AllValid;
    var ok, output := true, [];
    WholeSuffix(entries);
    for i := 0 to |entries|
      invariant AllValid(entries[i..]) && output + EncodeEntries(entries[i..]) == EncodeEntries(entries)
      invariant |output| <= MAX_ENVIRONMENT_UNITS
    {
      EntriesStep(output, entries, i);
      var units := EntryUnits(entries[i]);
      ghost var before := output;
      for j := 0 to |units|
        invariant output == before + units[..j] && |output| <= MAX_ENVIRONMENT_UNITS
      {
        ok, output := Append(output, units[j], 1, MAX_ENVIRONMENT_UNITS);
        if !ok {
          BlockLength(entries);
          return None;
        }
      }
      assert units[..|units|] == units;
    }
    EmptySuffix(entries);
    BlockLength(entries);
    if output == [] {
      ok, output := Append(output, NUL, 1, MAX_ENVIRONMENT_UNITS);
      if !ok {
        return None;
      }
    }
    ok, output := Append(output, NUL, 1, MAX_ENVIRONMENT_UNITS);
    if !ok {
      return None;
    }
    return Some(output);
  }

  lemma WholeSuffix(entries: seq<Entry>)
    requires AllValid(entries)
    ensures AllValid(entries[0..]) && [] + EncodeEntries(entries[0..]) == EncodeEntries(entries)
  {
    assert entries[0..] == entries;
  }

  lemma EmptySuffix(entries: seq<Entry>)
    ensures AllValid(entries[|entries|..]) && EncodeEntries(entries[|entries|..]) == []
  {
  }

  lemma BlockLength(entries: seq<Entry>)
    requires AllValid(entries)
    ensures EncodeEntries(entries) == [] <==> entries == []
    ensures |EncodeBlock(entries)| == if entries == [] then 2 else |EncodeEntries(entries)| + 1
  {
  }
}
