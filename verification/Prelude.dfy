/** Shared vocabulary: optional values, results, text tests and counting facts. */
module Prelude {

  datatype Option<+T> = None | Some(value: T)

  datatype Result<+T, +E> = Ok(value: T) | Err(error: E)

  /** The Unicode White_Space characters, which `str::trim` removes. */
  predicate IsWhitespace(c: char) {
    || '\U{0009}' <= c <= '\U{000D}'
    || c == ' ' || c == '\U{0085}' || c == '\U{00A0}' || c == '\U{1680}'
    || '\U{2000}' <= c <= '\U{200A}'
    || c == '\U{2028}' || c == '\U{2029}' || c == '\U{202F}' || c == '\U{205F}' || c == '\U{3000}'
  }

  /** `text.trim().is_empty()` */
  predicate Blank(text: string) {
    forall i | 0 <= i < |text| :: IsWhitespace(text[i])
  }

  /** Number of bytes of the UTF-8 form of a string (`str::len`). */
  function Utf8Length(text: string): nat {
    if text == [] then 0
    else
      (if text[0] < '\U{0080}' then 1 else if text[0] < '\U{0800}' then 2
       else if text[0] < '\U{10000}' then 3 else 4) + Utf8Length(text[1..])
  }

  lemma {:induction false} Utf8LengthConcat(s: string, t: string)
    ensures Utf8Length(s + t) == Utf8Length(s) + Utf8Length(t)
  {
    if s == [] {
      assert s + t == t;
    } else {
      Utf8LengthConcat(s[1..], t);
      assert (s + t)[1..] == s[1..] + t;
    }
  }

  function Elements<T>(s: seq<T>): set<T> {
    set x | x in s
  }

  ghost predicate Distinct<T>(s: seq<T>) {
    forall i, j :: 0 <= i < j < |s| ==> s[i] != s[j]
  }

  /** Collecting a list into a set keeps its length exactly when nothing repeats. */
  lemma {:induction false} ElementsCount<T>(s: seq<T>)
    ensures |Elements(s)| <= |s|
    ensures |Elements(s)| == |s| <==> Distinct(s)
  {
    if s != [] {
      var front, last := s[..|s| - 1], s[|s| - 1];
      ElementsCount(front);
      assert s == front + [last];
      assert Elements(s) == Elements(front) + {last};
      if last in front {
        var i :| 0 <= i < |front| && front[i] == last;
        assert s[i] == s[|s| - 1];
        assert Elements(s) == Elements(front);
      }
    }
  }

  lemma {:induction false} Pigeonhole<T>(s: seq<T>, holes: set<T>) returns (i: nat, j: nat)
    requires |s| > |holes|
    requires forall k :: 0 <= k < |s| ==> s[k] in holes
    ensures i < j < |s| && s[i] == s[j]
  {
    var last := |s| - 1;
    if k :| 0 <= k < last && s[k] == s[last] {
      i, j := k, last;
    } else {
      assert |holes - {s[last]}| == |holes| - 1;
      i, j := Pigeonhole(s[..last], holes - {s[last]});
    }
  }

  /** Position of the first element with the property, or the list's length (`iter().position`). */
  function FirstWhere<T>(s: seq<T>, property: T -> bool, from: nat := 0): (i: nat)
    requires from <= |s|
    ensures from <= i <= |s| && (i < |s| ==> property(s[i])) && forall k :: from <= k < i ==> !property(s[k])
    decreases |s| - from
  {
    if from == |s| || property(s[from]) then from else FirstWhere(s, property, from + 1)
  }

  /** Position of the first occurrence of `x`, or the list's length. */
  function IndexOf<T(==)>(s: seq<T>, x: T): (i: nat)
    ensures i <= |s| && (i < |s| ==> s[i] == x) && forall k :: 0 <= k < i ==> s[k] != x
  {
    if s == [] || s[0] == x then 0 else
      var i := IndexOf(s[1..], x);
      assert forall k :: 0 < k < i + 1 ==> s[k] == s[1..][k - 1];
      i + 1
  }

  lemma IndexOfUnique<T>(s: seq<T>, x: T, i: nat)
    requires i < |s| && s[i] == x && forall k :: 0 <= k < i ==> s[k] != x
    ensures IndexOf(s, x) == i
  {
  }

  /** `char::to_ascii_lowercase` */
  function LowerAscii(c: char): char {
    if 'A' <= c <= 'Z' then (c as int + 32) as char else c
  }

  /** `char::to_ascii_uppercase` */
  function UpperAscii(c: char): char {
    if 'a' <= c <= 'z' then (c as int - 32) as char else c
  }
}
