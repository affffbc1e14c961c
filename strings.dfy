/** The handful of Go `strings` operations the core relies on, on `seq<char>`. */
module Strings {

  predicate HasPrefix(s: string, prefix: string)
  {
    |prefix| <= |s| && s[..|prefix|] == prefix
  }

  /** A sequence in which no element occurs twice. */
  predicate NoDuplicates<T(==)>(s: seq<T>)
  {
    forall i, j :: 0 <= i < j < |s| ==> s[i] != s[j]
  }

  /** `unicode.IsSpace`: the ASCII white space, NEL, NBSP and the Unicode space separators. */
  predicate IsSpace(c: char)
  {
    c == ' ' || c == '\t' || c == '\n' || c == '\r' || c == '\U{000B}' || c == '\U{000C}'
    || c == '\U{0085}' || c == '\U{00A0}' || c == '\U{1680}'
    || ('\U{2000}' <= c <= '\U{200A}') || c == '\U{2028}' || c == '\U{2029}'
    || c == '\U{202F}' || c == '\U{205F}' || c == '\U{3000}'
  }

  function TrimLeft(s: string): (r: string)
    ensures |r| <= |s| && r == s[|s| - |r|..]
    ensures r == [] || !IsSpace(r[0])
    ensures forall i :: 0 <= i < |s| - |r| ==> IsSpace(s[i])
  {
    if s != [] && IsSpace(s[0]) then TrimLeft(s[1..]) else s
  }

  function TrimRight(s: string): (r: string)
    ensures |r| <= |s| && r == s[..|r|]
    ensures r == [] || !IsSpace(r[|r| - 1])
    ensures forall i :: |r| <= i < |s| ==> IsSpace(s[i])
  {
    if s != [] && IsSpace(s[|s| - 1]) then TrimRight(s[..|s| - 1]) else s
  }

  /** `strings.TrimSpace`: drops leading and trailing white space. */
  function TrimSpace(s: string): (r: string)
    ensures r == [] || (!IsSpace(r[0]) && !IsSpace(r[|r| - 1]))
    ensures forall i :: 0 <= i < |s| && !IsSpace(s[i]) ==> r != []
  {
    TrimRight(TrimLeft(s))
  }

  /** Index of the first `c` in `s`, or `|s|` when there is none. */
  function IndexOf(s: string, c: char): (i: nat)
    ensures i <= |s|
    ensures i < |s| ==> s[i] == c
    ensures forall j :: 0 <= j < i ==> s[j] != c
  {
    if s == [] then 0 else if s[0] == c then 0 else 1 + IndexOf(s[1..], c)
  }

  /** Index of the last `c` in `s`, or -1 when there is none (`strings.LastIndexByte`). */
  function LastIndexOf(s: string, c: char): (i: int)
    ensures -1 <= i < |s|
    ensures i >= 0 ==> s[i] == c
    ensures forall j :: i < j < |s| ==> s[j] != c
  {
    if s == [] then -1 else if s[|s| - 1] == c then |s| - 1 else LastIndexOf(s[..|s| - 1], c)
  }

  /** `strings.Split(s, sep)` for a one-character separator: never empty, and the parts
      joined back with `sep` give `s`. */
  function Split(s: string, sep: char): (parts: seq<string>)
    ensures |parts| >= 1
    ensures parts[0] == s[..IndexOf(s, sep)]
    ensures forall k :: 0 <= k < |parts| ==> sep !in parts[k]
    decreases |s|
  {
    var i := IndexOf(s, sep);
    if i == |s| then [s] else [s[..i]] + Split(s[i + 1..], sep)
  }

  /** The inverse of `Split`. */
  function Join(parts: seq<string>, sep: string): string
  {
    if parts == [] then [] else if |parts| == 1 then parts[0] else parts[0] + sep + Join(parts[1..], sep)
  }

  /** `sub` occurs in `s` starting at position `i`. */
  predicate OccursAt(s: string, sub: string, i: int)
  {
    0 <= i && i + |sub| <= |s| && s[i..i + |sub|] == sub
  }

  /** Every part of a join occurs in the joined text. */
  lemma {:induction false} JoinContainsPart(parts: seq<string>, sep: string, k: int)
    requires 0 <= k < |parts|
    ensures exists i :: OccursAt(Join(parts, sep), parts[k], i)
    decreases |parts|
  {
    if |parts| == 1 {
      assert OccursAt(Join(parts, sep), parts[k], 0);
    } else if k == 0 {
      var t := Join(parts, sep);
      assert t == parts[0] + sep + Join(parts[1..], sep);
      assert t[0..|parts[0]|] == parts[0];
      assert OccursAt(t, parts[k], 0);
    } else {
      var rest := Join(parts[1..], sep);
      JoinContainsPart(parts[1..], sep, k - 1);
      var j :| OccursAt(rest, parts[1..][k - 1], j);
      var pre := parts[0] + sep;
      var t := Join(parts, sep);
      assert t == pre + rest;
      assert t[|pre| + j..|pre| + j + |parts[k]|] == rest[j..j + |parts[k]|];
      assert OccursAt(t, parts[k], |pre| + j);
    }
  }

  lemma {:induction false} JoinSplit(s: string, sep: char)
    ensures Join(Split(s, sep), [sep]) == s
    decreases |s|
  {
    var i := IndexOf(s, sep);
    if i < |s| {
      var rest := s[i + 1..];
      JoinSplit(rest, sep);
      var tail := Split(rest, sep);
      var parts := Split(s, sep);
      assert parts == [s[..i]] + tail;
      assert parts[1..] == tail;
      assert Join(parts, [sep]) == s[..i] + [sep] + Join(tail, [sep]);
      assert s == s[..i] + [sep] + rest;
    }
  }
}
