/** The few `strings` helpers the modelled code relies on. A Go string is a Dafny
    `string` in which every character stands for one byte. */
module Bytes {
  /** A Go string proper: every character is a byte. */
  ghost predicate IsBytes(s: string) {
    forall i :: 0 <= i < |s| ==> s[i] as int < 256
  }

  predicate HasPrefix(s: string, prefix: string) {
    prefix <= s
  }

  predicate HasSuffix(s: string, suffix: string) {
    |suffix| <= |s| && s[|s| - |suffix|..] == suffix
  }

  /** `strings.IndexByte`: the first position of `c`, or -1. */
  function IndexByte(s: string, c: char): (i: int)
    ensures -1 <= i < |s|
    ensures i >= 0 ==> s[i] == c && forall j :: 0 <= j < i ==> s[j] != c
    ensures i == -1 <==> c !in s
  {
    if s == [] then -1
    else if s[0] == c then 0
    else
      var r := IndexByte(s[1..], c);
      if r == -1 then -1 else r + 1
  }

  /** `strings.LastIndexByte`: the last position of `c`, or -1. */
  function LastIndexByte(s: string, c: char): (i: int)
    ensures -1 <= i < |s|
    ensures i >= 0 ==> s[i] == c && forall j :: i < j < |s| ==> s[j] != c
    ensures i == -1 <==> c !in s
  {
    if s == [] then -1
    else if s[|s| - 1] == c then |s| - 1
    else
      var r := LastIndexByte(s[..|s| - 1], c);
      assert s == s[..|s| - 1] + [s[|s| - 1]];
      r
  }

  /** `strings.Cut(s, c)` for a one-byte separator; without one, all of `s` comes before. */
  function Cut(s: string, c: char): (r: (string, string, bool))
    ensures c !in r.0
    ensures r.2 ==> s == r.0 + [c] + r.1
    ensures !r.2 ==> c !in s && r.0 == s && r.1 == ""
  {
    var i := IndexByte(s, c);
    if i == -1 then (s, "", false) else (s[..i], s[i + 1..], true)
  }

  /** `strings.Split(s, c)` for a one-byte separator. */
  function Split(s: string, c: char): (parts: seq<string>)
    ensures |parts| >= 1
    decreases |s|
  {
    var i := IndexByte(s, c);
    if i == -1 then [s] else [s[..i]] + Split(s[i + 1..], c)
  }

  function Join(parts: seq<string>, c: char): string {
    if parts == [] then ""
    else if |parts| == 1 then parts[0]
    else parts[0] + [c] + Join(parts[1..], c)
  }

  lemma {:induction false} CutAppend(a: string, c: char, b: string)
    requires c !in a
    ensures Cut(a + [c] + b, c) == (a, b, true)
  {
    var s := a + [c] + b;
    assert s[|a|] == c && forall j :: 0 <= j < |a| ==> s[j] == a[j];
    assert s[..|a|] == a && s[|a| + 1..] == b;
  }

  lemma {:induction false} SplitStep(a: string, c: char, b: string)
    requires c !in a
    ensures Split(a + [c] + b, c) == [a] + Split(b, c)
  {
    CutAppend(a, c, b);
    var s := a + [c] + b;
    assert s[IndexByte(s, c)] == c;
  }

  /** Splitting undoes joining when no part contains the separator. */
  lemma {:induction false} SplitJoin(parts: seq<string>, c: char)
    requires |parts| >= 1
    requires forall i :: 0 <= i < |parts| ==> c !in parts[i]
    ensures Split(Join(parts, c), c) == parts
  {
    if |parts| > 1 {
      var rest := Join(parts[1..], c);
      SplitJoin(parts[1..], c);
      SplitStep(parts[0], c, rest);
      assert parts == [parts[0]] + parts[1..];
    }
  }

  /** The pieces hold no separator and join to the text again. */
  lemma {:induction false} JoinSplit(s: string, c: char)
    ensures Join(Split(s, c), c) == s
    ensures forall i :: 0 <= i < |Split(s, c)| ==> c !in Split(s, c)[i]
    decreases |s|
  {
    var i := IndexByte(s, c);
    if i >= 0 {
      JoinSplit(s[i + 1..], c);
      FirstPiece(s, c, i);
      JoinMore(s[..i], Split(s[i + 1..], c), c);
    }
  }

  lemma {:induction false} FirstPiece(s: string, c: char, i: nat)
    requires i < |s| && s[i] == c && forall j :: 0 <= j < i ==> s[j] != c
    ensures c !in s[..i] && s == s[..i] + [c] + s[i + 1..]
  {
  }

  lemma {:induction false} JoinMore(first: string, rest: seq<string>, c: char)
    requires rest != []
    ensures Join([first] + rest, c) == first + [c] + Join(rest, c)
  {
    assert ([first] + rest)[1..] == rest;
  }

  /** ASCII white space, what `strings.TrimSpace` removes from a byte string. */
  predicate IsSpace(c: char): (yes: bool)
    ensures yes <==> c as int in {0x09, 0x0A, 0x0B, 0x0C, 0x0D, 0x20}
  {
    c == ' ' || ('\t' <= c <= '\r')
  }

  function TrimLeftSpace(s: string): string {
    if s != [] && IsSpace(s[0]) then TrimLeftSpace(s[1..]) else s
  }

  function TrimRightSpace(s: string): string {
    if s != [] && IsSpace(s[|s| - 1]) then TrimRightSpace(s[..|s| - 1]) else s
  }

  function TrimSpace(s: string): string {
    TrimRightSpace(TrimLeftSpace(s))
  }
}
