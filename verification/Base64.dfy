/** The hand-written base64 encoder and the normalising decoder (RFC 4648). */
module Base64 {
  import opened Wrappers
  import opened Bytes

  const UPPER := "ABCDEFGHIJKLMNOPQRSTUVWXYZ"
  const LOWER := "abcdefghijklmnopqrstuvwxyz"
  const DIGITS := "0123456789"
  const ALPHA := UPPER + LOWER + DIGITS + "+/"

  /** The alphabet of section 4 of RFC 4648. */
  function Symbol(v: int): char
    requires 0 <= v < 64
  {
    if v < 26 then ('A' as int + v) as char
    else if v < 52 then ('a' as int + v - 26) as char
    else if v < 62 then ('0' as int + v - 52) as char
    else if v == 62 then '+' else '/'
  }

  function Value(c: char): (v: Option<int>)
    ensures v.Some? ==> 0 <= v.value < 64 && Symbol(v.value) == c
  {
    if 'A' <= c <= 'Z' then Some(c as int - 'A' as int)
    else if 'a' <= c <= 'z' then Some(c as int - 'a' as int + 26)
    else if '0' <= c <= '9' then Some(c as int - '0' as int + 52)
    else if c == '+' then Some(62)
    else if c == '/' then Some(63)
    else None
  }

  lemma {:induction false} UpperIsSymbols(v: nat)
    requires v < 26
    ensures |UPPER| == 26 && UPPER[v] == Symbol(v)
  {
  }

  lemma {:induction false} LowerIsSymbols(v: nat)
    requires v < 26
    ensures |LOWER| == 26 && LOWER[v] == Symbol(v + 26)
  {
  }

  lemma {:induction false} AlphaIsSymbols(v: int)
    requires 0 <= v < 64
    ensures |ALPHA| == 64 && ALPHA[v] == Symbol(v)
  {
    UpperIsSymbols(if v < 26 then v else 0);
    LowerIsSymbols(if 26 <= v < 52 then v - 26 else 0);
    assert |DIGITS| == 10;
    if 52 <= v < 62 {
      assert ALPHA[v] == DIGITS[v - 52];
    }
  }

  // ----- encoding -----

  /** The 24-bit group of up to three bytes, missing ones counted as zero. */
  function GroupBits(b: string): int
    requires |b| <= 3
  {
    (if |b| > 0 then b[0] as int * 0x10000 else 0)
    + (if |b| > 1 then b[1] as int * 0x100 else 0)
    + (if |b| > 2 then b[2] as int else 0)
  }

  /** Bits `18-6j .. 23-6j` of a group. */
  function Sextet(n: int, j: nat): int
    requires j < 4
  {
    (if j == 0 then n / 0x40000 else if j == 1 then n / 0x1000 else if j == 2 then n / 0x40 else n) % 64
  }

  function GroupText(b: string): string
    requires 1 <= |b| <= 3
  {
    var n := GroupBits(b);
    [Symbol(Sextet(n, 0)), Symbol(Sextet(n, 1)),
     if |b| < 2 then '=' else Symbol(Sextet(n, 2)),
     if |b| < 3 then '=' else Symbol(Sextet(n, 3))]
  }

  function Encode(s: string): string {
    if s == "" then ""
    else if |s| <= 3 then GroupText(s)
    else GroupText(s[..3]) + Encode(s[3..])
  }

  /** `uint32(b) << (16 - 8*k)`, or-ed into bits that are still zero. */
  function Shifted(b: char, k: nat): int
    requires k < 3
  {
    b as int * (if k == 0 then 0x10000 else if k == 1 then 0x100 else 1)
  }

  lemma {:induction false} GatherStep(b: string, c: char)
    requires |b| < 3
    ensures GroupBits(b + [c]) == GroupBits(b) + Shifted(c, |b|)
  {
  }

  lemma {:induction false} GroupChar(b: string, j: nat)
    requires 1 <= |b| <= 3 && j < 4
    ensures GroupText(b)[j] == if j > |b| then '=' else ALPHA[Sextet(GroupBits(b), j)]
  {
    AlphaIsSymbols(Sextet(GroupBits(b), j));
  }

  lemma {:induction false} EncodeSnoc(s: string, groups: nat, b: string)
    requires |s| == 3 * groups && 1 <= |b| <= 3
    ensures Encode(s + b) == Encode(s) + GroupText(b)
  {
    if s == "" {
      assert s + b == b;
    } else {
      assert (s + b)[..3] == s[..3] && (s + b)[3..] == s[3..] + b;
      EncodeSnoc(s[3..], groups - 1, b);
      if |s| == 3 {
        assert s[..3] == s && s[3..] == "";
      }
      assert Encode(s) == GroupText(s[..3]) + Encode(s[3..]);
    }
  }

  lemma {:induction false} EncodeMore(s: string, done: nat, k: nat, groups: nat)
    requires done == 3 * groups && 1 <= k <= 3 && done + k <= |s|
    ensures Encode(s[..done + k]) == Encode(s[..done]) + GroupText(s[done..done + k])
  {
    EncodeSnoc(s[..done], groups, s[done..done + k]);
    assert s[..done] + s[done..done + k] == s[..done + k];
  }

  /** The first inner loop: gather up to three bytes of `s` from `i`. */
  method Gather(s: string, i: nat) returns (n: int, k: nat)
    requires i < |s|
    ensures 1 <= k <= 3 && i + k <= |s| && (k < 3 ==> i + k == |s|)
    ensures n == GroupBits(s[i..i + k])
  {
    n, k := 0, 0;
    while k < 3 && i + k < |s|
      invariant k <= 3 && i + k <= |s|
      invariant n == GroupBits(s[i..i + k])
    {
      assert s[i..i + k + 1] == s[i..i + k] + [s[i + k]];
      GatherStep(s[i..i + k], s[i + k]);
      n := n + Shifted(s[i + k], k);
      k := k + 1;
    }
  }

  /** The second inner loop: write the four characters of a group. */
  method WriteGroup(n: int, k: nat, ghost b: string, out: string) returns (out': string)
    requires 1 <= k == |b| <= 3 && n == GroupBits(b)
    ensures out' == out + GroupText(b)
  {
    out' := out;
    for j := 0 to 4
      invariant out' == out + GroupText(b)[..j]
    {
      GroupChar(b, j);
      AlphaIsSymbols(Sextet(n, j));
      out' := out' + [if j > k then '=' else ALPHA[Sextet(n, j)]];
    }
  }

  /** `base64URLEncode`: three bytes at a time, four characters out. */
  method EncodeLoop(s: string) returns (out: string)
    ensures out == Encode(s)
  {
    out := "";
    var i := 0;
    ghost var groups, done := 0, 0;
    while i < |s|
      invariant i == 3 * groups
      invariant done <= |s| && out == Encode(s[..done])
      invariant if i < |s| then done == i else done == |s|
      decreases |s| - i
    {
      var n, k := Gather(s, i);
      ghost var b := s[i..i + k];
      out := WriteGroup(n, k, b, out);
      EncodeMore(s, done, k, groups);
      groups, done := groups + 1, done + k;
      i := i + 3;
    }
    assert s[..|s|] == s;
  }

  // ----- decoding -----

  /** The standard decoder on text already free of line breaks: quanta of four symbols,
      padding only at the very end; the spare bits of a short last quantum are ignored. */
  function DecodeQuanta(t: string): Option<string> {
    if t == "" then Some("")
    else if |t| < 4 || Value(t[0]).None? || Value(t[1]).None? then None
    else
      var n := Value(t[0]).value * 0x40000 + Value(t[1]).value * 0x1000;
      if t[2] == '=' then
        if t[2..] == "==" then Some(ByteText(n, 1)) else None
      else if Value(t[2]).None? then None
      else
        var m := n + Value(t[2]).value * 0x40;
        if t[3] == '=' then
          if |t| == 4 then Some(ByteText(m, 2)) else None
        else if Value(t[3]).None? then None
        else
          match DecodeQuanta(t[4..])
          case None => None
          case Some(rest) => Some(ByteText(m + Value(t[3]).value, 3) + rest)
  }

  /** The first `k` bytes of a 24-bit group. */
  function ByteText(n: int, k: nat): string
    requires 0 <= n < 0x1000000 && 1 <= k <= 3
  {
    [(n / 0x10000) as char, (n / 0x100 % 0x100) as char, (n % 0x100) as char][..k]
  }

  function IsBreak(c: char): bool {
    c == '\r' || c == '\n'
  }

  /** The standard decoder skips line breaks wherever they are. */
  function DropBreaks(t: string): string {
    if t == "" then ""
    else if IsBreak(t[0]) then DropBreaks(t[1..])
    else [t[0]] + DropBreaks(t[1..])
  }

  function DecodeStd(t: string): Option<string> {
    DecodeQuanta(DropBreaks(t))
  }

  function StdSymbol(c: char): char {
    if c == '-' then '+' else if c == '_' then '/' else c
  }

  function ToStd(t: string): (r: string)
    ensures |r| == |t|
    ensures forall i :: 0 <= i < |t| ==> r[i] == StdSymbol(t[i])
  {
    seq(|t|, i requires 0 <= i < |t| => StdSymbol(t[i]))
  }

  function Pad(t: string): string {
    if |t| % 4 == 2 then t + "==" else if |t| % 4 == 3 then t + "=" else t
  }

  /** `base64Decode`; None is its error. */
  function Decode(t: string): Option<string> {
    DecodeStd(Pad(ToStd(TrimSpace(t))))
  }

  // ----- round trip -----

  lemma {:induction false} ValueOfSymbol(v: int)
    requires 0 <= v < 64
    ensures Value(Symbol(v)) == Some(v) && Symbol(v) != '=' && !IsSpace(Symbol(v)) && StdSymbol(Symbol(v)) == Symbol(v)
  {
  }

  lemma {:induction false} SextetsRebuild(n: int)
    requires 0 <= n < 0x1000000
    ensures n == Sextet(n, 0) * 0x40000 + Sextet(n, 1) * 0x1000 + Sextet(n, 2) * 0x40 + Sextet(n, 3)
  {
    var a := n / 64;
    var b := a / 64;
    assert n / 0x1000 == b && n / 0x40000 == b / 64 < 64;
  }

  lemma {:induction false} OneByteRebuild(b: string)
    requires |b| == 1 && IsBytes(b)
    ensures 0 <= GroupBits(b) < 0x1000000 && ByteText(GroupBits(b), 1) == b && GroupBits(b) % 0x1000 == 0
  {
    var x := b[0] as int;
    assert GroupBits(b) == x * 0x10000 == x * 0x10 * 0x1000;
    assert GroupBits(b) / 0x10000 == x;
  }

  lemma {:induction false} TwoBytesRebuild(b: string)
    requires |b| == 2 && IsBytes(b)
    ensures 0 <= GroupBits(b) < 0x1000000 && ByteText(GroupBits(b), 2) == b && GroupBits(b) % 0x40 == 0
  {
  }

  lemma {:induction false} ThreeBytesRebuild(b: string)
    requires |b| == 3 && IsBytes(b)
    ensures 0 <= GroupBits(b) < 0x1000000 && ByteText(GroupBits(b), 3) == b
  {
    var x, y, z := b[0] as int, b[1] as int, b[2] as int;
    var n := GroupBits(b);
    assert n == (x * 0x100 + y) * 0x100 + z;
    assert n / 0x100 == x * 0x100 + y && n % 0x100 == z;
    assert n / 0x10000 == x && n / 0x100 % 0x100 == y;
  }

  lemma {:induction false} BytesRebuild(b: string)
    requires 1 <= |b| <= 3 && IsBytes(b)
    ensures 0 <= GroupBits(b) < 0x1000000
    ensures ByteText(GroupBits(b), |b|) == b
    ensures |b| == 1 ==> GroupBits(b) % 0x1000 == 0
    ensures |b| == 2 ==> GroupBits(b) % 0x40 == 0
  {
    if |b| == 1 {
      OneByteRebuild(b);
    } else if |b| == 2 {
      TwoBytesRebuild(b);
    } else {
      ThreeBytesRebuild(b);
    }
  }

  lemma {:induction false} SymbolsOfGroup(b: string)
    requires 1 <= |b| <= 3 && IsBytes(b)
    ensures 0 <= GroupBits(b) < 0x1000000
    ensures Value(GroupText(b)[0]) == Some(Sextet(GroupBits(b), 0)) &&
      Value(GroupText(b)[1]) == Some(Sextet(GroupBits(b), 1))
    ensures |b| >= 2 ==> Value(GroupText(b)[2]) == Some(Sextet(GroupBits(b), 2)) && GroupText(b)[2] != '='
    ensures |b| == 3 ==> Value(GroupText(b)[3]) == Some(Sextet(GroupBits(b), 3)) && GroupText(b)[3] != '='
  {
    BytesRebuild(b);
    ValueOfSymbol(Sextet(GroupBits(b), 0));
    ValueOfSymbol(Sextet(GroupBits(b), 1));
    ValueOfSymbol(Sextet(GroupBits(b), 2));
    ValueOfSymbol(Sextet(GroupBits(b), 3));
  }

  lemma {:induction false} DecodeFullGroup(b: string, t: string)
    requires |b| == 3 && IsBytes(b)
    ensures DecodeQuanta(GroupText(b) + t) == match DecodeQuanta(t) case None => None case Some(r) => Some(b + r)
  {
    SymbolsOfGroup(b);
    SextetsRebuild(GroupBits(b));
    BytesRebuild(b);
    var u := GroupText(b) + t;
    assert u[4..] == t;
    assert forall j :: 0 <= j < 4 ==> u[j] == GroupText(b)[j];
  }

  lemma {:induction false} DecodeOneByte(t: string, x: int, y: int)
    requires |t| == 4 && t[2] == '=' && t[3] == '='
    requires Value(t[0]) == Some(x) && Value(t[1]) == Some(y)
    ensures DecodeQuanta(t) == Some(ByteText(x * 0x40000 + y * 0x1000, 1))
  {
    assert t[2..] == "==";
  }

  lemma {:induction false} DecodeTwoBytes(t: string, x: int, y: int, z: int)
    requires |t| == 4 && t[2] != '=' && t[3] == '='
    requires Value(t[0]) == Some(x) && Value(t[1]) == Some(y) && Value(t[2]) == Some(z)
    ensures DecodeQuanta(t) == Some(ByteText(x * 0x40000 + y * 0x1000 + z * 0x40, 2))
  {
  }

  lemma {:induction false} DecodeLastGroup(b: string)
    requires 1 <= |b| <= 2 && IsBytes(b)
    ensures DecodeQuanta(GroupText(b)) == Some(b)
  {
    hide DecodeQuanta, GroupBits, GroupText, Sextet, Value;
    SymbolsOfGroup(b);
    BytesRebuild(b);
    LastGroupShape(b);
    SextetsRebuild(GroupBits(b));
    LowSextets(GroupBits(b));
    var n := GroupBits(b);
    if |b| == 1 {
      DecodeOneByte(GroupText(b), Sextet(n, 0), Sextet(n, 1));
    } else {
      DecodeTwoBytes(GroupText(b), Sextet(n, 0), Sextet(n, 1), Sextet(n, 2));
    }
  }

  lemma {:induction false} LowSextets(n: int)
    requires 0 <= n < 0x1000000
    ensures n % 0x1000 == 0 ==> Sextet(n, 2) == 0
    ensures n % 0x40 == 0 ==> Sextet(n, 3) == 0
    ensures n % 0x1000 == 0 ==> n % 0x40 == 0
  {
    var a := n / 0x40;
    assert n == 0x40 * a + n % 0x40;
    assert n / 0x1000 == a / 0x40;
  }

  lemma {:induction false} LastGroupShape(b: string)
    requires 1 <= |b| <= 2
    ensures |GroupText(b)| == 4 && GroupText(b)[3] == '=' && (|b| == 1 ==> GroupText(b)[2] == '=')
  {
  }

  lemma {:induction false} DecodeOfEncode(s: string)
    requires IsBytes(s)
    ensures DecodeQuanta(Encode(s)) == Some(s)
  {
    if s == "" {
    } else if |s| < 3 {
      DecodeLastGroup(s);
    } else {
      var b, rest := s[..3], s[3..];
      assert s == b + rest;
      DecodeOfEncode(rest);
      DecodeFullGroup(b, Encode(rest));
      if |s| == 3 {
        assert rest == "" && b == s;
        assert Encode(s) == GroupText(b) + Encode(rest);
      }
    }
  }

  /** Encoded text is whole quanta of symbols with at most two "=", both at the end. */
  ghost predicate Quanta(e: string) {
    && |e| % 4 == 0
    && (forall i :: 0 <= i < |e| ==> e[i] == '=' || Value(e[i]).Some?)
    && (forall i :: 0 <= i < |e| - 2 ==> e[i] != '=')
  }

  lemma {:induction false} EncodeLength(s: string) returns (quanta: nat)
    ensures |Encode(s)| == 4 * quanta
    ensures s != "" ==> quanta >= 1
  {
    if s == "" {
      quanta := 0;
    } else if |s| <= 3 {
      quanta := 1;
    } else {
      var rest := EncodeLength(s[3..]);
      quanta := rest + 1;
    }
  }

  lemma {:induction false} EncodeChars(s: string)
    requires IsBytes(s)
    ensures forall i :: 0 <= i < |Encode(s)| ==> Encode(s)[i] == '=' || Value(Encode(s)[i]).Some?
    ensures forall i :: 0 <= i < |Encode(s)| - 2 ==> Encode(s)[i] != '='
  {
    if s != "" {
      var b := if |s| <= 3 then s else s[..3];
      SymbolsOfGroup(b);
      if |s| > 3 {
        EncodeChars(s[3..]);
        assert |Encode(s[3..])| >= 2;
      }
    }
  }

  lemma {:induction false} EncodeShape(s: string)
    requires IsBytes(s)
    ensures Quanta(Encode(s))
    ensures s != "" ==> |Encode(s)| >= 4
  {
    hide Encode, Value;
    var quanta := EncodeLength(s);
    EncodeChars(s);
  }

  lemma {:induction false} NoBreaks(t: string)
    requires forall i :: 0 <= i < |t| ==> !IsBreak(t[i])
    ensures DropBreaks(t) == t
  {
    if t != "" {
      NoBreaks(t[1..]);
    }
  }

  lemma {:induction false} SymbolIsPlain(c: char)
    requires c == '=' || Value(c).Some?
    ensures !IsBreak(c) && !IsSpace(c) && StdSymbol(c) == c && c != '-' && c != '_'
  {
  }

  lemma {:induction false} TrimAround(left: string, t: string, right: string)
    requires forall i :: 0 <= i < |left| ==> IsSpace(left[i])
    requires forall i :: 0 <= i < |right| ==> IsSpace(right[i])
    requires t != "" ==> !IsSpace(t[0]) && !IsSpace(t[|t| - 1])
    ensures TrimSpace(left + t + right) == t
    decreases |left| + |right|
  {
    var u := left + t + right;
    if left != "" {
      assert u[1..] == left[1..] + t + right;
      TrimAround(left[1..], t, right);
    } else if right != "" {
      if t == "" {
        assert u[1..] == "" + t + right[1..];
        TrimAround("", t, right[1..]);
      } else {
        assert u == t + right;
        TrimRightOf(t, right);
      }
    } else {
      assert u == t;
    }
  }

  lemma {:induction false} TrimRightOf(t: string, right: string)
    requires forall i :: 0 <= i < |right| ==> IsSpace(right[i])
    requires t != "" && !IsSpace(t[|t| - 1])
    ensures TrimRightSpace(t + right) == t
  {
    var u := t + right;
    if right == "" {
      assert u == t;
    } else {
      assert u[..|u| - 1] == t + right[..|right| - 1];
      TrimRightOf(t, right[..|right| - 1]);
    }
  }

  /** `t` spells the encoding `e`: any "+" may appear as "-", any "/" as "_" (section 5 of
      RFC 4648), and any number of the trailing "=" may be missing (section 3.2). */
  ghost predicate Spells(t: string, e: string) {
    && |t| <= |e|
    && (forall i :: 0 <= i < |t| ==> StdSymbol(t[i]) == e[i])
    && (forall i :: |t| <= i < |e| ==> e[i] == '=')
  }

  lemma {:induction false} PadCompletes(t: string, e: string)
    requires Quanta(e) && |t| <= |e| && t == e[..|t|]
    requires forall i :: |t| <= i < |e| ==> e[i] == '='
    ensures Pad(t) == e
  {
    assert |t| < |e| ==> e[|t|] == '=';
    assert Pad(t) == e;
  }

  /** Round trip under every accepted spelling, with white space around it. */
  lemma {:induction false} RoundTrip(s: string, t: string, left: string, right: string)
    requires IsBytes(s) && Spells(t, Encode(s))
    requires forall i :: 0 <= i < |left| ==> IsSpace(left[i])
    requires forall i :: 0 <= i < |right| ==> IsSpace(right[i])
    ensures Decode(left + t + right) == Some(s)
  {
    var e := Encode(s);
    EncodeShape(s);
    forall i | 0 <= i < |t|
      ensures !IsSpace(t[i])
    {
      SymbolIsPlain(e[i]);
    }
    TrimAround(left, t, right);
    assert ToStd(t) == e[..|t|];
    PadCompletes(ToStd(t), e);
    forall i | 0 <= i < |e|
      ensures !IsBreak(e[i])
    {
      SymbolIsPlain(e[i]);
    }
    NoBreaks(e);
    DecodeOfEncode(s);
  }

  // ----- line-wrapped text -----

  lemma {:induction false} DropBreaksAppend(t: string, u: string)
    ensures DropBreaks(t + u) == DropBreaks(t) + DropBreaks(u)
  {
    if t == "" {
      assert t + u == u;
    } else {
      assert (t + u)[1..] == t[1..] + u;
      DropBreaksAppend(t[1..], u);
    }
  }

  lemma {:induction false} DropBreaksToStd(t: string)
    ensures |DropBreaks(t)| <= |t|
    ensures DropBreaks(ToStd(t)) == ToStd(DropBreaks(t))
  {
    if t != "" {
      assert ToStd(t)[1..] == ToStd(t[1..]);
      DropBreaksToStd(t[1..]);
      assert ToStd(t) == [StdSymbol(t[0])] + ToStd(t[1..]);
    }
  }

  /** Only whole quanta decode. */
  lemma {:induction false} DecodedLength(t: string) returns (quanta: nat)
    requires DecodeQuanta(t).Some?
    ensures |t| == 4 * quanta
    decreases |t|
  {
    if t == "" {
      quanta := 0;
    } else if t[2] == '=' || t[3] == '=' {
      assert t[2] == '=' ==> |t[2..]| == |t| - 2 && t[2..] == "==";
      quanta := 1;
    } else {
      var rest := DecodedLength(t[4..]);
      quanta := rest + 1;
    }
  }

  /** What `Pad` appends, by the length it sees. */
  function Padding(n: nat): string {
    if n % 4 == 2 then "==" else if n % 4 == 3 then "=" else ""
  }

  lemma {:induction false} PadOnWrapped(t: string)
    ensures DropBreaks(Pad(t)) == DropBreaks(t) + Padding(|t|)
  {
    DropBreaksAppend(t, Padding(|t|));
    NoBreaks(Padding(|t|));
    assert Pad(t) == t + Padding(|t|);
  }

  lemma {:induction false} NothingToTrim(w: string)
    requires w != "" && !IsSpace(w[0]) && !IsSpace(w[|w| - 1])
    ensures TrimSpace(w) == w
  {
  }

  /** `p` characters of padding complete the text exactly when as many were missing. */
  lemma {:induction false} CompletesIff(d: string, e: string, p: string)
    requires Quanta(e) && e != "" && |d| <= |e| && d == e[..|d|]
    requires forall i :: |d| <= i < |e| ==> e[i] == '='
    requires p == "" || p == "=" || p == "=="
    ensures if |p| == |e| - |d| then d + p == e else DecodeQuanta(d + p) == None
  {
    assert |d| < |e| ==> e[|d|] == '=';
    if |p| == |e| - |d| {
      assert d + p == e;
    } else if DecodeQuanta(d + p).Some? {
      var quanta := DecodedLength(d + p);
      OffByAFew(|e|, |d + p|, quanta);
    }
  }

  lemma {:induction false} OffByAFew(m: nat, n: nat, quanta: nat)
    requires m % 4 == 0 && n == 4 * quanta && m - 2 <= n <= m + 2
    ensures m == n
  {
  }

  /** The padding computed on a length that still counts `breaks` line-end bytes is the
      missing one exactly under the condition of `WrappedRoundTrip`. */
  lemma {:induction false} PaddingIff(whole: nat, missing: nat, breaks: nat)
    requires whole % 4 == 0 && missing <= 2 && missing <= whole
    ensures |Padding(whole - missing + breaks)| == missing <==> breaks % 4 == 0 || (missing == 0 && breaks % 4 == 1)
  {
    var n := whole - missing + breaks;
    assert n % 4 == (breaks + 4 - missing) % 4;
  }

  lemma {:induction false} WrappedDecodes(s: string, w: string)
    requires IsBytes(s) && s != "" && Spells(DropBreaks(w), Encode(s))
    requires w != "" && !IsSpace(w[0]) && !IsSpace(w[|w| - 1])
    ensures Decode(w) == if |Padding(|w|)| == |Encode(s)| - |DropBreaks(w)| then Some(s) else None
  {
    var e, t := Encode(s), ToStd(w);
    NothingToTrim(w);
    PadOnWrapped(t);
    DropBreaksToStd(w);
    var d := ToStd(DropBreaks(w));
    assert Decode(w) == DecodeQuanta(d + Padding(|w|));
    EncodeShape(s);
    assert d == e[..|d|];
    CompletesIff(d, e, Padding(|w|));
    DecodeOfEncode(s);
  }

  lemma {:induction false} FewMissing(t: string, e: string)
    requires Quanta(e) && Spells(t, e)
    ensures 0 <= |e| - |t| <= 2
  {
    assert |t| < |e| ==> e[|t|] == '=';
  }

  /** Text wrapped with CR or LF bytes, in either alphabet, with any number of its trailing
      "=" missing and white space around it: it decodes exactly when the number of line-end
      bytes inside it is a multiple of four, or one more than that and no "=" is missing. The
      padding is computed on the length that still counts them. */
  lemma {:induction false} WrappedRoundTrip(s: string, w: string, left: string, right: string)
    requires IsBytes(s) && s != "" && Spells(DropBreaks(w), Encode(s))
    requires w != "" && !IsSpace(w[0]) && !IsSpace(w[|w| - 1])
    requires forall i :: 0 <= i < |left| ==> IsSpace(left[i])
    requires forall i :: 0 <= i < |right| ==> IsSpace(right[i])
    ensures var missing, breaks := |Encode(s)| - |DropBreaks(w)|, |w| - |DropBreaks(w)|;
      Decode(left + w + right) == if breaks % 4 == 0 || (missing == 0 && breaks % 4 == 1) then Some(s) else None
  {
    hide DropBreaks, Spells, Padding, ToStd, Pad, DecodeStd;
    var e, d := Encode(s), DropBreaks(w);
    TrimAround(left, w, right);
    NothingToTrim(w);
    assert Decode(left + w + right) == Decode(w);
    WrappedDecodes(s, w);
    EncodeShape(s);
    FewMissing(d, e);
    DropBreaksToStd(w);
    PaddingIff(|e|, |e| - |d|, |w| - |d|);
    assert |e| - (|e| - |d|) + (|w| - |d|) == |w|;
  }

  lemma {:induction false} EncodeOfA()
    ensures Encode("a") == "YQ=="
  {
    assert GroupBits("a") == 97 * 0x10000;
    assert Sextet(GroupBits("a"), 0) == 24 && Sextet(GroupBits("a"), 1) == 16;
    AlphaIsSymbols(24);
    AlphaIsSymbols(16);
    assert GroupText("a") == "YQ==";
    assert Encode("a") == GroupText("a");
  }

  lemma {:induction false} OnlyBreaks(t: string)
    requires forall i :: 0 <= i < |t| ==> IsBreak(t[i])
    ensures DropBreaks(t) == ""
  {
    if t != "" {
      OnlyBreaks(t[1..]);
    }
  }

  lemma {:induction false} WrappedOnce(a: string, breaks: string, b: string)
    requires forall i :: 0 <= i < |a| ==> !IsBreak(a[i])
    requires forall i :: 0 <= i < |b| ==> !IsBreak(b[i])
    requires forall i :: 0 <= i < |breaks| ==> IsBreak(breaks[i])
    ensures DropBreaks(a + breaks + b) == a + b
  {
    DropBreaksAppend(a + breaks, b);
    DropBreaksAppend(a, breaks);
    NoBreaks(a);
    NoBreaks(b);
    OnlyBreaks(breaks);
    assert a + "" == a;
  }

  /** Two texts that do not decode: "a" encoded, its "=" stripped and one line end inside;
      and the full encoding with two line-end bytes inside. */
  lemma {:induction false} WrappingFails(w: string)
    requires w == "Y" + "\n" + "Q" || w == "Y" + "\r\n" + "Q=="
    ensures Spells(DropBreaks(w), Encode("a")) && Decode(w) == None
  {
    hide Decode, DropBreaks, Encode;
    EncodeOfA();
    WrappedOnce("Y", "\n", "Q");
    WrappedOnce("Y", "\r\n", "Q==");
    assert |"YQ"| == 2 && |"YQ=="| == 4 && |"Y" + "\n" + "Q"| == 3 && |"Y" + "\r\n" + "Q=="| == 6;
    assert DropBreaks(w) == if |w| == 3 then "YQ" else "YQ==";
    WrappedRoundTrip("a", w, "", "");
    assert "" + w + "" == w;
  }

  // ----- the bits -----

  /** Byte `k` of group `g`, zero behind the end. */
  function GroupByte(s: string, g: nat, k: nat): int {
    if 3 * g + k < |s| then s[3 * g + k] as int else 0
  }

  lemma {:induction false} SextetsOfBytes(x: int, y: int, z: int)
    requires 0 <= x < 256 && 0 <= y < 256 && 0 <= z < 256
    ensures var n := x * 0x10000 + y * 0x100 + z;
      && Sextet(n, 0) == x / 4 && Sextet(n, 1) == x % 4 * 16 + y / 16
      && Sextet(n, 2) == y % 16 * 4 + z / 64 && Sextet(n, 3) == z % 64
  {
    SextetsOfParts(x / 4, x % 4, y / 16, y % 16, z / 64, z % 64);
  }

  lemma {:induction false} SextetsOfParts(a: int, b: int, c: int, d: int, e: int, f: int)
    requires 0 <= a < 64 && 0 <= b < 4 && 0 <= c < 16 && 0 <= d < 16 && 0 <= e < 4 && 0 <= f < 64
    ensures var n := (a * 4 + b) * 0x10000 + (c * 16 + d) * 0x100 + (e * 64 + f);
      && Sextet(n, 0) == a && Sextet(n, 1) == b * 16 + c && Sextet(n, 2) == d * 4 + e && Sextet(n, 3) == f
  {
    SextetsOfFour(a, b * 16 + c, d * 4 + e, f);
  }

  lemma {:induction false} SextetsOfFour(p: int, q: int, r: int, s: int)
    requires 0 <= p < 64 && 0 <= q < 64 && 0 <= r < 64 && 0 <= s < 64
    ensures var n := p * 0x40000 + q * 0x1000 + r * 0x40 + s;
      && Sextet(n, 0) == p && Sextet(n, 1) == q && Sextet(n, 2) == r && Sextet(n, 3) == s
  {
    var n := p * 0x40000 + q * 0x1000 + r * 0x40 + s;
    assert n / 0x40000 == p;
    assert n / 0x1000 == p * 0x40 + q;
    assert n / 0x40 == p * 0x1000 + q * 0x40 + r;
  }

  /** The four characters of a group of one to three bytes, bit by bit as in section 4 of
      RFC 4648. */
  lemma {:induction false} GroupSymbols(b: string)
    requires 1 <= |b| <= 3 && IsBytes(b)
    ensures var x, y, z := GroupByte(b, 0, 0), GroupByte(b, 0, 1), GroupByte(b, 0, 2);
      0 <= x < 256 && 0 <= y < 256 && 0 <= z < 256 &&
      GroupText(b) == [
        Symbol(x / 4), Symbol(x % 4 * 16 + y / 16),
        if |b| < 2 then '=' else Symbol(y % 16 * 4 + z / 64), if |b| < 3 then '=' else Symbol(z % 64)]
  {
    hide Symbol;
    SextetsOfBytes(GroupByte(b, 0, 0), GroupByte(b, 0, 1), GroupByte(b, 0, 2));
  }

  /** Every group of three bytes becomes the four characters of its sextets, with "=" where a byte
      is missing. */
  lemma {:induction false} EncodeGroup(s: string, g: nat)
    requires IsBytes(s) && 3 * g < |s|
    ensures |Encode(s)| == 4 * ((|s| + 2) / 3) && 4 * g + 4 <= |Encode(s)|
    ensures var x, y, z := GroupByte(s, g, 0), GroupByte(s, g, 1), GroupByte(s, g, 2);
      0 <= x < 256 && 0 <= y < 256 && 0 <= z < 256 &&
      Encode(s)[4 * g..4 * g + 4] == [
        Symbol(x / 4), Symbol(x % 4 * 16 + y / 16),
        if 3 * g + 1 < |s| then Symbol(y % 16 * 4 + z / 64) else '=',
        if 3 * g + 2 < |s| then Symbol(z % 64) else '=']
    decreases g
  {
    hide Symbol, GroupText;
    EncodedLength(s);
    var b := if |s| <= 3 then s else s[..3];
    GroupSymbols(b);
    if g == 0 {
      assert Encode(s)[..4] == GroupText(b);
    } else {
      var rest := s[3..];
      EncodeGroup(rest, g - 1);
      FourBehind(GroupText(b), Encode(rest), g);
    }
  }

  lemma {:induction false} FourBehind(a: string, b: string, g: nat)
    requires |a| == 4 && g > 0 && 4 * (g - 1) + 4 <= |b|
    ensures (a + b)[4 * g..4 * g + 4] == b[4 * (g - 1)..4 * (g - 1) + 4]
  {
  }

  lemma {:induction false} EncodedLength(s: string)
    ensures |Encode(s)| == 4 * ((|s| + 2) / 3)
  {
    if |s| > 3 {
      EncodedLength(s[3..]);
      assert (|s| + 2) / 3 == (|s[3..]| + 2) / 3 + 1;
    }
  }

  /** The last two symbols of the alphabet. */
  lemma {:induction false} EncodeOfMarks()
    ensures Encode([0xFB as char, 0xEF as char, 0xBE as char]) == "++++"
    ensures Encode([0xFF as char, 0xFF as char, 0xFF as char]) == "////"
  {
    GroupSymbols([0xFB as char, 0xEF as char, 0xBE as char]);
    GroupSymbols([0xFF as char, 0xFF as char, 0xFF as char]);
  }

  /** `t` in the alphabet of section 5 of RFC 4648. */
  function UrlText(t: string): (r: string)
    ensures |r| == |t|
    ensures forall i :: 0 <= i < |t| ==> r[i] == if t[i] == '+' then '-' else if t[i] == '/' then '_' else t[i]
  {
    seq(|t|, i requires 0 <= i < |t| => if t[i] == '+' then '-' else if t[i] == '/' then '_' else t[i])
  }

  /** The URL alphabet decodes as well, with its "=" or without any of them. */
  lemma {:induction false} UrlRoundTrip(s: string, n: nat)
    requires IsBytes(s) && n <= |Encode(s)| && forall i :: n <= i < |Encode(s)| ==> Encode(s)[i] == '='
    ensures Decode(UrlText(Encode(s))[..n]) == Some(s)
  {
    var e := Encode(s);
    var t := UrlText(e)[..n];
    EncodeChars(s);
    forall i | 0 <= i < n
      ensures StdSymbol(t[i]) == e[i]
    {
      assert t[i] == UrlText(e)[i];
      SymbolIsPlain(e[i]);
    }
    RoundTrip(s, t, "", "");
    assert "" + t + "" == t;
  }

  // ----- what decodes -----

  /** Text the standard decoder takes: whole quanta, and behind a "=" only "=". */
  ghost predicate Decodable(t: string) {
    Quanta(t) && (t != "" && t[|t| - 2] == '=' ==> t[|t| - 1] == '=')
  }

  lemma {:induction false} DecodeMore(t: string)
    requires |t| > 4
    ensures DecodeQuanta(t).Some? <==>
      DecodeQuanta(t[4..]).Some? && forall i :: 0 <= i < 4 ==> Value(t[i]).Some?
  {
    hide Value, ByteText;
    EqualsIsNoSymbol();
    assert |t[2..]| > 2;
  }

  lemma {:induction false} DecodeFour(t: string)
    requires |t| == 4
    ensures DecodeQuanta(t).Some? <==>
      && Value(t[0]).Some? && Value(t[1]).Some? && (Value(t[2]).Some? || t[2] == '=')
      && (Value(t[3]).Some? || t[3] == '=') && (t[2] == '=' ==> t[3] == '=')
  {
    hide Value, ByteText;
    EqualsIsNoSymbol();
    assert t[4..] == "";
    assert t[2..] == "==" <==> t[2] == '=' && t[3] == '=';
  }

  /** The decoder takes exactly the decodable texts. */
  lemma {:induction false} DecodesIff(t: string)
    ensures DecodeQuanta(t).Some? <==> Decodable(t)
    decreases |t|
  {
    hide Value, ByteText, DecodeQuanta;
    EqualsIsNoSymbol();
    if |t| > 4 {
      var rest := t[4..];
      DecodesIff(rest);
      DecodeMore(t);
      QuantaBehind(t);
      assert rest[|rest| - 1] == t[|t| - 1];
      assert |rest| >= 2 ==> rest[|rest| - 2] == t[|t| - 2];
    } else if |t| == 4 {
      DecodeFour(t);
    } else {
      DecodeShort(t);
    }
  }

  lemma {:induction false} DecodeShort(t: string)
    requires |t| < 4
    ensures DecodeQuanta(t).Some? <==> t == ""
  {
  }

  lemma {:induction false} EqualsIsNoSymbol()
    ensures Value('=').None?
  {
  }

  lemma {:induction false} QuantaBehind(t: string)
    requires |t| > 4
    ensures Quanta(t) <==> Quanta(t[4..]) && forall i :: 0 <= i < 4 ==> Value(t[i]).Some?
  {
    hide Value;
    var rest := t[4..];
    EqualsIsNoSymbol();
    assert forall i :: 0 <= i < |rest| ==> rest[i] == t[i + 4];
    if Quanta(rest) && forall i :: 0 <= i < 4 ==> Value(t[i]).Some? {
      forall i | 0 <= i < |t|
        ensures t[i] == '=' || Value(t[i]).Some?
        ensures i < |t| - 2 ==> t[i] != '='
      {
        assert i >= 4 ==> t[i] == rest[i - 4];
      }
    }
  }
}
