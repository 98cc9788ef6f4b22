/** Decimal rendering and parsing of integers (`strconv.Itoa`, `strconv.Atoi`). */
module Decimal {
  import opened Wrappers

  const MIN_INT: int := -0x8000_0000_0000_0000
  const MAX_INT: int := 0x7FFF_FFFF_FFFF_FFFF

  predicate IsDigit(c: char) {
    '0' <= c <= '9'
  }

  function DigitOf(d: nat): (c: char)
    requires d < 10
    ensures IsDigit(c)
  {
    ('0' as int + d) as char
  }

  function NatText(n: nat): (s: string)
    ensures |s| >= 1
    ensures forall c :: c in s ==> IsDigit(c)
  {
    if n < 10 then [DigitOf(n)] else NatText(n / 10) + [DigitOf(n % 10)]
  }

  function Itoa(n: int): string {
    if n < 0 then "-" + NatText(-n) else NatText(n)
  }

  function Digits(s: string): Option<nat> {
    if s == [] || !IsDigit(s[|s| - 1]) then None
    else
      var d := s[|s| - 1] as int - '0' as int;
      if |s| == 1 then Some(d)
      else
        match Digits(s[..|s| - 1])
        case None => None
        case Some(v) => Some(10 * v + d)
  }

  /** An optional sign, then digits, within the 64-bit range of Go's `int`. */
  function Atoi(s: string): Option<int> {
    var neg := s != [] && s[0] == '-';
    var body := if s != [] && (s[0] == '-' || s[0] == '+') then s[1..] else s;
    match Digits(body)
    case None => None
    case Some(v) =>
      var n := if neg then 0 - v else 0 + v;
      if MIN_INT <= n <= MAX_INT then Some(n) else None
  }

  lemma {:induction false} DigitsOfNatText(n: nat)
    ensures Digits(NatText(n)) == Some(n)
  {
    if n >= 10 {
      DigitsOfNatText(n / 10);
      var s := NatText(n);
      assert s[..|s| - 1] == NatText(n / 10);
    }
  }

  lemma {:induction false} FirstIsDigit(n: nat)
    ensures IsDigit(NatText(n)[0])
  {
    assert NatText(n)[0] in NatText(n);
  }

  lemma {:induction false} AtoiOfItoa(n: int)
    requires MIN_INT <= n <= MAX_INT
    ensures Atoi(Itoa(n)) == Some(n)
  {
    var m: nat := if n < 0 then -n else n;
    var s := NatText(m);
    DigitsOfNatText(m);
    FirstIsDigit(m);
    assert ("-" + s)[1..] == s;
  }

  lemma {:induction false} ItoaInjective(m: int, n: int)
    requires Itoa(m) == Itoa(n)
    ensures m == n
  {
    var p: nat, q: nat := if m < 0 then -m else m, if n < 0 then -n else n;
    FirstIsDigit(p);
    FirstIsDigit(q);
    DigitsOfNatText(p);
    DigitsOfNatText(q);
    assert ("-" + NatText(p))[1..] == NatText(p) && ("-" + NatText(q))[1..] == NatText(q);
  }

  /** The decimal digits, the last one last. */
  lemma {:induction false} DigitsOfItoa(n: int, d: int)
    requires n >= 0 && 0 <= d < 10
    ensures Itoa(d) == ["0123456789"[d]]
    ensures n > 0 ==> Itoa(10 * n + d) == Itoa(n) + ["0123456789"[d]]
    ensures n > 0 ==> Itoa(-n) == "-" + Itoa(n)
  {
    assert (10 * n + d) / 10 == n && (10 * n + d) % 10 == d;
  }

  /** What parses: a sign or none, and then at least one digit and nothing else. */
  lemma {:induction false} AtoiShape(s: string)
    requires Atoi(s).Some?
    ensures s != "" && forall i :: 0 < i < |s| ==> '0' <= s[i] <= '9'
    ensures ('0' <= s[0] <= '9') || (|s| > 1 && s[0] in {'+', '-'})
  {
    var body := if s[0] == '-' || s[0] == '+' then s[1..] else s;
    DigitsShape(body);
    assert forall i :: 0 < i < |s| ==> s[i] == if |body| == |s| then body[i] else body[i - 1];
  }

  lemma {:induction false} DigitsShape(s: string)
    requires Digits(s).Some?
    ensures s != "" && forall i :: 0 <= i < |s| ==> '0' <= s[i] <= '9'
  {
    if |s| > 1 {
      DigitsShape(s[..|s| - 1]);
      assert forall i :: 0 <= i < |s| - 1 ==> s[i] == s[..|s| - 1][i];
    }
  }

  /** Any digits parse, in base ten. */
  lemma {:induction false} DigitsParse(d: string, c: char)
    requires (forall i :: 0 <= i < |d| ==> '0' <= d[i] <= '9') && '0' <= c <= '9'
    ensures Digits(d + [c]).Some? && (d != "" ==> Digits(d).Some?)
    ensures Digits(d + [c]).value == (if d == "" then 0 else 10 * Digits(d).value) + (c as int - '0' as int)
  {
    var s := d + [c];
    assert s[..|s| - 1] == d;
    if d != "" {
      DigitsParse(d[..|d| - 1], d[|d| - 1]);
      assert d[..|d| - 1] + [d[|d| - 1]] == d;
    }
  }

  /** A sign or none before digits; what does not fit 64 bits does not parse. */
  lemma {:induction false} AtoiSigns(d: string, v: nat)
    requires Digits(d) == Some(v)
    ensures Atoi(d) == Atoi("+" + d) == if v <= 0x7FFF_FFFF_FFFF_FFFF then Some(v) else None
    ensures Atoi("-" + d) == if v <= 0x8000_0000_0000_0000 then Some(0 - v) else None
  {
    DigitsShape(d);
    assert ("+" + d)[1..] == d && ("-" + d)[1..] == d;
  }
}
