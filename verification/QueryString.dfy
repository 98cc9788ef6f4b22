/** Query strings as the `net/url` library writes and reads them: percent-encoding per
    section 2.1 of RFC 3986, with "+" for a space. */
module QueryString {
  import opened Wrappers
  import opened Bytes

  predicate Unreserved(c: char) {
    'A' <= c <= 'Z' || 'a' <= c <= 'z' || '0' <= c <= '9' || c == '-' || c == '_' || c == '.' || c == '~'
  }

  /** Every character is unreserved: such text means itself anywhere in a URI. */
  ghost predicate Safe(s: string) {
    forall i :: 0 <= i < |s| ==> Unreserved(s[i])
  }

  function HexDigit(d: int): char
    requires 0 <= d < 16
  {
    if d < 10 then ('0' as int + d) as char else ('A' as int + d - 10) as char
  }

  function Unhex(c: char): Option<int> {
    if '0' <= c <= '9' then Some(c as int - '0' as int)
    else if 'a' <= c <= 'f' then Some(c as int - 'a' as int + 10)
    else if 'A' <= c <= 'F' then Some(c as int - 'A' as int + 10)
    else None
  }

  function EscapeByte(c: char): string {
    if Unreserved(c) then [c]
    else if c == ' ' then "+"
    else ['%', HexDigit(c as int / 16 % 16), HexDigit(c as int % 16)]
  }

  /** `url.QueryEscape`. */
  function QueryEscape(s: string): string {
    if s == "" then "" else EscapeByte(s[0]) + QueryEscape(s[1..])
  }

  /** `url.QueryUnescape`; None is its error. */
  function QueryUnescape(s: string): Option<string> {
    if s == "" then Some("")
    else if s[0] == '%' then
      if |s| < 3 || Unhex(s[1]).None? || Unhex(s[2]).None? then None
      else
        match QueryUnescape(s[3..])
        case None => None
        case Some(rest) => Some([(Unhex(s[1]).value * 16 + Unhex(s[2]).value) as char] + rest)
    else
      match QueryUnescape(s[1..])
      case None => None
      case Some(rest) => Some([if s[0] == '+' then ' ' else s[0]] + rest)
  }

  type Pairs = seq<(string, string)>

  /** One `key=value` segment; None for a segment the library skips. */
  function ParseSegment(seg: string): Option<(string, string)> {
    if seg == "" || ';' in seg then None
    else
      var (k, v, _) := Cut(seg, '=');
      match (QueryUnescape(k), QueryUnescape(v))
      case (Some(key), Some(value)) => Some((key, value))
      case _ => None
  }

  function ParseSegments(segs: seq<string>): Pairs {
    if segs == [] then []
    else
      match ParseSegment(segs[0])
      case None => ParseSegments(segs[1..])
      case Some(p) => [p] + ParseSegments(segs[1..])
  }

  function ParseQuery(q: string): Pairs {
    ParseSegments(Split(q, '&'))
  }

  /** `Values.Get`: the first value of a key, or "". */
  function First(ps: Pairs, key: string): string {
    if ps == [] then ""
    else if ps[0].0 == key then ps[0].1
    else First(ps[1..], key)
  }

  function PairText(p: (string, string)): string {
    p.0 + "=" + QueryEscape(p.1)
  }

  function PairTexts(ps: Pairs): (ts: seq<string>)
    ensures |ts| == |ps|
    ensures forall i :: 0 <= i < |ps| ==> ts[i] == PairText(ps[i])
  {
    seq(|ps|, i requires 0 <= i < |ps| => PairText(ps[i]))
  }

  // ----- round trip -----

  /** Characters escaped text is made of; none of them delimits anything in a URI. */
  predicate Inert(c: char) {
    Unreserved(c) || c == '+' || c == '%'
  }

  lemma {:induction false} HexRoundTrip(c: char)
    requires c as int < 256
    ensures Unhex(HexDigit(c as int / 16 % 16)) == Some(c as int / 16)
    ensures Unhex(HexDigit(c as int % 16)) == Some(c as int % 16)
    ensures Unreserved(HexDigit(c as int / 16 % 16)) && Unreserved(HexDigit(c as int % 16))
  {
  }

  lemma {:induction false} UnescapeByte(c: char, t: string)
    requires c as int < 256
    ensures QueryUnescape(EscapeByte(c) + t) ==
      match QueryUnescape(t) case None => None case Some(rest) => Some([c] + rest)
  {
    HexRoundTrip(c);
    var e := EscapeByte(c) + t;
    assert e[|EscapeByte(c)|..] == t;
  }

  /** Unescaping undoes escaping on every byte string. */
  lemma {:induction false} UnescapeOfEscape(s: string)
    requires IsBytes(s)
    ensures QueryUnescape(QueryEscape(s)) == Some(s)
  {
    if s != "" {
      UnescapeOfEscape(s[1..]);
      UnescapeByte(s[0], QueryEscape(s[1..]));
      assert s == [s[0]] + s[1..];
    }
  }

  lemma {:induction false} EscapeIsInert(s: string)
    requires IsBytes(s)
    ensures forall i :: 0 <= i < |QueryEscape(s)| ==> Inert(QueryEscape(s)[i])
  {
    if s != "" {
      EscapeIsInert(s[1..]);
      HexRoundTrip(s[0]);
    }
  }

  lemma {:induction false} SafeIsItsOwnEscape(s: string)
    requires Safe(s)
    ensures QueryEscape(s) == s && IsBytes(s)
  {
    if s != "" {
      SafeIsItsOwnEscape(s[1..]);
    }
  }

  lemma {:induction false} SafeKeyIsKept(k: string)
    requires Safe(k)
    ensures QueryUnescape(k) == Some(k)
  {
    SafeIsItsOwnEscape(k);
    UnescapeOfEscape(k);
  }

  lemma {:induction false} SegmentIsInert(p: (string, string))
    requires Safe(p.0) && IsBytes(p.1)
    ensures forall i :: 0 <= i < |PairText(p)| ==> Inert(PairText(p)[i]) || PairText(p)[i] == '='
  {
    EscapeIsInert(p.1);
    var t, n := PairText(p), |p.0|;
    forall i | 0 <= i < |t|
      ensures Inert(t[i]) || t[i] == '='
    {
      assert i > n ==> t[i] == QueryEscape(p.1)[i - n - 1];
    }
  }

  lemma {:induction false} NoSemicolon(p: (string, string))
    requires Safe(p.0) && IsBytes(p.1)
    ensures PairText(p) != "" && ';' !in PairText(p)
  {
    SegmentIsInert(p);
    assert PairText(p)[|p.0|] == '=';
  }

  lemma {:induction false} SegmentRoundTrip(p: (string, string))
    requires Safe(p.0) && IsBytes(p.1)
    ensures ParseSegment(PairText(p)) == Some(p)
  {
    UnescapeOfEscape(p.1);
    SafeKeyIsKept(p.0);
    CutAppend(p.0, '=', QueryEscape(p.1));
    assert PairText(p) == p.0 + ['='] + QueryEscape(p.1);
    NoSemicolon(p);
  }

  lemma {:induction false} SegmentsRoundTrip(ps: Pairs)
    requires forall i :: 0 <= i < |ps| ==> Safe(ps[i].0) && IsBytes(ps[i].1)
    ensures ParseSegments(PairTexts(ps)) == ps
  {
    if ps != [] {
      SegmentRoundTrip(ps[0]);
      assert PairTexts(ps)[1..] == PairTexts(ps[1..]);
      SegmentsRoundTrip(ps[1..]);
    }
  }

  ghost predicate Printable(ps: Pairs) {
    ps != [] && forall i :: 0 <= i < |ps| ==> Safe(ps[i].0) && IsBytes(ps[i].1)
  }

  /** Reading a printed query gives the pairs back, in order. */
  lemma {:induction false} QueryRoundTrip(ps: Pairs)
    requires Printable(ps)
    ensures ParseQuery(Join(PairTexts(ps), '&')) == ps
  {
    var ts := PairTexts(ps);
    forall i | 0 <= i < |ts|
      ensures '&' !in ts[i]
    {
      SegmentIsInert(ps[i]);
    }
    SplitJoin(ts, '&');
    SegmentsRoundTrip(ps);
  }

  /** A printed query holds none of the characters that end it. */
  lemma {:induction false} QueryIsInert(ps: Pairs)
    requires Printable(ps)
    ensures forall i :: 0 <= i < |Join(PairTexts(ps), '&')| ==>
      var c := Join(PairTexts(ps), '&')[i]; Inert(c) || c == '=' || c == '&'
  {
    SegmentIsInert(ps[0]);
    if |ps| > 1 {
      QueryIsInert(ps[1..]);
      assert PairTexts(ps)[1..] == PairTexts(ps[1..]);
    } else {
      assert Join(PairTexts(ps), '&') == PairText(ps[0]);
    }
  }

  // ----- the form of the text -----

  /** An escaped byte: itself when unreserved (section 2.3 of RFC 3986), "+" for a space, and
      otherwise "%" and two hexadecimal digits, the letters in upper case. */
  lemma {:induction false} EscapedForm(c: char)
    requires c as int < 256
    ensures QueryEscape([c]) ==
      if ('A' <= c <= 'Z') || ('a' <= c <= 'z') || ('0' <= c <= '9') || c in {'-', '_', '.', '~'} then [c]
      else if c == ' ' then "+"
      else ['%', "0123456789ABCDEF"[c as int / 16], "0123456789ABCDEF"[c as int % 16]]
  {
    assert [c][1..] == "" && QueryEscape("") == "";
    HexText(c as int / 16);
    HexText(c as int % 16);
  }

  lemma {:induction false} HexText(d: int)
    requires 0 <= d < 16
    ensures HexDigit(d) == "0123456789ABCDEF"[d]
  {
  }

  lemma {:induction false} EscapeAppend(a: string, b: string)
    ensures QueryEscape(a + b) == QueryEscape(a) + QueryEscape(b)
  {
    if a == "" {
      assert a + b == b;
    } else {
      assert (a + b)[1..] == a[1..] + b;
      EscapeAppend(a[1..], b);
    }
  }

  /** A segment of a query: cut at its first "=", unescaped on both sides; one with a semicolon, and
      an empty one, is skipped. */
  lemma {:induction false} SegmentMeans(k: string, v: string)
    requires '=' !in k
    ensures ParseSegment(k + "=" + v) ==
      if ';' in k || ';' in v || QueryUnescape(k).None? || QueryUnescape(v).None? then None
      else Some((QueryUnescape(k).value, QueryUnescape(v).value))
    ensures ParseSegment(k) ==
      if k == "" || ';' in k || QueryUnescape(k).None? then None else Some((QueryUnescape(k).value, ""))
  {
    hide QueryUnescape;
    CutAppend(k, '=', v);
    assert k + "=" + v == k + ['='] + v;
    assert ';' in k + "=" + v <==> ';' in k || ';' in v;
    UnescapedEmpty();
  }

  lemma {:induction false} UnescapedEmpty()
    ensures QueryUnescape("") == Some("")
  {
  }

  /** Hexadecimal digits read in either case. */
  lemma {:induction false} HexEitherCase(d: int)
    requires 0 <= d < 16
    ensures Unhex("0123456789ABCDEF"[d]) == Some(d) && Unhex("0123456789abcdef"[d]) == Some(d)
  {
  }

  /** The value of a key is that of the first pair with it. */
  lemma {:induction false} FirstMeans(ps: Pairs, key: string, i: nat)
    requires i <= |ps| && forall j :: 0 <= j < i ==> ps[j].0 != key
    requires i < |ps| ==> ps[i].0 == key
    ensures First(ps, key) == if i < |ps| then ps[i].1 else ""
  {
    if i > 0 {
      FirstMeans(ps[1..], key, i - 1);
    }
  }
}
