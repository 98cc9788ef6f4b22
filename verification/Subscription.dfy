/** Reading a subscription: base64 or plain text, line by line. */
module Subscription {
  import opened Wrappers
  import opened Bytes
  import opened Trimming
  import Base64

  /** The blob decoded, or as it is when it is not base64. */
  function Decoded(raw: string): string {
    match Base64.Decode(TrimSpace(raw))
    case None => raw
    case Some(text) => text
  }

  /** The entries of a text: its lines without white space around them, blank lines and
      comments left out. */
  function Entries(lines: seq<string>): seq<string> {
    if lines == [] then []
    else
      var l := TrimSpace(lines[|lines| - 1]);
      Entries(lines[..|lines| - 1]) + if l == "" || HasPrefix(l, "#") then [] else [l]
  }

  /** `idx` are the places of the lines that are neither blank nor comments, in order, and `entries`
      is what stands there, trimmed. */
  ghost predicate InOrder(lines: seq<string>, idx: seq<nat>, entries: seq<string>) {
    && |idx| == |entries|
    && (forall k :: 0 <= k < |idx| ==> idx[k] < |lines| && entries[k] == TrimSpace(lines[idx[k]]))
    && (forall a, b :: 0 <= a < b < |idx| ==> idx[a] < idx[b])
    && (forall i :: 0 <= i < |lines| ==> (i in idx <==> TrimSpace(lines[i]) != "" && TrimSpace(lines[i])[0] != '#'))
  }

  lemma {:induction false} InOrderGrows(lines: seq<string>, idx: seq<nat>, entries: seq<string>, line: string)
    requires InOrder(lines, idx, entries)
    ensures var l := TrimSpace(line);
      if l != "" && l[0] != '#' then InOrder(lines + [line], idx + [|lines|], entries + [l])
      else InOrder(lines + [line], idx, entries)
  {
    hide TrimSpace;
  }

  lemma {:induction false} NoneInOrder()
    ensures InOrder([], [], [])
  {
  }

  /** The entries are exactly those lines, in order. */
  lemma {:induction false} EntriesInOrder(lines: seq<string>) returns (idx: seq<nat>)
    ensures InOrder(lines, idx, Entries(lines))
  {
    hide InOrder, TrimSpace;
    if lines == [] {
      idx := [];
      NoneInOrder();
    } else {
      var front, line := lines[..|lines| - 1], lines[|lines| - 1];
      idx := EntriesInOrder(front);
      InOrderGrows(front, idx, Entries(front), line);
      assert lines == front + [line];
      assert Entries(front) + [] == Entries(front);
      var l := TrimSpace(line);
      assert l != "" ==> (HasPrefix(l, "#") <==> l[0] == '#');
      if l != "" && l[0] != '#' {
        idx := idx + [|front|];
      }
    }
  }

  function EntriesOf(text: string): seq<string> {
    Entries(Split(text, '\n'))
  }

  /** The endpoints of all entries in order; `parse` gives those of one, none when the entry
      is not understood, several for a bundle. */
  function Parsed<T>(parse: string -> seq<T>, entries: seq<string>): seq<T> {
    if entries == [] then [] else Parsed(parse, entries[..|entries| - 1]) + parse(entries[|entries| - 1])
  }

  lemma {:induction false} EntriesSnoc(lines: seq<string>, n: nat)
    requires n < |lines|
    ensures var l := TrimSpace(lines[n]);
      Entries(lines[..n + 1]) == if l == "" || HasPrefix(l, "#") then Entries(lines[..n]) else Entries(lines[..n]) + [l]
  {
    assert lines[..n + 1][..n] == lines[..n];
  }

  /** The endpoints of the first entries come before those of the others. */
  lemma {:induction false} ParsedAppend<T>(parse: string -> seq<T>, a: seq<string>, b: seq<string>)
    ensures Parsed(parse, []) == []
    ensures |b| == 1 ==> Parsed(parse, b) == parse(b[0])
    ensures Parsed(parse, a + b) == Parsed(parse, a) + Parsed(parse, b)
  {
    if b == [] {
      assert a + b == a;
    } else {
      var front, last := b[..|b| - 1], b[|b| - 1];
      ParsedAppend(parse, a, front);
      ParsedSnoc(parse, a + front, last);
      assert a + b == (a + front) + [last];
      ParsedSnoc(parse, front, last);
      assert b == front + [last];
      assert |b| == 1 ==> front == [] && [] + parse(last) == parse(last);
    }
  }

  lemma {:induction false} ParsedSnoc<T>(parse: string -> seq<T>, entries: seq<string>, e: string)
    ensures Parsed(parse, entries + [e]) == Parsed(parse, entries) + parse(e)
  {
    assert (entries + [e])[..|entries|] == entries;
  }

  /** `ParseSubscription`. */
  method ParseSubscription<T>(raw: string, parse: string -> seq<T>) returns (endpoints: seq<T>)
    ensures endpoints == Parsed(parse, EntriesOf(Decoded(raw)))
  {
    hide Base64.Decode, Split, TrimSpace;
    var decoded := raw;
    var d := Base64.Decode(TrimSpace(raw));
    if d.Some? {
      decoded := d.value;
    }
    endpoints := [];
    var lines := Split(decoded, '\n');
    for n := 0 to |lines|
      invariant endpoints == Parsed(parse, Entries(lines[..n]))
    {
      var line := TrimSpace(lines[n]);
      EntriesSnoc(lines, n);
      if line == "" || HasPrefix(line, "#") {
        continue;
      }
      ParsedSnoc(parse, Entries(lines[..n]), line);
      endpoints := endpoints + parse(line);
    }
    assert lines[..|lines|] == lines;
  }

  // ----- plain or encoded -----

  /** A character that base64 text can hold. */
  predicate InBase64(c: char) {
    Base64.Value(c).Some? || c == '=' || c == '-' || c == '_' || Base64.IsBreak(c)
  }

  lemma {:induction false} QuantaHoldSymbols(t: string)
    requires Base64.DecodeQuanta(t).Some?
    ensures forall i :: 0 <= i < |t| ==> Base64.Value(t[i]).Some? || t[i] == '='
    decreases |t|
  {
    if t != "" && |t| >= 4 && t[2] != '=' && t[3] != '=' {
      var rest := t[4..];
      QuantaHoldSymbols(rest);
      forall i | 4 <= i < |t|
        ensures Base64.Value(t[i]).Some? || t[i] == '='
      {
        assert t[i] == rest[i - 4];
      }
    }
  }

  lemma {:induction false} BreaksAside(t: string, i: nat)
    requires i < |t| && !Base64.IsBreak(t[i])
    ensures t[i] in Base64.DropBreaks(t)
  {
    if i > 0 {
      BreaksAside(t[1..], i - 1);
    }
  }

  /** Text with any other character is no base64. */
  lemma {:induction false} ForeignIsPlain(t: string, i: nat)
    requires i < |t| && !InBase64(t[i])
    ensures Base64.DecodeStd(Base64.Pad(Base64.ToStd(t))) == None
  {
    var std := Base64.ToStd(t);
    var padded := Base64.Pad(std);
    assert padded[i] == std[i] == t[i];
    BreaksAside(padded, i);
    var q := Base64.DropBreaks(padded);
    if Base64.DecodeQuanta(q).Some? {
      QuantaHoldSymbols(q);
    }
  }

  lemma {:induction false} TrimKeeps(t: string, i: nat) returns (j: nat)
    requires i < |t| && !IsSpace(t[i])
    ensures j < |TrimSpace(t)| && TrimSpace(t)[j] == t[i]
  {
    var k := TrimLeftKeeps(t, i);
    TrimRightKeeps(TrimLeftSpace(t), k);
    j := k;
  }

  lemma {:induction false} TrimLeftKeeps(t: string, i: nat) returns (k: nat)
    requires i < |t| && !IsSpace(t[i])
    ensures k < |TrimLeftSpace(t)| && TrimLeftSpace(t)[k] == t[i]
  {
    if IsSpace(t[0]) {
      k := TrimLeftKeeps(t[1..], i - 1);
    } else {
      k := i;
    }
  }

  lemma {:induction false} TrimRightKeeps(t: string, i: nat)
    requires i < |t| && !IsSpace(t[i])
    ensures i < |TrimRightSpace(t)| && TrimRightSpace(t)[i] == t[i]
  {
    if IsSpace(t[|t| - 1]) {
      TrimRightKeeps(t[..|t| - 1], i);
    }
  }

  /** A text that holds any URI is read as it is: its colon is no base64. */
  lemma {:induction false} PlainTextIsKept(text: string)
    requires ':' in text
    ensures Decoded(text) == text
  {
    var i :| 0 <= i < |text| && text[i] == ':';
    var j := TrimKeeps(text, i);
    TrimSpaceTwice(text);
    ForeignIsPlain(TrimSpace(text), j);
  }

  /** A subscription gives the same endpoints plain and encoded, in every spelling of the
      encoding the decoder accepts. */
  lemma {:induction false} PlainOrEncoded<T>(text: string, t: string, left: string, right: string,
                                             parse: string -> seq<T>)
    requires IsBytes(text) && ':' in text && Base64.Spells(t, Base64.Encode(text))
    requires forall i :: 0 <= i < |left| ==> IsSpace(left[i])
    requires forall i :: 0 <= i < |right| ==> IsSpace(right[i])
    ensures Decoded(left + t + right) == text
    ensures Parsed(parse, EntriesOf(Decoded(left + t + right))) == Parsed(parse, EntriesOf(Decoded(text)))
  {
    PlainTextIsKept(text);
    Base64.RoundTrip(text, t, left, right);
    TrimSpaceTwice(left + t + right);
  }

  lemma {:induction false} EntriesHoldNo(c: char, lines: seq<string>)
    requires forall i :: 0 <= i < |lines| ==> c !in lines[i]
    ensures forall i :: 0 <= i < |Entries(lines)| ==> c !in Entries(lines)[i]
  {
    if lines != [] {
      EntriesHoldNo(c, lines[..|lines| - 1]);
      TrimSpacePiece(lines[|lines| - 1]);
      PieceFacts(TrimSpace(lines[|lines| - 1]), lines[|lines| - 1]);
    }
  }

  lemma {:induction false} SplitUnfolds(s: string, at: char)
    ensures Split(s, at) == if at in s then [s[..IndexByte(s, at)]] + Split(s[IndexByte(s, at) + 1..], at) else [s]
  {
  }

  lemma {:induction false} CutsHoldNo(c: char, s: string, i: nat)
    requires c !in s && i < |s|
    ensures c !in s[..i] && c !in s[i + 1..]
  {
    assert s == s[..i] + [s[i]] + s[i + 1..];
  }

  lemma {:induction false} SplitHoldsNo(c: char, s: string, at: char)
    requires c !in s
    ensures forall part :: part in Split(s, at) ==> c !in part
    decreases |s|
  {
    hide Split;
    SplitUnfolds(s, at);
    if at in s {
      var i := IndexByte(s, at);
      CutsHoldNo(c, s, i);
      SplitHoldsNo(c, s[i + 1..], at);
    }
  }

  lemma {:induction false} WrappedHasNoColon(text: string, w: string)
    requires IsBytes(text) && Base64.Spells(Base64.DropBreaks(w), Base64.Encode(text))
    ensures ':' !in w
  {
    Base64.EncodeShape(text);
    var e, d := Base64.Encode(text), Base64.DropBreaks(w);
    forall i | 0 <= i < |w|
      ensures w[i] != ':'
    {
      if !Base64.IsBreak(w[i]) {
        BreaksAside(w, i);
        var j :| 0 <= j < |d| && d[j] == w[i];
        assert e[j] == Base64.StdSymbol(w[i]) && (e[j] == '=' || Base64.Value(e[j]).Some?);
      }
    }
  }

  /** A subscription whose encoding was wrapped, with or without its "=", is read in full
      exactly when the line-end bytes inside it are a multiple of four, or one more than that
      and no "=" is missing; otherwise no entry with a URI is found at all. */
  lemma {:induction false} WrappedSubscription(text: string, w: string, left: string, right: string)
    requires IsBytes(text) && text != "" && Base64.Spells(Base64.DropBreaks(w), Base64.Encode(text))
    requires w != "" && !IsSpace(w[0]) && !IsSpace(w[|w| - 1])
    requires forall i :: 0 <= i < |left| ==> IsSpace(left[i])
    requires forall i :: 0 <= i < |right| ==> IsSpace(right[i])
    ensures var d, raw := Base64.DropBreaks(w), left + w + right;
      var missing, breaks := |Base64.Encode(text)| - |d|, |w| - |d|;
      if breaks % 4 == 0 || (missing == 0 && breaks % 4 == 1) then Decoded(raw) == text
      else forall i :: 0 <= i < |EntriesOf(Decoded(raw))| ==> ':' !in EntriesOf(Decoded(raw))[i]
  {
    hide Split, Entries, Base64.DecodeStd, Base64.DropBreaks, Base64.Encode;
    var raw := left + w + right;
    Base64.WrappedRoundTrip(text, w, left, right);
    TrimSpaceTwice(raw);
    WrappedHasNoColon(text, w);
    assert ':' !in raw;
    SplitHoldsNo(':', raw, '\n');
    EntriesHoldNo(':', Split(raw, '\n'));
  }
}
