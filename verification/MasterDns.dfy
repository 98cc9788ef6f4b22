/** The MasterDNS client configuration: the writer's text against the bundle reader that
    takes such text apart. */
module MasterDns {
  import opened Wrappers
  import opened Bytes
  import opened Endpoints
  import opened Trimming

  // ----- trimming -----

  predicate IsQuote(c: char) {
    c == '"' || c == '\''
  }

  function TrimLeftQuotes(s: string): string {
    if s != "" && IsQuote(s[0]) then TrimLeftQuotes(s[1..]) else s
  }

  function TrimRightQuotes(s: string): string {
    if s != "" && IsQuote(s[|s| - 1]) then TrimRightQuotes(s[..|s| - 1]) else s
  }

  function TrimQuotes(s: string): string {
    TrimRightQuotes(TrimLeftQuotes(s))
  }

  // ----- reading -----

  predicate IsBlank(c: char) {
    c == ' ' || c == '\t'
  }

  /** Quotes and commas become spaces. */
  function Unwrap(s: string): (r: string)
    ensures |r| == |s|
    ensures forall i :: 0 <= i < |s| ==> r[i] == if IsQuote(s[i]) || s[i] == ',' then ' ' else s[i]
  {
    seq(|s|, i requires 0 <= i < |s| => if IsQuote(s[i]) || s[i] == ',' then ' ' else s[i])
  }

  function CommasToSpaces(s: string): (r: string)
    ensures |r| == |s|
    ensures forall i :: 0 <= i < |s| ==> r[i] == if s[i] == ',' then ' ' else s[i]
  {
    seq(|s|, i requires 0 <= i < |s| => if s[i] == ',' then ' ' else s[i])
  }

  /** An inline comment starts at the first '#' if white space precedes that one. */
  predicate HasComment(v: string) {
    var i := IndexByte(v, '#');
    i > 0 && IsBlank(v[i - 1])
  }

  predicate IsBracketed(v: string): (yes: bool)
    ensures yes ==> |v| >= 2
  {
    v != "" && v[0] == '[' && v[|v| - 1] == ']'
  }

  function DropComment(v: string): string {
    if HasComment(v) then TrimSpace(v[..IndexByte(v, '#')]) else v
  }

  /** `tomlScalar`. */
  function TomlScalar(v: string): string {
    var u := DropComment(TrimSpace(v));
    TrimQuotes(if IsBracketed(u) then TrimSpace(Unwrap(u[1..|u| - 1])) else u)
  }

  predicate EndsWord(c: char) {
    IsBlank(c) || c == '#'
  }

  function UpTo(s: string, i: nat): string
    requires i <= |s|
    decreases |s| - i
  {
    if i < |s| && !EndsWord(s[i]) then UpTo(s, i + 1) else s[..i]
  }

  /** `firstWord`. */
  function FirstWord(s: string): string {
    UpTo(TrimSpace(s), 0)
  }

  function UpperChar(c: char): char {
    if 'a' <= c <= 'z' then (c as int - 32) as char else c
  }

  function Upper(s: string): (r: string)
    ensures |r| == |s|
    ensures forall i :: 0 <= i < |s| ==> r[i] == UpperChar(s[i])
  {
    seq(|s|, i requires 0 <= i < |s| => UpperChar(s[i]))
  }

  datatype Parsed = Parsed(domain: string, key: string, encryption: string)

  /** The names the reader looks for. */
  predicate IsSetting(k: string) {
    k == "DOMAINS" || k == "DOMAIN" || k == "ENCRYPTION_KEY" || k == "DATA_ENCRYPTION_METHOD" ||
      k == "ENCRYPTION_METHOD"
  }

  function Assign(p: Parsed, k: string, v: string): Parsed {
    if k == "DOMAINS" || k == "DOMAIN" then p.(domain := FirstWord(CommasToSpaces(v)))
    else if k == "ENCRYPTION_KEY" then p.(key := v)
    else if k == "DATA_ENCRYPTION_METHOD" || k == "ENCRYPTION_METHOD" then p.(encryption := FirstWord(v))
    else p
  }

  function ReadLine(p: Parsed, raw: string): Parsed {
    var l := TrimSpace(raw);
    if l == "" || HasPrefix(l, "#") then p
    else
      var (k, v, ok) := Cut(l, '=');
      if ok then Assign(p, Upper(TrimSpace(k)), TomlScalar(v)) else p
  }

  function Fold(f: (Parsed, string) -> Parsed, lines: seq<string>): Parsed {
    if lines == [] then Parsed("", "", "") else f(Fold(f, lines[..|lines| - 1]), lines[|lines| - 1])
  }

  function ReadLines(lines: seq<string>): Parsed {
    Fold(ReadLine, lines)
  }

  /** A setting: its name and the text behind the first "=". */
  function SettingOf(raw: string): Option<(string, string)> {
    var l := TrimSpace(raw);
    if l == "" || l[0] == '#' || '=' !in l then None
    else
      var i := IndexByte(l, '=');
      Some((TrimSpace(l[..i]), l[i + 1..]))
  }

  /** `s` is the name in capitals, small letters or both. */
  predicate InAnyCase(s: string, name: string) {
    |s| == |name| && forall i :: 0 <= i < |s| ==>
      s[i] == name[i] || ('A' <= name[i] <= 'Z' && s[i] as int == name[i] as int + 32)
  }

  datatype Setting = DomainSetting | KeySetting | MethodSetting

  predicate Sets(raw: string, which: Setting) {
    SettingOf(raw).Some? &&
    var name := SettingOf(raw).value.0;
    match which
    case DomainSetting => InAnyCase(name, "DOMAINS") || InAnyCase(name, "DOMAIN")
    case KeySetting => InAnyCase(name, "ENCRYPTION_KEY")
    case MethodSetting => InAnyCase(name, "DATA_ENCRYPTION_METHOD") || InAnyCase(name, "ENCRYPTION_METHOD")
  }

  lemma {:induction false} UpperIs(s: string, name: string)
    requires IsKeyName(name)
    ensures Upper(s) == name <==> InAnyCase(s, name)
  {
    if InAnyCase(s, name) {
      assert forall i :: 0 <= i < |s| ==> Upper(s)[i] == name[i];
    }
  }

  lemma {:induction false} NamesInAnyCase(s: string)
    ensures Upper(s) == "DOMAINS" <==> InAnyCase(s, "DOMAINS")
    ensures Upper(s) == "DOMAIN" <==> InAnyCase(s, "DOMAIN")
    ensures Upper(s) == "ENCRYPTION_KEY" <==> InAnyCase(s, "ENCRYPTION_KEY")
    ensures Upper(s) == "DATA_ENCRYPTION_METHOD" <==> InAnyCase(s, "DATA_ENCRYPTION_METHOD")
    ensures Upper(s) == "ENCRYPTION_METHOD" <==> InAnyCase(s, "ENCRYPTION_METHOD")
  {
    hide InAnyCase, Upper;
    assert IsKeyName("DOMAIN") && IsKeyName("ENCRYPTION_METHOD");
    SettingNames();
    UpperIs(s, "DOMAINS");
    UpperIs(s, "DOMAIN");
    UpperIs(s, "ENCRYPTION_KEY");
    UpperIs(s, "DATA_ENCRYPTION_METHOD");
    UpperIs(s, "ENCRYPTION_METHOD");
  }

  /** The key is read as it is, of the domains the first, of the method its first word. */
  function ReadAs(which: Setting, text: string): string {
    match which
    case DomainSetting => FirstWord(CommasToSpaces(TomlScalar(text)))
    case KeySetting => TomlScalar(text)
    case MethodSetting => FirstWord(TomlScalar(text))
  }

  function ValueOf(p: Parsed, which: Setting): string {
    match which
    case DomainSetting => p.domain
    case KeySetting => p.key
    case MethodSetting => p.encryption
  }

  /** `v` is what the last line says that sets this, or nothing without one. */
  ghost predicate SaidLast(lines: seq<string>, which: Setting, v: string) {
    if lines == [] then v == ""
    else
      var last := lines[|lines| - 1];
      if Sets(last, which) then v == ReadAs(which, SettingOf(last).value.1)
      else SaidLast(lines[..|lines| - 1], which, v)
  }

  ghost predicate SaysLast(lines: seq<string>, p: Parsed) {
    forall which :: SaidLast(lines, which, ValueOf(p, which))
  }

  lemma {:induction false} LineSets(p: Parsed, raw: string, which: Setting)
    ensures ValueOf(ReadLine(p, raw), which)
      == if Sets(raw, which) then ReadAs(which, SettingOf(raw).value.1) else ValueOf(p, which)
  {
    hide TomlScalar, FirstWord, CommasToSpaces, TrimSpace, Upper, InAnyCase;
    var l := TrimSpace(raw);
    assert l != "" ==> (HasPrefix(l, "#") <==> l[0] == '#');
    NamesInAnyCase(TrimSpace(Cut(l, '=').0));
    assert |"DOMAINS"| == 7 && |"DOMAIN"| == 6 && |"ENCRYPTION_KEY"| == 14 && |"DATA_ENCRYPTION_METHOD"| == 22 &&
      |"ENCRYPTION_METHOD"| == 17;
  }

  lemma {:induction false} SettingLastWins(lines: seq<string>, which: Setting)
    ensures SaidLast(lines, which, ValueOf(ReadLines(lines), which))
  {
    hide ReadLine, ReadAs, Sets, SettingOf, ValueOf;
    if lines == [] {
      NothingRead(which);
    } else {
      SettingLastWins(lines[..|lines| - 1], which);
      LineSets(ReadLines(lines[..|lines| - 1]), lines[|lines| - 1], which);
    }
  }

  lemma {:induction false} NothingRead(which: Setting)
    ensures ValueOf(ReadLines([]), which) == ""
  {
  }

  lemma {:induction false} LastWins(lines: seq<string>)
    ensures SaysLast(lines, ReadLines(lines))
  {
    hide ReadLines, SaidLast;
    forall which
      ensures SaidLast(lines, which, ValueOf(ReadLines(lines), which))
    {
      SettingLastWins(lines, which);
    }
  }

  /** `parseMasterDNSToml`. */
  method ParseToml(body: string) returns (domain: string, key: string, encryption: string)
    ensures Parsed(domain, key, encryption) == ReadLines(Split(body, '\n'))
    ensures SaysLast(Split(body, '\n'), Parsed(domain, key, encryption))
  {
    domain, key, encryption := "", "", "";
    var lines := Split(body, '\n');
    for n := 0 to |lines|
      invariant Parsed(domain, key, encryption) == ReadLines(lines[..n])
    {
      FoldTake(ReadLine, lines, n);
      var l := TrimSpace(lines[n]);
      if l == "" || HasPrefix(l, "#") {
        continue;
      }
      var (k, v, ok) := Cut(l, '=');
      if !ok {
        continue;
      }
      k, v := Upper(TrimSpace(k)), TomlScalar(v);
      if k == "DOMAINS" || k == "DOMAIN" {
        domain := FirstWord(CommasToSpaces(v));
      } else if k == "ENCRYPTION_KEY" {
        key := v;
      } else if k == "DATA_ENCRYPTION_METHOD" || k == "ENCRYPTION_METHOD" {
        encryption := FirstWord(v);
      }
    }
    assert lines[..|lines|] == lines;
    LastWins(lines);
  }

  // ----- writing -----

  function MethodOf(c: map<string, string>): string {
    if Get(c, "method") == "" then "5" else Get(c, "method")
  }

  function Lines(domain: string, encryption: string, key: string): seq<string> {
    [ "DOMAINS" + " = " + ("[\"" + domain + "\"]"),
      "DATA_ENCRYPTION_METHOD" + " = " + encryption,
      "ENCRYPTION_KEY" + " = " + ("\"" + key + "\""),
      "PROTOCOL_TYPE" + " = " + "\"SOCKS5\"",
      "LISTEN_IP" + " = " + "\"0.0.0.0\"",
      "LISTEN_PORT" + " = " + "5300",
      "CLIENT_RESOLVERS_FILE" + " = " + "\"client_resolvers.txt\"",
      "" ]
  }

  /** `writeMasterDNS`; nothing is written without a domain and a key. */
  function Written(c: map<string, string>): Option<string> {
    if Get(c, "domain") == "" || Get(c, "key") == "" then None
    else Some(Join(Lines(Get(c, "domain"), MethodOf(c), Get(c, "key")), '\n'))
  }

  const LISTENER :=
    ("PROTOCOL_TYPE = \"SOCKS5\"" + "\n") +
    (("LISTEN_IP = \"0.0.0.0\"" + "\n") +
    (("LISTEN_PORT = 5300" + "\n") +
    ("CLIENT_RESOLVERS_FILE = \"client_resolvers.txt\"" + "\n")))

  /** The text of the file: the three settings, each on its line, and the fixed listener. */
  lemma {:induction false} WrittenText(c: map<string, string>)
    requires Get(c, "domain") != "" && Get(c, "key") != ""
    ensures var encryption := if Get(c, "method") == "" then "5" else Get(c, "method");
      Written(c) == Some(
        ("DOMAINS = [\"" + Get(c, "domain") + "\"]\n") +
        (("DATA_ENCRYPTION_METHOD = " + encryption + "\n") +
        (("ENCRYPTION_KEY = \"" + Get(c, "key") + "\"\n") + LISTENER)))
  {
    hide Lines, Get;
    var domain, encryption, key := Get(c, "domain"), MethodOf(c), Get(c, "key");
    var ls := Lines(domain, encryption, key);
    LineTexts(domain, encryption, key);
    JoinFront(ls);
    JoinFront(ls[1..]);
    JoinFront(ls[2..]);
    assert ls[1..][1..] == ls[2..] && ls[2..][1..] == ls[3..];
    ListenerText(domain, encryption, key);
  }

  lemma {:induction false} JoinFront(ls: seq<string>)
    requires |ls| >= 2
    ensures Join(ls, '\n') == (ls[0] + "\n") + Join(ls[1..], '\n')
  {
  }

  lemma {:induction false} LineTexts(domain: string, encryption: string, key: string)
    ensures var ls := Lines(domain, encryption, key);
      && |ls| == 8
      && ls[0] + "\n" == "DOMAINS = [\"" + domain + "\"]\n"
      && ls[1] + "\n" == "DATA_ENCRYPTION_METHOD = " + encryption + "\n"
      && ls[2] + "\n" == "ENCRYPTION_KEY = \"" + key + "\"\n"
  {
    assert "DOMAINS" + " = " + ("[\"" + domain + "\"]") + "\n" == "DOMAINS = [\"" + domain + "\"]\n";
    assert "ENCRYPTION_KEY" + " = " + ("\"" + key + "\"") + "\n" == "ENCRYPTION_KEY = \"" + key + "\"\n";
  }

  lemma {:induction false} ListenerTexts(domain: string, encryption: string, key: string)
    ensures var ls := Lines(domain, encryption, key);
      && |ls| == 8
      && ls[3] == "PROTOCOL_TYPE = \"SOCKS5\""
      && ls[4] == "LISTEN_IP = \"0.0.0.0\""
      && ls[5] == "LISTEN_PORT = 5300"
      && ls[6] == "CLIENT_RESOLVERS_FILE = \"client_resolvers.txt\""
      && ls[7] == ""
  {
    assert "PROTOCOL_TYPE" + " = " + "\"SOCKS5\"" == "PROTOCOL_TYPE = \"SOCKS5\"";
    assert "LISTEN_IP" + " = " + "\"0.0.0.0\"" == "LISTEN_IP = \"0.0.0.0\"";
    assert "LISTEN_PORT" + " = " + "5300" == "LISTEN_PORT = 5300";
    assert "CLIENT_RESOLVERS_FILE" + " = " + "\"client_resolvers.txt\""
      == "CLIENT_RESOLVERS_FILE = \"client_resolvers.txt\"";
  }

  lemma {:induction false} ListenerText(domain: string, encryption: string, key: string)
    ensures |Lines(domain, encryption, key)| == 8 && Join(Lines(domain, encryption, key)[3..], '\n') == LISTENER
  {
    hide Lines;
    ListenerTexts(domain, encryption, key);
    JoinFive(Lines(domain, encryption, key)[3..]);
  }

  lemma {:induction false} JoinFive(ls: seq<string>)
    requires |ls| == 5 && ls[4] == ""
    ensures Join(ls, '\n') == (ls[0] + "\n") + ((ls[1] + "\n") + ((ls[2] + "\n") + (ls[3] + "\n")))
  {
    JoinFront(ls);
    JoinFront(ls[1..]);
    JoinFront(ls[2..]);
    JoinFront(ls[3..]);
    assert ls[1..][1..] == ls[2..] && ls[2..][1..] == ls[3..] && ls[3..][1..] == ls[4..];
    assert Join(ls[4..], '\n') == "";
    assert (ls[3] + "\n") + "" == ls[3] + "\n";
  }

  // ----- facts about trimming quotes -----

  lemma {:induction false} TrimLeftQuotesPiece(s: string)
    ensures PieceOf(TrimLeftQuotes(s), s)
  {
    if s != "" && IsQuote(s[0]) {
      TrimLeftQuotesPiece(s[1..]);
      assert s[1..] == s[1..|s|];
      PieceOfPiece(TrimLeftQuotes(s), s[1..], s);
    } else {
      assert s == s[0..|s|];
    }
  }

  lemma {:induction false} TrimRightQuotesPiece(s: string)
    ensures PieceOf(TrimRightQuotes(s), s)
  {
    if s != "" && IsQuote(s[|s| - 1]) {
      var f := s[..|s| - 1];
      TrimRightQuotesPiece(f);
      assert f == s[0..|s| - 1];
      PieceOfPiece(TrimRightQuotes(s), f, s);
    } else {
      assert s == s[0..|s|];
    }
  }

  lemma {:induction false} TrimQuotesPiece(s: string)
    ensures PieceOf(TrimQuotes(s), s)
  {
    TrimLeftQuotesPiece(s);
    TrimRightQuotesPiece(TrimLeftQuotes(s));
    PieceOfPiece(TrimQuotes(s), TrimLeftQuotes(s), s);
  }

  lemma {:induction false} UpToPiece(s: string, i: nat)
    requires i <= |s|
    requires forall j :: 0 <= j < i ==> !EndsWord(s[j])
    ensures PieceOf(UpTo(s, i), s)
    ensures forall c :: c in UpTo(s, i) ==> !EndsWord(c)
    ensures (forall c :: c in s ==> !EndsWord(c)) ==> UpTo(s, i) == s
    decreases |s| - i
  {
    if i < |s| && !EndsWord(s[i]) {
      UpToPiece(s, i + 1);
    } else {
      assert s[..i] == s[0..i];
      assert i < |s| ==> s[i] in s;
    }
  }

  lemma {:induction false} FirstWordPiece(s: string)
    ensures PieceOf(FirstWord(s), s)
    ensures forall c :: c in FirstWord(s) ==> !EndsWord(c)
    ensures (forall c :: c in s ==> !EndsWord(c)) ==> FirstWord(s) == TrimSpace(s)
  {
    var t := TrimSpace(s);
    TrimSpacePiece(s);
    PieceFacts(t, s);
    UpToPiece(t, 0);
    PieceOfPiece(FirstWord(s), t, s);
  }

  // ----- one printed line -----

  predicate IsKeyName(k: string) {
    k != "" && forall i :: 0 <= i < |k| ==> 'A' <= k[i] <= 'Z' || k[i] == '_'
  }

  lemma {:induction false} ScalarTrims(a: string, b: string)
    requires TrimSpace(a) == TrimSpace(b)
    ensures TomlScalar(a) == TomlScalar(b)
  {
  }

  /** A `NAME = value` line assigns what its value reads as. */
  lemma {:induction false} LineAssigns(p: Parsed, name: string, v: string)
    requires IsKeyName(name)
    ensures ReadLine(p, name + " = " + v) == Assign(p, name, TomlScalar(v))
  {
    var line, r := name + " = " + v, TrimRightSpace(" " + v);
    var front := name + " ";
    assert line == front + ['='] + (" " + v) && line[0] == name[0];
    TrimRightBehind(front, '=', " " + v);
    assert TrimSpace(line) == front + ['='] + r;
    CutAppend(front, '=', r);
    NameTrims(name);
    assert Upper(name) == name;
    TrimAfterRight(" " + v);
    assert (" " + v)[1..] == v;
    ScalarTrims(r, v);
  }

  lemma {:induction false} NameTrims(name: string)
    requires IsKeyName(name)
    ensures TrimSpace(name + " ") == name && '=' !in name + " "
  {
    var s := name + " ";
    assert s[0] == name[0] && s[|s| - 1] == ' ' && s[..|s| - 1] == name;
    assert !IsSpace(name[|name| - 1]);
    assert TrimRightSpace(s) == TrimRightSpace(name) == name;
  }

  // ----- one value -----

  lemma {:induction false} TrimmedEnds(s: string)
    ensures var r := TrimQuotes(s); r != "" ==> !IsQuote(r[0]) && !IsQuote(r[|r| - 1])
  {
    LeftQuotesGone(s);
    RightQuotesGone(TrimLeftQuotes(s));
  }

  lemma {:induction false} LeftQuotesGone(s: string)
    ensures var r := TrimLeftQuotes(s); r != "" ==> !IsQuote(r[0])
  {
    if s != "" && IsQuote(s[0]) {
      LeftQuotesGone(s[1..]);
    }
  }

  lemma {:induction false} RightQuotesGone(s: string)
    ensures var r := TrimRightQuotes(s);
      r != "" ==> r[0] == s[0] && !IsQuote(r[|r| - 1])
  {
    if s != "" && IsQuote(s[|s| - 1]) {
      RightQuotesGone(s[..|s| - 1]);
    }
  }

  /** Nothing that a scalar's value becomes introduces a line end. */
  lemma {:induction false} ScalarKeepsOut(v: string)
    requires '\n' !in v
    ensures '\n' !in TomlScalar(v)
  {
    var u := DropComment(TrimSpace(v));
    CommentKeepsOut(v);
    var w := if IsBracketed(u) then TrimSpace(Unwrap(u[1..|u| - 1])) else u;
    if IsBracketed(u) {
      UnwrapKeepsOut(u);
    }
    QuotesKeepOut(w);
  }

  lemma {:induction false} CommentKeepsOut(v: string)
    requires '\n' !in v
    ensures '\n' !in DropComment(TrimSpace(v))
  {
    TrimSpacePiece(v);
    PieceFacts(TrimSpace(v), v);
    DropCommentPiece(TrimSpace(v));
    PieceFacts(DropComment(TrimSpace(v)), TrimSpace(v));
  }

  lemma {:induction false} QuotesKeepOut(v: string)
    requires '\n' !in v
    ensures '\n' !in TrimQuotes(v)
  {
    TrimQuotesPiece(v);
    PieceFacts(TrimQuotes(v), v);
  }

  lemma {:induction false} UnwrapKeepsOut(u: string)
    requires '\n' !in u && IsBracketed(u)
    ensures '\n' !in TrimSpace(Unwrap(u[1..|u| - 1]))
  {
    var w := Unwrap(u[1..|u| - 1]);
    forall i | 0 <= i < |w|
      ensures w[i] != '\n'
    {
      assert u[i + 1] in u;
    }
    TrimSpacePiece(w);
    PieceFacts(TrimSpace(w), w);
  }

  lemma {:induction false} DropCommentPiece(v: string)
    ensures PieceOf(DropComment(v), v)
    ensures HasComment(v) ==> '#' !in DropComment(v)
  {
    if HasComment(v) {
      var i := IndexByte(v, '#');
      TrimSpacePiece(v[..i]);
      PieceFacts(TrimSpace(v[..i]), v[..i]);
      assert v[..i] == v[0..i];
      PieceOfPiece(TrimSpace(v[..i]), v[..i], v);
    } else {
      assert v == v[0..|v|];
    }
  }

  /** A quoted key reads back exactly unless it holds a line end, begins or ends with a quote,
      or its first '#' follows white space. */
  ghost predicate KeyOk(k: string) {
    '\n' !in k && Unquoted(k) && forall i :: 0 < i < |k| ==> !StartsComment(k, i)
  }

  predicate Unquoted(s: string) {
    s != "" ==> s[0] !in {'"', '\''} && s[|s| - 1] !in {'"', '\''}
  }

  predicate Surrounded(s: string) {
    s != "" && (IsSpace(s[0]) || IsSpace(s[|s| - 1]))
  }

  predicate StartsComment(s: string, i: nat) {
    0 < i < |s| && s[i] == '#' && '#' !in s[..i] && s[i - 1] in {' ', '\t'}
  }

  lemma {:induction false} UnquotedIff(s: string)
    ensures TrimQuotes(s) == s <==> Unquoted(s)
  {
    TrimmedEnds(s);
  }

  lemma {:induction false} CommentIff(s: string)
    ensures HasComment(s) <==> exists i :: 0 < i < |s| && StartsComment(s, i)
  {
    var n := IndexByte(s, '#');
    if HasComment(s) {
      assert StartsComment(s, n);
    }
    forall i | 0 < i < |s| && StartsComment(s, i)
      ensures HasComment(s)
    {
      FirstAt(s, '#', i);
    }
  }

  lemma {:induction false} KeyOkIff(k: string)
    ensures KeyOk(k) <==> '\n' !in k && TrimQuotes(k) == k && !HasComment(k)
  {
    hide TrimQuotes, HasComment, StartsComment, Unquoted;
    UnquotedIff(k);
    CommentIff(k);
  }

  lemma {:induction false} KeyReads(k: string)
    requires k != "" && '\n' !in k
    ensures TomlScalar("\"" + k + "\"") == k <==> KeyOk(k)
  {
    hide KeyOk;
    KeyOkIff(k);
    var w := "\"" + k + "\"";
    assert w[0] == '"' && w[|w| - 1] == '"' && w[1..|w| - 1] == k;
    assert TrimSpace(w) == w;
    QuotedComment(k);
    if HasComment(k) {
      var i := IndexByte(w, '#');
      var u := DropComment(w);
      DropCommentPiece(w);
      QuotedCut(w);
      TrimQuotesPiece(u);
      PieceFacts(TrimQuotes(u), u);
      assert '#' in k;
    } else {
      TrimmedEnds(w);
      QuotedTrim(k);
    }
  }

  lemma {:induction false} QuotedComment(k: string)
    ensures var w := "\"" + k + "\""; HasComment(w) <==> HasComment(k)
    ensures HasComment(k) ==> '#' in k
  {
    var w := "\"" + k + "\"";
    var i := IndexByte(k, '#');
    if i >= 0 {
      assert w[i + 1] == '#' && forall j :: 0 <= j < i ==> w[j + 1] == k[j];
      assert w[i] == if i == 0 then '"' else k[i - 1];
      FirstAt(w, '#', i + 1);
    } else {
      assert forall j :: 0 <= j < |w| ==> w[j] == if 0 < j < |w| - 1 then k[j - 1] else '"';
      assert '#' !in w;
    }
  }

  lemma {:induction false} FirstAt(s: string, c: char, i: nat)
    requires i < |s| && s[i] == c && forall j :: 0 <= j < i ==> s[j] != c
    ensures IndexByte(s, c) == i
  {
    assert c in s;
  }

  /** A quoted value is never taken for an array, even when a comment was cut off it. */
  lemma {:induction false} QuotedCut(w: string)
    requires w != "" && w[0] == '"'
    ensures !IsBracketed(DropComment(w))
  {
    if HasComment(w) {
      var v := w[..IndexByte(w, '#')];
      assert v[0] == '"' && TrimLeftSpace(v) == v;
      TrimRightKeepsFirst(v);
    }
  }

  lemma {:induction false} TrimRightKeepsFirst(s: string)
    requires s != "" && !IsSpace(s[0])
    ensures TrimRightSpace(s) != "" && TrimRightSpace(s)[0] == s[0]
  {
    if IsSpace(s[|s| - 1]) {
      TrimRightKeepsFirst(s[..|s| - 1]);
    }
  }

  lemma {:induction false} QuotedTrim(k: string)
    requires k != ""
    ensures TrimQuotes("\"" + k + "\"") == k <==> TrimQuotes(k) == k
  {
    var w := "\"" + k + "\"";
    TrimmedEnds(w);
    TrimmedEnds(k);
    if !IsQuote(k[0]) && !IsQuote(k[|k| - 1]) {
      assert w[1..] == k + "\"" && (k + "\"")[0] == k[0];
      assert TrimLeftQuotes(w) == TrimLeftQuotes(w[1..]) == k + "\"";
      assert (k + "\"")[..|k|] == k;
      assert TrimRightQuotes(k + "\"") == TrimRightQuotes(k) == k;
    }
  }

  /** An unquoted method reads back exactly when it is one word that is no array and has no
      quotes around it. */
  predicate MethodOk(m: string) {
    && (forall c :: c in m ==> c !in {'\n', ' ', '\t', '#'})
    && !Surrounded(m) && Unquoted(m) && !(m != "" && m[0] == '[' && m[|m| - 1] == ']')
  }

  lemma {:induction false} MethodOkIff(m: string)
    ensures MethodOk(m) <==>
      && '\n' !in m && (forall c :: c in m ==> !EndsWord(c))
      && TrimSpace(m) == m && !IsBracketed(m) && TrimQuotes(m) == m
  {
    hide TrimQuotes, TrimSpace, Unquoted;
    UnquotedIff(m);
    TrimmedIff(m);
  }

  lemma {:induction false} MethodReads(m: string)
    requires m != "" && '\n' !in m
    ensures FirstWord(TomlScalar(m)) == m <==> MethodOk(m)
  {
    hide MethodOk;
    MethodOkIff(m);
    var s := TomlScalar(m);
    FirstWordPiece(s);
    if forall c :: c in m ==> !EndsWord(c) {
      MethodWordReads(m);
    }
  }

  lemma {:induction false} MethodWordReads(m: string)
    requires m != "" && '\n' !in m && forall c :: c in m ==> !EndsWord(c)
    ensures FirstWord(TomlScalar(m)) == m <==> MethodOk(m)
  {
    hide IsBracketed, FirstWord, TrimSpace, TrimQuotes, Unwrap, MethodOk;
    MethodOkIff(m);
    var s, t := TomlScalar(m), TrimSpace(m);
    FirstWordPiece(s);
    TrimSpacePiece(m);
    PieceFacts(t, m);
    NoCommentToDrop(t);
    if IsBracketed(t) {
      BracketedShrinks(t);
      PieceFacts(FirstWord(s), s);
      assert |FirstWord(s)| < |m|;
    } else {
      TrimQuotesPiece(t);
      PieceFacts(s, t);
      assert FirstWord(s) == TrimSpace(s);
      TrimSpacePiece(s);
      PieceFacts(TrimSpace(s), s);
    }
  }

  lemma {:induction false} NoCommentToDrop(t: string)
    requires forall c :: c in t ==> !EndsWord(c)
    ensures DropComment(t) == t
  {
  }

  lemma {:induction false} BracketedShrinks(u: string)
    requires IsBracketed(u)
    ensures |TrimQuotes(TrimSpace(Unwrap(u[1..|u| - 1])))| < |u|
  {
    var w := Unwrap(u[1..|u| - 1]);
    TrimSpacePiece(w);
    PieceFacts(TrimSpace(w), w);
    TrimQuotesPiece(TrimSpace(w));
    PieceFacts(TrimQuotes(TrimSpace(w)), TrimSpace(w));
  }

  predicate InWord(c: char) {
    !EndsWord(c) && !IsQuote(c) && c != ','
  }

  /** A domain in its one-element array reads back exactly when it holds no word end, quote
      or comma, and no white space around it. */
  predicate DomainOk(d: string) {
    (forall c :: c in d ==> c !in {'\n', ' ', '\t', '#', '"', '\'', ','}) && !Surrounded(d)
  }

  lemma {:induction false} DomainOkIff(d: string)
    ensures DomainOk(d) <==> '\n' !in d && (forall c :: c in d ==> InWord(c)) && TrimSpace(d) == d
  {
    hide TrimSpace;
    TrimmedIff(d);
  }

  function DomainValue(d: string): string {
    FirstWord(CommasToSpaces(TomlScalar("[\"" + d + "\"]")))
  }

  lemma {:induction false} WrapShape(d: string)
    requires forall c :: c in d ==> !EndsWord(c)
    ensures var w := "[\"" + d + "\"]";
      && TrimSpace(w) == w && IsBracketed(w) && DropComment(w) == w
  {
    var w := "[\"" + d + "\"]";
    forall i | 0 <= i < |w|
      ensures w[i] != '#'
    {
      assert 1 < i < |w| - 2 ==> w[i] == d[i - 2] && d[i - 2] in d;
    }
    assert '#' !in w;
    assert w[0] == '[' && w[|w| - 1] == ']';
  }

  lemma {:induction false} DomainReads(d: string)
    requires d != "" && '\n' !in d
    ensures DomainValue(d) == d <==> DomainOk(d)
  {
    hide DomainOk, TrimSpace, FirstWord, TrimQuotes, Unwrap, PieceOf;
    DomainOkIff(d);
    var w := "[\"" + d + "\"]";
    var s := TomlScalar(w);
    var x := CommasToSpaces(s);
    FirstWordPiece(x);
    PieceFacts(FirstWord(x), x);
    assert ',' !in x;
    if forall c :: c in d ==> !EndsWord(c) {
      WrapShape(d);
      WrappedDomain(d);
      if forall c :: c in d ==> InWord(c) {
        PlainDomain(d);
      } else {
        NoQuoteAppears(s);
      }
    }
  }

  lemma {:induction false} NoQuoteAppears(s: string)
    requires forall c :: c in s ==> !IsQuote(c)
    ensures forall c :: c in CommasToSpaces(s) ==> !IsQuote(c)
  {
    var x := CommasToSpaces(s);
    forall i | 0 <= i < |x|
      ensures !IsQuote(x[i])
    {
      assert s[i] in s;
    }
  }

  lemma {:induction false} WrappedDomain(d: string)
    ensures var w := "[\"" + d + "\"]";
      forall c :: c in TrimQuotes(TrimSpace(Unwrap(w[1..|w| - 1]))) ==> !IsQuote(c)
  {
    var w := "[\"" + d + "\"]";
    var u := Unwrap(w[1..|w| - 1]);
    TrimSpacePiece(u);
    PieceFacts(TrimSpace(u), u);
    TrimQuotesPiece(TrimSpace(u));
    PieceFacts(TrimQuotes(TrimSpace(u)), TrimSpace(u));
  }

  lemma {:induction false} NoQuotesToTrim(s: string)
    requires forall c :: c in s ==> !IsQuote(c)
    ensures TrimQuotes(s) == s
  {
    assert s != "" ==> s[0] in s && s[|s| - 1] in s;
  }

  lemma {:induction false} PlainDomain(d: string)
    requires d != "" && forall c :: c in d ==> InWord(c)
    ensures var w := "[\"" + d + "\"]";
      FirstWord(CommasToSpaces(TrimQuotes(TrimSpace(Unwrap(w[1..|w| - 1]))))) == TrimSpace(d)
  {
    var w := "[\"" + d + "\"]";
    var u := Unwrap(w[1..|w| - 1]);
    assert u == " " + d + " " by {
      assert forall i :: 0 <= i < |d| ==> d[i] in d;
    }
    SpacesAround(d);
    var t := TrimSpace(d);
    TrimSpacePiece(d);
    PieceFacts(t, d);
    NoQuotesToTrim(t);
    assert CommasToSpaces(t) == t by {
      assert forall i :: 0 <= i < |t| ==> t[i] in t;
    }
    FirstWordPiece(t);
    TrimSpaceTwice(d);
  }

  lemma {:induction false} SpacesAround(d: string)
    ensures TrimSpace(" " + d + " ") == TrimSpace(d)
  {
    var s := " " + d + " ";
    assert s[1..] == d + " " && s[..|s| - 1] == " " + d && (" " + d)[1..] == d;
    TrimsCommute(s);
    TrimsCommute(" " + d);
    assert TrimRightSpace(s) == TrimRightSpace(" " + d);
    assert TrimLeftSpace(" " + d) == TrimLeftSpace(d);
  }

  /** An array is read up to its first comma, whatever else it holds. */
  lemma {:induction false} ArrayReadsFirst(d: string, rest: string)
    requires d != "" && DomainOk(d) && '#' !in rest
    ensures ReadAs(DomainSetting, "[\"" + d + "\", " + rest + "]") == d
  {
    hide DomainOk, TrimSpace, FirstWord, TrimQuotes, Unwrap, IsBracketed, EndsWord, PieceOf;
    DomainOkIff(d);
    var w := "[\"" + d + "\", " + rest + "]";
    ArrayShape(d, rest);
    var u := Unwrap(w[1..|w| - 1]);
    var t := TrimSpace(u);
    TrimSpacePiece(u);
    PieceFacts(t, u);
    var z := FirstStays(d, u);
    TrimSpaceTwice(u);
    NoQuotesToTrim(t);
    assert CommasToSpaces(t) == t by {
      assert forall i :: 0 <= i < |t| ==> t[i] in t;
    }
    FirstWordIs(d, z);
  }

  lemma {:induction false} ArrayShape(d: string, rest: string)
    requires '#' !in rest && forall c :: c in d ==> InWord(c)
    ensures var w := "[\"" + d + "\", " + rest + "]";
      && TrimSpace(w) == w && IsBracketed(w) && DropComment(w) == w
      && " " + d + "   " <= Unwrap(w[1..|w| - 1])
  {
    var w := "[\"" + d + "\", " + rest + "]";
    var front := "[\"" + d;
    assert w == front + "\", " + rest + "]";
    assert '#' !in d;
    assert '#' !in w;
    var u := Unwrap(w[1..|w| - 1]);
    forall i | 0 <= i < |d| + 4
      ensures u[i] == (" " + d + "   ")[i]
    {
      assert 1 <= i <= |d| ==> w[i + 1] == d[i - 1] && d[i - 1] in d;
    }
    assert u[..|d| + 4] == " " + d + "   ";
  }

  /** What white space around leaves of a text that starts with a blank, `d` and a blank. */
  lemma {:induction false} FirstStays(d: string, u: string) returns (z: string)
    requires d != "" && TrimSpace(d) == d && " " + d + " " <= u
    ensures TrimSpace(u) == d + z && (z == "" || z[0] == ' ')
  {
    TrimmedIff(d);
    var y := u[|d| + 2..];
    assert u == " " + d + " " + y && u[1..] == d + " " + y;
    var a, c := d[..|d| - 1], d[|d| - 1];
    assert u[1..] == a + [c] + ([' '] + y) && d == a + [c];
    TrimRightBehind(a, c, [' '] + y);
    z := TrimRightSpace([' '] + y);
    TrimRightCons(' ', y);
    assert TrimLeftSpace(u) == TrimLeftSpace(u[1..]) == u[1..];
  }

  lemma {:induction false} FirstWordIs(d: string, z: string)
    requires d != "" && (forall c :: c in d ==> !EndsWord(c)) && (z == "" || z[0] == ' ')
    requires TrimSpace(d + z) == d + z
    ensures FirstWord(d + z) == d
  {
    forall j | 0 <= j < |d|
      ensures !EndsWord((d + z)[j])
    {
      assert (d + z)[j] == d[j] && d[j] in d;
    }
    UpToStops(d + z, 0, |d|);
  }

  lemma {:induction false} UpToStops(s: string, i: nat, n: nat)
    requires i <= n <= |s| && (n == |s| || EndsWord(s[n])) && forall j :: 0 <= j < n ==> !EndsWord(s[j])
    ensures UpTo(s, i) == s[..n]
    decreases n - i
  {
    if i < n {
      UpToStops(s, i + 1, n);
    }
  }

  /** A comment behind a quoted value is no part of it. */
  lemma {:induction false} CommentIsDropped(k: string, text: string)
    requires k != "" && KeyOk(k) && '#' !in k
    ensures TomlScalar("\"" + k + "\" #" + text) == k
  {
    hide KeyOk;
    KeyOkIff(k);
    var front, r := "\"" + k + "\" ", TrimRightSpace(text);
    var w := "\"" + k + "\" #" + text;
    assert w == front + ['#'] + text && w[0] == '"';
    TrimRightBehind(front, '#', text);
    var v := front + ['#'] + r;
    assert TrimSpace(w) == v;
    assert '#' !in front && v[|front|] == '#' && v[|front| - 1] == ' ' && v[..|front|] == front;
    FirstAt(v, '#', |front|);
    var q := "\"" + k + "\"";
    assert front == q + " " && front[..|front| - 1] == q && front[0] == '"';
    assert TrimSpace(front) == TrimRightSpace(q) == q;
    assert DropComment(v) == q;
    QuotedTrim(k);
  }

  // ----- the whole text -----

  lemma {:induction false} LinesAreLines(domain: string, encryption: string, key: string)
    requires '\n' !in domain && '\n' !in encryption && '\n' !in key
    ensures var ls := Lines(domain, encryption, key); Split(Join(ls, '\n'), '\n') == ls
  {
    hide Lines, Split, Join;
    LinesHoldNoLineEnd(domain, encryption, key);
    SplitJoin(Lines(domain, encryption, key), '\n');
  }

  predicate OneLine(s: string) {
    '\n' !in s
  }

  lemma {:induction false} LinesHoldNoLineEnd(domain: string, encryption: string, key: string)
    requires '\n' !in domain && '\n' !in encryption && '\n' !in key
    ensures var ls := Lines(domain, encryption, key); |ls| >= 1 && forall i :: 0 <= i < |ls| ==> '\n' !in ls[i]
  {
    var ls := Lines(domain, encryption, key);
    EachLine(domain, encryption, key);
    forall i | 0 <= i < |ls|
      ensures '\n' !in ls[i]
    {
      assert OneLine(ls[i]);
    }
  }

  lemma {:induction false} EachLine(domain: string, encryption: string, key: string)
    requires OneLine(domain) && OneLine(encryption) && OneLine(key)
    ensures forall i :: 0 <= i < |Lines(domain, encryption, key)| ==> OneLine(Lines(domain, encryption, key)[i])
  {
    hide OneLine;
    OneLineLiterals();
    OneLineJoined("[\"", domain, "\"]");
    OneLineJoined("\"", key, "\"");
    OneLineJoined("DOMAINS", " = ", "[\"" + domain + "\"]");
    OneLineJoined("DATA_ENCRYPTION_METHOD", " = ", encryption);
    OneLineJoined("ENCRYPTION_KEY", " = ", "\"" + key + "\"");
    OneLineJoined("PROTOCOL_TYPE", " = ", "\"SOCKS5\"");
    OneLineJoined("LISTEN_IP", " = ", "\"0.0.0.0\"");
    OneLineJoined("LISTEN_PORT", " = ", "5300");
    OneLineJoined("CLIENT_RESOLVERS_FILE", " = ", "\"client_resolvers.txt\"");
  }

  lemma {:induction false} OneLineLiterals()
    ensures OneLine("") && OneLine(" = ") && OneLine("[\"") && OneLine("\"]") && OneLine("\"")
    ensures OneLine("DOMAINS") && OneLine("DATA_ENCRYPTION_METHOD") && OneLine("ENCRYPTION_KEY")
    ensures OneLine("PROTOCOL_TYPE") && OneLine("LISTEN_IP") && OneLine("LISTEN_PORT")
    ensures OneLine("CLIENT_RESOLVERS_FILE") && OneLine("\"SOCKS5\"") && OneLine("\"0.0.0.0\"") && OneLine("5300")
    ensures OneLine("\"client_resolvers.txt\"")
  {
  }

  lemma {:induction false} OneLineJoined(a: string, b: string, c: string)
    requires OneLine(a) && OneLine(b) && OneLine(c)
    ensures OneLine(a + b + c)
  {
  }

  lemma {:induction false} SettingNames()
    ensures IsKeyName("DOMAINS") && IsKeyName("DATA_ENCRYPTION_METHOD") && IsKeyName("ENCRYPTION_KEY")
  {
  }

  lemma {:induction false} NotSettings()
    ensures IsKeyName("PROTOCOL_TYPE") && !IsSetting("PROTOCOL_TYPE")
    ensures IsKeyName("LISTEN_IP") && !IsSetting("LISTEN_IP")
    ensures IsKeyName("LISTEN_PORT") && !IsSetting("LISTEN_PORT")
    ensures IsKeyName("CLIENT_RESOLVERS_FILE") && !IsSetting("CLIENT_RESOLVERS_FILE")
  {
    assert |"PROTOCOL_TYPE"| == 13 && |"LISTEN_IP"| == 9 && |"LISTEN_PORT"| == 11 && |"CLIENT_RESOLVERS_FILE"| == 21;
    assert |"DOMAINS"| == 7 && |"DOMAIN"| == 6 && |"ENCRYPTION_KEY"| == 14 && |"DATA_ENCRYPTION_METHOD"| == 22 &&
      |"ENCRYPTION_METHOD"| == 17;
  }

  // The lines one after the other; `f` stands for the reader.

  lemma {:induction false} FoldTake(f: (Parsed, string) -> Parsed, ls: seq<string>, k: nat)
    requires k < |ls|
    ensures Fold(f, ls[..k + 1]) == f(Fold(f, ls[..k]), ls[k])
  {
    assert ls[..k + 1][..k] == ls[..k];
  }

  lemma {:induction false} FoldIgnores(f: (Parsed, string) -> Parsed, ls: seq<string>, a: nat, b: nat)
    requires a <= b <= |ls|
    requires forall k :: a <= k < b ==> f(Fold(f, ls[..a]), ls[k]) == Fold(f, ls[..a])
    ensures Fold(f, ls[..b]) == Fold(f, ls[..a])
  {
    if a < b {
      FoldIgnores(f, ls, a, b - 1);
      FoldTake(f, ls, b - 1);
    }
  }

  lemma {:induction false} FoldChain(f: (Parsed, string) -> Parsed, ls: seq<string>, values: Parsed)
    requires |ls| == 8
    requires f(Parsed("", "", ""), ls[0]) == Parsed(values.domain, "", "")
    requires f(Parsed(values.domain, "", ""), ls[1]) == values.(key := "")
    requires f(values.(key := ""), ls[2]) == values
    requires forall k :: 3 <= k < 8 ==> f(values, ls[k]) == values
    ensures Fold(f, ls) == values
  {
    FoldTake(f, ls, 0);
    FoldTake(f, ls, 1);
    FoldTake(f, ls, 2);
    FoldIgnores(f, ls, 3, 8);
    assert ls[..8] == ls;
  }

  /** `f` reads a line that gives `name` the value `v`. */
  ghost predicate ReadsPair(f: (Parsed, string) -> Parsed, g: string -> string, name: string, v: string) {
    forall p: Parsed :: f(p, name + " = " + v) == Assign(p, name, g(v))
  }

  ghost predicate ReadsPairs(f: (Parsed, string) -> Parsed, g: string -> string) {
    && (forall name, v :: IsKeyName(name) ==> ReadsPair(f, g, name, v))
    && (forall p: Parsed :: f(p, "") == p)
  }

  lemma {:induction false} SettersRead(f: (Parsed, string) -> Parsed, g: string -> string, domain: string,
                                       encryption: string, key: string, p: Parsed)
    requires ReadsPairs(f, g)
    ensures var ls := Lines(domain, encryption, key);
      && f(p, ls[0]) == Assign(p, "DOMAINS", g("[\"" + domain + "\"]"))
      && f(p, ls[1]) == Assign(p, "DATA_ENCRYPTION_METHOD", g(encryption))
      && f(p, ls[2]) == Assign(p, "ENCRYPTION_KEY", g("\"" + key + "\""))
  {
    SettingNames();
    assert ReadsPair(f, g, "DOMAINS", "[\"" + domain + "\"]");
    assert ReadsPair(f, g, "DATA_ENCRYPTION_METHOD", encryption);
    assert ReadsPair(f, g, "ENCRYPTION_KEY", "\"" + key + "\"");
  }

  lemma {:induction false} SettersSet(p: Parsed, v: string)
    ensures Assign(p, "DOMAINS", v) == p.(domain := FirstWord(CommasToSpaces(v)))
    ensures Assign(p, "DATA_ENCRYPTION_METHOD", v) == p.(encryption := FirstWord(v))
    ensures Assign(p, "ENCRYPTION_KEY", v) == p.(key := v)
  {
    assert |"DATA_ENCRYPTION_METHOD"| == 22 && |"DOMAINS"| == 7 && |"DOMAIN"| == 6 && |"ENCRYPTION_KEY"| == 14;
  }

  lemma {:induction false} PairIgnored(f: (Parsed, string) -> Parsed, g: string -> string, name: string, v: string,
                                       p: Parsed)
    requires ReadsPairs(f, g) && IsKeyName(name) && !IsSetting(name)
    ensures f(p, name + " = " + v) == p
  {
    assert ReadsPair(f, g, name, v);
  }

  lemma {:induction false} OthersRead(f: (Parsed, string) -> Parsed, g: string -> string, domain: string,
                                      encryption: string, key: string, p: Parsed)
    requires ReadsPairs(f, g)
    ensures var ls := Lines(domain, encryption, key);
      f(p, ls[3]) == f(p, ls[4]) == f(p, ls[5]) == f(p, ls[6]) == f(p, ls[7]) == p
  {
    NotSettings();
    PairIgnored(f, g, "PROTOCOL_TYPE", "\"SOCKS5\"", p);
    PairIgnored(f, g, "LISTEN_IP", "\"0.0.0.0\"", p);
    PairIgnored(f, g, "LISTEN_PORT", "5300", p);
    PairIgnored(f, g, "CLIENT_RESOLVERS_FILE", "\"client_resolvers.txt\"", p);
  }

  lemma {:induction false} LinesReadBy(f: (Parsed, string) -> Parsed, g: string -> string, ls: seq<string>,
                                       domain: string, encryption: string, key: string)
    requires ReadsPairs(f, g) && ls == Lines(domain, encryption, key)
    ensures Fold(f, ls) == Parsed(FirstWord(CommasToSpaces(g("[\"" + domain + "\"]"))), g("\"" + key + "\""),
      FirstWord(g(encryption)))
  {
    var values := Parsed(FirstWord(CommasToSpaces(g("[\"" + domain + "\"]"))), g("\"" + key + "\""),
      FirstWord(g(encryption)));
    var p0, p1, p2 := Parsed("", "", ""), Parsed(values.domain, "", ""), values.(key := "");
    SettersRead(f, g, domain, encryption, key, p0);
    SettersSet(p0, g("[\"" + domain + "\"]"));
    SettersRead(f, g, domain, encryption, key, p1);
    SettersSet(p1, g(encryption));
    SettersRead(f, g, domain, encryption, key, p2);
    SettersSet(p2, values.key);
    OthersRead(f, g, domain, encryption, key, values);
    FoldChain(f, ls, values);
  }

  lemma {:induction false} LinesRead(domain: string, encryption: string, key: string)
    ensures ReadLines(Lines(domain, encryption, key))
      == Parsed(DomainValue(domain), TomlScalar("\"" + key + "\""), FirstWord(TomlScalar(encryption)))
  {
    forall name, v | IsKeyName(name)
      ensures ReadsPair(ReadLine, TomlScalar, name, v)
    {
      forall p: Parsed
        ensures ReadLine(p, name + " = " + v) == Assign(p, name, TomlScalar(v))
      {
        LineAssigns(p, name, v);
      }
    }
    LinesReadBy(ReadLine, TomlScalar, Lines(domain, encryption, key), domain, encryption, key);
  }

  // ----- line ends -----

  lemma {:induction false} SplitIsClean(s: string, c: char)
    ensures forall i :: 0 <= i < |Split(s, c)| ==> c !in Split(s, c)[i]
    decreases |s|
  {
    var i := IndexByte(s, c);
    if i >= 0 {
      SplitIsClean(s[i + 1..], c);
    }
  }

  ghost predicate NoLineEnds(p: Parsed) {
    '\n' !in p.domain && '\n' !in p.key && '\n' !in p.encryption
  }

  lemma {:induction false} AssignClean(p: Parsed, k: string, v: string)
    requires NoLineEnds(p) && '\n' !in v
    ensures NoLineEnds(Assign(p, k, v))
  {
    FirstWordPiece(v);
    PieceFacts(FirstWord(v), v);
    var x := CommasToSpaces(v);
    assert '\n' !in x by {
      assert forall i :: 0 <= i < |v| ==> v[i] in v;
    }
    FirstWordPiece(x);
    PieceFacts(FirstWord(x), x);
  }

  lemma {:induction false} CutClean(l: string)
    requires '\n' !in l
    ensures '\n' !in Cut(l, '=').1
  {
    var (k, v, ok) := Cut(l, '=');
    forall i | 0 <= i < |v|
      ensures v[i] != '\n'
    {
      assert l[|k| + 1 + i] == v[i] && l[|k| + 1 + i] in l;
    }
  }

  lemma {:induction false} LineReadsClean(p: Parsed, raw: string)
    requires NoLineEnds(p) && '\n' !in raw
    ensures NoLineEnds(ReadLine(p, raw))
  {
    var l := TrimSpace(raw);
    TrimSpacePiece(raw);
    PieceFacts(l, raw);
    CutClean(l);
    var (k, v, ok) := Cut(l, '=');
    ScalarKeepsOut(v);
    AssignClean(p, Upper(TrimSpace(k)), TomlScalar(v));
  }

  /** No value the reader returns holds a line end. */
  lemma {:induction false} LinesReadClean(ls: seq<string>)
    requires forall i :: 0 <= i < |ls| ==> '\n' !in ls[i]
    ensures NoLineEnds(ReadLines(ls))
  {
    if ls != [] {
      LinesReadClean(ls[..|ls| - 1]);
      LineReadsClean(ReadLines(ls[..|ls| - 1]), ls[|ls| - 1]);
    }
  }

  /** What was written reads back exactly when the three values are ones the reader can take;
      nothing else in them can make up for a value that is not. */
  lemma {:induction false} TomlRoundTrip(c: map<string, string>)
    requires Written(c).Some?
    ensures var domain, key, encryption := Get(c, "domain"), Get(c, "key"), MethodOf(c);
      ReadLines(Split(Written(c).value, '\n')) == Parsed(domain, key, encryption)
      <==> DomainOk(domain) && KeyOk(key) && MethodOk(encryption)
  {
    var domain, key, encryption := Get(c, "domain"), Get(c, "key"), MethodOf(c);
    var text := Written(c).value;
    SplitIsClean(text, '\n');
    LinesReadClean(Split(text, '\n'));
    if '\n' !in domain && '\n' !in key && '\n' !in encryption {
      LinesAreLines(domain, encryption, key);
      LinesRead(domain, encryption, key);
      DomainReads(domain);
      KeyReads(key);
      MethodReads(encryption);
    }
  }

  lemma {:induction false} DefaultMethodOk()
    ensures MethodOk("5")
  {
    assert TrimSpace("5") == "5" && TrimQuotes("5") == "5";
  }

  lemma {:induction false} NothingWritten(c: map<string, string>)
    ensures Written(c).None? <==> Get(c, "domain") == "" || Get(c, "key") == ""
  {
  }

  /** The file as the sidecar's generator writes it and the bundle reader reads it; None when
      nothing is written. */
  method WriteAndRead(c: map<string, string>) returns (r: Option<Parsed>)
    ensures r.None? <==> Get(c, "domain") == "" || Get(c, "key") == ""
    ensures r.Some? ==>
      var domain, key, encryption := Get(c, "domain"), Get(c, "key"), MethodOf(c);
      r.value == Parsed(domain, key, encryption) <==> DomainOk(domain) && KeyOk(key) && MethodOk(encryption)
  {
    hide DomainOk, KeyOk, MethodOk, ReadLines, Split, SaysLast, Written;
    NothingWritten(c);
    var text := Written(c);
    if text.None? {
      return None;
    }
    var domain, key, encryption := ParseToml(text.value);
    TomlRoundTrip(c);
    return Some(Parsed(domain, key, encryption));
  }

  /** Without a method the default is written, and it is read back whatever the other two are. */
  lemma {:induction false} DefaultMethodReads(c: map<string, string>)
    requires Written(c).Some? && Get(c, "method") == ""
    ensures ReadLines(Split(Written(c).value, '\n')) == Parsed(Get(c, "domain"), Get(c, "key"), "5")
      <==> DomainOk(Get(c, "domain")) && KeyOk(Get(c, "key"))
  {
    hide MethodOk, DomainOk, KeyOk, ReadLines, Split, Written;
    TomlRoundTrip(c);
    DefaultMethodOk();
  }
}
