/** The rule engine: first-match evaluation, its agreement with the router, and what saving
    the rules and starting again keeps. */
module Rules {
  import opened Wrappers
  import opened Bytes
  import Decimal

  datatype Decision = Proxy | Direct | Block

  function DecisionName(d: Decision): string {
    match d
    case Direct => "direct"
    case Block => "block"
    case Proxy => "proxy"
  }

  function DecisionFromName(s: string): Decision {
    if s == "direct" then Direct else if s == "block" then Block else Proxy
  }

  lemma {:induction false} NameRoundTrip(d: Decision)
    ensures DecisionFromName(DecisionName(d)) == d
  {
    assert "block"[0] == 'b' && "proxy"[0] == 'p';
  }

  datatype MatchExpr = MatchExpr(kind: string, value: string)

  /** The attributes of a connection. */
  datatype Conn = Conn(host: string, port: int, hint: string)

  datatype Rule = Rule(id: string, expr: MatchExpr, action: Decision, enabled: bool, note: string, actionName: string)

  // ----- single criteria -----

  function LowerChar(c: char): char {
    if 'A' <= c <= 'Z' then (c as int + 32) as char else c
  }

  function Lower(s: string): (r: string)
    ensures |r| == |s|
    ensures forall i :: 0 <= i < |s| ==> r[i] == LowerChar(s[i])
  {
    seq(|s|, i requires 0 <= i < |s| => LowerChar(s[i]))
  }

  predicate StandsAt(s: string, t: string, k: nat) {
    k + |t| <= |s| && s[k..k + |t|] == t
  }

  predicate Contains(s: string, t: string) {
    exists k: nat :: k <= |s| && StandsAt(s, t, k)
  }

  predicate MatchPort(port: int, value: string) {
    var dash := IndexByte(value, '-');
    if dash >= 0 then
      match (Decimal.Atoi(value[..dash]), Decimal.Atoi(value[dash + 1..]))
      case (Some(lo), Some(hi)) => lo <= port <= hi
      case _ => false
    else
      Decimal.Atoi(value) == Some(port)
  }

  predicate MatchSuffix(host: string, value: string) {
    Lower(host) == Lower(value) || HasSuffix(Lower(host), "." + Lower(value))
  }

  /** `matchExpr`; `lookup` answers the criteria that need IP parsing or list files. */
  predicate Matches(m: MatchExpr, c: Conn, lookup: (MatchExpr, Conn) -> bool) {
    if m.kind == "domain" then Lower(m.value) == Lower(c.host)
    else if m.kind == "domain_suffix" then MatchSuffix(c.host, m.value)
    else if m.kind == "domain_keyword" then Contains(Lower(c.host), Lower(m.value))
    else if m.kind == "port" then MatchPort(c.port, m.value)
    else if m.kind == "protocol" then Lower(c.hint) == Lower(m.value)
    else if m.kind in {"ip_cidr", "geoip", "domain_list", "ip_list"} then lookup(m, c)
    else false
  }

  // ----- what a criterion means -----

  /** The same letter, upper or lower case, or the same character. */
  predicate SameLetter(a: char, b: char) {
    || a == b
    || ('a' <= a <= 'z' && b as int == a as int - 32)
    || ('a' <= b <= 'z' && a as int == b as int - 32)
  }

  predicate SameText(s: string, t: string) {
    |s| == |t| && forall i :: 0 <= i < |s| ==> SameLetter(s[i], t[i])
  }

  /** From `k` on the host is the suffix, and `k` starts a label. */
  predicate SuffixFrom(host: string, suffix: string, k: nat) {
    k <= |host| && SameText(host[k..], suffix) && (k == 0 || host[k - 1] == '.')
  }

  predicate KeywordAt(host: string, word: string, k: nat) {
    k + |word| <= |host| && SameText(host[k..k + |word|], word)
  }

  /** The range is written as its two ends, cut at the first dash. */
  ghost predicate InRange(port: int, value: string) {
    exists lo, hi ::
      && '-' !in lo && value == lo + "-" + hi
      && Decimal.Atoi(lo).Some? && Decimal.Atoi(hi).Some?
      && Decimal.Atoi(lo).value <= port <= Decimal.Atoi(hi).value
  }

  /** The connection meets the criterion. */
  ghost predicate Meets(c: Conn, m: MatchExpr, lookup: (MatchExpr, Conn) -> bool) {
    || (m.kind == "domain" && SameText(c.host, m.value))
    || (m.kind == "domain_suffix" && exists k: nat :: SuffixFrom(c.host, m.value, k))
    || (m.kind == "domain_keyword" && exists k: nat :: KeywordAt(c.host, m.value, k))
    || (m.kind == "port" && (InRange(c.port, m.value) || ('-' !in m.value && Decimal.Atoi(m.value) == Some(c.port))))
    || (m.kind == "protocol" && SameText(c.hint, m.value))
    || (m.kind in {"ip_cidr", "geoip", "domain_list", "ip_list"} && lookup(m, c))
  }

  lemma {:induction false} LowerIsSameText(s: string, t: string)
    ensures Lower(s) == Lower(t) <==> SameText(s, t)
  {
    if Lower(s) == Lower(t) {
      assert |s| == |t|;
      forall i | 0 <= i < |s|
        ensures SameLetter(s[i], t[i])
      {
        assert Lower(s)[i] == LowerChar(s[i]) && Lower(t)[i] == LowerChar(t[i]);
      }
    }
  }

  lemma {:induction false} LowerOfSlice(s: string, i: nat, j: nat)
    requires i <= j <= |s|
    ensures Lower(s)[i..j] == Lower(s[i..j])
  {
  }

  lemma {:induction false} SuffixMeans(host: string, value: string)
    ensures MatchSuffix(host, value) <==> exists k: nat :: SuffixFrom(host, value, k)
  {
    hide MatchSuffix, SameText;
    SuffixAtLabel(host, value);
    forall k: nat | k <= |host|
      ensures AtLabel(Lower(host), Lower(value), k) <==> SuffixFrom(host, value, k)
    {
      LowerOfSlice(host, k, |host|);
      LowerIsSameText(host[k..], value);
      assert host[k..] == host[k..|host|] && Lower(host)[k..] == Lower(host)[k..|host|];
    }
    if k: nat :| AtLabel(Lower(host), Lower(value), k) {
      assert SuffixFrom(host, value, k);
    }
    if k: nat :| SuffixFrom(host, value, k) {
      assert AtLabel(Lower(host), Lower(value), k);
    }
  }

  lemma {:induction false} KeywordMeans(host: string, value: string)
    ensures Contains(Lower(host), Lower(value)) <==> exists k: nat :: KeywordAt(host, value, k)
  {
    hide SameText;
    forall k: nat | k + |value| <= |host|
      ensures StandsAt(Lower(host), Lower(value), k) <==> KeywordAt(host, value, k)
    {
      LowerOfSlice(host, k, k + |value|);
      LowerIsSameText(host[k..k + |value|], value);
    }
    if k: nat :| k <= |Lower(host)| && StandsAt(Lower(host), Lower(value), k) {
      assert KeywordAt(host, value, k);
    }
    if k: nat :| KeywordAt(host, value, k) {
      assert StandsAt(Lower(host), Lower(value), k);
    }
  }

  lemma {:induction false} PortMeans(port: int, value: string)
    ensures MatchPort(port, value) <==>
      InRange(port, value) || ('-' !in value && Decimal.Atoi(value) == Some(port))
  {
    hide Decimal.Atoi;
    var dash := IndexByte(value, '-');
    if dash >= 0 {
      var lo, hi := value[..dash], value[dash + 1..];
      assert value == lo + "-" + hi && '-' !in lo;
      forall a: string, b: string | '-' !in a && value == a + "-" + b
        ensures a == lo && b == hi
      {
        CutAppend(a, '-', b);
        CutAppend(lo, '-', hi);
        assert a + ['-'] + b == a + "-" + b && lo + ['-'] + hi == lo + "-" + hi;
      }
    } else {
      forall a: string, b: string
        ensures value != a + "-" + b
      {
        assert (a + "-" + b)[|a|] == '-';
      }
    }
  }

  /** Every criterion is met exactly when the connection says so. */
  lemma {:induction false} MatchesMeans(m: MatchExpr, c: Conn, lookup: (MatchExpr, Conn) -> bool)
    ensures Matches(m, c, lookup) <==> Meets(c, m, lookup)
  {
    hide MatchSuffix, MatchPort, Contains, SameText, InRange;
    LowerIsSameText(c.host, m.value);
    LowerIsSameText(m.value, c.host);
    LowerIsSameText(c.hint, m.value);
    SameTextBothWays(c.host, m.value);
    SuffixMeans(c.host, m.value);
    KeywordMeans(c.host, m.value);
    PortMeans(c.port, m.value);
    KindsDiffer(m.kind);
  }

  lemma {:induction false} SameTextBothWays(s: string, t: string)
    ensures SameText(s, t) <==> SameText(t, s)
  {
  }

  lemma {:induction false} KindsDiffer(kind: string)
    ensures kind == "domain" ==> |kind| == 6
    ensures kind == "domain_suffix" ==> |kind| == 13
    ensures kind == "domain_keyword" ==> |kind| == 14
    ensures kind == "port" ==> |kind| == 4 && kind[0] == 'p'
    ensures kind == "protocol" ==> |kind| == 8
    ensures kind in {"ip_cidr", "geoip", "domain_list", "ip_list"} ==>
      kind[0] != 'p' && |kind| != 6 && |kind| != 13 && |kind| != 14
  {
  }

  /** `v` stands at the end of `h`, at its start or behind a dot. */
  ghost predicate AtLabel(h: string, v: string, k: nat) {
    k <= |h| && h[k..] == v && (k == 0 || h[k - 1] == '.')
  }

  lemma {:induction false} LabelEnds(h: string, v: string, k: nat)
    requires AtLabel(h, v, k) && k > 0
    ensures HasSuffix(h, "." + v)
  {
    assert h[k - 1..] == [h[k - 1]] + h[k..];
    assert |h| - |"." + v| == k - 1;
  }

  lemma {:induction false} EndsAtLabel(h: string, v: string)
    requires HasSuffix(h, "." + v)
    ensures AtLabel(h, v, |h| - |v|)
  {
    var k := |h| - |v|;
    assert h[k - 1..] == "." + v;
    assert h[k..] == h[k - 1..][1..];
  }

  /** A suffix matches the whole name or from a label boundary on, never inside a label. */
  lemma {:induction false} SuffixAtLabel(host: string, value: string)
    ensures MatchSuffix(host, value) <==> exists k :: AtLabel(Lower(host), Lower(value), k)
  {
    var h, v := Lower(host), Lower(value);
    if h == v {
      assert AtLabel(h, v, 0);
    } else if HasSuffix(h, "." + v) {
      EndsAtLabel(h, v);
    }
    forall k: nat | AtLabel(h, v, k)
      ensures MatchSuffix(host, value)
    {
      if k == 0 {
        assert h[0..] == h;
      } else {
        LabelEnds(h, v, k);
      }
    }
  }

  lemma {:induction false} NoDashInNumber(n: nat)
    ensures '-' !in Decimal.Itoa(n)
  {
  }

  /** A printed range matches exactly the ports in it; a printed port exactly itself. */
  lemma {:induction false} PortRange(port: int, lo: nat, hi: nat)
    requires lo <= Decimal.MAX_INT && hi <= Decimal.MAX_INT
    ensures MatchPort(port, Decimal.Itoa(lo) + "-" + Decimal.Itoa(hi)) <==> lo <= port <= hi
    ensures MatchPort(port, Decimal.Itoa(lo)) <==> port == lo
  {
    var a, b := Decimal.Itoa(lo), Decimal.Itoa(hi);
    NoDashInNumber(lo);
    Decimal.AtoiOfItoa(lo);
    Decimal.AtoiOfItoa(hi);
    CutAppend(a, '-', b);
    assert a + "-" + b == a + ['-'] + b;
    var i := IndexByte(a + "-" + b, '-');
    assert (a + "-" + b)[..i] == a && (a + "-" + b)[i + 1..] == b;
  }

  // ----- IDs -----

  /** `itoa`: digits are written backwards into a fixed buffer. */
  method Itoa(i: int) returns (s: string)
    requires i < 10000_0000_0000_0000
    ensures s == if i < 0 then "" else Decimal.Itoa(i)
  {
    hide Decimal.NatText, Front, Power10;
    if i == 0 {
      ZeroText();
      return "0";
    }
    var buf := new char[16];
    var pos, n := buf.Length, i;
    Power10Of16();
    assert buf[16..] == [];
    FrontEnds(i);
    while n > 0
      invariant 0 <= pos <= 16
      invariant i < 0 ==> n == i && pos == 16
      invariant i > 0 ==> 0 <= n < Power10(pos) && Front(n) + buf[pos..] == Decimal.NatText(i)
    {
      ghost var rest := buf[pos..];
      FrontStep(n, rest);
      PowerStep(n, pos);
      pos := pos - 1;
      buf[pos] := ('0' as int + n % 10) as char;
      assert buf[pos..] == [Decimal.DigitOf(n % 10)] + rest;
      n := n / 10;
    }
    s := buf[pos..];
  }

  lemma {:induction false} ZeroText()
    ensures Decimal.Itoa(0) == "0"
  {
  }

  /** The digits still to be written. */
  function Front(n: nat): string {
    if n == 0 then "" else Decimal.NatText(n)
  }

  lemma {:induction false} FrontEnds(i: int)
    ensures Front(0) == "" && (i > 0 ==> Front(i) + [] == Decimal.NatText(i))
  {
  }

  lemma {:induction false} FrontStep(n: nat, rest: string)
    requires n > 0
    ensures Front(n) + rest == Front(n / 10) + ([Decimal.DigitOf(n % 10)] + rest)
  {
    assert Decimal.NatText(n) == Front(n / 10) + [Decimal.DigitOf(n % 10)];
  }

  function Power10(k: nat): nat {
    if k == 0 then 1 else 10 * Power10(k - 1)
  }

  lemma {:induction false} PowerStep(n: nat, k: nat)
    requires 0 < n < Power10(k)
    ensures k > 0 && n / 10 < Power10(k - 1)
  {
  }

  lemma {:induction false} Power10Of16()
    ensures Power10(16) == 10000_0000_0000_0000
  {
    assert Power10(3) == 1000;
    assert Power10(6) == 1000 * Power10(3);
    assert Power10(9) == 1000 * Power10(6);
    assert Power10(12) == 1000 * Power10(9);
    assert Power10(15) == 1000 * Power10(12);
  }

  function GenRuleId(i: nat, r: Rule): string {
    r.expr.kind + ":" + r.expr.value + ":" + r.actionName + "#" + Decimal.Itoa(i)
  }

  /** IDs made at different positions differ, whatever the rules are. */
  lemma {:induction false} GeneratedIdsDiffer(i: nat, r: Rule, j: nat, q: Rule)
    ensures GenRuleId(i, r) == GenRuleId(j, q) ==> i == j
  {
    AfterLastHash(r.expr.kind + ":" + r.expr.value + ":" + r.actionName, i);
    AfterLastHash(q.expr.kind + ":" + q.expr.value + ":" + q.actionName, j);
    if Decimal.Itoa(i) == Decimal.Itoa(j) {
      Decimal.ItoaInjective(i, j);
    }
  }

  lemma {:induction false} AfterLastHash(front: string, i: nat)
    ensures var s := front + "#" + Decimal.Itoa(i); s[LastIndexByte(s, '#') + 1..] == Decimal.Itoa(i)
  {
    var s, t := front + "#" + Decimal.Itoa(i), Decimal.Itoa(i);
    var k := LastIndexByte(s, '#');
    assert s[|front|] == '#' && s[|front| + 1..] == t;
    assert '#' !in t;
    forall j | |front| < j < |s|
      ensures s[j] != '#'
    {
      assert s[j] == t[j - |front| - 1] && t[j - |front| - 1] in t;
    }
  }

  // ----- the engine -----

  /** What a rule becomes at position `i` of the list. */
  function Normalised(i: nat, r: Rule): Rule {
    var named := if r.id == "" then r.(id := GenRuleId(i, r)) else r;
    if r.actionName == "" then named.(actionName := DecisionName(r.action))
    else named.(action := DecisionFromName(r.actionName))
  }

  function NormalisedAll(rs: seq<Rule>): (out: seq<Rule>)
    ensures |out| == |rs|
    ensures forall i :: 0 <= i < |rs| ==> out[i] == Normalised(i, rs[i])
  {
    seq(|rs|, i requires 0 <= i < |rs| => Normalised(i, rs[i]))
  }

  /** The action of each name; every other name means the proxy. */
  predicate Names(name: string, action: Decision) {
    && (name == "direct" ==> action == Direct)
    && (name == "block" ==> action == Block)
    && (name != "direct" && name != "block" ==> action == Proxy)
  }

  /** What rule `q` is at position `i` of the engine: its criterion, switch and note as they were, an
      ID, and an action that agrees with its name. */
  predicate Tidied(i: nat, q: Rule, r: Rule) {
    && r.expr == q.expr && r.enabled == q.enabled && r.note == q.note
    && (q.id != "" ==> r.id == q.id)
    && (q.id == "" ==> r.id == q.expr.kind + ":" + q.expr.value + ":" + q.actionName + "#" + Decimal.Itoa(i))
    && (q.actionName != "" ==> r.actionName == q.actionName)
    && (q.actionName == "" ==> r.action == q.action && r.actionName in {"direct", "block", "proxy"})
    && Names(r.actionName, r.action)
  }

  lemma {:induction false} NormalisedIsTidied(i: nat, q: Rule)
    ensures Tidied(i, q, Normalised(i, q))
  {
    NameRoundTrip(q.action);
  }

  /** A list that went through `SetRules`. */
  ghost predicate IsNormal(rs: seq<Rule>) {
    forall i :: 0 <= i < |rs| ==>
      rs[i].actionName != "" && rs[i].action == DecisionFromName(rs[i].actionName) && rs[i].id != ""
  }

  lemma {:induction false} NormalisedIsNormal(rs: seq<Rule>)
    ensures IsNormal(NormalisedAll(rs))
  {
    forall i | 0 <= i < |rs|
      ensures var r := Normalised(i, rs[i]);
        r.actionName != "" && r.action == DecisionFromName(r.actionName) && r.id != ""
    {
      NameRoundTrip(rs[i].action);
      assert |GenRuleId(i, rs[i])| >= 1;
    }
  }

  /** First match wins; without one, the proxy. */
  function Decide(rs: seq<Rule>, c: Conn, lookup: (MatchExpr, Conn) -> bool): Decision {
    if rs == [] then Proxy
    else if rs[0].enabled && Matches(rs[0].expr, c, lookup) then rs[0].action
    else Decide(rs[1..], c, lookup)
  }

  /** Rule `i` is the first that is enabled and met; behind the last one stands the proxy. */
  ghost predicate DecidedBy(rs: seq<Rule>, c: Conn, lookup: (MatchExpr, Conn) -> bool, i: nat, d: Decision) {
    && i <= |rs|
    && (forall j :: 0 <= j < i ==> !(rs[j].enabled && Meets(c, rs[j].expr, lookup)))
    && (i < |rs| ==> rs[i].enabled && Meets(c, rs[i].expr, lookup) && d == rs[i].action)
    && (i == |rs| ==> d == Proxy)
  }

  /** The first rule that is met decides, and there is one answer only. */
  lemma {:induction false} FirstMatchWins(rs: seq<Rule>, c: Conn, lookup: (MatchExpr, Conn) -> bool, d: Decision)
    ensures d == Decide(rs, c, lookup) <==> exists i: nat :: DecidedBy(rs, c, lookup, i, d)
  {
    hide Matches, Meets;
    var i := FirstMet(rs, c, lookup);
    forall j: nat | DecidedBy(rs, c, lookup, j, d)
      ensures j == i
    {
    }
  }

  lemma {:induction false} FirstMet(rs: seq<Rule>, c: Conn, lookup: (MatchExpr, Conn) -> bool) returns (i: nat)
    ensures DecidedBy(rs, c, lookup, i, Decide(rs, c, lookup))
  {
    hide Matches, Meets;
    i := 0;
    if rs != [] {
      MatchesMeans(rs[0].expr, c, lookup);
      if !(rs[0].enabled && Matches(rs[0].expr, c, lookup)) {
        var k := FirstMet(rs[1..], c, lookup);
        i := k + 1;
      }
    }
  }

  class Engine {
    var rules: seq<Rule>
    var blockDirect: bool

    ghost predicate Valid()
      reads this`rules
    {
      IsNormal(rules)
    }

    constructor (rs: seq<Rule>)
      ensures Valid() && rules == NormalisedAll(rs) && !blockDirect
    {
      rules, blockDirect := [], false;
      new;
      SetRules(rs);
    }

    method SetBlockDirect(v: bool)
      modifies this`blockDirect
      ensures blockDirect == v
    {
      blockDirect := v;
    }

    method SetRules(rs: seq<Rule>)
      modifies this`rules
      ensures Valid() && rules == NormalisedAll(rs)
      ensures forall i :: 0 <= i < |rs| ==> Tidied(i, rs[i], rules[i])
    {
      var out := new Rule[|rs|];
      for i := 0 to |rs|
        invariant out[..i] == NormalisedAll(rs)[..i]
      {
        var r := rs[i];
        if r.id == "" {
          r := r.(id := GenRuleId(i, r));
        }
        if r.actionName == "" {
          r := r.(actionName := DecisionName(r.action));
        } else {
          r := r.(action := DecisionFromName(r.actionName));
        }
        out[i] := r;
        assert out[..i + 1] == out[..i] + [r];
      }
      rules := out[..];
      NormalisedIsNormal(rs);
      forall i | 0 <= i < |rs|
        ensures Tidied(i, rs[i], rules[i])
      {
        NormalisedIsTidied(i, rs[i]);
      }
    }

    /** The kill-switch plays no part: it binds the balancer's fallback, not a rule. */
    method Evaluate(c: Conn, lookup: (MatchExpr, Conn) -> bool) returns (d: Decision)
      ensures d == Decide(rules, c, lookup)
      ensures exists i: nat :: DecidedBy(rules, c, lookup, i, d)
    {
      hide Matches;
      FirstMatchWins(rules, c, lookup, Decide(rules, c, lookup));
      for i := 0 to |rules|
        invariant Decide(rules, c, lookup) == Decide(rules[i..], c, lookup)
      {
        var r := rules[i];
        assert rules[i..][1..] == rules[i + 1..];
        if !r.enabled {
          continue;
        }
        if Matches(r.expr, c, lookup) {
          return r.action;
        }
      }
      d := Proxy;
    }
  }

  // ----- the router -----

  datatype RoutingRule = RoutingRule(exprs: seq<MatchExpr>, action: Decision)

  predicate AllMatch(ms: seq<MatchExpr>, c: Conn, lookup: (MatchExpr, Conn) -> bool) {
    forall j :: 0 <= j < |ms| ==> Matches(ms[j], c, lookup)
  }

  function Route(rs: seq<RoutingRule>, c: Conn, lookup: (MatchExpr, Conn) -> bool): Decision {
    if rs == [] then Proxy
    else if rs[0].exprs != [] && AllMatch(rs[0].exprs, c, lookup) then rs[0].action
    else Route(rs[1..], c, lookup)
  }

  /** Rule `i` is the first that has criteria and all of whose criteria are met. */
  ghost predicate RoutedBy(rs: seq<RoutingRule>, c: Conn, lookup: (MatchExpr, Conn) -> bool, i: nat, d: Decision) {
    && i <= |rs|
    && (forall j :: 0 <= j < i ==> !AllMet(rs[j].exprs, c, lookup))
    && (i < |rs| ==> AllMet(rs[i].exprs, c, lookup) && d == rs[i].action)
    && (i == |rs| ==> d == Proxy)
  }

  ghost predicate AllMet(ms: seq<MatchExpr>, c: Conn, lookup: (MatchExpr, Conn) -> bool) {
    ms != [] && forall j :: 0 <= j < |ms| ==> Meets(c, ms[j], lookup)
  }

  lemma {:induction false} FirstRouted(rs: seq<RoutingRule>, c: Conn, lookup: (MatchExpr, Conn) -> bool)
    returns (i: nat)
    ensures RoutedBy(rs, c, lookup, i, Route(rs, c, lookup))
  {
    hide Matches, Meets;
    i := 0;
    if rs != [] {
      var ms := rs[0].exprs;
      forall j | 0 <= j < |ms|
        ensures Matches(ms[j], c, lookup) <==> Meets(c, ms[j], lookup)
      {
        MatchesMeans(ms[j], c, lookup);
      }
      if !AllMet(ms, c, lookup) {
        var k := FirstRouted(rs[1..], c, lookup);
        i := k + 1;
      }
    }
  }

  /** `Router.Evaluate`. */
  method RouterEvaluate(rs: seq<RoutingRule>, c: Conn, lookup: (MatchExpr, Conn) -> bool) returns (d: Decision)
    ensures d == Route(rs, c, lookup)
    ensures exists i: nat :: RoutedBy(rs, c, lookup, i, d)
  {
    hide Matches, Meets, RoutedBy;
    ghost var first := FirstRouted(rs, c, lookup);
    for i := 0 to |rs|
      invariant Route(rs, c, lookup) == Route(rs[i..], c, lookup)
    {
      var rule := rs[i];
      assert rs[i..][1..] == rs[i + 1..];
      if |rule.exprs| == 0 {
        continue;
      }
      var allMatch := true;
      var k := 0;
      while k < |rule.exprs| && allMatch
        invariant 0 <= k <= |rule.exprs|
        invariant allMatch ==> forall j :: 0 <= j < k ==> Matches(rule.exprs[j], c, lookup)
        invariant !allMatch ==> !AllMatch(rule.exprs, c, lookup)
        decreases |rule.exprs| - k, allMatch
      {
        if !Matches(rule.exprs[k], c, lookup) {
          allMatch := false;
        } else {
          k := k + 1;
        }
      }
      if allMatch {
        return rule.action;
      }
    }
    d := Proxy;
  }

  /** The enabled rules as conjunctions of one criterion each. */
  function Singletons(rs: seq<Rule>): seq<RoutingRule> {
    if rs == [] then []
    else (if rs[0].enabled then [RoutingRule([rs[0].expr], rs[0].action)] else []) + Singletons(rs[1..])
  }

  /** The engine decides like the router on its enabled rules. */
  lemma {:induction false} EngineIsRouter(rs: seq<Rule>, c: Conn, lookup: (MatchExpr, Conn) -> bool)
    ensures Decide(rs, c, lookup) == Route(Singletons(rs), c, lookup)
  {
    if rs != [] {
      EngineIsRouter(rs[1..], c, lookup);
      var first := RoutingRule([rs[0].expr], rs[0].action);
      assert [first.exprs[0]] == first.exprs;
      assert AllMatch(first.exprs, c, lookup) <==> Matches(rs[0].expr, c, lookup);
      assert rs[0].enabled ==> Singletons(rs)[0] == first && Singletons(rs)[1..] == Singletons(rs[1..]);
      assert !rs[0].enabled ==> Singletons(rs) == Singletons(rs[1..]);
    }
  }

  // ----- saving and starting again -----

  /** One rule in config.yaml. */
  datatype RuleConfig = RuleConfig(expr: MatchExpr, action: string, enabled: Option<bool>, note: string)

  function Saved(r: Rule): RuleConfig {
    RuleConfig(r.expr, r.actionName, Some(r.enabled), r.note)
  }

  function SavedAll(rs: seq<Rule>): (out: seq<RuleConfig>)
    ensures |out| == |rs|
    ensures forall i :: 0 <= i < |rs| ==> out[i] == Saved(rs[i])
  {
    seq(|rs|, i requires 0 <= i < |rs| => Saved(rs[i]))
  }

  function Loaded(rc: RuleConfig): Rule {
    var action := DecisionFromName(rc.action);
    Rule("", rc.expr, action, rc.enabled == None || rc.enabled == Some(true), rc.note, DecisionName(action))
  }

  function LoadedAll(rcs: seq<RuleConfig>): (out: seq<Rule>)
    ensures |out| == |rcs|
    ensures forall i :: 0 <= i < |rcs| ==> out[i] == Loaded(rcs[i])
  {
    seq(|rcs|, i requires 0 <= i < |rcs| => Loaded(rcs[i]))
  }

  /** The rule the engine has for one of the configuration's: enabled unless it says otherwise. */
  predicate Configured(i: nat, rc: RuleConfig, r: Rule) {
    && r.expr == rc.expr && r.note == rc.note
    && (r.enabled <==> rc.enabled.None? || rc.enabled.value)
    && Names(rc.action, r.action) && Names(r.actionName, r.action) && r.actionName in {"direct", "block", "proxy"}
    && r.id == rc.expr.kind + ":" + rc.expr.value + ":" + r.actionName + "#" + Decimal.Itoa(i)
  }

  lemma {:induction false} LoadedIsConfigured(i: nat, rc: RuleConfig)
    ensures Configured(i, rc, Normalised(i, Loaded(rc)))
  {
    NameRoundTrip(DecisionFromName(rc.action));
  }

  /** The rule list is rebuilt from the configuration at startup. */
  method Startup(rcs: seq<RuleConfig>) returns (engine: Engine)
    ensures fresh(engine) && engine.Valid() && engine.rules == NormalisedAll(LoadedAll(rcs))
    ensures forall i :: 0 <= i < |rcs| ==> Configured(i, rcs[i], engine.rules[i])
  {
    var rules: seq<Rule> := [];
    for i := 0 to |rcs|
      invariant rules == LoadedAll(rcs)[..i]
    {
      var rc := rcs[i];
      var action := Proxy;
      if rc.action == "direct" {
        action := Direct;
      } else if rc.action == "block" {
        action := Block;
      }
      var enabled := rc.enabled == None || rc.enabled.value;
      rules := rules + [Rule("", rc.expr, action, enabled, rc.note, DecisionName(action))];
    }
    engine := new Engine(rules);
    forall i | 0 <= i < |rcs|
      ensures Configured(i, rcs[i], engine.rules[i])
    {
      LoadedIsConfigured(i, rcs[i]);
    }
  }

  /** The list the engine has after a restart. */
  function Restarted(rs: seq<Rule>): (out: seq<Rule>)
    ensures |out| == |rs|
  {
    NormalisedAll(LoadedAll(SavedAll(rs)))
  }

  /** A saved rule comes back with its criterion, its action, its switch and its note, under
      the action's canonical name and with a new ID. */
  lemma {:induction false} RuleSurvives(rs: seq<Rule>, i: nat)
    requires IsNormal(rs) && i < |rs|
    ensures var r := Restarted(rs)[i];
      && r.expr == rs[i].expr && r.action == rs[i].action && r.enabled == rs[i].enabled && r.note == rs[i].note
      && r.actionName == DecisionName(rs[i].action)
      && r.id == GenRuleId(i, rs[i].(actionName := r.actionName))
  {
    NameRoundTrip(rs[i].action);
    assert DecisionName(rs[i].action) != "";
  }

  /** Every connection is decided as before the restart. */
  lemma {:induction false} RestartKeepsDecisions(rs: seq<Rule>, c: Conn, lookup: (MatchExpr, Conn) -> bool)
    requires IsNormal(rs)
    ensures Decide(Restarted(rs), c, lookup) == Decide(rs, c, lookup)
  {
    forall i | 0 <= i < |rs|
      ensures DecidesAlike(Restarted(rs)[i], rs[i])
    {
      RuleSurvives(rs, i);
    }
    SameDecision(Restarted(rs), rs, c, lookup);
  }

  /** What another engine started from the configuration decides is what these rules decide. */
  ghost predicate Restores(rcs: seq<RuleConfig>, rs: seq<Rule>) {
    forall c, lookup :: Decide(NormalisedAll(LoadedAll(rcs)), c, lookup) == Decide(rs, c, lookup)
  }

  /** `persistRoutingRules`, up to the node tree: what it writes restores the engine. */
  method Persist(engine: Engine) returns (out: seq<RuleConfig>)
    requires engine.Valid()
    ensures out == SavedAll(engine.rules) && Restores(out, engine.rules)
    ensures forall i :: 0 <= i < |out| ==>
      var r := engine.rules[i]; out[i] == RuleConfig(r.expr, r.actionName, Some(r.enabled), r.note)
  {
    var rules := engine.rules;
    out := [];
    for i := 0 to |rules|
      invariant out == SavedAll(rules)[..i]
    {
      var r := rules[i];
      out := out + [RuleConfig(r.expr, r.actionName, Some(r.enabled), r.note)];
    }
    assert out == SavedAll(rules);
    forall c, lookup
      ensures Decide(NormalisedAll(LoadedAll(out)), c, lookup) == Decide(rules, c, lookup)
    {
      RestartKeepsDecisions(rules, c, lookup);
    }
  }

  /** Saving and starting again: the new engine decides every connection as the old one. */
  method Restart(engine: Engine) returns (again: Engine)
    requires engine.Valid()
    ensures fresh(again) && again.Valid()
    ensures forall c, lookup :: Decide(again.rules, c, lookup) == Decide(engine.rules, c, lookup)
  {
    var rcs := Persist(engine);
    again := Startup(rcs);
  }

  predicate DecidesAlike(a: Rule, b: Rule) {
    a.expr == b.expr && a.action == b.action && a.enabled == b.enabled
  }

  lemma {:induction false} SameDecision(rs: seq<Rule>, qs: seq<Rule>, c: Conn, lookup: (MatchExpr, Conn) -> bool)
    requires |rs| == |qs| && forall i :: 0 <= i < |rs| ==> DecidesAlike(rs[i], qs[i])
    ensures Decide(rs, c, lookup) == Decide(qs, c, lookup)
  {
    if rs != [] {
      SameDecision(rs[1..], qs[1..], c, lookup);
    }
  }

  // ----- handles -----

  ghost predicate DistinctIds(rs: seq<Rule>) {
    forall i, j :: 0 <= i < j < |rs| ==> rs[i].id != rs[j].id
  }

  /** Handles are distinct exactly when the ones that came with the rules are, and none of
      them is what a rule without one is given. */
  lemma {:induction false} IdsDistinctIff(rs: seq<Rule>)
    ensures DistinctIds(NormalisedAll(rs)) <==>
      && (forall i, j :: 0 <= i < j < |rs| && rs[i].id != "" ==> rs[i].id != rs[j].id)
      && (forall i, j :: 0 <= i < |rs| && 0 <= j < |rs| && rs[i].id != "" && rs[j].id == "" ==>
        rs[i].id != GenRuleId(j, rs[j]))
  {
    var out := NormalisedAll(rs);
    assert forall i :: 0 <= i < |rs| ==> out[i].id == if rs[i].id == "" then GenRuleId(i, rs[i]) else rs[i].id;
    forall i, j | 0 <= i < j < |rs| && rs[i].id == "" && rs[j].id == ""
      ensures out[i].id != out[j].id
    {
      GeneratedIdsDiffer(i, rs[i], j, rs[j]);
    }
  }

  /** A rule that was moved down keeps its handle, and a copy of it put in its old place
      without one is given the same. */
  lemma {:induction false} MovedRuleSharesHandle(r: Rule)
    requires r.id == "" && r.actionName != ""
    ensures var held := NormalisedAll([r])[0];
      held.actionName == r.actionName && NormalisedAll([r, held])[0].id == NormalisedAll([r, held])[1].id
  {
    assert [r][0] == r;
  }
}
