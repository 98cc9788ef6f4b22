/** The VLESS records of a MoaV bundle: the URI printer against the URI parser. */
module VlessBundle {
  import opened Wrappers
  import opened Bytes
  import opened QueryString
  import opened Endpoints
  import Decimal

  // ----- printing -----

  /** `hasParam`. */
  predicate HasParam(params: seq<string>, k: string) {
    exists i :: 0 <= i < |params| && HasPrefix(params[i], k + "=")
  }

  /** The keys copied from the merged parameters, in printing order. */
  const COPIED: seq<string> := ["flow", "sni", "fp", "pbk", "sid", "alpn", "path"]

  /** The pair for a key, left out when its value is empty. */
  function Optional(k: string, v: string): Pairs {
    if v == "" then [] else [(k, v)]
  }

  function Copied(m: map<string, string>, n: nat): Pairs
    requires n <= |COPIED|
  {
    if n == 0 then [] else Copied(m, n - 1) + Optional(COPIED[n - 1], Get(m, COPIED[n - 1]))
  }

  predicate UsesHostHeader(transport: string) {
    transport == "ws" || transport == "httpupgrade"
  }

  /** What is printed before the copied keys. */
  function Head(transport: string, security: string): Pairs {
    [("type", transport), ("encryption", "none")] + Optional("security", security)
  }

  /** The SNI comes from the copied "sni" or from the shared default. */
  function SniPairs(m: map<string, string>): Pairs {
    if Get(m, "sni") == "" then Optional("sni", Get(m, "sni_default")) else []
  }

  /** The Host header: the merged one, or the connection host where one is needed. */
  function HostPairs(host: string, m: map<string, string>, transport: string): Pairs {
    if Get(m, "host") != "" then [("host", Get(m, "host"))]
    else if UsesHostHeader(transport) then [("host", host)]
    else []
  }

  /** The pairs a VLESS URI carries, before escaping. */
  function VlessPairs(host: string, m: map<string, string>, transport: string, security: string): Pairs {
    Head(transport, security) + Copied(m, |COPIED|) + SniPairs(m) + HostPairs(host, m, transport)
  }

  /** The first pairs are printed as they are, the copied ones escaped. */
  function ParamText(p: (string, string)): string {
    if p.0 == "type" || p.0 == "encryption" || p.0 == "security" then p.0 + "=" + p.1 else PairText(p)
  }

  function ParamTexts(ps: Pairs): (ts: seq<string>)
    ensures |ts| == |ps|
    ensures forall i :: 0 <= i < |ps| ==> ts[i] == ParamText(ps[i])
  {
    seq(|ps|, i requires 0 <= i < |ps| => ParamText(ps[i]))
  }

  function Uuid(user: string, m: map<string, string>): string {
    if user != "" then user else Get(m, "uuid")
  }

  function Assemble(uuid: string, host: string, port: string, query: string, name: string): string {
    "vless://" + (uuid + "@" + (host + ":" + port)) + "?" + query + "#" + name
  }

  function VlessURI(user: string, host: string, port: string, friendly: string,
                    m: map<string, string>, transport: string, security: string): string {
    Assemble(Uuid(user, m), host, port, Join(ParamTexts(VlessPairs(host, m, transport, security)), '&'),
      friendly + "-" + transport)
  }

  ghost predicate HasKey(ps: Pairs, k: string) {
    exists i :: 0 <= i < |ps| && ps[i].0 == k
  }

  ghost predicate SafeKeys(ps: Pairs) {
    forall i :: 0 <= i < |ps| ==> '=' !in ps[i].0
  }

  /** A printed parameter starts with `k=` exactly when `k` is its key. */
  lemma {:induction false} KeyOfText(key: string, value: string, k: string)
    requires '=' !in key && '=' !in k
    ensures HasPrefix(key + "=" + value, k + "=") <==> key == k
  {
    var t := key + "=" + value;
    CutAppend(key, '=', value);
    assert key + ['='] + value == t;
    assert key == k ==> t[..|k| + 1] == k + "=";
    if HasPrefix(t, k + "=") {
      CutAppend(k, '=', t[|k| + 1..]);
      assert k + ['='] + t[|k| + 1..] == t;
    }
  }

  lemma {:induction false} KeyOfParam(p: (string, string), k: string)
    requires '=' !in p.0 && '=' !in k
    ensures HasPrefix(ParamText(p), k + "=") <==> p.0 == k
  {
    hide HasPrefix;
    KeyOfText(p.0, p.1, k);
    KeyOfText(p.0, QueryEscape(p.1), k);
  }

  lemma {:induction false} HasParamIsHasKey(ps: Pairs, k: string)
    requires SafeKeys(ps) && '=' !in k
    ensures HasParam(ParamTexts(ps), k) <==> HasKey(ps, k)
  {
    hide ParamText, HasPrefix;
    forall i | 0 <= i < |ps|
      ensures HasPrefix(ParamTexts(ps)[i], k + "=") <==> ps[i].0 == k
    {
      KeyOfParam(ps[i], k);
    }
    var ts := ParamTexts(ps);
    if HasKey(ps, k) {
      var i :| 0 <= i < |ps| && ps[i].0 == k;
      assert HasPrefix(ts[i], k + "=");
    }
  }

  lemma {:induction false} CopiedKeys(m: map<string, string>, n: nat)
    requires n <= |COPIED|
    ensures SafeKeys(Copied(m, n))
    ensures forall k :: HasKey(Copied(m, n), k) <==> Get(m, k) != "" && k in COPIED[..n]
  {
    if n > 0 {
      CopiedKeys(m, n - 1);
      var key := COPIED[n - 1];
      CopiedKeyNames(n - 1);
      HasKeyAppend(Copied(m, n - 1), Optional(key, Get(m, key)));
      assert COPIED[..n] == COPIED[..n - 1] + [key];
      forall k
        ensures HasKey(Copied(m, n), k) <==> Get(m, k) != "" && k in COPIED[..n]
      {
        OptionalKey(key, Get(m, key), k);
        assert k in COPIED[..n] <==> k in COPIED[..n - 1] || k == key;
      }
    }
  }

  lemma {:induction false} OptionalKey(key: string, v: string, k: string)
    ensures HasKey(Optional(key, v), k) <==> k == key && v != ""
  {
    if v != "" {
      assert Optional(key, v)[0].0 == key;
    }
  }

  lemma {:induction false} HasKeyAppend(a: Pairs, b: Pairs)
    ensures forall k :: HasKey(a + b, k) <==> HasKey(a, k) || HasKey(b, k)
  {
    forall k
      ensures HasKey(a + b, k) <==> HasKey(a, k) || HasKey(b, k)
    {
      if HasKey(a, k) {
        var i :| 0 <= i < |a| && a[i].0 == k;
        assert (a + b)[i].0 == k;
      } else if HasKey(b, k) {
        var i :| 0 <= i < |b| && b[i].0 == k;
        assert (a + b)[|a| + i].0 == k;
      }
    }
  }

  lemma {:induction false} ParamTextsSnoc(ps: Pairs, p: (string, string))
    ensures ParamTexts(ps + [p]) == ParamTexts(ps) + [ParamText(p)]
  {
  }

  lemma {:induction false} LateParamTexts(v: string)
    ensures ParamText(("sni", v)) == "sni=" + QueryEscape(v)
    ensures ParamText(("host", v)) == "host=" + QueryEscape(v)
  {
    assert |"sni"| == 3 && |"host"| == 4 && |"encryption"| == 10 && |"security"| == 8;
    assert "host"[0] == 'h' && "type"[0] == 't';
    assert "sni" + "=" == "sni=" && "host" + "=" == "host=";
  }

  lemma {:induction false} CopiedKeyNames(n: nat)
    requires n < |COPIED|
    ensures COPIED[n] != "type" && COPIED[n] != "encryption" && COPIED[n] != "security" && COPIED[n] != "host"
    ensures COPIED[n] == "sni" <==> n == 1
    ensures '=' !in COPIED[n]
  {
    assert COPIED[n][0] != 't' && COPIED[n][0] != 'e' && COPIED[n][0] != 'h';
    assert "type"[0] == 't' && "encryption"[0] == 'e' && "host"[0] == 'h';
    assert |COPIED[n]| < 8 && |"security"| == 8;
    assert "sni"[1] == 'n' && "sid"[1] == 'i' && |"sni"| == 3 && "pbk"[0] == 'p' && |"fp"| == 2;
  }

  lemma {:induction false} CopiedText(n: nat, v: string)
    requires n < |COPIED|
    ensures ParamText((COPIED[n], v)) == COPIED[n] + "=" + QueryEscape(v)
  {
    CopiedKeyNames(n);
  }

  lemma {:induction false} HeadTexts(transport: string, security: string)
    ensures ParamTexts(Head(transport, security))
      == ["type=" + transport, "encryption=none"] + (if security == "" then [] else ["security=" + security])
    ensures SafeKeys(Head(transport, security))
    ensures forall k :: HasKey(Head(transport, security), k) ==> k == "type" || k == "encryption" || k == "security"
  {
    assert "encryption" + "=" + "none" == "encryption=none";
    var ps := Head(transport, security);
    assert ParamText(("type", transport)) == "type=" + transport;
    assert ParamText(("security", security)) == "security=" + security;
  }

  /** The parameters so far hold an "sni" exactly when the merged map has one. */
  lemma {:induction false} SniKnown(transport: string, security: string, m: map<string, string>)
    ensures HasParam(ParamTexts(Head(transport, security) + Copied(m, |COPIED|)), "sni") <==> Get(m, "sni") != ""
  {
    var ps := Head(transport, security) + Copied(m, |COPIED|);
    HeadTexts(transport, security);
    CopiedKeys(m, |COPIED|);
    HasKeyAppend(Head(transport, security), Copied(m, |COPIED|));
    HasParamIsHasKey(ps, "sni");
    assert COPIED[1] == "sni" && COPIED[..|COPIED|] == COPIED;
    assert "sni" != "type" && "sni" != "encryption" && "sni" != "security";
  }

  lemma {:induction false} NoHostYet(transport: string, security: string, m: map<string, string>)
    ensures var ps := Head(transport, security) + Copied(m, |COPIED|) + SniPairs(m); SafeKeys(ps) && !HasKey(ps, "host")
  {
    HeadTexts(transport, security);
    CopiedKeys(m, |COPIED|);
    HasKeyAppend(Head(transport, security), Copied(m, |COPIED|));
    HasKeyAppend(Head(transport, security) + Copied(m, |COPIED|), SniPairs(m));
    if "host" in COPIED[..|COPIED|] {
      var n :| 0 <= n < |COPIED| && COPIED[n] == "host";
      CopiedKeyNames(n);
    }
    assert "host" != "sni" && "host" != "type" && "host" != "encryption" && "host" != "security";
  }

  /** They hold a "host" exactly when the merged map has one. */
  lemma {:induction false} HostKnown(transport: string, security: string, m: map<string, string>, ps: Pairs)
    requires ps == Head(transport, security) + Copied(m, |COPIED|) + SniPairs(m)
    ensures HasParam(ParamTexts(ps + Optional("host", Get(m, "host"))), "host") <==> Get(m, "host") != ""
  {
    var b := Optional("host", Get(m, "host"));
    NoHostYet(transport, security, m);
    HasKeyAppend(ps, b);
    HasParamIsHasKey(ps + b, "host");
    if Get(m, "host") != "" {
      assert b[0].0 == "host";
    }
  }

  /** Growing the parameter list. */
  method BuildParams(host: string, m: map<string, string>, transport: string, security: string)
    returns (params: seq<string>)
    ensures params == ParamTexts(VlessPairs(host, m, transport, security))
  {
    hide ParamText, QueryEscape, ParamTexts, HasParam, HostPairs, VlessPairs, Head, Copied;
    params := ["type=" + transport, "encryption=none"];
    if security != "" {
      params := params + ["security=" + security];
    }
    HeadTexts(transport, security);
    params := AddCopied(m, Head(transport, security), params);
    ghost var ps := Head(transport, security) + Copied(m, |COPIED|);
    SniKnown(transport, security, m);
    assert ps + [] == ps;
    var sni := Get(m, "sni_default");
    if !HasParam(params, "sni") && sni != "" {
      ParamTextsSnoc(ps, ("sni", sni));
      LateParamTexts(sni);
      params := params + ["sni=" + QueryEscape(sni)];
    }
    params := AddHost(host, m, transport, security, ps + SniPairs(m), params);
  }

  /** The merged parameters that are not empty, in printing order. */
  method AddCopied(m: map<string, string>, ghost head: Pairs, before: seq<string>) returns (params: seq<string>)
    requires before == ParamTexts(head)
    ensures params == ParamTexts(head + Copied(m, |COPIED|))
  {
    hide ParamText, QueryEscape, ParamTexts;
    params := before;
    ghost var ps := head;
    for i := 0 to |COPIED|
      invariant ps == head + Copied(m, i)
      invariant params == ParamTexts(ps)
    {
      var v := Get(m, COPIED[i]);
      if v != "" {
        CopiedText(i, v);
        ParamTextsSnoc(ps, (COPIED[i], v));
        params := params + [COPIED[i] + "=" + QueryEscape(v)];
      }
      AppendOptional(head, Copied(m, i), COPIED[i], v);
      ps := ps + Optional(COPIED[i], v);
    }
  }

  lemma {:induction false} AppendOptional(a: Pairs, b: Pairs, key: string, v: string)
    ensures (a + b) + Optional(key, v) == a + (b + Optional(key, v))
    ensures v == "" ==> (a + b) + Optional(key, v) == a + b
  {
  }

  /** The Host parameter: the merged one, or the connection host where one is needed. */
  method AddHost(host: string, m: map<string, string>, transport: string, security: string, ghost ps: Pairs,
                 before: seq<string>)
    returns (params: seq<string>)
    requires ps == Head(transport, security) + Copied(m, |COPIED|) + SniPairs(m)
    requires before == ParamTexts(ps)
    ensures params == ParamTexts(VlessPairs(host, m, transport, security))
  {
    params := before;
    var own := Get(m, "host");
    if own != "" {
      ParamTextsSnoc(ps, ("host", own));
      LateParamTexts(own);
      params := params + ["host=" + QueryEscape(own)];
    }
    assert ps + [] == ps;
    HostKnown(transport, security, m, ps);
    if UsesHostHeader(transport) && !HasParam(params, "host") {
      ParamTextsSnoc(ps, ("host", host));
      LateParamTexts(host);
      params := params + ["host=" + QueryEscape(host)];
    }
  }

  lemma {:induction false} ParamsStart(host: string, m: map<string, string>, transport: string, security: string)
    ensures var params := ParamTexts(VlessPairs(host, m, transport, security));
      "type=" + transport + "&encryption=none" <= Join(params, '&')
  {
    hide Join, VlessPairs;
    FirstPairs(host, m, transport, security);
    TwoFirst(ParamTexts(VlessPairs(host, m, transport, security)), "type=" + transport, "encryption=none");
    assert "type=" + transport + "&" + "encryption=none" == "type=" + transport + "&encryption=none";
  }

  lemma {:induction false} FirstPairs(host: string, m: map<string, string>, transport: string, security: string)
    ensures var ps := VlessPairs(host, m, transport, security);
      && |ps| >= 2
      && ParamText(ps[0]) == "type=" + transport
      && ParamText(ps[1]) == "encryption=none"
  {
    hide Copied, SniPairs, HostPairs;
  }

  lemma {:induction false} TwoFirst(ts: seq<string>, a: string, b: string)
    requires |ts| >= 2 && ts[0] == a && ts[1] == b
    ensures a + "&" + b <= Join(ts, '&')
  {
    var rest := Join(ts[1..], '&');
    assert b <= rest;
    assert Join(ts, '&') == a + ['&'] + rest;
    assert a + "&" + b == (a + ['&'] + rest)[..|a| + 1 + |b|];
  }

  lemma {:induction false} AssembledStart(uuid: string, host: string, port: string, query: string, name: string,
                                          q: string)
    requires q <= query
    ensures "vless://" + uuid + "@" + host + ":" + port + "?" + q <= Assemble(uuid, host, port, query, name)
  {
    var front := "vless://" + uuid + "@" + host + ":" + port + "?";
    assert front == "vless://" + (uuid + "@" + (host + ":" + port)) + "?";
    assert query == q + query[|q|..];
    assert Assemble(uuid, host, port, query, name) == front + query + "#" + name;
    assert Assemble(uuid, host, port, query, name) == (front + q) + (query[|q|..] + "#" + name);
  }

  /** `buildVLESSURI`. */
  method BuildVlessURI(user: string, host: string, port: string, friendly: string,
                       m: map<string, string>, transport: string, security: string)
    returns (uri: string)
    ensures uri == VlessURI(user, host, port, friendly, m, transport, security)
    ensures var owner := if user != "" then user else Get(m, "uuid");
      "vless://" + owner + "@" + host + ":" + port + "?type=" + transport + "&encryption=none" <= uri
  {
    hide ParamTexts, VlessPairs, Join;
    var uuid := Get(m, "uuid");
    if user != "" {
      uuid := user;
    }
    var params := BuildParams(host, m, transport, security);
    uri := Assemble(uuid, host, port, Join(params, '&'), friendly + "-" + transport);
    ParamsStart(host, m, transport, security);
    AssembledStart(uuid, host, port, Join(params, '&'), friendly + "-" + transport,
      "type=" + transport + "&encryption=none");
    assert "vless://" + uuid + "@" + host + ":" + port + "?" + ("type=" + transport + "&encryption=none") ==
      "vless://" + uuid + "@" + host + ":" + port + "?type=" + transport + "&encryption=none";
  }

  // ----- parsing -----

  datatype URL = URL(user: string, host: string, rawQuery: string, fragment: string)

  predicate AllDigits(s: string) {
    forall i :: 0 <= i < |s| ==> Decimal.IsDigit(s[i])
  }

  /** The library's check on what follows the last colon of a host. */
  predicate ValidOptionalPort(host: string) {
    var i := LastIndexByte(host, ':');
    i < 0 || AllDigits(host[i + 1..])
  }

  /** How the library splits a vless URI: fragment, query, authority up to the first slash,
      user name up to the last "@". None is a bad scheme or a bad port. The library also
      percent-decodes user, host and fragment; the model reads them as they stand. */
  function SplitURL(uri: string): Option<URL> {
    var (u, fragment, _) := Cut(uri, '#');
    var (front, rawQuery, _) := Cut(u, '?');
    if !HasPrefix(front, "vless://") then None
    else
      var authority := Cut(front[8..], '/').0;
      var at := LastIndexByte(authority, '@');
      var host := authority[at + 1..];
      if !ValidOptionalPort(host) then None
      else Some(URL(if at < 0 then "" else Cut(authority[..at], ':').0, host, rawQuery, fragment))
  }

  datatype Parsed = Parsed(address: string, name: string, config: map<string, string>)

  function VlessConfig(uuid: string, net: string, security: string, flow: string, pbk: string, sid: string,
                       sni: string, fp: string, path: string, host: string, alpn: string,
                       encryption: string): map<string, string> {
    map["uuid" := uuid, "net" := net, "security" := security, "flow" := flow, "pbk" := pbk, "sid" := sid,
        "sni" := sni, "fp" := fp, "path" := path, "host" := host, "alpn" := alpn, "encryption" := encryption]
  }

  /** `parseVLESS`. */
  function ParseVless(uri: string): Option<Parsed> {
    match SplitURL(uri)
    case None => None
    case Some(u) =>
      var q := ParseQuery(u.rawQuery);
      Some(Parsed(u.host, u.fragment, VlessConfig(
        u.user, First(q, "type"), First(q, "security"), First(q, "flow"), First(q, "pbk"), First(q, "sid"),
        First(q, "sni"), First(q, "fp"), First(q, "path"), First(q, "host"), First(q, "alpn"), First(q, "encryption"))))
  }

  // ----- round trip -----

  lemma {:induction false} FirstAppend(a: Pairs, b: Pairs, k: string)
    ensures First(a + b, k) == if HasKey(a, k) then First(a, k) else First(b, k)
    ensures !HasKey(a, k) ==> First(a, k) == ""
  {
    if a == [] {
      assert a + b == b;
    } else {
      assert (a + b)[1..] == a[1..] + b;
      FirstAppend(a[1..], b, k);
      if a[0].0 != k {
        assert HasKey(a[1..], k) ==> HasKey(a, k) by {
          if HasKey(a[1..], k) {
            var i :| 0 <= i < |a[1..]| && a[1..][i].0 == k;
            assert a[i + 1].0 == k;
          }
        }
        assert HasKey(a, k) ==> HasKey(a[1..], k) by {
          if HasKey(a, k) {
            var i :| 0 <= i < |a| && a[i].0 == k;
            assert a[1..][i - 1].0 == k;
          }
        }
      } else {
        assert HasKey(a, k);
      }
    }
  }

  lemma {:induction false} OptionalLookup(key: string, v: string, k: string)
    ensures First(Optional(key, v), k) == if key == k then v else ""
    ensures HasKey(Optional(key, v), k) <==> key == k && v != ""
  {
    var ps := Optional(key, v);
    if v != "" {
      assert ps[1..] == [] && ps[0].0 == key;
    }
  }

  lemma {:induction false} CopiedFirst(m: map<string, string>, n: nat, k: string)
    requires n <= |COPIED|
    ensures First(Copied(m, n), k) == if HasKey(Copied(m, n), k) then Get(m, k) else ""
  {
    if n > 0 {
      var a, b := Copied(m, n - 1), Optional(COPIED[n - 1], Get(m, COPIED[n - 1]));
      CopiedFirst(m, n - 1, k);
      FirstAppend(a, b, k);
      HasKeyAppend(a, b);
      OptionalLookup(COPIED[n - 1], Get(m, COPIED[n - 1]), k);
    }
  }

  predicate HeadKey(k: string) {
    k == "type" || k == "encryption" || k == "security"
  }

  lemma {:induction false} CopiedNames(k: string)
    requires k in COPIED
    ensures !HeadKey(k) && k != "host"
  {
    var n :| 0 <= n < |COPIED| && COPIED[n] == k;
    CopiedKeyNames(n);
  }

  /** Looking up a key in the head and the copied pairs. */
  lemma {:induction false} FrontLookup(m: map<string, string>, transport: string, security: string, k: string)
    ensures First(Head(transport, security) + Copied(m, |COPIED|), k) ==
      if HeadKey(k) then First(Head(transport, security), k)
      else if k in COPIED then Get(m, k) else ""
    ensures HasKey(Head(transport, security) + Copied(m, |COPIED|), k) <==>
      HasKey(Head(transport, security), k) || (k in COPIED && Get(m, k) != "")
  {
    var a, b := Head(transport, security), Copied(m, |COPIED|);
    FirstAppend(a, b, k);
    HasKeyAppend(a, b);
    HeadLookup(transport, security, k);
    CopiedFirst(m, |COPIED|, k);
    CopiedKeys(m, |COPIED|);
    assert COPIED[..|COPIED|] == COPIED;
    if k in COPIED {
      CopiedNames(k);
    }
  }

  /** The first three parts; the SNI may come from the shared default. */
  lemma {:induction false} SniLookup(m: map<string, string>, transport: string, security: string, k: string)
    ensures First(Head(transport, security) + Copied(m, |COPIED|) + SniPairs(m), k) ==
      if HeadKey(k) then First(Head(transport, security), k)
      else if k == "sni" then (if Get(m, "sni") != "" then Get(m, "sni") else Get(m, "sni_default"))
      else if k in COPIED then Get(m, k) else ""
  {
    var front := Head(transport, security) + Copied(m, |COPIED|);
    FrontLookup(m, transport, security, k);
    FirstAppend(front, SniPairs(m), k);
    HeadLookup(transport, security, k);
    OptionalLookup("sni", Get(m, "sni_default"), k);
    assert COPIED[1] == "sni";
    CopiedNames("sni");
  }

  /** What a lookup in the printed pairs finds. */
  lemma {:induction false} LookupPrinted(host: string, m: map<string, string>, transport: string, security: string,
                                         k: string)
    ensures First(VlessPairs(host, m, transport, security), k) ==
      if k == "type" then transport
      else if k == "encryption" then "none"
      else if k == "security" then security
      else if k == "host" then
        (if Get(m, "host") != "" then Get(m, "host") else if UsesHostHeader(transport) then host else "")
      else if k == "sni" then
        (if Get(m, "sni") != "" then Get(m, "sni") else Get(m, "sni_default"))
      else if k in COPIED then Get(m, k) else ""
  {
    var front, d := Head(transport, security) + Copied(m, |COPIED|) + SniPairs(m), HostPairs(host, m, transport);
    SniLookup(m, transport, security, k);
    HeadLookup(transport, security, k);
    FirstAppend(front, d, k);
    if d == [] {
      assert front + d == front;
      assert First(d, k) == "";
    } else {
      SingleLookup("host", d[0].1, k);
      assert d == [("host", d[0].1)];
    }
    NoHostYet(transport, security, m);
    if k in COPIED {
      CopiedNames(k);
    }
  }

  lemma {:induction false} HeadLookup(transport: string, security: string, k: string)
    ensures var h := Head(transport, security);
      && First(h, k) == (if k == "type" then transport else if k == "encryption" then "none"
        else if k == "security" then security else "")
      && (HasKey(h, k) <==> k == "type" || k == "encryption" || (k == "security" && security != ""))
  {
    var a, b := [("type", transport)], [("encryption", "none")];
    var c := Optional("security", security);
    assert Head(transport, security) == a + b + c;
    FirstAppend(a + b, c, k);
    FirstAppend(a, b, k);
    HasKeyAppend(a + b, c);
    HasKeyAppend(a, b);
    SingleLookup("type", transport, k);
    SingleLookup("encryption", "none", k);
    OptionalLookup("security", security, k);
    assert |"type"| == 4 && |"encryption"| == 10 && |"security"| == 8;
  }

  lemma {:induction false} SingleLookup(key: string, v: string, k: string)
    ensures First([(key, v)], k) == if key == k then v else ""
    ensures HasKey([(key, v)], k) <==> key == k
  {
    assert [(key, v)][0].0 == key && [(key, v)][1..] == [];
  }

  lemma {:induction false} LastAt(a: string, b: string)
    requires '@' !in b
    ensures LastIndexByte(a + "@" + b, '@') == |a|
  {
    var s := a + "@" + b;
    assert s[|a|] == '@';
    forall j | |a| < j < |s|
      ensures s[j] != '@'
    {
      assert s[j] == b[j - |a| - 1];
    }
  }

  lemma {:induction false} PortCheck(host: string, port: string)
    requires ':' !in port
    ensures ValidOptionalPort(host + ":" + port) <==> AllDigits(port)
  {
    var hp := host + ":" + port;
    assert hp[|host|] == ':';
    forall j | |host| < j < |hp|
      ensures hp[j] != ':'
    {
      assert hp[j] == port[j - |host| - 1];
    }
    assert hp[|host| + 1..] == port;
  }

  lemma {:induction false} SafeHasNo(s: string, c: char)
    requires Safe(s) && !Unreserved(c)
    ensures c !in s
  {
  }

  lemma {:induction false} HostPortHasNo(host: string, port: string, c: char)
    requires Safe(host) && Safe(port) && !Unreserved(c) && c != ':'
    ensures c !in host + ":" + port
  {
  }

  /** An authority of safe parts splits back into them. */
  lemma {:induction false} SplitAuthority(uuid: string, host: string, port: string)
    requires Safe(uuid) && Safe(host) && Safe(port)
    ensures var a := uuid + "@" + (host + ":" + port);
      && Cut(a, '/').0 == a && '#' !in a && '?' !in a
      && LastIndexByte(a, '@') == |uuid| && a[..|uuid|] == uuid && a[|uuid| + 1..] == host + ":" + port
      && Cut(uuid, ':').0 == uuid
  {
    var hp := host + ":" + port;
    SafeHasNo(uuid, '/');
    SafeHasNo(uuid, '#');
    SafeHasNo(uuid, '?');
    SafeHasNo(uuid, ':');
    HostPortHasNo(host, port, '/');
    HostPortHasNo(host, port, '#');
    HostPortHasNo(host, port, '?');
    HostPortHasNo(host, port, '@');
    LastAt(uuid, hp);
  }

  /** The library splits a printed URI back into its parts exactly when the port is made of
      digits; otherwise it reports an error. */
  lemma {:induction false} SplitAssembled(uuid: string, host: string, port: string, query: string, name: string)
    requires Safe(uuid) && Safe(host) && Safe(port)
    requires '#' !in query
    ensures SplitURL(Assemble(uuid, host, port, query, name))
      == if AllDigits(port) then Some(URL(uuid, host + ":" + port, query, name)) else None
  {
    hide Cut, LastIndexByte, IndexByte, ValidOptionalPort, Safe, AllDigits;
    var authority := uuid + "@" + (host + ":" + port);
    SplitAuthority(uuid, host, port);
    CutAssembled(authority, query, name);
    SafeHasNo(port, ':');
    PortCheck(host, port);
  }

  /** The two outer cuts and the scheme. */
  lemma {:induction false} CutAssembled(authority: string, query: string, name: string)
    requires '#' !in authority && '?' !in authority && '#' !in query
    ensures var front, u := "vless://" + authority, "vless://" + authority + "?" + query;
      && Cut(u + "#" + name, '#') == (u, name, true) && Cut(u, '?') == (front, query, true)
      && HasPrefix(front, "vless://") && front[8..] == authority
  {
    hide Cut;
    var front := "vless://" + authority;
    var u := front + "?" + query;
    InFront(authority, '#');
    InFront(authority, '?');
    CutAppend(u, '#', name);
    CutAppend(front, '?', query);
    assert u + "#" + name == u + ['#'] + name;
    assert u == front + ['?'] + query;
  }

  lemma {:induction false} InFront(authority: string, c: char)
    requires c !in authority && (c == '#' || c == '?')
    ensures c !in "vless://" + authority
  {
    assert c !in "vless://";
  }

  predicate HasNone(s: string, cs: set<char>) {
    forall c :: c in s ==> c !in cs
  }

  /** Any link with a port: the user name ends at the first colon, a path is dropped, and the link is
      refused exactly when the port is not made of digits. */
  lemma {:induction false} LinkSplits(user: string, password: string, host: string, port: string, path: string,
                                      query: string, name: string)
    requires HasNone(user, {':', '/', '?', '#', '@'}) && HasNone(password, {'/', '?', '#', '@'})
    requires HasNone(host, {'/', '?', '#', '@'}) && HasNone(port, {':', '/', '?', '#', '@'})
    requires (path == "" || path[0] == '/') && HasNone(path, {'?', '#'}) && '#' !in query
    ensures var authority := user + ":" + password + "@" + (host + ":" + port) + path;
      SplitURL("vless://" + authority + "?" + query + "#" + name)
      == if forall c :: c in port ==> '0' <= c <= '9' then Some(URL(user, host + ":" + port, query, name)) else None
  {
    hide Cut, LastIndexByte, IndexByte, ValidOptionalPort;
    var login, hp := user + ":" + password, host + ":" + port;
    var a := login + "@" + hp;
    assert HasNone(a, {'/', '?', '#'});
    CutAssembled(a + path, query, name);
    PathDropped(a, path);
    LastAt(login, hp);
    assert a[..|login|] == login && a[|login| + 1..] == hp;
    CutAppend(user, ':', password);
    assert login == user + [':'] + password;
    PortCheck(host, port);
    assert forall i :: 0 <= i < |port| ==> port[i] in port;
  }

  lemma {:induction false} PathDropped(a: string, path: string)
    requires HasNone(a, {'/'}) && (path == "" || path[0] == '/')
    ensures Cut(a + path, '/').0 == a
  {
    hide Cut;
    if path == "" {
      assert a + path == a;
    } else {
      CutAppend(a, '/', path[1..]);
      assert a + path == a + ['/'] + path[1..];
    }
  }

  lemma {:induction false} PlainParams(ps: Pairs)
    requires forall i :: 0 <= i < |ps| && (ps[i].0 == "type" || ps[i].0 == "encryption" || ps[i].0 == "security") ==>
      Safe(ps[i].1)
    ensures ParamTexts(ps) == PairTexts(ps)
  {
    forall i | 0 <= i < |ps|
      ensures ParamText(ps[i]) == PairText(ps[i])
    {
      if ps[i].0 == "type" || ps[i].0 == "encryption" || ps[i].0 == "security" {
        SafeIsItsOwnEscape(ps[i].1);
      }
    }
  }

  /** Every value of the merged parameters is a byte string. */
  ghost predicate ByteValues(m: map<string, string>) {
    forall k :: k in m ==> IsBytes(m[k])
  }

  ghost predicate PairPrintable(p: (string, string)) {
    Safe(p.0) && IsBytes(p.1) && (HeadKey(p.0) ==> Safe(p.1))
  }

  lemma {:induction false} CopiedPrintable(m: map<string, string>, n: nat)
    requires n <= |COPIED| && ByteValues(m)
    ensures forall p :: p in Copied(m, n) ==> PairPrintable(p)
  {
    if n > 0 {
      CopiedPrintable(m, n - 1);
      CopiedNames(COPIED[n - 1]);
      assert Safe(COPIED[n - 1]);
    }
  }

  lemma {:induction false} HeadPrintable(transport: string, security: string)
    requires Safe(transport) && Safe(security)
    ensures forall p :: p in Head(transport, security) ==> PairPrintable(p)
  {
    SafeIsItsOwnEscape(transport);
    SafeIsItsOwnEscape(security);
    assert PairPrintable(("type", transport)) && PairPrintable(("encryption", "none"));
    assert PairPrintable(("security", security)) by {
      assert Safe("security");
    }
    forall p | p in Head(transport, security)
      ensures PairPrintable(p)
    {
      assert p == ("type", transport) || p == ("encryption", "none") || p == ("security", security);
    }
  }

  /** The printed pairs can be read back, and the ones printed as they are need no escape. */
  lemma {:induction false} PairsPrintable(host: string, m: map<string, string>, transport: string, security: string)
    requires Safe(host) && Safe(transport) && Safe(security) && ByteValues(m)
    ensures Printable(VlessPairs(host, m, transport, security))
    ensures ParamTexts(VlessPairs(host, m, transport, security)) == PairTexts(VlessPairs(host, m, transport, security))
  {
    var ps := VlessPairs(host, m, transport, security);
    HeadPrintable(transport, security);
    CopiedPrintable(m, |COPIED|);
    TailPrintable(host, m, transport);
    forall p | p in ps
      ensures PairPrintable(p)
    {
      assert p in Head(transport, security) || p in Copied(m, |COPIED|) || p in SniPairs(m) ||
        p in HostPairs(host, m, transport);
    }
    assert forall i :: 0 <= i < |ps| ==> ps[i] in ps;
    assert ps[0] == ("type", transport);
    PlainParams(ps);
  }

  lemma {:induction false} TailPrintable(host: string, m: map<string, string>, transport: string)
    requires Safe(host) && ByteValues(m)
    ensures forall p :: p in SniPairs(m) || p in HostPairs(host, m, transport) ==> PairPrintable(p)
  {
    SafeIsItsOwnEscape(host);
    assert |"type"| == 4 && |"encryption"| == 10 && |"security"| == 8 && "type"[0] == 't';
  }

  /** What the parser puts under each key. */
  lemma {:induction false} ConfigKeys(uuid: string, net: string, security: string, flow: string, pbk: string,
                                      sid: string,
                                      sni: string, fp: string, path: string, host: string, alpn: string,
                                      encryption: string)
    ensures var c := VlessConfig(uuid, net, security, flow, pbk, sid, sni, fp, path, host, alpn, encryption);
      && c.Keys == RECORD_KEYS
      && c["uuid"] == uuid && c["net"] == net && c["security"] == security && c["flow"] == flow
      && c["pbk"] == pbk && c["sid"] == sid && c["sni"] == sni && c["fp"] == fp
      && c["path"] == path && c["host"] == host && c["alpn"] == alpn && c["encryption"] == encryption
  {
  }

  const RECORD_KEYS := {
    "uuid", "net", "security", "flow", "pbk", "sid", "sni", "fp", "path", "host", "alpn", "encryption"}

  /** The endpoint of any URI that parses, key by key: each holds the first query parameter of its
      name, but for "net", whose parameter is "type", and the user name. */
  lemma {:induction false} ParsedKeys(uri: string, u: URL)
    requires SplitURL(uri) == Some(u)
    ensures ParseVless(uri).Some?
    ensures var p, q := ParseVless(uri).value, ParseQuery(u.rawQuery);
      && p.address == u.host && p.name == u.fragment && p.config.Keys == RECORD_KEYS
      && p.config["uuid"] == u.user && p.config["net"] == First(q, "type")
      && p.config["security"] == First(q, "security") && p.config["flow"] == First(q, "flow")
      && p.config["pbk"] == First(q, "pbk") && p.config["sid"] == First(q, "sid")
      && p.config["sni"] == First(q, "sni") && p.config["fp"] == First(q, "fp")
      && p.config["path"] == First(q, "path") && p.config["host"] == First(q, "host")
      && p.config["alpn"] == First(q, "alpn") && p.config["encryption"] == First(q, "encryption")
  {
    hide VlessConfig, First, SplitURL;
    var q := ParseQuery(u.rawQuery);
    ConfigKeys(u.user, First(q, "type"), First(q, "security"), First(q, "flow"), First(q, "pbk"), First(q, "sid"),
      First(q, "sni"), First(q, "fp"), First(q, "path"), First(q, "host"), First(q, "alpn"), First(q, "encryption"));
  }

  /** The config holds the record: each copied parameter byte for byte under its own name, the
      shared default where the record has no SNI, and the connection host where it has no Host
      header and the transport needs one. */
  ghost predicate HoldsRecord(c: map<string, string>, user: string, host: string, m: map<string, string>,
                              transport: string, security: string) {
    && c.Keys == RECORD_KEYS
    && c["uuid"] == (if user != "" then user else Get(m, "uuid"))
    && c["net"] == transport && c["security"] == security && c["encryption"] == "none"
    && c["flow"] == Get(m, "flow") && c["pbk"] == Get(m, "pbk") && c["sid"] == Get(m, "sid")
    && c["fp"] == Get(m, "fp") && c["alpn"] == Get(m, "alpn") && c["path"] == Get(m, "path")
    && c["sni"] == (if Get(m, "sni") != "" then Get(m, "sni") else Get(m, "sni_default"))
    && c["host"] == (if Get(m, "host") != "" then Get(m, "host")
                     else if transport == "ws" || transport == "httpupgrade" then host else "")
  }

  /** Printing a VLESS record and parsing it gives the record back, key by key, exactly when the
      port is made of digits. */
  lemma {:induction false} BundleRoundTrip(user: string, host: string, port: string, friendly: string,
                                           m: map<string, string>, transport: string, security: string)
    requires Safe(Uuid(user, m)) && Safe(host) && Safe(port) && Safe(friendly) && Safe(transport) && Safe(security) &&
      ByteValues(m)
    ensures var r := ParseVless(VlessURI(user, host, port, friendly, m, transport, security));
      && (r.Some? <==> forall i :: 0 <= i < |port| ==> '0' <= port[i] <= '9')
      && (r.Some? ==>
        && r.value.address == host + ":" + port && r.value.name == friendly + "-" + transport
        && HoldsRecord(r.value.config, user, host, m, transport, security))
  {
    hide VlessPairs, First, ParseQuery, VlessConfig, Join, Safe, ByteValues, SplitURL, ParseVless, HoldsRecord,
      Assemble;
    var uri := VlessURI(user, host, port, friendly, m, transport, security);
    var query := PrintedQuery(host, m, transport, security);
    var u := URL(Uuid(user, m), host + ":" + port, query, friendly + "-" + transport);
    SplitAssembled(Uuid(user, m), host, port, query, friendly + "-" + transport);
    if AllDigits(port) {
      ParsedRecord(uri, u, user, host, m, transport, security);
    } else {
      NotParsed(uri);
    }
  }

  lemma {:induction false} NotParsed(uri: string)
    requires SplitURL(uri).None?
    ensures ParseVless(uri).None?
  {
  }

  lemma {:induction false} ParsedRecord(uri: string, u: URL, user: string, host: string, m: map<string, string>,
                                        transport: string, security: string)
    requires SplitURL(uri) == Some(u) && u.user == Uuid(user, m)
    requires ParseQuery(u.rawQuery) == VlessPairs(host, m, transport, security)
    ensures ParseVless(uri).Some? && ParseVless(uri).value.address == u.host && ParseVless(uri).value.name == u.fragment
    ensures HoldsRecord(ParseVless(uri).value.config, user, host, m, transport, security)
  {
    hide VlessPairs, First, ParseQuery, SplitURL, ParseVless;
    ParsedKeys(uri, u);
    ReadBack(host, m, transport, security);
  }

  lemma {:induction false} NoHash(ps: Pairs)
    requires Printable(ps)
    ensures '#' !in Join(PairTexts(ps), '&')
  {
    QueryIsInert(ps);
    var query := Join(PairTexts(ps), '&');
    forall i | 0 <= i < |query|
      ensures query[i] != '#'
    {
      assert Inert(query[i]) || query[i] == '=' || query[i] == '&';
    }
  }

  lemma {:induction false} PrintedQuery(host: string, m: map<string, string>, transport: string, security: string)
    returns (query: string)
    requires Safe(host) && Safe(transport) && Safe(security) && ByteValues(m)
    ensures query == Join(ParamTexts(VlessPairs(host, m, transport, security)), '&')
    ensures '#' !in query && ParseQuery(query) == VlessPairs(host, m, transport, security)
  {
    var ps := VlessPairs(host, m, transport, security);
    PairsPrintable(host, m, transport, security);
    QueryRoundTrip(ps);
    query := Join(ParamTexts(ps), '&');
    NoHash(ps);
  }

  lemma {:induction false} ReadBack(host: string, m: map<string, string>, transport: string, security: string)
    ensures var q := VlessPairs(host, m, transport, security);
      && First(q, "type") == transport && First(q, "encryption") == "none" && First(q, "security") == security
      && First(q, "flow") == Get(m, "flow") && First(q, "pbk") == Get(m, "pbk") && First(q, "sid") == Get(m, "sid")
      && First(q, "fp") == Get(m, "fp") && First(q, "path") == Get(m, "path") && First(q, "alpn") == Get(m, "alpn")
      && First(q, "sni") == (if Get(m, "sni") != "" then Get(m, "sni") else Get(m, "sni_default"))
      && First(q, "host") == (if Get(m, "host") != "" then Get(m, "host")
        else if UsesHostHeader(transport) then host else "")
  {
    LookupPrinted(host, m, transport, security, "type");
    LookupPrinted(host, m, transport, security, "encryption");
    LookupPrinted(host, m, transport, security, "security");
    LookupPrinted(host, m, transport, security, "sni");
    LookupPrinted(host, m, transport, security, "host");
    forall n | 0 <= n < |COPIED| && n != 1
      ensures First(VlessPairs(host, m, transport, security), COPIED[n]) == Get(m, COPIED[n])
    {
      CopiedKeyNames(n);
      LookupPrinted(host, m, transport, security, COPIED[n]);
    }
    assert COPIED[0] == "flow" && COPIED[2] == "fp" && COPIED[3] == "pbk" && COPIED[4] == "sid" &&
      COPIED[5] == "alpn" && COPIED[6] == "path";
  }
}
