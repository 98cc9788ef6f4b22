/** The sing-box config generator. */
module SingBox {
  import opened Wrappers
  import opened Endpoints
  import opened CoreConfig
  import HostPort
  import Wanted

  const BASE_PORT := 10800

  /** None: a transport sing-box cannot speak, so the endpoint is skipped. */
  function TransportOf(c: map<string, string>): Option<Transport> {
    var net := NetHint(c);
    if net == "" || net == "tcp" then Some(NoTransport)
    else if net == "ws" || net == "httpupgrade" then Some(Transport(net, Get(c, "path"), Get(c, "host")))
    else if net == "grpc" then Some(Transport("grpc", Get(c, "path"), ""))
    else if net == "http" || net == "h2" then Some(Transport("http", Get(c, "path"), Get(c, "host")))
    else None
  }

  function VlessOutbound(c: map<string, string>, host: string, port: int): Option<Upstream> {
    var security := Get(c, "security");
    var sni := if security == "tls" || security == "reality" then Some(Get(c, "sni")) else None;
    match TransportOf(c)
    case None => None
    case Some(t) => Some(Upstream("vless", host, port, sni, security == "reality", t))
  }

  function TrojanOutbound(c: map<string, string>, host: string, port: int): Option<Upstream> {
    var sni := if Get(c, "security") == "tls" || Get(c, "security") == "" then Some(Get(c, "sni")) else None;
    match TransportOf(c)
    case None => None
    case Some(t) => Some(Upstream("trojan", host, port, sni, false, t))
  }

  function VmessOutbound(c: map<string, string>, host: string, port: int): Option<Upstream> {
    var sni := if Get(c, "tls") == "tls" then Some(Get(c, "host")) else None;
    match TransportOf(c)
    case None => None
    case Some(t) => Some(Upstream("vmess", host, port, sni, false, t))
  }

  function DialOutbound(v: View, host: string, port: int): Option<Upstream> {
    var c := v.attrs;
    if v.protocol == "vless" then VlessOutbound(c, host, port)
    else if v.protocol == "trojan" then TrojanOutbound(c, host, port)
    else if v.protocol == "anytls" then Some(Upstream("anytls", host, port, Some(Get(c, "sni")), false, NoTransport))
    else if v.protocol == "ss" then Some(Upstream("shadowsocks", host, port, None, false, NoTransport))
    else if v.protocol == "hysteria2" then
      Some(Upstream("hysteria2", host, port, Some(Get(c, "sni")), false, NoTransport))
    else if v.protocol == "vmess" then VmessOutbound(c, host, port)
    else if v.protocol == "tuic" then Some(Upstream("tuic", host, port, Some(Get(c, "sni")), false, NoTransport))
    else None
  }

  function OutboundOf(v: View): Option<Upstream> {
    match HostPort.ParseAddr(v.address)
    case None => None
    case Some((host, port)) =>
      match DialOutbound(v, host, port)
      case None => None
      case Some(up) => Some(ApplySpoof(up, v.attrs))
  }

  /** The WireGuard peer; it is never redirected to the spoofer. */
  function WireguardBlock(v: View): Option<Upstream> {
    match HostPort.ParseAddr(v.address)
    case None => None
    case Some((host, port)) =>
      if Get(v.attrs, "private_key") == "" || Get(v.attrs, "public_key") == "" then None
      else Some(Upstream("wireguard", host, port, None, false, NoTransport))
  }

  /** The block sing-box gets for an endpoint; None when it does not claim it. */
  function UpstreamOf(v: View): Option<Upstream> {
    if v.protocol == "sidecar" then None
    else if v.protocol == "wireguard" then WireguardBlock(v)
    else OutboundOf(v)
  }

  // ----- what the blocks hold -----

  lemma {:induction false} TransportIsWanted(v: View)
    requires Wanted.NamesTransport(v)
    ensures TransportOf(v.attrs).Some? <==>
      Wanted.TransportName(v.attrs) in {"", "tcp", "ws", "httpupgrade", "grpc", "http", "h2"}
    ensures TransportOf(v.attrs).Some? ==> Wanted.Carries(v, TransportOf(v.attrs).value)
  {
    assert NetHint(v.attrs) == Wanted.TransportName(v.attrs);
  }

  /** sing-box claims exactly the endpoints it can serve, and the block of each holds what the
      attributes ask for. */
  lemma {:induction false} BuildsWanted(v: View)
    ensures UpstreamOf(v).Some? <==> Wanted.BySingBox(v)
    ensures UpstreamOf(v).Some? ==> Wanted.SingBoxBlock(v, UpstreamOf(v).value)
  {
    hide TransportOf, HostPort.ParseAddr, Wanted.TransportName;
    if Wanted.NamesTransport(v) {
      TransportIsWanted(v);
    }
  }

  function PinsFor(vs: seq<View>, cfg: Config): (pins: seq<Option<string>>)
    ensures |pins| == |vs|
  {
    Pins(vs, UpstreamOf, cfg.dialHost, cfg.basePort)
  }

  function CompileSoFar(vs: seq<View>, cfg: Config, i: nat): Document
    requires i <= |vs|
  {
    Compile(vs, UpstreamOf, cfg.listenHost, cfg.basePort, Some(DIRECT_TAG), i)
  }

  function DocumentFor(vs: seq<View>, cfg: Config): Document {
    WithDirect(CompileSoFar(vs, cfg, |vs|))
  }

  /** Every endpoint sing-box can serve is served on the port that is pinned on it. */
  ghost predicate ServesAll(d: Document, vs: seq<View>, cfg: Config) {
    forall i :: 0 <= i < |vs| && Wanted.BySingBox(vs[i]) ==> ServedOnPin(d, vs, cfg, i)
  }

  ghost predicate ServedOnPin(d: Document, vs: seq<View>, cfg: Config, i: nat)
    requires i < |vs|
  {
    var port := PortAt(vs, UpstreamOf, cfg.basePort, i);
    PinsFor(vs, cfg)[i] == Some(HostPort.AddrText(cfg.dialHost, port)) && Wanted.SingBoxServes(d, port, vs[i])
  }

  lemma {:induction false} DocumentServesAll(vs: seq<View>, cfg: Config)
    ensures ServesAll(DocumentFor(vs, cfg), vs, cfg)
  {
    hide Wanted.BySingBox, Wanted.SingBoxBlock, UpstreamOf, Forward, Compile;
    forall i | 0 <= i < |vs| && Wanted.BySingBox(vs[i])
      ensures ServedOnPin(DocumentFor(vs, cfg), vs, cfg, i)
    {
      BuildsWanted(vs[i]);
      ForwardsToOwnBlock(vs, UpstreamOf, cfg.listenHost, cfg.basePort, Some(DIRECT_TAG), i);
    }
  }

  /** The two maps answer every read the generator makes alike. */
  ghost predicate SameReads(c: map<string, string>, d: map<string, string>) {
    && Get(c, "net") == Get(d, "net") && Get(c, "type") == Get(d, "type")
    && Get(c, "path") == Get(d, "path") && Get(c, "host") == Get(d, "host")
    && Get(c, "security") == Get(d, "security") && Get(c, "sni") == Get(d, "sni")
    && Get(c, "tls") == Get(d, "tls") && Get(c, "spoof_via") == Get(d, "spoof_via")
    && Get(c, "private_key") == Get(d, "private_key") && Get(c, "public_key") == Get(d, "public_key")
  }

  lemma {:induction false} PinIsNoReadKey(c: map<string, string>, d: map<string, string>)
    requires AgreeExcept(c, d, PIN)
    ensures SameReads(c, d)
  {
    assert PIN[0] == 's' && "private_key"[0] == 'p';
  }

  lemma {:induction false} SameReadsSameParts(c: map<string, string>, d: map<string, string>, host: string, port: int,
                                              up: Upstream)
    requires SameReads(c, d)
    ensures VlessOutbound(c, host, port) == VlessOutbound(d, host, port)
    ensures TrojanOutbound(c, host, port) == TrojanOutbound(d, host, port)
    ensures VmessOutbound(c, host, port) == VmessOutbound(d, host, port)
    ensures ApplySpoof(up, c) == ApplySpoof(up, d)
  {
    assert NetHint(c) == NetHint(d);
    assert TransportOf(c) == TransportOf(d);
  }

  /** Writing a pin never changes what the generator builds, even through a shared map. */
  lemma {:induction false} UpstreamIgnoresPin(v: View, w: View)
    requires v.protocol == w.protocol && v.address == w.address && AgreeExcept(v.attrs, w.attrs, PIN)
    ensures OutboundOf(v) == OutboundOf(w) && WireguardBlock(v) == WireguardBlock(w)
  {
    hide HostPort.ParseAddr, TransportOf, NetHint, ApplySpoof, VlessOutbound, TrojanOutbound, VmessOutbound;
    PinIsNoReadKey(v.attrs, w.attrs);
    match HostPort.ParseAddr(v.address)
    case None =>
    case Some((host, port)) =>
      var dummy := Upstream("", "", 0, None, false, NoTransport);
      SameReadsSameParts(v.attrs, w.attrs, host, port, dummy);
      var ob := DialOutbound(v, host, port);
      assert ob == DialOutbound(w, host, port);
      if ob.Some? {
        SameReadsSameParts(v.attrs, w.attrs, host, port, ob.value);
      }
  }

  lemma {:induction false} ReadsOriginal(eps: seq<Endpoint>, was: seq<View>, updated: seq<Endpoint>,
                                         pins: seq<Option<string>>, i: nat)
    requires i < |eps| == |was| == |updated| == |pins|
    requires PinnedUpTo(eps, was, updated, PIN, pins, i)
    ensures updated[i] == eps[i] && updated[i].protocol == was[i].protocol
    ensures OutboundOf(ViewOf(updated[i])) == OutboundOf(was[i])
    ensures WireguardBlock(ViewOf(updated[i])) == WireguardBlock(was[i])
  {
    ViewBeforePin(eps, was, updated, PIN, pins, i);
    UpstreamIgnoresPin(was[i], ViewOf(updated[i]));
  }

  lemma {:induction false} KindSelectsSection(v: View)
    ensures OutboundOf(v).Some? ==> OutboundOf(v).value.kind != "wireguard"
    ensures WireguardBlock(v).Some? ==> WireguardBlock(v).value.kind == "wireguard"
  {
    hide TransportOf, HostPort.ParseAddr, NetHint;
    assert "wireguard"[0] == 'w';
  }

  /** The loop body of `Generate`; the document under construction stands for the four
      slices the loop appends to. */
  method GenerateOne(eps: seq<Endpoint>, ghost was: seq<View>, cfg: Config, i: nat,
                     doc: Document, updated: seq<Endpoint>, port: int)
    returns (doc': Document, updated': seq<Endpoint>, port': int, ghost made: ConfigMap?)
    requires i < |eps| == |was| == |updated|
    requires doc == CompileSoFar(was, cfg, i) && port == PortAt(was, UpstreamOf, cfg.basePort, i)
    requires PinnedUpTo(eps, was, updated, PIN, PinsFor(was, cfg), i)
    modifies Maps(eps)
    ensures |updated'| == |eps|
    ensures doc' == CompileSoFar(was, cfg, i + 1) && port' == PortAt(was, UpstreamOf, cfg.basePort, i + 1)
    ensures PinnedUpTo(eps, was, updated', PIN, PinsFor(was, cfg), i + 1)
    ensures Maps(updated') <= Maps(updated) + JustThis(made) && (made != null ==> fresh(made))
  {
    doc', updated', port', made := doc, updated, port, null;
    var ep := updated[i];
    ReadsOriginal(eps, was, updated, PinsFor(was, cfg), i);
    KindSelectsSection(was[i]);
    if ep.protocol == "sidecar" {
      StepSkip(was, UpstreamOf, cfg.listenHost, cfg.dialHost, cfg.basePort, Some(DIRECT_TAG), i);
      PinSkip(eps, was, updated, PIN, PinsFor(was, cfg), i);
      return;
    }
    if ep.protocol == "wireguard" {
      var wg := WireguardBlock(ViewOf(ep));
      if wg.None? {
        StepSkip(was, UpstreamOf, cfg.listenHost, cfg.dialHost, cfg.basePort, Some(DIRECT_TAG), i);
        PinSkip(eps, was, updated, PIN, PinsFor(was, cfg), i);
        return;
      }
      StepClaim(was, UpstreamOf, cfg.listenHost, cfg.dialHost, cfg.basePort, Some(DIRECT_TAG), i, port, wg.value);
      doc' := doc'.(
        endpoints := doc.endpoints + [Block("wg-" + Tag(i), wg.value)],
        inbounds := doc.inbounds + [Inbound("in-" + Tag(i), cfg.listenHost, port)],
        rules := doc.rules + [Rule("in-" + Tag(i), "wg-" + Tag(i))]);
      updated', made := Pin(eps, was, updated, PIN, PinsFor(was, cfg), i, HostPort.AddrText(cfg.dialHost, port));
      port' := port + 1;
      return;
    }
    var ob := OutboundOf(ViewOf(ep));
    if ob.None? {
      StepSkip(was, UpstreamOf, cfg.listenHost, cfg.dialHost, cfg.basePort, Some(DIRECT_TAG), i);
      PinSkip(eps, was, updated, PIN, PinsFor(was, cfg), i);
      return;
    }
    StepClaim(was, UpstreamOf, cfg.listenHost, cfg.dialHost, cfg.basePort, Some(DIRECT_TAG), i, port, ob.value);
    doc' := doc'.(
      outbounds := doc.outbounds + [Block("out-" + Tag(i), ob.value)],
      inbounds := doc.inbounds + [Inbound("in-" + Tag(i), cfg.listenHost, port)],
      rules := doc.rules + [Rule("in-" + Tag(i), "out-" + Tag(i))]);
    updated', made := Pin(eps, was, updated, PIN, PinsFor(was, cfg), i, HostPort.AddrText(cfg.dialHost, port));
    port' := port + 1;
  }

  method Generate(eps: seq<Endpoint>, config: Config) returns (doc: Document, updated: seq<Endpoint>)
    modifies Maps(eps)
    ensures |updated| == |eps|
    ensures doc == DocumentFor(old(Views(eps)), WithDefaults(config, 10800))
    ensures ServesAll(doc, old(Views(eps)), WithDefaults(config, BASE_PORT))
    ensures doc.final == Some("out-direct") && Closes(doc, WithDefaults(config, BASE_PORT).listenHost)
    ensures PinnedUpTo(eps, old(Views(eps)), updated, PIN, PinsFor(old(Views(eps)), WithDefaults(config, BASE_PORT)),
      |eps|)
    ensures fresh(Maps(updated) - Maps(eps))
  {
    hide Maps, PinnedUpTo;
    var cfg := WithDefaults(config, BASE_PORT);
    ghost var was := Views(eps);
    ghost var pins := PinsFor(was, cfg);
    PinStart(eps, PIN, pins);
    updated := eps;
    doc := Document([], [], [], [], Some(DIRECT_TAG));
    var port := cfg.basePort;
    ghost var allMade: set<object> := {};
    for i := 0 to |eps|
      invariant |updated| == |eps|
      invariant doc == CompileSoFar(was, cfg, i) && port == PortAt(was, UpstreamOf, cfg.basePort, i)
      invariant PinnedUpTo(eps, was, updated, PIN, pins, i)
      invariant fresh(allMade) && Maps(updated) <= Maps(eps) + allMade
    {
      ghost var made;
      doc, updated, port, made := GenerateOne(eps, was, cfg, i, doc, updated, port);
      allMade := allMade + JustThis(made);
    }
    doc := WithDirect(doc);
    DocumentServesAll(was, cfg);
    CompiledCloses(was, UpstreamOf, cfg.listenHost, cfg.basePort, Some(DIRECT_TAG), |was|);
  }
}
