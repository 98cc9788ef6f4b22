/** The Xray config generator, for the endpoints whose transport sing-box cannot speak. */
module Xray {
  import opened Wrappers
  import opened Endpoints
  import opened CoreConfig
  import HostPort
  import Wanted

  const BASE_PORT := 11800

  predicate Handles(v: View) {
    var net := NetHint(v.attrs);
    if v.protocol == "sidecar" then false
    else if v.protocol == "mtproxy" then true
    else net == "xhttp" || net == "splithttp" || net == "raw"
  }

  function DefaultStr(v: string, fallback: string): string {
    if v == "" then fallback else v
  }

  /** The stream network is read from "net" alone: an empty one means "tcp", whatever
      "type" says. */
  function VlessOutbound(c: map<string, string>, host: string, port: int): Upstream {
    var network := DefaultStr(Get(c, "net"), "tcp");
    var security := Get(c, "security");
    var sni := if security == "reality" || security == "tls" then Some(Get(c, "sni")) else None;
    var transport :=
      if network == "xhttp" || network == "splithttp" || network == "ws"
      then Transport(network, DefaultStr(Get(c, "path"), "/"), Get(c, "host"))
      else Transport(network, "", "");
    Upstream("vless", host, port, sni, security == "reality", transport)
  }

  function OutboundOf(v: View): Option<Upstream> {
    match HostPort.ParseAddr(v.address)
    case None => None
    case Some((host, port)) =>
      if v.protocol == "vless" then Some(ApplySpoof(VlessOutbound(v.attrs, host, port), v.attrs))
      else if v.protocol == "mtproxy" then
        Some(ApplySpoof(Upstream("mtproto", host, port, None, false, NoTransport), v.attrs))
      else None
  }

  /** The block Xray gets for an endpoint; None when it does not claim it. */
  function UpstreamOf(v: View): Option<Upstream> {
    if Handles(v) then OutboundOf(v) else None
  }

  // ----- what the blocks hold -----

  lemma {:induction false} StreamIsWanted(v: View, host: string, port: int)
    requires v.protocol == "vless"
    ensures Wanted.XrayBlock(v, VlessOutbound(v.attrs, host, port))
  {
  }

  /** Of what sing-box cannot serve, Xray claims exactly what it can, and the block of each
      endpoint holds what the attributes ask for. */
  lemma {:induction false} BuildsWanted(v: View)
    ensures UpstreamOf(v).Some? <==> Wanted.ByXray(v)
    ensures UpstreamOf(v).Some? ==> Wanted.XrayBlock(v, UpstreamOf(v).value)
  {
    hide HostPort.ParseAddr;
    assert NetHint(v.attrs) == Wanted.TransportName(v.attrs);
    if v.protocol == "vless" && UpstreamOf(v).Some? {
      var (host, port) := HostPort.ParseAddr(v.address).value;
      StreamIsWanted(v, host, port);
    }
  }

  function PinsFor(vs: seq<View>, cfg: Config): (pins: seq<Option<string>>)
    ensures |pins| == |vs|
  {
    Pins(vs, UpstreamOf, cfg.dialHost, cfg.basePort)
  }

  function CompileSoFar(vs: seq<View>, cfg: Config, i: nat): Document
    requires i <= |vs|
  {
    Compile(vs, UpstreamOf, cfg.listenHost, cfg.basePort, None, i)
  }

  /** No document at all when nothing is claimed. */
  function DocumentFor(vs: seq<View>, cfg: Config): Option<Document> {
    var d := CompileSoFar(vs, cfg, |vs|);
    if d.outbounds == [] then None else Some(WithDirect(d))
  }

  /** Every endpoint only Xray can serve is served on the port that is pinned on it. */
  ghost predicate ServesAll(d: Option<Document>, vs: seq<View>, cfg: Config) {
    forall i :: 0 <= i < |vs| && Wanted.ByXray(vs[i]) ==> d.Some? && ServedOnPin(d.value, vs, cfg, i)
  }

  ghost predicate ServedOnPin(d: Document, vs: seq<View>, cfg: Config, i: nat)
    requires i < |vs|
  {
    var port := PortAt(vs, UpstreamOf, cfg.basePort, i);
    PinsFor(vs, cfg)[i] == Some(HostPort.AddrText(cfg.dialHost, port)) && Wanted.XrayServes(d, port, vs[i])
  }

  lemma {:induction false} HasOutbound(vs: seq<View>, cfg: Config, k: nat, i: nat)
    requires i < k <= |vs| && UpstreamOf(vs[i]).Some?
    ensures CompileSoFar(vs, cfg, k).outbounds != []
  {
    OutboundsGrow(vs, cfg, k);
    if i < k - 1 {
      HasOutbound(vs, cfg, k - 1, i);
    }
  }

  lemma {:induction false} OutboundsGrow(vs: seq<View>, cfg: Config, k: nat)
    requires 0 < k <= |vs|
    ensures var was, now := CompileSoFar(vs, cfg, k - 1).outbounds, CompileSoFar(vs, cfg, k).outbounds;
      |now| == |was| + if UpstreamOf(vs[k - 1]).Some? then 1 else 0
  {
    NeverWireguard(vs[k - 1]);
  }

  lemma {:induction false} DocumentServesAll(vs: seq<View>, cfg: Config)
    ensures ServesAll(DocumentFor(vs, cfg), vs, cfg)
  {
    hide Wanted.ByXray, Wanted.XrayBlock, UpstreamOf, Forward, Compile;
    forall i | 0 <= i < |vs| && Wanted.ByXray(vs[i])
      ensures DocumentFor(vs, cfg).Some? && ServedOnPin(DocumentFor(vs, cfg).value, vs, cfg, i)
    {
      BuildsWanted(vs[i]);
      HasOutbound(vs, cfg, |vs|, i);
      ForwardsToOwnBlock(vs, UpstreamOf, cfg.listenHost, cfg.basePort, None, i);
    }
  }

  ghost predicate SameReads(c: map<string, string>, d: map<string, string>) {
    && Get(c, "net") == Get(d, "net") && Get(c, "type") == Get(d, "type")
    && Get(c, "path") == Get(d, "path") && Get(c, "host") == Get(d, "host")
    && Get(c, "security") == Get(d, "security") && Get(c, "sni") == Get(d, "sni")
    && Get(c, "spoof_via") == Get(d, "spoof_via")
  }

  lemma {:induction false} PinIsNoReadKey(c: map<string, string>, d: map<string, string>)
    requires AgreeExcept(c, d, PIN)
    ensures SameReads(c, d)
  {
  }

  /** Writing a pin never changes what the generator builds, even through a shared map. */
  lemma {:induction false} UpstreamIgnoresPin(v: View, w: View)
    requires v.protocol == w.protocol && v.address == w.address && AgreeExcept(v.attrs, w.attrs, PIN)
    ensures Handles(v) == Handles(w) && OutboundOf(v) == OutboundOf(w)
  {
    PinIsNoReadKey(v.attrs, w.attrs);
    assert NetHint(v.attrs) == NetHint(w.attrs);
  }

  lemma {:induction false} ReadsOriginal(eps: seq<Endpoint>, was: seq<View>, updated: seq<Endpoint>,
                                         pins: seq<Option<string>>, i: nat)
    requires i < |eps| == |was| == |updated| == |pins|
    requires PinnedUpTo(eps, was, updated, PIN, pins, i)
    ensures updated[i] == eps[i]
    ensures Handles(ViewOf(updated[i])) == Handles(was[i])
    ensures OutboundOf(ViewOf(updated[i])) == OutboundOf(was[i])
  {
    ViewBeforePin(eps, was, updated, PIN, pins, i);
    UpstreamIgnoresPin(was[i], ViewOf(updated[i]));
  }

  lemma {:induction false} NeverWireguard(v: View)
    ensures OutboundOf(v).Some? ==> OutboundOf(v).value.kind != "wireguard"
  {
    assert "wireguard"[0] == 'w';
  }

  /** The loop body of `Generate`. */
  lemma {:induction false} NothingWanted(vs: seq<View>, cfg: Config)
    ensures CompileSoFar(vs, cfg, |vs|).outbounds == [] <==> forall i :: 0 <= i < |vs| ==> !Wanted.ByXray(vs[i])
  {
    hide UpstreamOf, Wanted.ByXray, Wanted.XrayBlock, CompileSoFar;
    forall i | 0 <= i < |vs| && Wanted.ByXray(vs[i])
      ensures CompileSoFar(vs, cfg, |vs|).outbounds != []
    {
      BuildsWanted(vs[i]);
      HasOutbound(vs, cfg, |vs|, i);
    }
    if forall i :: 0 <= i < |vs| ==> !Wanted.ByXray(vs[i]) {
      NoOutbound(vs, cfg, |vs|);
    }
  }

  lemma {:induction false} NoOutbound(vs: seq<View>, cfg: Config, k: nat)
    requires k <= |vs| && forall i :: 0 <= i < |vs| ==> !Wanted.ByXray(vs[i])
    ensures CompileSoFar(vs, cfg, k).outbounds == []
  {
    hide UpstreamOf, Wanted.ByXray, Wanted.XrayBlock;
    if k > 0 {
      NoOutbound(vs, cfg, k - 1);
      BuildsWanted(vs[k - 1]);
      OutboundsGrow(vs, cfg, k);
    }
  }

  method GenerateOne(eps: seq<Endpoint>, ghost was: seq<View>, cfg: Config, i: nat,
                     doc: Document, updated: seq<Endpoint>, port: int)
    returns (doc': Document, updated': seq<Endpoint>, port': int, ghost made: ConfigMap?)
    requires i < |eps| == |was| == |updated|
    requires doc == CompileSoFar(was, cfg, i) && port == PortAt(was, UpstreamOf, cfg.basePort, i)
    requires PinnedUpTo(eps, was, updated, PIN, PinsFor(was, cfg), i)
    modifies Maps(eps)
    ensures |updated'| == |eps|
    ensures doc' == CompileSoFar(was, cfg, i + 1) && port' == PortAt(was, UpstreamOf, cfg.basePort, i + 1)
    ensures PinnedUpTo(eps, was, updated', PIN, PinsFor(was, cfg), i + 1)
    ensures Maps(updated') <= Maps(updated) + JustThis(made) && (made != null ==> fresh(made))
  {
    doc', updated', port', made := doc, updated, port, null;
    var ep := updated[i];
    ReadsOriginal(eps, was, updated, PinsFor(was, cfg), i);
    NeverWireguard(was[i]);
    if !Handles(ViewOf(ep)) {
      StepSkip(was, UpstreamOf, cfg.listenHost, cfg.dialHost, cfg.basePort, None, i);
      PinSkip(eps, was, updated, PIN, PinsFor(was, cfg), i);
      return;
    }
    var ob := OutboundOf(ViewOf(ep));
    if ob.None? {
      StepSkip(was, UpstreamOf, cfg.listenHost, cfg.dialHost, cfg.basePort, None, i);
      PinSkip(eps, was, updated, PIN, PinsFor(was, cfg), i);
      return;
    }
    StepClaim(was, UpstreamOf, cfg.listenHost, cfg.dialHost, cfg.basePort, None, i, port, ob.value);
    doc' := doc'.(
      inbounds := doc.inbounds + [Inbound("in-" + Tag(i), cfg.listenHost, port)],
      outbounds := doc.outbounds + [Block("out-" + Tag(i), ob.value)],
      rules := doc.rules + [Rule("in-" + Tag(i), "out-" + Tag(i))]);
    updated', made := Pin(eps, was, updated, PIN, PinsFor(was, cfg), i, HostPort.AddrText(cfg.dialHost, port));
    port' := port + 1;
  }

  method Generate(eps: seq<Endpoint>, config: Config) returns (doc: Option<Document>, updated: seq<Endpoint>)
    modifies Maps(eps)
    ensures |updated| == |eps|
    ensures doc == DocumentFor(old(Views(eps)), WithDefaults(config, 11800))
    ensures ServesAll(doc, old(Views(eps)), WithDefaults(config, BASE_PORT))
    ensures doc.None? <==> forall i :: 0 <= i < |eps| ==> !Wanted.ByXray(old(Views(eps))[i])
    ensures doc.Some? ==> doc.value.final == None && Closes(doc.value, WithDefaults(config, BASE_PORT).listenHost)
    ensures PinnedUpTo(eps, old(Views(eps)), updated, PIN, PinsFor(old(Views(eps)), WithDefaults(config, BASE_PORT)),
      |eps|)
    ensures fresh(Maps(updated) - Maps(eps))
  {
    hide Maps, PinnedUpTo;
    var cfg := WithDefaults(config, BASE_PORT);
    ghost var was := Views(eps);
    ghost var pins := PinsFor(was, cfg);
    PinStart(eps, PIN, pins);
    updated := eps;
    var d := Document([], [], [], [], None);
    var port := cfg.basePort;
    ghost var allMade: set<object> := {};
    for i := 0 to |eps|
      invariant |updated| == |eps|
      invariant d == CompileSoFar(was, cfg, i) && port == PortAt(was, UpstreamOf, cfg.basePort, i)
      invariant PinnedUpTo(eps, was, updated, PIN, pins, i)
      invariant fresh(allMade) && Maps(updated) <= Maps(eps) + allMade
    {
      ghost var made;
      d, updated, port, made := GenerateOne(eps, was, cfg, i, d, updated, port);
      allMade := allMade + JustThis(made);
    }
    DocumentServesAll(was, cfg);
    NothingWanted(was, cfg);
    CompiledCloses(was, UpstreamOf, cfg.listenHost, cfg.basePort, None, |was|);
    if d.outbounds == [] {
      return None, updated;
    }
    doc := Some(WithDirect(d));
  }
}
