/** The three generators run in sequence, and the meaning of what they leave behind:
    resolving an endpoint's pinned address hop by hop. */
module Pipeline {
  import opened Wrappers
  import opened Endpoints
  import opened CoreConfig
  import HostPort
  import Decimal
  import SniSpoof
  import SingBox
  import Xray
  import Wanted

  datatype Settings = Settings(spoof: SniSpoof.Config, singbox: Config, xray: Config)

  function WithAllDefaults(s: Settings): Settings {
    Settings(
      SniSpoof.WithDefaults(s.spoof),
      CoreConfig.WithDefaults(s.singbox, SingBox.BASE_PORT),
      CoreConfig.WithDefaults(s.xray, Xray.BASE_PORT))
  }

  /** Everything the generators wrote to disk, with the names the containers answer to. */
  datatype Network = Network(
    spoofHost: string, mappings: seq<SniSpoof.Mapping>,
    singboxHost: string, singbox: Document,
    xrayHost: string, xray: Option<Document>)

  datatype Core = SingBoxCore | XrayCore

  /** One resolved connection: the core and block it went through, whether the spoofer
      relayed it, and the host and port it ends at. */
  datatype Trace = Trace(core: Core, block: Block, viaSpoofer: bool, end: Option<(string, int)>)

  function Outward(net: Network, core: Core, b: Block): Trace {
    match b
    case DirectBlock(_) => Trace(core, b, false, None)
    case Block(_, up) =>
      var relay := if up.server == net.spoofHost then SniSpoof.Relay(net.mappings, up.port) else None;
      match relay
      case None => Trace(core, b, false, Some((up.server, up.port)))
      case Some(addr) => Trace(core, b, true, HostPort.ParseAddr(addr))
  }

  /** Dialling a pinned SOCKS address; None when nothing listens there. */
  function Resolve(net: Network, pin: string): Option<Trace> {
    match HostPort.ParseAddr(pin)
    case None => None
    case Some((host, port)) =>
      var viaSingbox := if host == net.singboxHost then Forward(net.singbox, port) else None;
      var viaXray := if host == net.xrayHost && net.xray.Some? then Forward(net.xray.value, port) else None;
      match viaSingbox
      case Some(b) => Some(Outward(net, SingBoxCore, b))
      case None =>
        match viaXray
        case Some(b) => Some(Outward(net, XrayCore, b))
        case None => None
  }

  // ----- the run, on values -----

  function Spoofed(vs: seq<View>, s: Settings): (ws: seq<View>)
    ensures |ws| == |vs|
  {
    PinnedViews(vs, SniSpoof.PIN, SniSpoof.Pins(vs, s.spoof))
  }

  function Dialled(vs: seq<View>, s: Settings): (ws: seq<View>)
    ensures |ws| == |vs|
  {
    PinnedViews(Spoofed(vs, s), PIN, SingBox.PinsFor(Spoofed(vs, s), s.singbox))
  }

  function Final(vs: seq<View>, s: Settings): (ws: seq<View>)
    ensures |ws| == |vs|
  {
    PinnedViews(Dialled(vs, s), PIN, Xray.PinsFor(Dialled(vs, s), s.xray))
  }

  function NetworkFor(vs: seq<View>, s: Settings): Network {
    Network(
      s.spoof.dialHost, SniSpoof.Mappings(vs, s.spoof.basePort, |vs|),
      s.singbox.dialHost, SingBox.DocumentFor(Spoofed(vs, s), s.singbox),
      s.xray.dialHost, Xray.DocumentFor(Dialled(vs, s), s.xray))
  }

  // ----- what a deployment must provide -----

  /** Container names without brackets, and port ranges within Go's `int`. */
  predicate PlainSettings(s: Settings, n: nat) {
    && HostPort.Unbracketed(s.spoof.dialHost) && HostPort.Unbracketed(s.singbox.dialHost) &&
      HostPort.Unbracketed(s.xray.dialHost)
    && Decimal.MIN_INT <= s.spoof.basePort <= Decimal.MAX_INT - n
    && Decimal.MIN_INT <= s.singbox.basePort <= Decimal.MAX_INT - n
    && Decimal.MIN_INT <= s.xray.basePort <= Decimal.MAX_INT - n
  }

  /** An endpoint the spoofer does not handle carries no `spoof_via` from an earlier life. */
  predicate NoStaleSpoof(vs: seq<View>) {
    forall i :: 0 <= i < |vs| && !SniSpoof.Handles(vs[i]) ==> Get(vs[i].attrs, SniSpoof.PIN) == ""
  }

  /** No upstream is one of the spoofer's own listeners. */
  predicate NoUpstreamIsSpoofer(vs: seq<View>, s: Settings) {
    forall i :: 0 <= i < |vs| ==>
      match HostPort.ParseAddr(vs[i].address)
      case None => true
      case Some((host, port)) =>
        !(host == s.spoof.dialHost && s.spoof.basePort <= port < s.spoof.basePort + SniSpoof.HandledBefore(vs, |vs|))
  }

  /** The two cores listen under different names, or on port ranges too far apart to meet. */
  predicate CoresApart(s: Settings, n: nat) {
    || s.singbox.dialHost != s.xray.dialHost
    || s.singbox.basePort + n <= s.xray.basePort
    || s.xray.basePort + n <= s.singbox.basePort
  }

  // ----- claims -----

  lemma {:induction false} SingBoxDialsAddress(v: View, host: string, port: int)
    ensures SingBox.DialOutbound(v, host, port).Some? ==>
      SingBox.DialOutbound(v, host, port).value.server == host && SingBox.DialOutbound(v, host, port).value.port == port
  {
  }

  lemma {:induction false} XrayTransportsRejected(c: map<string, string>)
    ensures NetHint(c) == "xhttp" || NetHint(c) == "splithttp" || NetHint(c) == "raw" ==> SingBox.TransportOf(c).None?
  {
    assert "xhttp"[0] == 'x' && "splithttp"[0] == 's' && "raw"[0] == 'r';
    assert "tcp"[0] == 't' && "ws"[0] == 'w' && "httpupgrade"[0] == 'h' && "grpc"[0] == 'g' && "http"[0] == 'h' &&
      "h2"[0] == 'h';
  }

  lemma {:induction false} MtproxyRejected(v: View)
    requires v.protocol == "mtproxy"
    ensures SingBox.UpstreamOf(v).None? && !TransportFree(v)
  {
    assert v.protocol[0] == 'm';
    assert "anytls"[0] == 'a' && "ss"[0] == 's' && "hysteria2"[0] == 'h' && "tuic"[0] == 't' && "wireguard"[0] == 'w';
  }

  /** The two cores never claim the same endpoint, although `Xray.Handles` alone does not
      see to that: it also accepts protocols whose transport sing-box never looks at. */
  lemma {:induction false} NeverClaimedTwice(v: View)
    ensures SingBox.UpstreamOf(v).None? || Xray.UpstreamOf(v).None?
  {
    if v.protocol == "mtproxy" {
      MtproxyRejected(v);
    } else if Xray.UpstreamOf(v).Some? {
      XrayTransportsRejected(v.attrs);
      assert SingBox.UpstreamOf(v).None? by {
        assert v.protocol == "vless";
      }
    }
  }

  lemma {:induction false} SidecarRejected(v: View)
    requires v.protocol == "sidecar"
    ensures SingBox.UpstreamOf(v).None? && !TransportFree(v)
  {
    assert v.protocol[1] == 'i';
    assert "anytls"[0] == 'a' && "ss"[1] == 's' && "hysteria2"[0] == 'h' && "tuic"[0] == 't' && "wireguard"[0] == 'w';
  }

  /** The protocols for which sing-box builds its block without a look at the transport. */
  predicate TransportFree(v: View) {
    || v.protocol in {"anytls", "ss", "hysteria2", "tuic"}
    || (v.protocol == "wireguard" && Get(v.attrs, "private_key") != "" && Get(v.attrs, "public_key") != "")
  }

  predicate XrayOnly(net: string) {
    net in {"xhttp", "splithttp", "raw"}
  }

  /** Without a transport sing-box can speak, it claims just these protocols. */
  lemma {:induction false} ClaimsWithoutTransport(v: View)
    requires SingBox.TransportOf(v.attrs).None?
    ensures SingBox.UpstreamOf(v).Some? <==> HostPort.ParseAddr(v.address).Some? && TransportFree(v)
  {
    hide SingBox.TransportOf, HostPort.ParseAddr, ApplySpoof;
  }

  /** When Xray's filter accepts an endpoint that sing-box claims: exactly when it names a
      transport of Xray's although sing-box does not ask for the transport of its protocol. */
  lemma {:induction false} HandlesOverlapIff(v: View)
    ensures Xray.Handles(v) && SingBox.UpstreamOf(v).Some? <==>
      XrayOnly(NetHint(v.attrs)) && HostPort.ParseAddr(v.address).Some? && TransportFree(v)
  {
    hide SingBox.TransportOf, SingBox.UpstreamOf, HostPort.ParseAddr, NetHint;
    if v.protocol == "mtproxy" {
      MtproxyRejected(v);
    } else if v.protocol == "sidecar" {
      SidecarRejected(v);
    } else if XrayOnly(NetHint(v.attrs)) {
      XrayTransportsRejected(v.attrs);
      ClaimsWithoutTransport(v);
    }
  }

  /** A Shadowsocks endpoint with a "raw" type is handled by both filters, yet only
      sing-box builds a block for it. */
  lemma {:induction false} HandlesOverlaps()
    ensures var v := View("ss", "h:1", map["type" := "raw"]);
            Xray.Handles(v) && SingBox.UpstreamOf(v).Some? && Xray.UpstreamOf(v).None?
  {
    var v := View("ss", "h:1", map["type" := "raw"]);
    assert "type" in v.attrs && "net" !in v.attrs;
    HostPort.ParseOfAddrText("h", 1);
    assert Decimal.Itoa(1) == "1";
    assert HostPort.AddrText("h", 1) == "h:1";
  }

  /** The stream an Xray VLESS block opens uses the transport for which Xray claimed the
      endpoint exactly when that transport is given as "net", not only as "type". */
  lemma {:induction false} XrayNetworkIsTheHint(v: View)
    requires v.protocol == "vless" && Xray.UpstreamOf(v).Some?
    ensures Xray.UpstreamOf(v).value.transport.net == NetHint(v.attrs) <==> Get(v.attrs, "net") != ""
  {
  }

  /** With "xhttp" as the type alone, Xray claims the endpoint and opens a plain TCP stream. */
  lemma {:induction false} HintIsNotTheNetwork()
    ensures var v := View("vless", "h:1", map["type" := "xhttp"]);
            Xray.UpstreamOf(v).Some? && NetHint(v.attrs) == "xhttp" && Xray.UpstreamOf(v).value.transport.net == "tcp"
  {
    var v := View("vless", "h:1", map["type" := "xhttp"]);
    assert "type" in v.attrs && "net" !in v.attrs;
    HostPort.ParseOfAddrText("h", 1);
    assert Decimal.Itoa(1) == "1";
    assert HostPort.AddrText("h", 1) == "h:1";
  }

  // ----- the spoofer's pins -----

  lemma {:induction false} HandledBound(vs: seq<View>, k: nat)
    requires k <= |vs|
    ensures SniSpoof.HandledBefore(vs, k) <= k
  {
    if k > 0 {
      HandledBound(vs, k - 1);
    }
  }

  lemma {:induction false} ClaimedBound(vs: seq<View>, upstreamOf: View -> Option<Upstream>, k: nat)
    requires k <= |vs|
    ensures ClaimedBefore(vs, upstreamOf, k) <= k
  {
    if k > 0 {
      ClaimedBound(vs, upstreamOf, k - 1);
    }
  }

  /** After the spoofer's generator, `spoof_via` is empty or reads as the spoofer's name and
      the endpoint's own listener. */
  lemma {:induction false} SpoofVia(vs: seq<View>, s: Settings, i: nat)
    requires i < |vs| && PlainSettings(s, |vs|) && NoStaleSpoof(vs)
    ensures var via := Get(Spoofed(vs, s)[i].attrs, "spoof_via");
            if SniSpoof.Handles(vs[i]) then
              via != "" && HostPort.ParseAddr(via) ==
                Some((s.spoof.dialHost, s.spoof.basePort + SniSpoof.HandledBefore(vs, i)))
            else via == ""
  {
    if SniSpoof.Handles(vs[i]) {
      HandledBound(vs, i);
      HostPort.ParseOfAddrText(s.spoof.dialHost, s.spoof.basePort + SniSpoof.HandledBefore(vs, i));
    }
  }

  predicate ShouldSpoof(v: View) {
    SniSpoof.Handles(v) && Get(v.attrs, "security") != "reality"
  }

  lemma {:induction false} SpoofKeepsSecurity(vs: seq<View>, s: Settings, i: nat)
    requires i < |vs|
    ensures Get(Spoofed(vs, s)[i].attrs, "security") == Get(vs[i].attrs, "security")
  {
    assert "security" != SniSpoof.PIN;
  }

  /** Where the block of an endpoint dials once the spoofer's pin is applied. */
  lemma {:induction false} SpoofedTarget(vs: seq<View>, s: Settings, i: nat, base: Upstream)
    requires i < |vs| && PlainSettings(s, |vs|) && NoStaleSpoof(vs)
    ensures ApplySpoof(base, Spoofed(vs, s)[i].attrs) ==
      if ShouldSpoof(vs[i]) then
        base.(server := s.spoof.dialHost, port := s.spoof.basePort + SniSpoof.HandledBefore(vs, i))
      else base
  {
    SpoofVia(vs, s, i);
    SpoofKeepsSecurity(vs, s, i);
  }

  /** A block that dials the address, or the spoofer on its behalf, ends at the address; the
      spoofer relays it exactly when the endpoint has a decoy name and is not Reality. */
  lemma {:induction false} OutwardEndsAtAddress(vs: seq<View>, s: Settings, i: nat, core: Core, tag: string,
                                                base: Upstream)
    requires i < |vs| && PlainSettings(s, |vs|) && NoStaleSpoof(vs) && NoUpstreamIsSpoofer(vs, s)
    requires HostPort.ParseAddr(vs[i].address) == Some((base.server, base.port))
    ensures var up := ApplySpoof(base, Spoofed(vs, s)[i].attrs);
            Outward(NetworkFor(vs, s), core, Block(tag, up))
            == Trace(core, Block(tag, up), ShouldSpoof(vs[i]), HostPort.ParseAddr(vs[i].address))
  {
    SpoofedTarget(vs, s, i, base);
    if ShouldSpoof(vs[i]) {
      OutwardSpoofed(vs, s, i, core, tag, ApplySpoof(base, Spoofed(vs, s)[i].attrs));
    } else {
      OutwardUnspoofed(vs, s, i, core, tag, base);
    }
  }

  lemma {:induction false} OutwardSpoofed(vs: seq<View>, s: Settings, i: nat, core: Core, tag: string, up: Upstream)
    requires i < |vs| && SniSpoof.Handles(vs[i])
    requires up.server == s.spoof.dialHost && up.port == s.spoof.basePort + SniSpoof.HandledBefore(vs, i)
    ensures Outward(NetworkFor(vs, s), core, Block(tag, up)) ==
      Trace(core, Block(tag, up), true, HostPort.ParseAddr(vs[i].address))
  {
    hide SingBox.DocumentFor, Xray.DocumentFor, Dialled, Spoofed;
    SniSpoof.RelaysToOwnAddress(vs, s.spoof.basePort, i);
    OutwardRelayed(NetworkFor(vs, s), core, tag, up, vs[i].address);
  }

  lemma {:induction false} OutwardRelayed(net: Network, core: Core, tag: string, up: Upstream, addr: string)
    requires up.server == net.spoofHost && SniSpoof.Relay(net.mappings, up.port) == Some(addr)
    ensures Outward(net, core, Block(tag, up)) == Trace(core, Block(tag, up), true, HostPort.ParseAddr(addr))
  {
  }

  /** A peer that is never redirected. */
  lemma {:induction false} OutwardUnspoofed(vs: seq<View>, s: Settings, i: nat, core: Core, tag: string, up: Upstream)
    requires i < |vs| && NoUpstreamIsSpoofer(vs, s)
    requires HostPort.ParseAddr(vs[i].address) == Some((up.server, up.port))
    ensures Outward(NetworkFor(vs, s), core, Block(tag, up)) ==
      Trace(core, Block(tag, up), false, HostPort.ParseAddr(vs[i].address))
  {
    hide SingBox.DocumentFor, Xray.DocumentFor, Dialled, Spoofed;
    SniSpoof.RelayedPorts(vs, s.spoof.basePort, up.port);
  }

  /** Where the block sing-box holds for endpoint `i` leads. */
  lemma {:induction false} SingBoxOutward(vs: seq<View>, s: Settings, i: nat, up: Upstream)
    requires i < |vs| && PlainSettings(s, |vs|) && NoStaleSpoof(vs) && NoUpstreamIsSpoofer(vs, s)
    requires SingBox.UpstreamOf(Spoofed(vs, s)[i]) == Some(up)
    ensures Outward(NetworkFor(vs, s), SingBoxCore, Block(OutTag(i, up), up))
         == Trace(SingBoxCore, Block(OutTag(i, up), up),
                  ShouldSpoof(vs[i]) && vs[i].protocol != "wireguard", HostPort.ParseAddr(vs[i].address))
  {
    var w := Spoofed(vs, s)[i];
    if w.protocol == "wireguard" {
      OutwardUnspoofed(vs, s, i, SingBoxCore, OutTag(i, up), up);
    } else {
      var (host, port) := HostPort.ParseAddr(w.address).value;
      SingBoxDialsAddress(w, host, port);
      OutwardEndsAtAddress(vs, s, i, SingBoxCore, OutTag(i, up), SingBox.DialOutbound(w, host, port).value);
    }
  }

  lemma {:induction false} XrayReadsSame(vs: seq<View>, s: Settings, i: nat)
    requires i < |vs|
    ensures SingBox.UpstreamOf(Dialled(vs, s)[i]) == SingBox.UpstreamOf(Spoofed(vs, s)[i])
    ensures Xray.UpstreamOf(Dialled(vs, s)[i]) == Xray.UpstreamOf(Spoofed(vs, s)[i])
  {
    SingBox.UpstreamIgnoresPin(Spoofed(vs, s)[i], Dialled(vs, s)[i]);
    Xray.UpstreamIgnoresPin(Spoofed(vs, s)[i], Dialled(vs, s)[i]);
  }

  lemma {:induction false} XrayOutward(vs: seq<View>, s: Settings, i: nat, up: Upstream)
    requires i < |vs| && PlainSettings(s, |vs|) && NoStaleSpoof(vs) && NoUpstreamIsSpoofer(vs, s)
    requires Xray.UpstreamOf(Spoofed(vs, s)[i]) == Some(up)
    ensures Outward(NetworkFor(vs, s), XrayCore, Block(OutTag(i, up), up))
         == Trace(XrayCore, Block(OutTag(i, up), up), ShouldSpoof(vs[i]), HostPort.ParseAddr(vs[i].address))
  {
    var w := Spoofed(vs, s)[i];
    var (host, port) := HostPort.ParseAddr(w.address).value;
    var base := if w.protocol == "vless" then Xray.VlessOutbound(w.attrs, host, port)
      else Upstream("mtproto", host, port, None, false, NoTransport);
    OutwardEndsAtAddress(vs, s, i, XrayCore, OutTag(i, up), base);
  }

  // ----- the theorem -----

  ghost predicate Deployable(vs: seq<View>, s: Settings) {
    PlainSettings(s, |vs|) && NoStaleSpoof(vs) && NoUpstreamIsSpoofer(vs, s) && CoresApart(s, |vs|)
  }

  /** The pin of an endpoint sing-box claims resolves, through sing-box, to that endpoint's
      own address; Xray leaves the pin alone. */
  lemma {:induction false} SingBoxPinResolves(vs: seq<View>, s: Settings, i: nat, up: Upstream)
    requires i < |vs| && Deployable(vs, s)
    requires SingBox.UpstreamOf(Spoofed(vs, s)[i]) == Some(up)
    ensures Resolve(NetworkFor(vs, s), Get(Final(vs, s)[i].attrs, PIN))
         == Some(Trace(SingBoxCore, Block(OutTag(i, up), up),
                       ShouldSpoof(vs[i]) && vs[i].protocol != "wireguard", HostPort.ParseAddr(vs[i].address)))
    ensures Final(vs, s)[i] == Dialled(vs, s)[i]
  {
    var ws := Spoofed(vs, s);
    XrayReadsSame(vs, s, i);
    NeverClaimedTwice(Dialled(vs, s)[i]);
    var port := PortAt(ws, SingBox.UpstreamOf, s.singbox.basePort, i);
    ClaimedBound(ws, SingBox.UpstreamOf, i);
    HostPort.ParseOfAddrText(s.singbox.dialHost, port);
    ForwardsToOwnBlock(ws, SingBox.UpstreamOf, s.singbox.listenHost, s.singbox.basePort, Some(DIRECT_TAG), i);
    SingBoxOutward(vs, s, i, up);
  }

  /** The pin of an endpoint Xray claims resolves, through Xray, to that endpoint's own
      address. */
  lemma {:induction false} XrayPinResolves(vs: seq<View>, s: Settings, i: nat, up: Upstream)
    requires i < |vs| && Deployable(vs, s)
    requires Xray.UpstreamOf(Spoofed(vs, s)[i]) == Some(up)
    ensures Resolve(NetworkFor(vs, s), Get(Final(vs, s)[i].attrs, PIN))
         == Some(Trace(XrayCore, Block(OutTag(i, up), up), ShouldSpoof(vs[i]), HostPort.ParseAddr(vs[i].address)))
  {
    var ds := Dialled(vs, s);
    var port := PortAt(ds, Xray.UpstreamOf, s.xray.basePort, i);
    XrayReadsSame(vs, s, i);
    XrayPinReads(vs, s, i);
    ForwardsToOwnBlock(ds, Xray.UpstreamOf, s.xray.listenHost, s.xray.basePort, None, i);
    Blocks(ds, Xray.UpstreamOf, s.xray.listenHost, s.xray.basePort, None, |vs|, Block(OutTag(i, up), up));
    Xray.HasOutbound(ds, s.xray, |vs|, i);
    ResolveViaXray(NetworkFor(vs, s), Get(Final(vs, s)[i].attrs, PIN), port, Block(OutTag(i, up), up));
    XrayOutward(vs, s, i, up);
  }

  lemma {:induction false} ResolveViaXray(net: Network, pin: string, port: int, b: Block)
    requires HostPort.ParseAddr(pin) == Some((net.xrayHost, port))
    requires net.xray.Some? && Forward(net.xray.value, port) == Some(b)
    requires net.singboxHost == net.xrayHost ==> Forward(net.singbox, port) == None
    ensures Resolve(net, pin) == Some(Outward(net, XrayCore, b))
  {
  }

  /** The pin Xray leaves names its own listener, and sing-box does not answer there. */
  lemma {:induction false} XrayPinReads(vs: seq<View>, s: Settings, i: nat)
    requires i < |vs| && Deployable(vs, s) && Xray.UpstreamOf(Dialled(vs, s)[i]).Some?
    ensures var port := PortAt(Dialled(vs, s), Xray.UpstreamOf, s.xray.basePort, i);
      && HostPort.ParseAddr(Get(Final(vs, s)[i].attrs, PIN)) == Some((s.xray.dialHost, port))
      && (s.singbox.dialHost == s.xray.dialHost ==> Forward(NetworkFor(vs, s).singbox, port) == None)
  {
    var ws, ds, n := Spoofed(vs, s), Dialled(vs, s), |vs|;
    var port := PortAt(ds, Xray.UpstreamOf, s.xray.basePort, i);
    ClaimedBound(ds, Xray.UpstreamOf, i);
    ClaimantOfClaimed(ds, Xray.UpstreamOf, n, i);
    ClaimedBound(ds, Xray.UpstreamOf, n);
    ClaimedBound(ws, SingBox.UpstreamOf, n);
    HostPort.ParseOfAddrText(s.xray.dialHost, port);
    PortsAreConsecutive(ws, SingBox.UpstreamOf, s.singbox.listenHost, s.singbox.basePort, Some(DIRECT_TAG), port);
  }

  /** An endpoint neither core claims keeps whatever pin it came with. */
  lemma {:induction false} UnclaimedPinKept(vs: seq<View>, s: Settings, i: nat)
    requires i < |vs|
    requires SingBox.UpstreamOf(Spoofed(vs, s)[i]).None? && Xray.UpstreamOf(Spoofed(vs, s)[i]).None?
    ensures Get(Final(vs, s)[i].attrs, PIN) == Get(vs[i].attrs, PIN)
  {
    XrayReadsSame(vs, s, i);
    assert SniSpoof.PIN != PIN;
  }

  /** The same block but for where it connects. */
  predicate SameButTarget(a: Option<Upstream>, b: Option<Upstream>) {
    match a
    case None => b.None?
    case Some(u) => b.Some? && u == b.value.(server := u.server, port := u.port)
  }

  lemma {:induction false} SpoofPinIsNoOtherKey(c: map<string, string>, d: map<string, string>)
    requires AgreeExcept(c, d, SniSpoof.PIN)
    ensures Get(c, "net") == Get(d, "net") && Get(c, "type") == Get(d, "type")
         && Get(c, "path") == Get(d, "path") && Get(c, "host") == Get(d, "host")
         && Get(c, "security") == Get(d, "security") && Get(c, "sni") == Get(d, "sni")
         && Get(c, "tls") == Get(d, "tls")
         && Get(c, "private_key") == Get(d, "private_key") && Get(c, "public_key") == Get(d, "public_key")
  {
  }

  lemma {:induction false} SpoofPinKeepsOutbounds(c: map<string, string>, d: map<string, string>, host: string,
                                                  port: int)
    requires AgreeExcept(c, d, SniSpoof.PIN)
    ensures SingBox.VlessOutbound(c, host, port) == SingBox.VlessOutbound(d, host, port)
    ensures SingBox.TrojanOutbound(c, host, port) == SingBox.TrojanOutbound(d, host, port)
    ensures SingBox.VmessOutbound(c, host, port) == SingBox.VmessOutbound(d, host, port)
    ensures Xray.VlessOutbound(c, host, port) == Xray.VlessOutbound(d, host, port)
    ensures NetHint(c) == NetHint(d)
  {
    SpoofPinIsNoOtherKey(c, d);
    assert NetHint(c) == NetHint(d);
    assert SingBox.TransportOf(c) == SingBox.TransportOf(d);
  }

  lemma {:induction false} ApplySpoofMovesOnlyTarget(up: Upstream, c: map<string, string>, d: map<string, string>)
    ensures SameButTarget(Some(ApplySpoof(up, c)), Some(ApplySpoof(up, d)))
  {
  }

  lemma {:induction false} SpoofMovesOnlySingBoxTarget(v: View, w: View)
    requires v.protocol == w.protocol && v.address == w.address && AgreeExcept(v.attrs, w.attrs, SniSpoof.PIN)
    ensures SameButTarget(SingBox.UpstreamOf(v), SingBox.UpstreamOf(w))
  {
    hide HostPort.ParseAddr, ApplySpoof, NetHint, SingBox.TransportOf;
    SpoofPinIsNoOtherKey(v.attrs, w.attrs);
    match HostPort.ParseAddr(v.address)
    case None =>
    case Some((host, port)) =>
      SpoofPinKeepsOutbounds(v.attrs, w.attrs, host, port);
      var ob := SingBox.DialOutbound(v, host, port);
      assert ob == SingBox.DialOutbound(w, host, port);
      if ob.Some? {
        ApplySpoofMovesOnlyTarget(ob.value, v.attrs, w.attrs);
      }
  }

  lemma {:induction false} SpoofMovesOnlyXrayTarget(v: View, w: View)
    requires v.protocol == w.protocol && v.address == w.address && AgreeExcept(v.attrs, w.attrs, SniSpoof.PIN)
    ensures SameButTarget(Xray.UpstreamOf(v), Xray.UpstreamOf(w))
  {
    hide HostPort.ParseAddr, Xray.VlessOutbound;
    match HostPort.ParseAddr(v.address)
    case None =>
    case Some((host, port)) =>
      SpoofPinKeepsOutbounds(v.attrs, w.attrs, host, port);
      assert Xray.Handles(v) == Xray.Handles(w);
  }

  /** The spoofer's pin decides where a block connects and nothing else: not who claims the
      endpoint, and not the TLS server name, the Reality flag or the transport. */
  lemma {:induction false} SpoofMovesOnlyTheTarget(vs: seq<View>, s: Settings, i: nat)
    requires i < |vs|
    ensures SameButTarget(SingBox.UpstreamOf(vs[i]), SingBox.UpstreamOf(Spoofed(vs, s)[i]))
    ensures SameButTarget(Xray.UpstreamOf(vs[i]), Xray.UpstreamOf(Spoofed(vs, s)[i]))
  {
    SpoofMovesOnlySingBoxTarget(vs[i], Spoofed(vs, s)[i]);
    SpoofMovesOnlyXrayTarget(vs[i], Spoofed(vs, s)[i]);
  }

  /** A connection through the endpoint is relayed by the spoofer: it carries a decoy name, and is
      neither Reality nor WireGuard. */
  predicate WantsDecoy(v: View) {
    Get(v.attrs, "fake_sni") != "" && Get(v.attrs, "security") != "reality" && v.protocol != "wireguard"
  }

  /** What a deployment is promised for one endpoint `v` whose pin ends up as `pin`. */
  ghost predicate ReachesOwnServer(v: View, net: Network, pin: string) {
    && !(Wanted.BySingBox(v) && Wanted.ByXray(v))
    && (Wanted.BySingBox(v) || Wanted.ByXray(v) ==>
      match Resolve(net, pin)
      case None => false
      case Some(Trace(core, block, viaSpoofer, end)) =>
        && core == (if Wanted.BySingBox(v) then SingBoxCore else XrayCore)
        && end.Some? && end == HostPort.ParseAddr(v.address)
        && (viaSpoofer <==> WantsDecoy(v))
        && block.Block?
        && (if Wanted.BySingBox(v) then Wanted.SingBoxBlock(v, block.up) else Wanted.XrayBlock(v, block.up)))
    && (!Wanted.BySingBox(v) && !Wanted.ByXray(v) ==> pin == Get(v.attrs, "socks5_addr"))
  }

  lemma {:induction false} WantedReadsSame(a: Upstream, b: Upstream, v: View)
    requires SameButTarget(Some(a), Some(b))
    ensures Wanted.SingBoxBlock(v, a) ==> Wanted.SingBoxBlock(v, b)
    ensures Wanted.XrayBlock(v, a) ==> Wanted.XrayBlock(v, b)
  {
  }

  /** The block of the spoofed endpoint is the one its own attributes ask for. */
  lemma {:induction false} SpoofedBuildsWanted(vs: seq<View>, s: Settings, i: nat)
    requires i < |vs|
    ensures var v, w := vs[i], Spoofed(vs, s)[i];
      && (SingBox.UpstreamOf(w).Some? <==> Wanted.BySingBox(v)) && (Xray.UpstreamOf(w).Some? <==> Wanted.ByXray(v))
      && (SingBox.UpstreamOf(w).Some? ==> Wanted.SingBoxBlock(v, SingBox.UpstreamOf(w).value))
      && (Xray.UpstreamOf(w).Some? ==> Wanted.XrayBlock(v, Xray.UpstreamOf(w).value))
  {
    hide SingBox.UpstreamOf, Xray.UpstreamOf, Wanted.BySingBox, Wanted.ByXray, Wanted.SingBoxBlock, Wanted.XrayBlock,
      Spoofed;
    var v, w := vs[i], Spoofed(vs, s)[i];
    SpoofMovesOnlyTheTarget(vs, s, i);
    SingBox.BuildsWanted(v);
    Xray.BuildsWanted(v);
    if SingBox.UpstreamOf(v).Some? {
      WantedReadsSame(SingBox.UpstreamOf(v).value, SingBox.UpstreamOf(w).value, v);
    }
    if Xray.UpstreamOf(v).Some? {
      WantedReadsSame(Xray.UpstreamOf(v).value, Xray.UpstreamOf(w).value, v);
    }
  }

  /** End to end: after the three generators, every pin resolves hop by hop to exactly its
      own endpoint's address, through the core that claimed it, and through the spoofer only
      when the endpoint asked for a decoy and is neither Reality nor WireGuard. */
  lemma {:induction false} EndToEnd(vs: seq<View>, s: Settings, i: nat)
    requires i < |vs| && Deployable(vs, s)
    ensures ReachesOwnServer(vs[i], NetworkFor(vs, s), Get(Final(vs, s)[i].attrs, PIN))
  {
    hide Wanted.BySingBox, Wanted.ByXray, Wanted.SingBoxBlock, Wanted.XrayBlock, Resolve;
    var w := Spoofed(vs, s)[i];
    SpoofedBuildsWanted(vs, s, i);
    NeverClaimedTwice(w);
    if SingBox.UpstreamOf(w).Some? {
      SingBoxPinResolves(vs, s, i, SingBox.UpstreamOf(w).value);
      ClaimedHasAddress(w);
    } else if Xray.UpstreamOf(w).Some? {
      XrayPinResolves(vs, s, i, Xray.UpstreamOf(w).value);
      ClaimedHasAddress(w);
    } else {
      UnclaimedPinKept(vs, s, i);
    }
  }

  lemma {:induction false} ClaimedHasAddress(v: View)
    ensures SingBox.UpstreamOf(v).Some? || Xray.UpstreamOf(v).Some? ==> HostPort.ParseAddr(v.address).Some?
    ensures Xray.UpstreamOf(v).Some? ==> v.protocol != "wireguard"
  {
    assert "wireguard"[0] == 'w';
  }

  // ----- the run, on the heap -----

  lemma {:induction false} PinTextsDiffer(host: string, m: int, n: int)
    requires m != n
    ensures HostPort.AddrText(host, m) != HostPort.AddrText(host, n)
  {
    var k := if ':' in host then |host| + 3 else |host| + 1;
    assert HostPort.AddrText(host, m)[k..] == Decimal.Itoa(m);
    assert HostPort.AddrText(host, n)[k..] == Decimal.Itoa(n);
    if Decimal.Itoa(m) == Decimal.Itoa(n) {
      Decimal.ItoaInjective(m, n);
    }
  }

  lemma {:induction false} CorePinsDistinct(vs: seq<View>, upstreamOf: View -> Option<Upstream>, dialHost: string,
                                            base: int)
    ensures DistinctPins(Pins(vs, upstreamOf, dialHost, base))
  {
    var pins := Pins(vs, upstreamOf, dialHost, base);
    forall i, j | 0 <= i < j < |pins| && pins[i].Some?
      ensures pins[i] != pins[j]
    {
      ClaimantOfClaimed(vs, upstreamOf, j, i);
      PinTextsDiffer(dialHost, PortAt(vs, upstreamOf, base, i), PortAt(vs, upstreamOf, base, j));
    }
  }

  lemma {:induction false} HandledGrows(vs: seq<View>, i: nat, j: nat)
    requires i < j <= |vs| && SniSpoof.Handles(vs[i])
    ensures SniSpoof.HandledBefore(vs, i) < SniSpoof.HandledBefore(vs, j)
  {
    if i < j - 1 {
      HandledGrows(vs, i, j - 1);
    }
  }

  lemma {:induction false} SpoofPinsDistinct(vs: seq<View>, cfg: SniSpoof.Config)
    ensures DistinctPins(SniSpoof.Pins(vs, cfg))
  {
    hide HostPort.AddrText, SniSpoof.HandledBefore, SniSpoof.Handles;
    var pins := SniSpoof.Pins(vs, cfg);
    forall i, j | 0 <= i < j < |pins| && pins[i].Some?
      ensures pins[i] != pins[j]
    {
      HandledGrows(vs, i, j);
      PinTextsDiffer(cfg.dialHost, cfg.basePort + SniSpoof.HandledBefore(vs, i),
        cfg.basePort + SniSpoof.HandledBefore(vs, j));
    }
  }

  lemma {:induction false} EveryEndToEnd(vs: seq<View>, s: Settings, ws: seq<View>)
    requires Deployable(vs, s) && ws == Final(vs, s)
    ensures forall i :: 0 <= i < |vs| ==> ReachesOwnServer(vs[i], NetworkFor(vs, s), Get(ws[i].attrs, PIN))
  {
    forall i | 0 <= i < |vs|
      ensures ReachesOwnServer(vs[i], NetworkFor(vs, s), Get(ws[i].attrs, PIN))
    {
      EndToEnd(vs, s, i);
    }
  }

  /** The first generator, on values. */
  method SpoofStage(eps: seq<Endpoint>, settings: Settings)
    returns (mappings: seq<SniSpoof.Mapping>, spoofed: seq<Endpoint>)
    requires DistinctMaps(eps)
    modifies Maps(eps)
    ensures |spoofed| == |eps| && DistinctMaps(spoofed) && fresh(Maps(spoofed) - Maps(eps))
    ensures var s := WithAllDefaults(settings);
      Views(spoofed) == Spoofed(old(Views(eps)), s) &&
        mappings == SniSpoof.Mappings(old(Views(eps)), s.spoof.basePort, |eps|)
  {
    ghost var s, vs := WithAllDefaults(settings), Views(eps);
    mappings, spoofed := SniSpoof.Generate(eps, settings.spoof);
    SpoofPinsDistinct(vs, s.spoof);
    PinnedHeapIsPinnedViews(eps, vs, spoofed, SniSpoof.PIN, SniSpoof.Pins(vs, s.spoof));
  }

  method SingBoxStage(eps: seq<Endpoint>, settings: Settings) returns (doc: Document, dialled: seq<Endpoint>)
    requires DistinctMaps(eps)
    modifies Maps(eps)
    ensures |dialled| == |eps| && DistinctMaps(dialled) && fresh(Maps(dialled) - Maps(eps))
    ensures var s, vs := WithAllDefaults(settings), old(Views(eps));
      Views(dialled) == PinnedViews(vs, PIN, SingBox.PinsFor(vs, s.singbox)) &&
        doc == SingBox.DocumentFor(vs, s.singbox)
  {
    ghost var s, vs := WithAllDefaults(settings), Views(eps);
    doc, dialled := SingBox.Generate(eps, settings.singbox);
    CorePinsDistinct(vs, SingBox.UpstreamOf, s.singbox.dialHost, s.singbox.basePort);
    PinnedHeapIsPinnedViews(eps, vs, dialled, PIN, SingBox.PinsFor(vs, s.singbox));
  }

  method XrayStage(eps: seq<Endpoint>, settings: Settings) returns (doc: Option<Document>, updated: seq<Endpoint>)
    requires DistinctMaps(eps)
    modifies Maps(eps)
    ensures |updated| == |eps|
    ensures var s, vs := WithAllDefaults(settings), old(Views(eps));
      Views(updated) == PinnedViews(vs, PIN, Xray.PinsFor(vs, s.xray)) && doc == Xray.DocumentFor(vs, s.xray)
  {
    ghost var s, vs := WithAllDefaults(settings), Views(eps);
    doc, updated := Xray.Generate(eps, settings.xray);
    CorePinsDistinct(vs, Xray.UpstreamOf, s.xray.dialHost, s.xray.basePort);
    PinnedHeapIsPinnedViews(eps, vs, updated, PIN, Xray.PinsFor(vs, s.xray));
  }

  /** The startup sequence: spoofer, then sing-box, then Xray, on shared maps. */
  method Run(eps: seq<Endpoint>, settings: Settings) returns (net: Network, updated: seq<Endpoint>)
    requires DistinctMaps(eps)
    requires Deployable(Views(eps), WithAllDefaults(settings))
    modifies Maps(eps)
    ensures |updated| == |eps|
    ensures net == NetworkFor(old(Views(eps)), WithAllDefaults(settings))
    ensures forall i :: 0 <= i < |eps| ==>
      ReachesOwnServer(old(Views(eps))[i], net, Get(Views(updated)[i].attrs, PIN))
  {
    var s := WithAllDefaults(settings);
    ghost var vs := Views(eps);
    var mappings, spoofed := SpoofStage(eps, settings);
    var singbox, dialled := SingBoxStage(spoofed, settings);
    var xray;
    xray, updated := XrayStage(dialled, settings);
    net := Network(s.spoof.dialHost, mappings, s.singbox.dialHost, singbox, s.xray.dialHost, xray);
    EveryEndToEnd(vs, s, Views(updated));
  }
}
