/** What the attributes of an endpoint ask of the block generated for it. The generators share
    none of these definitions. */
module Wanted {
  import opened Wrappers
  import opened Endpoints
  import opened CoreConfig
  import HostPort

  /** The transport is named under "net" or, when that is missing or empty, under "type". */
  function TransportName(c: map<string, string>): string {
    if "net" in c && c["net"] != "" then c["net"] else if "type" in c then c["type"] else ""
  }

  /** The protocols sing-box speaks and what it calls them. */
  const KINDS := map[
    "vless" := "vless", "trojan" := "trojan", "vmess" := "vmess", "anytls" := "anytls", "ss" := "shadowsocks",
    "hysteria2" := "hysteria2", "tuic" := "tuic", "wireguard" := "wireguard"]

  predicate NamesTransport(v: View) {
    v.protocol in {"vless", "trojan", "vmess"}
  }

  /** sing-box can serve the endpoint. */
  predicate BySingBox(v: View) {
    && HostPort.ParseAddr(v.address).Some?
    && v.protocol in KINDS
    && (NamesTransport(v) ==> TransportName(v.attrs) in {"", "tcp", "ws", "httpupgrade", "grpc", "http", "h2"})
    && (v.protocol == "wireguard" ==> Get(v.attrs, "private_key") != "" && Get(v.attrs, "public_key") != "")
  }

  /** Only Xray can: a Telegram proxy, or VLESS over a transport of Xray's own. */
  predicate ByXray(v: View) {
    && HostPort.ParseAddr(v.address).Some?
    && (v.protocol == "mtproxy" || (v.protocol == "vless" && TransportName(v.attrs) in {"xhttp", "splithttp", "raw"}))
  }

  /** The TLS server name: which attribute holds it, and when there is TLS at all. */
  predicate ServerName(v: View, sni: Option<string>) {
    var c := v.attrs;
    && (v.protocol == "vless" ==> sni == if Get(c, "security") in {"tls", "reality"} then Some(Get(c, "sni")) else None)
    && (v.protocol == "trojan" ==> sni == if Get(c, "security") in {"tls", ""} then Some(Get(c, "sni")) else None)
    && (v.protocol == "vmess" ==> sni == if Get(c, "tls") == "tls" then Some(Get(c, "host")) else None)
    && (v.protocol in {"anytls", "hysteria2", "tuic"} ==> sni == Some(Get(c, "sni")))
    && (v.protocol in {"ss", "wireguard", "mtproxy"} ==> sni == None)
  }

  predicate IsReality(v: View) {
    v.protocol == "vless" && Get(v.attrs, "security") == "reality"
  }

  /** The transport of a sing-box block. */
  predicate Carries(v: View, t: Transport) {
    var c, name := v.attrs, TransportName(v.attrs);
    && (!NamesTransport(v) || name in {"", "tcp"} ==> t == NoTransport)
    && (NamesTransport(v) && name in {"ws", "httpupgrade"} ==> t == Transport(name, Get(c, "path"), Get(c, "host")))
    && (NamesTransport(v) && name == "grpc" ==> t == Transport("grpc", Get(c, "path"), ""))
    && (NamesTransport(v) && name in {"http", "h2"} ==> t == Transport("http", Get(c, "path"), Get(c, "host")))
  }

  /** The block a sing-box document must hold, wherever it connects. */
  predicate SingBoxBlock(v: View, up: Upstream) {
    && v.protocol in KINDS && up.kind == KINDS[v.protocol]
    && ServerName(v, up.sni)
    && (up.reality <==> IsReality(v))
    && Carries(v, up.transport)
  }

  /** A connection to the port reaches a block that holds what the endpoint asks of sing-box. */
  predicate SingBoxServes(d: Document, port: int, v: View) {
    match Forward(d, port)
    case Some(Block(_, up)) => SingBoxBlock(v, up)
    case _ => false
  }

  predicate XrayServes(d: Document, port: int, v: View) {
    match Forward(d, port)
    case Some(Block(_, up)) => XrayBlock(v, up)
    case _ => false
  }

  /** The stream of an Xray block is named under "net" alone. */
  predicate Streams(v: View, t: Transport) {
    var c := v.attrs;
    var net := if Get(c, "net") == "" then "tcp" else Get(c, "net");
    && (v.protocol == "mtproxy" ==> t == NoTransport)
    && (v.protocol == "vless" ==> t.Transport? && t.net == net)
    && (v.protocol == "vless" && net in {"xhttp", "splithttp", "ws"} ==>
          t.host == Get(c, "host") && t.path == if Get(c, "path") == "" then "/" else Get(c, "path"))
    && (v.protocol == "vless" && net !in {"xhttp", "splithttp", "ws"} ==> t.host == "" && t.path == "")
  }

  /** The block an Xray document must hold, wherever it connects. */
  predicate XrayBlock(v: View, up: Upstream) {
    && up.kind == (if v.protocol == "vless" then "vless" else "mtproto")
    && ServerName(v, up.sni)
    && (up.reality <==> IsReality(v))
    && Streams(v, up.transport)
  }
}
