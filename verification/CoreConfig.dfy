/** The documents the sing-box and Xray generators emit, and what following one means: a
    connection to a local SOCKS inbound is routed by the first rule naming the inbound's
    tag to the block carrying the rule's target tag. */
module CoreConfig {
  import opened Wrappers
  import opened Endpoints
  import Decimal
  import HostPort

  datatype Config = Config(listenHost: string, dialHost: string, basePort: int)

  function WithDefaults(cfg: Config, basePort: int): (r: Config)
    ensures cfg.listenHost == "" ==> r.listenHost == "0.0.0.0"
    ensures cfg.dialHost == "" ==> r.dialHost == "127.0.0.1"
    ensures cfg.basePort == 0 ==> r.basePort == basePort
    ensures cfg.listenHost != "" && cfg.dialHost != "" && cfg.basePort != 0 ==> r == cfg
  {
    Config(
      if cfg.listenHost == "" then "0.0.0.0" else cfg.listenHost,
      if cfg.dialHost == "" then "127.0.0.1" else cfg.dialHost,
      if cfg.basePort == 0 then basePort else cfg.basePort)
  }

  /** The key under which an endpoint's local SOCKS address is pinned. */
  const PIN := "socks5_addr"

  /** The part of an outbound that the model keeps: where it connects, the TLS server
      name and Reality flag, and the transport. */
  datatype Upstream = Upstream(kind: string, server: string, port: int, sni: Option<string>, reality: bool,
    transport: Transport)

  datatype Transport = NoTransport | Transport(net: string, path: string, host: string)

  datatype Block = Block(tag: string, up: Upstream) | DirectBlock(tag: string)

  datatype Inbound = Inbound(tag: string, listen: string, port: int)

  datatype Rule = Rule(inboundTag: string, outboundTag: string)

  /** `final` is the tag for connections no rule names; without one the first outbound
      serves them, as Xray does. */
  datatype Document = Document(
    inbounds: seq<Inbound>,
    outbounds: seq<Block>,
    endpoints: seq<Block>,
    rules: seq<Rule>,
    final: Option<string>)

  const DIRECT_TAG := "out-direct"

  function Tag(i: nat): string {
    "ep-" + Decimal.Itoa(i)
  }

  function InTag(i: nat): string {
    "in-" + Tag(i)
  }

  /** WireGuard blocks live in the "endpoints" section under a prefix of their own. */
  function OutTag(i: nat, up: Upstream): string {
    (if up.kind == "wireguard" then "wg-" else "out-") + Tag(i)
  }

  // ----- semantics -----

  function InboundOn(inbounds: seq<Inbound>, port: int): Option<Inbound> {
    if inbounds == [] then None
    else if inbounds[0].port == port then Some(inbounds[0])
    else InboundOn(inbounds[1..], port)
  }

  function FirstRule(rules: seq<Rule>, inboundTag: string): Option<string> {
    if rules == [] then None
    else if rules[0].inboundTag == inboundTag then Some(rules[0].outboundTag)
    else FirstRule(rules[1..], inboundTag)
  }

  function BlockTagged(blocks: seq<Block>, tag: string): Option<Block> {
    if blocks == [] then None
    else if blocks[0].tag == tag then Some(blocks[0])
    else BlockTagged(blocks[1..], tag)
  }

  /** Where a connection to the local port `port` goes; None when nothing listens there. */
  function Forward(d: Document, port: int): Option<Block> {
    match InboundOn(d.inbounds, port)
    case None => None
    case Some(inb) =>
      match FirstRule(d.rules, inb.tag)
      case Some(tag) => BlockTagged(d.outbounds + d.endpoints, tag)
      case None =>
        match d.final
        case Some(tag) => BlockTagged(d.outbounds + d.endpoints, tag)
        case None => if d.outbounds == [] then None else Some(d.outbounds[0])
  }

  // ----- what a generator builds -----

  function Extend(d: Document, i: nat, listen: string, port: int, up: Upstream): Document {
    var block := Block(OutTag(i, up), up);
    Document(
      d.inbounds + [Inbound(InTag(i), listen, port)],
      if up.kind == "wireguard" then d.outbounds else d.outbounds + [block],
      if up.kind == "wireguard" then d.endpoints + [block] else d.endpoints,
      d.rules + [Rule(InTag(i), OutTag(i, up))],
      d.final)
  }

  function ClaimedBefore(vs: seq<View>, upstreamOf: View -> Option<Upstream>, k: nat): nat
    requires k <= |vs|
  {
    if k == 0 then 0
    else ClaimedBefore(vs, upstreamOf, k - 1) + if upstreamOf(vs[k - 1]).Some? then 1 else 0
  }

  function PortAt(vs: seq<View>, upstreamOf: View -> Option<Upstream>, base: int, i: nat): int
    requires i <= |vs|
  {
    base + ClaimedBefore(vs, upstreamOf, i)
  }

  /** The document for the first `k` endpoints, before the direct block is added. */
  function Compile(vs: seq<View>, upstreamOf: View -> Option<Upstream>, listen: string, base: int,
                   final: Option<string>, k: nat): Document
    requires k <= |vs|
  {
    if k == 0 then Document([], [], [], [], final)
    else
      var d := Compile(vs, upstreamOf, listen, base, final, k - 1);
      match upstreamOf(vs[k - 1])
      case None => d
      case Some(up) => Extend(d, k - 1, listen, PortAt(vs, upstreamOf, base, k - 1), up)
  }

  /** The address pinned on each claimed endpoint. */
  function Pins(vs: seq<View>, upstreamOf: View -> Option<Upstream>, dialHost: string,
                base: int): (pins: seq<Option<string>>)
    ensures |pins| == |vs|
  {
    seq(|vs|, i requires 0 <= i < |vs| =>
      if upstreamOf(vs[i]).Some? then Some(HostPort.AddrText(dialHost, PortAt(vs, upstreamOf, base, i))) else None)
  }

  /** An iteration that claims nothing. */
  lemma {:induction false} StepSkip(vs: seq<View>, upstreamOf: View -> Option<Upstream>, listen: string,
                                    dialHost: string,
                                    base: int, final: Option<string>, i: nat)
    requires i < |vs| && upstreamOf(vs[i]).None?
    ensures Compile(vs, upstreamOf, listen, base, final, i + 1) == Compile(vs, upstreamOf, listen, base, final, i)
    ensures PortAt(vs, upstreamOf, base, i + 1) == PortAt(vs, upstreamOf, base, i)
    ensures Pins(vs, upstreamOf, dialHost, base)[i] == None
  {
  }

  /** An iteration that claims the endpoint. */
  lemma {:induction false} StepClaim(vs: seq<View>, upstreamOf: View -> Option<Upstream>, listen: string,
                                     dialHost: string,
                                     base: int, final: Option<string>, i: nat, port: int, up: Upstream)
    requires i < |vs| && upstreamOf(vs[i]) == Some(up)
    requires port == PortAt(vs, upstreamOf, base, i)
    ensures Compile(vs, upstreamOf, listen, base, final, i + 1) ==
      Extend(Compile(vs, upstreamOf, listen, base, final, i), i, listen, port, up)
    ensures PortAt(vs, upstreamOf, base, i + 1) == port + 1
    ensures Pins(vs, upstreamOf, dialHost, base)[i] == Some(HostPort.AddrText(dialHost, port))
  {
  }

  /** The transport hint: "net", or "type" when "net" is empty. */
  function NetHint(c: map<string, string>): string {
    if Get(c, "net") == "" then Get(c, "type") else Get(c, "net")
  }

  /** Redirects an outbound to the spoofer when the endpoint carries a readable
      `spoof_via` and is not Reality; everything else about it stays. */
  function ApplySpoof(up: Upstream, c: map<string, string>): Upstream {
    var via := Get(c, "spoof_via");
    if via == "" || Get(c, "security") == "reality" then up
    else
      match HostPort.ParseAddr(via)
      case None => up
      case Some((host, port)) => up.(server := host, port := port)
  }

  function WithDirect(d: Document): Document {
    d.(outbounds := d.outbounds + [DirectBlock(DIRECT_TAG)])
  }

  // ----- tags -----

  lemma {:induction false} TagInjective(i: nat, j: nat)
    ensures Tag(i) == Tag(j) ==> i == j
  {
    assert Tag(i)[3..] == Decimal.Itoa(i) && Tag(j)[3..] == Decimal.Itoa(j);
    if Decimal.Itoa(i) == Decimal.Itoa(j) {
      Decimal.ItoaInjective(i, j);
    }
  }

  lemma {:induction false} OutTagShape(i: nat, u: Upstream)
    ensures var t := OutTag(i, u);
      && |t| > 4 && t != DIRECT_TAG
      && (t[2] == '-' <==> u.kind == "wireguard")
      && t[if u.kind == "wireguard" then 3 else 4..] == Tag(i)
  {
    var t := OutTag(i, u);
    if u.kind == "wireguard" {
      assert t == "wg-" + Tag(i);
      assert t[0] == 'w' && t[2] == '-' && t[3..] == Tag(i);
    } else {
      assert t == "out-" + Tag(i);
      assert t[2] == 't' && t[4..] == Tag(i) && t[4] == 'e' && DIRECT_TAG[4] == 'd';
    }
  }

  lemma {:induction false} TagsDistinguish(i: nat, u: Upstream, j: nat, w: Upstream)
    ensures InTag(i) == InTag(j) ==> i == j
    ensures OutTag(i, u) == OutTag(j, w) ==> i == j
    ensures OutTag(i, u) != DIRECT_TAG
  {
    assert InTag(i)[3..] == Tag(i) && InTag(j)[3..] == Tag(j);
    OutTagShape(i, u);
    OutTagShape(j, w);
    TagInjective(i, j);
  }

  // ----- following a compiled document -----

  /** The claimed endpoint that received the `q`-th port. */
  function Claimant(vs: seq<View>, upstreamOf: View -> Option<Upstream>, k: nat, q: nat): (j: nat)
    requires k <= |vs| && q < ClaimedBefore(vs, upstreamOf, k)
    ensures j < k && upstreamOf(vs[j]).Some? && ClaimedBefore(vs, upstreamOf, j) == q
  {
    if upstreamOf(vs[k - 1]).Some? && q == ClaimedBefore(vs, upstreamOf, k - 1) then k - 1
    else Claimant(vs, upstreamOf, k - 1, q)
  }

  lemma {:induction false} ClaimantOfClaimed(vs: seq<View>, upstreamOf: View -> Option<Upstream>, k: nat, i: nat)
    requires i < k <= |vs| && upstreamOf(vs[i]).Some?
    ensures ClaimedBefore(vs, upstreamOf, i) < ClaimedBefore(vs, upstreamOf, k)
    ensures Claimant(vs, upstreamOf, k, ClaimedBefore(vs, upstreamOf, i)) == i
  {
    if i < k - 1 {
      ClaimantOfClaimed(vs, upstreamOf, k - 1, i);
    }
  }

  /** Inbounds and rules are aligned, one pair for each claimed endpoint in list order, and
      the ports are consecutive from the base. */
  lemma {:induction false} Layout(vs: seq<View>, upstreamOf: View -> Option<Upstream>, listen: string, base: int,
                                  final: Option<string>, k: nat)
    requires k <= |vs|
    ensures var d, n := Compile(vs, upstreamOf, listen, base, final, k), ClaimedBefore(vs, upstreamOf, k);
            && |d.inbounds| == n && |d.rules| == n && d.final == final
            && forall q :: 0 <= q < n ==>
                 var j := Claimant(vs, upstreamOf, k, q);
                 && d.inbounds[q] == Inbound(InTag(j), listen, base + q)
                 && d.rules[q] == Rule(InTag(j), OutTag(j, upstreamOf(vs[j]).value))
  {
    if k > 0 {
      Layout(vs, upstreamOf, listen, base, final, k - 1);
    }
  }

  /** The direct block stands last, and every port is opened on the host to listen on. */
  ghost predicate Closes(d: Document, listen: string) {
    && d.outbounds != [] && d.outbounds[|d.outbounds| - 1] == DirectBlock("out-direct")
    && forall q :: 0 <= q < |d.inbounds| ==> d.inbounds[q].listen == listen
  }

  lemma {:induction false} CompiledCloses(vs: seq<View>, upstreamOf: View -> Option<Upstream>, listen: string,
                                          base: int, final: Option<string>, k: nat)
    requires k <= |vs|
    ensures var d := WithDirect(Compile(vs, upstreamOf, listen, base, final, k));
      d.final == final && Closes(d, listen)
  {
    Layout(vs, upstreamOf, listen, base, final, k);
  }

  /** Every block of a compiled document was built for a claimed endpoint, and every claimed
      endpoint has its block. */
  lemma {:induction false} Blocks(vs: seq<View>, upstreamOf: View -> Option<Upstream>, listen: string, base: int,
                                  final: Option<string>, k: nat, b: Block)
    requires k <= |vs|
    ensures var d := Compile(vs, upstreamOf, listen, base, final, k);
            b in d.outbounds + d.endpoints <==>
            exists j :: 0 <= j < k && upstreamOf(vs[j]).Some? &&
              b == Block(OutTag(j, upstreamOf(vs[j]).value), upstreamOf(vs[j]).value)
  {
    if k > 0 {
      Blocks(vs, upstreamOf, listen, base, final, k - 1, b);
      var d := Compile(vs, upstreamOf, listen, base, final, k);
      if upstreamOf(vs[k - 1]).Some? {
        assert b in d.outbounds + d.endpoints <==> b in d.outbounds || b in d.endpoints;
        var c := Compile(vs, upstreamOf, listen, base, final, k - 1);
        assert b in c.outbounds + c.endpoints <==> b in c.outbounds || b in c.endpoints;
      }
    }
  }

  lemma {:induction false} InboundAt(inbounds: seq<Inbound>, port: int, p: nat)
    requires p < |inbounds| && inbounds[p].port == port
    requires forall q :: 0 <= q < p ==> inbounds[q].port != port
    ensures InboundOn(inbounds, port) == Some(inbounds[p])
  {
    if p > 0 {
      InboundAt(inbounds[1..], port, p - 1);
    }
  }

  lemma {:induction false} NoInbound(inbounds: seq<Inbound>, port: int)
    requires forall q :: 0 <= q < |inbounds| ==> inbounds[q].port != port
    ensures InboundOn(inbounds, port) == None
  {
    if inbounds != [] {
      NoInbound(inbounds[1..], port);
    }
  }

  lemma {:induction false} FirstRuleAt(rules: seq<Rule>, tag: string, p: nat)
    requires p < |rules| && rules[p].inboundTag == tag
    requires forall q :: 0 <= q < p ==> rules[q].inboundTag != tag
    ensures FirstRule(rules, tag) == Some(rules[p].outboundTag)
  {
    if p > 0 {
      FirstRuleAt(rules[1..], tag, p - 1);
    }
  }

  lemma {:induction false} OnlyBlockTagged(blocks: seq<Block>, b: Block)
    requires b in blocks
    requires forall c :: c in blocks && c.tag == b.tag ==> c == b
    ensures BlockTagged(blocks, b.tag) == Some(b)
  {
    if blocks[0].tag != b.tag {
      OnlyBlockTagged(blocks[1..], b);
    }
  }

  lemma {:induction false} OwnBlock(vs: seq<View>, upstreamOf: View -> Option<Upstream>, listen: string, base: int,
                 final: Option<string>, i: nat)
    requires i < |vs| && upstreamOf(vs[i]).Some?
    ensures var d, up := WithDirect(Compile(vs, upstreamOf, listen, base, final, |vs|)), upstreamOf(vs[i]).value;
            BlockTagged(d.outbounds + d.endpoints, OutTag(i, up)) == Some(Block(OutTag(i, up), up))
  {
    var n := |vs|;
    var c := Compile(vs, upstreamOf, listen, base, final, n);
    var d, up := WithDirect(c), upstreamOf(vs[i]).value;
    var own := Block(OutTag(i, up), up);
    forall b
      ensures b in d.outbounds + d.endpoints <==> b in c.outbounds + c.endpoints || b == DirectBlock(DIRECT_TAG)
    {
    }
    Blocks(vs, upstreamOf, listen, base, final, n, own);
    forall b | b in d.outbounds + d.endpoints && b.tag == own.tag
      ensures b == own
    {
      TagsDistinguish(i, up, i, up);
      Blocks(vs, upstreamOf, listen, base, final, n, b);
      var j :| 0 <= j < n && upstreamOf(vs[j]).Some? &&
        b == Block(OutTag(j, upstreamOf(vs[j]).value), upstreamOf(vs[j]).value);
      TagsDistinguish(i, up, j, upstreamOf(vs[j]).value);
    }
    OnlyBlockTagged(d.outbounds + d.endpoints, own);
  }

  /** Routing correctness of every compiled document: a claimed endpoint's port has one
      inbound, and following it leads to the block built for that endpoint. */
  lemma {:induction false} ForwardsToOwnBlock(vs: seq<View>, upstreamOf: View -> Option<Upstream>, listen: string,
                                              base: int,
                           final: Option<string>, i: nat)
    requires i < |vs| && upstreamOf(vs[i]).Some?
    ensures var d := WithDirect(Compile(vs, upstreamOf, listen, base, final, |vs|));
            var port, up := PortAt(vs, upstreamOf, base, i), upstreamOf(vs[i]).value;
            && Forward(d, port) == Some(Block(OutTag(i, up), up))
            && (forall p, q :: 0 <= p < |d.inbounds| && 0 <= q < |d.inbounds| ==>
                  d.inbounds[p].port == port && d.inbounds[q].port == port ==> p == q)
  {
    var n := |vs|;
    var d := WithDirect(Compile(vs, upstreamOf, listen, base, final, n));
    var p, up := ClaimedBefore(vs, upstreamOf, i), upstreamOf(vs[i]).value;
    ClaimantOfClaimed(vs, upstreamOf, n, i);
    Layout(vs, upstreamOf, listen, base, final, n);
    InboundAt(d.inbounds, base + p, p);
    forall q | 0 <= q < p
      ensures d.rules[q].inboundTag != InTag(i)
    {
      var j := Claimant(vs, upstreamOf, n, q);
      TagsDistinguish(i, up, j, up);
    }
    FirstRuleAt(d.rules, InTag(i), p);
    OwnBlock(vs, upstreamOf, listen, base, final, i);
  }

  /** The ports that lead anywhere are exactly `base .. base + claimed - 1`. */
  lemma {:induction false} PortsAreConsecutive(vs: seq<View>, upstreamOf: View -> Option<Upstream>, listen: string,
                                               base: int,
                            final: Option<string>, port: int)
    ensures var d := WithDirect(Compile(vs, upstreamOf, listen, base, final, |vs|));
            Forward(d, port).Some? <==> base <= port < base + ClaimedBefore(vs, upstreamOf, |vs|)
  {
    var n := |vs|;
    var d := WithDirect(Compile(vs, upstreamOf, listen, base, final, n));
    Layout(vs, upstreamOf, listen, base, final, n);
    if base <= port < base + ClaimedBefore(vs, upstreamOf, n) {
      var i := Claimant(vs, upstreamOf, n, port - base);
      ForwardsToOwnBlock(vs, upstreamOf, listen, base, final, i);
    } else {
      NoInbound(d.inbounds, port);
    }
  }
}
