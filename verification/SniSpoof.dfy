/** The SNI-spoofer config generator: one mapping, and one `spoof_via` pin, for each
    endpoint that carries a decoy name. */
module SniSpoof {
  import opened Wrappers
  import opened Endpoints
  import Decimal
  import HostPort

  datatype Config = Config(listenHost: string, dialHost: string, basePort: int)

  function WithDefaults(cfg: Config): (r: Config)
    ensures cfg.listenHost == "" ==> r.listenHost == "0.0.0.0"
    ensures cfg.dialHost == "" ==> r.dialHost == "127.0.0.1"
    ensures cfg.listenHost != "" && cfg.dialHost != "" && cfg.basePort != 0 ==> r == cfg
  {
    Config(
      if cfg.listenHost == "" then "0.0.0.0" else cfg.listenHost,
      if cfg.dialHost == "" then "127.0.0.1" else cfg.dialHost,
      if cfg.basePort == 0 then 12800 else cfg.basePort)
  }

  datatype Mapping = Mapping(listen: string, connect: string, fakeSNI: string, utls: string)

  const PIN := "spoof_via"

  predicate Handles(v: View) {
    Get(v.attrs, "fake_sni") != ""
  }

  function MappingOf(v: View, port: int): Mapping {
    var utls := Get(v.attrs, "utls");
    Mapping(":" + Decimal.Itoa(port), v.address, Get(v.attrs, "fake_sni"), if utls == "" then "chrome" else utls)
  }

  function HandledBefore(vs: seq<View>, k: nat): nat
    requires k <= |vs|
  {
    if k == 0 then 0 else HandledBefore(vs, k - 1) + if Handles(vs[k - 1]) then 1 else 0
  }

  function Mappings(vs: seq<View>, base: int, k: nat): (ms: seq<Mapping>)
    requires k <= |vs|
    ensures |ms| == HandledBefore(vs, k)
  {
    if k == 0 then []
    else if Handles(vs[k - 1]) then
      Mappings(vs, base, k - 1) + [MappingOf(vs[k - 1], base + HandledBefore(vs, k - 1))]
    else Mappings(vs, base, k - 1)
  }

  function Pins(vs: seq<View>, cfg: Config): (pins: seq<Option<string>>)
    ensures |pins| == |vs|
  {
    seq(|vs|, i requires 0 <= i < |vs| =>
      if Handles(vs[i]) then Some(HostPort.AddrText(cfg.dialHost, cfg.basePort + HandledBefore(vs, i))) else None)
  }

  /** One iteration, on values. */
  lemma {:induction false} Step(vs: seq<View>, cfg: Config, i: nat, port: int)
    requires i < |vs| && port == cfg.basePort + HandledBefore(vs, i)
    ensures Handles(vs[i]) ==>
      && Mappings(vs, cfg.basePort, i + 1) == Mappings(vs, cfg.basePort, i) + [MappingOf(vs[i], port)]
      && HandledBefore(vs, i + 1) == HandledBefore(vs, i) + 1
      && Pins(vs, cfg)[i] == Some(HostPort.AddrText(cfg.dialHost, port))
    ensures !Handles(vs[i]) ==>
      && Mappings(vs, cfg.basePort, i + 1) == Mappings(vs, cfg.basePort, i)
      && HandledBefore(vs, i + 1) == HandledBefore(vs, i)
      && Pins(vs, cfg)[i] == None
  {
  }

  /** Writing a pin never changes a mapping, even through a shared map. */
  lemma {:induction false} MappingIgnoresPin(v: View, w: View, port: int)
    requires v.address == w.address && AgreeExcept(v.attrs, w.attrs, PIN)
    ensures Handles(v) == Handles(w)
    ensures MappingOf(v, port) == MappingOf(w, port)
  {
    assert "fake_sni" != PIN && "utls" != PIN;
  }

  /** What an iteration reads is what the endpoint held before the loop. */
  lemma {:induction false} ReadsOriginal(eps: seq<Endpoint>, was: seq<View>, updated: seq<Endpoint>,
                                         pins: seq<Option<string>>, i: nat, port: int)
    requires i < |eps| == |was| == |updated| == |pins|
    requires PinnedUpTo(eps, was, updated, PIN, pins, i)
    ensures updated[i] == eps[i]
    ensures Handles(ViewOf(updated[i])) == Handles(was[i])
    ensures MappingOf(ViewOf(updated[i]), port) == MappingOf(was[i], port)
  {
    ViewBeforePin(eps, was, updated, PIN, pins, i);
    MappingIgnoresPin(was[i], ViewOf(updated[i]), port);
  }

  /** The loop body of `Generate`. */
  method GenerateOne(eps: seq<Endpoint>, ghost was: seq<View>, cfg: Config, i: nat,
                     mappings: seq<Mapping>, updated: seq<Endpoint>, port: int)
    returns (mappings': seq<Mapping>, updated': seq<Endpoint>, port': int, ghost made: ConfigMap?)
    requires i < |eps| == |was| == |updated|
    requires mappings == Mappings(was, cfg.basePort, i) && port == cfg.basePort + HandledBefore(was, i)
    requires PinnedUpTo(eps, was, updated, PIN, Pins(was, cfg), i)
    modifies Maps(eps)
    ensures |updated'| == |eps|
    ensures mappings' == Mappings(was, cfg.basePort, i + 1) && port' == cfg.basePort + HandledBefore(was, i + 1)
    ensures PinnedUpTo(eps, was, updated', PIN, Pins(was, cfg), i + 1)
    ensures Maps(updated') <= Maps(updated) + JustThis(made) && (made != null ==> fresh(made))
  {
    mappings', updated', port', made := mappings, updated, port, null;
    var ep := updated[i];
    ReadsOriginal(eps, was, updated, Pins(was, cfg), i, port);
    Step(was, cfg, i, port);
    if !Handles(ViewOf(ep)) {
      PinSkip(eps, was, updated, PIN, Pins(was, cfg), i);
      return;
    }
    mappings' := mappings + [MappingOf(ViewOf(ep), port)];
    updated', made := Pin(eps, was, updated, PIN, Pins(was, cfg), i, HostPort.AddrText(cfg.dialHost, port));
    port' := port + 1;
  }

  method Generate(eps: seq<Endpoint>, config: Config) returns (mappings: seq<Mapping>, updated: seq<Endpoint>)
    modifies Maps(eps)
    ensures |updated| == |eps|
    ensures mappings == Mappings(old(Views(eps)), WithDefaults(config).basePort, |eps|)
    ensures Decoyed(mappings, old(Views(eps)), if config.basePort == 0 then 12800 else config.basePort)
    ensures PinnedUpTo(eps, old(Views(eps)), updated, PIN, Pins(old(Views(eps)), WithDefaults(config)), |eps|)
    ensures fresh(Maps(updated) - Maps(eps))
  {
    hide Maps, PinnedUpTo;
    var cfg := WithDefaults(config);
    ghost var was := Views(eps);
    ghost var pins := Pins(was, cfg);
    PinStart(eps, PIN, pins);
    updated := eps;
    mappings := [];
    var port := cfg.basePort;
    ghost var allMade: set<object> := {};
    for i := 0 to |eps|
      invariant |updated| == |eps|
      invariant mappings == Mappings(was, cfg.basePort, i) && port == cfg.basePort + HandledBefore(was, i)
      invariant PinnedUpTo(eps, was, updated, PIN, pins, i)
      invariant fresh(allMade) && Maps(updated) <= Maps(eps) + allMade
    {
      ghost var made;
      mappings, updated, port, made := GenerateOne(eps, was, cfg, i, mappings, updated, port);
      allMade := allMade + JustThis(made);
    }
    MappingsDecoy(was, cfg.basePort);
  }

  // ----- the spoofer -----

  /** A connection to the spoofer's port is relayed to the mapping that listens there. */
  function Relay(ms: seq<Mapping>, port: int): Option<string> {
    if ms == [] then None
    else if ms[0].listen == ":" + Decimal.Itoa(port) then Some(ms[0].connect)
    else Relay(ms[1..], port)
  }

  lemma {:induction false} RelayAt(ms: seq<Mapping>, base: int, k: nat)
    requires forall q :: 0 <= q < |ms| ==> ms[q].listen == ":" + Decimal.Itoa(base + q)
    requires k < |ms|
    ensures Relay(ms, base + k) == Some(ms[k].connect)
  {
    if k > 0 {
      assert ms[0].listen == ":" + Decimal.Itoa(base + 0);
      if ms[0].listen == ":" + Decimal.Itoa(base + k) {
        assert Decimal.Itoa(base) == ms[0].listen[1..] == Decimal.Itoa(base + k);
        Decimal.ItoaInjective(base, base + k);
      }
      forall q | 0 <= q < |ms[1..]|
        ensures ms[1..][q].listen == ":" + Decimal.Itoa(base + 1 + q)
      {
        assert ms[1..][q] == ms[q + 1];
      }
      RelayAt(ms[1..], base + 1, k - 1);
    }
  }

  lemma {:induction false} RelayNone(ms: seq<Mapping>, base: int, port: int)
    requires forall q :: 0 <= q < |ms| ==> ms[q].listen == ":" + Decimal.Itoa(base + q)
    requires !(base <= port < base + |ms|)
    ensures Relay(ms, port) == None
  {
    if ms != [] {
      assert ms[0].listen == ":" + Decimal.Itoa(base + 0);
      if ms[0].listen == ":" + Decimal.Itoa(port) {
        assert Decimal.Itoa(base) == ms[0].listen[1..] == Decimal.Itoa(port);
        Decimal.ItoaInjective(base, port);
      }
      forall q | 0 <= q < |ms[1..]|
        ensures ms[1..][q].listen == ":" + Decimal.Itoa(base + 1 + q)
      {
        assert ms[1..][q] == ms[q + 1];
      }
      RelayNone(ms[1..], base + 1, port);
    }
  }

  lemma {:induction false} ListensInOrder(vs: seq<View>, base: int, k: nat)
    requires k <= |vs|
    ensures forall q :: 0 <= q < HandledBefore(vs, k) ==>
      Mappings(vs, base, k)[q].listen == ":" + Decimal.Itoa(base + q)
  {
    if k > 0 {
      ListensInOrder(vs, base, k - 1);
    }
  }

  lemma {:induction false} MappingAt(vs: seq<View>, base: int, k: nat, i: nat)
    requires i < k <= |vs| && Handles(vs[i])
    ensures HandledBefore(vs, i) < HandledBefore(vs, k)
    ensures Mappings(vs, base, k)[HandledBefore(vs, i)] == MappingOf(vs[i], base + HandledBefore(vs, i))
  {
    hide Handles, MappingOf;
    if i < k - 1 {
      MappingAt(vs, base, k - 1, i);
      assert Mappings(vs, base, k - 1) <= Mappings(vs, base, k);
    }
  }

  /** Mapping `q` listens on its own port and serves the endpoint: its address, its decoy name, and
      the fingerprint it carries. */
  predicate ServesAt(ms: seq<Mapping>, base: int, q: nat, v: View) {
    && q < |ms|
    && ms[q].listen == ":" + Decimal.Itoa(base + q)
    && ms[q].connect == v.address
    && ms[q].fakeSNI == Get(v.attrs, "fake_sni")
    && ms[q].utls == if Get(v.attrs, "utls") == "" then "chrome" else Get(v.attrs, "utls")
  }

  ghost predicate HasMapping(ms: seq<Mapping>, base: int, v: View) {
    exists q: nat :: ServesAt(ms, base, q, v)
  }

  ghost predicate HasEndpoint(ms: seq<Mapping>, base: int, q: nat, vs: seq<View>) {
    exists i :: 0 <= i < |vs| && Get(vs[i].attrs, "fake_sni") != "" && ServesAt(ms, base, q, vs[i])
  }

  /** Every endpoint with a decoy name, and no other, has its mapping, on its own port. */
  ghost predicate Decoyed(ms: seq<Mapping>, vs: seq<View>, base: int) {
    && (forall i :: 0 <= i < |vs| && Get(vs[i].attrs, "fake_sni") != "" ==> HasMapping(ms, base, vs[i]))
    && (forall q: nat :: q < |ms| ==> HasEndpoint(ms, base, q, vs))
  }

  lemma {:induction false} MappingOrigin(vs: seq<View>, base: int, k: nat, q: nat) returns (i: nat)
    requires k <= |vs| && q < HandledBefore(vs, k)
    ensures i < k && Handles(vs[i]) && HandledBefore(vs, i) == q
  {
    if Handles(vs[k - 1]) && q == HandledBefore(vs, k - 1) {
      i := k - 1;
    } else {
      i := MappingOrigin(vs, base, k - 1, q);
    }
  }

  lemma {:induction false} MappingsDecoy(vs: seq<View>, base: int)
    ensures Decoyed(Mappings(vs, base, |vs|), vs, base)
  {
    hide HandledBefore;
    var ms := Mappings(vs, base, |vs|);
    ListensInOrder(vs, base, |vs|);
    forall i | 0 <= i < |vs| && Get(vs[i].attrs, "fake_sni") != ""
      ensures HasMapping(ms, base, vs[i])
    {
      MappingAt(vs, base, |vs|, i);
      assert ServesAt(ms, base, HandledBefore(vs, i), vs[i]);
    }
    forall q: nat | q < |ms|
      ensures HasEndpoint(ms, base, q, vs)
    {
      var i := MappingOrigin(vs, base, |vs|, q);
      MappingAt(vs, base, |vs|, i);
      assert ServesAt(ms, base, q, vs[i]);
    }
  }

  /** Each handled endpoint's spoofer port relays to that endpoint's own address. */
  lemma {:induction false} RelaysToOwnAddress(vs: seq<View>, base: int, i: nat)
    requires i < |vs| && Handles(vs[i])
    ensures HandledBefore(vs, i) < HandledBefore(vs, |vs|)
    ensures Relay(Mappings(vs, base, |vs|), base + HandledBefore(vs, i)) == Some(vs[i].address)
  {
    var ms := Mappings(vs, base, |vs|);
    MappingAt(vs, base, |vs|, i);
    ListensInOrder(vs, base, |vs|);
    RelayAt(ms, base, HandledBefore(vs, i));
  }

  /** The spoofer relays exactly the ports `base .. base + handled - 1`. */
  lemma {:induction false} RelayedPorts(vs: seq<View>, base: int, port: int)
    ensures Relay(Mappings(vs, base, |vs|), port).Some? <==> base <= port < base + HandledBefore(vs, |vs|)
  {
    hide Handles, MappingOf, Relay;
    var ms := Mappings(vs, base, |vs|);
    ListensInOrder(vs, base, |vs|);
    if base <= port < base + |ms| {
      RelayAt(ms, base, port - base);
    } else {
      RelayNone(ms, base, port);
    }
  }
}
