/** Endpoints and their `Config` maps. A `Config` map is a heap object, because the three
    config generators run one after the other and write their pins into maps that the
    shallow slice copies share. */
module Endpoints {
  import opened Wrappers

  class ConfigMap {
    var m: map<string, string>

    constructor (m: map<string, string>)
      ensures this.m == m
    {
      this.m := m;
    }
  }

  datatype Endpoint = Endpoint(
    id: string,
    protocol: string,
    name: string,
    address: string,
    rawURI: string,
    source: string,
    config: ConfigMap?,
    priority: int,
    enabled: bool,
    latencyMs: int,
    status: string)

  /** Reading a missing key gives "", and so does reading a nil map. */
  function Get(m: map<string, string>, key: string): (r: string)
    ensures r == "" <==> key !in m || m[key] == ""
    ensures key in m ==> r == m[key]
  {
    if key in m then m[key] else ""
  }

  /** What a generator reads of an endpoint. */
  datatype View = View(protocol: string, address: string, attrs: map<string, string>)

  function Attrs(c: ConfigMap?): map<string, string>
    reads c
  {
    if c == null then map[] else c.m
  }

  function ViewOf(ep: Endpoint): View
    reads ep.config
  {
    View(ep.protocol, ep.address, Attrs(ep.config))
  }

  function JustThis(c: ConfigMap?): set<object> {
    if c == null then {} else {c}
  }

  function Attached(ep: Endpoint): set<object> {
    JustThis(ep.config)
  }

  ghost function Maps(eps: seq<Endpoint>): set<object> {
    set i | 0 <= i < |eps| && eps[i].config != null :: eps[i].config
  }

  ghost function Views(eps: seq<Endpoint>): (vs: seq<View>)
    reads Maps(eps)
    ensures |vs| == |eps|
    ensures forall i :: 0 <= i < |eps| ==> vs[i] == ViewOf(eps[i])
  {
    if eps == [] then []
    else
      assert Maps(eps[..|eps| - 1]) <= Maps(eps);
      Views(eps[..|eps| - 1]) + [ViewOf(eps[|eps| - 1])]
  }

  /** No two endpoints share a `Config` map; every parser allocates its own. */
  ghost predicate DistinctMaps(eps: seq<Endpoint>) {
    forall i, j :: 0 <= i < j < |eps| && eps[i].config != null ==> eps[i].config != eps[j].config
  }

  /** Endpoint `i`'s map also belongs to a later endpoint (before `k`) that gets a pin. */
  ghost predicate Overwritten(eps: seq<Endpoint>, pins: seq<Option<string>>, i: nat, k: nat)
    requires i < |eps| == |pins| && k <= |eps|
  {
    exists j :: i < j < k && pins[j].Some? && eps[j].config == eps[i].config
  }

  /** Some endpoint before `k` with endpoint `i`'s map gets a pin. */
  ghost predicate Touched(eps: seq<Endpoint>, pins: seq<Option<string>>, i: nat, k: nat)
    requires i < |eps| == |pins| && k <= |eps|
  {
    exists j :: 0 <= j < k && pins[j].Some? && eps[j].config == eps[i].config
  }

  ghost predicate AgreeExcept(m: map<string, string>, n: map<string, string>, key: string) {
    forall k :: k != key ==> (k in m <==> k in n) && (k in m ==> m[k] == n[k])
  }

  /** The heap after a generator has handled the first `k` endpoints of `eps`, whose views
      were `was`: each endpoint with a pin has `key` set to it (unless a later endpoint
      shares its map), a nil map that had to hold a pin was replaced by a fresh one, and
      nothing else changed. */
  ghost predicate PinnedUpTo(eps: seq<Endpoint>, was: seq<View>, updated: seq<Endpoint>, key: string,
                             pins: seq<Option<string>>, k: nat)
    requires k <= |eps| == |was| == |updated| == |pins|
    reads Maps(eps), Maps(updated)
  {
    && (forall i {:trigger updated[i]} :: 0 <= i < |eps| ==>
      SlotAfter(eps, was[i], updated[i], key, pins[i], eps[i], i < k))
    && (forall i {:trigger eps[i]} :: 0 <= i < |eps| && eps[i].config != null ==> MapAfter(eps, was, key, pins, i, k))
  }

  /** The slice entry `u` made from `ep`; `done` says whether the loop has passed it. */
  ghost predicate SlotAfter(eps: seq<Endpoint>, was: View, u: Endpoint, key: string, pin: Option<string>, ep: Endpoint,
                            done: bool)
    reads u.config
  {
    && u == ep.(config := u.config)
    && was.protocol == ep.protocol && was.address == ep.address
    && if ep.config != null then u.config == ep.config
       else if done && pin.Some? then
         && u.config != null && u.config !in Maps(eps)
         && u.config.m == map[key := pin.value] && was.attrs == map[]
       else u.config == null && was.attrs == map[]
  }

  /** The contents of a map that existed before. */
  ghost predicate MapAfter(eps: seq<Endpoint>, was: seq<View>, key: string, pins: seq<Option<string>>, i: nat, k: nat)
    requires i < |eps| == |was| == |pins| && k <= |eps|
    requires eps[i].config != null
    reads eps[i].config
  {
    && AgreeExcept(was[i].attrs, eps[i].config.m, key)
    && (i < k && pins[i].Some? && !Overwritten(eps, pins, i, k) ==>
      eps[i].config.m == was[i].attrs[key := pins[i].value])
    && (!Touched(eps, pins, i, k) ==> eps[i].config.m == was[i].attrs)
  }

  lemma {:induction false} MapAfterOther(eps: seq<Endpoint>, was: seq<View>, key: string, pins: seq<Option<string>>,
                                         i: nat, k: nat)
    requires i < |eps| == |was| == |pins| && k < |eps|
    requires eps[i].config != null
    requires pins[k].None? || eps[i].config != eps[k].config
    requires MapAfter(eps, was, key, pins, i, k)
    ensures MapAfter(eps, was, key, pins, i, k + 1)
  {
    assert !Overwritten(eps, pins, i, k + 1) ==> !Overwritten(eps, pins, i, k);
    assert !Touched(eps, pins, i, k + 1) ==> !Touched(eps, pins, i, k);
  }

  lemma {:induction false} MapAfterPin(eps: seq<Endpoint>, was: seq<View>, key: string, pins: seq<Option<string>>,
                                       i: nat, k: nat)
    requires i < |eps| == |was| == |pins| && k < |eps|
    requires eps[i].config != null && eps[i].config == eps[k].config && pins[k].Some?
    requires AgreeExcept(was[i].attrs, eps[i].config.m, key)
    requires key in eps[i].config.m && eps[i].config.m[key] == pins[k].value
    ensures MapAfter(eps, was, key, pins, i, k + 1)
  {
    assert Touched(eps, pins, i, k + 1);
    assert i < k ==> Overwritten(eps, pins, i, k + 1);
  }

  lemma {:induction false} PinStart(eps: seq<Endpoint>, key: string, pins: seq<Option<string>>)
    requires |eps| == |pins|
    ensures PinnedUpTo(eps, Views(eps), eps, key, pins, 0)
  {
  }

  /** A generator's `updated[i].Config = ensureConfigMap(...)` and `Config[key] = pin`; `made`
      is the map allocated for it, if any. */
  method Pin(eps: seq<Endpoint>, ghost was: seq<View>, updated: seq<Endpoint>, key: string,
             ghost pins: seq<Option<string>>, i: nat, pin: string)
    returns (u: seq<Endpoint>, ghost made: ConfigMap?)
    requires i < |eps| == |was| == |updated| == |pins|
    requires pins[i] == Some(pin)
    requires PinnedUpTo(eps, was, updated, key, pins, i)
    modifies Attached(updated[i])
    ensures |u| == |eps|
    ensures PinnedUpTo(eps, was, u, key, pins, i + 1)
    ensures Maps(u) <= Maps(updated) + JustThis(made) && (made != null ==> fresh(made))
  {
    var c := updated[i].config;
    made := null;
    if c == null {
      c := new ConfigMap(map[]);
      made := c;
    }
    c.m := c.m[key := pin];
    u := updated[i := updated[i].(config := c)];
    forall j {:trigger u[j]} | 0 <= j < |eps|
      ensures SlotAfter(eps, was[j], u[j], key, pins[j], eps[j], j < i + 1)
    {
      assert old(SlotAfter(eps, was[j], updated[j], key, pins[j], eps[j], j < i));
    }
    forall j | 0 <= j < |eps| && eps[j].config != null
      ensures MapAfter(eps, was, key, pins, j, i + 1)
    {
      assert eps[j].config in Maps(eps);
      assert old(MapAfter(eps, was, key, pins, j, i));
      if eps[j].config == c {
        MapAfterPin(eps, was, key, pins, j, i);
      } else {
        MapAfterOther(eps, was, key, pins, j, i);
      }
    }
  }

  /** What the generator reads of the endpoint it is about to handle: only the pin key can
      differ from what it was, and only through a shared map. */
  lemma {:induction false} ViewBeforePin(eps: seq<Endpoint>, was: seq<View>, updated: seq<Endpoint>, key: string,
                                         pins: seq<Option<string>>, i: nat)
    requires i < |eps| == |was| == |updated| == |pins|
    requires PinnedUpTo(eps, was, updated, key, pins, i)
    ensures updated[i] == eps[i]
    ensures ViewOf(updated[i]).protocol == was[i].protocol && ViewOf(updated[i]).address == was[i].address
    ensures AgreeExcept(was[i].attrs, ViewOf(updated[i]).attrs, key)
  {
    assert SlotAfter(eps, was[i], updated[i], key, pins[i], eps[i], false);
    assert eps[i].config != null ==> MapAfter(eps, was, key, pins, i, i);
  }

  lemma {:induction false} PinSkip(eps: seq<Endpoint>, was: seq<View>, updated: seq<Endpoint>, key: string,
                                   pins: seq<Option<string>>, i: nat)
    requires i < |eps| == |was| == |updated| == |pins|
    requires pins[i] == None
    requires PinnedUpTo(eps, was, updated, key, pins, i)
    ensures PinnedUpTo(eps, was, updated, key, pins, i + 1)
  {
    forall j | 0 <= j < |eps| && eps[j].config != null
      ensures MapAfter(eps, was, key, pins, j, i + 1)
    {
      MapAfterOther(eps, was, key, pins, j, i);
    }
  }

  function Pinned(v: View, key: string, pin: Option<string>): View {
    if pin.Some? then v.(attrs := v.attrs[key := pin.value]) else v
  }

  /** The views after pinning, on values. */
  function PinnedViews(vs: seq<View>, key: string, pins: seq<Option<string>>): (ws: seq<View>)
    requires |vs| == |pins|
    ensures |ws| == |vs|
    ensures forall i :: 0 <= i < |vs| ==> ws[i] == Pinned(vs[i], key, pins[i])
  {
    seq(|vs|, i requires 0 <= i < |vs| => Pinned(vs[i], key, pins[i]))
  }

  ghost predicate DistinctPins(pins: seq<Option<string>>) {
    forall i, j :: 0 <= i < j < |pins| && pins[i].Some? ==> pins[i] != pins[j]
  }

  /** With distinct maps, pinning does to the heap exactly what `PinnedViews` says. */
  lemma {:induction false} PinnedHeapIsPinnedViews(eps: seq<Endpoint>, was: seq<View>, updated: seq<Endpoint>,
                                                   key: string, pins: seq<Option<string>>)
    requires |eps| == |was| == |updated| == |pins|
    requires DistinctMaps(eps) && DistinctPins(pins)
    requires PinnedUpTo(eps, was, updated, key, pins, |eps|)
    ensures DistinctMaps(updated)
    ensures Views(updated) == PinnedViews(was, key, pins)
  {
    var n := |eps|;
    forall i | 0 <= i < n
      ensures ViewOf(updated[i]) == Pinned(was[i], key, pins[i])
    {
      assert SlotAfter(eps, was[i], updated[i], key, pins[i], eps[i], true);
      if eps[i].config != null {
        assert MapAfter(eps, was, key, pins, i, n);
        assert pins[i].Some? ==> !Overwritten(eps, pins, i, n);
        assert pins[i].None? ==> !Touched(eps, pins, i, n);
      }
    }
    forall i, j | 0 <= i < j < n && updated[i].config != null
      ensures updated[i].config != updated[j].config
    {
      assert SlotAfter(eps, was[i], updated[i], key, pins[i], eps[i], true);
      assert SlotAfter(eps, was[j], updated[j], key, pins[j], eps[j], true);
      if eps[i].config == null && eps[j].config == null && updated[j].config != null {
        assert updated[i].config.m[key] == pins[i].value && updated[j].config.m[key] == pins[j].value;
      }
    }
  }
}
