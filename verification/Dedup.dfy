/** How the endpoint pool is put together at startup: duplicates are dropped, IDs get their
    source's namespace, and what was saved before the restart is restored. */
module Dedup {
  import opened Bytes

  datatype Endpoint = Endpoint(id: string, protocol: string, address: string, rawURI: string, source: string,
                               latencyMs: int, status: string, enabled: bool, priority: int)

  function CanonKey(ep: Endpoint): string {
    ep.protocol + "|" + ep.address
  }

  predicate IsNamespace(source: string) {
    source != "" && source != "default" && source != "sidecars"
  }

  /** What a kept endpoint becomes in the pool. */
  function Admitted(ep: Endpoint, source: string, saved: map<string, Endpoint>): Endpoint {
    var e := if ep.source == "" then ep.(source := source) else ep;
    var n := if IsNamespace(source) then e.(id := source + "/" + e.id) else e;
    if n.rawURI !in saved then n
    else
      var s := saved[n.rawURI];
      n.(latencyMs := s.latencyMs, status := s.status, enabled := s.enabled,
         priority := if s.priority != 0 then s.priority else n.priority)
  }

  /** What endpoint `ep` of a source is as `e` in the pool: the same server under the source's
      namespace, as the saved state has it or else as it came. */
  predicate Enters(ep: Endpoint, source: string, saved: map<string, Endpoint>, e: Endpoint) {
    && e.protocol == ep.protocol && e.address == ep.address && e.rawURI == ep.rawURI
    && e.id == (if source in {"", "default", "sidecars"} then ep.id else source + "/" + ep.id)
    && e.source == (if ep.source == "" then source else ep.source)
    && (ep.rawURI !in saved ==>
          && e.latencyMs == ep.latencyMs && e.status == ep.status
          && e.enabled == ep.enabled && e.priority == ep.priority)
    && (ep.rawURI in saved ==>
          var s := saved[ep.rawURI];
          && e.latencyMs == s.latencyMs && e.status == s.status && e.enabled == s.enabled
          && e.priority == if s.priority == 0 then ep.priority else s.priority)
  }

  lemma {:induction false} AdmittedEnters(ep: Endpoint, source: string, saved: map<string, Endpoint>)
    ensures Enters(ep, source, saved, Admitted(ep, source, saved))
  {
  }

  // ----- which endpoints of a batch are kept -----

  ghost predicate Within(kept: seq<nat>, n: nat) {
    forall k :: 0 <= k < |kept| ==> kept[k] < n
  }

  /** Endpoint `i` repeats an address already in the pool, or one kept earlier in the batch. */
  ghost predicate Repeats(eps: seq<Endpoint>, seen: set<string>, kept: seq<nat>, i: nat)
    requires i < |eps| && Within(kept, |eps|)
  {
    || eps[i].rawURI in seen
    || exists j :: j in kept && (eps[j].rawURI == eps[i].rawURI || CanonKey(eps[j]) == CanonKey(eps[i]))
  }

  /** The positions kept among the first `n`. */
  ghost function Kept(eps: seq<Endpoint>, seen: set<string>, n: nat): (kept: seq<nat>)
    requires n <= |eps|
    ensures Within(kept, n)
  {
    if n == 0 then []
    else
      var kept := Kept(eps, seen, n - 1);
      if Repeats(eps, seen, kept, n - 1) then kept else kept + [n - 1]
  }

  ghost function UrisAt(eps: seq<Endpoint>, kept: seq<nat>): set<string>
    requires Within(kept, |eps|)
  {
    set j | j in kept :: eps[j].rawURI
  }

  ghost function KeysAt(eps: seq<Endpoint>, kept: seq<nat>): set<string>
    requires Within(kept, |eps|)
  {
    set j | j in kept :: CanonKey(eps[j])
  }

  ghost function Additions(eps: seq<Endpoint>, kept: seq<nat>, source: string,
                           saved: map<string, Endpoint>): (added: seq<Endpoint>)
    requires Within(kept, |eps|)
    ensures |added| == |kept|
    ensures forall k :: 0 <= k < |kept| ==> added[k] == Admitted(eps[kept[k]], source, saved)
  {
    seq(|kept|, k requires 0 <= k < |kept| => Admitted(eps[kept[k]], source, saved))
  }

  /** The pool keeps the batch's order. */
  lemma {:induction false} KeptInOrder(eps: seq<Endpoint>, seen: set<string>, n: nat)
    requires n <= |eps|
    ensures forall a, b :: 0 <= a < b < |Kept(eps, seen, n)| ==> Kept(eps, seen, n)[a] < Kept(eps, seen, n)[b]
  {
    if n > 0 {
      KeptInOrder(eps, seen, n - 1);
    }
  }

  lemma {:induction false} KeptGrows(eps: seq<Endpoint>, seen: set<string>, i: nat, n: nat)
    requires i <= n <= |eps|
    ensures forall j :: j in Kept(eps, seen, n) && j < i <==> j in Kept(eps, seen, i)
  {
    if i < n {
      KeptGrows(eps, seen, i, n - 1);
    }
  }

  /** An endpoint is dropped exactly when it has a witness: its URI is in the pool already, or
      an earlier endpoint of the batch that was kept has its URI or its protocol and address. */
  lemma {:induction false} DroppedIffWitness(eps: seq<Endpoint>, seen: set<string>, n: nat, i: nat)
    requires i < n <= |eps|
    ensures i !in Kept(eps, seen, n) <==>
      || eps[i].rawURI in seen
      || exists j ::
        j in Kept(eps, seen, n) && j < i && (eps[j].rawURI == eps[i].rawURI || CanonKey(eps[j]) == CanonKey(eps[i]))
  {
    KeptGrows(eps, seen, i, n);
    KeptGrows(eps, seen, i + 1, n);
    var before := Kept(eps, seen, i);
    assert i in Kept(eps, seen, i + 1) <==> !Repeats(eps, seen, before, i);
    assert forall j :: j in before <==> j in Kept(eps, seen, n) && j < i;
  }

  /** What one batch adds has URIs new to the pool and distinct, and distinct keys. */
  lemma {:induction false} KeptDistinct(eps: seq<Endpoint>, seen: set<string>, i: nat, j: nat)
    requires i in Kept(eps, seen, |eps|)
    ensures eps[i].rawURI !in seen
    ensures j in Kept(eps, seen, |eps|) && j != i ==>
      eps[i].rawURI != eps[j].rawURI && CanonKey(eps[i]) != CanonKey(eps[j])
  {
    DroppedIffWitness(eps, seen, |eps|, i);
    if j in Kept(eps, seen, |eps|) {
      DroppedIffWitness(eps, seen, |eps|, j);
    }
  }

  /** Equal keys mean equal protocol and address, as protocol names hold no bar. */
  lemma {:induction false} KeyIsThePair(a: Endpoint, b: Endpoint)
    requires '|' !in a.protocol && '|' !in b.protocol
    ensures CanonKey(a) == CanonKey(b) <==> a.protocol == b.protocol && a.address == b.address
  {
    CutAppend(a.protocol, '|', a.address);
    CutAppend(b.protocol, '|', b.address);
    assert CanonKey(a) == a.protocol + ['|'] + a.address && CanonKey(b) == b.protocol + ['|'] + b.address;
  }

  // ----- the pool -----

  ghost function Uris(eps: seq<Endpoint>): set<string> {
    set ep | ep in eps :: ep.rawURI
  }

  ghost predicate DistinctUris(eps: seq<Endpoint>) {
    forall i, j :: 0 <= i < j < |eps| ==> eps[i].rawURI != eps[j].rawURI
  }

  class Pool {
    var seen: set<string>
    var endpoints: seq<Endpoint>

    ghost predicate Valid()
      reads this
    {
      seen == Uris(endpoints) && DistinctUris(endpoints)
    }

    constructor ()
      ensures Valid() && endpoints == []
    {
      seen, endpoints := {}, [];
    }

    /** `addEndpoints`. */
    method AddEndpoints(eps: seq<Endpoint>, source: string, saved: map<string, Endpoint>)
      requires Valid()
      modifies this
      ensures Valid()
      ensures endpoints == old(endpoints) + Additions(eps, Kept(eps, old(seen), |eps|), source, saved)
      ensures var kept := Kept(eps, old(seen), |eps|);
        forall k :: 0 <= k < |kept| ==> Enters(eps[kept[k]], source, saved, endpoints[|old(endpoints)| + k])
    {
      hide Enters, Kept, Additions;
      ghost var seen0, endpoints0 := seen, endpoints;
      var canon: set<string> := {};
      NothingKeptYet(eps, seen, endpoints, source, saved);
      for i := 0 to |eps|
        invariant Progress(eps, seen0, endpoints0, i, source, saved, seen, canon, endpoints)
      {
        var ep := eps[i];
        ProgressStep(eps, seen0, endpoints0, i, source, saved, seen, canon, endpoints);
        if ep.rawURI in seen {
          continue;
        }
        var ck := CanonKey(ep);
        if ck in canon {
          continue;
        }
        canon := canon + {ck};
        seen := seen + {ep.rawURI};
        var admitted := Admit(ep, source, saved);
        endpoints := endpoints + [admitted];
      }
      StaysDistinct(endpoints0, eps, source, saved);
      KeptEnter(eps, Kept(eps, seen0, |eps|), endpoints0, source, saved);
    }
  }

  lemma {:induction false} KeptEnter(eps: seq<Endpoint>, kept: seq<nat>, pool0: seq<Endpoint>, source: string,
                                     saved: map<string, Endpoint>)
    requires Within(kept, |eps|)
    ensures var pool := pool0 + Additions(eps, kept, source, saved);
      forall k :: 0 <= k < |kept| ==> Enters(eps[kept[k]], source, saved, pool[|pool0| + k])
  {
    hide Enters, Admitted;
    forall k | 0 <= k < |kept|
      ensures Enters(eps[kept[k]], source, saved, Additions(eps, kept, source, saved)[k])
    {
      AdmittedEnters(eps[kept[k]], source, saved);
    }
  }

  /** One turn of the loop, in terms of the two sets it looks at. */
  lemma {:induction false} KeptStep(eps: seq<Endpoint>, seen: set<string>, i: nat, source: string,
                                    saved: map<string, Endpoint>)
    requires i < |eps|
    ensures var kept, kept' := Kept(eps, seen, i), Kept(eps, seen, i + 1);
      if eps[i].rawURI in seen + UrisAt(eps, kept) || CanonKey(eps[i]) in KeysAt(eps, kept) then kept' == kept
      else
        && UrisAt(eps, kept') == UrisAt(eps, kept) + {eps[i].rawURI}
        && KeysAt(eps, kept') == KeysAt(eps, kept) + {CanonKey(eps[i])}
        && Additions(eps, kept', source, saved) ==
          Additions(eps, kept, source, saved) + [Admitted(eps[i], source, saved)]
  {
    var kept := Kept(eps, seen, i);
    assert Repeats(eps, seen, kept, i) <==>
      eps[i].rawURI in seen + UrisAt(eps, kept) || CanonKey(eps[i]) in KeysAt(eps, kept);
    if !Repeats(eps, seen, kept, i) {
      AppendOne(eps, kept, i, source, saved);
    }
  }

  /** The loop's state after the first `i` endpoints. */
  ghost predicate Progress(eps: seq<Endpoint>, seen0: set<string>, pool0: seq<Endpoint>, i: nat, source: string,
                           saved: map<string, Endpoint>,
                           seen: set<string>, canon: set<string>, pool: seq<Endpoint>)
    requires i <= |eps|
  {
    var kept := Kept(eps, seen0, i);
    && seen == seen0 + UrisAt(eps, kept)
    && canon == KeysAt(eps, kept)
    && pool == pool0 + Additions(eps, kept, source, saved)
  }

  lemma {:induction false} NothingKeptYet(eps: seq<Endpoint>, seen: set<string>, pool: seq<Endpoint>, source: string,
                                          saved: map<string, Endpoint>)
    ensures Progress(eps, seen, pool, 0, source, saved, seen, {}, pool)
  {
  }

  lemma {:induction false} ProgressStep(eps: seq<Endpoint>, seen0: set<string>, pool0: seq<Endpoint>, i: nat,
                                        source: string, saved: map<string, Endpoint>,
                                        seen: set<string>, canon: set<string>, pool: seq<Endpoint>)
    requires i < |eps| && Progress(eps, seen0, pool0, i, source, saved, seen, canon, pool)
    ensures var ep := eps[i];
      if ep.rawURI in seen || CanonKey(ep) in canon then
        Progress(eps, seen0, pool0, i + 1, source, saved, seen, canon, pool)
      else
        Progress(eps, seen0, pool0, i + 1, source, saved,
                 seen + {ep.rawURI}, canon + {CanonKey(ep)}, pool + [Admitted(ep, source, saved)])
  {
    hide Admitted, Kept, UrisAt, KeysAt, CanonKey;
    KeptStep(eps, seen0, i, source, saved);
    var kept, x := Kept(eps, seen0, i), Admitted(eps[i], source, saved);
    assert pool + [x] == pool0 + (Additions(eps, kept, source, saved) + [x]);
    assert seen + {eps[i].rawURI} == seen0 + (UrisAt(eps, kept) + {eps[i].rawURI});
  }

  lemma {:induction false} AppendOne(eps: seq<Endpoint>, kept: seq<nat>, i: nat, source: string,
                                     saved: map<string, Endpoint>)
    requires i < |eps| && Within(kept, |eps|)
    ensures UrisAt(eps, kept + [i]) == UrisAt(eps, kept) + {eps[i].rawURI}
    ensures KeysAt(eps, kept + [i]) == KeysAt(eps, kept) + {CanonKey(eps[i])}
    ensures Additions(eps, kept + [i], source, saved) ==
      Additions(eps, kept, source, saved) + [Admitted(eps[i], source, saved)]
  {
  }

  /** What happens to an endpoint that is kept. */
  method Admit(ep: Endpoint, source: string, saved: map<string, Endpoint>) returns (e: Endpoint)
    ensures e == Admitted(ep, source, saved)
  {
    e := ep;
    if e.source == "" {
      e := e.(source := source);
    }
    if source != "" && source != "default" && source != "sidecars" {
      e := e.(id := source + "/" + e.id);
    }
    if e.rawURI in saved {
      var s := saved[e.rawURI];
      e := e.(latencyMs := s.latencyMs, status := s.status, enabled := s.enabled);
      if s.priority != 0 {
        e := e.(priority := s.priority);
      }
    }
  }

  /** Any batch keeps the URIs of the whole pool distinct and the seen set exact. */
  lemma {:induction false} StaysDistinct(pool: seq<Endpoint>, eps: seq<Endpoint>, source: string,
                                         saved: map<string, Endpoint>)
    requires DistinctUris(pool)
    ensures var kept := Kept(eps, Uris(pool), |eps|);
      var grown := pool + Additions(eps, kept, source, saved);
      DistinctUris(grown) && Uris(grown) == Uris(pool) + UrisAt(eps, kept)
  {
    var seen := Uris(pool);
    var kept := Kept(eps, seen, |eps|);
    var added := Additions(eps, kept, source, saved);
    var grown := pool + added;
    KeptInOrder(eps, seen, |eps|);
    assert forall k :: 0 <= k < |added| ==> added[k].rawURI == eps[kept[k]].rawURI;
    forall i, j | 0 <= i < j < |grown|
      ensures grown[i].rawURI != grown[j].rawURI
    {
      if j >= |pool| {
        var b := kept[j - |pool|];
        KeptDistinct(eps, seen, b, if i < |pool| then b else kept[i - |pool|]);
        if i < |pool| {
          assert pool[i] in pool;
        }
      }
    }
    assert forall ep :: ep in grown <==> ep in pool || ep in added;
    forall u
      ensures u in Uris(added) <==> u in UrisAt(eps, kept)
    {
      if u in UrisAt(eps, kept) {
        var j :| j in kept && eps[j].rawURI == u;
        var k :| 0 <= k < |kept| && kept[k] == j;
        assert added[k] in added;
      }
    }
  }

  // ----- any sequence of batches -----

  datatype Batch = Batch(eps: seq<Endpoint>, source: string)

  ghost function Grown(pool: seq<Endpoint>, b: Batch, saved: map<string, Endpoint>): seq<Endpoint> {
    pool + Additions(b.eps, Kept(b.eps, Uris(pool), |b.eps|), b.source, saved)
  }

  ghost function PoolAfter(batches: seq<Batch>, saved: map<string, Endpoint>): seq<Endpoint> {
    if batches == [] then [] else Grown(PoolAfter(batches[..|batches| - 1], saved), batches[|batches| - 1], saved)
  }

  lemma {:induction false} PoolDistinct(batches: seq<Batch>, saved: map<string, Endpoint>)
    ensures DistinctUris(PoolAfter(batches, saved))
  {
    if batches != [] {
      PoolDistinct(batches[..|batches| - 1], saved);
      var b := batches[|batches| - 1];
      StaysDistinct(PoolAfter(batches[..|batches| - 1], saved), b.eps, b.source, saved);
    }
  }

  /** The pool endpoint that stands for `ep`. */
  ghost predicate StandsFor(e: Endpoint, ep: Endpoint) {
    e.rawURI == ep.rawURI || CanonKey(e) == CanonKey(ep)
  }

  /** Whatever the batches, each endpoint of each is in the pool or stood for by one with its
      URI or its protocol and address. */
  lemma {:induction false} AllStoodFor(batches: seq<Batch>, saved: map<string, Endpoint>, k: nat, i: nat)
    requires k < |batches| && i < |batches[k].eps|
    ensures exists e :: e in PoolAfter(batches, saved) && StandsFor(e, batches[k].eps[i])
  {
    var front, b := batches[..|batches| - 1], batches[|batches| - 1];
    var pool := PoolAfter(front, saved);
    if k < |front| {
      assert front[k] == batches[k];
      AllStoodFor(front, saved, k, i);
      var e :| e in pool && StandsFor(e, batches[k].eps[i]);
      assert e in PoolAfter(batches, saved);
    } else {
      var e := Standing(pool, b, saved, i);
      assert e in PoolAfter(batches, saved);
    }
  }

  lemma {:induction false} Standing(pool: seq<Endpoint>, b: Batch, saved: map<string, Endpoint>, i: nat)
    returns (e: Endpoint)
    requires i < |b.eps|
    ensures e in pool || e in Additions(b.eps, Kept(b.eps, Uris(pool), |b.eps|), b.source, saved)
    ensures StandsFor(e, b.eps[i])
  {
    if b.eps[i].rawURI in Uris(pool) {
      e :| e in pool && e.rawURI == b.eps[i].rawURI;
    } else {
      var j := Witness(b.eps, Uris(pool), i);
      e := AddedFor(b.eps, Kept(b.eps, Uris(pool), |b.eps|), j, b.source, saved);
    }
  }

  lemma {:induction false} Witness(eps: seq<Endpoint>, seen: set<string>, i: nat) returns (j: nat)
    requires i < |eps| && eps[i].rawURI !in seen
    ensures j in Kept(eps, seen, |eps|) && j < |eps| && StandsFor(eps[j], eps[i])
  {
    DroppedIffWitness(eps, seen, |eps|, i);
    var kept := Kept(eps, seen, |eps|);
    j := i;
    if i !in kept {
      j :| j in kept && j < i && (eps[j].rawURI == eps[i].rawURI || CanonKey(eps[j]) == CanonKey(eps[i]));
    }
  }

  lemma {:induction false} AddedFor(eps: seq<Endpoint>, kept: seq<nat>, j: nat, source: string,
                                    saved: map<string, Endpoint>) returns (e: Endpoint)
    requires Within(kept, |eps|) && j in kept
    ensures e in Additions(eps, kept, source, saved) && j < |eps| && e == Admitted(eps[j], source, saved)
  {
    var k :| 0 <= k < |kept| && kept[k] == j;
    e := Additions(eps, kept, source, saved)[k];
  }

  /** Where an endpoint of the pool came from. */
  lemma {:induction false} Provenance(batches: seq<Batch>, saved: map<string, Endpoint>, e: Endpoint)
    returns (k: nat, i: nat)
    requires e in PoolAfter(batches, saved)
    ensures k < |batches| && i < |batches[k].eps| && e == Admitted(batches[k].eps[i], batches[k].source, saved)
    ensures Enters(batches[k].eps[i], batches[k].source, saved, e)
  {
    var front, b := batches[..|batches| - 1], batches[|batches| - 1];
    var pool := PoolAfter(front, saved);
    if e in pool {
      k, i := Provenance(front, saved, e);
      assert front[k] == batches[k];
      AdmittedEnters(batches[k].eps[i], batches[k].source, saved);
    } else {
      var kept := Kept(b.eps, Uris(pool), |b.eps|);
      var added := Additions(b.eps, kept, b.source, saved);
      var j :| 0 <= j < |added| && added[j] == e;
      k, i := |batches| - 1, kept[j];
      AdmittedEnters(b.eps[i], b.source, saved);
    }
  }

  lemma {:induction false} GrownByOne(pool: seq<Endpoint>, ep: Endpoint, source: string, saved: map<string, Endpoint>)
    requires ep.rawURI !in Uris(pool)
    ensures Grown(pool, Batch([ep], source), saved) == pool + [Admitted(ep, source, saved)]
  {
    hide Admitted, Uris;
    var eps, seen := [ep], Uris(pool);
    assert Kept(eps, seen, 0) == [];
    assert Kept(eps, seen, 1) == [0];
    assert Additions(eps, [0], source, saved) == [Admitted(ep, source, saved)];
  }

  // ----- servers -----

  ghost function Keys(pool: seq<Endpoint>): set<string> {
    set ep | ep in pool :: CanonKey(ep)
  }

  /** Neither the pool nor an endpoint kept earlier in the batch has the URI of endpoint `j`. */
  ghost predicate NewUri(pool: seq<Endpoint>, b: Batch, j: nat)
    requires j < |b.eps|
  {
    && b.eps[j].rawURI !in Uris(pool)
    && forall l :: l in Kept(b.eps, Uris(pool), j) ==> b.eps[l].rawURI != b.eps[j].rawURI
  }

  /** The batch has an endpoint of that protocol and address whose URI is new. */
  ghost predicate Brings(pool: seq<Endpoint>, b: Batch, key: string) {
    exists j: nat :: j < |b.eps| && CanonKey(b.eps[j]) == key && NewUri(pool, b, j)
  }

  lemma {:induction false} KeptUriIsNew(pool: seq<Endpoint>, b: Batch, j: nat)
    requires j < |b.eps| && j in Kept(b.eps, Uris(pool), |b.eps|)
    ensures NewUri(pool, b, j)
  {
    hide CanonKey, Kept, Uris;
    KeptDistinct(b.eps, Uris(pool), j, j);
    KeptGrows(b.eps, Uris(pool), j, |b.eps|);
    forall l | l in Kept(b.eps, Uris(pool), j)
      ensures b.eps[l].rawURI != b.eps[j].rawURI
    {
      KeptDistinct(b.eps, Uris(pool), j, l);
    }
  }

  /** With a new URI the server is kept, through this endpoint or an earlier one. */
  lemma {:induction false} NewUriKeepsServer(pool: seq<Endpoint>, b: Batch, j: nat) returns (l: nat)
    requires j < |b.eps| && NewUri(pool, b, j)
    ensures l in Kept(b.eps, Uris(pool), |b.eps|) && l < |b.eps| && CanonKey(b.eps[l]) == CanonKey(b.eps[j])
  {
    hide CanonKey, Kept, Uris;
    var kept := Kept(b.eps, Uris(pool), |b.eps|);
    l := j;
    if j !in kept {
      DroppedIffWitness(b.eps, Uris(pool), |b.eps|, j);
      KeptGrows(b.eps, Uris(pool), j, |b.eps|);
      l :| l in kept && l < j && (b.eps[l].rawURI == b.eps[j].rawURI || CanonKey(b.eps[l]) == CanonKey(b.eps[j]));
      assert l in Kept(b.eps, Uris(pool), j);
    }
  }

  lemma {:induction false} AdmittedKey(ep: Endpoint, source: string, saved: map<string, Endpoint>)
    ensures CanonKey(Admitted(ep, source, saved)) == CanonKey(ep)
  {
  }

  /** A batch leaves a server in the pool exactly when the pool had it or the batch has it
      under a URI that is new. */
  lemma {:induction false} ServerKeptIff(pool: seq<Endpoint>, b: Batch, saved: map<string, Endpoint>, key: string)
    ensures key in Keys(Grown(pool, b, saved)) <==> key in Keys(pool) || Brings(pool, b, key)
  {
    hide Kept, NewUri, Admitted, CanonKey;
    var kept := Kept(b.eps, Uris(pool), |b.eps|);
    var added := Additions(b.eps, kept, b.source, saved);
    if e :| e in added && CanonKey(e) == key {
      var k :| 0 <= k < |added| && added[k] == e;
      KeptUriIsNew(pool, b, kept[k]);
      AdmittedKey(b.eps[kept[k]], b.source, saved);
    }
    if j: nat :| j < |b.eps| && CanonKey(b.eps[j]) == key && NewUri(pool, b, j) {
      var l := NewUriKeepsServer(pool, b, j);
      var e := AddedFor(b.eps, kept, l, b.source, saved);
      AdmittedKey(b.eps[l], b.source, saved);
      assert e in Grown(pool, b, saved);
    }
    assert forall e :: e in Grown(pool, b, saved) <==> e in pool || e in added;
  }

  ghost predicate UriNamesServer(eps: seq<Endpoint>) {
    forall i, j :: 0 <= i < |eps| && 0 <= j < |eps| && eps[i].rawURI == eps[j].rawURI ==>
      CanonKey(eps[i]) == CanonKey(eps[j])
  }

  /** Where a URI goes with one server within the batch, as in a batch of one, only the URIs of
      the pool count. */
  lemma {:induction false} BringsIff(pool: seq<Endpoint>, b: Batch, key: string)
    requires UriNamesServer(b.eps)
    ensures Brings(pool, b, key) <==>
      exists j: nat :: j < |b.eps| && CanonKey(b.eps[j]) == key && b.eps[j].rawURI !in Uris(pool)
  {
    hide CanonKey;
    if j: nat :| j < |b.eps| && CanonKey(b.eps[j]) == key && b.eps[j].rawURI !in Uris(pool) {
      var l := Witness(b.eps, Uris(pool), j);
      KeptUriIsNew(pool, b, l);
      assert CanonKey(b.eps[l]) == key;
    }
  }

  ghost predicate BringsAt(batches: seq<Batch>, saved: map<string, Endpoint>, k: nat, key: string)
    requires k < |batches|
  {
    Brings(PoolAfter(batches[..k], saved), batches[k], key)
  }

  lemma {:induction false} BringsInFront(batches: seq<Batch>, saved: map<string, Endpoint>, n: nat, k: nat, key: string)
    requires k < n <= |batches|
    ensures BringsAt(batches[..n], saved, k, key) <==> BringsAt(batches, saved, k, key)
  {
    hide Brings, PoolAfter;
    assert batches[..n][..k] == batches[..k];
  }

  /** A server is in the pool exactly when some batch brought it under a URI that was new then. */
  lemma {:induction false} ServersOfPool(batches: seq<Batch>, saved: map<string, Endpoint>, key: string)
    ensures key in Keys(PoolAfter(batches, saved)) <==>
      exists k: nat :: k < |batches| && BringsAt(batches, saved, k, key)
  {
    hide Brings, Grown;
    if batches != [] {
      var n := |batches| - 1;
      ServersOfPool(batches[..n], saved, key);
      forall k: nat | k < n
        ensures BringsAt(batches[..n], saved, k, key) <==> BringsAt(batches, saved, k, key)
      {
        BringsInFront(batches, saved, n, k, key);
      }
      ServerKeptIff(PoolAfter(batches[..n], saved), batches[n], saved, key);
      assert BringsAt(batches, saved, n, key) <==> Brings(PoolAfter(batches[..n], saved), batches[n], key);
    }
  }

  /** Two batches give a URI to one server only. */
  ghost predicate UriAgrees(b: Batch, c: Batch) {
    forall i, j :: 0 <= i < |b.eps| && 0 <= j < |c.eps| && b.eps[i].rawURI == c.eps[j].rawURI ==>
      CanonKey(b.eps[i]) == CanonKey(c.eps[j])
  }

  /** No server is lost where, over the whole run, equal URIs mean equal servers. */
  lemma {:induction false} NoServerLost(batches: seq<Batch>, saved: map<string, Endpoint>, k: nat, i: nat)
    requires forall l, m :: 0 <= l < |batches| && 0 <= m < |batches| ==> UriAgrees(batches[l], batches[m])
    requires k < |batches| && i < |batches[k].eps|
    ensures CanonKey(batches[k].eps[i]) in Keys(PoolAfter(batches, saved))
  {
    hide CanonKey, Admitted, PoolAfter;
    var ep := batches[k].eps[i];
    AllStoodFor(batches, saved, k, i);
    var e :| e in PoolAfter(batches, saved) && StandsFor(e, ep);
    var l, j := Provenance(batches, saved, e);
    AdmittedKey(batches[l].eps[j], batches[l].source, saved);
    AdmittedId(batches[l].eps[j], batches[l].source, saved);
    assert UriAgrees(batches[l], batches[k]);
  }

  lemma {:induction false} GrownByNone(pool: seq<Endpoint>, ep: Endpoint, source: string, saved: map<string, Endpoint>)
    requires ep.rawURI in Uris(pool)
    ensures Grown(pool, Batch([ep], source), saved) == pool
  {
    ReaddingIsNoOpIff([ep], Uris(pool), 1);
  }

  /** Two servers under one URI, as two WireGuard files of one name: the second is lost. */
  lemma {:induction false} SameUriLoses(a: Endpoint, b: Endpoint, s: string, t: string, saved: map<string, Endpoint>)
    requires a.rawURI == b.rawURI && CanonKey(a) != CanonKey(b)
    ensures var pool := PoolAfter([Batch([a], s), Batch([b], t)], saved);
      pool == [Admitted(a, s, saved)] && CanonKey(b) !in Keys(pool)
  {
    hide Grown, Admitted, CanonKey;
    var first := [Batch([a], s)];
    var batches := [Batch([a], s), Batch([b], t)];
    GrownByOne([], a, s, saved);
    assert first[..0] == [] && PoolAfter([], saved) == [];
    assert PoolAfter(first, saved) == [Admitted(a, s, saved)];
    AdmittedId(a, s, saved);
    AdmittedKey(a, s, saved);
    assert Admitted(a, s, saved) in PoolAfter(first, saved);
    GrownByNone(PoolAfter(first, saved), b, t, saved);
    assert batches[..1] == first;
  }

  // ----- IDs -----

  function PoolId(ep: Endpoint, source: string): string {
    if IsNamespace(source) then source + "/" + ep.id else ep.id
  }

  lemma {:induction false} AdmittedId(ep: Endpoint, source: string, saved: map<string, Endpoint>)
    ensures Admitted(ep, source, saved).id == PoolId(ep, source) && Admitted(ep, source, saved).rawURI == ep.rawURI
  {
  }

  ghost function Ids(pool: seq<Endpoint>): set<string> {
    set ep | ep in pool :: ep.id
  }

  ghost predicate DistinctIds(pool: seq<Endpoint>) {
    forall i, j :: 0 <= i < j < |pool| ==> pool[i].id != pool[j].id
  }

  /** Within a batch an ID stands for one protocol and address. */
  ghost predicate IdNamesServer(eps: seq<Endpoint>) {
    forall i, j :: 0 <= i < |eps| && 0 <= j < |eps| ==> eps[i].id == eps[j].id ==> CanonKey(eps[i]) == CanonKey(eps[j])
  }

  /** Within a batch a protocol and address, and a URI, go with one ID. */
  ghost predicate ServerHasOneId(eps: seq<Endpoint>) {
    forall i, j :: 0 <= i < |eps| && 0 <= j < |eps| ==> StandsFor(eps[i], eps[j]) ==> eps[i].id == eps[j].id
  }

  /** `genID` makes such IDs, as protocol names hold neither a bar nor a colon. */
  lemma {:induction false} GeneratedIdIsTheKey(a: Endpoint, b: Endpoint)
    requires a.id == a.protocol + ":" + a.address && b.id == b.protocol + ":" + b.address
    requires '|' !in a.protocol && '|' !in b.protocol && ':' !in a.protocol && ':' !in b.protocol
    ensures CanonKey(a) == CanonKey(b) <==> a.id == b.id
  {
    KeyIsThePair(a, b);
    CutAppend(a.protocol, ':', a.address);
    CutAppend(b.protocol, ':', b.address);
    assert a.id == a.protocol + [':'] + a.address && b.id == b.protocol + [':'] + b.address;
  }

  /** No endpoint of the batch whose URI is new to the pool brings an ID the pool has. */
  ghost predicate NoClash(pool: seq<Endpoint>, b: Batch) {
    forall i :: 0 <= i < |b.eps| && b.eps[i].rawURI !in Uris(pool) ==> PoolId(b.eps[i], b.source) !in Ids(pool)
  }

  lemma {:induction false} SameIdSamePoolId(a: Endpoint, b: Endpoint, source: string)
    ensures PoolId(a, source) == PoolId(b, source) <==> a.id == b.id
  {
    if IsNamespace(source) {
      assert PoolId(a, source)[|source| + 1..] == a.id && PoolId(b, source)[|source| + 1..] == b.id;
    }
  }

  /** A batch without a clash keeps the IDs apart. */
  lemma {:induction false} NoClashKeepsIds(pool: seq<Endpoint>, b: Batch, saved: map<string, Endpoint>)
    requires DistinctIds(pool) && IdNamesServer(b.eps) && NoClash(pool, b)
    ensures DistinctIds(Grown(pool, b, saved))
  {
    hide Admitted, PoolId, CanonKey;
    var seen := Uris(pool);
    var kept, grown := Kept(b.eps, seen, |b.eps|), Grown(pool, b, saved);
    KeptInOrder(b.eps, seen, |b.eps|);
    forall k: nat | k < |kept|
      ensures grown[|pool| + k].id == PoolId(b.eps[kept[k]], b.source) && grown[|pool| + k].id !in Ids(pool)
    {
      AdmittedId(b.eps[kept[k]], b.source, saved);
      KeptDistinct(b.eps, seen, kept[k], kept[k]);
    }
    forall i, j | 0 <= i < j < |grown|
      ensures grown[i].id != grown[j].id
    {
      if i >= |pool| {
        var p, q := kept[i - |pool|], kept[j - |pool|];
        KeptDistinct(b.eps, seen, p, q);
        SameIdSamePoolId(b.eps[p], b.eps[q], b.source);
      } else if j >= |pool| {
        assert pool[i] in pool;
      }
    }
  }

  /** A clash puts one ID into the pool twice. */
  lemma {:induction false} ClashRepeatsId(pool: seq<Endpoint>, b: Batch, saved: map<string, Endpoint>, i: nat)
    requires ServerHasOneId(b.eps) && i < |b.eps|
    requires b.eps[i].rawURI !in Uris(pool) && PoolId(b.eps[i], b.source) in Ids(pool)
    ensures !DistinctIds(Grown(pool, b, saved))
  {
    var kept, grown := Kept(b.eps, Uris(pool), |b.eps|), Grown(pool, b, saved);
    var j := Witness(b.eps, Uris(pool), i);
    SameIdSamePoolId(b.eps[i], b.eps[j], b.source);
    var k :| 0 <= k < |kept| && kept[k] == j;
    var e :| e in pool && e.id == PoolId(b.eps[i], b.source);
    var l :| 0 <= l < |pool| && pool[l] == e;
    assert grown[l] == e && grown[|pool| + k] == Admitted(b.eps[j], b.source, saved);
  }

  lemma {:induction false} BatchKeepsIdsIff(pool: seq<Endpoint>, b: Batch, saved: map<string, Endpoint>)
    requires IdNamesServer(b.eps) && ServerHasOneId(b.eps)
    ensures DistinctIds(Grown(pool, b, saved)) <==> DistinctIds(pool) && NoClash(pool, b)
  {
    PrefixOfDistinct(pool, Grown(pool, b, saved));
    if NoClash(pool, b) {
      if DistinctIds(pool) {
        NoClashKeepsIds(pool, b, saved);
      }
    } else {
      var i :| 0 <= i < |b.eps| && b.eps[i].rawURI !in Uris(pool) && PoolId(b.eps[i], b.source) in Ids(pool);
      ClashRepeatsId(pool, b, saved, i);
    }
  }

  /** The batch at `k` brings no ID that the pool has by then. */
  ghost predicate CleanAt(batches: seq<Batch>, saved: map<string, Endpoint>, k: nat)
    requires k < |batches|
  {
    NoClash(PoolAfter(batches[..k], saved), batches[k])
  }

  lemma {:induction false} CleanInFront(batches: seq<Batch>, saved: map<string, Endpoint>, n: nat, k: nat)
    requires k < n <= |batches|
    ensures CleanAt(batches[..n], saved, k) <==> CleanAt(batches, saved, k)
  {
    hide NoClash, PoolAfter;
    assert batches[..n][..k] == batches[..k];
  }

  /** The IDs of the pool are pairwise different if at every batch no endpoint whose URI is new
      brought an ID that was there already; and, where a server has one ID within a batch, only
      then. */
  lemma {:induction false} PoolIdsDistinctIff(batches: seq<Batch>, saved: map<string, Endpoint>)
    requires forall k :: 0 <= k < |batches| ==> IdNamesServer(batches[k].eps)
    ensures (forall k :: 0 <= k < |batches| ==> CleanAt(batches, saved, k)) ==> DistinctIds(PoolAfter(batches, saved))
    ensures (forall k :: 0 <= k < |batches| ==> ServerHasOneId(batches[k].eps)) ==>
      (DistinctIds(PoolAfter(batches, saved)) <==> forall k :: 0 <= k < |batches| ==> CleanAt(batches, saved, k))
  {
    hide IdNamesServer, ServerHasOneId, NoClash, Grown;
    if batches != [] {
      var n := |batches| - 1;
      PoolIdsDistinctIff(batches[..n], saved);
      forall k | 0 <= k < n
        ensures CleanAt(batches[..n], saved, k) <==> CleanAt(batches, saved, k)
      {
        CleanInFront(batches, saved, n, k);
      }
      LastBatch(batches, saved);
    } else {
      assert DistinctIds([]);
    }
  }

  lemma {:induction false} LastBatch(batches: seq<Batch>, saved: map<string, Endpoint>)
    requires batches != [] && IdNamesServer(batches[|batches| - 1].eps)
    ensures var n := |batches| - 1;
      var before, after := DistinctIds(PoolAfter(batches[..n], saved)), DistinctIds(PoolAfter(batches, saved));
      && (before && CleanAt(batches, saved, n) ==> after)
      && (ServerHasOneId(batches[n].eps) ==> (after <==> before && CleanAt(batches, saved, n)))
  {
    hide IdNamesServer, ServerHasOneId, NoClash, Grown, DistinctIds;
    var n := |batches| - 1;
    var pool := PoolAfter(batches[..n], saved);
    if DistinctIds(pool) && NoClash(pool, batches[n]) {
      NoClashKeepsIds(pool, batches[n], saved);
    }
    if ServerHasOneId(batches[n].eps) {
      BatchKeepsIdsIff(pool, batches[n], saved);
    }
  }

  lemma {:induction false} PrefixOfDistinct(pool: seq<Endpoint>, grown: seq<Endpoint>)
    requires pool <= grown
    ensures DistinctIds(grown) ==> DistinctIds(pool)
  {
    assert forall i :: 0 <= i < |pool| ==> pool[i] == grown[i];
  }

  /** A source read twice, as from a file and from a URL: two links to one server that differ
      in their label both enter the pool, under one ID. */
  lemma {:induction false} TwoReadsClash(a: Endpoint, b: Endpoint, source: string, saved: map<string, Endpoint>)
    requires a.id == b.id && a.rawURI != b.rawURI
    ensures var pool := PoolAfter([Batch([a], source), Batch([b], source)], saved);
      |pool| == 2 && pool[0].rawURI == a.rawURI && pool[1].rawURI == b.rawURI && pool[0].id == pool[1].id
  {
    hide Grown;
    var first := [Batch([a], source)];
    var batches := [Batch([a], source), Batch([b], source)];
    GrownByOne([], a, source, saved);
    assert first[..0] == [] && PoolAfter([], saved) == [];
    assert PoolAfter(first, saved) == [Admitted(a, source, saved)];
    GrownByOne(PoolAfter(first, saved), b, source, saved);
    assert batches[..1] == first;
  }

  // ----- IDs of different sources -----

  function Namespace(source: string): string {
    if IsNamespace(source) then source else ""
  }

  /** An ID as the parsers make it: a protocol name, a colon, an address. */
  predicate HasScheme(id: string) {
    var i := IndexByte(id, ':');
    i >= 0 && '/' !in id[..i]
  }

  predicate PlainSource(source: string) {
    '/' !in source && ':' !in source
  }

  /** Equal pool IDs come from one namespace and equal IDs. */
  lemma {:induction false} NamespacesApart(s: string, a: Endpoint, s': string, b: Endpoint)
    requires PlainSource(s) && PlainSource(s') && HasScheme(a.id) && HasScheme(b.id)
    ensures PoolId(a, s) == PoolId(b, s') <==> Namespace(s) == Namespace(s') && a.id == b.id
  {
    if IsNamespace(s) && IsNamespace(s') {
      CutAppend(s, '/', a.id);
      CutAppend(s', '/', b.id);
      assert PoolId(a, s) == s + ['/'] + a.id && PoolId(b, s') == s' + ['/'] + b.id;
    } else if IsNamespace(s) {
      BareApart(s, a.id, b.id);
    } else if IsNamespace(s') {
      BareApart(s', b.id, a.id);
    }
  }

  lemma {:induction false} BareApart(s: string, id: string, bare: string)
    requires PlainSource(s) && HasScheme(bare)
    ensures s + "/" + id != bare
  {
    var t, i := s + "/" + id, IndexByte(bare, ':');
    if i < |s| {
      assert t[i] == s[i] && s[i] in s && bare[i] == ':';
    } else {
      assert t[|s|] == '/' && |s| < |bare|;
      assert |s| < i ==> bare[..i][|s|] in bare[..i];
    }
  }

  /** Batch `l` repeats no ID of an earlier batch of its namespace under another URI. */
  ghost predicate RepeatsNoId(batches: seq<Batch>, k: nat, l: nat)
    requires k < l < |batches|
  {
    Namespace(batches[k].source) == Namespace(batches[l].source) ==>
      forall i, j :: 0 <= i < |batches[k].eps| && 0 <= j < |batches[l].eps| ==>
        batches[k].eps[i].id == batches[l].eps[j].id ==> batches[k].eps[i].rawURI == batches[l].eps[j].rawURI
  }

  /** Sources never meet: with plain source names, IDs are pairwise different if they are so
      within each namespace. */
  lemma {:induction false} SourcesNeverMeet(batches: seq<Batch>, saved: map<string, Endpoint>)
    requires forall k :: 0 <= k < |batches| ==> IdNamesServer(batches[k].eps) && PlainSource(batches[k].source)
    requires forall k, i :: 0 <= k < |batches| && 0 <= i < |batches[k].eps| ==> HasScheme(batches[k].eps[i].id)
    requires forall k: nat, l: nat :: k < l < |batches| ==> RepeatsNoId(batches, k, l)
    ensures DistinctIds(PoolAfter(batches, saved))
  {
    hide IdNamesServer, ServerHasOneId, HasScheme, PlainSource, RepeatsNoId, NoClash, PoolAfter;
    forall l | 0 <= l < |batches|
      ensures CleanAt(batches, saved, l)
    {
      BatchNeverMeets(batches, saved, l);
    }
    PoolIdsDistinctIff(batches, saved);
  }

  lemma {:induction false} BatchNeverMeets(batches: seq<Batch>, saved: map<string, Endpoint>, l: nat)
    requires l < |batches|
    requires forall k :: 0 <= k < |batches| ==> PlainSource(batches[k].source)
    requires forall k, i :: 0 <= k < |batches| && 0 <= i < |batches[k].eps| ==> HasScheme(batches[k].eps[i].id)
    requires forall k: nat :: k < l ==> RepeatsNoId(batches, k, l)
    ensures NoClash(PoolAfter(batches[..l], saved), batches[l])
  {
    var pool, b := PoolAfter(batches[..l], saved), batches[l];
    forall j: nat | j < |b.eps| && PoolId(b.eps[j], b.source) in Ids(pool)
      ensures b.eps[j].rawURI in Uris(pool)
    {
      MetIsTheSame(batches, saved, l, j);
    }
  }

  lemma {:induction false} MetIsTheSame(batches: seq<Batch>, saved: map<string, Endpoint>, l: nat, j: nat)
    requires l < |batches| && j < |batches[l].eps|
    requires forall k :: 0 <= k < |batches| ==> PlainSource(batches[k].source)
    requires forall k, i :: 0 <= k < |batches| && 0 <= i < |batches[k].eps| ==> HasScheme(batches[k].eps[i].id)
    requires forall k: nat :: k < l ==> RepeatsNoId(batches, k, l)
    requires PoolId(batches[l].eps[j], batches[l].source) in Ids(PoolAfter(batches[..l], saved))
    ensures batches[l].eps[j].rawURI in Uris(PoolAfter(batches[..l], saved))
  {
    hide HasScheme, PlainSource, PoolAfter, Namespace;
    var pool, b := PoolAfter(batches[..l], saved), batches[l];
    var e :| e in pool && e.id == PoolId(b.eps[j], b.source);
    var k, i := Provenance(batches[..l], saved, e);
    assert batches[..l][k] == batches[k];
    NamespacesApart(batches[k].source, batches[k].eps[i], b.source, b.eps[j]);
    assert RepeatsNoId(batches, k, l);
  }

  // ----- adding a batch again -----

  /** Adding a batch a second time adds nothing exactly when all its URIs are in the pool by
      then. */
  lemma {:induction false} ReaddingIsNoOpIff(eps: seq<Endpoint>, seen: set<string>, n: nat)
    requires n <= |eps|
    ensures Kept(eps, seen, n) == [] <==> forall i :: 0 <= i < n ==> eps[i].rawURI in seen
  {
    if n > 0 {
      ReaddingIsNoOpIff(eps, seen, n - 1);
    }
  }

  /** Two lines for one server: the second is dropped the first time and added the second. */
  lemma {:induction false} ReaddingAdds()
    ensures exists eps: seq<Endpoint> ::
      var once := Kept(eps, {}, |eps|);
      once == [0] && Kept(eps, UrisAt(eps, once), |eps|) == [1]
  {
    var a := Endpoint("a", "vless", "h:1", "x", "", 0, "", true, 0);
    var b := a.(id := "b", rawURI := "y");
    assert "y"[0] != "x"[0];
    SecondReadAdds(a, b);
    assert Kept([a, b], {}, |[a, b]|) == [0];
  }

  lemma {:induction false} SecondReadAdds(a: Endpoint, b: Endpoint)
    requires CanonKey(a) == CanonKey(b) && a.rawURI != b.rawURI
    ensures Kept([a, b], {}, 2) == [0] && Kept([a, b], UrisAt([a, b], [0]), 2) == [1]
  {
    hide CanonKey, Kept, Repeats;
    KeptOfTwo(a, b, {});
    assert UrisAt([a, b], [0]) == {a.rawURI} by {
      assert 0 in [0 as nat];
    }
    KeptOfTwo(a, b, {a.rawURI});
  }

  lemma {:induction false} KeptOfTwo(a: Endpoint, b: Endpoint, seen: set<string>)
    requires CanonKey(a) == CanonKey(b) && b.rawURI !in seen
    ensures Kept([a, b], seen, 2) == if a.rawURI in seen then [1] else [0]
  {
    hide CanonKey;
    var eps := [a, b];
    assert Kept(eps, seen, 0) == [];
    if a.rawURI in seen {
      assert Kept(eps, seen, 1) == [];
    } else {
      assert Kept(eps, seen, 1) == [0];
      assert 0 in [0 as nat];
      assert Repeats(eps, seen, [0], 1);
    }
  }

  // ----- a restart -----

  /** `stateByURI`: the last saved endpoint with each URI. */
  function StateByUri(eps: seq<Endpoint>): map<string, Endpoint> {
    if eps == [] then map[]
    else
      var last := eps[|eps| - 1];
      StateByUri(eps[..|eps| - 1])[last.rawURI := last]
  }

  /** Endpoint `i` is the last that has the URI. */
  ghost predicate IsLast(eps: seq<Endpoint>, uri: string, i: nat) {
    i < |eps| && eps[i].rawURI == uri && forall j :: i < j < |eps| ==> eps[j].rawURI != uri
  }

  /** A URI is saved exactly when an endpoint has it, and what is saved is the last such. */
  method LoadState(eps: seq<Endpoint>) returns (saved: map<string, Endpoint>)
    ensures saved.Keys == Uris(eps)
    ensures forall uri, i: nat :: IsLast(eps, uri, i) ==> uri in saved && saved[uri] == eps[i]
    ensures saved == StateByUri(eps)
  {
    saved := map[];
    for i := 0 to |eps|
      invariant saved == StateByUri(eps[..i])
    {
      assert eps[..i + 1][..i] == eps[..i];
      saved := saved[eps[i].rawURI := eps[i]];
    }
    assert eps[..|eps|] == eps;
    forall uri, i: nat | IsLast(eps, uri, i)
      ensures uri in saved && saved[uri] == eps[i]
    {
      LastIsSaved(eps, uri, i);
    }
    SavedUris(eps);
  }

  lemma {:induction false} LastIsSaved(eps: seq<Endpoint>, uri: string, i: nat)
    requires IsLast(eps, uri, i)
    ensures uri in StateByUri(eps) && StateByUri(eps)[uri] == eps[i]
  {
    var front := eps[..|eps| - 1];
    if i < |front| {
      assert front[i] == eps[i];
      LastIsSaved(front, uri, i);
    }
  }

  lemma {:induction false} SavedUris(eps: seq<Endpoint>)
    ensures StateByUri(eps).Keys == Uris(eps)
  {
    if eps != [] {
      var front, last := eps[..|eps| - 1], eps[|eps| - 1];
      SavedUris(front);
      assert eps == front + [last];
      assert forall ep :: ep in eps <==> ep in front || ep == last;
    }
  }

  /** The two differ at most in what is saved over a restart. */
  predicate SameButState(a: Endpoint, b: Endpoint) {
    a == b.(latencyMs := a.latencyMs, status := a.status, enabled := a.enabled, priority := a.priority)
  }

  /** The user and the prober change nothing else, and the pool is saved as it is then. */
  ghost predicate Patched(pool: seq<Endpoint>, patched: seq<Endpoint>) {
    |patched| == |pool| && forall i :: 0 <= i < |pool| ==> SameButState(patched[i], pool[i])
  }

  /** At every index the two pools hold the same endpoint, admitted under different states. */
  ghost predicate SameOrigin(p: seq<Endpoint>, s: map<string, Endpoint>, q: seq<Endpoint>, t: map<string, Endpoint>) {
    && |p| == |q|
    && forall i :: 0 <= i < |p| ==> Born(p[i], s, q[i], t)
  }

  ghost predicate Born(e: Endpoint, s: map<string, Endpoint>, f: Endpoint, t: map<string, Endpoint>) {
    exists ep, source :: e == Admitted(ep, source, s) && f == Admitted(ep, source, t)
  }

  lemma {:induction false} BornAlike(e: Endpoint, s: map<string, Endpoint>, f: Endpoint, t: map<string, Endpoint>)
    requires Born(e, s, f, t)
    ensures SameButState(e, f)
  {
  }

  lemma {:induction false} SameUris(p: seq<Endpoint>, q: seq<Endpoint>)
    requires |p| == |q| && forall i :: 0 <= i < |p| ==> p[i].rawURI == q[i].rawURI
    ensures Uris(p) == Uris(q) && (DistinctUris(p) ==> DistinctUris(q))
  {
    forall u
      ensures u in Uris(p) <==> u in Uris(q)
    {
      if i :| 0 <= i < |p| && p[i].rawURI == u {
        assert p[i] in p && q[i] in q;
      }
    }
  }

  lemma {:induction false} NothingYet(s: map<string, Endpoint>, t: map<string, Endpoint>)
    ensures SameOrigin([], s, [], t)
  {
  }

  /** What was saved has no say in which endpoints are kept, nor in their order. */
  lemma {:induction false} StateKeepsOrder(batches: seq<Batch>, s: map<string, Endpoint>, t: map<string, Endpoint>)
    ensures SameOrigin(PoolAfter(batches, s), s, PoolAfter(batches, t), t)
  {
    hide SameOrigin, Grown;
    if batches == [] {
      NothingYet(s, t);
    } else {
      var front, b := batches[..|batches| - 1], batches[|batches| - 1];
      var p, q := PoolAfter(front, s), PoolAfter(front, t);
      StateKeepsOrder(front, s, t);
      SameOriginSameUris(p, s, q, t);
      GrownKeepsOrigin(p, s, q, t, b);
    }
  }

  lemma {:induction false} GrownKeepsOrigin(p: seq<Endpoint>, s: map<string, Endpoint>, q: seq<Endpoint>,
                                            t: map<string, Endpoint>, b: Batch)
    requires SameOrigin(p, s, q, t) && Uris(p) == Uris(q)
    ensures SameOrigin(Grown(p, b, s), s, Grown(q, b, t), t)
  {
    hide Admitted, Kept, Uris, Born;
    var kept := Kept(b.eps, Uris(p), |b.eps|);
    var p', q' := Grown(p, b, s), Grown(q, b, t);
    assert |p'| == |q'| == |p| + |kept|;
    forall i | 0 <= i < |p'|
      ensures Born(p'[i], s, q'[i], t)
    {
      if i < |p| {
        assert p'[i] == p[i] && q'[i] == q[i];
      } else {
        AdmittedIsBorn(b.eps[kept[i - |p|]], b.source, s, t);
      }
    }
  }

  lemma {:induction false} AdmittedIsBorn(ep: Endpoint, source: string, s: map<string, Endpoint>,
                                          t: map<string, Endpoint>)
    ensures Born(Admitted(ep, source, s), s, Admitted(ep, source, t), t)
  {
  }

  lemma {:induction false} SameOriginSameUris(p: seq<Endpoint>, s: map<string, Endpoint>, q: seq<Endpoint>,
                                              t: map<string, Endpoint>)
    requires SameOrigin(p, s, q, t)
    ensures Uris(p) == Uris(q)
  {
    hide Born, Uris;
    forall i | 0 <= i < |p|
      ensures p[i].rawURI == q[i].rawURI
    {
      BornAlike(p[i], s, q[i], t);
    }
    SameUris(p, q);
  }

  /** A start from nothing but the same batches. */
  ghost function Unsaved(batches: seq<Batch>): seq<Endpoint> {
    PoolAfter(batches, map[])
  }

  /** What becomes of `e` over a restart, for an endpoint whose unsaved self is `born`. */
  predicate Restored(again: Endpoint, e: Endpoint, born: Endpoint) {
    && again == e.(priority := if e.priority != 0 then e.priority else born.priority)
    && (again == e <==> e.priority != 0 || born.priority == 0)
  }

  lemma {:induction false} RestoredAt(batches: seq<Batch>, saved: map<string, Endpoint>, patched: seq<Endpoint>, i: nat)
    requires Patched(PoolAfter(batches, saved), patched) && i < |patched|
    ensures var again := PoolAfter(batches, StateByUri(patched));
      |again| == |patched| == |Unsaved(batches)| && Restored(again[i], patched[i], Unsaved(batches)[i])
  {
    hide Admitted, PoolAfter, Born;
    var pool, state := PoolAfter(batches, saved), StateByUri(patched);
    var again := PoolAfter(batches, state);
    PoolDistinct(batches, saved);
    SameUris(pool, patched);
    LastIsSaved(patched, patched[i].rawURI, i);
    StateKeepsOrder(batches, saved, state);
    StateKeepsOrder(batches, map[], state);
    BornAlike(pool[i], saved, again[i], state);
    BornAgain(Unsaved(batches)[i], again[i], state);
    assert again[i].rawURI == patched[i].rawURI;
  }

  /** Restarting with the same batches on the state of the patched pool gives that pool again,
      endpoint by endpoint: switches, statuses and latencies return, and priorities too, exactly
      unless one was set to 0 on an endpoint that is born with another. */
  lemma {:induction false} RestartRestores(batches: seq<Batch>, saved: map<string, Endpoint>, patched: seq<Endpoint>)
    requires Patched(PoolAfter(batches, saved), patched)
    ensures var again := PoolAfter(batches, StateByUri(patched));
      && |again| == |patched| == |Unsaved(batches)|
      && forall i :: 0 <= i < |patched| ==> Restored(again[i], patched[i], Unsaved(batches)[i])
  {
    hide Restored, Patched, PoolAfter;
    var state := StateByUri(patched);
    StateKeepsOrder(batches, saved, state);
    StateKeepsOrder(batches, map[], state);
    PatchedLength(PoolAfter(batches, saved), patched);
    forall i | 0 <= i < |patched|
      ensures Restored(PoolAfter(batches, state)[i], patched[i], Unsaved(batches)[i])
    {
      RestoredAt(batches, saved, patched, i);
    }
  }

  lemma {:induction false} PatchedLength(pool: seq<Endpoint>, patched: seq<Endpoint>)
    requires Patched(pool, patched)
    ensures |patched| == |pool|
  {
  }

  lemma {:induction false} BornAgain(e: Endpoint, f: Endpoint, t: map<string, Endpoint>)
    requires Born(e, map[], f, t) && f.rawURI in t
    ensures var s := t[f.rawURI];
      && f.latencyMs == s.latencyMs && f.status == s.status && f.enabled == s.enabled
      && f.priority == if s.priority != 0 then s.priority else e.priority
  {
  }

  /** A sidecar is born with a priority of at least 1, so a patch to 0 is undone. */
  lemma {:induction false} PatchToZeroIsUndone(born: Endpoint, source: string)
    requires born.priority >= 1
    ensures var batches := [Batch([born], source)];
      var pool := PoolAfter(batches, map[]);
      |pool| == 1 && PoolAfter(batches, StateByUri([pool[0].(priority := 0)])) == pool
  {
    hide Grown, Admitted;
    var batches := [Batch([born], source)];
    GrownByOne([], born, source, map[]);
    assert batches[..0] == [] && PoolAfter([], map[]) == [];
    var pool := PoolAfter(batches, map[]);
    assert pool == [Admitted(born, source, map[])];
    PlainPriority(born, source);
    RestoredAt(batches, map[], [pool[0].(priority := 0)], 0);
    assert Unsaved(batches) == pool;
  }

  lemma {:induction false} PlainPriority(ep: Endpoint, source: string)
    ensures Admitted(ep, source, map[]).priority == ep.priority
  {
  }
}
