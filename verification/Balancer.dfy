/** The balancer without interference: its statistics, its flow ring, endpoint selection and
    one dial with failover. Interleavings with other dialers are the subject of DialRuns. */
module Balancer {
  import opened Wrappers
  import opened Endpoints
  import opened WeightedChoice

  // ----- statistics -----

  datatype Counters = Counters(dials: nat, dialErrors: nat, failovers: nat, bytesUp: nat, bytesDown: nat)

  const ZERO := Counters(0, 0, 0, 0, 0)

  class Stats {
    var m: map<string, Counters>

    constructor ()
      ensures m == map[]
    {
      m := map[];
    }

    /** The row of an endpoint; a row that does not exist yet counts as zero. */
    function Row(id: string): Counters
      reads this
    {
      RowOf(m, id)
    }

    method RecordDial(id: string, failed: bool)
      modifies this
      ensures RowOf(m, id) == old(RowOf(m, id)).(dials := old(RowOf(m, id)).dials + 1,
        dialErrors := old(RowOf(m, id)).dialErrors + if failed then 1 else 0)
      ensures forall k :: k != id ==> RowOf(m, k) == old(RowOf(m, k))
    {
      var e := Row(id);
      e := e.(dials := e.dials + 1);
      if failed {
        e := e.(dialErrors := e.dialErrors + 1);
      }
      m := m[id := e];
    }

    method RecordFailover(id: string)
      modifies this
      ensures RowOf(m, id) == old(RowOf(m, id)).(failovers := old(RowOf(m, id)).failovers + 1)
      ensures forall k :: k != id ==> RowOf(m, k) == old(RowOf(m, k))
    {
      var e := Row(id);
      m := m[id := e.(failovers := e.failovers + 1)];
    }

    /** Counts the bytes of one read or write; a count that is not positive adds nothing. */
    method RecordTraffic(id: string, up: int, down: int)
      modifies this
      ensures RowOf(m, id) == old(RowOf(m, id)).(
        bytesUp := old(RowOf(m, id)).bytesUp + if up > 0 then up else 0,
        bytesDown := old(RowOf(m, id)).bytesDown + if down > 0 then down else 0)
      ensures forall k :: k != id ==> RowOf(m, k) == old(RowOf(m, k))
    {
      var e := Row(id);
      if up > 0 {
        e := e.(bytesUp := e.bytesUp + up);
      }
      if down > 0 {
        e := e.(bytesDown := e.bytesDown + down);
      }
      m := m[id := e];
    }
  }

  // ----- flows -----

  datatype Flow = Flow(id: nat, dest: string, endpointID: string, protocol: string)

  /** The last `n` elements, or all of them. */
  function Last<T>(s: seq<T>, n: nat): seq<T> {
    if |s| <= n then s else s[|s| - n..]
  }

  /** The ring of recent connections. `begun` is every flow ever begun. */
  class Flows {
    var buf: seq<Flow>
    var next: nat
    const capacity: nat
    ghost var begun: seq<Flow>

    ghost predicate Valid()
      reads this
    {
      && buf == Last(begun, capacity)
      && next == |begun|
      && forall i :: 0 <= i < |begun| ==> begun[i].id == i + 1
    }

    constructor (capacity: int)
      ensures Valid() && begun == []
      ensures this.capacity == if capacity <= 0 then 200 else capacity
    {
      this.capacity := if capacity <= 0 then 200 else capacity;
      buf, next, begun := [], 0, [];
    }

    method Begin(dest: string, endpointID: string, protocol: string) returns (fl: Flow)
      requires Valid()
      modifies this
      ensures Valid()
      ensures fl == Flow(|old(begun)| + 1, dest, endpointID, protocol)
      ensures begun == old(begun) + [fl]
    {
      next := next + 1;
      fl := Flow(next, dest, endpointID, protocol);
      buf := buf + [fl];
      if |buf| > capacity {
        buf := buf[|buf| - capacity..];
      }
      begun := begun + [fl];
    }
  }

  // ----- selection -----

  const MAX_DIAL_ATTEMPTS := 4

  predicate IsLive(ep: Endpoint) {
    ep.enabled && ep.status == "ok"
  }

  /** The endpoints a pick may return, in pool order. */
  function Candidates(pool: seq<Endpoint>, excluded: set<string>): seq<Endpoint> {
    if pool == [] then []
    else
      var n := |pool| - 1;
      Candidates(pool[..n], excluded) +
      if IsLive(pool[n]) && pool[n].id !in excluded then [pool[n]] else []
  }

  /** What each strategy promises. The library sort is not stable, so among equal keys any
      endpoint may come first; the weighted one takes the endpoint whose interval holds the
      draw. */
  ghost predicate Chosen(live: seq<Endpoint>, strategy: string, draw: nat, ep: Endpoint) {
    && ep in live
    && (strategy == "weighted" ==> exists i: nat :: i < |live| && Drawn(live, draw % Total(live), i) && ep == live[i])
    && (strategy == "latency" ==> forall e :: e in live ==> ep.latencyMs <= e.latencyMs)
    && (strategy == "priority" ==> forall e :: e in live ==> ep.priority <= e.priority)
    && (strategy != "latency" && strategy != "priority" && strategy != "weighted" ==> ep == live[0])
  }

  lemma {:induction false} CandidatesAre(pool: seq<Endpoint>, excluded: set<string>, ep: Endpoint)
    ensures ep in Candidates(pool, excluded) <==> ep in pool && IsLive(ep) && ep.id !in excluded
  {
    if pool != [] {
      var n := |pool| - 1;
      CandidatesAre(pool[..n], excluded, ep);
      assert pool == pool[..n] + [pool[n]];
    }
  }

  /** `idx` are the places of the enabled, healthy endpoints that are not excluded, in order, and
      `live` is what stands there. */
  ghost predicate InOrder(pool: seq<Endpoint>, excluded: set<string>, idx: seq<nat>, live: seq<Endpoint>) {
    && |idx| == |live|
    && (forall k :: 0 <= k < |idx| ==> idx[k] < |pool| && live[k] == pool[idx[k]])
    && (forall a, b :: 0 <= a < b < |idx| ==> idx[a] < idx[b])
    && (forall i :: 0 <= i < |pool| ==>
          (i in idx <==> pool[i].enabled && pool[i].status == "ok" && pool[i].id !in excluded))
  }

  lemma {:induction false} InOrderGrows(pool: seq<Endpoint>, excluded: set<string>, idx: seq<nat>, live: seq<Endpoint>,
                                        ep: Endpoint)
    requires InOrder(pool, excluded, idx, live)
    ensures if ep.enabled && ep.status == "ok" && ep.id !in excluded
      then InOrder(pool + [ep], excluded, idx + [|pool|], live + [ep])
      else InOrder(pool + [ep], excluded, idx, live)
  {
  }

  /** The candidates are exactly those endpoints, in pool order. */
  lemma {:induction false} CandidatesInOrder(pool: seq<Endpoint>, excluded: set<string>) returns (idx: seq<nat>)
    ensures InOrder(pool, excluded, idx, Candidates(pool, excluded))
  {
    hide InOrder;
    if pool == [] {
      idx := [];
      NoneInOrder(excluded);
    } else {
      var front, ep := pool[..|pool| - 1], pool[|pool| - 1];
      idx := CandidatesInOrder(front, excluded);
      InOrderGrows(front, excluded, idx, Candidates(front, excluded), ep);
      assert pool == front + [ep];
      assert Candidates(front, excluded) + [] == Candidates(front, excluded);
      if IsLive(ep) && ep.id !in excluded {
        idx := idx + [|front|];
      }
    }
  }

  lemma {:induction false} NoneInOrder(excluded: set<string>)
    ensures InOrder([], excluded, [], [])
  {
  }

  /** The first of them is the first such endpoint of the pool. */
  ghost predicate IsFirst(pool: seq<Endpoint>, excluded: set<string>, ep: Endpoint, i: nat) {
    && i < |pool| && pool[i] == ep
    && forall j :: 0 <= j < i ==> !(pool[j].enabled && pool[j].status == "ok" && pool[j].id !in excluded)
  }

  lemma {:induction false} FirstCandidate(pool: seq<Endpoint>, excluded: set<string>) returns (i: nat)
    requires Candidates(pool, excluded) != []
    ensures IsFirst(pool, excluded, Candidates(pool, excluded)[0], i)
  {
    var idx := CandidatesInOrder(pool, excluded);
    i := idx[0];
    assert forall k :: 0 <= k < |idx| ==> idx[k] >= idx[0];
    assert forall j: nat :: j in idx ==> j >= i;
  }

  ghost function LiveIDs(pool: seq<Endpoint>): set<string> {
    set ep | ep in pool && ep.enabled && ep.status == "ok" :: ep.id
  }

  /** `markError`: the first endpoint with the id. */
  function Marked(pool: seq<Endpoint>, id: string): (r: seq<Endpoint>)
    ensures |r| == |pool|
  {
    if pool == [] then []
    else if pool[0].id == id then [pool[0].(status := "error")] + pool[1..]
    else [pool[0]] + Marked(pool[1..], id)
  }

  lemma {:induction false} MarkedFirst(pool: seq<Endpoint>, id: string, i: nat)
    requires i <= |pool| && forall j :: 0 <= j < i ==> pool[j].id != id
    requires i < |pool| ==> pool[i].id == id
    ensures Marked(pool, id) == if i < |pool| then pool[i := pool[i].(status := "error")] else pool
  {
    if 0 < i {
      MarkedFirst(pool[1..], id, i - 1);
    }
  }

  function MarkedAll(pool: seq<Endpoint>, ids: seq<string>): seq<Endpoint> {
    if ids == [] then pool else Marked(MarkedAll(pool, ids[..|ids| - 1]), ids[|ids| - 1])
  }

  /** Marking an id takes no other id out of the live ones, and brings none in. */
  lemma {:induction false} MarkedLiveIDs(pool: seq<Endpoint>, id: string)
    ensures LiveIDs(Marked(pool, id)) - {id} == LiveIDs(pool) - {id}
    ensures LiveIDs(Marked(pool, id)) <= LiveIDs(pool)
  {
    var marked := Marked(pool, id);
    forall ep | ep in marked && IsLive(ep)
      ensures ep in pool
    {
      MarkedMember(pool, id, ep);
    }
    forall ep | ep in pool && IsLive(ep) && ep.id != id
      ensures ep in marked
    {
      MarkedMember(pool, id, ep);
    }
  }

  lemma {:induction false} MarkedMember(pool: seq<Endpoint>, id: string, ep: Endpoint)
    ensures IsLive(ep) && ep in Marked(pool, id) ==> ep in pool
    ensures ep.id != id && ep in pool ==> ep in Marked(pool, id)
  {
    if pool != [] && pool[0].id != id {
      MarkedMember(pool[1..], id, ep);
      assert pool == [pool[0]] + pool[1..];
    } else if pool != [] {
      assert pool == [pool[0]] + pool[1..];
    }
  }

  lemma {:induction false} LiveWasThere(pool: seq<Endpoint>, ids: seq<string>, ep: Endpoint)
    requires IsLive(ep) && ep in MarkedAll(pool, ids)
    ensures ep in pool
  {
    if ids != [] {
      var front := ids[..|ids| - 1];
      MarkedMember(MarkedAll(pool, front), ids[|ids| - 1], ep);
      LiveWasThere(pool, front, ep);
    }
  }

  lemma {:induction false} ChosenWasThere(pool0: seq<Endpoint>, pool: seq<Endpoint>, failed: seq<string>,
                                          strategy: string, draw: nat, ep: Endpoint)
    requires pool == MarkedAll(pool0, failed) && Chosen(Candidates(pool, IDs(failed)), strategy, draw, ep)
    ensures ep in pool0 && ep.enabled && ep.status == "ok"
  {
    CandidatesAre(pool, IDs(failed), ep);
    LiveWasThere(pool0, failed, ep);
  }

  // ----- the balancer -----

  /** `after` is `pool` with the patch applied to its first endpoint with the id. */
  ghost predicate PatchedAt(pool: seq<Endpoint>, id: string, enabled: Option<bool>, priority: Option<int>,
                            i: nat, after: seq<Endpoint>, ep: Endpoint)
    requires i < |pool|
  {
    && (forall j :: 0 <= j < i ==> pool[j].id != id) && pool[i].id == id
    && ep == pool[i].(
         enabled := if enabled.Some? then enabled.value else pool[i].enabled,
         priority := if priority.Some? then priority.value else pool[i].priority)
    && after == pool[i := ep]
  }

  ghost predicate Distinct(ids: seq<string>) {
    forall i, j :: 0 <= i < j < |ids| ==> ids[i] != ids[j]
  }

  ghost function IDs(ids: seq<string>): set<string> {
    set id | id in ids
  }

  lemma {:induction false} DistinctCount(ids: seq<string>)
    requires Distinct(ids)
    ensures |IDs(ids)| == |ids|
  {
    if ids != [] {
      var front, last := ids[..|ids| - 1], ids[|ids| - 1];
      DistinctCount(front);
      assert ids == front + [last];
      assert IDs(ids) == IDs(front) + {last};
      assert last !in IDs(front);
    }
  }

  lemma {:induction false} SubsetCount(a: set<string>, b: set<string>)
    requires a <= b
    ensures |a| <= |b|
    ensures |a| == |b| ==> a == b
  {
    assert b == a + (b - a);
    assert |b| == |a| + |b - a|;
  }

  function Min(a: int, b: int): int {
    if a < b then a else b
  }

  /** How one dial ended. */
  datatype Outcome = Through(id: string) | Direct | DirectFailed | Blocked

  /** A row after a dial. */
  function Attempted(c: Counters, dialled: bool, failed: bool): Counters {
    c.(dials := c.dials + (if dialled then 1 else 0),
       dialErrors := c.dialErrors + (if failed then 1 else 0),
       failovers := c.failovers + (if failed then 1 else 0))
  }

  /** Where a dial stands after some attempts failed. */
  ghost predicate Progress(pool0: seq<Endpoint>, pool: seq<Endpoint>, failed: seq<string>, tried: set<string>) {
    && Distinct(failed) && tried == IDs(failed) && tried <= LiveIDs(pool0)
    && pool == MarkedAll(pool0, failed)
    && LiveIDs(pool) - tried == LiveIDs(pool0) - tried
  }

  lemma {:induction false} PickIsLive(pool0: seq<Endpoint>, pool: seq<Endpoint>, failed: seq<string>,
                                      tried: set<string>, ep: Endpoint)
    requires Progress(pool0, pool, failed, tried)
    requires ep in pool && IsLive(ep) && ep.id !in tried
    ensures ep.id in LiveIDs(pool0) && ep.id !in failed
  {
    assert ep.id in LiveIDs(pool) - tried;
  }

  lemma {:induction false} ProgressStep(pool0: seq<Endpoint>, pool: seq<Endpoint>, failed: seq<string>,
                                        tried: set<string>, id: string)
    requires Progress(pool0, pool, failed, tried)
    requires id in LiveIDs(pool0) && id !in tried
    ensures Progress(pool0, Marked(pool, id), failed + [id], tried + {id})
  {
    hide Marked, LiveIDs, IsLive, IDs, Distinct;
    MarkedLiveIDs(pool, id);
    var next := failed + [id];
    assert next[..|next| - 1] == failed;
    OneMoreID(failed, id);
    LessOfBoth(LiveIDs(Marked(pool, id)), LiveIDs(pool), LiveIDs(pool0), tried, id);
  }

  lemma {:induction false} OneMoreID(ids: seq<string>, id: string)
    requires Distinct(ids) && id !in IDs(ids)
    ensures Distinct(ids + [id]) && IDs(ids + [id]) == IDs(ids) + {id}
  {
    forall i | 0 <= i < |ids|
      ensures ids[i] != id
    {
      assert ids[i] in IDs(ids);
    }
  }

  lemma {:induction false} LessOfBoth(a: set<string>, b: set<string>, c: set<string>, d: set<string>, x: string)
    requires a - {x} == b - {x} && b - d == c - d
    ensures a - (d + {x}) == c - (d + {x})
  {
    forall y
      ensures y in a - (d + {x}) <==> y in c - (d + {x})
    {
      assert y in a - {x} <==> y in b - {x};
      assert y in b - d <==> y in c - d;
    }
  }

  /** No candidate is left, or the attempts are used up. */
  lemma {:induction false} Exhausted(pool0: seq<Endpoint>, pool: seq<Endpoint>, failed: seq<string>, tried: set<string>)
    requires Progress(pool0, pool, failed, tried) && |failed| <= MAX_DIAL_ATTEMPTS
    requires |failed| == MAX_DIAL_ATTEMPTS || Candidates(pool, tried) == []
    ensures |failed| == Min(MAX_DIAL_ATTEMPTS, |LiveIDs(pool0)|)
  {
    DistinctCount(failed);
    SubsetCount(tried, LiveIDs(pool0));
    if |failed| < MAX_DIAL_ATTEMPTS {
      forall ep | ep in pool && IsLive(ep)
        ensures ep.id in tried
      {
        CandidatesAre(pool, tried, ep);
      }
      assert LiveIDs(pool) - tried == {};
      forall x | x in LiveIDs(pool0)
        ensures x in tried
      {
        assert x in LiveIDs(pool) - tried <==> x in LiveIDs(pool0) - tried;
      }
      assert tried == LiveIDs(pool0);
    }
  }

  function RowOf(m: map<string, Counters>, id: string): Counters {
    if id in m then m[id] else ZERO
  }

  /** The rows after a dial whose attempts failed on `failed` and, maybe, succeeded on `through`. */
  ghost predicate Tallied(before: map<string, Counters>, after: map<string, Counters>, failed: seq<string>,
                          through: Option<string>) {
    forall k :: RowOf(after, k) == Attempted(RowOf(before, k), k in failed || through == Some(k), k in failed)
  }

  lemma {:induction false} NoneTallied(m: map<string, Counters>)
    ensures Tallied(m, m, [], None)
  {
  }

  lemma {:induction false} TalliedThrough(before: map<string, Counters>, mid: map<string, Counters>,
                                          after: map<string, Counters>,
                                          failed: seq<string>, id: string)
    requires Tallied(before, mid, failed, None) && id !in failed
    requires RowOf(after, id) == Attempted(RowOf(mid, id), true, false)
    requires forall k :: k != id ==> RowOf(after, k) == RowOf(mid, k)
    ensures Tallied(before, after, failed, Some(id))
  {
  }

  lemma {:induction false} TalliedStep(before: map<string, Counters>, mid: map<string, Counters>,
                                       after: map<string, Counters>,
                                       failed: seq<string>, id: string)
    requires Tallied(before, mid, failed, None) && id !in failed
    requires RowOf(after, id) == Attempted(RowOf(mid, id), true, true)
    requires forall k :: k != id ==> RowOf(after, k) == RowOf(mid, k)
    ensures Tallied(before, after, failed + [id], None)
  {
  }

  class Balancer {
    var endpoints: seq<Endpoint>
    var strategy: string
    var blockDirect: bool
    const stats: Stats
    const flows: Flows

    constructor (strategy: string)
      ensures endpoints == [] && this.strategy == strategy && !blockDirect
      ensures fresh(stats) && fresh(flows) && flows.Valid() && flows.begun == [] && stats.m == map[]
    {
      this.endpoints, this.strategy, this.blockDirect := [], strategy, false;
      stats := new Stats();
      flows := new Flows(200);
    }

    method SetEndpoints(eps: seq<Endpoint>)
      modifies this
      ensures endpoints == eps && strategy == old(strategy) && blockDirect == old(blockDirect)
    {
      endpoints := eps;
    }

    /** Only the first endpoint with the id is patched, and only in the given fields. */
    method PatchEndpoint(id: string, enabled: Option<bool>, priority: Option<int>) returns (r: Option<Endpoint>)
      modifies this
      ensures strategy == old(strategy) && blockDirect == old(blockDirect) && |endpoints| == |old(endpoints)|
      ensures r.None? <==> forall i :: 0 <= i < |endpoints| ==> old(endpoints)[i].id != id
      ensures r.None? ==> endpoints == old(endpoints)
      ensures r.Some? ==> exists i ::
        0 <= i < |endpoints| && PatchedAt(old(endpoints), id, enabled, priority, i, endpoints, r.value)
    {
      for i := 0 to |endpoints|
        invariant endpoints == old(endpoints)
        invariant forall j :: 0 <= j < i ==> endpoints[j].id != id
      {
        if endpoints[i].id != id {
          continue;
        }
        var ep := endpoints[i];
        if enabled.Some? {
          ep := ep.(enabled := enabled.value);
        }
        if priority.Some? {
          ep := ep.(priority := priority.value);
        }
        endpoints := endpoints[i := ep];
        assert PatchedAt(old(endpoints), id, enabled, priority, i, endpoints, ep);
        return Some(ep);
      }
      return None;
    }

    /** The endpoint a strategy sorts to the front. */
    method Front(live: seq<Endpoint>, byLatency: bool) returns (ep: Endpoint)
      requires live != []
      ensures ep in live
      ensures forall e :: e in live ==> if byLatency then ep.latencyMs <= e.latencyMs else ep.priority <= e.priority
    {
      ep := live[0];
      for i := 1 to |live|
        invariant ep in live
        invariant forall j :: 0 <= j < i ==>
          if byLatency then ep.latencyMs <= live[j].latencyMs else ep.priority <= live[j].priority
      {
        if (if byLatency then live[i].latencyMs < ep.latencyMs else live[i].priority < ep.priority) {
          ep := live[i];
        }
      }
    }

    /** `pickExcluding`; `draw` is the random source of the weighted strategy. */
    method PickExcluding(excluded: set<string>, draw: nat) returns (r: Option<Endpoint>)
      ensures r.None? <==> forall ep :: ep in endpoints ==> !(ep.enabled && ep.status == "ok" && ep.id !in excluded)
      ensures r.Some? ==>
        r.value in endpoints && r.value.enabled && r.value.status == "ok" && r.value.id !in excluded
      ensures r.Some? ==> forall ep :: ep in endpoints && ep.enabled && ep.status == "ok" && ep.id !in excluded ==>
        && (strategy == "latency" ==> r.value.latencyMs <= ep.latencyMs)
        && (strategy == "priority" ==> r.value.priority <= ep.priority)
      ensures r.Some? && strategy !in {"latency", "priority", "weighted"} ==>
        exists i: nat :: IsFirst(endpoints, excluded, r.value, i)
      ensures r.None? <==> Candidates(endpoints, excluded) == []
      ensures r.Some? ==> Chosen(Candidates(endpoints, excluded), strategy, draw, r.value)
    {
      var live: seq<Endpoint> := [];
      for i := 0 to |endpoints|
        invariant live == Candidates(endpoints[..i], excluded)
      {
        assert endpoints[..i + 1][..i] == endpoints[..i];
        var ep := endpoints[i];
        if !ep.enabled || ep.status != "ok" {
          continue;
        }
        if ep.id in excluded {
          continue;
        }
        live := live + [ep];
      }
      assert endpoints[..|endpoints|] == endpoints;
      forall ep
        ensures ep in live <==> ep in endpoints && ep.enabled && ep.status == "ok" && ep.id !in excluded
      {
        CandidatesAre(endpoints, excluded, ep);
      }
      if live == [] {
        return None;
      }
      ghost var first := FirstCandidate(endpoints, excluded);
      var ep: Endpoint;
      if strategy == "latency" {
        ep := Front(live, true);
      } else if strategy == "priority" {
        ep := Front(live, false);
      } else if strategy == "weighted" {
        var i := WeightedRandom(live, draw % Total(live));
        ep := live[i];
      } else {
        ep := live[0];
      }
      return Some(ep);
    }

    /** `Pick` considers the whole pool. */
    method Pick(draw: nat) returns (r: Option<Endpoint>)
      ensures r.None? <==> forall ep :: ep in endpoints ==> !(ep.enabled && ep.status == "ok")
      ensures r.Some? ==> r.value in endpoints && r.value.enabled && r.value.status == "ok"
      ensures r.Some? ==> Chosen(Candidates(endpoints, {}), strategy, draw, r.value)
    {
      r := PickExcluding({}, draw);
    }

    method MarkError(id: string)
      modifies this
      ensures endpoints == Marked(old(endpoints), id) && strategy == old(strategy) && blockDirect == old(blockDirect)
    {
      for i := 0 to |endpoints|
        invariant endpoints == old(endpoints) && strategy == old(strategy) && blockDirect == old(blockDirect)
        invariant forall j :: 0 <= j < i ==> endpoints[j].id != id
      {
        if endpoints[i].id == id {
          MarkedFirst(endpoints, id, i);
          endpoints := endpoints[i := endpoints[i].(status := "error")];
          return;
        }
      }
      MarkedFirst(endpoints, id, |endpoints|);
    }

    /** One failed attempt: the endpoint is marked and the failover counted. */
    method Fail(id: string)
      modifies this, stats
      ensures endpoints == Marked(old(endpoints), id) && strategy == old(strategy) && blockDirect == old(blockDirect)
      ensures RowOf(stats.m, id) == Attempted(old(RowOf(stats.m, id)), true, true)
      ensures forall k :: k != id ==> RowOf(stats.m, k) == old(RowOf(stats.m, k))
    {
      stats.RecordDial(id, true);
      MarkError(id);
      stats.RecordFailover(id);
    }

    /** One pass of the loop: pick, dial, and on failure mark the endpoint and count it. */
    method Attempt(ghost pool0: seq<Endpoint>, ghost rows0: map<string, Counters>, ghost failed: seq<string>,
                   tried: set<string>, works: bool, draw: nat)
      returns (ep: Option<Endpoint>)
      requires Progress(pool0, endpoints, failed, tried) && Tallied(rows0, stats.m, failed, None)
      modifies this, stats
      ensures strategy == old(strategy) && blockDirect == old(blockDirect)
      ensures ep.None? ==> endpoints == old(endpoints) && stats.m == old(stats.m) && Candidates(endpoints, tried) == []
      ensures ep.Some? ==> ep.value.id in LiveIDs(pool0) && ep.value.id !in failed
      ensures ep.Some? ==> Chosen(Candidates(old(endpoints), tried), strategy, draw, ep.value)
      ensures ep.Some? && works ==> endpoints == old(endpoints) && Tallied(rows0, stats.m, failed, Some(ep.value.id))
      ensures ep.Some? && !works ==>
        && Progress(pool0, endpoints, failed + [ep.value.id], tried + {ep.value.id})
        && Tallied(rows0, stats.m, failed + [ep.value.id], None)
    {
      ep := PickExcluding(tried, draw);
      if ep.None? {
        return;
      }
      var id := ep.value.id;
      CandidatesAre(endpoints, tried, ep.value);
      PickIsLive(pool0, endpoints, failed, tried, ep.value);
      if works {
        stats.RecordDial(id, false);
        TalliedThrough(rows0, old(stats.m), stats.m, failed, id);
      } else {
        ProgressStep(pool0, endpoints, failed, tried, id);
        Fail(id);
        TalliedStep(rows0, old(stats.m), stats.m, failed, id);
      }
    }

    /** The loop of `DialContext`: up to four endpoints, each excluded once its dial failed.
        `works[a]` says whether the dial of attempt `a` succeeds, `draw[a]` is its random
        draw; the flow of a successful dial is begun by the caller. */
    method TryEndpoints(works: seq<bool>, draw: seq<nat>) returns (through: Option<Endpoint>, ghost failed: seq<string>)
      requires |works| == |draw| == MAX_DIAL_ATTEMPTS
      modifies this, stats
      ensures Progress(old(endpoints), endpoints, failed, IDs(failed)) && |failed| <= MAX_DIAL_ATTEMPTS
      ensures strategy == old(strategy) && blockDirect == old(blockDirect)
      ensures forall a :: 0 <= a < |failed| ==> !works[a]
      ensures match through
              case Some(ep) => ep.id in LiveIDs(old(endpoints)) && ep.id !in failed && |failed| < MAX_DIAL_ATTEMPTS &&
                works[|failed|]
              case None => |failed| == Min(MAX_DIAL_ATTEMPTS, |LiveIDs(old(endpoints))|)
      ensures through.Some? ==> Chosen(Candidates(endpoints, IDs(failed)), strategy, draw[|failed|], through.value)
      ensures Tallied(old(stats.m), stats.m, failed, if through.Some? then Some(through.value.id) else None)
    {
      hide Chosen, Candidates, LiveIDs, Tallied;
      failed, through := [], None;
      NoneTallied(stats.m);
      var tried: set<string> := {};
      for attempt := 0 to MAX_DIAL_ATTEMPTS
        invariant Progress(old(endpoints), endpoints, failed, tried) && |failed| == attempt
        invariant strategy == old(strategy) && blockDirect == old(blockDirect)
        invariant forall a :: 0 <= a < |failed| ==> !works[a]
        invariant Tallied(old(stats.m), stats.m, failed, None)
      {
        var ep := Attempt(old(endpoints), old(stats.m), failed, tried, works[attempt], draw[attempt]);
        if ep.None? {
          Exhausted(old(endpoints), endpoints, failed, tried);
          return;
        }
        if works[attempt] {
          return ep, failed;
        }
        failed, tried := failed + [ep.value.id], tried + {ep.value.id};
      }
      Exhausted(old(endpoints), endpoints, failed, tried);
    }

    /** `DialContext`. `failed` lists the endpoints whose dial failed, in order: they are
        distinct and were live; a direct dial, or its refusal, comes only after
        min(4, live ids) of them failed. */
    method DialContext(dest: string, works: seq<bool>, directWorks: bool, draw: seq<nat>)
      returns (out: Outcome, ghost failed: seq<string>)
      requires flows.Valid() && |works| == |draw| == MAX_DIAL_ATTEMPTS
      modifies this, stats, flows
      ensures flows.Valid()
      ensures |failed| <= 4 && Distinct(failed) && IDs(failed) <= LiveIDs(old(endpoints))
      ensures endpoints == MarkedAll(old(endpoints), failed) && strategy == old(strategy) &&
        blockDirect == old(blockDirect)
      ensures forall a :: 0 <= a < |failed| ==> !works[a]
      ensures out.Through? ==> out.id in LiveIDs(old(endpoints)) && out.id !in failed
      ensures out.Through? ==> |failed| < 4 && works[|failed|]
      ensures !out.Through? ==> |failed| == Min(4, |LiveIDs(old(endpoints))|)
      ensures !out.Through? ==> out == if blockDirect then Blocked else if directWorks then Direct else DirectFailed
      ensures Tallied(old(stats.m), stats.m, failed, if out.Through? then Some(out.id) else None)
      ensures match out
              case Through(id) =>
                exists ep ::
                  && ep in old(endpoints) && ep.id == id && ep.enabled && ep.status == "ok"
                  && Chosen(Candidates(endpoints, IDs(failed)), strategy, draw[|failed|], ep)
                  && flows.begun == old(flows.begun) + [Flow(|flows.begun|, dest, id, ep.protocol)]
              case Direct => flows.begun == old(flows.begun) + [Flow(|flows.begun|, dest, "", "direct")]
              case Blocked => flows.begun == old(flows.begun) + [Flow(|flows.begun|, dest, "", "blocked-direct")]
              case DirectFailed => flows.begun == old(flows.begun)
    {
      hide Chosen, Candidates, MarkedAll, LiveIDs, Tallied;
      var through;
      through, failed := TryEndpoints(works, draw);
      if through.Some? {
        ChosenWasThere(old(endpoints), endpoints, failed, strategy, draw[|failed|], through.value);
        var fl := flows.Begin(dest, through.value.id, through.value.protocol);
        return Through(through.value.id), failed;
      }
      if blockDirect {
        var fl := flows.Begin(dest, "", "blocked-direct");
        return Blocked, failed;
      }
      if directWorks {
        var fl := flows.Begin(dest, "", "direct");
        return Direct, failed;
      }
      return DirectFailed, failed;
    }
  }
}
