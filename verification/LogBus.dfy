/** The log bus: a ring per level, the merged snapshot, and the writer that cuts a byte
    stream into events. */
module LogBus {
  import opened Wrappers
  import opened Bytes

  datatype Event = Event(ts: int, level: string, source: string, message: string)

  /** The ring an event belongs to: everything that is neither error nor warn is info. */
  datatype Class = Info | Warn | Error

  function ClassOf(e: Event): Class {
    if e.level == "error" then Error else if e.level == "warn" then Warn else Info
  }

  /** The events of one class, in order. */
  function Of(log: seq<Event>, c: Class): seq<Event> {
    if log == [] then []
    else Of(log[..|log| - 1], c) + if ClassOf(log[|log| - 1]) == c then [log[|log| - 1]] else []
  }

  function Last(s: seq<Event>, n: nat): seq<Event> {
    if |s| <= n then s else s[|s| - n..]
  }

  /** What `Publish` stores: a missing time is now, a missing level is info. */
  function Normal(e: Event, now: int): Event {
    e.(ts := if e.ts == 0 then now else e.ts, level := if e.level == "" then "info" else e.level)
  }

  /** `pushRing`: a full ring shifts by one place. */
  function PushRing(buf: seq<Event>, e: Event, max: nat): seq<Event>
    requires max > 0
  {
    if |buf| >= max then buf[1..] + [e] else buf + [e]
  }

  /** Of more than `max` events the last `max`. */
  function Newest(s: seq<Event>, max: nat): seq<Event> {
    s[if |s| > max then |s| - max else 0..]
  }

  lemma {:induction false} PushIsNewest(buf: seq<Event>, e: Event, max: nat)
    requires max > 0 && |buf| <= max
    ensures PushRing(buf, e, max) == Newest(buf + [e], max)
  {
  }

  lemma {:induction false} PushKeepsLast(s: seq<Event>, e: Event, max: nat)
    requires max > 0
    ensures PushRing(Last(s, max), e, max) == Last(s + [e], max)
  {
  }

  /** One more event moves one ring and leaves the others alone. */
  lemma {:induction false} RingsStep(log: seq<Event>, e: Event, max: nat)
    requires max > 0
    ensures forall c ::
      var ring := Last(Of(log, c), max);
      Last(Of(log + [e], c), max) == if c == ClassOf(e) then PushRing(ring, e, max) else ring
  {
    assert (log + [e])[..|log|] == log;
    PushKeepsLast(Of(log, ClassOf(e)), e, max);
    forall c | c != ClassOf(e)
      ensures Of(log + [e], c) == Of(log, c)
    {
      assert Of(log, c) + [] == Of(log, c);
    }
  }

  class Bus {
    var infoRing: seq<Event>
    var warnRing: seq<Event>
    var errorRing: seq<Event>
    const maxPer: nat
    /** Every event published so far. */
    ghost var log: seq<Event>

    /** Each ring holds the last `maxPer` events of its own class, whatever the others do. */
    ghost predicate Valid()
      reads this
    {
      && maxPer > 0
      && infoRing == Last(Of(log, Info), maxPer)
      && warnRing == Last(Of(log, Warn), maxPer)
      && errorRing == Last(Of(log, Error), maxPer)
    }

    constructor (ring: int)
      ensures Valid() && log == []
      ensures maxPer == if ring <= 0 then 500 else ring
    {
      maxPer := if ring <= 0 then 500 else ring;
      infoRing, warnRing, errorRing, log := [], [], [], [];
    }

    method Publish(e: Event, now: int)
      requires Valid()
      modifies this
      ensures Valid() && log == old(log) + [Normal(e, now)]
      ensures var ev := log[|log| - 1];
        && ev.source == e.source && ev.message == e.message
        && ev.ts == (if e.ts == 0 then now else e.ts) && ev.level == (if e.level == "" then "info" else e.level)
        && errorRing == (if ev.level == "error" then Newest(old(errorRing) + [ev], maxPer) else old(errorRing))
        && warnRing == (if ev.level == "warn" then Newest(old(warnRing) + [ev], maxPer) else old(warnRing))
        && infoRing ==
             if ev.level in {"error", "warn"} then old(infoRing) else Newest(old(infoRing) + [ev], maxPer)
    {
      hide Of, PushRing;
      var ev := e;
      PushIsNewest(errorRing, Event(if e.ts == 0 then now else e.ts, "error", e.source, e.message), maxPer);
      PushIsNewest(warnRing, Event(if e.ts == 0 then now else e.ts, "warn", e.source, e.message), maxPer);
      PushIsNewest(infoRing, Normal(e, now), maxPer);
      if ev.ts == 0 {
        ev := ev.(ts := now);
      }
      if ev.level == "" {
        ev := ev.(level := "info");
      }
      RingsStep(log, ev, maxPer);
      log := log + [ev];
      if ev.level == "error" {
        errorRing := PushRing(errorRing, ev, maxPer);
      } else if ev.level == "warn" {
        warnRing := PushRing(warnRing, ev, maxPer);
      } else {
        infoRing := PushRing(infoRing, ev, maxPer);
      }
    }

    /** `Snapshot`: the three rings merged by time. Events with equal times keep the order
        info, warn, error, and within a ring the order of publication. */
    method Snapshot() returns (merged: seq<Event>)
      requires Valid()
      ensures forall i, j :: 0 <= i < j < |merged| ==> merged[i].ts <= merged[j].ts
      ensures StableRearrangement(infoRing + warnRing + errorRing, merged)
      ensures multiset(merged) == multiset(infoRing) + multiset(warnRing) + multiset(errorRing)
    {
      var all := infoRing + warnRing + errorRing;
      var a := new Event[|all|](i requires 0 <= i < |all| => all[i]);
      assert a[..] == all;
      SortEventsByTs(a);
      merged := a[..];
      StableIsPermutation(all, merged);
    }
  }

  // ----- merging -----

  ghost predicate SortedByTs(s: seq<Event>) {
    forall i, j :: 0 <= i < j < |s| ==> s[i].ts <= s[j].ts
  }

  /** The events with time `t`, in order. */
  function AtTs(s: seq<Event>, t: int): seq<Event> {
    if s == [] then []
    else (if s[0].ts == t then [s[0]] else []) + AtTs(s[1..], t)
  }

  /** A permutation that keeps the order of events with equal times. */
  ghost predicate StableRearrangement(s: seq<Event>, r: seq<Event>) {
    forall t :: AtTs(s, t) == AtTs(r, t)
  }

  lemma {:induction false} AtTsAppend(a: seq<Event>, b: seq<Event>, t: int)
    ensures AtTs(a + b, t) == AtTs(a, t) + AtTs(b, t)
  {
    if a == [] {
      assert a + b == b;
    } else {
      assert (a + b)[1..] == a[1..] + b;
      AtTsAppend(a[1..], b, t);
      var front, r, q := if a[0].ts == t then [a[0]] else [], AtTs(a[1..], t), AtTs(b, t);
      assert (front + r) + q == front + (r + q);
    }
  }

  /** Swapping neighbours with different times is stable. */
  lemma {:induction false} SwapIsStable(s: seq<Event>, j: nat)
    requires 0 < j < |s| && s[j - 1].ts != s[j].ts
    ensures StableRearrangement(s, s[j - 1 := s[j]][j := s[j - 1]])
  {
    var x, y, front, back := s[j - 1], s[j], s[..j - 1], s[j + 1..];
    assert s == front + [x, y] + back;
    assert s[j - 1 := y][j := x] == front + [y, x] + back;
    forall t
      ensures AtTs(s, t) == AtTs(front + [y, x] + back, t)
    {
      AtTsAppend(front + [x, y], back, t);
      AtTsAppend(front + [y, x], back, t);
      AtTsAppend(front, [x, y], t);
      AtTsAppend(front, [y, x], t);
      assert [x, y][1..] == [y] && [y, x][1..] == [x];
    }
  }

  lemma {:induction false} CountAtTs(s: seq<Event>, e: Event)
    ensures multiset(s)[e] == multiset(AtTs(s, e.ts))[e]
  {
    if s != [] {
      CountAtTs(s[1..], e);
      assert s == [s[0]] + s[1..];
    }
  }

  lemma {:induction false} StableIsPermutation(s: seq<Event>, r: seq<Event>)
    requires StableRearrangement(s, r)
    ensures multiset(s) == multiset(r)
  {
    forall e
      ensures multiset(s)[e] == multiset(r)[e]
    {
      CountAtTs(s, e);
      CountAtTs(r, e);
      assert AtTs(s, e.ts) == AtTs(r, e.ts);
    }
  }

  /** Sorted, but for the event at `j` that is still on its way down. */
  ghost predicate SortedBut(s: seq<Event>, i: nat, j: nat) {
    && j <= i < |s|
    && (forall p, q :: 0 <= p < q <= i && p != j && q != j ==> s[p].ts <= s[q].ts)
    && (forall q :: j < q <= i ==> s[j].ts < s[q].ts)
  }

  lemma {:induction false} SwapMovesDown(s: seq<Event>, i: nat, j: nat)
    requires SortedBut(s, i, j) && 0 < j && s[j - 1].ts > s[j].ts
    ensures SortedBut(s[j - 1 := s[j]][j := s[j - 1]], i, j - 1)
  {
    var r := s[j - 1 := s[j]][j := s[j - 1]];
    forall p, q | 0 <= p < q <= i && p != j - 1 && q != j - 1
      ensures r[p].ts <= r[q].ts
    {
      var p', q' := if p == j then j - 1 else p, if q == j then j - 1 else q;
      assert r[p] == s[p'] && r[q] == s[q'];
    }
  }

  lemma {:induction false} StartsSortedBut(s: seq<Event>, i: nat)
    requires i < |s| && SortedByTs(s[..i])
    ensures SortedBut(s, i, i)
  {
    assert forall p :: 0 <= p < i ==> s[..i][p] == s[p];
  }

  lemma {:induction false} ArrivedIsSorted(s: seq<Event>, i: nat, j: nat)
    requires SortedBut(s, i, j) && (j > 0 ==> s[j - 1].ts <= s[j].ts)
    ensures i < |s| && SortedByTs(s[..i + 1])
  {
    assert forall p :: 0 <= p < j ==> s[p].ts <= s[j].ts;
  }

  /** `sortEventsByTs`: insertion sort in place, by swapping neighbours. */
  method SortEventsByTs(a: array<Event>)
    modifies a
    ensures SortedByTs(a[..])
    ensures StableRearrangement(old(a[..]), a[..])
  {
    var i := 1;
    while i < a.Length
      invariant 1 <= i
      invariant SortedByTs(a[..if i < a.Length then i else a.Length])
      invariant StableRearrangement(old(a[..]), a[..])
    {
      Insert(a, i);
      i := i + 1;
    }
    assert a[..a.Length] == a[..];
  }

  /** The inner loop: moves `a[i]` down to its place. */
  method Insert(a: array<Event>, i: nat)
    requires 0 < i < a.Length && SortedByTs(a[..i])
    modifies a
    ensures SortedByTs(a[..i + 1])
    ensures StableRearrangement(old(a[..]), a[..])
  {
    hide AtTs, SortedBut;
    var j := i;
    StartsSortedBut(a[..], i);
    while j > 0 && a[j - 1].ts > a[j].ts
      invariant j <= i && SortedBut(a[..], i, j)
      invariant StableRearrangement(old(a[..]), a[..])
    {
      SwapIsStable(a[..], j);
      SwapMovesDown(a[..], i, j);
      ghost var s := a[..];
      a[j - 1], a[j] := a[j], a[j - 1];
      assert a[..] == s[j - 1 := s[j]][j := s[j - 1]];
      j := j - 1;
    }
    assert a[..][..i + 1] == a[..i + 1];
    ArrivedIsSorted(a[..], i, j);
  }
}
