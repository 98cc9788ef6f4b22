/** `ProbeAll`: one goroutine per enabled endpoint under a ten-slot semaphore, with a wait
    group; every interleaving of the loop and the goroutines. */
module ProbeAll {
  import opened Wrappers
  import opened Endpoints
  import opened Sums

  const MAX_PARALLEL := 10

  /** What a probe of each slot would report, if made: latency and status. */
  datatype Job = Job(eps: seq<Endpoint>, reports: seq<(int, string)>)

  ghost predicate ValidJob(job: Job) {
    |job.reports| == |job.eps|
  }

  /** `ProbeOne`: a copy with latency and status replaced. */
  function Probed(job: Job, i: nat): Endpoint
    requires |job.reports| == |job.eps| && i < |job.eps|
  {
    job.eps[i].(latencyMs := job.reports[i].0, status := job.reports[i].1)
  }

  datatype Worker = NotStarted | Waiting | Probing | Written | Released | Gone

  /** `next` is the loop index; `results` holds None where nothing was stored yet; `probes`
      counts the probes made of each slot. */
  datatype State = State(
    next: nat, workers: seq<Worker>, sem: nat, wg: nat,
    results: seq<Option<Endpoint>>, probes: seq<nat>, returned: bool)

  datatype Event = Loop | Acquire(i: nat) | Probe(i: nat) | Release(i: nat) | Done(i: nat) | Return

  function Init(job: Job): State {
    var n := |job.eps|;
    State(0, seq(n, _ => NotStarted), 0, 0, seq(n, _ => None), seq(n, _ => 0), false)
  }

  predicate Shaped(job: Job, s: State) {
    && |job.reports| == |job.eps|
    && |s.workers| == |s.results| == |s.probes| == |job.eps|
    && s.next <= |job.eps|
  }

  function Step(job: Job, s: State, e: Event): Option<State>
    requires Shaped(job, s)
  {
    var n := |job.eps|;
    match e
    case Loop =>
      if s.next >= n then None
      else if !job.eps[s.next].enabled then
        Some(s.(next := s.next + 1, results := s.results[s.next := Some(job.eps[s.next])]))
      else
        Some(s.(next := s.next + 1, wg := s.wg + 1, workers := s.workers[s.next := Waiting]))
    case Acquire(i) =>
      if i < n && s.workers[i] == Waiting && s.sem < MAX_PARALLEL
      then Some(s.(workers := s.workers[i := Probing], sem := s.sem + 1)) else None
    case Probe(i) =>
      if i < n && s.workers[i] == Probing
      then Some(s.(workers := s.workers[i := Written], results := s.results[i := Some(Probed(job, i))],
        probes := s.probes[i := s.probes[i] + 1]))
      else None
    case Release(i) =>
      if i < n && s.workers[i] == Written && s.sem > 0
      then Some(s.(workers := s.workers[i := Released], sem := s.sem - 1)) else None
    case Done(i) =>
      if i < n && s.workers[i] == Released && s.wg > 0
      then Some(s.(workers := s.workers[i := Gone], wg := s.wg - 1)) else None
    case Return =>
      if s.next == n && s.wg == 0 && !s.returned then Some(s.(returned := true)) else None
  }

  function Holds(): Worker -> nat {
    (w: Worker) => if w == Probing || w == Written then 1 else 0
  }

  function Counted(): Worker -> nat {
    (w: Worker) => if w == NotStarted || w == Gone then 0 else 1
  }

  /** Steps a worker still has to make. */
  function Left(): Worker -> nat {
    (w: Worker) => match w
      case NotStarted => 0
      case Waiting => 4
      case Probing => 3
      case Written => 2
      case Released => 1
      case Gone => 0
  }

  /** What slot `i` holds, given where its worker stands. */
  ghost predicate SlotOk(job: Job, s: State, i: nat)
    requires Shaped(job, s) && i < |job.eps|
  {
    var w := s.workers[i];
    && (w == NotStarted <==> i >= s.next || !job.eps[i].enabled)
    && s.probes[i] == (if w == Written || w == Released || w == Gone then 1 else 0)
    && s.results[i] ==
         (if i < s.next && !job.eps[i].enabled then Some(job.eps[i])
          else if s.probes[i] == 1 then Some(Probed(job, i)) else None)
  }

  ghost predicate Inv(job: Job, s: State) {
    && Shaped(job, s)
    && s.sem == SumOf(s.workers, Holds()) && s.sem <= MAX_PARALLEL
    && s.wg == SumOf(s.workers, Counted())
    && (forall i :: 0 <= i < |job.eps| ==> SlotOk(job, s, i))
    && (s.returned ==> s.next == |job.eps| && s.wg == 0)
  }

  /** A measure that every step lowers. */
  function Measure(job: Job, s: State): nat
    requires Shaped(job, s)
  {
    5 * (|job.eps| - s.next) + SumOf(s.workers, Left()) + if s.returned then 0 else 1
  }

  lemma {:induction false} WorkerSums(ws: seq<Worker>, i: nat, w: Worker)
    requires i < |ws|
    ensures SumOf(ws[i := w], Holds()) + Holds()(ws[i]) == SumOf(ws, Holds()) + Holds()(w)
    ensures SumOf(ws[i := w], Counted()) + Counted()(ws[i]) == SumOf(ws, Counted()) + Counted()(w)
    ensures SumOf(ws[i := w], Left()) + Left()(ws[i]) == SumOf(ws, Left()) + Left()(w)
  {
    SumUpdate(ws, i, w, Holds());
    SumUpdate(ws, i, w, Counted());
    SumUpdate(ws, i, w, Left());
  }

  lemma {:induction false} InitInv(job: Job)
    requires ValidJob(job)
    ensures Inv(job, Init(job))
  {
    SumZero(Init(job).workers, Holds());
    SumZero(Init(job).workers, Counted());
  }

  /** The slot a step is about. */
  function SlotOf(s: State, e: Event): nat {
    match e
    case Loop => s.next
    case Return => 0
    case Acquire(i) => i
    case Probe(i) => i
    case Release(i) => i
    case Done(i) => i
  }

  lemma {:induction false} StepKeepsSlots(job: Job, s: State, e: Event, t: State)
    requires Inv(job, s) && Step(job, s, e) == Some(t)
    ensures Shaped(job, t) && forall k :: 0 <= k < |job.eps| ==> SlotOk(job, t, k)
  {
    var i := SlotOf(s, e);
    forall k | 0 <= k < |job.eps|
      ensures SlotOk(job, t, k)
    {
      assert SlotOk(job, s, k);
      if k != i {
        assert t.workers[k] == s.workers[k] && t.results[k] == s.results[k] && t.probes[k] == s.probes[k];
      }
    }
  }

  lemma {:induction false} StepKeepsCounts(job: Job, s: State, e: Event, t: State)
    requires Inv(job, s) && Step(job, s, e) == Some(t)
    ensures t.sem == SumOf(t.workers, Holds()) && t.sem <= MAX_PARALLEL
    ensures t.wg == SumOf(t.workers, Counted())
    ensures Shaped(job, t) && Measure(job, t) < Measure(job, s)
  {
    hide SumOf;
    var i := SlotOf(s, e);
    if !e.Return? {
      assert SlotOk(job, s, i);
      WorkerSums(s.workers, i, t.workers[i]);
      assert t.workers == s.workers[i := t.workers[i]];
    }
  }

  /** Every step keeps the invariant and lowers the measure. */
  lemma {:induction false} StepKeepsInv(job: Job, s: State, e: Event, t: State)
    requires Inv(job, s) && Step(job, s, e) == Some(t)
    ensures Inv(job, t) && Measure(job, t) < Measure(job, s)
  {
    StepKeepsSlots(job, s, e, t);
    StepKeepsCounts(job, s, e, t);
    if s.returned && !e.Return? {
      NothingLeft(job, s, SlotOf(s, e));
    }
  }

  /** After the return no worker is left. */
  lemma {:induction false} NothingLeft(job: Job, s: State, i: nat)
    requires Inv(job, s) && s.next == |job.eps| && s.wg == 0 && i < |job.eps|
    ensures s.workers[i] == NotStarted || s.workers[i] == Gone
  {
    SumPart(s.workers, i, Counted());
  }

  lemma {:induction false} SumPart<T>(xs: seq<T>, i: nat, w: T -> nat)
    requires i < |xs|
    ensures w(xs[i]) <= SumOf(xs, w)
  {
    if i < |xs| - 1 {
      SumPart(xs[..|xs| - 1], i, w);
    }
  }

  /** Before the return some step is always possible: no schedule gets stuck. */
  lemma {:induction false} NeverStuck(job: Job, s: State) returns (e: Event)
    requires Inv(job, s) && !s.returned
    ensures Step(job, s, e).Some?
  {
    if s.next < |job.eps| {
      e := Loop;
    } else if s.wg == 0 {
      e := Return;
    } else {
      var i := SumPositive(s.workers, Counted());
      if s.workers[i] == Probing {
        e := Probe(i);
      } else if s.workers[i] == Written {
        SumPart(s.workers, i, Holds());
        e := Release(i);
      } else if s.workers[i] == Released {
        e := Done(i);
      } else if s.sem < MAX_PARALLEL {
        e := Acquire(i);
      } else {
        var j := SumPositive(s.workers, Holds());
        e := if s.workers[j] == Probing then Probe(j) else Release(j);
      }
    }
  }

  // ----- whole runs -----

  ghost predicate Next(job: Job, s: State, e: Event, t: State) {
    Shaped(job, s) && Step(job, s, e) == Some(t)
  }

  ghost predicate IsRun(job: Job, ss: seq<State>, es: seq<Event>) {
    && |ss| == |es| + 1 && ss[0] == Init(job)
    && forall k {:trigger es[k]} :: 0 <= k < |es| ==> Next(job, ss[k], es[k], ss[k + 1])
  }

  /** The workers that have a slot: their probe is under way or just made. */
  ghost function AtWork(ws: seq<Worker>): set<nat> {
    set i: nat | i < |ws| && (ws[i] == Probing || ws[i] == Written)
  }

  lemma {:induction false} AtWorkHold(ws: seq<Worker>)
    ensures |AtWork(ws)| == SumOf(ws, Holds())
  {
    if ws == [] {
      assert AtWork(ws) == {};
    } else {
      var n := |ws| - 1;
      AtWorkHold(ws[..n]);
      assert AtWork(ws) == AtWork(ws[..n]) + if ws[n] == Probing || ws[n] == Written then {n as nat} else {};
    }
  }

  /** While fewer than ten have a slot, any that waits can take one. */
  lemma {:induction false} FreeSlotCanBeTaken(job: Job, s: State, i: nat)
    requires Inv(job, s) && i < |s.workers| && s.workers[i] == Waiting && |AtWork(s.workers)| < 10
    ensures Step(job, s, Acquire(i)).Some?
  {
    AtWorkHold(s.workers);
  }

  /** In every state of every run at most ten probes are under way, and a run of `k` steps has
      used up at least `k` of the initial measure, five for each endpoint and one. */
  lemma {:induction false} RunKeepsInv(job: Job, ss: seq<State>, es: seq<Event>, k: nat)
    requires ValidJob(job) && IsRun(job, ss, es) && k <= |es|
    ensures Inv(job, ss[k]) && |AtWork(ss[k].workers)| <= 10
    ensures Measure(job, ss[k]) + k <= 5 * |job.eps| + 1
  {
    if k == 0 {
      InitInv(job);
      SumZero(Init(job).workers, Left());
    } else {
      RunKeepsInv(job, ss, es, k - 1);
      var e := es[k - 1];
      StepKeepsInv(job, ss[k - 1], e, ss[k]);
    }
    AtWorkHold(ss[k].workers);
  }

  /** Slot `i` of the results: an enabled endpoint with the latency and status of its own probe and
      nothing else changed, a disabled one as it was. */
  ghost predicate Answers(job: Job, i: nat, e: Endpoint)
    requires |job.reports| == |job.eps| && i < |job.eps|
  {
    var ep := job.eps[i];
    && e.id == ep.id && e.protocol == ep.protocol && e.name == ep.name && e.address == ep.address
    && e.rawURI == ep.rawURI && e.source == ep.source && e.config == ep.config
    && e.priority == ep.priority && e.enabled == ep.enabled
    && e.latencyMs == (if ep.enabled then job.reports[i].0 else ep.latencyMs)
    && e.status == (if ep.enabled then job.reports[i].1 else ep.status)
  }

  /** Every run that returns has probed each enabled endpoint exactly once and no disabled
      one, and its results are aligned with the input and the same under every schedule. */
  lemma {:induction false} ReturnsExpected(job: Job, ss: seq<State>, es: seq<Event>)
    requires ValidJob(job) && IsRun(job, ss, es) && ss[|es|].returned
    ensures |ss[|es|].results| == |ss[|es|].probes| == |job.eps|
    ensures forall i :: 0 <= i < |job.eps| ==>
      && ss[|es|].results[i].Some? && Answers(job, i, ss[|es|].results[i].value)
      && ss[|es|].probes[i] == if job.eps[i].enabled then 1 else 0
  {
    var s := ss[|es|];
    RunKeepsInv(job, ss, es, |es|);
    forall i | 0 <= i < |job.eps|
      ensures s.results[i].Some? && Answers(job, i, s.results[i].value)
      ensures s.probes[i] == if job.eps[i].enabled then 1 else 0
    {
      NothingLeft(job, s, i);
      assert SlotOk(job, s, i);
    }
  }

  /** Every run can be continued until it returns, whatever was scheduled so far. */
  lemma {:induction false} CanFinish(job: Job, ss: seq<State>, es: seq<Event>)
    returns (ss': seq<State>, es': seq<Event>)
    requires ValidJob(job) && IsRun(job, ss, es)
    ensures IsRun(job, ss', es') && ss'[|es'|].returned
    ensures |es| <= |es'| && es'[..|es|] == es && ss'[..|ss|] == ss
    decreases 5 * |job.eps| + 1 - |es|
  {
    RunKeepsInv(job, ss, es, |es|);
    var s := ss[|es|];
    if s.returned {
      ss', es' := ss, es;
    } else {
      var e := NeverStuck(job, s);
      var t := Step(job, s, e).value;
      StepKeepsInv(job, s, e, t);
      var ss1, es1 := ss + [t], es + [e];
      assert IsRun(job, ss1, es1) by {
        forall k {:trigger es1[k]} | 0 <= k < |es1|
          ensures Next(job, ss1[k], es1[k], ss1[k + 1])
        {
          if k < |es| {
            assert es1[k] == es[k] && ss1[k] == ss[k] && ss1[k + 1] == ss[k + 1];
          } else {
            assert es1[k] == e && ss1[k] == s && ss1[k + 1] == t;
          }
        }
      }
      RunKeepsInv(job, ss1, es1, |es1|);
      ss', es' := CanFinish(job, ss1, es1);
      assert es'[..|es|] == es'[..|es1|][..|es|];
      assert ss'[..|ss|] == ss'[..|ss1|][..|ss|];
    }
  }
}
