/** Any number of dials in progress at once, interleaved step by step with each other, with
    pool replacements, patches and the kill-switch, and with traffic on open connections.
    A step is one critical section or one atomic addition of the code. */
module DialRuns {
  import opened Wrappers

  /** What a pick reads of an endpoint; `ok` is its status. */
  datatype Peer = Peer(id: string, enabled: bool, ok: bool)

  datatype Row = Row(dials: nat, errors: nat, failovers: nat, up: nat, down: nat)

  datatype Kind = Proxied | Direct | Refused

  datatype Flow = Flow(endpointID: string, kind: Kind, up: nat, down: nat)

  /** Where one `DialContext` call, and then the connection it returned, stands. */
  datatype Phase =
    | Picking
    | Dialling(id: string)
    | Counted(id: string, worked: bool)
    | Errored(id: string)
    | MarkedDown(id: string)
    | Deciding
    | Refusing
    | Finished
    | DirectDialling
    | DirectUp
    | DirectDown
    | Connected(flow: nat, kind: Kind, key: string, pendingUp: nat, pendingDown: nat)

  /** `picked` are the endpoints this call has picked so far, in order. */
  datatype Dialer = Dialer(picked: seq<string>, phase: Phase)

  datatype State = State(pool: seq<Peer>, blockDirect: bool, rows: map<string, Row>, flows: seq<Flow>,
    dialers: seq<Dialer>)

  datatype Action =
    | Pick(i: nat)
    | GiveUp
    | Dial(works: bool)
    | CountError
    | Mark
    | CountFailover
    | Begin
    | ReadSwitch
    | BeginRefused
    | DialDirect(works: bool)
    | BeginDirect
    | Write(n: nat)
    | AddUp
    | Read(n: nat)
    | AddDown

  datatype Event =
    | SetPool(pool: seq<Peer>)
    | Patch(id: string, enabled: bool)
    | SetSwitch(on: bool)
    | Start
    | By(d: nat, act: Action)

  const INIT := State([], false, map[], [], [])
  const MAX_DIAL_ATTEMPTS := 4
  const DIRECT := "direct"

  function RowOf(s: State, id: string): Row {
    if id in s.rows then s.rows[id] else Row(0, 0, 0, 0, 0)
  }

  /** The first peer with the id, changed by `f`. */
  function UpdateFirst(pool: seq<Peer>, id: string, f: Peer -> Peer): seq<Peer> {
    if pool == [] then []
    else if pool[0].id == id then [f(pool[0])] + pool[1..]
    else [pool[0]] + UpdateFirst(pool[1..], id, f)
  }

  predicate Candidate(p: Peer, picked: seq<string>) {
    p.enabled && p.ok && p.id !in picked
  }

  /** Nothing is left to try: four attempts were made, or no live endpoint is untried. */
  predicate NothingLeft(s: State, picked: seq<string>) {
    |picked| == MAX_DIAL_ATTEMPTS || forall i :: 0 <= i < |s.pool| ==> !Candidate(s.pool[i], picked)
  }

  function At(s: State, d: nat, phase: Phase): State
    requires d < |s.dialers|
  {
    s.(dialers := s.dialers[d := s.dialers[d].(phase := phase)])
  }

  function Tally(s: State, id: string, row: Row): State {
    s.(rows := s.rows[id := row])
  }

  /** One step of dialer `d`. */
  function Act(s: State, d: nat, act: Action): Option<State>
    requires d < |s.dialers|
  {
    var dl := s.dialers[d];
    match (act, dl.phase)
    case (Pick(i), Picking) =>
      if |dl.picked| < MAX_DIAL_ATTEMPTS && i < |s.pool| && Candidate(s.pool[i], dl.picked)
      then Some(s.(dialers := s.dialers[d := Dialer(dl.picked + [s.pool[i].id], Dialling(s.pool[i].id))]))
      else None
    case (GiveUp, Picking) =>
      if NothingLeft(s, dl.picked) then Some(At(s, d, Deciding)) else None
    case (Dial(works), Dialling(id)) =>
      Some(At(Tally(s, id, RowOf(s, id).(dials := RowOf(s, id).dials + 1)), d, Counted(id, works)))
    case (CountError, Counted(id, worked)) =>
      if worked then None
      else Some(At(Tally(s, id, RowOf(s, id).(errors := RowOf(s, id).errors + 1)), d, Errored(id)))
    case (Mark, Errored(id)) =>
      Some(At(s.(pool := UpdateFirst(s.pool, id, (p: Peer) => p.(ok := false))), d, MarkedDown(id)))
    case (CountFailover, MarkedDown(id)) =>
      Some(At(Tally(s, id, RowOf(s, id).(failovers := RowOf(s, id).failovers + 1)), d, Picking))
    case (Begin, Counted(id, worked)) =>
      if worked then Some(At(s.(flows := s.flows + [Flow(id, Proxied, 0, 0)]), d,
        Connected(|s.flows|, Proxied, id, 0, 0)))
      else None
    case (ReadSwitch, Deciding) =>
      Some(At(s, d, if s.blockDirect then Refusing else DirectDialling))
    case (BeginRefused, Refusing) =>
      Some(At(s.(flows := s.flows + [Flow("", Refused, 0, 0)]), d, Finished))
    case (DialDirect(works), DirectDialling) =>
      Some(At(s, d, if works then DirectUp else DirectDown))
    case (BeginDirect, DirectUp) =>
      Some(At(s.(flows := s.flows + [Flow("", Direct, 0, 0)]), d, Connected(|s.flows|, Direct, DIRECT, 0, 0)))
    case (Write(n), Connected(_, _, key, up, _)) =>
      if up == 0 then Some(At(Tally(s, key, RowOf(s, key).(up := RowOf(s, key).up + n)), d,
        dl.phase.(pendingUp := n))) else None
    case (AddUp, Connected(fl, _, _, up, _)) =>
      if fl < |s.flows|
      then Some(At(s.(flows := s.flows[fl := s.flows[fl].(up := s.flows[fl].up + up)]), d, dl.phase.(pendingUp := 0)))
      else None
    case (Read(n), Connected(_, _, key, _, down)) =>
      if down == 0 then Some(At(Tally(s, key, RowOf(s, key).(down := RowOf(s, key).down + n)), d,
        dl.phase.(pendingDown := n))) else None
    case (AddDown, Connected(fl, _, _, _, down)) =>
      if fl < |s.flows|
      then Some(At(s.(flows := s.flows[fl := s.flows[fl].(down := s.flows[fl].down + down)]), d,
        dl.phase.(pendingDown := 0)))
      else None
    case _ => None
  }

  function Step(s: State, e: Event): Option<State> {
    match e
    case SetPool(pool) => Some(s.(pool := pool))
    case Patch(id, enabled) => Some(s.(pool := UpdateFirst(s.pool, id, (p: Peer) => p.(enabled := enabled))))
    case SetSwitch(on) => Some(s.(blockDirect := on))
    case Start => Some(s.(dialers := s.dialers + [Dialer([], Picking)]))
    case By(d, act) => if d < |s.dialers| then Act(s, d, act) else None
  }

  ghost predicate Next(s: State, e: Event, t: State) {
    Step(s, e) == Some(t)
  }

  /** `ss` are the states a run with events `es` goes through. */
  ghost predicate IsRun(ss: seq<State>, es: seq<Event>) {
    && |ss| == |es| + 1 && ss[0] == INIT
    && forall k {:trigger es[k]} :: 0 <= k < |es| ==> Next(ss[k], es[k], ss[k + 1])
  }

  // ----- failover safety -----

  /** The endpoints dialer `d` picked in the first `n` steps. */
  function Picks(ss: seq<State>, es: seq<Event>, d: nat, n: nat): seq<string>
    requires n <= |es| && |ss| == |es| + 1
  {
    if n == 0 then []
    else if es[n - 1].By? && es[n - 1].d == d && es[n - 1].act.Pick? && es[n - 1].act.i < |ss[n - 1].pool|
    then Picks(ss, es, d, n - 1) + [ss[n - 1].pool[es[n - 1].act.i].id]
    else Picks(ss, es, d, n - 1)
  }

  ghost predicate Distinct(ids: seq<string>) {
    forall i, j :: 0 <= i < j < |ids| ==> ids[i] != ids[j]
  }

  lemma {:induction false} ActPicks(s: State, d: nat, act: Action, t: State)
    requires d < |s.dialers| && Act(s, d, act) == Some(t)
    ensures t.dialers == s.dialers[d := t.dialers[d]]
    ensures !act.Pick? ==> t.dialers[d].picked == s.dialers[d].picked
    ensures act.Pick? ==>
      && act.i < |s.pool| && Candidate(s.pool[act.i], s.dialers[d].picked)
      && |s.dialers[d].picked| < MAX_DIAL_ATTEMPTS
      && t.dialers[d].picked == s.dialers[d].picked + [s.pool[act.i].id]
  {
    hide UpdateFirst, RowOf, NothingLeft, Candidate;
  }

  /** What one step does to one dialer's record of picks. */
  lemma {:induction false} StepPicks(s: State, e: Event, t: State, d: nat)
    requires Next(s, e, t)
    ensures |s.dialers| <= |t.dialers| <= |s.dialers| + 1
    ensures |s.dialers| < |t.dialers| ==> t.dialers[|s.dialers|].picked == [] && !e.By?
    ensures e.By? ==> e.d < |s.dialers|
    ensures d < |s.dialers| && !(e.By? && e.d == d) ==> t.dialers[d] == s.dialers[d]
    ensures d < |s.dialers| && e.By? && e.d == d && !e.act.Pick? ==> t.dialers[d].picked == s.dialers[d].picked
    ensures e.By? && e.d == d && e.act.Pick? ==>
      && e.act.i < |s.pool| && Candidate(s.pool[e.act.i], s.dialers[d].picked)
      && |s.dialers[d].picked| < MAX_DIAL_ATTEMPTS
      && t.dialers[d].picked == s.dialers[d].picked + [s.pool[e.act.i].id]
  {
    hide UpdateFirst, Candidate, Act;
    if e.By? {
      ActPicks(s, e.d, e.act, t);
    }
  }

  /** A dialer that does not exist yet has picked nothing. */
  lemma {:induction false} NotYetStarted(ss: seq<State>, es: seq<Event>, d: nat, n: nat)
    requires IsRun(ss, es) && n <= |es| && d >= |ss[n].dialers|
    ensures Picks(ss, es, d, n) == []
  {
    hide Next, NothingLeft;
    if n > 0 {
      var e := es[n - 1];
      StepPicks(ss[n - 1], e, ss[n], d);
      NotYetStarted(ss, es, d, n - 1);
    }
  }

  /** In every run, each dial picks at most four endpoints, all different, whatever happens
      around it: `picked` is its history. */
  lemma {:induction false} PicksAreDistinct(ss: seq<State>, es: seq<Event>, d: nat, n: nat)
    requires IsRun(ss, es) && n <= |es| && d < |ss[n].dialers|
    ensures ss[n].dialers[d].picked == Picks(ss, es, d, n)
    ensures Distinct(Picks(ss, es, d, n)) && |Picks(ss, es, d, n)| <= 4
  {
    hide Next, NothingLeft;
    if n > 0 {
      var e := es[n - 1];
      StepPicks(ss[n - 1], e, ss[n], d);
      if d < |ss[n - 1].dialers| {
        PicksAreDistinct(ss, es, d, n - 1);
      } else {
        NotYetStarted(ss, es, d, n - 1);
      }
    }
  }

  /** Every endpoint a dial picks was enabled and healthy in the pool of that moment, and
      not picked by the same dial before. */
  lemma {:induction false} PicksWereLive(ss: seq<State>, es: seq<Event>, d: nat, k: nat)
    requires IsRun(ss, es) && k < |es| && es[k].By? && es[k].d == d && es[k].act.Pick?
    ensures es[k].act.i < |ss[k].pool|
    ensures var p := ss[k].pool[es[k].act.i]; p.enabled && p.ok && p.id !in Picks(ss, es, d, k)
    ensures Picks(ss, es, d, k + 1) == Picks(ss, es, d, k) + [ss[k].pool[es[k].act.i].id]
  {
    hide Next, NothingLeft;
    StepPicks(ss[k], es[k], ss[k + 1], d);
    PicksAreDistinct(ss, es, d, k);
  }

  // ----- direct dials -----

  /** The dials of `d` whose failure was fully recorded in the first `n` steps. */
  function Failures(es: seq<Event>, d: nat, n: nat): nat
    requires n <= |es|
  {
    if n == 0 then 0 else Failures(es, d, n - 1) + if es[n - 1] == By(d, CountFailover) then 1 else 0
  }

  /** An attempt is under way, or it succeeded. */
  predicate MidAttempt(p: Phase) {
    p.Dialling? || p.Counted? || p.Errored? || p.MarkedDown? || (p.Connected? && p.kind == Proxied)
  }

  predicate WentDirect(p: Phase) {
    p.DirectDialling? || p.DirectUp? || p.DirectDown? || (p.Connected? && p.kind == Direct)
  }

  lemma {:induction false} ActAttempts(s: State, d: nat, act: Action, t: State)
    requires d < |s.dialers| && Act(s, d, act) == Some(t)
    ensures |t.dialers| == |s.dialers|
    ensures var was, now := MidAttempt(s.dialers[d].phase), MidAttempt(t.dialers[d].phase);
      && (now && !was <==> act.Pick?)
      && (was && !now <==> act.CountFailover?)
      && (act.CountFailover? ==> was)
  {
    hide UpdateFirst, RowOf, NothingLeft, Candidate;
  }

  lemma {:induction false} StepAttempts(s: State, e: Event, t: State, d: nat)
    requires Next(s, e, t) && d < |s.dialers| && d < |t.dialers|
    ensures MidAttempt(t.dialers[d].phase) && !MidAttempt(s.dialers[d].phase) ==> e.By? && e.d == d && e.act.Pick?
    ensures e.By? && e.d == d && e.act.Pick? ==> MidAttempt(t.dialers[d].phase) && !MidAttempt(s.dialers[d].phase)
    ensures MidAttempt(s.dialers[d].phase) ==> (MidAttempt(t.dialers[d].phase) <==> e != By(d, CountFailover))
    ensures e == By(d, CountFailover) ==> MidAttempt(s.dialers[d].phase)
  {
    hide UpdateFirst, RowOf, NothingLeft, Act;
    StepPicks(s, e, t, d);
    if e.By? && e.d == d {
      ActAttempts(s, d, e.act, t);
    }
  }

  lemma {:induction false} ActDecisions(s: State, d: nat, act: Action, t: State)
    requires d < |s.dialers| && Act(s, d, act) == Some(t)
    ensures |t.dialers| == |s.dialers|
    ensures var was, now := s.dialers[d].phase, t.dialers[d].phase;
      && (now == Deciding && was != Deciding ==> act.GiveUp? && NothingLeft(s, s.dialers[d].picked))
      && (WentDirect(now) && !WentDirect(was) ==> act.ReadSwitch? && !s.blockDirect && was == Deciding)
      && (was == Deciding || WentDirect(was) ==> t.dialers[d].picked == s.dialers[d].picked)
  {
    hide UpdateFirst, RowOf, NothingLeft, Candidate;
  }

  lemma {:induction false} StepDecisions(s: State, e: Event, t: State, d: nat)
    requires Next(s, e, t) && d < |s.dialers| && d < |t.dialers|
    ensures t.dialers[d].phase == Deciding && s.dialers[d].phase != Deciding ==>
      e == By(d, GiveUp) && NothingLeft(s, s.dialers[d].picked)
    ensures WentDirect(t.dialers[d].phase) && !WentDirect(s.dialers[d].phase) ==>
      e == By(d, ReadSwitch) && !s.blockDirect && s.dialers[d].phase == Deciding
    ensures s.dialers[d].phase == Deciding || WentDirect(s.dialers[d].phase) ==>
      t.dialers[d].picked == s.dialers[d].picked
  {
    hide UpdateFirst, NothingLeft, Act;
    StepPicks(s, e, t, d);
    if e.By? && e.d == d {
      ActDecisions(s, d, e.act, t);
    }
  }

  lemma {:induction false} StepStarts(s: State, e: Event, t: State, d: nat)
    requires Next(s, e, t) && |s.dialers| <= d < |t.dialers|
    ensures t.dialers[d].phase == Picking && !e.By?
  {
    hide UpdateFirst, Act;
    if e.By? {
      ActPicks(s, e.d, e.act, t);
    }
  }

  /** The phases one step can lead to. */
  lemma {:induction false} StepPhases(s: State, e: Event, t: State, d: nat)
    requires Next(s, e, t) && d < |t.dialers|
    ensures d >= |s.dialers| ==> t.dialers[d].phase == Picking && !e.By?
    ensures d < |s.dialers| && MidAttempt(t.dialers[d].phase) && !MidAttempt(s.dialers[d].phase) ==>
      e.By? && e.d == d && e.act.Pick?
    ensures d < |s.dialers| && e.By? && e.d == d && e.act.Pick? ==>
      MidAttempt(t.dialers[d].phase) && !MidAttempt(s.dialers[d].phase)
    ensures d < |s.dialers| && MidAttempt(s.dialers[d].phase) ==>
      (MidAttempt(t.dialers[d].phase) <==> e != By(d, CountFailover))
    ensures d < |s.dialers| && e == By(d, CountFailover) ==> MidAttempt(s.dialers[d].phase)
    ensures d < |s.dialers| && t.dialers[d].phase == Deciding && s.dialers[d].phase != Deciding ==>
      e == By(d, GiveUp) && NothingLeft(s, s.dialers[d].picked)
    ensures d < |s.dialers| && WentDirect(t.dialers[d].phase) && !WentDirect(s.dialers[d].phase) ==>
      e == By(d, ReadSwitch) && !s.blockDirect && s.dialers[d].phase == Deciding
    ensures d < |s.dialers| && (s.dialers[d].phase == Deciding || WentDirect(s.dialers[d].phase)) ==>
      t.dialers[d].picked == s.dialers[d].picked
  {
    if d < |s.dialers| {
      StepAttempts(s, e, t, d);
      StepDecisions(s, e, t, d);
    } else {
      StepStarts(s, e, t, d);
    }
  }

  /** Every finished attempt failed: only the last pick may still be open or have succeeded. */
  lemma {:induction false} FailuresMatch(ss: seq<State>, es: seq<Event>, d: nat, n: nat)
    requires IsRun(ss, es) && n <= |es|
    ensures d < |ss[n].dialers| ==>
      |ss[n].dialers[d].picked| == Failures(es, d, n) + if MidAttempt(ss[n].dialers[d].phase) then 1 else 0
    ensures d >= |ss[n].dialers| ==> Failures(es, d, n) == 0
  {
    hide Next, NothingLeft;
    if n > 0 {
      var e := es[n - 1];
      FailuresMatch(ss, es, d, n - 1);
      StepPicks(ss[n - 1], e, ss[n], d);
      if d < |ss[n].dialers| {
        StepPhases(ss[n - 1], e, ss[n], d);
      }
    }
  }

  /** A dial that gave up did so with nothing left to try and every attempt failed. */
  lemma {:induction false} GaveUpExhausted(ss: seq<State>, es: seq<Event>, d: nat, n: nat) returns (g: nat)
    requires IsRun(ss, es) && n <= |es| && d < |ss[n].dialers| && ss[n].dialers[d].phase == Deciding
    ensures g < n && es[g] == By(d, GiveUp)
    ensures |Picks(ss, es, d, g)| == 4 || NoneLeft(ss[g].pool, Picks(ss, es, d, g))
    ensures Picks(ss, es, d, n) == Picks(ss, es, d, g) && Failures(es, d, g) == |Picks(ss, es, d, g)|
  {
    hide Next, NothingLeft, NoneLeft;
    assert n > 0;
    var e := es[n - 1];
    StepPhases(ss[n - 1], e, ss[n], d);
    PicksAreDistinct(ss, es, d, n - 1);
    if ss[n - 1].dialers[d].phase == Deciding {
      g := GaveUpExhausted(ss, es, d, n - 1);
    } else {
      g := n - 1;
      FailuresMatch(ss, es, d, g);
      StepPicks(ss[g], e, ss[n], d);
      GiveUpFromPicking(ss[g], d, ss[n]);
    }
  }

  predicate NoneLeft(pool: seq<Peer>, picks: seq<string>) {
    forall p :: p in pool ==> !p.enabled || !p.ok || p.id in picks
  }

  lemma {:induction false} GiveUpFromPicking(s: State, d: nat, t: State)
    requires Next(s, By(d, GiveUp), t)
    ensures d < |s.dialers| && s.dialers[d].phase == Picking
    ensures |s.dialers[d].picked| == 4 || NoneLeft(s.pool, s.dialers[d].picked)
  {
  }

  /** Kill-switch safety over every run: whenever a dial has gone direct, it had read the
      switch as off at some step `j`, and before that, at step `g`, it had given up with
      four failed attempts or no untried live endpoint, every one of its attempts having
      failed; it picked nothing afterwards. */
  lemma {:induction false} DirectOnlyAfterFailures(ss: seq<State>, es: seq<Event>, d: nat, n: nat)
    returns (g: nat, j: nat)
    requires IsRun(ss, es) && n <= |es| && d < |ss[n].dialers| && WentDirect(ss[n].dialers[d].phase)
    ensures g < j < n && es[g] == By(d, GiveUp) && es[j] == By(d, ReadSwitch)
    ensures !ss[j].blockDirect
    ensures |Picks(ss, es, d, g)| == 4 || NoneLeft(ss[g].pool, Picks(ss, es, d, g))
    ensures Picks(ss, es, d, n) == Picks(ss, es, d, g) && Failures(es, d, g) == |Picks(ss, es, d, g)|
  {
    hide Next, NothingLeft, NoneLeft;
    assert n > 0;
    var e := es[n - 1];
    StepPhases(ss[n - 1], e, ss[n], d);
    if WentDirect(ss[n - 1].dialers[d].phase) {
      g, j := DirectOnlyAfterFailures(ss, es, d, n - 1);
    } else {
      j := n - 1;
      g := GaveUpExhausted(ss, es, d, j);
    }
  }

  // ----- refusals -----

  predicate WasRefused(p: Phase) {
    p.Refusing? || p.Finished?
  }

  lemma {:induction false} ActRefuses(s: State, d: nat, act: Action, t: State)
    requires d < |s.dialers| && Act(s, d, act) == Some(t)
    ensures |t.dialers| == |s.dialers|
    ensures WasRefused(t.dialers[d].phase) && !WasRefused(s.dialers[d].phase) ==>
      act.ReadSwitch? && s.blockDirect && s.dialers[d].phase == Deciding
  {
    hide UpdateFirst, RowOf, NothingLeft, Candidate;
  }

  /** A dial is refused only if it read the kill-switch as on after it had given up. */
  lemma {:induction false} RefusedOnlyWhenBlocked(ss: seq<State>, es: seq<Event>, d: nat, n: nat)
    returns (g: nat, j: nat)
    requires IsRun(ss, es) && n <= |es| && d < |ss[n].dialers| && WasRefused(ss[n].dialers[d].phase)
    ensures g < j < n && es[g] == By(d, GiveUp) && es[j] == By(d, ReadSwitch) && ss[j].blockDirect
    ensures |Picks(ss, es, d, g)| == 4 || NoneLeft(ss[g].pool, Picks(ss, es, d, g))
    ensures Failures(es, d, g) == |Picks(ss, es, d, g)|
  {
    hide Next, NothingLeft, NoneLeft, Act;
    assert n > 0;
    var e := es[n - 1];
    StepPhases(ss[n - 1], e, ss[n], d);
    StepPicks(ss[n - 1], e, ss[n], d);
    if WasRefused(ss[n - 1].dialers[d].phase) {
      g, j := RefusedOnlyWhenBlocked(ss, es, d, n - 1);
    } else {
      j := n - 1;
      RefusalStep(ss[j], e, ss[n], d);
      g := GaveUpExhausted(ss, es, d, j);
    }
  }

  lemma {:induction false} RefusalStep(s: State, e: Event, t: State, d: nat)
    requires Next(s, e, t) && d < |s.dialers| && d < |t.dialers|
    requires WasRefused(t.dialers[d].phase) && !WasRefused(s.dialers[d].phase)
    ensures e == By(d, ReadSwitch) && s.blockDirect && s.dialers[d].phase == Deciding
  {
    hide UpdateFirst, NothingLeft, Act;
    StepPicks(s, e, t, d);
    if e.By? && e.d == d {
      ActRefuses(s, d, e.act, t);
    }
  }

  /** A dial that is neither over nor an open connection can always take its next step, and
      the switch alone decides what follows when it has given up. */
  lemma {:induction false} DialCanMove(s: State, d: nat) returns (act: Action)
    requires d < |s.dialers| && !s.dialers[d].phase.Finished? && !s.dialers[d].phase.DirectDown?
    requires !s.dialers[d].phase.Connected? && |s.dialers[d].picked| <= 4
    ensures Act(s, d, act).Some?
    ensures s.dialers[d].phase.Deciding? ==>
      Act(s, d, act).value.dialers[d].phase == if s.blockDirect then Refusing else DirectDialling
  {
    var dl := s.dialers[d];
    match dl.phase
    case Picking =>
      if NothingLeft(s, dl.picked) {
        act := GiveUp;
      } else {
        var i: nat :| i < |s.pool| && Candidate(s.pool[i], dl.picked);
        act := Pick(i);
      }
    case Dialling(_) => act := Dial(true);
    case Counted(_, worked) => act := if worked then Begin else CountError;
    case Errored(_) => act := Mark;
    case MarkedDown(_) => act := CountFailover;
    case Deciding => act := ReadSwitch;
    case Refusing => act := BeginRefused;
    case DirectDialling => act := DialDirect(true);
    case DirectUp => act := BeginDirect;
    case _ =>
  }

  // ----- outcomes -----

  predicate HasOutcome(p: Phase) {
    p.Counted? || p.DirectUp? || p.DirectDown?
  }

  /** The dial that leads to the phase. */
  function DialBehind(p: Phase): Action
    requires HasOutcome(p)
  {
    match p
    case Counted(_, worked) => Dial(worked)
    case DirectUp => DialDirect(true)
    case DirectDown => DialDirect(false)
  }

  lemma {:induction false} ActOutcome(s: State, d: nat, act: Action, t: State)
    requires d < |s.dialers| && Act(s, d, act) == Some(t)
    ensures |t.dialers| == |s.dialers|
    ensures var now := t.dialers[d].phase; HasOutcome(now) ==>
      && act == DialBehind(now)
      && s.dialers[d].phase == if now.Counted? then Dialling(now.id) else DirectDialling
  {
    hide UpdateFirst, RowOf, NothingLeft, Candidate;
  }

  /** What a dial goes on with is what its network dial reported, of the endpoint that was dialled. */
  lemma {:induction false} OutcomesAreTheDials(ss: seq<State>, es: seq<Event>, d: nat, n: nat) returns (k: nat)
    requires IsRun(ss, es) && n <= |es| && d < |ss[n].dialers| && HasOutcome(ss[n].dialers[d].phase)
    ensures var now := ss[n].dialers[d].phase;
      && k < n && es[k] == By(d, DialBehind(now)) && d < |ss[k].dialers|
      && ss[k].dialers[d].phase == if now.Counted? then Dialling(now.id) else DirectDialling
  {
    hide Next, NothingLeft, DialBehind;
    assert n > 0;
    var s, e, t := ss[n - 1], es[n - 1], ss[n];
    StepPicks(s, e, t, d);
    if d >= |s.dialers| {
      StepStarts(s, e, t, d);
    } else if e.By? && e.d == d {
      ByIsAct(s, e, t);
      ActOutcome(s, d, e.act, t);
      k := n - 1;
    } else {
      k := OutcomesAreTheDials(ss, es, d, n - 1);
    }
  }

  // ----- marks -----

  /** `m` is the place of the first peer with the id. */
  lemma {:induction false} UpdateFirstAt(pool: seq<Peer>, id: string, f: Peer -> Peer) returns (m: nat)
    ensures m <= |pool| && forall j :: 0 <= j < m ==> pool[j].id != id
    ensures m < |pool| ==> pool[m].id == id
    ensures UpdateFirst(pool, id, f) == if m < |pool| then pool[m := f(pool[m])] else pool
  {
    m := 0;
    if pool != [] && pool[0].id != id {
      var k := UpdateFirstAt(pool[1..], id, f);
      m := k + 1;
    }
  }

  ghost predicate IsFirst(pool: seq<Peer>, id: string, i: nat) {
    i < |pool| && pool[i].id == id && forall j :: 0 <= j < i ==> pool[j].id != id
  }

  /** The dialer is about to take the endpoint down. */
  predicate Marking(s: State, e: Event, id: string) {
    e.By? && e.act.Mark? && e.d < |s.dialers| && s.dialers[e.d].phase == Errored(id)
  }

  /** What one event changes of peer `i`. */
  ghost predicate PeerAfter(s: State, e: Event, t: State, i: nat)
    requires i < |s.pool| == |t.pool|
  {
    var was, now := s.pool[i], t.pool[i];
    && now.id == was.id
    && (now.enabled <==> if e.Patch? && IsFirst(s.pool, e.id, i) then e.enabled else was.enabled)
    && (now.ok <==> was.ok && !(Marking(s, e, was.id) && IsFirst(s.pool, was.id, i)))
  }

  ghost predicate SettingsAfter(s: State, e: Event, t: State) {
    && (t.blockDirect <==> if e.SetSwitch? then e.on else s.blockDirect)
    && (e.SetPool? ==> t.pool == e.pool)
    && (!e.SetPool? ==> |t.pool| == |s.pool| && forall i :: 0 <= i < |s.pool| ==> PeerAfter(s, e, t, i))
  }

  lemma {:induction false} ActSettings(s: State, d: nat, act: Action, t: State)
    requires d < |s.dialers| && Act(s, d, act) == Some(t)
    ensures t.blockDirect == s.blockDirect
    ensures act.Mark? ==> s.dialers[d].phase.Errored?
    ensures act.Mark? ==> t.pool == UpdateFirst(s.pool, s.dialers[d].phase.id, (p: Peer) => p.(ok := false))
    ensures !act.Mark? ==> t.pool == s.pool
  {
    hide UpdateFirst, RowOf, NothingLeft, Candidate;
  }

  lemma {:induction false} StepSettings(s: State, e: Event, t: State)
    requires Next(s, e, t)
    ensures SettingsAfter(s, e, t)
  {
    hide UpdateFirst, Act;
    match e
    case Patch(id, enabled) =>
      var m := UpdateFirstAt(s.pool, id, (p: Peer) => p.(enabled := enabled));
    case By(d, act) =>
      ActSettings(s, d, act, t);
      if act.Mark? {
        var m := UpdateFirstAt(s.pool, s.dialers[d].phase.id, (p: Peer) => p.(ok := false));
      }
    case _ =>
  }

  /** Who writes what: only a patch enables or disables, only a mark takes down, each on the first
      peer with the ID; only a new pool brings peers in or back up, and only the switch's own
      setting moves the switch. */
  lemma {:induction false} SettingsAreHistory(ss: seq<State>, es: seq<Event>)
    requires IsRun(ss, es)
    ensures ss[0].pool == [] && !ss[0].blockDirect
    ensures forall k :: 0 <= k < |es| ==> SettingsAfter(ss[k], es[k], ss[k + 1])
  {
    hide Next, SettingsAfter;
    forall k | 0 <= k < |es|
      ensures SettingsAfter(ss[k], es[k], ss[k + 1])
    {
      assert Next(ss[k], es[k], ss[k + 1]);
      StepSettings(ss[k], es[k], ss[k + 1]);
    }
  }

  /** The endpoints that dialer `d` took down in the first `n` steps. */
  function Marks(ss: seq<State>, es: seq<Event>, d: nat, n: nat): seq<string>
    requires n <= |es| && |ss| == |es| + 1
  {
    if n == 0 then []
    else
      var s := ss[n - 1];
      if es[n - 1] == By(d, Mark) && d < |s.dialers| && s.dialers[d].phase.Errored?
      then Marks(ss, es, d, n - 1) + [s.dialers[d].phase.id]
      else Marks(ss, es, d, n - 1)
  }

  /** All picks are marked but one that is still being tried or worked. */
  predicate MarkedBut(dl: Dialer, marks: seq<string>) {
    && (MidAttempt(dl.phase) ==> dl.picked != [])
    && (dl.phase.Dialling? || dl.phase.Counted? || dl.phase.Errored? || dl.phase.MarkedDown? ==>
          dl.phase.id == dl.picked[|dl.picked| - 1])
    && marks == if MidAttempt(dl.phase) && !dl.phase.MarkedDown? then dl.picked[..|dl.picked| - 1] else dl.picked
  }

  lemma {:induction false} PickMarks(s: State, d: nat, i: nat, t: State, marks: seq<string>)
    requires d < |s.dialers| && Act(s, d, Pick(i)) == Some(t) && MarkedBut(s.dialers[d], marks)
    ensures MarkedBut(t.dialers[d], marks)
  {
    hide UpdateFirst, RowOf, NothingLeft, Candidate;
    var picked := t.dialers[d].picked;
    assert picked[..|picked| - 1] == s.dialers[d].picked;
  }

  /** The phases of a dialer but for the pick that starts an attempt. */
  lemma {:induction false} ActKeepsAttempt(s: State, d: nat, act: Action, t: State)
    requires d < |s.dialers| && Act(s, d, act) == Some(t) && !act.Pick?
    ensures t.dialers[d].picked == s.dialers[d].picked
    ensures act.Mark? ==> s.dialers[d].phase.Errored? && t.dialers[d].phase == MarkedDown(s.dialers[d].phase.id)
    ensures var was, now := s.dialers[d].phase, t.dialers[d].phase;
      && (MidAttempt(now) ==> MidAttempt(was))
      && (now.Dialling? || now.Counted? || now.Errored? || now.MarkedDown? ==>
            (was.Dialling? || was.Counted? || was.Errored? || was.MarkedDown?) && was.id == now.id)
      && (!act.Mark? ==> ((MidAttempt(now) && !now.MarkedDown?) <==> (MidAttempt(was) && !was.MarkedDown?)))
  {
    hide UpdateFirst, RowOf, NothingLeft, Candidate;
  }

  lemma {:induction false} ActMarks(s: State, d: nat, act: Action, t: State, marks: seq<string>)
    requires d < |s.dialers| && Act(s, d, act) == Some(t) && MarkedBut(s.dialers[d], marks)
    ensures act.Mark? ==> s.dialers[d].phase.Errored?
    ensures MarkedBut(t.dialers[d], if act.Mark? then marks + [s.dialers[d].phase.id] else marks)
  {
    hide Act, UpdateFirst;
    if act.Pick? {
      PickMarks(s, d, act.i, t, marks);
    } else {
      ActKeepsAttempt(s, d, act, t);
    }
  }

  /** Every endpoint whose dial failed is taken down before the next one is tried, and no other is:
      a dialer marks its own picks, in order, all but one that is under way or worked. */
  lemma {:induction false} FailuresAreMarked(ss: seq<State>, es: seq<Event>, d: nat, n: nat)
    requires IsRun(ss, es) && n <= |es|
    ensures d < |ss[n].dialers| ==> MarkedBut(ss[n].dialers[d], Marks(ss, es, d, n))
    ensures d >= |ss[n].dialers| ==> Marks(ss, es, d, n) == []
  {
    hide Next, NothingLeft, MarkedBut;
    if n > 0 {
      var s, e, t := ss[n - 1], es[n - 1], ss[n];
      FailuresAreMarked(ss, es, d, n - 1);
      StepPicks(s, e, t, d);
      if d >= |s.dialers| {
        NothingToMark(s, e, t, d);
      } else if e.By? && e.d == d {
        ByIsAct(s, e, t);
        assert e == By(d, e.act) && (e == By(d, Mark) <==> e.act.Mark?);
        ActMarks(s, d, e.act, t, Marks(ss, es, d, n - 1));
      }
    }
  }

  lemma {:induction false} ByIsAct(s: State, e: Event, t: State)
    requires Next(s, e, t) && e.By?
    ensures e.d < |s.dialers| && Act(s, e.d, e.act) == Some(t)
  {
    hide Act, UpdateFirst;
  }

  lemma {:induction false} NothingToMark(s: State, e: Event, t: State, d: nat)
    requires Next(s, e, t) && d >= |s.dialers|
    ensures d < |t.dialers| ==> MarkedBut(t.dialers[d], [])
  {
    hide Act, UpdateFirst;
    StepPicks(s, e, t, d);
    if d < |t.dialers| {
      StepStarts(s, e, t, d);
    }
  }

  ghost predicate DistinctPeers(pool: seq<Peer>) {
    forall i, j :: 0 <= i < j < |pool| ==> pool[i].id != pool[j].id
  }

  ghost predicate IsDown(pool: seq<Peer>, id: string) {
    DistinctPeers(pool) && forall i :: 0 <= i < |pool| && pool[i].id == id ==> !pool[i].ok
  }

  lemma {:induction false} MarkTakesDown(pool: seq<Peer>, id: string)
    requires DistinctPeers(pool)
    ensures IsDown(UpdateFirst(pool, id, (p: Peer) => p.(ok := false)), id)
  {
    hide UpdateFirst;
    var m := UpdateFirstAt(pool, id, (p: Peer) => p.(ok := false));
  }

  lemma {:induction false} UpdateKeepsDown(pool: seq<Peer>, id: string, other: string, f: Peer -> Peer)
    requires IsDown(pool, id) && forall p :: f(p).id == p.id && (f(p).ok ==> p.ok)
    ensures IsDown(UpdateFirst(pool, other, f), id)
  {
    hide UpdateFirst;
    var m := UpdateFirstAt(pool, other, f);
  }

  lemma {:induction false} StepKeepsDown(s: State, e: Event, t: State, id: string)
    requires Next(s, e, t) && IsDown(s.pool, id) && !e.SetPool?
    ensures IsDown(t.pool, id)
  {
    hide UpdateFirst, IsDown, RowOf, NothingLeft, Candidate;
    if e.Patch? {
      UpdateKeepsDown(s.pool, id, e.id, (p: Peer) => p.(enabled := e.enabled));
    } else if e.By? && e.act.Mark? {
      UpdateKeepsDown(s.pool, id, s.dialers[e.d].phase.id, (p: Peer) => p.(ok := false));
    }
  }

  /** From the mark of an endpoint until the pool is replaced no dial picks it, whatever else
      happens: patches enable endpoints but do not heal them. */
  lemma {:induction false} MarkedIsAvoided(ss: seq<State>, es: seq<Event>, m: nat, n: nat, d: nat, id: string)
    requires IsRun(ss, es) && m < n < |es| && es[m] == By(d, Mark)
    requires d < |ss[m].dialers| && ss[m].dialers[d].phase == Errored(id) && DistinctPeers(ss[m].pool)
    requires forall k :: m < k < n ==> !es[k].SetPool?
    ensures es[n].By? && es[n].act.Pick? ==> es[n].act.i < |ss[n].pool| && ss[n].pool[es[n].act.i].id != id
  {
    hide IsDown, UpdateFirst, NothingLeft;
    StaysDown(ss, es, m, n, d, id);
    assert Next(ss[n], es[n], ss[n + 1]);
    if es[n].By? && es[n].act.Pick? {
      PickIsUp(ss[n], es[n].d, es[n].act.i, ss[n + 1], id);
    }
  }

  lemma {:induction false} PickIsUp(s: State, d: nat, i: nat, t: State, id: string)
    requires Next(s, By(d, Pick(i)), t) && IsDown(s.pool, id)
    ensures i < |s.pool| && s.pool[i].id != id
  {
  }

  lemma {:induction false} StaysDown(ss: seq<State>, es: seq<Event>, m: nat, n: nat, d: nat, id: string)
    requires IsRun(ss, es) && m < n <= |es| && es[m] == By(d, Mark)
    requires d < |ss[m].dialers| && ss[m].dialers[d].phase == Errored(id) && DistinctPeers(ss[m].pool)
    requires forall k :: m < k < n ==> !es[k].SetPool?
    ensures IsDown(ss[n].pool, id)
  {
    hide IsDown, UpdateFirst, NothingLeft, Candidate;
    var e := es[n - 1];
    if n == m + 1 {
      MarkTakesDown(ss[m].pool, id);
      assert Next(ss[m], e, ss[n]);
    } else {
      StaysDown(ss, es, m, n - 1, d, id);
      assert Next(ss[n - 1], e, ss[n]);
      StepKeepsDown(ss[n - 1], e, ss[n], id);
    }
  }
}
