/** Conservation: in every state of every run of DialRuns the statistics rows balance against
    the flows ever begun, up to what is still on its way. */
module Accounting {
  import opened DialRuns
  import opened Sums
  import opened Wrappers

  // ----- what is on its way -----

  /** Dials counted whose outcome is not booked yet. */
  function DialPending(id: string): Dialer -> nat {
    (dl: Dialer) => if dl.phase.Counted? && dl.phase.id == id then 1 else 0
  }

  /** Errors counted whose failover is not. */
  function ErrorPending(id: string): Dialer -> nat {
    (dl: Dialer) => if (dl.phase.Errored? || dl.phase.MarkedDown?) && dl.phase.id == id then 1 else 0
  }

  /** Bytes booked in the row but not yet in the flow. */
  function UpPending(key: string): Dialer -> nat {
    (dl: Dialer) => if dl.phase.Connected? && dl.phase.key == key then dl.phase.pendingUp else 0
  }

  function DownPending(key: string): Dialer -> nat {
    (dl: Dialer) => if dl.phase.Connected? && dl.phase.key == key then dl.phase.pendingDown else 0
  }

  // ----- what the flows say -----

  /** The row a flow's connection books its bytes on; a refused flow has no connection. */
  function KeyOf(f: Flow): Option<string> {
    match f.kind
    case Proxied => Some(f.endpointID)
    case Direct => Some(DIRECT)
    case Refused => None
  }

  function Begun(id: string): Flow -> nat {
    (f: Flow) => if f.kind == Proxied && f.endpointID == id then 1 else 0
  }

  function FlowUp(key: string): Flow -> nat {
    (f: Flow) => if KeyOf(f) == Some(key) then f.up else 0
  }

  function FlowDown(key: string): Flow -> nat {
    (f: Flow) => if KeyOf(f) == Some(key) then f.down else 0
  }

  // ----- the invariant -----

  ghost predicate Balanced(s: State, id: string) {
    var r := RowOf(s, id);
    && r.errors == r.failovers + SumOf(s.dialers, ErrorPending(id))
    && r.dials == r.errors + SumOf(s.flows, Begun(id)) + SumOf(s.dialers, DialPending(id))
    && r.up == SumOf(s.flows, FlowUp(id)) + SumOf(s.dialers, UpPending(id))
    && r.down == SumOf(s.flows, FlowDown(id)) + SumOf(s.dialers, DownPending(id))
  }

  /** An open connection feeds a flow of its own row. */
  ghost predicate Linked(s: State) {
    forall d :: 0 <= d < |s.dialers| && s.dialers[d].phase.Connected? ==>
      s.dialers[d].phase.flow < |s.flows| && KeyOf(s.flows[s.dialers[d].phase.flow]) == Some(s.dialers[d].phase.key)
  }

  lemma {:induction false} DialerSums(ds: seq<Dialer>, d: nat, dl: Dialer, id: string)
    requires d < |ds|
    ensures SumOf(ds[d := dl], DialPending(id)) + DialPending(id)(ds[d]) ==
      SumOf(ds, DialPending(id)) + DialPending(id)(dl)
    ensures SumOf(ds[d := dl], ErrorPending(id)) + ErrorPending(id)(ds[d]) ==
      SumOf(ds, ErrorPending(id)) + ErrorPending(id)(dl)
    ensures SumOf(ds[d := dl], UpPending(id)) + UpPending(id)(ds[d]) == SumOf(ds, UpPending(id)) + UpPending(id)(dl)
    ensures SumOf(ds[d := dl], DownPending(id)) + DownPending(id)(ds[d]) ==
      SumOf(ds, DownPending(id)) + DownPending(id)(dl)
  {
    SumUpdate(ds, d, dl, DialPending(id));
    SumUpdate(ds, d, dl, ErrorPending(id));
    SumUpdate(ds, d, dl, UpPending(id));
    SumUpdate(ds, d, dl, DownPending(id));
  }

  lemma {:induction false} FlowAppendSums(fs: seq<Flow>, f: Flow, id: string)
    ensures SumOf(fs + [f], Begun(id)) == SumOf(fs, Begun(id)) + Begun(id)(f)
    ensures SumOf(fs + [f], FlowUp(id)) == SumOf(fs, FlowUp(id)) + FlowUp(id)(f)
    ensures SumOf(fs + [f], FlowDown(id)) == SumOf(fs, FlowDown(id)) + FlowDown(id)(f)
  {
    SumAppend(fs, f, Begun(id));
    SumAppend(fs, f, FlowUp(id));
    SumAppend(fs, f, FlowDown(id));
  }

  lemma {:induction false} FlowUpdateSums(fs: seq<Flow>, i: nat, f: Flow, id: string)
    requires i < |fs|
    ensures SumOf(fs[i := f], Begun(id)) + Begun(id)(fs[i]) == SumOf(fs, Begun(id)) + Begun(id)(f)
    ensures SumOf(fs[i := f], FlowUp(id)) + FlowUp(id)(fs[i]) == SumOf(fs, FlowUp(id)) + FlowUp(id)(f)
    ensures SumOf(fs[i := f], FlowDown(id)) + FlowDown(id)(fs[i]) == SumOf(fs, FlowDown(id)) + FlowDown(id)(f)
  {
    SumUpdate(fs, i, f, Begun(id));
    SumUpdate(fs, i, f, FlowUp(id));
    SumUpdate(fs, i, f, FlowDown(id));
  }

  predicate Decides(act: Action) {
    act.Pick? || act.GiveUp? || act.Mark? || act.ReadSwitch? || act.DialDirect?
  }

  predicate Counts(act: Action) {
    act.Dial? || act.CountError? || act.CountFailover?
  }

  predicate Begins(act: Action) {
    act.Begin? || act.BeginRefused? || act.BeginDirect?
  }

  predicate Books(act: Action) {
    act.Write? || act.Read?
  }

  /** Moving a dialer while one row changes, abstractly: the row's change is what the
      dialer's pending counts explain. */
  lemma {:induction false} BookedOnRow(s: State, d: nat, dl: Dialer, t: State, id: string)
    requires d < |s.dialers| && Balanced(s, id)
    requires t.dialers == s.dialers[d := dl] && t.flows == s.flows
    requires var r, q, was := RowOf(t, id), RowOf(s, id), s.dialers[d];
      && r.errors + q.failovers + ErrorPending(id)(was) == q.errors + r.failovers + ErrorPending(id)(dl)
      && r.dials + q.errors + DialPending(id)(was) == q.dials + r.errors + DialPending(id)(dl)
      && r.up + UpPending(id)(was) == q.up + UpPending(id)(dl)
      && r.down + DownPending(id)(was) == q.down + DownPending(id)(dl)
    ensures Balanced(t, id)
  {
    DialerSums(s.dialers, d, dl, id);
  }

  /** Steps that touch neither rows nor flows. */
  lemma {:induction false} DecidingKeepsBalance(s: State, d: nat, act: Action, t: State, id: string)
    requires d < |s.dialers| && Act(s, d, act) == Some(t) && Decides(act)
    requires Balanced(s, id)
    ensures Balanced(t, id)
  {
    assert t.dialers == s.dialers[d := t.dialers[d]];
    BookedOnRow(s, d, t.dialers[d], t, id);
  }

  /** Steps that count a dial, an error or a failover. */
  lemma {:induction false} CountingKeepsBalance(s: State, d: nat, act: Action, t: State, id: string)
    requires d < |s.dialers| && Act(s, d, act) == Some(t) && Counts(act)
    requires Balanced(s, id)
    ensures Balanced(t, id)
  {
    assert t.dialers == s.dialers[d := t.dialers[d]];
    BookedOnRow(s, d, t.dialers[d], t, id);
  }

  /** Beginning a flow, abstractly: what was pending for the dialer is settled by the flow. */
  lemma {:induction false} SettledByFlow(s: State, d: nat, dl: Dialer, f: Flow, id: string)
    requires d < |s.dialers| && Balanced(s, id)
    requires f.up == 0 && f.down == 0
    requires Begun(id)(f) + DialPending(id)(dl) == DialPending(id)(s.dialers[d])
    requires ErrorPending(id)(dl) == ErrorPending(id)(s.dialers[d])
    requires UpPending(id)(dl) == UpPending(id)(s.dialers[d]) && DownPending(id)(dl) == DownPending(id)(s.dialers[d])
    ensures Balanced(s.(flows := s.flows + [f], dialers := s.dialers[d := dl]), id)
  {
    DialerSums(s.dialers, d, dl, id);
    FlowAppendSums(s.flows, f, id);
  }

  /** Steps that begin a flow. */
  lemma {:induction false} BeginningKeepsBalance(s: State, d: nat, act: Action, t: State, id: string)
    requires d < |s.dialers| && Act(s, d, act) == Some(t) && Begins(act)
    requires Balanced(s, id)
    ensures Balanced(t, id)
  {
    var dl, f := t.dialers[d], t.flows[|s.flows|];
    assert t == s.(flows := s.flows + [f], dialers := s.dialers[d := dl]);
    SettledByFlow(s, d, dl, f, id);
  }

  /** Steps that book bytes on the row. */
  lemma {:induction false} BookingKeepsBalance(s: State, d: nat, act: Action, t: State, id: string)
    requires d < |s.dialers| && Act(s, d, act) == Some(t) && Books(act)
    requires Balanced(s, id)
    ensures Balanced(t, id)
  {
    assert t.dialers == s.dialers[d := t.dialers[d]];
    BookedOnRow(s, d, t.dialers[d], t, id);
  }

  /** Passing bytes on, abstractly: what leaves the pending count arrives in the flow. */
  lemma {:induction false} PassedToFlow(s: State, d: nat, dl: Dialer, i: nat, f: Flow, id: string)
    requires d < |s.dialers| && i < |s.flows| && Balanced(s, id)
    requires DialPending(id)(dl) == DialPending(id)(s.dialers[d]) &&
      ErrorPending(id)(dl) == ErrorPending(id)(s.dialers[d])
    requires Begun(id)(f) == Begun(id)(s.flows[i])
    requires FlowUp(id)(f) + UpPending(id)(dl) == FlowUp(id)(s.flows[i]) + UpPending(id)(s.dialers[d])
    requires FlowDown(id)(f) + DownPending(id)(dl) == FlowDown(id)(s.flows[i]) + DownPending(id)(s.dialers[d])
    ensures Balanced(s.(flows := s.flows[i := f], dialers := s.dialers[d := dl]), id)
  {
    DialerSums(s.dialers, d, dl, id);
    FlowUpdateSums(s.flows, i, f, id);
  }

  /** Steps that pass booked bytes on to the flow. */
  lemma {:induction false} AddingKeepsBalance(s: State, d: nat, act: Action, t: State, id: string)
    requires d < |s.dialers| && Act(s, d, act) == Some(t) && (act.AddUp? || act.AddDown?)
    requires Balanced(s, id) && Linked(s)
    ensures Balanced(t, id)
  {
    var i := s.dialers[d].phase.flow;
    assert t == s.(flows := s.flows[i := t.flows[i]], dialers := s.dialers[d := t.dialers[d]]);
    PassedToFlow(s, d, t.dialers[d], i, t.flows[i], id);
  }

  lemma {:induction false} ActKeepsBalance(s: State, d: nat, act: Action, t: State, id: string)
    requires d < |s.dialers| && Act(s, d, act) == Some(t)
    requires Balanced(s, id) && Linked(s)
    ensures Balanced(t, id)
  {
    if Decides(act) {
      DecidingKeepsBalance(s, d, act, t, id);
    } else if Counts(act) {
      CountingKeepsBalance(s, d, act, t, id);
    } else if Begins(act) {
      BeginningKeepsBalance(s, d, act, t, id);
    } else if Books(act) {
      BookingKeepsBalance(s, d, act, t, id);
    } else {
      AddingKeepsBalance(s, d, act, t, id);
    }
  }

  lemma {:induction false} ActKeepsLinked(s: State, d: nat, act: Action, t: State)
    requires d < |s.dialers| && Act(s, d, act) == Some(t) && Linked(s)
    ensures Linked(t)
  {
    assert |t.flows| >= |s.flows|;
    forall i | 0 <= i < |s.flows|
      ensures KeyOf(t.flows[i]) == KeyOf(s.flows[i])
    {
    }
    assert t.dialers == s.dialers[d := t.dialers[d]];
  }

  lemma {:induction false} StepKeepsLinked(s: State, e: Event, t: State)
    requires Next(s, e, t) && Linked(s)
    ensures Linked(t)
  {
    hide Act;
    if e.By? {
      ActKeepsLinked(s, e.d, e.act, t);
    }
  }

  lemma {:induction false} StartKeepsBalance(s: State, id: string)
    requires Balanced(s, id)
    ensures Balanced(s.(dialers := s.dialers + [Dialer([], Picking)]), id)
  {
    var dl := Dialer([], Picking);
    SumAppend(s.dialers, dl, DialPending(id));
    SumAppend(s.dialers, dl, ErrorPending(id));
    SumAppend(s.dialers, dl, UpPending(id));
    SumAppend(s.dialers, dl, DownPending(id));
  }

  lemma {:induction false} StepKeepsBalance(s: State, e: Event, t: State, id: string)
    requires Next(s, e, t) && Balanced(s, id) && Linked(s)
    ensures Balanced(t, id)
  {
    hide Act, SumOf;
    match e
    case Start => StartKeepsBalance(s, id);
    case By(d, act) =>
      ActKeepsBalance(s, d, act, t, id);
    case _ =>
  }

  /** In every state of every run, every row balances. */
  lemma {:induction false} AlwaysBalanced(ss: seq<State>, es: seq<Event>, n: nat, id: string)
    requires IsRun(ss, es) && n <= |es|
    ensures Balanced(ss[n], id) && Linked(ss[n])
  {
    hide Next;
    if n > 0 {
      AlwaysBalanced(ss, es, n - 1, id);
      var e := es[n - 1];
      StepKeepsBalance(ss[n - 1], e, ss[n], id);
      StepKeepsLinked(ss[n - 1], e, ss[n]);
    }
  }

  /** No dial outcome and no byte count is half booked. */
  predicate Quiescent(s: State) {
    forall d :: 0 <= d < |s.dialers| ==>
      match s.dialers[d].phase
      case Counted(_, _) => false
      case Errored(_) => false
      case MarkedDown(_) => false
      case Connected(_, _, _, up, down) => up == 0 && down == 0
      case _ => true
  }

  /** Conservation in quiescent states: every error had its failover, every other dial began
      a flow, and the byte counters are the sums over all flows ever begun. */
  lemma {:induction false} Conservation(ss: seq<State>, es: seq<Event>, n: nat, id: string)
    requires IsRun(ss, es) && n <= |es| && Quiescent(ss[n])
    ensures var r := RowOf(ss[n], id);
      && r.failovers == r.errors
      && r.dials == r.errors + SumOf(ss[n].flows, Begun(id))
      && r.up == SumOf(ss[n].flows, FlowUp(id))
      && r.down == SumOf(ss[n].flows, FlowDown(id))
  {
    var s := ss[n];
    AlwaysBalanced(ss, es, n, id);
    forall dl | dl in s.dialers
      ensures DialPending(id)(dl) == 0 && ErrorPending(id)(dl) == 0 && UpPending(id)(dl) == 0 &&
        DownPending(id)(dl) == 0
    {
      var d :| 0 <= d < |s.dialers| && s.dialers[d] == dl;
    }
    SumZero(s.dialers, DialPending(id));
    SumZero(s.dialers, ErrorPending(id));
    SumZero(s.dialers, UpPending(id));
    SumZero(s.dialers, DownPending(id));
  }

  // ----- rows and history -----

  /** What one event adds to a row: a dial of that endpoint, its failure, its failover, the bytes
      written to and read from a connection booked there. */
  ghost predicate AddsToRow(s: State, e: Event, id: string, was: Row, now: Row) {
    var acts := e.By? && e.d < |s.dialers|;
    && now.dials == was.dials + (if acts && e.act.Dial? && s.dialers[e.d].phase == Dialling(id) then 1 else 0)
    && now.errors == was.errors +
         (if acts && e.act.CountError? && s.dialers[e.d].phase == Counted(id, false) then 1 else 0)
    && now.failovers == was.failovers +
         (if acts && e.act.CountFailover? && s.dialers[e.d].phase == MarkedDown(id) then 1 else 0)
    && now.up == was.up + (if acts && e.act.Write? && OpenOn(s.dialers[e.d].phase, id) then e.act.n else 0)
    && now.down == was.down + (if acts && e.act.Read? && OpenOn(s.dialers[e.d].phase, id) then e.act.n else 0)
  }

  predicate OpenOn(p: Phase, id: string) {
    p.Connected? && p.key == id
  }

  lemma {:induction false} CountingAddsToRow(s: State, d: nat, act: Action, t: State, id: string)
    requires d < |s.dialers| && Act(s, d, act) == Some(t) && Counts(act)
    ensures AddsToRow(s, By(d, act), id, RowOf(s, id), RowOf(t, id))
  {
  }

  lemma {:induction false} BookingAddsToRow(s: State, d: nat, act: Action, t: State, id: string)
    requires d < |s.dialers| && Act(s, d, act) == Some(t) && Books(act)
    ensures AddsToRow(s, By(d, act), id, RowOf(s, id), RowOf(t, id))
  {
  }

  lemma {:induction false} OthersKeepRows(s: State, d: nat, act: Action, t: State)
    requires d < |s.dialers| && Act(s, d, act) == Some(t) && !Counts(act) && !Books(act)
    ensures t.rows == s.rows
  {
    hide UpdateFirst, NothingLeft, Candidate;
  }

  lemma {:induction false} StepAddsToRow(s: State, e: Event, t: State, id: string)
    requires Next(s, e, t)
    ensures AddsToRow(s, e, id, RowOf(s, id), RowOf(t, id))
  {
    hide Act, UpdateFirst, OpenOn;
    if e.By? {
      if Counts(e.act) {
        CountingAddsToRow(s, e.d, e.act, t, id);
      } else if Books(e.act) {
        BookingAddsToRow(s, e.d, e.act, t, id);
      } else {
        OthersKeepRows(s, e.d, e.act, t);
      }
    }
  }

  /** The rows are the history: each counter starts at zero and every step adds exactly what
      happened to the endpoint. */
  lemma {:induction false} RowsAreHistory(ss: seq<State>, es: seq<Event>, id: string)
    requires IsRun(ss, es)
    ensures RowOf(ss[0], id) == Row(0, 0, 0, 0, 0)
    ensures forall k :: 0 <= k < |es| ==> AddsToRow(ss[k], es[k], id, RowOf(ss[k], id), RowOf(ss[k + 1], id))
  {
    hide Next, AddsToRow;
    forall k | 0 <= k < |es|
      ensures AddsToRow(ss[k], es[k], id, RowOf(ss[k], id), RowOf(ss[k + 1], id))
    {
      assert Next(ss[k], es[k], ss[k + 1]);
      StepAddsToRow(ss[k], es[k], ss[k + 1], id);
    }
  }

  // ----- flows and history -----

  /** What one event does to flow `f`: bytes that a connection still owed it arrive. */
  ghost predicate FlowAfter(s: State, e: Event, t: State, f: nat)
    requires f < |s.flows| <= |t.flows|
  {
    var was, now := s.flows[f], t.flows[f];
    var own := e.By? && e.d < |s.dialers| && s.dialers[e.d].phase.Connected? && s.dialers[e.d].phase.flow == f;
    && now.endpointID == was.endpointID && now.kind == was.kind
    && now.up == was.up + (if own && e.act.AddUp? then s.dialers[e.d].phase.pendingUp else 0)
    && now.down == was.down + (if own && e.act.AddDown? then s.dialers[e.d].phase.pendingDown else 0)
  }

  /** The flow one event begins: through the endpoint whose dial worked, direct, or refused; `now` is
      the phase of its dialer. */
  ghost predicate FlowBegun(was: Phase, act: Action, now: Phase, begun: seq<Flow>, n: nat) {
    if act.Begin? then
      && was.Counted? && was.worked && begun == [Flow(was.id, Proxied, 0, 0)]
      && now == Connected(n, Proxied, was.id, 0, 0)
    else if act.BeginDirect? then
      was == DirectUp && begun == [Flow("", Direct, 0, 0)] && now == Connected(n, Direct, "direct", 0, 0)
    else if act.BeginRefused? then was == Refusing && begun == [Flow("", Refused, 0, 0)] && now == Finished
    else begun == []
  }

  ghost predicate FlowsAfter(s: State, e: Event, t: State) {
    && |s.flows| <= |t.flows|
    && (!e.By? ==> |s.flows| == |t.flows|)
    && (e.By? ==>
          && e.d < |s.dialers| && e.d < |t.dialers|
          && FlowBegun(s.dialers[e.d].phase, e.act, t.dialers[e.d].phase, t.flows[|s.flows|..], |s.flows|))
    && forall f :: 0 <= f < |s.flows| ==> FlowAfter(s, e, t, f)
  }

  lemma {:induction false} BeginningStep(s: State, d: nat, act: Action, t: State)
    requires d < |s.dialers| && Act(s, d, act) == Some(t) && Begins(act)
    ensures FlowsAfter(s, By(d, act), t)
  {
  }

  lemma {:induction false} AddingStep(s: State, d: nat, act: Action, t: State)
    requires d < |s.dialers| && Act(s, d, act) == Some(t) && (act.AddUp? || act.AddDown?)
    ensures FlowsAfter(s, By(d, act), t)
  {
  }

  lemma {:induction false} OthersKeepFlows(s: State, d: nat, act: Action, t: State)
    requires d < |s.dialers| && Act(s, d, act) == Some(t) && !Begins(act) && !act.AddUp? && !act.AddDown?
    ensures t.flows == s.flows && |t.dialers| == |s.dialers|
  {
    hide UpdateFirst, NothingLeft, Candidate, RowOf;
  }

  lemma {:induction false} StepFlows(s: State, e: Event, t: State)
    requires Next(s, e, t)
    ensures FlowsAfter(s, e, t)
  {
    hide Act, UpdateFirst;
    if e.By? {
      if Begins(e.act) {
        BeginningStep(s, e.d, e.act, t);
      } else if e.act.AddUp? || e.act.AddDown? {
        AddingStep(s, e.d, e.act, t);
      } else {
        OthersKeepFlows(s, e.d, e.act, t);
      }
    }
  }

  /** The flows are the history: one for every connection and every refusal, in the order in which
      they began, each with its endpoint and kind for ever and the bytes of its own connection. */
  lemma {:induction false} FlowsAreHistory(ss: seq<State>, es: seq<Event>)
    requires IsRun(ss, es)
    ensures ss[0].flows == []
    ensures forall k :: 0 <= k < |es| ==> FlowsAfter(ss[k], es[k], ss[k + 1])
  {
    hide Next, FlowsAfter;
    forall k | 0 <= k < |es|
      ensures FlowsAfter(ss[k], es[k], ss[k + 1])
    {
      assert Next(ss[k], es[k], ss[k + 1]);
      StepFlows(ss[k], es[k], ss[k + 1]);
    }
  }

  /** An open connection can always go on: it books what was read or written when nothing is owed
      in that direction, and else passes what is owed to its own flow. */
  lemma {:induction false} ConnectionCanMove(s: State, d: nat, n: nat)
    requires d < |s.dialers| && s.dialers[d].phase.Connected? && Linked(s)
    ensures s.dialers[d].phase.pendingUp == 0 ==> Act(s, d, Write(n)).Some?
    ensures s.dialers[d].phase.pendingDown == 0 ==> Act(s, d, Read(n)).Some?
    ensures Act(s, d, AddUp).Some? && Act(s, d, AddUp).value.dialers[d].phase == s.dialers[d].phase.(pendingUp := 0)
    ensures Act(s, d, AddDown).Some? &&
      Act(s, d, AddDown).value.dialers[d].phase == s.dialers[d].phase.(pendingDown := 0)
  {
    hide UpdateFirst, NothingLeft, Candidate;
  }

  /** Bytes of the connections dialled directly. */
  function DirectUpOf(): Flow -> nat {
    (f: Flow) => if f.kind == Direct then f.up else 0
  }

  function DirectDownOf(): Flow -> nat {
    (f: Flow) => if f.kind == Direct then f.down else 0
  }

  /** Bytes of the proxied connections of an endpoint. */
  function ProxiedUpOf(id: string): Flow -> nat {
    (f: Flow) => if f.kind == Proxied && f.endpointID == id then f.up else 0
  }

  function ProxiedDownOf(id: string): Flow -> nat {
    (f: Flow) => if f.kind == Proxied && f.endpointID == id then f.down else 0
  }

  lemma {:induction false} KeySplits(fs: seq<Flow>, id: string)
    ensures SumOf(fs, FlowUp(id)) == SumOf(fs, ProxiedUpOf(id)) + if id == DIRECT then SumOf(fs, DirectUpOf()) else 0
    ensures SumOf(fs, FlowDown(id)) ==
      SumOf(fs, ProxiedDownOf(id)) + if id == DIRECT then SumOf(fs, DirectDownOf()) else 0
  {
    if fs != [] {
      KeySplits(fs[..|fs| - 1], id);
    }
  }

  /** An endpoint's byte counters are the sums over its own flows, unless it is named
      "direct". */
  lemma {:induction false} EndpointBytes(ss: seq<State>, es: seq<Event>, n: nat, id: string)
    requires IsRun(ss, es) && n <= |es| && Quiescent(ss[n]) && id != DIRECT
    ensures RowOf(ss[n], id).up == SumOf(ss[n].flows, ProxiedUpOf(id))
    ensures RowOf(ss[n], id).down == SumOf(ss[n].flows, ProxiedDownOf(id))
  {
    Conservation(ss, es, n, id);
    KeySplits(ss[n].flows, id);
  }

  // ----- the row of direct connections -----

  /** No endpoint called "direct" can come to be picked: each is unhealthy, or disabled and
      behind another of that name, at which a patch stops. */
  predicate Dormant(pool: seq<Peer>) {
    forall i :: 0 <= i < |pool| && pool[i].id == DIRECT && pool[i].ok ==>
      !pool[i].enabled && exists j :: 0 <= j < i && pool[j].id == DIRECT
  }

  predicate PoolsAreDormant(es: seq<Event>) {
    forall k :: 0 <= k < |es| && es[k].SetPool? ==> Dormant(es[k].pool)
  }

  /** Nothing proxied is called "direct": no dial under way and no flow, and none can be. */
  predicate DirectIsFree(s: State) {
    && Dormant(s.pool)
    && (forall d :: 0 <= d < |s.dialers| ==>
          (s.dialers[d].phase.Dialling? || s.dialers[d].phase.Counted? ==> s.dialers[d].phase.id != DIRECT))
    && (forall f :: 0 <= f < |s.flows| ==> s.flows[f].kind == Proxied ==> s.flows[f].endpointID != DIRECT)
  }

  lemma {:induction false} UpdateKeepsDormant(pool: seq<Peer>, id: string, f: Peer -> Peer)
    requires Dormant(pool) && forall p :: f(p).id == p.id && (f(p).ok ==> p.ok)
    ensures Dormant(UpdateFirst(pool, id, f))
  {
    hide UpdateFirst;
    var m := UpdateFirstAt(pool, id, f);
    var after := UpdateFirst(pool, id, f);
    forall i | 0 <= i < |after| && after[i].id == DIRECT && after[i].ok
      ensures !after[i].enabled && exists j :: 0 <= j < i && after[j].id == DIRECT
    {
      var j :| 0 <= j < i && pool[j].id == DIRECT;
      assert after[j].id == DIRECT;
    }
  }

  lemma {:induction false} ActKeepsDirectFree(s: State, d: nat, act: Action, t: State)
    requires d < |s.dialers| && Act(s, d, act) == Some(t) && DirectIsFree(s)
    ensures DirectIsFree(t)
  {
    hide RowOf, NothingLeft;
    if act.Mark? {
      UpdateKeepsDormant(s.pool, s.dialers[d].phase.id, (p: Peer) => p.(ok := false));
    }
    assert t.dialers == s.dialers[d := t.dialers[d]];
  }

  lemma {:induction false} StepKeepsDirectFree(s: State, e: Event, t: State)
    requires Next(s, e, t) && DirectIsFree(s) && (e.SetPool? ==> Dormant(e.pool))
    ensures DirectIsFree(t)
  {
    hide Act;
    if e.By? {
      ActKeepsDirectFree(s, e.d, e.act, t);
    } else if e.Patch? {
      UpdateKeepsDormant(s.pool, e.id, (p: Peer) => p.(enabled := e.enabled));
    }
  }

  lemma {:induction false} DirectStaysFree(ss: seq<State>, es: seq<Event>, n: nat)
    requires IsRun(ss, es) && n <= |es| && PoolsAreDormant(es)
    ensures DirectIsFree(ss[n])
  {
    hide Next;
    if n > 0 {
      DirectStaysFree(ss, es, n - 1);
      StepKeepsDirectFree(ss[n - 1], es[n - 1], ss[n]);
    }
  }

  /** While every pool that is set is dormant in this sense, as any without an endpoint called
      "direct" is, direct flows balance the "direct" row. */
  lemma {:induction false} DirectBytes(ss: seq<State>, es: seq<Event>, n: nat)
    requires IsRun(ss, es) && n <= |es| && Quiescent(ss[n]) && PoolsAreDormant(es)
    ensures RowOf(ss[n], DIRECT).up == SumOf(ss[n].flows, DirectUpOf())
    ensures RowOf(ss[n], DIRECT).down == SumOf(ss[n].flows, DirectDownOf())
  {
    Conservation(ss, es, n, DIRECT);
    KeySplits(ss[n].flows, DIRECT);
    DirectStaysFree(ss, es, n);
    SumZero(ss[n].flows, ProxiedUpOf(DIRECT));
    SumZero(ss[n].flows, ProxiedDownOf(DIRECT));
  }

  /** One more step of a run, to the state `t`, given field by field. */
  lemma {:induction false} Then(ss: seq<State>, es: seq<Event>, e: Event, t: State)
    returns (ss': seq<State>, es': seq<Event>)
    requires IsRun(ss, es) && Step(ss[|es|], e).Some?
    requires var r := Step(ss[|es|], e).value;
      && r.pool == t.pool && r.blockDirect == t.blockDirect && r.rows == t.rows
      && r.flows == t.flows && r.dialers == t.dialers
    ensures IsRun(ss', es') && ss' == ss + [t] && es' == es + [e] && ss'[|es'|] == t
  {
    assert Step(ss[|es|], e) == Some(t);
    ss', es' := ss + [t], es + [e];
    forall k {:trigger es'[k]} | 0 <= k < |es'|
      ensures Next(ss'[k], es'[k], ss'[k + 1])
    {
      assert k < |es| ==> es'[k] == es[k] && Next(ss[k], es[k], ss[k + 1]);
    }
  }

  /** A patch wakes a pool that is not dormant. */
  lemma {:induction false} Awake(pool: seq<Peer>, e: Event) returns (i: nat, woken: seq<Peer>)
    requires !Dormant(pool) && e == Patch(DIRECT, true)
    ensures woken == UpdateFirst(pool, DIRECT, (p: Peer) => p.(enabled := e.enabled))
    ensures i < |woken| && woken[i] == Peer(DIRECT, true, true)
  {
    hide UpdateFirst;
    i :| i < |pool| && pool[i].id == DIRECT && pool[i].ok &&
      !(!pool[i].enabled && exists j :: 0 <= j < i && pool[j].id == DIRECT);
    var m := UpdateFirstAt(pool, DIRECT, (p: Peer) => p.(enabled := e.enabled));
    woken := UpdateFirst(pool, DIRECT, (p: Peer) => p.(enabled := e.enabled));
  }

  /** An endpoint called "direct" is enabled, dialled and connected. */
  lemma {:induction false} DialNamedDirect(pool: seq<Peer>) returns (woken: seq<Peer>, ss: seq<State>, es: seq<Event>)
    requires !Dormant(pool)
    ensures IsRun(ss, es) && |es| == 6 && es[0] == SetPool(pool) && forall k :: 1 <= k < 6 ==> !es[k].SetPool?
    ensures ss[6] == State(woken, false, map[DIRECT := Row(1, 0, 0, 0, 0)], [Flow(DIRECT, Proxied, 0, 0)],
                           [Dialer([DIRECT], Connected(0, Proxied, DIRECT, 0, 0))])
  {
    hide UpdateFirst, Dormant, IsRun;
    var patch := Patch(DIRECT, true);
    var i;
    i, woken := Awake(pool, patch);
    FirstState();
    ss, es := [INIT], [];
    ss, es := Then(ss, es, SetPool(pool), State(pool, false, map[], [], []));
    ss, es := Then(ss, es, patch, State(woken, false, map[], [], []));
    ss, es := Then(ss, es, Start, State(woken, false, map[], [], [Dialer([], Picking)]));
    var none: seq<string> := [];
    assert none + [DIRECT] == [DIRECT];
    ss, es := Then(ss, es, By(0, Pick(i)), State(woken, false, map[], [], [Dialer([DIRECT], Dialling(DIRECT))]));
    var rows := map[DIRECT := Row(1, 0, 0, 0, 0)];
    ss, es := Then(ss, es, By(0, Dial(true)), State(woken, false, rows, [], [Dialer([DIRECT], Counted(DIRECT, true))]));
    ss, es := Then(ss, es, By(0, Begin), State(woken, false, rows, [Flow(DIRECT, Proxied, 0, 0)],
                   [Dialer([DIRECT], Connected(0, Proxied, DIRECT, 0, 0))]));
  }

  lemma {:induction false} FirstState()
    ensures IsRun([INIT], [])
  {
  }

  /** From any other pool the row can go wrong: there is a run in which `n` bytes pass through an
      endpoint called "direct" and none directly. */
  lemma {:induction false} SharedDirectRow(pool: seq<Peer>, n: nat) returns (ss: seq<State>, es: seq<Event>)
    requires !Dormant(pool) && n > 0
    ensures IsRun(ss, es) && es != [] && es[0] == SetPool(pool) && forall k :: 1 <= k < |es| ==> !es[k].SetPool?
    ensures var s := ss[|es|]; Quiescent(s) && RowOf(s, DIRECT).up == n && SumOf(s.flows, DirectUpOf()) == 0
  {
    hide Dormant;
    var woken;
    woken, ss, es := DialNamedDirect(pool);
    var rows := map[DIRECT := Row(1, 0, 0, n, 0)];
    ss, es := Then(ss, es, By(0, Write(n)), State(woken, false, rows, [Flow(DIRECT, Proxied, 0, 0)],
                   [Dialer([DIRECT], Connected(0, Proxied, DIRECT, n, 0))]));
    ss, es := Then(ss, es, By(0, AddUp), State(woken, false, rows, [Flow(DIRECT, Proxied, n, 0)],
                   [Dialer([DIRECT], Connected(0, Proxied, DIRECT, 0, 0))]));
    SumZero(ss[|es|].flows, DirectUpOf());
  }
}
