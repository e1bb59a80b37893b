/**
One call of the executor among others (src/oa_knowledge/online_audit.py, `execute_audit`): at every
boundary between two of its transactions others may have acted on the run.
*/
module AuditBatch {
  import opened Wrappers
  import opened AuditLedger
  import opened AuditProtocol

  /** What a call is given, and what others do before each of its transactions after the first. */
  datatype Input = Input(
    manifest: seq<string>,
    repaired: nat -> Option<Status>,
    inspect: (string, nat) -> Outcome,
    budget: nat,
    others: nat -> seq<Event>)

  function OutsideAll(l: Ledger, events: seq<Event>): Ledger {
    if events == [] then l else OutsideStep(OutsideAll(l, events[..|events| - 1]), events[|events| - 1])
  }

  /** How far a phase is from the end of the call. */
  function Rank(p: Phase, budget: nat): nat {
    match p
    case Idle => 0
    case Closing => 1
    case Checking => 2
    case Inspecting(done, _) => 3 + if done < budget then 2 * (budget - done) else 0
    case Looping(done) => 4 + if done < budget then 2 * (budget - done) else 0
  }

  /** The next transaction of the executor, on the run as others left it. */
  function Own(l: Ledger, p: Phase, x: Input): Event {
    match p
    case Idle => Begin(x.manifest, x.repaired)
    case Looping(_) => Turn
    case Inspecting(done, i) =>
      Finish(if i < |l.items| then x.inspect(l.items[i].key, l.items[i].looks) else Raised(false), done + 1 >= x.budget)
    case Checking => Check(x.manifest)
    case Closing => CloseRun
  }

  function Next(s: State, x: Input, tick: nat): State {
    var l := OutsideAll(s.ledger, x.others(tick));
    Step(State(l, s.phase), Own(l, s.phase, x))
  }

  /** The rest of a call. An item that is being inspected is still there, since items are never removed. */
  function Rest(s: State, x: Input, tick: nat): State
    decreases Rank(s.phase, x.budget)
  {
    if s.phase.Idle? || Rank(Next(s, x, tick).phase, x.budget) >= Rank(s.phase, x.budget) then s
    else Rest(Next(s, x, tick), x, tick + 1)
  }

  function Batch(l: Ledger, x: Input): State {
    Rest(Step(State(l, Idle), Begin(x.manifest, x.repaired)), x, 0)
  }

  // --- a call is a run of events ---

  ghost predicate ProperInput(x: Input) {
    && Distinct(x.manifest) && GoodOracle(x.inspect)
    && forall t, i :: 0 <= i < |x.others(t)| ==> Outside(x.others(t)[i]) && Proper(x.others(t)[i])
  }

  lemma {:induction false} OutsideAllKeeps(s: State, events: seq<Event>)
    requires Good(s) && forall i :: 0 <= i < |events| ==> Outside(events[i]) && Proper(events[i])
    ensures Good(State(OutsideAll(s.ledger, events), s.phase))
  {
    hide Good, OutsideStep, Proper;
    if events != [] {
      OutsideAllKeeps(s, events[..|events| - 1]);
      var u := State(OutsideAll(s.ledger, events[..|events| - 1]), s.phase);
      OutsideKeepsGood(u, events[|events| - 1]);
    }
  }

  lemma OwnIsProper(l: Ledger, p: Phase, x: Input)
    requires ProperInput(x)
    ensures Proper(Own(l, p, x))
  {
  }

  /** A transaction of the executor leads on: each call ends. */
  lemma NextComesCloser(s: State, x: Input, tick: nat)
    requires Good(s) && ProperInput(x) && s.phase != Idle
    ensures Rank(Next(s, x, tick).phase, x.budget) < Rank(s.phase, x.budget)
  {
    OutsideAllKeeps(s, x.others(tick));
    hide Balanced, OutsideAll, Proper;
    var l := OutsideAll(s.ledger, x.others(tick));
    if s.phase.Inspecting? {
      InspectedIsThere(State(l, s.phase));
    }
    hide Good, Step, Own;
    OwnComesCloser(l, s.phase, x);
  }

  lemma InspectedIsThere(s: State)
    requires Good(s) && s.phase.Inspecting?
    ensures s.phase.item < |s.ledger.items|
  {
  }

  lemma OwnComesCloser(l: Ledger, p: Phase, x: Input)
    requires p != Idle && (p.Inspecting? ==> p.item < |l.items|)
    ensures Rank(Step(State(l, p), Own(l, p, x)).phase, x.budget) < Rank(p, x.budget)
  {
    hide Close, Enroll, FinishItem, StartItem;
  }

  /**
  However others act between its transactions, a call ends, and with a balanced ledger, unless its last
  transaction completes the run while an item is open.
  */
  lemma {:induction false} RestIsBalanced(s: State, x: Input, tick: nat)
    requires Good(s) && ProperInput(x)
    ensures var r := Rest(s, x, tick);
      && r.phase == Idle
      && (Balanced(r.ledger) ||
        (r.ledger.run.status == Completed && exists i :: 0 <= i < |r.ledger.items| && Open(r.ledger.items[i].status)))
    decreases Rank(s.phase, x.budget)
  {
    hide Good, Next, Balanced, ProperInput;
    GoodIsBalanced(s);
    if s.phase != Idle {
      NextComesCloser(s, x, tick);
      NextKeepsGood(s, x, tick);
      if Good(Next(s, x, tick)) {
        RestIsBalanced(Next(s, x, tick), x, tick + 1);
      }
    }
  }

  lemma NextKeepsGood(s: State, x: Input, tick: nat)
    requires Good(s) && ProperInput(x) && s.phase != Idle
    ensures var u := Next(s, x, tick);
      Good(u) || (u.phase == Idle && u.ledger.run.status == Completed &&
        exists i :: 0 <= i < |u.ledger.items| && Open(u.ledger.items[i].status))
  {
    OutsideAllKeeps(s, x.others(tick));
    var l := OutsideAll(s.ledger, x.others(tick));
    var v := State(l, s.phase);
    OwnIsProper(l, s.phase, x);
    hide ProperInput, Good, OutsideAll;
    if Honest(v, Own(l, s.phase, x)) {
      hide Step, Honest, Own;
      StepKeepsGood(v, Own(l, s.phase, x));
    } else {
      assert s.phase.Closing? && Close(l).run.status == Completed;
      CompletedKeepsItems(l);
    }
  }

  /** The executor's next transaction, while there is one. */
  lemma RestGoesOn(s: State, x: Input, tick: nat)
    requires Good(s) && ProperInput(x) && s.phase != Idle
    ensures var u := Next(s, x, tick);
      && Rest(s, x, tick) == Rest(u, x, tick + 1) && Rank(u.phase, x.budget) < Rank(s.phase, x.budget)
      && (u.phase != Idle ==> Good(u))
      && (s.phase.Looping? ==> u.phase.Idle? || u.phase.Inspecting? || u.phase.Checking?)
      && (s.phase.Inspecting? ==>
        s.phase.item < |OutsideAll(s.ledger, x.others(tick)).items| &&
        (u.phase.Looping? || u.phase.Checking?))
      && (s.phase.Checking? ==> u.phase.Idle? || u.phase.Closing?)
      && (s.phase.Closing? ==> u == State(Close(OutsideAll(s.ledger, x.others(tick))), Idle))
  {
    NextComesCloser(s, x, tick);
    NextKeepsGood(s, x, tick);
    OutsideAllKeeps(s, x.others(tick));
    hide Balanced, OutsideAll, Close, Enroll, FinishItem, StartItem, ProperInput;
  }

  lemma RestEnds(l: Ledger, x: Input, tick: nat)
    ensures Rest(State(l, Idle), x, tick) == State(l, Idle)
  {
  }

  lemma BatchStarts(l: Ledger, x: Input)
    requires Balanced(l) && ProperInput(x)
    ensures var s := State(AuditLedger.Begin(l, x.manifest, x.repaired), Looping(0));
      Good(s) && Batch(l, x) == Rest(s, x, 0)
  {
    StepKeepsGood(State(l, Idle), Begin(x.manifest, x.repaired));
    hide Rest, AuditLedger.Begin, Good;
  }

  lemma CompletedKeepsItems(l: Ledger)
    requires Close(l).run.status == Completed
    ensures Close(l).items == l.items
  {
  }

  lemma BatchIsBalanced(l: Ledger, x: Input)
    requires Balanced(l) && ProperInput(x)
    ensures var r := Batch(l, x);
      && r.phase == Idle
      && (Balanced(r.ledger) <==>
        !(r.ledger.run.status == Completed && exists i :: 0 <= i < |r.ledger.items| && Open(r.ledger.items[i].status)))
  {
    var s := State(l, Idle);
    StepKeepsGood(s, Begin(x.manifest, x.repaired));
    hide Step;
    RestIsBalanced(Step(s, Begin(x.manifest, x.repaired)), x, 0);
    hide Rest, Good;
  }

  // --- undisturbed ---

  ghost predicate Quiet(x: Input) {
    forall t :: x.others(t) == []
  }

  /** The loop of an undisturbed call does the work of the batch. */
  lemma {:induction false} LoopIsWork(l: Ledger, x: Input, done: nat, tick: nat) returns (t: nat)
    requires Quiet(x) && done < x.budget && !l.run.pauseAsked
    ensures Rest(State(l, Looping(done)), x, tick) == Rest(State(Work(l, x.inspect, x.budget - done), Checking), x, t)
    decreases x.budget - done
  {
    hide Rest, InspectItem, Quiet, FirstPending;
    if FirstPending(l.items, 0).None? {
      LeavesLoop(l, x, done, tick);
      t := tick + 1;
    } else {
      var i := FirstPending(l.items, 0).value;
      var w := InspectItem(l, i, x.inspect);
      OneInspection(l, x, done, tick, i);
      if done + 1 >= x.budget {
        t := tick + 2;
      } else {
        InspectKeepsPause(l, i, x.inspect);
        t := LoopIsWork(w, x, done + 1, tick + 2);
      }
    }
  }

  lemma LeavesLoop(l: Ledger, x: Input, done: nat, tick: nat)
    requires Quiet(x) && done < x.budget && !l.run.pauseAsked && FirstPending(l.items, 0).None?
    ensures Rest(State(l, Looping(done)), x, tick) == Rest(State(l, Checking), x, tick + 1)
  {
    assert OutsideAll(l, x.others(tick)) == l;
    assert Next(State(l, Looping(done)), x, tick) == State(l, Checking);
  }

  lemma OneInspection(l: Ledger, x: Input, done: nat, tick: nat, i: nat)
    requires Quiet(x) && done < x.budget && !l.run.pauseAsked && FirstPending(l.items, 0) == Some(i)
    ensures Rest(State(l, Looping(done)), x, tick)
            == Rest(State(InspectItem(l, i, x.inspect), if done + 1 >= x.budget then Checking else Looping(done + 1)),
              x, tick + 2)
  {
    hide Count;
    var s, m := State(l, Looping(done)), StartItem(l, i);
    var w := State(InspectItem(l, i, x.inspect), if done + 1 >= x.budget then Checking else Looping(done + 1));
    assert OutsideAll(l, x.others(tick)) == l && OutsideAll(m, x.others(tick + 1)) == m;
    assert Next(s, x, tick) == State(m, Inspecting(done, i));
    assert Next(State(m, Inspecting(done, i)), x, tick + 1) == w;
    InspectedOnce(s, State(m, Inspecting(done, i)), w, x, tick);
  }

  lemma InspectedOnce(s: State, m: State, w: State, x: Input, tick: nat)
    requires Next(s, x, tick) == m && Next(m, x, tick + 1) == w && s.phase != Idle && m.phase != Idle
    requires Rank(m.phase, x.budget) < Rank(s.phase, x.budget) && Rank(w.phase, x.budget) < Rank(m.phase, x.budget)
    ensures Rest(s, x, tick) == Rest(w, x, tick + 2)
  {
    hide Next;
    assert Rest(s, x, tick) == Rest(m, x, tick + 1);
  }

  lemma InspectKeepsPause(l: Ledger, i: nat, inspect: (string, nat) -> Outcome)
    requires i < |l.items|
    ensures InspectItem(l, i, inspect).run.pauseAsked == l.run.pauseAsked
  {
    hide Count;
  }

  /** Nobody else acting, a call is the batch whose repetition finishes an audit. */
  lemma QuietBatch(l: Ledger, x: Input)
    requires Quiet(x) && x.budget > 0
    ensures Batch(l, x) == State(Execute(l, x.manifest, x.repaired, x.inspect, x.budget), Idle)
  {
    var b := AuditLedger.Begin(l, x.manifest, x.repaired);
    FirstTransaction(l, x);
    hide AuditLedger.Begin, Work, Enroll, Close, Batch, Rest, Quiet;
    if b.run.pauseAsked {
      PausedAtOnce(b, x);
    } else {
      var t := LoopIsWork(b, x, 0, 0);
      CheckAndClose(Work(b, x.inspect, x.budget), x, t);
    }
  }

  lemma FirstTransaction(l: Ledger, x: Input)
    ensures Batch(l, x) == Rest(State(AuditLedger.Begin(l, x.manifest, x.repaired), Looping(0)), x, 0)
  {
    hide Rest, AuditLedger.Begin;
  }

  lemma PausedAtOnce(b: Ledger, x: Input)
    requires Quiet(x) && b.run.pauseAsked
    ensures Rest(State(b, Looping(0)), x, 0) == State(WithStatus(b, Paused), Idle)
  {
    assert OutsideAll(b, x.others(0)) == b;
    var u := State(WithStatus(b, Paused), Idle);
    assert Next(State(b, Looping(0)), x, 0) == u;
    assert Rest(u, x, 1) == u;
  }

  lemma CheckAndClose(w: Ledger, x: Input, t: nat)
    requires Quiet(x)
    ensures var e := Enroll(w, x.manifest);
      Rest(State(w, Checking), x, t)
      == State(if FirstPending(e.items, 0).Some? then WithStatus(e, Queued) else Close(e), Idle)
  {
    hide Enroll, Close;
    var e := Enroll(w, x.manifest);
    assert OutsideAll(w, x.others(t)) == w && OutsideAll(e, x.others(t + 1)) == e;
    var u := Next(State(w, Checking), x, t);
    if FirstPending(e.items, 0).None? {
      assert u == State(e, Closing);
      assert Next(u, x, t + 1) == State(Close(e), Idle);
      assert Rest(u, x, t + 1) == State(Close(e), Idle);
    }
  }
}
