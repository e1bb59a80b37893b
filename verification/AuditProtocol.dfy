/**
An audit step by step (src/oa_knowledge/online_audit.py): every committed transaction of one executor
is an event, and between any two of them others may enrol, requeue, pause, resume or fail the run.
*/
module AuditProtocol {
  import opened Wrappers
  import Evidence = AuditEvidence
  import opened AuditLedger

  /** Where the executor is: outside a batch, before an item, inspecting one, or at one of the two last transactions. */
  datatype Phase = Idle | Looping(done: nat) | Inspecting(done: nat, item: nat) | Checking | Closing

  datatype State = State(ledger: Ledger, phase: Phase)

  datatype Event =
    // the executor's transactions
    | Begin(manifest: seq<string>, repaired: nat -> Option<Status>)
    | Turn
    | Finish(outcome: Outcome, spent: bool)
    | Check(manifest: seq<string>)
    | CloseRun
    | Die
    // those of others
    | EnrollRows(manifest: seq<string>)
    | Supplemented(key: string)
    | Recaptured(key: string, manifest: seq<string>)
    | AskPause(jobQueued: bool)
    | Resume
    | FailRun
    | Supersede

  function WithStatus(l: Ledger, status: RunStatus): Ledger {
    l.(run := l.run.(status := status))
  }

  /** Before each item: pause if that is wanted, take the first pending item, or leave the loop. */
  function TurnStep(s: State, done: nat): State {
    if s.ledger.run.pauseAsked then State(WithStatus(s.ledger, Paused), Idle)
    else match FirstPending(s.ledger.items, 0)
      case None => s.(phase := Checking)
      case Some(i) => State(StartItem(s.ledger, i), Inspecting(done, i))
  }

  /** Yield if something is pending, go on to the last transaction if not. */
  function CheckStep(l: Ledger, manifest: seq<string>): State {
    var e := Enroll(l, manifest);
    if FirstPending(e.items, 0).Some? then State(WithStatus(e, Queued), Idle) else State(e, Closing)
  }

  function AskPauseStep(l: Ledger, jobQueued: bool): Ledger {
    if l.run.status in {Queued, Running} then
      l.(run := l.run.(pauseAsked := true, status := if jobQueued then Paused else PauseRequested))
    else l
  }

  function ResumeStep(l: Ledger): Ledger {
    if l.run.status in {Paused, PauseRequested, Failed} && l.job.Some?
      then l.(run := l.run.(pauseAsked := false, status := Queued)) else l
  }

  /** What others do to the run. */
  function OutsideStep(l: Ledger, e: Event): Ledger {
    match e
    case EnrollRows(manifest) => Enroll(l, manifest)
    case Supplemented(key) => RequeueSupplemented(l, key)
    case Recaptured(key, manifest) => RequeueChanged(l, key, manifest)
    case AskPause(jobQueued) => AskPauseStep(l, jobQueued)
    case Resume => ResumeStep(l)
    case FailRun => WithStatus(l, Failed)
    case Supersede => if l.run.status in {Queued, Running, PauseRequested, Paused} then WithStatus(l, Superseded) else l
    case _ => l
  }

  /** One event; an event that the executor's phase does not allow changes nothing. */
  function Step(s: State, e: Event): State {
    match e
    case Begin(manifest, repaired) => if s.phase.Idle?
      then State(AuditLedger.Begin(s.ledger, manifest, repaired), Looping(0)) else s
    case Turn => if s.phase.Looping? then TurnStep(s, s.phase.done) else s
    case Finish(outcome, spent) =>
      if s.phase.Inspecting? && s.phase.item < |s.ledger.items| then
        State(FinishItem(s.ledger, s.phase.item, outcome), if spent then Checking else Looping(s.phase.done + 1))
      else s
    case Check(manifest) => if s.phase.Checking? then CheckStep(s.ledger, manifest) else s
    case CloseRun => if s.phase.Closing? then State(Close(s.ledger), Idle) else s
    case Die => s.(phase := Idle)
    case _ => s.(ledger := OutsideStep(s.ledger, e))
  }

  function Exec(s: State, events: seq<Event>): State {
    if events == [] then s else Step(Exec(s, events[..|events| - 1]), events[|events| - 1])
  }

  // --- what every event keeps ---

  /** While the executor works the run is not completed, and only the item it inspects is running. */
  ghost predicate InPhase(s: State) {
    && (s.phase != Idle ==> s.ledger.run.status != Completed)
    && (s.phase.Looping? || s.phase.Checking? || s.phase.Closing? ==> NoneRunning(s.ledger.items))
    && (s.phase.Inspecting? ==> OnlyRunning(s.ledger.items, s.phase.item))
  }

  ghost predicate OnlyRunning(items: seq<Item>, i: nat) {
    i < |items| && items[i].status.Running? && forall k :: 0 <= k < |items| && k != i ==> !items[k].status.Running?
  }

  ghost predicate Good(s: State) {
    Balanced(s.ledger) && InPhase(s)
  }

  /** Manifests have distinct keys, and an inspection ends with a verdict or an error. */
  ghost predicate Proper(e: Event) {
    match e
    case Begin(manifest, _) => Distinct(manifest)
    case Check(manifest) => Distinct(manifest)
    case EnrollRows(manifest) => Distinct(manifest)
    case Recaptured(_, manifest) => Distinct(manifest)
    case Finish(outcome, _) => outcome.Observed? ==> Verdict(outcome.status)
    case _ => true
  }

  /** The event does not complete the run while an item is open. */
  ghost predicate Honest(s: State, e: Event) {
    e.CloseRun? && s.phase.Closing? && Close(s.ledger).run.status == Completed ==>
      forall i :: 0 <= i < |s.ledger.items| ==> !Open(s.ledger.items[i].status)
  }

  predicate Outside(e: Event) {
    e.EnrollRows? || e.Supplemented? || e.Recaptured? || e.AskPause? || e.Resume? || e.FailRun? || e.Supersede?
  }

  lemma StatusKeepsBalanced(l: Ledger, status: RunStatus, asked: bool)
    requires Balanced(l) && status != Completed
    ensures Balanced(l.(run := l.run.(status := status, pauseAsked := asked)))
  {
  }

  /** Which items others can touch: new ones, and ones that have a final status, which become pending. */
  ghost predicate Touches(a: seq<Item>, b: seq<Item>) {
    && |a| <= |b|
    && (forall i :: 0 <= i < |a| ==> b[i] == a[i] || (!Open(a[i].status) && b[i].status.Pending?))
    && (forall i :: |a| <= i < |b| ==> b[i].status.Pending?)
  }

  lemma EnrollTouches(l: Ledger, manifest: seq<string>)
    ensures Touches(l.items, Enroll(l, manifest).items)
  {
  }

  lemma ReopenTouches(l: Ledger, i: nat)
    requires i < |l.items| && !Open(l.items[i].status)
    ensures Touches(l.items, Reopen(l, i).items)
  {
    hide Count;
  }

  lemma TouchesTwice(a: seq<Item>, b: seq<Item>, c: seq<Item>)
    requires Touches(a, b) && Touches(b, c)
    ensures Touches(a, c)
  {
    forall i | 0 <= i < |a| ensures c[i] == a[i] || (!Open(a[i].status) && c[i].status.Pending?) {
    }
  }

  lemma RequeueTouches(l: Ledger, key: string, manifest: seq<string>)
    ensures Touches(l.items, RequeueSupplemented(l, key).items)
    ensures Touches(l.items, RequeueChanged(l, key, manifest).items)
  {
    EnrollTouches(l, manifest);
    var e := Enroll(l, manifest);
    hide Enroll, Reopen;
    if ItemIndex(l.items, key, 0).Some? && l.items[ItemIndex(l.items, key, 0).value].status.MissingDownload? {
      ReopenTouches(l, ItemIndex(l.items, key, 0).value);
    }
    if ItemIndex(e.items, key, 0).Some? && !Open(e.items[ItemIndex(e.items, key, 0).value].status) {
      ReopenTouches(e, ItemIndex(e.items, key, 0).value);
      TouchesTwice(l.items, e.items, Reopen(e, ItemIndex(e.items, key, 0).value).items);
    }
  }

  lemma RequeueStatus(l: Ledger, key: string, manifest: seq<string>)
    ensures l.run.status != Completed ==>
      RequeueSupplemented(l, key).run.status != Completed && RequeueChanged(l, key, manifest).run.status != Completed
  {
    hide Count;
  }

  lemma ControlsKeep(l: Ledger, e: Event)
    requires Balanced(l) && (e.AskPause? || e.Resume? || e.FailRun? || e.Supersede?)
    ensures var u := OutsideStep(l, e);
      Balanced(u) && u.items == l.items && (l.run.status != Completed ==> u.run.status != Completed)
  {
    StatusKeepsBalanced(l, Paused, true);
    StatusKeepsBalanced(l, PauseRequested, true);
    StatusKeepsBalanced(l, Queued, false);
    StatusKeepsBalanced(l, Failed, l.run.pauseAsked);
    StatusKeepsBalanced(l, Superseded, l.run.pauseAsked);
    hide Balanced;
  }

  /** Others keep the balance, do not complete a run, and leave the item that is being inspected alone. */
  lemma OutsideKeeps(l: Ledger, e: Event)
    requires Balanced(l) && Proper(e)
    ensures var u := OutsideStep(l, e);
      Balanced(u) && Touches(l.items, u.items) && (l.run.status != Completed ==> u.run.status != Completed)
  {
    hide Balanced, Enroll, RequeueSupplemented, RequeueChanged;
    match e
    case EnrollRows(manifest) =>
      EnrollKeepsBalanced(l, manifest);
      EnrollTouches(l, manifest);
    case Supplemented(key) =>
      RequeuesKeepBalanced(l, key, []);
      RequeueTouches(l, key, []);
      RequeueStatus(l, key, []);
    case Recaptured(key, manifest) =>
      RequeuesKeepBalanced(l, key, manifest);
      RequeueTouches(l, key, manifest);
      RequeueStatus(l, key, manifest);
    case _ =>
      if Outside(e) {
        ControlsKeep(l, e);
      }
  }

  lemma OutsideKeepsGood(s: State, e: Event)
    requires Good(s) && Proper(e) && Outside(e)
    ensures Good(Step(s, e))
  {
    OutsideKeeps(s.ledger, e);
    hide OutsideStep, Balanced;
  }

  lemma TurnKeepsGood(s: State)
    requires Good(s) && s.phase.Looping?
    ensures Good(Step(s, Turn))
  {
    var l := s.ledger;
    if l.run.pauseAsked {
      StatusKeepsBalanced(l, Paused, true);
    } else if FirstPending(l.items, 0).Some? {
      StartKeepsBalanced(l, FirstPending(l.items, 0).value);
      hide Balanced;
    }
  }

  lemma FinishKeepsGood(s: State, outcome: Outcome, spent: bool)
    requires Good(s) && Proper(Finish(outcome, spent)) && s.phase.Inspecting?
    ensures Good(Step(s, Finish(outcome, spent)))
  {
    var l, i := s.ledger, s.phase.item;
    RefreshBalances(l, FinishItem(l, i, outcome).items, l.run.status);
    hide Count;
  }

  lemma CheckKeepsGood(s: State, manifest: seq<string>)
    requires Good(s) && Distinct(manifest) && s.phase.Checking?
    ensures Good(Step(s, Check(manifest)))
  {
    EnrollKeepsBalanced(s.ledger, manifest);
    EnrollAddsNoRunning(s.ledger, manifest);
    StatusKeepsBalanced(Enroll(s.ledger, manifest), Queued, s.ledger.run.pauseAsked);
    hide Enroll, Balanced;
  }

  /** An honest event keeps the counters right, whatever came before it. */
  lemma StepKeepsGood(s: State, e: Event)
    requires Good(s) && Proper(e) && Honest(s, e)
    ensures Good(Step(s, e))
  {
    if Outside(e) {
      OutsideKeepsGood(s, e);
    } else {
      match e
      case Begin(manifest, repaired) =>
        BeginKeepsBalanced(s.ledger, manifest, repaired);
        hide AuditLedger.Begin, Balanced;
      case Turn => if s.phase.Looping? { TurnKeepsGood(s); }
      case Finish(outcome, spent) => if s.phase.Inspecting? { FinishKeepsGood(s, outcome, spent); }
      case Check(manifest) => if s.phase.Checking? { CheckKeepsGood(s, manifest); }
      case CloseRun =>
        CloseIsHonestIff(s.ledger);
        hide Close, Balanced;
      case Die =>
    }
  }

  /** A dishonest completion breaks the balance at once. */
  lemma DishonestBreaks(s: State, e: Event)
    requires Good(s) && !Honest(s, e)
    ensures !Balanced(Step(s, e).ledger)
  {
    CloseIsHonestIff(s.ledger);
    hide Close, Balanced;
  }

  ghost predicate ProperRun(events: seq<Event>) {
    forall i :: 0 <= i < |events| ==> Proper(events[i])
  }

  ghost predicate HonestUpTo(s: State, events: seq<Event>, n: nat)
    requires n <= |events|
  {
    forall i :: 0 <= i < n ==> Honest(Exec(s, events[..i]), events[i])
  }

  lemma {:induction false} RunKeepsGood(s: State, events: seq<Event>, n: nat)
    requires Good(s) && ProperRun(events) && n <= |events| && HonestUpTo(s, events, n)
    ensures Good(Exec(s, events[..n]))
  {
    hide Step, Good, Honest, Proper;
    if n == 0 {
      assert events[..0] == [];
    } else {
      RunKeepsGood(s, events, n - 1);
      assert events[..n][..n - 1] == events[..n - 1];
      assert Proper(events[n - 1]) && Honest(Exec(s, events[..n - 1]), events[n - 1]);
      StepKeepsGood(Exec(s, events[..n - 1]), events[n - 1]);
    }
  }

  /**
  Over any run of events the counters are right after every single one, and a completed run has only
  final items, if and only if no event completes the run while an item is open.
  */
  lemma AlwaysBalancedIff(s: State, events: seq<Event>)
    requires Good(s) && ProperRun(events)
    ensures (forall n :: 0 <= n <= |events| ==> Balanced(Exec(s, events[..n]).ledger)) <==>
      HonestUpTo(s, events, |events|)
  {
    hide Step, Good, Honest, Proper, Balanced;
    if HonestUpTo(s, events, |events|) {
      forall n | 0 <= n <= |events| ensures Balanced(Exec(s, events[..n]).ledger) {
        RunKeepsGood(s, events, n);
        GoodIsBalanced(Exec(s, events[..n]));
      }
    } else {
      var n := FirstDishonest(s, events, |events|);
      RunKeepsGood(s, events, n);
      DishonestBreaks(Exec(s, events[..n]), events[n]);
      assert events[..n + 1][..n] == events[..n];
      assert !Balanced(Exec(s, events[..n + 1]).ledger);
    }
  }

  lemma GoodIsBalanced(s: State)
    requires Good(s)
    ensures Balanced(s.ledger)
  {
  }

  lemma {:induction false} FirstDishonest(s: State, events: seq<Event>, m: nat) returns (n: nat)
    requires m <= |events| && !HonestUpTo(s, events, m)
    ensures n < m && HonestUpTo(s, events, n) && !Honest(Exec(s, events[..n]), events[n])
  {
    hide Honest, Exec;
    if HonestUpTo(s, events, m - 1) {
      n := m - 1;
    } else {
      n := FirstDishonest(s, events, m - 1);
    }
  }

  /** A completion can only be dishonest because others reopened or added an item after the last check. */
  lemma UndisturbedCloseIsHonest(s: State, manifest: seq<string>)
    requires Good(s) && s.phase.Checking?
    ensures Honest(Step(s, Check(manifest)), CloseRun)
  {
    EnrollAddsNoRunning(s.ledger, manifest);
    hide Enroll, Close, Balanced;
  }

  // --- pausing ---

  /** A pause stays wanted until it is taken back. */
  lemma {:induction false} PauseStaysWanted(s: State, events: seq<Event>)
    requires s.ledger.run.pauseAsked && forall e :: e in events ==> !e.Resume?
    ensures Exec(s, events).ledger.run.pauseAsked
  {
    if events != [] {
      PauseStaysWanted(s, events[..|events| - 1]);
      StepKeepsWanted(Exec(s, events[..|events| - 1]), events[|events| - 1]);
    }
  }

  lemma StepKeepsWanted(s: State, e: Event)
    requires s.ledger.run.pauseAsked && !e.Resume?
    ensures Step(s, e).ledger.run.pauseAsked
  {
    hide Count;
  }

  /** And while it is wanted no further item is begun: the next turn of the loop pauses the run. */
  lemma NoItemWhilePaused(s: State, events: seq<Event>, e: Event)
    requires s.ledger.run.pauseAsked && (forall x :: x in events ==> !x.Resume?)
    ensures var u := Exec(s, events);
      && (Step(u, e).phase.Inspecting? ==> u.phase == Step(u, e).phase)
      && (u.phase.Looping? ==> Step(u, Turn) == State(WithStatus(u.ledger, Paused), Idle))
  {
    PauseStaysWanted(s, events);
    hide Exec, Enroll, Close, FinishItem;
  }
}
