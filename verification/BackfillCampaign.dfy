/**
A backfill campaign (src/oa_knowledge/cli.py, backfill_next): every call plans one window before
the earliest one planned so far. The windows are disjoint, adjacent and in the end exactly the range.

The number of items a window holds is given; so is whether another plan with the same content is
already on record.
*/
module BackfillCampaign {
  import opened Wrappers
  import opened Calendar
  import opened BackfillWindows

  datatype Batch = Batch(window: Window, completed: bool)

  /** The earliest planned start, or the end of the range. */
  function Cursor(batches: seq<Batch>, rangeEnd: Date): (r: Date)
    ensures batches == [] ==> r == rangeEnd
  {
    if batches == [] then rangeEnd
    else
      var last := batches[|batches| - 1].window.start;
      if |batches| == 1 then last
      else
        var before := Cursor(batches[..|batches| - 1], rangeEnd);
        if Before(last, before) then last else before
  }

  /** Newest first: each window ends where the one planned before it starts. */
  ghost predicate Tiled(batches: seq<Batch>, rangeStart: Date, rangeEnd: Date) {
    && Valid(rangeStart) && Valid(rangeEnd)
    && forall i :: 0 <= i < |batches| ==> Fits(batches, rangeStart, rangeEnd, i)
  }

  ghost predicate Fits(batches: seq<Batch>, rangeStart: Date, rangeEnd: Date, i: int)
    requires 0 <= i < |batches|
  {
    && InOneMonth(batches[i].window)
    && !Before(batches[i].window.start, rangeStart)
    && batches[i].window.end == if i == 0 then rangeEnd else batches[i - 1].window.start
  }

  /** The cursor is the start of the latest plan. */
  lemma {:induction false} CursorIsLastStart(batches: seq<Batch>, rangeStart: Date, rangeEnd: Date)
    requires Tiled(batches, rangeStart, rangeEnd)
    ensures Cursor(batches, rangeEnd) == if batches == [] then rangeEnd else batches[|batches| - 1].window.start
  {
    if |batches| > 1 {
      var n := |batches| - 1;
      assert Fits(batches, rangeStart, rangeEnd, n);
      assert Tiled(batches[..n], rangeStart, rangeEnd) by {
        forall i | 0 <= i < n ensures Fits(batches[..n], rangeStart, rangeEnd, i) {
          assert Fits(batches, rangeStart, rangeEnd, i);
        }
      }
      CursorIsLastStart(batches[..n], rangeStart, rangeEnd);
    }
  }

  // --- coverage ---

  function CoverCount(batches: seq<Batch>, d: Date): nat {
    if batches == [] then 0
    else CoverCount(batches[..|batches| - 1], d) + if Covers(batches[|batches| - 1].window, d) then 1 else 0
  }

  /** A day from the cursor to the end of the range lies in exactly one window, any other day in none. */
  lemma {:induction false} CoveredOnce(batches: seq<Batch>, rangeStart: Date, rangeEnd: Date, d: Date)
    requires Tiled(batches, rangeStart, rangeEnd) && Valid(d)
    ensures var from := if batches == [] then rangeEnd else batches[|batches| - 1].window.start;
      CoverCount(batches, d) == if !Before(d, from) && Before(d, rangeEnd) then 1 else 0
  {
    if batches != [] {
      var n := |batches| - 1;
      assert Tiled(batches[..n], rangeStart, rangeEnd) by {
        forall i | 0 <= i < n ensures Fits(batches[..n], rangeStart, rangeEnd, i) {
          assert Fits(batches, rangeStart, rangeEnd, i);
        }
      }
      assert Fits(batches, rangeStart, rangeEnd, n);
      CoveredOnce(batches[..n], rangeStart, rangeEnd, d);
      hide InOneMonth;
      var w := batches[n].window;
      StartsInRange(batches[..n], rangeStart, rangeEnd);
      assert Before(w.start, w.end) by { Nonempty(w); }
    }
  }

  lemma Nonempty(w: Window)
    requires InOneMonth(w)
    ensures Before(w.start, w.end)
  {
  }

  /** The start of the latest plan is not after the end of the range. */
  lemma {:induction false} StartsInRange(batches: seq<Batch>, rangeStart: Date, rangeEnd: Date)
    requires Tiled(batches, rangeStart, rangeEnd)
    ensures batches != [] ==> Before(batches[|batches| - 1].window.start, rangeEnd)
  {
    if batches != [] {
      var n := |batches| - 1;
      assert Fits(batches, rangeStart, rangeEnd, n);
      Nonempty(batches[n].window);
      hide InOneMonth;
      assert Tiled(batches[..n], rangeStart, rangeEnd) by {
        forall i | 0 <= i < n ensures Fits(batches[..n], rangeStart, rangeEnd, i) {
          assert Fits(batches, rangeStart, rangeEnd, i);
        }
      }
      StartsInRange(batches[..n], rangeStart, rangeEnd);
    }
  }

  predicate InRange(d: Date, rangeStart: Date, rangeEnd: Date) {
    !Before(d, rangeStart) && Before(d, rangeEnd)
  }

  /** When no window is left to plan, each day of the range lies in exactly one window and no other day in any. */
  lemma FinishedCampaignTilesRange(batches: seq<Batch>, rangeStart: Date, rangeEnd: Date, d: Date)
    requires Tiled(batches, rangeStart, rangeEnd) && Before(rangeStart, rangeEnd) && Valid(d)
    requires Valid(Cursor(batches, rangeEnd)) && NextMonthRemainder(rangeStart, Cursor(batches, rangeEnd)).None?
    ensures CoverCount(batches, d) == if InRange(d, rangeStart, rangeEnd) then 1 else 0
  {
    hide NextMonthRemainder, InOneMonth;
    CursorIsLastStart(batches, rangeStart, rangeEnd);
    CoveredOnce(batches, rangeStart, rangeEnd, d);
    NextWindow(rangeStart, Cursor(batches, rangeEnd));
    if batches != [] {
      assert Fits(batches, rangeStart, rangeEnd, |batches| - 1);
    }
  }

  // --- one call ---

  datatype Outcome = BadRange | NotCompleted | Finished | Dense | AlreadyPlanned | Planned(window: Window)

  /** What a call does and what it leaves. */
  function Next(batches: seq<Batch>, rangeStart: Date, rangeEnd: Date, count: Window -> nat,
      taken: Window -> bool): (r: (Outcome, seq<Batch>))
    requires Tiled(batches, rangeStart, rangeEnd)
  {
    if !Before(rangeStart, rangeEnd) then (BadRange, batches)
    else if exists i :: 0 <= i < |batches| && !batches[i].completed then (NotCompleted, batches)
    else
      CursorValid(batches, rangeStart, rangeEnd);
      NextWindow(rangeStart, Cursor(batches, rangeEnd));
      match NextMonthRemainder(rangeStart, Cursor(batches, rangeEnd))
      case None => (Finished, batches)
      case Some(first) =>
        (match Fitted(first, count)
         case Failure(_) => (Dense, batches)
         case Success(w) => if taken(w) then (AlreadyPlanned, batches) else (Planned(w), batches + [Batch(w, false)]))
  }

  /**
  A call plans only when the range has days, every earlier plan is completed and some of the range is left;
  then it plans one window that ends where the plans begin, is not on record yet and not completed. A call
  that says anything else leaves the plans as they are.
  */
  lemma NextMeans(batches: seq<Batch>, rangeStart: Date, rangeEnd: Date, count: Window -> nat, taken: Window -> bool)
    requires Tiled(batches, rangeStart, rangeEnd)
    ensures var (outcome, after) := Next(batches, rangeStart, rangeEnd, count, taken);
      && (outcome == BadRange <==> !Before(rangeStart, rangeEnd))
      && (outcome == NotCompleted <==> Before(rangeStart, rangeEnd) && exists b :: b in batches && !b.completed)
      && (outcome == Finished ==> !Before(rangeStart, Cursor(batches, rangeEnd)))
      && (!Before(rangeStart, Cursor(batches, rangeEnd)) ==> outcome in {BadRange, NotCompleted, Finished})
      && (outcome == AlreadyPlanned ==> exists w: Window :: w.end == Cursor(batches, rangeEnd) && taken(w))
      && (if outcome.Planned? then
            after == batches + [Batch(outcome.window, false)] && outcome.window.end == Cursor(batches, rangeEnd) &&
            !taken(outcome.window) && forall b :: b in batches ==> b.completed
          else after == batches)
  {
    CursorValid(batches, rangeStart, rangeEnd);
    NextWindow(rangeStart, Cursor(batches, rangeEnd));
    hide InOneMonth, Tiled, Cursor, Fitted;
    var first := NextMonthRemainder(rangeStart, Cursor(batches, rangeEnd));
    if first.Some? {
      FittedMeans(first.value, count);
    }
    hide NextMonthRemainder, TooDense;
  }

  lemma CursorValid(batches: seq<Batch>, rangeStart: Date, rangeEnd: Date)
    requires Tiled(batches, rangeStart, rangeEnd)
    ensures Valid(Cursor(batches, rangeEnd))
  {
    CursorIsLastStart(batches, rangeStart, rangeEnd);
    if batches != [] {
      assert Fits(batches, rangeStart, rangeEnd, |batches| - 1);
    }
  }

  /** A call keeps the tiling; when it plans a window the cursor moves back. */
  lemma NextKeepsTiled(batches: seq<Batch>, rangeStart: Date, rangeEnd: Date, count: Window -> nat,
      taken: Window -> bool)
    requires Tiled(batches, rangeStart, rangeEnd)
    ensures var (outcome, after) := Next(batches, rangeStart, rangeEnd, count, taken);
      && Tiled(after, rangeStart, rangeEnd)
      && (outcome.Planned? ==>
        Before(Cursor(after, rangeEnd), Cursor(batches, rangeEnd)) && count(outcome.window) <= 500)
      && (outcome.Dense? ==> TooDense(Cursor(batches, rangeEnd), count))
  {
    var (outcome, after) := Next(batches, rangeStart, rangeEnd, count, taken);
    CursorValid(batches, rangeStart, rangeEnd);
    NextWindow(rangeStart, Cursor(batches, rangeEnd));
    if outcome.Planned? || outcome.Dense? {
      var first := NextMonthRemainder(rangeStart, Cursor(batches, rangeEnd)).value;
      FittedMeans(first, count);
      hide InOneMonth, NextMonthRemainder, Fitted, TooDense;
      if outcome.Planned? {
        var w := outcome.window;
        NotEarlier(rangeStart, first.start, w.start);
        Extend(batches, rangeStart, rangeEnd, w);
        CursorIsLastStart(after, rangeStart, rangeEnd);
        Nonempty(w);
      }
    }
  }

  lemma NotEarlier(a: Date, b: Date, c: Date)
    requires !Before(b, a) && !Before(c, b)
    ensures !Before(c, a)
  {
  }

  lemma Extend(batches: seq<Batch>, rangeStart: Date, rangeEnd: Date, w: Window)
    requires Tiled(batches, rangeStart, rangeEnd) && InOneMonth(w) && !Before(w.start, rangeStart)
    requires w.end == Cursor(batches, rangeEnd)
    ensures Tiled(batches + [Batch(w, false)], rangeStart, rangeEnd)
  {
    CursorIsLastStart(batches, rangeStart, rangeEnd);
    hide InOneMonth, Cursor;
    var after := batches + [Batch(w, false)];
    forall i | 0 <= i < |after| ensures Fits(after, rangeStart, rangeEnd, i) {
      if i < |batches| {
        assert Fits(batches, rangeStart, rangeEnd, i);
      }
    }
  }

  lemma CompleteKeepsTiled(batches: seq<Batch>, rangeStart: Date, rangeEnd: Date, i: nat)
    requires Tiled(batches, rangeStart, rangeEnd) && i < |batches|
    ensures Tiled(batches[i := batches[i].(completed := true)], rangeStart, rangeEnd)
  {
    var after := batches[i := batches[i].(completed := true)];
    hide InOneMonth;
    forall k | 0 <= k < |after| ensures Fits(after, rangeStart, rangeEnd, k) {
      assert Fits(batches, rangeStart, rangeEnd, k);
    }
  }

  // --- whole campaigns ---

  datatype Step = Call(count: Window -> nat, taken: Window -> bool) | Complete(batch: nat)

  ghost predicate Steps(before: seq<Batch>, after: seq<Batch>, s: Step, rangeStart: Date, rangeEnd: Date)
    requires Tiled(before, rangeStart, rangeEnd)
  {
    match s
    case Call(count, taken) => after == Next(before, rangeStart, rangeEnd, count, taken).1
    case Complete(i) => i < |before| && after == before[i := before[i].(completed := true)]
  }

  /** A run from no plans at all. (The premise of the second part always holds: CampaignIsTiled.) */
  ghost predicate Campaign(states: seq<seq<Batch>>, steps: seq<Step>, rangeStart: Date, rangeEnd: Date) {
    && |states| == |steps| + 1 && states[0] == []
    && forall i :: 0 <= i < |steps| ==>
         Tiled(states[i], rangeStart, rangeEnd) ==> Steps(states[i], states[i + 1], steps[i], rangeStart, rangeEnd)
  }

  /** Over any campaign on one range, whatever the windows hold, the plans tile the range from its end. */
  lemma {:induction false} CampaignIsTiled(states: seq<seq<Batch>>, steps: seq<Step>, rangeStart: Date, rangeEnd: Date,
      n: nat)
    requires Valid(rangeStart) && Valid(rangeEnd) && Campaign(states, steps, rangeStart, rangeEnd) && n <= |steps|
    ensures Tiled(states[n], rangeStart, rangeEnd)
  {
    if n > 0 {
      CampaignIsTiled(states, steps, rangeStart, rangeEnd, n - 1);
      assert Steps(states[n - 1], states[n], steps[n - 1], rangeStart, rangeEnd);
      hide Tiled, Next;
      match steps[n - 1]
      case Call(count, taken) => NextKeepsTiled(states[n - 1], rangeStart, rangeEnd, count, taken);
      case Complete(i) => CompleteKeepsTiled(states[n - 1], rangeStart, rangeEnd, i);
    }
  }

  // --- progress ---

  predicate AllCompleted(batches: seq<Batch>) {
    forall i :: 0 <= i < |batches| ==> batches[i].completed
  }

  /** Every planned window takes at least a day of the range. */
  lemma {:induction false} PlansAreBounded(batches: seq<Batch>, rangeStart: Date, rangeEnd: Date)
    requires Tiled(batches, rangeStart, rangeEnd)
    ensures Valid(Cursor(batches, rangeEnd))
    ensures |batches| <= Ordinal(rangeEnd) - Ordinal(Cursor(batches, rangeEnd))
    ensures batches != [] ==> Ordinal(Cursor(batches, rangeEnd)) >= Ordinal(rangeStart)
  {
    CursorValid(batches, rangeStart, rangeEnd);
    CursorIsLastStart(batches, rangeStart, rangeEnd);
    hide Cursor, Ordinal;
    if batches != [] {
      var n := |batches| - 1;
      assert Fits(batches, rangeStart, rangeEnd, n);
      assert Tiled(batches[..n], rangeStart, rangeEnd) by {
        forall i | 0 <= i < n ensures Fits(batches[..n], rangeStart, rangeEnd, i) {
          assert Fits(batches, rangeStart, rangeEnd, i);
        }
      }
      PlansAreBounded(batches[..n], rangeStart, rangeEnd);
      CursorIsLastStart(batches[..n], rangeStart, rangeEnd);
      var w := batches[n].window;
      Nonempty(w);
      BeforeIsOrdinal(w.start, w.end);
      BeforeIsOrdinal(w.start, rangeStart);
    }
  }

  function Completed(batches: seq<Batch>): (r: seq<Batch>)
    ensures |r| == |batches| && forall i :: 0 <= i < |r| ==> r[i] == batches[i].(completed := true)
  {
    if batches == [] then [] else Completed(batches[..|batches| - 1]) + [batches[|batches| - 1].(completed := true)]
  }

  lemma CompletedKeepsTiled(batches: seq<Batch>, rangeStart: Date, rangeEnd: Date)
    requires Tiled(batches, rangeStart, rangeEnd)
    ensures Tiled(Completed(batches), rangeStart, rangeEnd)
  {
    hide InOneMonth, Completed;
    forall i | 0 <= i < |batches| ensures Fits(Completed(batches), rangeStart, rangeEnd, i) {
      assert Fits(batches, rangeStart, rangeEnd, i);
    }
  }

  /** What the windows hold at a call, and which plans are on record already. */
  datatype Occasion = Occasion(count: Window -> nat, taken: Window -> bool)

  lemma OneCall(batches: seq<Batch>, rangeStart: Date, rangeEnd: Date, x: Occasion)
    requires Tiled(batches, rangeStart, rangeEnd) && AllCompleted(batches) && Before(rangeStart, rangeEnd)
    ensures var (o, u) := Next(batches, rangeStart, rangeEnd, x.count, x.taken);
      && Tiled(u, rangeStart, rangeEnd)
      && (if o.Planned? then |u| == |batches| + 1 else u == batches && o in {Finished, Dense, AlreadyPlanned})
  {
    NextKeepsTiled(batches, rangeStart, rangeEnd, x.count, x.taken);
    hide Tiled, Cursor;
  }

  /** The plans before call number `k`: one call after the other, each planned window completed before the next. */
  function CampaignAt(rangeStart: Date, rangeEnd: Date, calls: nat -> Occasion, k: nat): (r: seq<Batch>)
    requires Valid(rangeStart) && Valid(rangeEnd)
    ensures Tiled(r, rangeStart, rangeEnd) && AllCompleted(r)
  {
    if k == 0 then [] else
      var before, x := CampaignAt(rangeStart, rangeEnd, calls, k - 1), calls(k - 1);
      NextKeepsTiled(before, rangeStart, rangeEnd, x.count, x.taken);
      var after := Next(before, rangeStart, rangeEnd, x.count, x.taken).1;
      CompletedKeepsTiled(after, rangeStart, rangeEnd);
      Completed(after)
  }

  /** What call number `k` says. */
  function OutcomeAt(rangeStart: Date, rangeEnd: Date, calls: nat -> Occasion, k: nat): Outcome
    requires Valid(rangeStart) && Valid(rangeEnd)
  {
    Next(CampaignAt(rangeStart, rangeEnd, calls, k), rangeStart, rangeEnd, calls(k).count, calls(k).taken).0
  }

  /** A call that plans a window makes the plans one longer; any other call leaves them. */
  lemma CallAt(rangeStart: Date, rangeEnd: Date, calls: nat -> Occasion, k: nat)
    requires Valid(rangeStart) && Valid(rangeEnd) && Before(rangeStart, rangeEnd)
    ensures var (o, u, next) := (OutcomeAt(rangeStart, rangeEnd, calls, k),
      CampaignAt(rangeStart, rangeEnd, calls, k), CampaignAt(rangeStart, rangeEnd, calls, k + 1));
      if o.Planned? then |next| == |u| + 1 else next == u && o in {Finished, Dense, AlreadyPlanned}
  {
    var u := CampaignAt(rangeStart, rangeEnd, calls, k);
    OneCall(u, rangeStart, rangeEnd, calls(k));
    hide Tiled, Cursor, Next, Completed;
    if !OutcomeAt(rangeStart, rangeEnd, calls, k).Planned? {
      assert Completed(u) == u;
    }
  }

  /** From call `k` on there is a call that plans nothing, before the plans are as many as the range has days. */
  lemma {:induction false} StopsFrom(rangeStart: Date, rangeEnd: Date, calls: nat -> Occasion, k: nat)
    returns (n: nat)
    requires Valid(rangeStart) && Valid(rangeEnd) && Before(rangeStart, rangeEnd)
    ensures n >= k && OutcomeAt(rangeStart, rangeEnd, calls, n) in {Finished, Dense, AlreadyPlanned}
    ensures forall i: nat :: k <= i < n ==> OutcomeAt(rangeStart, rangeEnd, calls, i).Planned?
    ensures |CampaignAt(rangeStart, rangeEnd, calls, n)| == |CampaignAt(rangeStart, rangeEnd, calls, k)| + n - k
    decreases Ordinal(rangeEnd) - Ordinal(rangeStart) - |CampaignAt(rangeStart, rangeEnd, calls, k)|
  {
    hide CampaignAt, OutcomeAt, Ordinal, Before;
    CallAt(rangeStart, rangeEnd, calls, k);
    n := k;
    if OutcomeAt(rangeStart, rangeEnd, calls, k).Planned? {
      PlansFit(rangeStart, rangeEnd, calls, k + 1);
      n := StopsFrom(rangeStart, rangeEnd, calls, k + 1);
    }
  }

  lemma PlansFit(rangeStart: Date, rangeEnd: Date, calls: nat -> Occasion, k: nat)
    requires Valid(rangeStart) && Valid(rangeEnd) && Before(rangeStart, rangeEnd)
    ensures |CampaignAt(rangeStart, rangeEnd, calls, k)| <= Ordinal(rangeEnd) - Ordinal(rangeStart)
  {
    PlansAreBounded(CampaignAt(rangeStart, rangeEnd, calls, k), rangeStart, rangeEnd);
    BeforeIsOrdinal(rangeStart, rangeEnd);
  }

  /** Once a call finds nothing left to plan, every later one does, and the plans stay. */
  lemma {:induction false} FinishedStays(rangeStart: Date, rangeEnd: Date, calls: nat -> Occasion, k: nat, n: nat)
    requires Valid(rangeStart) && Valid(rangeEnd) && k <= n
    requires OutcomeAt(rangeStart, rangeEnd, calls, k) == Finished
    ensures OutcomeAt(rangeStart, rangeEnd, calls, n) == Finished
    ensures CampaignAt(rangeStart, rangeEnd, calls, n) == CampaignAt(rangeStart, rangeEnd, calls, k)
  {
    hide CampaignAt, OutcomeAt;
    if k < n {
      FinishedStays(rangeStart, rangeEnd, calls, k, n - 1);
      FinishedAgain(rangeStart, rangeEnd, calls, n - 1);
    }
  }

  lemma FinishedAgain(rangeStart: Date, rangeEnd: Date, calls: nat -> Occasion, k: nat)
    requires Valid(rangeStart) && Valid(rangeEnd) && OutcomeAt(rangeStart, rangeEnd, calls, k) == Finished
    ensures CampaignAt(rangeStart, rangeEnd, calls, k + 1) == CampaignAt(rangeStart, rangeEnd, calls, k)
    ensures OutcomeAt(rangeStart, rangeEnd, calls, k + 1) == Finished
  {
    var u := CampaignAt(rangeStart, rangeEnd, calls, k);
    CursorValid(u, rangeStart, rangeEnd);
    NextWindow(rangeStart, Cursor(u, rangeEnd));
    hide Tiled, Cursor, NextMonthRemainder, InOneMonth, Completed;
    assert Completed(u) == u;
  }

  /** The call met seven days that hold too many items, or a plan that is on record already. */
  predicate Blocked(rangeStart: Date, rangeEnd: Date, calls: nat -> Occasion, k: nat)
    requires Valid(rangeStart) && Valid(rangeEnd)
  {
    OutcomeAt(rangeStart, rangeEnd, calls, k) in {Dense, AlreadyPlanned}
  }

  /** Some call from number `k` on is not blocked. */
  ghost predicate GoesOn(rangeStart: Date, rangeEnd: Date, calls: nat -> Occasion, k: nat)
    requires Valid(rangeStart) && Valid(rangeEnd)
  {
    exists n: nat :: n >= k && !Blocked(rangeStart, rangeEnd, calls, n)
  }

  /** A campaign finishes exactly when it is never blocked for good. */
  lemma CampaignFinishesIff(rangeStart: Date, rangeEnd: Date, calls: nat -> Occasion)
    requires Valid(rangeStart) && Valid(rangeEnd) && Before(rangeStart, rangeEnd)
    ensures (exists k: nat :: OutcomeAt(rangeStart, rangeEnd, calls, k) == Finished) <==>
      forall k: nat :: GoesOn(rangeStart, rangeEnd, calls, k)
  {
    hide OutcomeAt, CampaignAt, Ordinal, Before;
    if exists k: nat :: OutcomeAt(rangeStart, rangeEnd, calls, k) == Finished {
      var k: nat :| OutcomeAt(rangeStart, rangeEnd, calls, k) == Finished;
      forall m: nat ensures GoesOn(rangeStart, rangeEnd, calls, m) {
        var n := if k < m then m else k;
        FinishedStays(rangeStart, rangeEnd, calls, k, n);
        assert !Blocked(rangeStart, rangeEnd, calls, n);
      }
    } else if forall k: nat :: GoesOn(rangeStart, rangeEnd, calls, k) {
      var k := UnblockedFinishes(rangeStart, rangeEnd, calls, 0);
    }
  }

  lemma {:induction false} UnblockedFinishes(rangeStart: Date, rangeEnd: Date, calls: nat -> Occasion, k: nat)
    returns (n: nat)
    requires Valid(rangeStart) && Valid(rangeEnd) && Before(rangeStart, rangeEnd)
    requires forall m: nat :: GoesOn(rangeStart, rangeEnd, calls, m)
    ensures OutcomeAt(rangeStart, rangeEnd, calls, n) == Finished
    decreases Ordinal(rangeEnd) - Ordinal(rangeStart) - |CampaignAt(rangeStart, rangeEnd, calls, k)|
  {
    hide CampaignAt, OutcomeAt, Ordinal, Before;
    assert GoesOn(rangeStart, rangeEnd, calls, k);
    var m: nat :| m >= k && !Blocked(rangeStart, rangeEnd, calls, m);
    n := m;
    PlansGrow(rangeStart, rangeEnd, calls, k, m);
    CallAt(rangeStart, rangeEnd, calls, m);
    if OutcomeAt(rangeStart, rangeEnd, calls, m) != Finished {
      PlansFit(rangeStart, rangeEnd, calls, m + 1);
      n := UnblockedFinishes(rangeStart, rangeEnd, calls, m + 1);
    }
  }

  lemma {:induction false} PlansGrow(rangeStart: Date, rangeEnd: Date, calls: nat -> Occasion, k: nat, n: nat)
    requires Valid(rangeStart) && Valid(rangeEnd) && Before(rangeStart, rangeEnd) && k <= n
    ensures |CampaignAt(rangeStart, rangeEnd, calls, k)| <= |CampaignAt(rangeStart, rangeEnd, calls, n)|
  {
    hide CampaignAt, OutcomeAt, Ordinal, Before;
    if k < n {
      PlansGrow(rangeStart, rangeEnd, calls, k, n - 1);
      CallAt(rangeStart, rangeEnd, calls, n - 1);
    }
  }

  /**
  If no seven days hold more than five hundred items and no plan is on record already, every call of the
  campaign plans one window until the call that finds nothing left. That one comes after at most as many
  calls as the range has days, and the plans before it cover each day of the range once and no other day.
  */
  lemma CampaignFinishes(rangeStart: Date, rangeEnd: Date, calls: nat -> Occasion) returns (k: nat)
    requires Valid(rangeStart) && Valid(rangeEnd) && Before(rangeStart, rangeEnd)
    requires forall n: nat, end: Date :: !TooDense(end, calls(n).count)
    requires forall n: nat, w: Window :: !calls(n).taken(w)
    ensures k <= Ordinal(rangeEnd) - Ordinal(rangeStart)
    ensures OutcomeAt(rangeStart, rangeEnd, calls, k) == Finished
    ensures forall i: nat :: i < k ==> OutcomeAt(rangeStart, rangeEnd, calls, i).Planned?
    ensures |CampaignAt(rangeStart, rangeEnd, calls, k)| == k
    ensures forall d | Valid(d) ::
      CoverCount(CampaignAt(rangeStart, rangeEnd, calls, k), d) == if InRange(d, rangeStart, rangeEnd) then 1 else 0
  {
    k := StopsFrom(rangeStart, rangeEnd, calls, 0);
    assert CampaignAt(rangeStart, rangeEnd, calls, 0) == [];
    PlansFit(rangeStart, rangeEnd, calls, k);
    NotBlocked(rangeStart, rangeEnd, calls, k);
    hide CampaignAt, OutcomeAt, Ordinal, Before;
    forall d | Valid(d) ensures CoverCount(CampaignAt(rangeStart, rangeEnd, calls, k), d) ==
      if InRange(d, rangeStart, rangeEnd) then 1 else 0
    {
      FinishedCovers(rangeStart, rangeEnd, calls, k, d);
    }
  }

  lemma NotBlocked(rangeStart: Date, rangeEnd: Date, calls: nat -> Occasion, k: nat)
    requires Valid(rangeStart) && Valid(rangeEnd)
    requires forall end: Date :: !TooDense(end, calls(k).count)
    requires forall w: Window :: !calls(k).taken(w)
    ensures !Blocked(rangeStart, rangeEnd, calls, k)
  {
    NextKeepsTiled(CampaignAt(rangeStart, rangeEnd, calls, k), rangeStart, rangeEnd, calls(k).count, calls(k).taken);
    hide TooDense, CampaignAt, Tiled, Cursor;
  }

  /** The plans before a call that finds nothing left cover each day of the range once and no other day. */
  lemma FinishedCovers(rangeStart: Date, rangeEnd: Date, calls: nat -> Occasion, k: nat, d: Date)
    requires Valid(rangeStart) && Valid(rangeEnd) && Before(rangeStart, rangeEnd) && Valid(d)
    requires OutcomeAt(rangeStart, rangeEnd, calls, k) == Finished
    ensures CoverCount(CampaignAt(rangeStart, rangeEnd, calls, k), d) ==
      if InRange(d, rangeStart, rangeEnd) then 1 else 0
  {
    var u := CampaignAt(rangeStart, rangeEnd, calls, k);
    CursorValid(u, rangeStart, rangeEnd);
    NextWindow(rangeStart, Cursor(u, rangeEnd));
    hide CampaignAt, Tiled, Cursor;
    FinishedCampaignTilesRange(u, rangeStart, rangeEnd, d);
  }

  // --- the command ---

  class Backfill {
    var batches: seq<Batch>

    constructor ()
      ensures batches == []
    {
      batches := [];
    }

    method BackfillNext(rangeStart: Date, rangeEnd: Date, count: Window -> nat, taken: Window -> bool)
        returns (outcome: Outcome)
      requires Tiled(batches, rangeStart, rangeEnd)
      modifies this
      ensures (outcome, batches) == Next(old(batches), rangeStart, rangeEnd, count, taken)
      ensures Tiled(batches, rangeStart, rangeEnd)
    {
      NextKeepsTiled(batches, rangeStart, rangeEnd, count, taken);
      CursorValid(batches, rangeStart, rangeEnd);
      hide InOneMonth, Tiled, Fitted, NextMonthRemainder, Cursor;
      if !Before(rangeStart, rangeEnd) {
        return BadRange;
      }
      if exists i :: 0 <= i < |batches| && !batches[i].completed {
        return NotCompleted;
      }
      var cursor := Cursor(batches, rangeEnd);
      NextWindow(rangeStart, cursor);
      var next := NextMonthRemainder(rangeStart, cursor);
      if next.None? {
        return Finished;
      }
      var window := FitWindow(next.value, count);
      if window.Failure? {
        return Dense;
      }
      if taken(window.value) {
        return AlreadyPlanned;
      }
      batches := batches + [Batch(window.value, false)];
      outcome := Planned(window.value);
    }

    /** Shrinks the window until it holds at most five hundred items or cannot be shrunk. */
    method FitWindow(first: Window, count: Window -> nat) returns (r: Result<Window, TooMany>)
      requires InOneMonth(first)
      ensures r == Fitted(first, count)
    {
      hide ShrinkLatest, Days, Ordinal;
      var window := first;
      while count(window) > 500
        invariant InOneMonth(window)
        invariant Fitted(window, count) == Fitted(first, count)
        decreases Days(window)
      {
        var smaller := Smaller(window);
        if smaller.Failure? {
          return Failure(ManualReview);
        }
        window := smaller.value;
      }
      r := Success(window);
    }

    method Smaller(window: Window) returns (r: Result<Window, TooMany>)
      requires InOneMonth(window)
      ensures r == ShrinkLatest(window)
      ensures r.Success? ==> InOneMonth(r.value) && 1 <= Days(r.value) < Days(window)
    {
      r := ShrinkLatest(window);
      if r.Success? {
        ShrinkMeans(window);
      }
    }
  }
}
