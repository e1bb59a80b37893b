/**
Backfill windows (src/oa_knowledge/backfill.py): the window before a date, and how it is shrunk.
*/
module BackfillWindows {
  import opened Wrappers
  import opened Calendar

  datatype Granularity = Month | HalfMonth | Week

  datatype Window = Window(start: Date, end: Date, granularity: Granularity)

  predicate Proper(w: Window) {
    Valid(w.start) && Valid(w.end) && Before(w.start, w.end)
  }

  function Days(w: Window): (n: int)
    requires Valid(w.start) && Valid(w.end)
  {
    Ordinal(w.end) - Ordinal(w.start)
  }

  function LastDay(end: Date): (r: Date)
    requires Valid(end) && Ordinal(end) > 1
    ensures Valid(r) && Ordinal(r) == Ordinal(end) - 1
  {
    Back(end, 1)
  }

  lemma EndIsLate(w: Window)
    requires Proper(w)
    ensures Ordinal(w.end) > 1 && Days(w) >= 1
  {
    BeforeIsOrdinal(w.start, w.end);
    OrdinalIsPositive(w.start);
  }

  /** All days of the window lie in one calendar month. */
  ghost predicate InOneMonth(w: Window) {
    Proper(w) && forall d :: Covers(w, d) ==> SameMonth(d, w.start)
  }

  predicate Covers(w: Window, d: Date) {
    Valid(d) && !Before(d, w.start) && Before(d, w.end)
  }

  function NextMonthRemainder(rangeStart: Date, cursorEnd: Date): (r: Option<Window>)
    requires Valid(rangeStart) && Valid(cursorEnd)
    ensures r.Some? ==> Valid(r.value.start) && r.value.end == cursorEnd
  {
    if !Before(rangeStart, cursorEnd) then None
    else
      EndIsLate(Window(rangeStart, cursorEnd, Week));
      var probe := LastDay(cursorEnd);
      var monthStart := Date(probe.year, probe.month, 1);
      var start := if Before(rangeStart, monthStart) then monthStart else rangeStart;
      var days := Ordinal(cursorEnd) - Ordinal(start);
      var granularity := if start == monthStart && days >= 28 then Month else if days > 7 then HalfMonth else Week;
      Some(Window(start, cursorEnd, granularity))
  }

  datatype TooMany = ManualReview

  function ShrinkLatest(w: Window): (r: Result<Window, TooMany>)
    requires Proper(w)
    ensures r.Success? <==> Days(w) > 7
    ensures r.Success? ==> Valid(r.value.start) && r.value.end == w.end
  {
    EndIsLate(w);
    OrdinalIsPositive(w.start);
    if Days(w) > 16 then
      var probe := LastDay(w.end);
      var middle := Date(probe.year, probe.month, 16);
      var start := if !Before(w.start, middle) || !Before(middle, w.end) then Back(w.end, 15) else middle;
      Success(Window(start, w.end, HalfMonth))
    else if Days(w) > 7 then Success(Window(Back(w.end, 7), w.end, Week))
    else Failure(ManualReview)
  }

  /** The days from the start of the window to its last day, by ordinals. */
  lemma CoversMeans(w: Window, d: Date)
    requires Proper(w) && Valid(d)
    ensures Covers(w, d) <==> Ordinal(w.start) <= Ordinal(d) < Ordinal(w.end)
  {
    BeforeIsOrdinal(d, w.start);
    BeforeIsOrdinal(d, w.end);
  }

  /** If no day of the window comes after one of the month it starts in, it lies in that month. */
  lemma OneMonth(w: Window, last: Date)
    requires Proper(w) && SameMonth(w.start, last) && forall d :: Covers(w, d) ==> !Before(last, d)
    ensures InOneMonth(w)
  {
    forall d | Covers(w, d) ensures SameMonth(d, w.start) {
      MonthIsConvex(w.start, last, d);
    }
  }

  lemma NothingAfterLast(w: Window)
    requires Proper(w) && Ordinal(w.end) > 1
    ensures forall d :: Covers(w, d) ==> !Before(LastDay(w.end), d)
  {
    hide Ordinal;
    forall d | Covers(w, d) ensures !Before(LastDay(w.end), d) {
      CoversMeans(w, d);
      BeforeIsOrdinal(LastDay(w.end), d);
    }
  }

  lemma SameMonthAsLast(w: Window)
    requires InOneMonth(w)
    ensures Ordinal(w.end) > 1 && SameMonth(w.start, LastDay(w.end))
  {
    EndIsLate(w);
    hide Ordinal;
    CoversMeans(w, LastDay(w.end));
  }

  /**
  The next window is non-empty, ends at the cursor, stays in the range and in one month; there is none exactly
  when the cursor has arrived.
  */
  lemma NextWindow(rangeStart: Date, cursorEnd: Date)
    requires Valid(rangeStart) && Valid(cursorEnd)
    ensures var r := NextMonthRemainder(rangeStart, cursorEnd);
      && (r.None? <==> !Before(rangeStart, cursorEnd))
      && (r.Some? ==> InOneMonth(r.value) && r.value.end == cursorEnd && !Before(r.value.start, rangeStart))
  {
  }

  /**
  It takes in every day of the range that is in the month of the day before the cursor; and it is called a
  month when it begins with the month and has at least 28 days, a week when it has at most seven.
  */
  lemma NextWindowIsWhole(rangeStart: Date, cursorEnd: Date)
    requires Valid(rangeStart) && Valid(cursorEnd) && NextMonthRemainder(rangeStart, cursorEnd).Some?
    ensures Ordinal(cursorEnd) > 1
    ensures var w := NextMonthRemainder(rangeStart, cursorEnd).value;
      && (forall d :: Valid(d) && !Before(d, rangeStart) && Before(d, cursorEnd) && SameMonth(d, LastDay(cursorEnd)) ==>
            Covers(w, d))
      && (w.granularity == Month <==> w.start.day == 1 && Days(w) >= 28)
      && (w.granularity == Week <==> Days(w) <= 7)
  {
    EndIsLate(Window(rangeStart, cursorEnd, Week));
    var w, last := NextMonthRemainder(rangeStart, cursorEnd).value, LastDay(cursorEnd);
    BeforeIsOrdinal(rangeStart, last);
    hide Ordinal;
  }

  /** Ordinals inside one month differ as the days of the month do. */
  lemma DaysInMonth(a: Date, b: Date)
    requires Valid(a) && Valid(b) && SameMonth(a, b)
    ensures Ordinal(b) - Ordinal(a) == b.day - a.day
  {
  }

  lemma MonthIsShort(w: Window)
    requires InOneMonth(w)
    ensures Ordinal(w.end) > 1 && 1 <= Days(w) <= 31 && LastDay(w.end).day == w.start.day + Days(w) - 1
  {
    SameMonthAsLast(w);
    EndIsLate(w);
    DaysInMonth(w.start, LastDay(w.end));
  }

  /** In a window of one month the sixteenth always falls strictly inside when more than sixteen days are left. */
  lemma MiddleFits(w: Window)
    requires InOneMonth(w) && Days(w) > 16
    ensures ShrinkLatest(w).Success? && ShrinkLatest(w).value.start == Date(w.start.year, w.start.month, 16)
  {
    MonthIsShort(w);
    SameMonthAsLast(w);
    var last := LastDay(w.end);
    var middle := Date(last.year, last.month, 16);
    DaysInMonth(middle, last);
    DaysInMonth(w.start, middle);
    BeforeIsOrdinal(middle, w.end);
    BeforeIsOrdinal(w.start, middle);
  }

  /** A shrink keeps the end and the month and leaves a strictly shorter window: sixteen days at most, then seven. */
  lemma ShrinkMeans(w: Window)
    requires InOneMonth(w) && Days(w) > 7
    ensures var r := ShrinkLatest(w);
      && r.Success? && r.value.end == w.end && Before(w.start, r.value.start) && InOneMonth(r.value)
      && 1 <= Days(r.value) < Days(w) && r.value.granularity == (if Days(w) > 16 then HalfMonth else Week)
      && (if Days(w) > 16 then Days(r.value) <= 16 else Days(r.value) == 7)
  {
    MonthIsShort(w);
    SameMonthAsLast(w);
    var s, last := ShrinkLatest(w).value, LastDay(w.end);
    if Days(w) > 16 {
      MiddleFits(w);
      DaysInMonth(s.start, last);
    }
    hide Ordinal;
    BeforeIsOrdinal(w.start, s.start);
    BeforeIsOrdinal(s.start, w.end);
    CoversMeans(w, s.start);
    NothingAfterLast(s);
    OneMonth(s, last);
  }

  // --- how far a window is shrunk ---

  /** The first window, shrinking from `w`, that holds at most five hundred items. */
  function Fitted(w: Window, count: Window -> nat): (r: Result<Window, TooMany>)
    requires InOneMonth(w)
    decreases Days(w)
  {
    if count(w) <= 500 then Success(w)
    else if ShrinkLatest(w).Failure? then Failure(ManualReview)
    else
      ShrinkMeans(w);
      Fitted(ShrinkLatest(w).value, count)
  }

  /** The number of shrinks that succeed on the way. */
  function Shrinks(w: Window, count: Window -> nat): nat
    requires InOneMonth(w)
    decreases Days(w)
  {
    if count(w) <= 500 || ShrinkLatest(w).Failure? then 0
    else
      ShrinkMeans(w);
      1 + Shrinks(ShrinkLatest(w).value, count)
  }

  lemma {:induction false} AtMostTwoShrinks(w: Window, count: Window -> nat)
    requires InOneMonth(w)
    ensures Shrinks(w, count) <= if Days(w) > 16 then 2 else if Days(w) > 7 then 1 else 0
    decreases Days(w)
  {
    if Days(w) > 7 && count(w) > 500 {
      ShrinkMeans(w);
      var s := ShrinkLatest(w).value;
      AtMostTwoShrinks(s, count);
      hide ShrinkLatest, InOneMonth;
    }
  }

  /** Seven days or fewer before the end hold more than five hundred items. */
  ghost predicate TooDense(end: Date, count: Window -> nat) {
    exists s :: InOneMonth(s) && s.end == end && Days(s) <= 7 && count(s) > 500
  }

  lemma {:induction false} FittedMeans(w: Window, count: Window -> nat)
    requires InOneMonth(w)
    ensures var r := Fitted(w, count);
      && (r.Success? ==>
        InOneMonth(r.value) && r.value.end == w.end && !Before(r.value.start, w.start) && count(r.value) <= 500)
      && (r.Failure? ==> TooDense(w.end, count))
    decreases Days(w)
  {
    if count(w) > 500 && ShrinkLatest(w).Success? {
      ShrinkMeans(w);
      var s := ShrinkLatest(w).value;
      FittedMeans(s, count);
      hide ShrinkLatest, InOneMonth, TooDense;
      if Fitted(s, count).Success? {
        LaterStart(w.start, s.start, Fitted(s, count).value.start);
      }
    }
  }

  lemma LaterStart(a: Date, b: Date, c: Date)
    requires Before(a, b) && !Before(c, b)
    ensures !Before(c, a)
  {
  }

  /** One shrink after the other. */
  ghost predicate ShrinkChain(chain: seq<Window>) {
    forall i, j :: 0 <= i < j < |chain| && j == i + 1 ==> ShrinksTo(chain[i], chain[j])
  }

  ghost predicate ShrinksTo(w: Window, v: Window) {
    InOneMonth(w) && ShrinkLatest(w) == Success(v)
  }

  lemma LongerChain(w: Window, chain: seq<Window>)
    requires ShrinkChain(chain) && chain != [] && ShrinksTo(w, chain[0])
    ensures ShrinkChain([w] + chain)
  {
    hide ShrinksTo;
    var more := [w] + chain;
    forall i, j | 0 <= i < j < |more| && j == i + 1 ensures ShrinksTo(more[i], more[j]) {
      if i > 0 {
        assert ShrinksTo(chain[i - 1], chain[j - 1]);
      }
    }
  }

  /** A window is shrunk no more than needed: each one before the last holds more than five hundred items. */
  lemma {:induction false} FittedIsFirst(w: Window, count: Window -> nat) returns (chain: seq<Window>)
    requires InOneMonth(w)
    ensures chain != [] && chain[0] == w && ShrinkChain(chain)
    ensures forall i :: 0 <= i < |chain| - 1 ==> count(chain[i]) > 500
    ensures var last := chain[|chain| - 1];
      if Fitted(w, count).Success? then Fitted(w, count).value == last && count(last) <= 500
      else InOneMonth(last) && Days(last) <= 7 && count(last) > 500
    decreases Days(w)
  {
    hide ShrinkLatest, Days, InOneMonth, Fitted, ShrinkChain;
    FittedStep(w, count);
    chain := [w];
    OneInChain(w);
    if count(w) > 500 && ShrinkLatest(w).Success? {
      var v := ShrinkLatest(w).value;
      var rest := FittedIsFirst(v, count);
      LongerChain(w, rest);
      chain := [w] + rest;
    }
  }

  lemma OneInChain(w: Window)
    ensures ShrinkChain([w])
  {
  }

  lemma FittedStep(w: Window, count: Window -> nat)
    requires InOneMonth(w)
    ensures Proper(w)
    ensures count(w) <= 500 ==> Fitted(w, count) == Success(w)
    ensures count(w) > 500 ==> if ShrinkLatest(w).Failure? then Fitted(w, count).Failure? && Days(w) <= 7
      else var v := ShrinkLatest(w).value;
        InOneMonth(v) && 0 <= Days(v) < Days(w) && ShrinksTo(w, v) && Fitted(w, count) == Fitted(v, count)
  {
    if count(w) > 500 && ShrinkLatest(w).Success? {
      ShrinkMeans(w);
    }
    hide ShrinkLatest, Days, InOneMonth;
  }
}
