/**
How a batch ends (src/oa_knowledge/done_collection.py, `run_inventory`): the verdict when the list may have
changed before the closing look, and what a lost login, an error, a crash or a pause leaves at each moment.
*/
module InventoryVerdict {
  import opened Wrappers
  import opened InventoryScan
  import opened InventoryRuns
  import opened InventoryDrift

  /** Before moment `n` the list is `s`, every read works and nobody asks for a pause. */
  ghost predicate CalmUntil(env: nat -> Moment, s: Source, n: nat) {
    forall t :: 0 <= t < n ==>
      env(t).source == s && env(t).read == Works && !env(t).pauseBefore && !env(t).pauseAfter
  }

  predicate SameFirst(p: Params, s: Source)
    requires s.pages != []
  {
    && (p.sourceTotal.Some? ==> p.sourceTotal.value == s.total)
    && (p.totalPages.Some? ==> p.totalPages.value == |s.pages|)
    && (1 in p.signatures ==> p.signatures[1] == s.pages[0])
  }

  /** The moment of the first page that is scanned: before it the first page is read, or that and the last recorded. */
  function FirstTick(p: Params, s: Source): nat
    requires s.pages != []
  {
    if p.nextPage > 2 && SameFirst(p, s) then 2 else 1
  }

  /** The page after the last one of the batch. */
  function LastPage(p: Params, s: Source): nat
    requires s.pages != []
  {
    Min(|s.pages| + 1, ResumePage(p, s) + BATCH)
  }

  /** The moment after the last page of the batch. */
  function ClosingTick(p: Params, s: Source): int
    requires s.pages != []
  {
    FirstTick(p, s) + LastPage(p, s) - ResumePage(p, s)
  }

  ghost predicate Ready(l: Ledger, s: Source) {
    Good(l) && !l.params.pauseRequested && s.pages != [] && NoEmptyPage(s)
  }

  lemma ReadyMeans(l: Ledger, s: Source)
    requires Ready(l, s)
    ensures l.params.nextPage >= 1 && !l.params.pauseRequested && s.pages != [] && NoEmptyPage(s)
    ensures 1 <= ResumePage(l.params, s) <= LastPage(l.params, s) <= |s.pages| + 1
    ensures ResumePage(l.params, s) > 1 ==> ResumePage(l.params, s) == l.params.nextPage
  {
    ResumesInside(l, s);
  }

  // --- up to a moment ---

  /** The scan after `j` calm pages. */
  lemma {:induction false} SkipPages(l: Ledger, mem: Params, last: nat, env: nat -> Moment, tick: nat, s: Source,
      j: nat) returns (l': Ledger, mem': Params)
    requires CalmUntil(env, s, tick + j) && NoEmptyPage(s) && !l.params.pauseRequested
    requires 1 <= mem.nextPage && mem.nextPage + j <= last <= |s.pages| + 1
    requires forall i :: i in mem.signatures <==> 1 <= i < mem.nextPage
    ensures ScanPages(l, mem, last, s.total, env, tick) == ScanPages(l', mem', last, s.total, env, tick + j)
    ensures l'.status == l.status && l'.syncs == l.syncs && !l'.params.pauseRequested
    ensures mem'.nextPage == mem.nextPage + j && Pieced(mem.signatures, mem'.signatures, s, mem.nextPage, mem'.nextPage)
    ensures if j == 0 then l' == l && mem' == mem else l'.params == mem'
    decreases j
  {
    hide *;
    if j == 0 {
      l', mem' := l, mem;
      NoPieces(mem.signatures, s, mem.nextPage);
    } else {
      CalmMoment(env, s, tick + j, tick);
      var next := NextLedger(l, mem, env(tick), s);
      OnePageSkipped(l, mem, last, env, tick, s, next);
      l', mem' := SkipPages(next, next.params, last, env, tick + 1, s, j - 1);
      PiecesJoin(mem, next.params, mem'.signatures, s, mem'.nextPage);
    }
  }

  lemma CalmMoment(env: nat -> Moment, s: Source, n: nat, t: nat)
    requires CalmUntil(env, s, n) && t < n
    ensures env(t).source == s && env(t).read == Works && !env(t).pauseBefore && !env(t).pauseAfter
  {
  }

  lemma NoPieces(sig: map<nat, Page>, s: Source, n: nat)
    requires forall i :: i in sig <==> 1 <= i < n
    ensures Pieced(sig, sig, s, n, n)
  {
  }

  lemma OnePageSkipped(l: Ledger, mem: Params, last: nat, env: nat -> Moment, tick: nat, s: Source, next: Ledger)
    requires mem.nextPage < last && OnePage(l, mem, s.total, env(tick)) == Next(next)
    ensures ScanPages(l, mem, last, s.total, env, tick) == ScanPages(next, next.params, last, s.total, env, tick + 1)
    ensures next.status == l.status && next.syncs == l.syncs
  {
    hide UpsertPage, KeysOf, ReadPage;
  }

  /** A batch begins with the boundary reads and goes on with the scan. */
  lemma BatchScans(l: Ledger, env: nat -> Moment, s: Source) returns (mem: Params)
    requires Ready(l, s) && CalmUntil(env, s, FirstTick(l.params, s))
    ensures Batch(l, env) == ScanFrom(l.(status := Running), mem, s.total, |s.pages|, env, FirstTick(l.params, s))
    ensures mem.nextPage == ResumePage(l.params, s) && 1 <= mem.nextPage <= |s.pages| + 1
    ensures forall i :: i in mem.signatures <==> 1 <= i < mem.nextPage
    ensures mem.nextPage > 1 ==>
      mem.signatures == l.params.signatures && mem.keys == l.params.keys && mem.nextPage == l.params.nextPage
    ensures mem.nextPage > 1 ==> 1 in mem.signatures && mem.signatures[1] == s.pages[0]
  {
    mem := Rebase(l.params, DriftSeen(l.params, s), s.total, |s.pages|);
    var l0 := l.(status := Running);
    assert Ask(l0, env(0).pauseBefore) == l0;
    assert ReadPage(env(0), 1) == Got(s.pages[0]);
    hide AfterFirst, ScanFrom;
    assert Batch(l, env) == AfterFirst(l0, env, s.pages[0]);
    hide Batch, UnionKeys;
    AfterFirstScans(l0, env, s);
  }

  lemma AfterFirstScans(l: Ledger, env: nat -> Moment, s: Source)
    requires Checkpoint(l.params) && s.pages != [] && CalmUntil(env, s, FirstTick(l.params, s))
    ensures AfterFirst(l, env, s.pages[0])
            == ScanFrom(l, Rebase(l.params, DriftSeen(l.params, s), s.total, |s.pages|), s.total, |s.pages|, env,
                        FirstTick(l.params, s))
  {
    hide ScanFrom, UnionKeys;
    if l.params.nextPage > 2 && SameFirst(l.params, s) {
      assert l.params.nextPage - 1 in l.params.signatures && l.params.nextPage <= |s.pages| + 1;
      assert ReadPage(env(1), l.params.nextPage - 1) == Got(s.pages[l.params.nextPage - 2]);
      assert Ask(l, env(1).pauseBefore) == l;
    }
  }

  /** A batch after `j` pages: `now` is committed, and `mem` is what the worker goes on with. */
  ghost predicate Underway(l: Ledger, s: Source, j: nat, now: Ledger, mem: Params)
    requires s.pages != []
  {
    && now.status == Running && now.syncs == l.syncs && !now.params.pauseRequested
    && 1 <= mem.nextPage == ResumePage(l.params, s) + j
    && Pieced(l.params.signatures, mem.signatures, s, ResumePage(l.params, s), mem.nextPage)
    && (j == 0 ==> now == l.(status := Running))
    && (j > 0 || (mem.nextPage > 1 && mem.nextPage == l.params.nextPage) ==>
          now.params.keys == mem.keys && now.params.nextPage == mem.nextPage && now.params.signatures == mem.signatures)
    && (mem.nextPage > 1 ==> 1 in mem.signatures && mem.signatures[1] == s.pages[0])
  }

  function RestOfBatch(now: Ledger, mem: Params, last: nat, env: nat -> Moment, tick: nat, s: Source): Ledger {
    var scan := ScanPages(now, mem, last, s.total, env, tick);
    if scan.going then Close(scan, s.total, |s.pages|, env) else scan.ledger
  }

  /** What is known after `j` pages: the record, and nothing else has changed. */
  lemma BatchAfterPages(l: Ledger, env: nat -> Moment, s: Source, j: nat)
    returns (now: Ledger, mem: Params)
    requires Ready(l, s) && CalmUntil(env, s, FirstTick(l.params, s) + j)
    requires ResumePage(l.params, s) + j <= LastPage(l.params, s)
    ensures l.params.nextPage >= 1 && Underway(l, s, j, now, mem)
    ensures Batch(l, env) == RestOfBatch(now, mem, LastPage(l.params, s), env, FirstTick(l.params, s) + j, s)
  {
    hide *;
    ReadyMeans(l, s);
    CalmUntilEarlier(env, s, FirstTick(l.params, s) + j, FirstTick(l.params, s));
    var start := BatchScans(l, env, s);
    var first, last := FirstTick(l.params, s), LastPage(l.params, s);
    now, mem := SkipPages(l.(status := Running), start, last, env, first, s, j);
    ScanFromIs(l.(status := Running), start, env, first, s);
    LastIs(l.params, s);
    FirstIsRecorded(start, mem.signatures, s, mem.nextPage);
    SkippedIsUnderway(l, s, j, start, now, mem);
    SameRest(l.(status := Running), start, now, mem, last, env, first, first + j, s);
  }

  lemma CalmUntilEarlier(env: nat -> Moment, s: Source, n: nat, k: nat)
    requires CalmUntil(env, s, n) && k <= n
    ensures CalmUntil(env, s, k)
  {
  }

  lemma LastIs(p: Params, s: Source)
    requires s.pages != []
    ensures LastPage(p, s) == Min(|s.pages| + 1, ResumePage(p, s) + BATCH)
  {
  }

  lemma ScanFromIs(l: Ledger, mem: Params, env: nat -> Moment, tick: nat, s: Source)
    ensures ScanFrom(l, mem, s.total, |s.pages|, env, tick)
            == RestOfBatch(l, mem, Min(|s.pages| + 1, mem.nextPage + BATCH), env, tick, s)
  {
  }

  lemma SameRest(l: Ledger, mem: Params, l': Ledger, mem': Params, last: nat, env: nat -> Moment, tick: nat,
      tick': nat, s: Source)
    requires ScanPages(l, mem, last, s.total, env, tick) == ScanPages(l', mem', last, s.total, env, tick')
    ensures RestOfBatch(l, mem, last, env, tick, s) == RestOfBatch(l', mem', last, env, tick', s)
  {
    hide ScanPages, Close;
  }

  lemma SkippedIsUnderway(l: Ledger, s: Source, j: nat, start: Params, now: Ledger, mem: Params)
    requires s.pages != [] && !l.params.pauseRequested && 1 <= start.nextPage == ResumePage(l.params, s)
    requires start.nextPage > 1 ==>
      start.signatures == l.params.signatures && start.keys == l.params.keys && start.nextPage == l.params.nextPage
    requires now.status == Running && now.syncs == l.syncs && !now.params.pauseRequested
    requires mem.nextPage == start.nextPage + j &&
      Pieced(start.signatures, mem.signatures, s, start.nextPage, mem.nextPage)
    requires if j == 0 then now == l.(status := Running) && mem == start else now.params == mem
    requires mem.nextPage > 1 ==> 1 in mem.signatures && mem.signatures[1] == s.pages[0]
    ensures Underway(l, s, j, now, mem)
  {
    PiecesFromCheckpoint(l.params.signatures, start, mem.signatures, s, mem.nextPage);
    hide Pieced, ResumePage;
  }

  lemma PiecesFromCheckpoint(recorded: map<nat, Page>, start: Params, sig: map<nat, Page>, s: Source, end: nat)
    requires Pieced(start.signatures, sig, s, start.nextPage, end)
    requires start.nextPage > 1 ==> start.signatures == recorded
    ensures Pieced(recorded, sig, s, start.nextPage, end)
  {
  }

  lemma FirstIsRecorded(start: Params, sig: map<nat, Page>, s: Source, end: nat)
    requires Pieced(start.signatures, sig, s, start.nextPage, end) && s.pages != []
    requires start.nextPage > 1 ==> 1 in start.signatures && start.signatures[1] == s.pages[0]
    ensures end > 1 ==> 1 in sig && sig[1] == s.pages[0]
  {
    if end > 1 {
      assert if start.nextPage > 1 then Kept(start.signatures, sig, 1) else FromSource(sig, s, 1);
    }
  }

  // --- the verdict ---

  /** Completed, if the list `s'` at the closing look fits what was scanned of `s`, and failed otherwise; and noted. */
  predicate Judged(r: Ledger, syncs: seq<bool>, s: Source, s': Source) {
    && r.status in {Completed, Failed} && r.syncs == syncs + [r.status == Completed]
    && (r.status == Completed <==>
          && s'.total == s.total && |s'.pages| == |s.pages| && |r.params.keys| == s.total
          && 1 in r.params.signatures && PageAt(s', 1) == Some(r.params.signatures[1]))
  }

  /**
  A batch comes to the end of the list, and at the closing look the list is `s'`. The job is completed if and
  only if `s'` has the total, the number of pages and the first page that the scan went by, and there are as
  many keys as the total says. The result is noted with the verdict, whatever it is.
  */
  lemma VerdictIff(l: Ledger, env: nat -> Moment, s: Source, tick: nat)
    requires Ready(l, s) && LastPage(l.params, s) == |s.pages| + 1
    requires tick == ClosingTick(l.params, s) && CalmUntil(env, s, tick) && env(tick).read == Works
    ensures AllRecorded(l, Batch(l, env), s) && Judged(Batch(l, env), l.syncs, s, env(tick).source)
  {
    hide *;
    ReadyMeans(l, s);
    var j := LastPage(l.params, s) - ResumePage(l.params, s);
    ClosingIs(l.params, s);
    var now, mem := BatchAfterPages(l, env, s, j);
    CloseVerdict(l, now, mem, j, env, tick, s);
  }

  /** The checkpoint is the record of all pages. */
  ghost predicate AllRecorded(l: Ledger, r: Ledger, s: Source)
    requires s.pages != []
  {
    && r.params.nextPage == |s.pages| + 1 && 1 in r.params.signatures && r.params.signatures[1] == s.pages[0]
    && Pieced(l.params.signatures, r.params.signatures, s, ResumePage(l.params, s), |s.pages| + 1)
  }

  lemma CloseVerdict(l: Ledger, now: Ledger, mem: Params, j: nat, env: nat -> Moment, tick: nat, s: Source)
    requires s.pages != [] && Underway(l, s, j, now, mem) && ResumePage(l.params, s) + j == |s.pages| + 1
    requires j == 0 ==> ResumePage(l.params, s) == l.params.nextPage
    requires env(tick).read == Works
    ensures var r := RestOfBatch(now, mem, |s.pages| + 1, env, tick, s);
      AllRecorded(l, r, s) && Judged(r, l.syncs, s, env(tick).source)
  {
    hide Pieced, ResumePage;
    var m := env(tick);
    assert ReadPage(m, 1).Got? && PageAt(m.source, 1) == Some(ReadPage(m, 1).page);
  }

  lemma ClosingIs(p: Params, s: Source)
    requires s.pages != []
    ensures ClosingTick(p, s) == FirstTick(p, s) + LastPage(p, s) - ResumePage(p, s)
  {
  }

  // --- a batch that is cut short ---

  /** What the job comes to when a read brings no page that can be used: a crash leaves it as it stands. */
  function StatusAfter(read: ReadFate): Status {
    match read
    case LoginLost => AuthRequired
    case Raises => Failed
    case CutOff => Running
    case Works => Failed
  }

  /** The list does not have the page any more, or shows it without rows. */
  predicate PageIsGone(s: Source, n: nat) {
    PageAt(s, n) in {None, Some([])}
  }

  /** The checkpoint is the old one as long as no page is read; then it is the record up to page `n`. */
  ghost predicate RecordedUpTo(l: Ledger, r: Ledger, s: Source, j: nat)
    requires s.pages != []
  {
    var start := ResumePage(l.params, s);
    if j == 0 then r.manifest == l.manifest && r.params == l.params.(pauseRequested := r.params.pauseRequested)
    else r.params.nextPage == start + j && Pieced(l.params.signatures, r.params.signatures, s, start, start + j)
  }

  /**
  After `j` calm pages somebody asks for a pause, or the next page cannot be read. The pause comes before
  the read: no page is read any more. In each case the checkpoint holds the pages read until then, and
  no result is noted.
  */
  lemma PageInterrupted(l: Ledger, env: nat -> Moment, s: Source, j: nat, tick: nat)
    requires Ready(l, s) && ResumePage(l.params, s) + j < LastPage(l.params, s)
    requires tick == FirstTick(l.params, s) + j && CalmUntil(env, s, tick)
    requires env(tick).pauseBefore || env(tick).read != Works ||
      (s.total != 0 && PageIsGone(env(tick).source, ResumePage(l.params, s) + j))
    ensures var r := Batch(l, env);
      && r.status == (if env(tick).pauseBefore then Paused else StatusAfter(env(tick).read))
      && r.params.pauseRequested == env(tick).pauseBefore && r.syncs == l.syncs && RecordedUpTo(l, r, s, j)
  {
    hide *;
    ReadyMeans(l, s);
    var now, mem := BatchAfterPages(l, env, s, j);
    PageHalts(l, now, mem, j, LastPage(l.params, s), env, tick, s);
  }

  lemma PageHalts(l: Ledger, now: Ledger, mem: Params, j: nat, last: nat, env: nat -> Moment, tick: nat, s: Source)
    requires s.pages != [] && Underway(l, s, j, now, mem) && ResumePage(l.params, s) + j < last
    requires env(tick).pauseBefore || env(tick).read != Works ||
      (s.total != 0 && PageIsGone(env(tick).source, ResumePage(l.params, s) + j))
    ensures var r := RestOfBatch(now, mem, last, env, tick, s);
      && r.status == (if env(tick).pauseBefore then Paused else StatusAfter(env(tick).read))
      && r.params.pauseRequested == env(tick).pauseBefore && r.syncs == l.syncs && RecordedUpTo(l, r, s, j)
  {
    hide Pieced, ResumePage;
    assert OnePage(now, mem, s.total, env(tick)).Halt?;
  }

  /** A pause asked while a page is read: the page is kept, and no other one is read. */
  lemma PauseDuringPage(l: Ledger, env: nat -> Moment, s: Source, j: nat, tick: nat)
    requires Ready(l, s) && ResumePage(l.params, s) + j < LastPage(l.params, s)
    requires ResumePage(l.params, s) + j + 1 <= |s.pages|
    requires tick == FirstTick(l.params, s) + j && CalmUntil(env, s, tick)
    requires env(tick).source == s && env(tick).read == Works && !env(tick).pauseBefore && env(tick).pauseAfter
    ensures var r := Batch(l, env);
      r.status == Paused && r.params.pauseRequested && r.syncs == l.syncs && RecordedUpTo(l, r, s, j + 1)
  {
    hide *;
    ReadyMeans(l, s);
    var now, mem := BatchAfterPages(l, env, s, j);
    PausesAfterPage(l, now, mem, j, LastPage(l.params, s), env, tick, s);
  }

  lemma PausesAfterPage(l: Ledger, now: Ledger, mem: Params, j: nat, last: nat, env: nat -> Moment, tick: nat,
      s: Source)
    requires s.pages != [] && Underway(l, s, j, now, mem) && ResumePage(l.params, s) + j < last <= |s.pages| + 1
    requires 1 <= ResumePage(l.params, s) && ResumePage(l.params, s) + j + 1 <= |s.pages| && NoEmptyPage(s)
    requires env(tick).source == s && env(tick).read == Works && !env(tick).pauseBefore && env(tick).pauseAfter
    ensures var r := RestOfBatch(now, mem, last, env, tick, s);
      r.status == Paused && r.params.pauseRequested && r.syncs == l.syncs && RecordedUpTo(l, r, s, j + 1)
  {
    hide Pieced, ResumePage, NoEmptyPage, ScanPages, Close;
    PausedPage(now, mem, last, s, env, tick);
    OneMorePiece(l.params.signatures, mem.signatures, s, ResumePage(l.params, s), mem.nextPage);
  }

  lemma PausedPage(l: Ledger, mem: Params, last: nat, s: Source, env: nat -> Moment, tick: nat)
    requires 1 <= mem.nextPage < last <= |s.pages| + 1 && mem.nextPage < |s.pages| && l.status == Running
    requires NoEmptyPage(s) && !l.params.pauseRequested
    requires env(tick).source == s && env(tick).read == Works && !env(tick).pauseBefore && env(tick).pauseAfter
    ensures var r := RestOfBatch(l, mem, last, env, tick, s);
      && r.status == Paused && r.syncs == l.syncs && r.params.pauseRequested
      && r.params.nextPage == mem.nextPage + 1
      && r.params.signatures == mem.signatures[mem.nextPage := PageOf(s, mem.nextPage)]
  {
    var page := PageOf(s, mem.nextPage);
    assert ReadPage(env(tick), mem.nextPage) == Got(page);
    var next := CommitPage(Ask(l, true), mem, page);
    assert OnePage(l, mem, s.total, env(tick)) == Next(next);
    hide UpsertPage, KeysOf;
    assert ScanPages(l, mem, last, s.total, env, tick) == ScanPages(next, next.params, last, s.total, env, tick + 1);
    if mem.nextPage + 1 < last {
      assert OnePage(next, next.params, s.total, env(tick + 1)) ==
        Halt(Finish(Ask(next, env(tick + 1).pauseBefore), Paused));
    }
  }

  lemma OneMorePiece(recorded: map<nat, Page>, sig: map<nat, Page>, s: Source, start: nat, n: nat)
    requires 1 <= start <= n <= |s.pages| && Pieced(recorded, sig, s, start, n)
    ensures Pieced(recorded, sig[n := PageOf(s, n)], s, start, n + 1)
  {
    var more := sig[n := PageOf(s, n)];
    forall i: nat | 1 <= i < start && i < n + 1 ensures Kept(recorded, more, i) {
      assert Kept(recorded, sig, i);
    }
    forall i: nat | 1 <= i && start <= i < n + 1 ensures FromSource(more, s, i) {
      assert i < n ==> FromSource(sig, s, i);
    }
  }

  /** After its ten pages, with more to come, a batch leaves the job queued for the next, or paused if that is asked. */
  lemma BatchHandsOver(l: Ledger, env: nat -> Moment, s: Source, tick: nat)
    requires Ready(l, s) && LastPage(l.params, s) <= |s.pages|
    requires tick == ClosingTick(l.params, s) && CalmUntil(env, s, tick)
    ensures var r := Batch(l, env);
      && r.status == (if env(tick).pauseBefore then Paused else Queued)
      && r.params.pauseRequested == env(tick).pauseBefore && r.syncs == l.syncs && RecordedUpTo(l, r, s, BATCH)
  {
    ResumesInside(l, s);
    assert tick == FirstTick(l.params, s) + BATCH && l.params.nextPage >= 1;
    var now, mem := BatchAfterPages(l, env, s, BATCH);
    hide Pieced, CalmUntil, Batch, NoEmptyPage, ResumePage, FirstTick, Good;
  }

  /** When the closing look fails, all pages are kept, and there is no verdict. */
  lemma CloseInterrupted(l: Ledger, env: nat -> Moment, s: Source, tick: nat)
    requires Ready(l, s) && LastPage(l.params, s) == |s.pages| + 1
    requires tick == ClosingTick(l.params, s) && CalmUntil(env, s, tick) && env(tick).read != Works
    ensures var r := Batch(l, env);
      r.status == StatusAfter(env(tick).read) && r.syncs == l.syncs && AllRecorded(l, r, s)
  {
    hide *;
    ReadyMeans(l, s);
    var j := LastPage(l.params, s) - ResumePage(l.params, s);
    ClosingIs(l.params, s);
    var now, mem := BatchAfterPages(l, env, s, j);
    CloseFails(l, now, mem, j, env, tick, s);
  }

  lemma CloseFails(l: Ledger, now: Ledger, mem: Params, j: nat, env: nat -> Moment, tick: nat, s: Source)
    requires s.pages != [] && Underway(l, s, j, now, mem) && ResumePage(l.params, s) + j == |s.pages| + 1
    requires j == 0 ==> ResumePage(l.params, s) == l.params.nextPage
    requires env(tick).read != Works
    ensures var r := RestOfBatch(now, mem, |s.pages| + 1, env, tick, s);
      r.status == StatusAfter(env(tick).read) && r.syncs == l.syncs && AllRecorded(l, r, s)
  {
    hide Pieced, ResumePage;
  }

  /**
  A batch whose first look at the list fails, or whose look at the last recorded page does, changes no
  checkpoint.
  */
  lemma BoundaryInterrupted(l: Ledger, env: nat -> Moment, s: Source)
    requires Good(l) && !l.params.pauseRequested && s.pages != []
    requires env(0).read != Works || (env(0).source == s && FirstTick(l.params, s) == 2 && env(1).read != Works)
    ensures var (r, m) := (Batch(l, env), if env(0).read != Works then env(0) else env(1));
      && r.status == StatusAfter(m.read) && r.manifest == l.manifest && r.syncs == l.syncs
      && r.params == l.params.(pauseRequested := r.params.pauseRequested)
  {
    hide ScanFrom, UnionKeys;
  }
}
