/**
A source that changed between two batches (src/oa_knowledge/done_collection.py, `run_inventory`): what
the next batch notices, and what a change it does not notice leaves in the checkpoint.
*/
module InventoryDrift {
  import opened Wrappers
  import opened InventoryScan
  import opened InventoryRuns

  /** What a batch compares before it goes on: totals, the first page, and the last recorded page. */
  predicate DriftSeen(p: Params, s: Source)
    requires s.pages != []
  {
    || (p.sourceTotal.Some? && p.sourceTotal.value != s.total)
    || (p.totalPages.Some? && p.totalPages.value != |s.pages|)
    || (1 in p.signatures && p.signatures[1] != s.pages[0])
    || (p.nextPage > 2 && p.nextPage - 1 in p.signatures &&
      PageAt(s, p.nextPage - 1) != Some(p.signatures[p.nextPage - 1]))
  }

  /** The page at which the batch goes on. */
  function ResumePage(p: Params, s: Source): nat
    requires s.pages != []
  {
    if DriftSeen(p, s) then 1 else p.nextPage
  }

  predicate FromSource(after: map<nat, Page>, s: Source, i: nat) {
    i in after && 1 <= i <= |s.pages| && after[i] == PageOf(s, i)
  }

  predicate Kept(before: map<nat, Page>, after: map<nat, Page>, i: nat) {
    i in before && i in after && after[i] == before[i]
  }

  /** Pages recorded before `start` as they were, the others as the source shows them. */
  ghost predicate Pieced(before: map<nat, Page>, after: map<nat, Page>, s: Source, start: nat, end: nat) {
    && (forall i :: i in after <==> 1 <= i < end)
    && (forall i: nat :: 1 <= i < start && i < end ==> Kept(before, after, i))
    && (forall i: nat :: 1 <= i && start <= i < end ==> FromSource(after, s, i))
  }

  lemma {:induction false} CalmScanPieces(l: Ledger, mem: Params, last: nat, env: nat -> Moment, tick: nat, s: Source)
    requires Still(env, s) && Calm(env) && NoEmptyPage(s) && !l.params.pauseRequested
    requires 1 <= mem.nextPage && last <= |s.pages| + 1 && forall i :: i in mem.signatures <==> 1 <= i < mem.nextPage
    ensures var r := ScanPages(l, mem, last, s.total, env, tick);
      Pieced(mem.signatures, r.mem.signatures, s, mem.nextPage, Max(last, mem.nextPage))
    decreases last - mem.nextPage
  {
    if mem.nextPage < last {
      var l' := NextLedger(l, mem, env(tick), s);
      CalmScanPieces(l', l'.params, last, env, tick + 1, s);
      hide Pieced;
      PiecesJoin(mem, l'.params, ScanPages(l', l'.params, last, s.total, env, tick + 1).mem.signatures, s,
        Max(last, mem.nextPage));
    }
  }

  lemma NextLedger(l: Ledger, mem: Params, m: Moment, s: Source) returns (l': Ledger)
    requires m.source == s && m.read == Works && !m.pauseBefore && !m.pauseAfter
    requires NoEmptyPage(s) && !l.params.pauseRequested && 1 <= mem.nextPage <= |s.pages|
    requires forall i :: i in mem.signatures <==> 1 <= i < mem.nextPage
    ensures OnePage(l, mem, s.total, m) == Next(l') && !l'.params.pauseRequested &&
      l'.params.nextPage == mem.nextPage + 1
    ensures l'.params.signatures == mem.signatures[mem.nextPage := PageOf(s, mem.nextPage)]
    ensures forall i :: i in l'.params.signatures <==> 1 <= i < l'.params.nextPage
  {
    var page := s.pages[mem.nextPage - 1];
    assert ReadPage(m, mem.nextPage) == Got(page);
    assert Ask(l, m.pauseBefore) == l && Ask(l, m.pauseAfter) == l;
    l' := CommitPage(l, mem, page);
    hide UpsertPage, KeysOf;
  }

  lemma PiecesJoin(mem: Params, more: Params, sig: map<nat, Page>, s: Source, end: nat)
    requires 1 <= mem.nextPage <= |s.pages| && more.nextPage == mem.nextPage + 1 <= end
    requires more.signatures == mem.signatures[mem.nextPage := PageOf(s, mem.nextPage)]
    requires Pieced(more.signatures, sig, s, more.nextPage, end) && forall i :: i in mem.signatures <==>
      1 <= i < mem.nextPage
    ensures Pieced(mem.signatures, sig, s, mem.nextPage, end)
  {
    var n := mem.nextPage;
    assert Kept(more.signatures, sig, n);
    forall i: nat | 1 <= i < n && i < end ensures Kept(mem.signatures, sig, i) {
      assert Kept(more.signatures, sig, i);
    }
    forall i: nat | n <= i < end ensures FromSource(sig, s, i) {
      assert i > n ==> FromSource(sig, s, i);
    }
  }

  /** At the end of the list the number of keys alone decides whether the job is completed. */
  predicate CountDecides(l: Ledger, s: Source) {
    l.params.nextPage == |s.pages| + 1 ==> (l.status == Completed <==> |l.params.keys| == s.total)
  }

  lemma CalmScanFromPieces(l: Ledger, mem: Params, env: nat -> Moment, tick: nat, s: Source)
    requires Still(env, s) && Calm(env) && NoEmptyPage(s) && s.pages != [] && !l.params.pauseRequested
    requires 1 <= mem.nextPage <= |s.pages| + 1 && forall i :: i in mem.signatures <==> 1 <= i < mem.nextPage
    requires mem.nextPage <= |s.pages| || l.params.signatures == mem.signatures
    requires mem.nextPage <= |s.pages| || (l.params.nextPage == mem.nextPage && l.params.keys == mem.keys)
    requires mem.nextPage > 1 ==> mem.signatures[1] == s.pages[0]
    ensures var r := ScanFrom(l, mem, s.total, |s.pages|, env, tick);
      && r.params.nextPage == Min(|s.pages| + 1, mem.nextPage + BATCH) && CountDecides(r, s)
      && Pieced(mem.signatures, r.params.signatures, s, mem.nextPage, r.params.nextPage)
  {
    var last := Min(|s.pages| + 1, mem.nextPage + BATCH);
    CalmScan(l, mem, last, env, tick, s);
    CalmScanPieces(l, mem, last, env, tick, s);
    var scan := ScanPages(l, mem, last, s.total, env, tick);
    assert Ask(scan.ledger, env(scan.tick).pauseBefore) == scan.ledger;
    assert Pieced(mem.signatures, scan.mem.signatures, s, mem.nextPage, Max(last, mem.nextPage));
    if scan.mem.nextPage == |s.pages| + 1 {
      assert if mem.nextPage > 1 then Kept(mem.signatures, scan.mem.signatures, 1)
        else FromSource(scan.mem.signatures, s, 1);
    }
    hide ScanPages, Pieced;
    CalmVerdict(scan, env, s);
  }

  lemma CalmVerdict(scan: Scan, env: nat -> Moment, s: Source)
    requires Still(env, s) && Calm(env) && s.pages != [] && scan.mem.nextPage == scan.ledger.params.nextPage
    requires scan.mem.nextPage == |s.pages| + 1 ==>
      && scan.mem.keys == scan.ledger.params.keys
      && 1 in scan.mem.signatures && scan.mem.signatures[1] == s.pages[0]
    ensures var r := Close(scan, s.total, |s.pages|, env);
      r.params == scan.ledger.params && CountDecides(r, s)
  {
    assert ReadPage(env(scan.tick), 1) == Got(s.pages[0]);
  }

  /**
  An undisturbed batch over a source that holds still for its duration starts again from the first page
  exactly when a total, the first page or the last recorded page is different from the checkpoint;
  otherwise it keeps every recorded page and goes on behind them. At the end of the list it completes
  the job exactly when it holds as many keys as the source announces.
  */
  lemma DriftIsSeenIff(l: Ledger, env: nat -> Moment, s: Source)
    requires Still(env, s) && Calm(env) && NoEmptyPage(s) && s.pages != []
    requires Good(l) && !l.params.pauseRequested
    ensures CountDecides(Batch(l, env), s)
    ensures var p := Batch(l, env).params;
      var start := ResumePage(l.params, s);
      && p.nextPage == Min(|s.pages| + 1, start + BATCH)
      && Pieced(l.params.signatures, p.signatures, s, start, p.nextPage)
  {
    var l0 := l.(status := Running);
    assert Ask(l0, env(0).pauseBefore) == l0;
    assert ReadPage(env(0), 1) == Got(s.pages[0]);
    hide AfterFirst;
    assert Batch(l, env) == AfterFirst(l0, env, s.pages[0]);
    hide Batch;
    AfterFirstPieces(l0, env, s);
  }

  lemma AfterFirstPieces(l: Ledger, env: nat -> Moment, s: Source)
    requires Still(env, s) && Calm(env) && NoEmptyPage(s) && s.pages != []
    requires Checkpoint(l.params) && !l.params.pauseRequested
    ensures CountDecides(AfterFirst(l, env, s.pages[0]), s)
    ensures var p := AfterFirst(l, env, s.pages[0]).params;
      var start := ResumePage(l.params, s);
      && p.nextPage == Min(|s.pages| + 1, start + BATCH)
      && Pieced(l.params.signatures, p.signatures, s, start, p.nextPage)
  {
    hide ScanFrom, UnionKeys, Pieced;
    assert Ask(l, env(1).pauseBefore) == l;
    var mem := l.params;
    var changed := Boundary(mem, s.total, |s.pages|, s.pages[0]);
    if mem.nextPage > 2 && !changed {
      assert mem.nextPage - 1 in mem.signatures && mem.nextPage <= |s.pages| + 1;
      var prior := s.pages[mem.nextPage - 2];
      assert ReadPage(env(1), mem.nextPage - 1) == Got(prior);
      RebasedPieces(l, mem, PriorChanged(mem, prior), env, 2, s);
    } else {
      RebasedPieces(l, mem, changed, env, 1, s);
    }
  }

  lemma RebasedPieces(l: Ledger, mem: Params, changed: bool, env: nat -> Moment, tick: nat, s: Source)
    requires Still(env, s) && Calm(env) && NoEmptyPage(s) && s.pages != [] && !l.params.pauseRequested
    requires l.params == mem && mem.nextPage >= 1 && forall i :: i in mem.signatures <==> 1 <= i < mem.nextPage
    requires !changed ==> mem.nextPage <= |s.pages| + 1 && (mem.nextPage > 1 ==> mem.signatures[1] == s.pages[0])
    ensures CountDecides(ScanFrom(l, Rebase(mem, changed, s.total, |s.pages|), s.total, |s.pages|, env, tick), s)
    ensures var p := ScanFrom(l, Rebase(mem, changed, s.total, |s.pages|), s.total, |s.pages|, env, tick).params;
      var start := if changed then 1 else mem.nextPage;
      && p.nextPage == Min(|s.pages| + 1, start + BATCH)
      && Pieced(mem.signatures, p.signatures, s, start, p.nextPage)
  {
    CalmScanFromPieces(l, Rebase(mem, changed, s.total, |s.pages|), env, tick, s);
    hide ScanFrom;
  }

  // --- what stays unnoticed ---

  /** Page `i` of the source, counted from one. */
  function PageOf(s: Source, i: int): Page
    requires 1 <= i <= |s.pages|
  {
    s.pages[i - 1]
  }

  lemma {:induction false} UnionHas(sig: map<nat, Page>, n: nat, k: string)
    requires forall i :: 1 <= i < n ==> i in sig
    ensures k in UnionKeys(sig, n) <==> exists i :: 1 <= i < n && k in KeysOf(sig[i])
  {
    hide KeysOf;
    if n > 1 {
      UnionHas(sig, n - 1, k);
    }
  }

  lemma {:induction false} PagesHave(s: Source, n: nat, k: string)
    requires n <= |s.pages|
    ensures k in PageKeys(s.pages, n) <==> exists i :: 1 <= i <= n && k in KeysOf(PageOf(s, i))
  {
    hide KeysOf;
    if n > 0 {
      PagesHave(s, n - 1, k);
      assert PageOf(s, n) == s.pages[n - 1];
    }
  }

  /** The key is on a page recorded before `start`, or on a page of the source from there on. */
  ghost predicate Reaches(recorded: map<nat, Page>, s: Source, start: nat, k: string) {
    || (exists i :: 1 <= i < start && i in recorded && k in KeysOf(recorded[i]))
    || (exists i :: 1 <= i <= |s.pages| && start <= i && k in KeysOf(PageOf(s, i)))
  }

  /** The pages recorded before `start` add no key to those of the source. */
  ghost predicate AddNone(recorded: map<nat, Page>, s: Source, start: nat) {
    forall i :: 1 <= i < start && i in recorded ==> KeysOf(recorded[i]) <= AllKeys(s)
  }

  /** No key is lost with the pages of the source before `start`, in place of which the recorded ones stand. */
  ghost predicate HideNone(recorded: map<nat, Page>, s: Source, start: nat) {
    forall i, k :: 1 <= i < start && i <= |s.pages| && k in KeysOf(PageOf(s, i)) ==> Reaches(recorded, s, start, k)
  }

  /**
  A batch that reaches the end of the list holds the keys of the source if and only if the pages it did
  not read again, those between the first and the last recorded one included, hide none and add none.
  */
  lemma HoldsAllKeysIff(l: Ledger, env: nat -> Moment, s: Source)
    requires Still(env, s) && Calm(env) && NoEmptyPage(s) && s.pages != []
    requires Good(l) && !l.params.pauseRequested
    requires ResumePage(l.params, s) + BATCH > |s.pages|
    ensures var start := ResumePage(l.params, s);
      Batch(l, env).params.keys == AllKeys(s) <==>
        AddNone(l.params.signatures, s, start) && HideNone(l.params.signatures, s, start)
  {
    BatchKeepsGood(l, env);
    DriftIsSeenIff(l, env, s);
    ResumesInside(l, s);
    var p, start := Batch(l, env).params, ResumePage(l.params, s);
    hide Batch, ResumePage, AddNone, HideNone;
    PiecedKeysIff(l.params.signatures, p.signatures, s, start, p.keys);
  }

  lemma ResumesInside(l: Ledger, s: Source)
    requires Good(l) && s.pages != []
    ensures 1 <= ResumePage(l.params, s) <= |s.pages| + 1
  {
  }

  /**
  When the source lists each key once, as its total says, a batch that reaches the end and holds as many
  keys completes the job, and then it is enough for the right keys that the recorded pages add none.
  */
  lemma CompletedHoldsAllKeysIff(l: Ledger, env: nat -> Moment, s: Source)
    requires Still(env, s) && Calm(env) && NoEmptyPage(s) && s.pages != []
    requires Good(l) && !l.params.pauseRequested
    requires ResumePage(l.params, s) + BATCH > |s.pages| && |AllKeys(s)| == s.total
    requires Batch(l, env).status == Completed
    ensures Batch(l, env).params.keys == AllKeys(s) <==> AddNone(l.params.signatures, s, ResumePage(l.params, s))
  {
    HoldsAllKeysIff(l, env, s);
    DriftIsSeenIff(l, env, s);
    BatchKeepsGood(l, env);
    ResumesInside(l, s);
    var p, start := Batch(l, env).params, ResumePage(l.params, s);
    hide Batch, ResumePage, AllKeys, HideNone;
    if AddNone(l.params.signatures, s, start) {
      AddNoneIncludes(l.params.signatures, p.signatures, s, start, p.keys);
      SameSize(p.keys, AllKeys(s));
    }
  }

  lemma SameSize(a: set<string>, b: set<string>)
    requires a <= b && |a| == |b|
    ensures a == b
  {
    assert |b - a| == |b| - |a|;
  }

  /** What the pieced record holds: recorded pages before `start`, the pages of the source from there on. */
  lemma PiecedReaches(recorded: map<nat, Page>, sig: map<nat, Page>, s: Source, start: nat, k: string)
    requires start <= |s.pages| + 1 && Pieced(recorded, sig, s, start, |s.pages| + 1)
    ensures k in UnionKeys(sig, |s.pages| + 1) <==> Reaches(recorded, s, start, k)
  {
    hide KeysOf, UnionKeys;
    var n := |s.pages|;
    UnionHas(sig, n + 1, k);
    if k in UnionKeys(sig, n + 1) {
      var i :| 1 <= i < n + 1 && k in KeysOf(sig[i]);
      assert if i < start then Kept(recorded, sig, i) else FromSource(sig, s, i);
    }
    if exists i :: 1 <= i < start && i in recorded && k in KeysOf(recorded[i]) {
      var i :| 1 <= i < start && i in recorded && k in KeysOf(recorded[i]);
      assert Kept(recorded, sig, i);
    }
    if exists i :: 1 <= i <= n && start <= i && k in KeysOf(PageOf(s, i)) {
      var i :| 1 <= i <= n && start <= i && k in KeysOf(PageOf(s, i));
      assert FromSource(sig, s, i);
    }
  }

  lemma AddNoneIncludes(recorded: map<nat, Page>, sig: map<nat, Page>, s: Source, start: nat, keys: set<string>)
    requires start <= |s.pages| + 1 && Pieced(recorded, sig, s, start, |s.pages| + 1)
    requires keys == UnionKeys(sig, |s.pages| + 1) && AddNone(recorded, s, start)
    ensures keys <= AllKeys(s)
  {
    hide KeysOf, UnionKeys, PageKeys, Pieced;
    forall k | k in keys ensures k in AllKeys(s) {
      PiecedReaches(recorded, sig, s, start, k);
      PagesHave(s, |s.pages|, k);
    }
  }

  lemma PiecedKeysIff(recorded: map<nat, Page>, sig: map<nat, Page>, s: Source, start: nat, keys: set<string>)
    requires start <= |s.pages| + 1 && Pieced(recorded, sig, s, start, |s.pages| + 1)
    requires keys == UnionKeys(sig, |s.pages| + 1)
    ensures keys == AllKeys(s) <==> AddNone(recorded, s, start) && HideNone(recorded, s, start)
  {
    hide KeysOf, UnionKeys, PageKeys, Reaches;
    if keys == AllKeys(s) {
      forall i | 1 <= i < start && i in recorded ensures KeysOf(recorded[i]) <= AllKeys(s) {
        RecordedInUnion(recorded, sig, s, start, i);
      }
      forall i, k | 1 <= i < start && i <= |s.pages| && k in KeysOf(PageOf(s, i)) ensures Reaches(recorded, s, start, k)
      {
        PagesHave(s, |s.pages|, k);
        PiecedReaches(recorded, sig, s, start, k);
      }
    } else if AddNone(recorded, s, start) && HideNone(recorded, s, start) {
      AddNoneIncludes(recorded, sig, s, start, keys);
      HideNoneIncludes(recorded, sig, s, start, keys);
    }
  }

  lemma RecordedInUnion(recorded: map<nat, Page>, sig: map<nat, Page>, s: Source, start: nat, i: nat)
    requires start <= |s.pages| + 1 && Pieced(recorded, sig, s, start, |s.pages| + 1)
    requires 1 <= i < start && i in recorded
    ensures KeysOf(recorded[i]) <= UnionKeys(sig, |s.pages| + 1)
  {
    hide KeysOf, UnionKeys;
    assert Kept(recorded, sig, i);
    forall k | k in KeysOf(recorded[i]) ensures k in UnionKeys(sig, |s.pages| + 1) {
      UnionHas(sig, |s.pages| + 1, k);
    }
  }

  lemma HideNoneIncludes(recorded: map<nat, Page>, sig: map<nat, Page>, s: Source, start: nat, keys: set<string>)
    requires start <= |s.pages| + 1 && Pieced(recorded, sig, s, start, |s.pages| + 1)
    requires keys == UnionKeys(sig, |s.pages| + 1) && HideNone(recorded, s, start)
    ensures AllKeys(s) <= keys
  {
    hide KeysOf, UnionKeys, PageKeys, Pieced;
    forall k | k in AllKeys(s) ensures k in keys {
      PagesHave(s, |s.pages|, k);
      PiecedReaches(recorded, sig, s, start, k);
    }
  }

  // --- a change in the middle ---

  function One(key: string): Page {
    [Item(key, "")]
  }

  /** Three pages were read; then the row on the second one was replaced, and a fourth page is left to read. */
  const RECORDED := Params(
    4, {"a", "b", "c"}, map[1 := One("a"), 2 := One("b"), 3 := One("c")], Some(4), Some(4), false)

  const CHANGED := Source(4, [One("a"), One("x"), One("c"), One("d")])

  const START := Ledger(Running, RECORDED,
    map["a" := ManifestRow("", 1, ""), "b" := ManifestRow("", 2, ""), "c" := ManifestRow("", 3, "")], [])

  const QUIET := Moment(CHANGED, Works, false, false)

  lemma LastPageIsRead(env: nat -> Moment)
    requires forall t :: env(t) == QUIET
    ensures var end := CommitPage(START, RECORDED, One("d"));
      && ScanPages(START, RECORDED, 5, 4, env, 2) == Scan(end, end.params, 3, true)
      && end.params.nextPage == 5 && end.params.keys == {"a", "b", "c", "d"} && !end.params.pauseRequested
      && 1 in end.params.signatures && end.params.signatures[1] == One("a")
  {
    hide UpsertPage;
    var end := CommitPage(START, RECORDED, One("d"));
    assert ReadPage(QUIET, 4) == Got(One("d"));
    assert OnePage(START, RECORDED, 4, QUIET) == Next(end);
    assert One("d")[0].key == "d";
    assert KeysOf(One("d")) == {"d"};
    assert ScanPages(end, end.params, 5, 4, env, 3) == Scan(end, end.params, 3, true);
  }

  lemma ChangedScan(env: nat -> Moment)
    requires forall t :: env(t) == QUIET
    ensures var r := ScanFrom(START, RECORDED, 4, 4, env, 2); r.status == Completed && "b" in r.params.keys
  {
    LastPageIsRead(env);
    var end := CommitPage(START, RECORDED, One("d"));
    hide CommitPage, ScanPages;
    assert |end.params.keys| == 4;
    assert ReadPage(QUIET, 1) == Got(One("a"));
  }

  /** The batch sees no drift, completes, and holds a key that the source no longer has. */
  lemma MiddleDriftIsMissed(env: nat -> Moment)
    requires forall t :: env(t) == QUIET
    ensures !DriftSeen(RECORDED, CHANGED)
    ensures var r := Batch(START.(status := Queued), env); r.status == Completed && "b" in r.params.keys
    ensures "b" !in AllKeys(CHANGED)
  {
    hide AllKeys, AfterFirst;
    ChangedBatch(env);
    KeysOfChanged();
    assert ReadPage(QUIET, 1) == Got(One("a"));
    assert Ask(START, false) == START;
  }

  lemma ChangedBatch(env: nat -> Moment)
    requires forall t :: env(t) == QUIET
    ensures var r := AfterFirst(START, env, One("a")); r.status == Completed && "b" in r.params.keys
  {
    hide ScanFrom;
    ChangedScan(env);
    assert ReadPage(QUIET, 3) == Got(One("c")) && Ask(START, false) == START;
    assert !Boundary(RECORDED, 4, 4, One("a")) && !PriorChanged(RECORDED, One("c"));
    assert Rebase(RECORDED, false, 4, 4) == RECORDED;
  }

  lemma KeysOfChanged()
    ensures "b" !in AllKeys(CHANGED)
  {
    forall i | 1 <= i <= 4 ensures "b" !in KeysOf(PageOf(CHANGED, i)) {
      assert PageOf(CHANGED, i) in [One("a"), One("x"), One("c"), One("d")];
    }
    PagesHave(CHANGED, 4, "b");
  }
}
