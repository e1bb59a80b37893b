/**
Whole runs of the inventory: batches interleaved with pauses, resumes, crash recovery and new
jobs. On a source that holds still, every run that ends `completed` has what one uninterrupted
pass would have (src/oa_knowledge/done_collection.py).
*/
module InventoryRuns {
  import opened Wrappers
  import opened InventoryScan

  datatype Action = RunBatch(env: nat -> Moment) | PauseJob | ResumeJob | RecoverJob | StartOver

  /** One step of a run; a request the job's status does not support is refused and changes nothing. */
  function Act(l: Ledger, a: Action): Ledger
    requires l.params.nextPage >= 1
  {
    match a
    case RunBatch(env) => if l.status in {Queued, Running} then Batch(l, env) else l
    case PauseJob =>
      if l.status == Queued then l.(status := Paused, params := l.params.(pauseRequested := true))
      else if l.status == Running then Ask(l, true)
      else l
    case ResumeJob =>
      if l.status == Failed then
        l.(status := Queued, params :=
          l.params.(pauseRequested := false, nextPage := 1, keys := {}, signatures := map[]))
      else if l.status in {Paused, AuthRequired} then l.(status := Queued, params := l.params.(pauseRequested := false))
      else l
    case RecoverJob => if l.status == Running then l.(status := Queued) else l
    case StartOver => if l.status in {Completed, Failed} then l.(status := Queued, params := FRESH_PARAMS) else l
  }

  lemma ActKeepsGood(l: Ledger, a: Action)
    requires Good(l)
    ensures Good(Act(l, a)) && l.manifest.Keys <= Act(l, a).manifest.Keys
  {
    if a.RunBatch? {
      BatchKeepsGood(l, a.env);
    }
    hide Batch;
  }

  function Run(l: Ledger, actions: seq<Action>): (r: Ledger)
    requires Good(l)
    ensures Good(r) && l.manifest.Keys <= r.manifest.Keys
  {
    if actions == [] then l
    else
      var before := Run(l, actions[..|actions| - 1]);
      ActKeepsGood(before, actions[|actions| - 1]);
      Act(before, actions[|actions| - 1])
  }

  // --- a source that holds still ---

  ghost predicate Still(env: nat -> Moment, s: Source) {
    forall t :: env(t).source == s
  }

  function PageKeys(pages: seq<Page>, n: nat): set<string>
    requires n <= |pages|
  {
    if n == 0 then {} else PageKeys(pages, n - 1) + KeysOf(pages[n - 1])
  }

  /** What one uninterrupted pass collects. */
  function AllKeys(s: Source): set<string> {
    PageKeys(s.pages, |s.pages|)
  }

  predicate NoEmptyPage(s: Source) {
    s.total != 0 ==> forall i :: 0 <= i < |s.pages| ==> s.pages[i] != []
  }

  /** The checkpoint shows pages of `s`, and no page that a scan would have rejected. */
  ghost predicate Faithful(p: Params, s: Source) {
    && (forall i :: i in p.signatures ==> 1 <= i <= |s.pages| && p.signatures[i] == s.pages[i - 1])
    && (s.total != 0 ==> forall i :: i in p.signatures ==> p.signatures[i] != [])
    && (p.nextPage > 1 ==> p.sourceTotal == Some(s.total) && p.totalPages == Some(|s.pages|))
  }

  lemma {:induction false} FaithfulKeys(p: Params, s: Source, n: nat)
    requires Faithful(p, s) && 1 <= n <= |s.pages| + 1
    requires forall i :: 1 <= i < n ==> i in p.signatures
    ensures UnionKeys(p.signatures, n) == PageKeys(s.pages, n - 1)
  {
    if n > 1 {
      FaithfulKeys(p, s, n - 1);
    }
  }

  lemma AskKeepsFaithful(l: Ledger, pause: bool, s: Source)
    ensures Faithful(Ask(l, pause).params, s) <==> Faithful(l.params, s)
  {
  }

  lemma OnePageKeepsFaithful(l: Ledger, mem: Params, m: Moment, s: Source)
    requires Faithful(l.params, s) && Faithful(mem, s) && m.source == s
    requires 1 <= mem.nextPage <= |s.pages| && mem.sourceTotal == Some(s.total) && mem.totalPages == Some(|s.pages|)
    ensures match OnePage(l, mem, s.total, m)
      case Halt(l') => Faithful(l'.params, s)
      case Next(l') =>
        Faithful(l'.params, s) && l'.params.sourceTotal == mem.sourceTotal && l'.params.totalPages == mem.totalPages
  {
  }

  lemma {:induction false} ScanKeepsFaithful(l: Ledger, mem: Params, last: nat, env: nat -> Moment, tick: nat,
      s: Source)
    requires Still(env, s) && Faithful(l.params, s) && Faithful(mem, s)
    requires mem.nextPage >= 1 && last <= |s.pages| + 1 && mem.sourceTotal == Some(s.total) &&
      mem.totalPages == Some(|s.pages|)
    ensures Faithful(ScanPages(l, mem, last, s.total, env, tick).ledger.params, s)
    decreases last - mem.nextPage
  {
    if mem.nextPage < last {
      OnePageKeepsFaithful(l, mem, env(tick), s);
      hide OnePage, Faithful;
      match OnePage(l, mem, s.total, env(tick))
      case Halt(_) =>
      case Next(l') => ScanKeepsFaithful(l', l'.params, last, env, tick + 1, s);
    }
  }

  lemma ScanFromKeepsFaithful(l: Ledger, mem: Params, env: nat -> Moment, tick: nat, s: Source)
    requires Still(env, s) && Faithful(l.params, s) && Faithful(mem, s)
    requires mem.nextPage >= 1 && mem.sourceTotal == Some(s.total) && mem.totalPages == Some(|s.pages|)
    ensures Faithful(ScanFrom(l, mem, s.total, |s.pages|, env, tick).params, s)
  {
    hide ScanPages, Faithful;
    ScanKeepsFaithful(l, mem, Min(|s.pages| + 1, mem.nextPage + BATCH), env, tick, s);
    var scan := ScanPages(l, mem, Min(|s.pages| + 1, mem.nextPage + BATCH), s.total, env, tick);
    AskKeepsFaithful(scan.ledger, env(scan.tick).pauseBefore, s);
  }

  lemma RebaseKeepsFaithful(mem: Params, changed: bool, s: Source)
    requires Faithful(mem, s)
    ensures Faithful(Rebase(mem, changed, s.total, |s.pages|), s)
  {
  }

  lemma AfterFirstKeepsFaithful(l: Ledger, env: nat -> Moment, first: Page, s: Source)
    requires Still(env, s) && Faithful(l.params, s) && l.params.nextPage >= 1
    ensures Faithful(AfterFirst(l, env, first).params, s)
  {
    hide Faithful, ScanFrom, PriorChanged, Boundary;
    var mem := l.params;
    AskKeepsFaithful(l, env(1).pauseBefore, s);
    var l1 := Ask(l, env(1).pauseBefore);
    var changed := Boundary(mem, s.total, |s.pages|, first);
    RebaseKeepsFaithful(mem, changed, s);
    ScanFromKeepsFaithful(l, Rebase(mem, changed, s.total, |s.pages|), env, 1, s);
    if mem.nextPage > 2 {
      match ReadPage(env(1), mem.nextPage - 1)
      case Got(prior) =>
        var c := PriorChanged(mem, prior);
        RebaseKeepsFaithful(mem, c, s);
        ScanFromKeepsFaithful(l1, Rebase(mem, c, s.total, |s.pages|), env, 2, s);
      case _ =>
    }
  }

  lemma ActKeepsFaithful(l: Ledger, a: Action, s: Source)
    requires Faithful(l.params, s) && l.params.nextPage >= 1
    requires a.RunBatch? ==> Still(a.env, s)
    ensures Faithful(Act(l, a).params, s)
  {
    if a.RunBatch? {
      var l0 := Ask(l.(status := Running), a.env(0).pauseBefore);
      match ReadPage(a.env(0), 1)
      case Got(first) => AfterFirstKeepsFaithful(l0, a.env, first, s);
      case _ =>
      hide AfterFirst;
    }
  }

  lemma {:induction false} RunKeepsFaithful(l: Ledger, actions: seq<Action>, s: Source)
    requires Good(l) && Faithful(l.params, s)
    requires forall k :: 0 <= k < |actions| && actions[k].RunBatch? ==> Still(actions[k].env, s)
    ensures Faithful(Run(l, actions).params, s)
  {
    if actions != [] {
      RunKeepsFaithful(l, actions[..|actions| - 1], s);
      hide Act, Faithful, Good;
      ActKeepsFaithful(Run(l, actions[..|actions| - 1]), actions[|actions| - 1], s);
    }
  }

  /**
  However a job is broken up by crashes, pauses, lost logins, failures and restarts: if it ends
  `completed`, it holds exactly the keys one uninterrupted pass over the source holds, each with
  a manifest row; and it can only end so when the source has a page, no rejected page, and as
  many distinct keys as it announces.
  */
  lemma ResumedScanEqualsOnePass(l: Ledger, actions: seq<Action>, s: Source)
    requires l.status == Queued && l.params == FRESH_PARAMS
    requires forall k :: 0 <= k < |actions| && actions[k].RunBatch? ==> Still(actions[k].env, s)
    ensures Good(l)
    ensures var r := Run(l, actions);
      r.status == Completed ==>
        && r.params.keys == AllKeys(s) && AllKeys(s) <= r.manifest.Keys
        && s.pages != [] && NoEmptyPage(s) && |AllKeys(s)| == s.total
  {
    RunKeepsFaithful(l, actions, s);
    var r := Run(l, actions);
    hide Run;
    if r.status == Completed {
      FaithfulKeys(r.params, s, r.params.nextPage);
      forall i | 0 <= i < |s.pages| ensures s.total != 0 ==> s.pages[i] != [] {
        assert i + 1 in r.params.signatures;
      }
    }
  }

  // --- progress ---

  /** Nobody interferes and every read works. */
  ghost predicate Calm(env: nat -> Moment) {
    forall t :: env(t).read == Works && !env(t).pauseBefore && !env(t).pauseAfter
  }

  function Max(a: nat, b: nat): nat {
    if a < b then b else a
  }

  lemma {:induction false} CalmScan(l: Ledger, mem: Params, last: nat, env: nat -> Moment, tick: nat, s: Source)
    requires Still(env, s) && Calm(env) && NoEmptyPage(s) && !l.params.pauseRequested
    requires 1 <= mem.nextPage && last <= |s.pages| + 1
    ensures var r := ScanPages(l, mem, last, s.total, env, tick);
      && r.going && r.ledger.status == l.status && !r.ledger.params.pauseRequested
      && r.mem.nextPage == Max(last, mem.nextPage)
      && (if mem.nextPage < last then r.ledger.params == r.mem else r.mem == mem && r.ledger == l)
    decreases last - mem.nextPage
  {
    if mem.nextPage < last {
      var m := env(tick);
      var page := s.pages[mem.nextPage - 1];
      assert ReadPage(m, mem.nextPage) == Got(page);
      assert Ask(l, m.pauseBefore) == l && Ask(l, m.pauseAfter) == l;
      assert OnePage(l, mem, s.total, m) == Next(CommitPage(l, mem, page));
      var l' := CommitPage(l, mem, page);
      CalmScan(l', l'.params, last, env, tick + 1, s);
    }
  }

  function Verdict(s: Source): Status {
    if |AllKeys(s)| == s.total then Completed else Failed
  }

  lemma CalmClose(scan: Scan, env: nat -> Moment, s: Source)
    requires Still(env, s) && Calm(env) && s.pages != []
    requires !scan.ledger.params.pauseRequested
    requires Checkpoint(scan.mem) && Faithful(scan.mem, s)
    ensures var l := Close(scan, s.total, |s.pages|, env);
      && l.params == scan.ledger.params
      && l.status == if scan.mem.nextPage <= |s.pages| then Queued else Verdict(s)
  {
    hide UnionKeys, PageKeys, KeysOf;
    var m := env(scan.tick);
    assert Ask(scan.ledger, m.pauseBefore) == scan.ledger;
    if scan.mem.nextPage > |s.pages| {
      assert scan.mem.nextPage == |s.pages| + 1;
      FaithfulKeys(scan.mem, s, scan.mem.nextPage);
      assert 1 in scan.mem.signatures;
      assert ReadPage(m, 1) == Got(s.pages[0]);
    }
  }

  lemma CalmScanFrom(l: Ledger, mem: Params, env: nat -> Moment, tick: nat, s: Source)
    requires Still(env, s) && Calm(env) && NoEmptyPage(s) && s.pages != []
    requires Scanning(l, mem) && !l.params.pauseRequested && Faithful(l.params, s) && Faithful(mem, s)
    requires mem.sourceTotal == Some(s.total) && mem.totalPages == Some(|s.pages|)
    requires mem.nextPage > 1 ==> InStep(l, mem)
    ensures var l' := ScanFrom(l, mem, s.total, |s.pages|, env, tick);
      && l'.params.nextPage == Min(|s.pages| + 1, mem.nextPage + BATCH) && !l'.params.pauseRequested
      && l'.status == if l'.params.nextPage <= |s.pages| then Queued else Verdict(s)
  {
    var last := Min(|s.pages| + 1, mem.nextPage + BATCH);
    CalmScan(l, mem, last, env, tick, s);
    ScanKeepsGood(l, mem, last, s.total, env, tick);
    ScanKeepsFaithful(l, mem, last, env, tick, s);
    var scan := ScanPages(l, mem, last, s.total, env, tick);
    assert mem.nextPage <= |s.pages| + 1;
    assert Faithful(scan.mem, s) && Checkpoint(scan.mem);
    CalmClose(scan, env, s);
    hide ScanPages, Close;
  }

  lemma CalmAfterFirst(l: Ledger, env: nat -> Moment, s: Source)
    requires Still(env, s) && Calm(env) && NoEmptyPage(s) && s.pages != []
    requires Good(l) && l.status == Running && Faithful(l.params, s) && !l.params.pauseRequested
    ensures var l' := AfterFirst(l, env, s.pages[0]);
      && l'.params.nextPage == Min(|s.pages| + 1, l.params.nextPage + BATCH) && !l'.params.pauseRequested
      && l'.status == if l'.params.nextPage <= |s.pages| then Queued else Verdict(s)
  {
    var mem := l.params;
    var first := s.pages[0];
    var changed := Boundary(mem, s.total, |s.pages|, first);
    assert Ask(l, env(1).pauseBefore) == l;
    assert mem.nextPage > 1 ==> 1 in mem.signatures && !changed;
    if mem.nextPage > 2 {
      assert mem.nextPage - 1 in mem.signatures;
      var prior := s.pages[mem.nextPage - 2];
      assert ReadPage(env(1), mem.nextPage - 1) == Got(prior);
      assert !PriorChanged(mem, prior);
    }
    var m := Rebase(mem, changed, s.total, |s.pages|);
    RebaseKeepsScanning(l, mem, changed, s.total, |s.pages|);
    RebaseKeepsFaithful(mem, changed, s);
    assert m.nextPage == mem.nextPage;
    CalmScanFrom(l, m, env, 1, s);
    CalmScanFrom(l, m, env, 2, s);
    hide ScanFrom, Scanning, Good, Faithful, InStep;
  }

  /** An undisturbed batch gets ten pages further, or to the end and to the verdict. */
  lemma CalmBatch(l: Ledger, env: nat -> Moment, s: Source)
    requires Still(env, s) && Calm(env) && NoEmptyPage(s) && s.pages != []
    requires Good(l) && Faithful(l.params, s) && l.status in {Queued, Running} && !l.params.pauseRequested
    ensures var l' := Batch(l, env);
      && l'.params.nextPage == Min(|s.pages| + 1, l.params.nextPage + BATCH) && !l'.params.pauseRequested
      && (l'.params.nextPage <= |s.pages| ==>
        l'.status == Queued && |s.pages| + 1 - l'.params.nextPage < |s.pages| + 1 - l.params.nextPage)
      && (l'.params.nextPage > |s.pages| ==> l'.status == Verdict(s))
  {
    var l0 := l.(status := Running);
    assert Ask(l0, env(0).pauseBefore) == l0;
    assert ReadPage(env(0), 1) == Got(s.pages[0]);
    CalmAfterFirst(l0, env, s);
    hide AfterFirst;
  }

  function Batches(l: Ledger, envs: nat -> (nat -> Moment), k: nat): (r: Ledger)
    requires Good(l)
    ensures Good(r)
  {
    if k == 0 then l
    else
      var before := Batches(l, envs, k - 1);
      ActKeepsGood(before, RunBatch(envs(k - 1)));
      Act(before, RunBatch(envs(k - 1)))
  }

  /**
  A fresh job on a calm source advances ten pages a batch and gives its verdict in the batch that reaches the
  end.
  */
  lemma {:induction false} CalmJobFinishes(l: Ledger, envs: nat -> (nat -> Moment), s: Source, k: nat)
    requires forall i :: Still(envs(i), s) && Calm(envs(i))
    requires NoEmptyPage(s) && s.pages != []
    requires Good(l) && l.status == Queued && l.params == FRESH_PARAMS
    requires BATCH * k < |s.pages| + BATCH
    ensures var r := Batches(l, envs, k);
      && Faithful(r.params, s) && !r.params.pauseRequested
      && r.params.nextPage == Min(|s.pages| + 1, BATCH * k + 1)
      && r.status == (if BATCH * k < |s.pages| then Queued else Verdict(s))
  {
    if k > 0 {
      CalmJobFinishes(l, envs, s, k - 1);
      var before := Batches(l, envs, k - 1);
      CalmBatch(before, envs(k - 1), s);
      ActKeepsFaithful(before, RunBatch(envs(k - 1)), s);
      hide Batch, Faithful, Good;
    }
  }

  // --- a job that was stopped ---

  /** A job that is queued and not wanted paused goes on from its checkpoint, ten pages a batch. */
  lemma {:induction false} CalmJobGoesOn(l: Ledger, envs: nat -> (nat -> Moment), s: Source, k: nat)
    requires forall i :: Still(envs(i), s) && Calm(envs(i))
    requires NoEmptyPage(s) && s.pages != []
    requires Good(l) && l.status == Queued && Faithful(l.params, s) && !l.params.pauseRequested
    requires k <= 1 || l.params.nextPage + BATCH * (k - 1) <= |s.pages|
    ensures var r := Batches(l, envs, k);
      && Faithful(r.params, s) && !r.params.pauseRequested
      && (k > 0 ==> r.params.nextPage == Min(|s.pages| + 1, l.params.nextPage + BATCH * k))
      && (k > 0 ==> r.status == (if l.params.nextPage + BATCH * k <= |s.pages| then Queued else Verdict(s)))
  {
    hide Batch, Faithful, Good, Act, Still, Calm, Batches, Verdict;
    NoBatches(l, envs);
    if k > 0 {
      CalmJobGoesOn(l, envs, s, k - 1);
      NextBatch(l, envs, k);
      OneCalmBatch(Batches(l, envs, k - 1), envs(k - 1), s);
    }
  }

  lemma NoBatches(l: Ledger, envs: nat -> (nat -> Moment))
    requires Good(l)
    ensures Batches(l, envs, 0) == l
  {
  }

  lemma NextBatch(l: Ledger, envs: nat -> (nat -> Moment), k: nat)
    requires Good(l) && k > 0
    ensures Batches(l, envs, k - 1).params.nextPage >= 1
    ensures Batches(l, envs, k) == Act(Batches(l, envs, k - 1), RunBatch(envs(k - 1)))
  {
    hide Act;
  }

  lemma OneCalmBatch(l: Ledger, env: nat -> Moment, s: Source)
    requires Still(env, s) && Calm(env) && NoEmptyPage(s) && s.pages != []
    requires Good(l) && Faithful(l.params, s) && l.status == Queued && !l.params.pauseRequested
    ensures var u := Act(l, RunBatch(env));
      && Faithful(u.params, s) && !u.params.pauseRequested
      && u.params.nextPage == Min(|s.pages| + 1, l.params.nextPage + BATCH)
      && u.status == if u.params.nextPage <= |s.pages| then Queued else Verdict(s)
  {
    CalmBatch(l, env, s);
    ActKeepsFaithful(l, RunBatch(env), s);
    hide Batch, Faithful, Good, Verdict;
  }

  /**
  A job that was paused, lost its login or failed in any run on a stable source can be resumed, and then comes to
  its verdict in as many calm batches as it has tens of pages left: a failed one from the first page, any
  other from its checkpoint.
  */
  lemma StoppedJobFinishes(l: Ledger, actions: seq<Action>, envs: nat -> (nat -> Moment), s: Source)
    returns (q: Ledger, k: nat)
    requires l.status == Queued && l.params == FRESH_PARAMS && NoEmptyPage(s) && s.pages != []
    requires forall i :: 0 <= i < |actions| && actions[i].RunBatch? ==> Still(actions[i].env, s)
    requires forall i :: Still(envs(i), s) && Calm(envs(i))
    requires Good(l) && Run(l, actions).status in {Paused, AuthRequired, Failed}
    ensures q == Act(Run(l, actions), ResumeJob) && Good(q) && q.status == Queued && !q.params.pauseRequested
    ensures var p := Run(l, actions).params;
      if Run(l, actions).status == Failed then q.params.nextPage == 1 && q.params.keys == {}
      else q.params == p.(pauseRequested := false)
    ensures BATCH * (k - 1) <= |s.pages| + 1 - q.params.nextPage
    ensures Batches(q, envs, k).status == Verdict(s)
  {
    var r := Run(l, actions);
    q := Act(r, ResumeJob);
    ResumeMeans(l, r, actions, s);
    hide Run, Batches, Act, Good, Faithful, Still, Calm, Verdict, NoEmptyPage;
    k := PagesLeft(|s.pages|, q.params.nextPage);
    CalmJobGoesOn(q, envs, s, k);
  }

  /** The number of batches for the pages from `n` on and the verdict. */
  lemma PagesLeft(pages: nat, n: nat) returns (k: nat)
    requires 1 <= n <= pages + 1
    ensures k > 0 && BATCH * (k - 1) <= pages + 1 - n && n + BATCH * k > pages
    ensures k <= 1 || n + BATCH * (k - 1) <= pages
  {
    k := if n == pages + 1 then 1 else (pages + BATCH - n) / BATCH;
  }

  lemma ResumeMeans(l: Ledger, r: Ledger, actions: seq<Action>, s: Source)
    requires l.status == Queued && l.params == FRESH_PARAMS && Good(l)
    requires forall i :: 0 <= i < |actions| && actions[i].RunBatch? ==> Still(actions[i].env, s)
    requires r == Run(l, actions) && r.status in {Paused, AuthRequired, Failed}
    ensures r.params.nextPage >= 1
    ensures var q := Act(r, ResumeJob);
      && Good(q) && Faithful(q.params, s) && q.status == Queued && !q.params.pauseRequested
      && 1 <= q.params.nextPage <= |s.pages| + 1
      && (if r.status == Failed then q.params.nextPage == 1 && q.params.keys == {}
          else q.params == r.params.(pauseRequested := false))
  {
    ActKeepsGood(r, ResumeJob);
    RunKeepsFaithful(l, actions, s);
    ActKeepsFaithful(r, ResumeJob, s);
    hide Run;
  }

  /** What the other actions do: a request that does not fit the status is refused, and none touches the manifest. */
  lemma ActMeans(l: Ledger, a: Action)
    requires l.params.nextPage >= 1 && !a.RunBatch?
    ensures var u := Act(l, a);
      && u.manifest == l.manifest && u.syncs == l.syncs
      && (a.PauseJob? ==>
            && u.params == l.params.(pauseRequested := l.params.pauseRequested || l.status in {Queued, Running})
            && u.status == if l.status == Queued then Paused else l.status)
      && (a.ResumeJob? && l.status !in {Paused, AuthRequired, Failed} ==> u == l)
      && (a.RecoverJob? ==> u == l.(status := if l.status == Running then Queued else l.status))
      && (a.StartOver? ==>
            u == if l.status in {Completed, Failed} then l.(status := Queued, params := FRESH_PARAMS) else l)
  {
  }
}
