/**
The resumable scan of the Done list (src/oa_knowledge/done_collection.py, `run_inventory`, with
the page write of src/oa_knowledge/full_manifest.py).

A batch is a function of the committed ledger and of what happens around it: at every moment the
source shows some list, a read may succeed, find the login lost, raise or be cut off by a crash,
and somebody may ask for a pause. A page's signature is its content, since distinct contents have
distinct digests.
*/
module InventoryScan {
  import opened Wrappers

  datatype Item = Item(key: string, detail: string)

  type Page = seq<Item>

  datatype Source = Source(total: nat, pages: seq<Page>)

  datatype Status = Queued | Running | Paused | AuthRequired | Completed | Failed

  datatype Params = Params(
    nextPage: nat,
    keys: set<string>,
    signatures: map<nat, Page>,
    sourceTotal: Option<nat>,
    totalPages: Option<nat>,
    pauseRequested: bool)

  const FRESH_PARAMS := Params(1, {}, map[], None, None, false)

  datatype ManifestRow = ManifestRow(detail: string, listPage: nat, processing: string)

  type Manifest = map<string, ManifestRow>

  /** The committed rows: the inventory job, the manifest, and the verdicts of finished scans. */
  datatype Ledger = Ledger(status: Status, params: Params, manifest: Manifest, syncs: seq<bool>)

  datatype ReadFate = Works | LoginLost | Raises | CutOff

  datatype Moment = Moment(source: Source, read: ReadFate, pauseBefore: bool, pauseAfter: bool)

  datatype ReadResult = Got(page: Page) | NoLogin | Broken | Crashed

  const BATCH: nat := 10

  function KeysOf(page: Page): set<string> {
    set i | 0 <= i < |page| :: page[i].key
  }

  /** A list without rows still shows an empty first page. */
  function PageAt(s: Source, n: nat): Option<Page> {
    if 1 <= n <= |s.pages| then Some(s.pages[n - 1]) else if n == 1 then Some([]) else None
  }

  function ReadPage(m: Moment, n: nat): ReadResult {
    match m.read
    case Works => (match PageAt(m.source, n) case Some(p) => Got(p) case None => Broken)
    case LoginLost => NoLogin
    case Raises => Broken
    case CutOff => Crashed
  }

  // --- the manifest page ---

  function UpsertRow(m: Manifest, item: Item, listPage: nat): Manifest {
    m[item.key :=
      if item.key in m then m[item.key].(detail := item.detail, listPage := listPage)
      else ManifestRow(item.detail, listPage, "discovered")]
  }

  function UpsertPage(m: Manifest, items: Page, listPage: nat): Manifest {
    if items == [] then m
    else UpsertRow(UpsertPage(m, items[..|items| - 1], listPage), items[|items| - 1], listPage)
  }

  /** A page write adds exactly the page's keys and never touches what is known about an old row's download. */
  lemma {:induction false} UpsertKeeps(m: Manifest, items: Page, listPage: nat)
    ensures var u := UpsertPage(m, items, listPage);
      && u.Keys == m.Keys + KeysOf(items)
      && (forall k :: k in m ==> u[k].processing == m[k].processing)
      && (forall k :: k in m && k !in KeysOf(items) ==> u[k] == m[k])
      && (forall k :: k in u && k !in m ==> u[k].processing == "discovered")
  {
    if items != [] {
      var front, last := items[..|items| - 1], items[|items| - 1];
      UpsertKeeps(m, front, listPage);
      assert KeysOf(items) == KeysOf(front) + {last.key} by {
        forall k | k in KeysOf(items) ensures k in KeysOf(front) + {last.key} {
          var i :| 0 <= i < |items| && items[i].key == k;
          assert i < |front| ==> front[i].key == k;
        }
        forall k | k in KeysOf(front) ensures k in KeysOf(items) {
          var i :| 0 <= i < |front| && front[i].key == k;
          assert items[i].key == k;
        }
        assert items[|items| - 1].key == last.key;
      }
    }
  }

  /** A row of the page has the detail of its last line there, and the number of the page. */
  lemma {:induction false} UpsertWrites(m: Manifest, items: Page, listPage: nat, i: nat)
    requires i < |items| && forall j :: i < j < |items| ==> items[j].key != items[i].key
    ensures var u := UpsertPage(m, items, listPage);
      items[i].key in u && u[items[i].key].detail == items[i].detail && u[items[i].key].listPage == listPage
  {
    if i < |items| - 1 {
      UpsertWrites(m, items[..|items| - 1], listPage, i);
    }
  }

  // --- one batch ---

  function Ask(l: Ledger, pause: bool): Ledger {
    if pause then l.(params := l.params.(pauseRequested := true)) else l
  }

  /** The closing write of a batch: a request to queue again yields to a pause request. */
  function Finish(l: Ledger, status: Status): Ledger {
    l.(status := if status == Queued && l.params.pauseRequested then Paused else status)
  }

  function Stop(l: Ledger, r: ReadResult): Ledger {
    match r
    case NoLogin => Finish(l, AuthRequired)
    case Broken => Finish(l, Failed)
    case Crashed => l
    case Got(_) => l
  }

  function Advance(mem: Params, page: Page): Params {
    mem.(nextPage := mem.nextPage + 1, keys := mem.keys + KeysOf(page), signatures :=
      mem.signatures[mem.nextPage := page])
  }

  /** The page transaction: the rows and the checkpoint together; the stored pause flag is kept. */
  function CommitPage(l: Ledger, mem: Params, page: Page): Ledger {
    l.(manifest := UpsertPage(l.manifest, page, mem.nextPage),
       params := Advance(mem, page).(pauseRequested := l.params.pauseRequested))
  }

  datatype Scan = Scan(ledger: Ledger, mem: Params, tick: nat, going: bool)

  datatype Step = Halt(ledger: Ledger) | Next(ledger: Ledger)

  /** One turn of the page loop. */
  function OnePage(l: Ledger, mem: Params, total: nat, m: Moment): (r: Step)
    ensures r.Next? ==> r.ledger.params.nextPage == mem.nextPage + 1
  {
    var l1 := Ask(l, m.pauseBefore);
    if l1.params.pauseRequested then Halt(Finish(l1, Paused))
    else match ReadPage(m, mem.nextPage)
      case Got(page) =>
        if total != 0 && page == [] then Halt(Finish(l1, Failed))
        else Next(CommitPage(Ask(l1, m.pauseAfter), mem, page))
      case r => Halt(Stop(l1, r))
  }

  function ScanPages(l: Ledger, mem: Params, last: nat, total: nat, env: nat -> Moment, tick: nat): Scan
    decreases last - mem.nextPage
  {
    if mem.nextPage >= last then Scan(l, mem, tick, true)
    else match OnePage(l, mem, total, env(tick))
      case Halt(l') => Scan(l', mem, tick, false)
      case Next(l') => ScanPages(l', l'.params, last, total, env, tick + 1)
  }

  /** Has the source visibly changed since the checkpoint was written? */
  function Boundary(mem: Params, total: nat, pages: nat, first: Page): bool {
    || (mem.sourceTotal.Some? && mem.sourceTotal.value != total)
    || (mem.totalPages.Some? && mem.totalPages.value != pages)
    || (1 in mem.signatures && mem.signatures[1] != first)
  }

  function PriorChanged(mem: Params, prior: Page): bool
    requires mem.nextPage > 0
  {
    !(mem.nextPage - 1 in mem.signatures && mem.signatures[mem.nextPage - 1] == prior)
  }

  function Rebase(mem: Params, changed: bool, total: nat, pages: nat): Params {
    var m := if changed then mem.(nextPage := 1, keys := {}, signatures := map[]) else mem;
    m.(sourceTotal := Some(total), totalPages := Some(pages))
  }

  function Min(a: nat, b: nat): nat {
    if a < b then a else b
  }

  /** The closing read and the verdict, or the end of a batch that leaves pages for the next one. */
  function Close(scan: Scan, total: nat, pages: nat, env: nat -> Moment): Ledger {
    var m := env(scan.tick);
    var l := Ask(scan.ledger, m.pauseBefore);
    if scan.mem.nextPage <= pages then Finish(l, Queued)
    else match ReadPage(m, 1)
      case Got(first) =>
        var aligned := |scan.mem.keys| == total && m.source.total == total && |m.source.pages| == pages
                       && 1 in scan.mem.signatures && scan.mem.signatures[1] == first;
        Finish(l.(syncs := l.syncs + [aligned]), if aligned then Completed else Failed)
      case NoLogin => Stop(l, NoLogin)
      case Broken => Stop(l, Broken)
      case Crashed => l
  }

  function ScanFrom(l: Ledger, mem: Params, total: nat, pages: nat, env: nat -> Moment, tick: nat): Ledger {
    var scan := ScanPages(l, mem, Min(pages + 1, mem.nextPage + BATCH), total, env, tick);
    if scan.going then Close(scan, total, pages, env) else scan.ledger
  }

  /** The batch after its first read: decide whether the checkpoint still stands, then scan on. */
  function AfterFirst(l: Ledger, env: nat -> Moment, first: Page): Ledger
    requires l.params.nextPage >= 1
  {
    var mem := l.params;
    var total, pages := env(0).source.total, |env(0).source.pages|;
    var changed := Boundary(mem, total, pages, first);
    if mem.nextPage > 2 && !changed then
      var l1 := Ask(l, env(1).pauseBefore);
      match ReadPage(env(1), mem.nextPage - 1)
      case Got(prior) => ScanFrom(l1, Rebase(mem, PriorChanged(mem, prior), total, pages), total, pages, env, 2)
      case r => Stop(l1, r)
    else ScanFrom(l, Rebase(mem, changed, total, pages), total, pages, env, 1)
  }

  /** One call of `run_inventory` on a claimed job. */
  function Batch(l: Ledger, env: nat -> Moment): Ledger
    requires l.params.nextPage >= 1
  {
    if l.params.pauseRequested then Finish(l, Paused)
    else
      var l0 := Ask(l.(status := Running), env(0).pauseBefore);
      match ReadPage(env(0), 1)
      case Got(first) => AfterFirst(l0, env, first)
      case r => Stop(l0, r)
  }

  // --- what every commit keeps ---

  function UnionKeys(sig: map<nat, Page>, n: nat): set<string>
    requires forall i :: 1 <= i < n ==> i in sig
  {
    if n <= 1 then {} else UnionKeys(sig, n - 1) + KeysOf(sig[n - 1])
  }

  /** The checkpoint is the record of the pages read since the last restart. */
  ghost predicate Checkpoint(p: Params) {
    && p.nextPage >= 1
    && (forall i :: i in p.signatures <==> 1 <= i < p.nextPage)
    && p.keys == UnionKeys(p.signatures, p.nextPage)
    && (p.nextPage > 1 ==> p.totalPages.Some? && p.sourceTotal.Some? && p.nextPage <= p.totalPages.value + 1)
  }

  ghost predicate Good(l: Ledger) {
    && Checkpoint(l.params)
    && l.params.keys <= l.manifest.Keys
    && (l.status == Completed ==>
          && l.params.nextPage > 1 && l.params.nextPage == l.params.totalPages.value + 1
          && |l.params.keys| == l.params.sourceTotal.value)
  }

  lemma {:induction false} UnionKeysFrame(a: map<nat, Page>, b: map<nat, Page>, n: nat)
    requires forall i :: 1 <= i < n ==> i in a && i in b && a[i] == b[i]
    ensures UnionKeys(a, n) == UnionKeys(b, n)
  {
    if n > 1 {
      UnionKeysFrame(a, b, n - 1);
    }
  }

  lemma AdvanceKeepsCheckpoint(mem: Params, page: Page)
    requires Checkpoint(mem) && mem.totalPages.Some? && mem.sourceTotal.Some? && mem.nextPage <= mem.totalPages.value
    ensures Checkpoint(Advance(mem, page))
  {
    UnionKeysFrame(mem.signatures, mem.signatures[mem.nextPage := page], mem.nextPage);
  }

  /** Nothing outside the checkpoint distinguishes the stored parameters from the ones in memory. */
  ghost predicate InStep(l: Ledger, mem: Params) {
    mem.(pauseRequested := l.params.pauseRequested) == l.params
  }

  /** A batch in progress: the ledger is good, and so is the checkpoint the worker holds in memory. */
  ghost predicate Scanning(l: Ledger, mem: Params) {
    && Good(l) && l.status == Running
    && Checkpoint(mem) && mem.keys <= l.manifest.Keys
    && mem.totalPages.Some? && mem.sourceTotal.Some?
  }

  lemma CommitKeepsScanning(l: Ledger, mem: Params, page: Page)
    requires Scanning(l, mem) && mem.nextPage <= mem.totalPages.value
    ensures var l' := CommitPage(l, mem, page);
      && Scanning(l', l'.params) && InStep(l', l'.params)
      && l.manifest.Keys <= l'.manifest.Keys
      && l'.params.nextPage == mem.nextPage + 1
      && l'.params.sourceTotal == mem.sourceTotal && l'.params.totalPages == mem.totalPages
  {
    UpsertKeeps(l.manifest, page, mem.nextPage);
    AdvanceKeepsCheckpoint(mem, page);
  }

  lemma AskKeepsScanning(l: Ledger, mem: Params, pause: bool)
    requires Scanning(l, mem)
    ensures Scanning(Ask(l, pause), mem) && Ask(l, pause).manifest == l.manifest
    ensures InStep(l, mem) ==> InStep(Ask(l, pause), mem)
  {
  }

  lemma StopKeepsGood(l: Ledger, mem: Params, status: Status, r: ReadResult)
    requires Scanning(l, mem) && status != Completed
    ensures Good(Finish(l, status)) && Finish(l, status).manifest == l.manifest && Finish(l, status).status != Completed
    ensures Good(Stop(l, r)) && Stop(l, r).manifest == l.manifest && Stop(l, r).status != Completed
    ensures InStep(l, mem) ==> InStep(Finish(l, status), mem) && InStep(Stop(l, r), mem)
  {
  }

  lemma OnePageKeepsScanning(l: Ledger, mem: Params, total: nat, m: Moment)
    requires Scanning(l, mem) && mem.nextPage <= mem.totalPages.value
    ensures match OnePage(l, mem, total, m)
      case Halt(l') => Good(l') && l'.manifest == l.manifest && l'.status != Completed &&
        (InStep(l, mem) ==> InStep(l', mem))
      case Next(l') =>
        && Scanning(l', l'.params) && InStep(l', l'.params) && l.manifest.Keys <= l'.manifest.Keys
        && l'.params.nextPage == mem.nextPage + 1
        && l'.params.sourceTotal == mem.sourceTotal && l'.params.totalPages == mem.totalPages
  {
    var l1 := Ask(l, m.pauseBefore);
    AskKeepsScanning(l, mem, m.pauseBefore);
    AskKeepsScanning(l1, mem, m.pauseAfter);
    var r := ReadPage(m, mem.nextPage);
    StopKeepsGood(l1, mem, Paused, r);
    StopKeepsGood(l1, mem, Failed, r);
    hide Good, Checkpoint, Scanning, InStep, Ask, ReadPage, Finish, Stop, CommitPage;
    if r.Got? {
      CommitKeepsScanning(Ask(l1, m.pauseAfter), mem, r.page);
    }
  }

  lemma {:induction false} ScanKeepsGood(l: Ledger, mem: Params, last: nat, total: nat, env: nat -> Moment, tick: nat)
    requires Scanning(l, mem) && last <= mem.totalPages.value + 1
    ensures var s := ScanPages(l, mem, last, total, env, tick);
      && Good(s.ledger) && l.manifest.Keys <= s.ledger.manifest.Keys
      && s.mem.sourceTotal == mem.sourceTotal && s.mem.totalPages == mem.totalPages
      && (if s.going then Scanning(s.ledger, s.mem) && s.mem.nextPage >= last else s.ledger.status != Completed)
      && s.mem.nextPage >= mem.nextPage
      && (s.mem.nextPage > mem.nextPage || InStep(l, mem) ==> InStep(s.ledger, s.mem))
    decreases last - mem.nextPage
  {
    if mem.nextPage < last {
      OnePageKeepsScanning(l, mem, total, env(tick));
      hide OnePage, Good, Checkpoint, InStep;
      match OnePage(l, mem, total, env(tick))
      case Halt(_) =>
      case Next(l') =>
        hide Scanning;
        ScanKeepsGood(l', l'.params, last, total, env, tick + 1);
    }
  }

  lemma CloseKeepsGood(scan: Scan, total: nat, pages: nat, env: nat -> Moment)
    requires Scanning(scan.ledger, scan.mem)
    requires scan.mem.totalPages == Some(pages) && scan.mem.sourceTotal == Some(total)
    requires scan.mem.nextPage > 1 ==> InStep(scan.ledger, scan.mem)
    ensures Good(Close(scan, total, pages, env))
    ensures Close(scan, total, pages, env).manifest == scan.ledger.manifest
  {
    var l := Ask(scan.ledger, env(scan.tick).pauseBefore);
    AskKeepsScanning(scan.ledger, scan.mem, env(scan.tick).pauseBefore);
    StopKeepsGood(l, scan.mem, Queued, ReadPage(env(scan.tick), 1));
    hide UnionKeys, KeysOf;
  }

  lemma ScanFromKeepsGood(l: Ledger, mem: Params, total: nat, pages: nat, env: nat -> Moment, tick: nat)
    requires Scanning(l, mem) && mem.totalPages == Some(pages) && mem.sourceTotal == Some(total)
    requires mem.nextPage > 1 ==> InStep(l, mem)
    ensures Good(ScanFrom(l, mem, total, pages, env, tick))
    ensures l.manifest.Keys <= ScanFrom(l, mem, total, pages, env, tick).manifest.Keys
  {
    hide ScanPages, Scanning, Good, InStep, Checkpoint, Close;
    var last := Min(pages + 1, mem.nextPage + BATCH);
    ScanKeepsGood(l, mem, last, total, env, tick);
    var s := ScanPages(l, mem, last, total, env, tick);
    if s.going {
      CloseKeepsGood(s, total, pages, env);
    }
  }

  lemma RebaseKeepsScanning(l: Ledger, mem: Params, changed: bool, total: nat, pages: nat)
    requires Good(l) && l.status == Running && InStep(l, mem) && Checkpoint(mem)
    requires !changed && mem.nextPage > 1 ==> mem.sourceTotal == Some(total) && mem.totalPages == Some(pages)
    ensures var m := Rebase(mem, changed, total, pages);
            Scanning(l, m) && m.sourceTotal == Some(total) && m.totalPages == Some(pages) &&
              (m.nextPage > 1 ==> InStep(l, m))
  {
  }

  lemma HaltKeepsGood(l: Ledger, r: ReadResult)
    requires Good(l)
    ensures Good(Finish(l, Paused)) && Finish(l, Paused).manifest == l.manifest
    ensures !r.Got? ==> Good(Stop(l, r)) && Stop(l, r).manifest == l.manifest
  {
  }

  lemma NotChanged(mem: Params, total: nat, pages: nat, first: Page)
    requires Checkpoint(mem) && mem.nextPage > 1 && !Boundary(mem, total, pages, first)
    ensures mem.sourceTotal == Some(total) && mem.totalPages == Some(pages)
  {
  }

  lemma AfterFirstKeepsGood(l: Ledger, env: nat -> Moment, first: Page)
    requires Good(l) && l.status == Running
    ensures Good(AfterFirst(l, env, first))
    ensures l.manifest.Keys <= AfterFirst(l, env, first).manifest.Keys
  {
    hide UnionKeys, KeysOf, ReadPage, Stop, ScanFrom;
    var mem := l.params;
    var total, pages := env(0).source.total, |env(0).source.pages|;
    var changed := Boundary(mem, total, pages, first);
    var l1 := Ask(l, env(1).pauseBefore);
    StartKeepsGood(l, env(1).pauseBefore);
    assert l.(status := Running) == l;
    assert InStep(l, mem) && InStep(l1, mem) && Checkpoint(mem);
    if !changed && mem.nextPage > 1 {
      NotChanged(mem, total, pages, first);
    }
    hide Good, Checkpoint, Scanning, InStep, ScanFrom, Ask, Rebase, Boundary, PriorChanged, ReadPage, Stop, KeysOf,
      UnionKeys;
    if mem.nextPage > 2 && !changed {
      match ReadPage(env(1), mem.nextPage - 1)
      case Got(prior) =>
        var c := PriorChanged(mem, prior);
        RebaseKeepsScanning(l1, mem, c, total, pages);
        ScanFromKeepsGood(l1, Rebase(mem, c, total, pages), total, pages, env, 2);
      case r => HaltKeepsGood(l1, r);
    } else {
      RebaseKeepsScanning(l, mem, changed, total, pages);
      ScanFromKeepsGood(l, Rebase(mem, changed, total, pages), total, pages, env, 1);
    }
  }

  lemma StartKeepsGood(l: Ledger, pause: bool)
    requires Good(l)
    ensures var l0 := Ask(l.(status := Running), pause);
      Good(l0) && l0.status == Running && l0.manifest == l.manifest &&
        l0.params.(pauseRequested := l.params.pauseRequested) == l.params
  {
  }

  /** Whatever happens around it, a batch leaves a faithful checkpoint, every key of which has a manifest row. */
  lemma BatchKeepsGood(l: Ledger, env: nat -> Moment)
    requires Good(l)
    ensures Good(Batch(l, env))
    ensures l.manifest.Keys <= Batch(l, env).manifest.Keys
  {
    var mem := l.params;
    var m0 := env(0);
    var l0 := Ask(l.(status := Running), m0.pauseBefore);
    StartKeepsGood(l, m0.pauseBefore);
    hide Good, Checkpoint, Scanning, InStep, ScanFrom, Ask;
    if !mem.pauseRequested {
      match ReadPage(m0, 1)
      case Got(first) => AfterFirstKeepsGood(l0, env, first);
      case r => HaltKeepsGood(l0, r);
    } else {
      HaltKeepsGood(l, Broken);
    }
  }
}
