/**
The inventory batch as the program performs it: a job row and a manifest that transactions
update in place, and a copy of the parameters in the worker's memory
(src/oa_knowledge/done_collection.py, `run_inventory`; src/oa_knowledge/full_manifest.py,
`upsert_manifest_page`).
*/
module InventoryWorker {
  import opened InventoryScan

  class InventoryLedger {
    var status: Status
    var params: Params
    var manifest: Manifest
    var syncs: seq<bool>

    function Contents(): Ledger
      reads this
    {
      Ledger(status, params, manifest, syncs)
    }

    /** Somebody else's transaction may set the pause flag between two of the worker's. */
    method PauseMayArrive(pause: bool)
      modifies this
      ensures Contents() == Ask(old(Contents()), pause)
    {
      if pause {
        params := params.(pauseRequested := true);
      }
    }

    /** A job that is wanted paused never goes back to the queue; the checkpoint stays. */
    method FinishCollection(wanted: Status)
      modifies this`status
      ensures Contents() == Finish(old(Contents()), wanted)
      ensures status == Queued <==> wanted == Queued && !params.pauseRequested
      ensures status == Paused <==> wanted == Paused || (wanted == Queued && params.pauseRequested)
    {
      status := if wanted == Queued && params.pauseRequested then Paused else wanted;
    }

    method UpsertManifestPage(items: Page, listPage: nat)
      modifies this`manifest
      ensures manifest == UpsertPage(old(manifest), items, listPage)
    {
      var i := 0;
      while i < |items|
        invariant i <= |items|
        invariant manifest == UpsertPage(old(manifest), items[..i], listPage)
      {
        var source := items[i];
        if source.key in manifest {
          manifest := manifest[source.key := manifest[source.key].(detail := source.detail, listPage := listPage)];
        } else {
          manifest := manifest[source.key := ManifestRow(source.detail, listPage, "discovered")];
        }
        assert items[..i + 1][..i] == items[..i];
        i := i + 1;
      }
      assert items[..|items|] == items;
    }

    /** Ends the batch when a read did not bring a page. */
    method EndOn(r: ReadResult)
      modifies this
      ensures Contents() == Stop(old(Contents()), r)
    {
      match r
      case NoLogin => FinishCollection(AuthRequired);
      case Broken => FinishCollection(Failed);
      case Crashed =>
      case Got(_) =>
    }

    method RunInventory(env: nat -> Moment)
      requires params.nextPage >= 1
      modifies this
      ensures Contents() == Batch(old(Contents()), env)
    {
      hide AfterFirst;
      if params.pauseRequested {
        status := Paused;
        return;
      }
      status := Running;
      PauseMayArrive(env(0).pauseBefore);
      var r := ReadPage(env(0), 1);
      if !r.Got? {
        EndOn(r);
        return;
      }
      ScanList(env, r.page);
    }

    method ScanList(env: nat -> Moment, first: Page)
      requires params.nextPage >= 1
      modifies this
      ensures Contents() == AfterFirst(old(Contents()), env, first)
    {
      hide ScanPages, Close;
      var mem := params;
      var total, pages := env(0).source.total, |env(0).source.pages|;
      var changed := Boundary(mem, total, pages, first);
      var tick := 1;
      if mem.nextPage > 2 && !changed {
        PauseMayArrive(env(1).pauseBefore);
        var r := ReadPage(env(1), mem.nextPage - 1);
        if !r.Got? {
          EndOn(r);
          return;
        }
        changed := PriorChanged(mem, r.page);
        tick := 2;
      }
      mem := Rebase(mem, changed, total, pages);
      var last := Min(pages + 1, mem.nextPage + BATCH);
      var going;
      mem, tick, going := PageLoop(mem, last, total, env, tick);
      if going {
        CloseBatch(mem, total, pages, env, tick);
      }
    }

    method PageLoop(start: Params, last: nat, total: nat, env: nat -> Moment, startTick: nat)
        returns (mem: Params, tick: nat, going: bool)
      modifies this
      ensures Scan(Contents(), mem, tick, going) == ScanPages(old(Contents()), start, last, total, env, startTick)
    {
      hide UpsertPage, KeysOf;
      mem, tick, going := start, startTick, true;
      while mem.nextPage < last
        invariant going
        invariant ScanPages(Contents(), mem, last, total, env, tick) ==
          ScanPages(old(Contents()), start, last, total, env, startTick)
        decreases last - mem.nextPage
      {
        var m := env(tick);
        ghost var before := Contents();
        PauseMayArrive(m.pauseBefore);
        if params.pauseRequested {
          FinishCollection(Paused);
          going := false;
          return;
        }
        var r := ReadPage(m, mem.nextPage);
        if !r.Got? {
          EndOn(r);
          going := false;
          return;
        }
        if total != 0 && r.page == [] {
          FinishCollection(Failed);
          going := false;
          return;
        }
        PauseMayArrive(m.pauseAfter);
        var pageNumber := mem.nextPage;
        ghost var shown := mem;
        mem := mem.(keys := mem.keys + KeysOf(r.page), nextPage := pageNumber + 1, signatures :=
          mem.signatures[pageNumber := r.page]);
        UpsertManifestPage(r.page, pageNumber);
        mem := mem.(pauseRequested := params.pauseRequested);
        params := mem;
        tick := tick + 1;
        assert OnePage(before, shown, total, m) == Next(Contents());
      }
    }

    method CloseBatch(mem: Params, total: nat, pages: nat, env: nat -> Moment, tick: nat)
      modifies this
      ensures Contents() == Close(Scan(old(Contents()), mem, tick, true), total, pages, env)
    {
      var m := env(tick);
      PauseMayArrive(m.pauseBefore);
      if mem.nextPage <= pages {
        FinishCollection(Queued);
        return;
      }
      var r := ReadPage(m, 1);
      if !r.Got? {
        EndOn(r);
        return;
      }
      var aligned := |mem.keys| == total && m.source.total == total && |m.source.pages| == pages
                     && 1 in mem.signatures && mem.signatures[1] == r.page;
      syncs := syncs + [aligned];
      FinishCollection(if aligned then Completed else Failed);
    }
  }
}
