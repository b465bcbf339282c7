/** Repeating a rebuild does nothing, and a full rebuild forgets what came before it. */
module Convergence {
  import opened Options
  import opened Slugs
  import opened Forest
  import opened Attachments
  import opened Projection
  import opened Reconciliation

  /** Every reference of the body resolves the same way against both manifests. */
  ghost predicate SameUse(e: Entry, store: Option<Store>, a: Files, b: Files) {
    store.Some? ==> forall s :: s in RefsIn(e.body) ==> (Usable(store.value, a, s) <==> Usable(store.value, b, s))
  }

  lemma {:induction false} SameUsableAssets(refs: seq<Sha>, store: Store, a: Files, b: Files)
    requires forall s :: s in refs ==> (Usable(store, a, s) <==> Usable(store, b, s))
    ensures UsableAssets(refs, store, a) == UsableAssets(refs, store, b)
  {
    if refs != [] {
      var init, last := refs[..|refs| - 1], refs[|refs| - 1];
      assert refs == init + [last];
      SameUsableAssets(init, store, a, b);
    }
  }

  lemma SameUseSameEntry(e: Entry, store: Option<Store>, a: Files, b: Files)
    requires SameUse(e, store, a, b)
    ensures Resolve(e, store, a) == Resolve(e, store, b)
  {
    if store.Some? && |e.path| > 0 {
      SameUsableAssets(RefsIn(e.body), store.value, a, b);
      var x, y := Resolve(e, store, a).body, Resolve(e, store, b).body;
      forall i | 0 <= i < |e.body| ensures x[i] == y[i] {
        if e.body[i].Ref? {
          assert e.body[i] in e.body;
        }
      }
    }
  }

  lemma SameUseSameEntries(es: seq<Entry>, store: Option<Store>, a: Files, b: Files)
    requires forall e :: e in es ==> SameUse(e, store, a, b)
    ensures ResolveAll(es, store, a) == ResolveAll(es, store, b)
  {
    forall i | 0 <= i < |es| ensures Resolve(es[i], store, a) == Resolve(es[i], store, b) {
      assert es[i] in es;
      SameUseSameEntry(es[i], store, a, b);
    }
  }

  lemma {:induction false} PagesIgnoreFiles(es: seq<Entry>, a: Files, b: Files)
    ensures NextOfPages(es, a).pages == NextOfPages(es, b).pages
    ensures NextOfPages(es, a).assets == NextOfPages(es, b).assets
    ensures NextOfPages(es, a).kept == NextOfPages(es, b).kept == {}
  {
    if es != [] {
      PagesIgnoreFiles(es[..|es| - 1], a, b);
    }
  }

  lemma {:induction false} PagesAreExpected(es: seq<Entry>, files: Files, id: PageId)
    requires id in NextOfPages(es, files).pages
    ensures NextOfPages(es, files).pages[id] in PathsIn(es)
  {
    var init, last := es[..|es| - 1], es[|es| - 1];
    assert es == init + [last];
    assert last in es;
    assert forall e :: e in init ==> e in es;
    if id != last.pageId {
      PagesAreExpected(init, files, id);
    }
  }

  lemma {:induction false} UpToDateIsIdle(es: seq<Entry>, files: Files, disk: Disk)
    requires forall e :: e in es ==> UpToDate(files, e.path, Markdown(e.body))
    ensures files + PageHashes(es) == files
    ensures WritePages(es, files, disk) == disk
  {
    if es != [] {
      var init, last := es[..|es| - 1], es[|es| - 1];
      assert es == init + [last];
      assert last in es;
      assert forall e :: e in init ==> e in es;
      UpToDateIsIdle(init, files, disk);
      assert files + PageHashes(es) == (files + PageHashes(init))[last.path := Sha256(Markdown(last.body))];
    }
  }

  lemma SameEverywhere<K(!new), V>(a: map<K, V>, b: map<K, V>)
    requires forall k :: SameAt(a, b, k)
    ensures a == b
  {
    forall k ensures k in a <==> k in b {
      assert SameAt(a, b, k);
    }
    forall k | k in a ensures a[k] == b[k] {
      assert SameAt(a, b, k);
    }
  }

  // ----- repeating a rebuild -----

  lemma UseAfterRebuild(m: Manifest, es: seq<Entry>, frozen: seq<PageId>, store: Store, e: Entry, s: Sha)
    requires Placed(es) && e in es && s in RefsIn(e.body)
    ensures Usable(store, m.files, s) <==> AssetPath(store, s) in NextState(m, es, frozen, Some(store)).files
    ensures Usable(store, m.files, s) <==> Usable(store, NextState(m, es, frozen, Some(store)).files, s)
  {
    var p := AssetPath(store, s);
    TrackedExactly(m, es, frozen, Some(store), p);
    if Wanted(p, es, Some(store), m.files) {
      WantedDigest(es, store, m.files, s);
    } else {
      UnwantedIsNew(m, es, store, p);
    }
  }

  lemma UnwantedIsNew(m: Manifest, es: seq<Entry>, store: Store, p: Path)
    requires Placed(es) && |p| > 0 && p[0] == ASSETS_DIR && !Wanted(p, es, Some(store), m.files)
    ensures p in TrackedAfterWrites(m, es, Some(store)) ==> p in m.files
  {
    if p in Downloads(es, Some(store), m.files) {
      DownloadIsWanted(es, store, m.files, p);
    }
    var resolved := ResolveAll(es, Some(store), m.files);
    ResolvedPlaced(es, Some(store), m.files);
    PageHashesExactly(resolved);
  }

  lemma WantedDigest(es: seq<Entry>, store: Store, files: Files, s: Sha)
    requires Wanted(AssetPath(store, s), es, Some(store), files)
    ensures Usable(store, files, s)
  {
    var e :| e in es && RefersTo(e, AssetPath(store, s), Some(store), files);
    var s' :| s' in RefsIn(e.body) && Usable(store, files, s') && AssetPath(store, s) == AssetPath(store, s');
    AssetPathsDiffer(store, s, s');
  }

  lemma SecondPassSame(m: Manifest, es: seq<Entry>, frozen: seq<PageId>, store: Option<Store>)
    requires Placed(es)
    ensures ResolveAll(es, store, NextState(m, es, frozen, store).files) == ResolveAll(es, store, m.files)
  {
    var files1 := NextState(m, es, frozen, store).files;
    forall e | e in es ensures SameUse(e, store, m.files, files1) {
      if store.Some? {
        forall s | s in RefsIn(e.body) ensures Usable(store.value, m.files, s) <==> Usable(store.value, files1, s) {
          UseAfterRebuild(m, es, frozen, store.value, e, s);
        }
      }
    }
    SameUseSameEntries(es, store, m.files, files1);
  }

  lemma PagesUpToDate(m: Manifest, es: seq<Entry>, frozen: seq<PageId>, store: Option<Store>)
    requires Placed(es)
    ensures forall e :: e in ResolveAll(es, store, m.files) ==>
      UpToDate(NextState(m, es, frozen, store).files, e.path, Markdown(e.body))
  {
    var resolved := ResolveAll(es, store, m.files);
    ResolvedPlaced(es, store, m.files);
    PageHashesExactly(resolved);
    forall e | e in resolved ensures UpToDate(NextState(m, es, frozen, store).files, e.path, Markdown(e.body)) {
      TrackedExactly(m, es, frozen, store, e.path);
    }
  }

  lemma NothingFresh(m: Manifest, es: seq<Entry>, frozen: seq<PageId>, store: Option<Store>)
    requires Placed(es)
    ensures forall p :: p !in Downloads(es, store, NextState(m, es, frozen, store).files)
  {
    var files1 := NextState(m, es, frozen, store).files;
    if store.Some? {
      forall p ensures p !in Downloads(es, store, files1) {
        DownloadsExactly(es, store.value, files1, p);
        forall e, s | e in es && s in RefsIn(e.body) ensures !Fresh(store.value, files1, s) {
          UseAfterRebuild(m, es, frozen, store.value, e, s);
        }
      }
    }
  }

  lemma NoDownloadsIsIdle(files: Files, disk: Disk, d: Disk)
    requires forall p :: p !in d
    ensures files + Hashes(d) == files && disk + d == disk
  {
  }

  lemma SecondPassIdle(m: Manifest, es: seq<Entry>, frozen: seq<PageId>, store: Option<Store>, m1: Manifest, disk: Disk)
    requires Placed(es) && m1.files == NextState(m, es, frozen, store).files
    ensures ResolveAll(es, store, m1.files) == ResolveAll(es, store, m.files)
    ensures TrackedAfterWrites(m1, es, store) == m1.files
    ensures WrittenDisk(m1, disk, es, store) == disk
  {
    SecondPassSame(m, es, frozen, store);
    PagesUpToDate(m, es, frozen, store);
    NothingFresh(m, es, frozen, store);
    NoDownloadsIsIdle(m1.files, disk, Downloads(es, store, m1.files));
    UpToDateIsIdle(ResolveAll(es, store, m.files), m1.files, disk);
  }

  lemma SurvivorsRepeat(m: Manifest, es: seq<Entry>, frozen: seq<PageId>, store: Option<Store>, m1: Manifest,
      id: PageId)
    requires Placed(es)
    requires var next := NextState(m, es, frozen, store); m1.pages == next.pages && m1.assets == next.assets
    ensures Survives(id, m1, PathsIn(es), frozen) <==> Survives(id, m, PathsIn(es), frozen)
    ensures Survives(id, m, PathsIn(es), frozen) ==> m1.pages[id] == m.pages[id]
    ensures Survives(id, m, PathsIn(es), frozen) && id in m.assets ==> id in m1.assets && m1.assets[id] == m.assets[id]
  {
    var resolved := ResolveAll(es, store, m.files);
    var downloaded := m.files + Hashes(Downloads(es, store, m.files));
    var n := NextOfPages(resolved, downloaded);
    FreezeOf(n, m.(files := TrackedAfterWrites(m, es, store)), PathsIn(es), frozen, id);
    ResolvedPlaced(es, store, m.files);
    if id in n.pages {
      PagesAreExpected(resolved, downloaded, id);
    }
  }

  /** A second rebuild with the same inputs leaves the files, the entries and the asset lists alone. */
  lemma NextStateRepeats(m: Manifest, es: seq<Entry>, frozen: seq<PageId>, store: Option<Store>, m1: Manifest,
      disk: Disk)
    requires Placed(es)
    requires var next := NextState(m, es, frozen, store);
      m1.files == next.files && m1.pages == next.pages && m1.assets == next.assets
    ensures var next1 := NextState(m1, es, frozen, store);
      next1.files == m1.files && next1.pages == m1.pages && next1.assets == m1.assets
    ensures TrackedAfterWrites(m1, es, store) == m1.files
    ensures Orphans(m1, es, frozen, store) == {}
  {
    SecondPassIdle(m, es, frozen, store, m1, disk);
    var next1 := NextState(m1, es, frozen, store);
    forall p ensures SameAt(next1.files, m1.files, p) && p !in Orphans(m1, es, frozen, store) {
      RepeatFile(m, es, frozen, store, m1, p);
    }
    SameEverywhere(next1.files, m1.files);
    forall id ensures SameAt(next1.pages, m1.pages, id) && SameAt(next1.assets, m1.assets, id) {
      RepeatOf(m, es, frozen, store, m1, id);
    }
    SameEverywhere(next1.pages, m1.pages);
    SameEverywhere(next1.assets, m1.assets);
  }

  lemma RepeatFile(m: Manifest, es: seq<Entry>, frozen: seq<PageId>, store: Option<Store>, m1: Manifest, p: Path)
    requires Placed(es)
    requires var next := NextState(m, es, frozen, store);
      m1.files == next.files && m1.pages == next.pages && m1.assets == next.assets
    requires TrackedAfterWrites(m1, es, store) == m1.files
    ensures SameAt(NextState(m1, es, frozen, store).files, m1.files, p) && p !in Orphans(m1, es, frozen, store)
  {
    RepeatAt(m, es, frozen, store, m1, p);
    TrackedExactly(m1, es, frozen, store, p);
  }

  lemma RepeatAt(m: Manifest, es: seq<Entry>, frozen: seq<PageId>, store: Option<Store>, m1: Manifest, p: Path)
    requires Placed(es)
    requires var next := NextState(m, es, frozen, store);
      m1.files == next.files && m1.pages == next.pages && m1.assets == next.assets
    requires TrackedAfterWrites(m1, es, store) == m1.files
    ensures p in NextState(m1, es, frozen, store).files <==> p in m1.files
  {
    TrackedExactly(m, es, frozen, store, p);
    TrackedExactly(m1, es, frozen, store, p);
    if p in m1.files && Wanted(p, es, store, m.files) {
      var e :| e in es && RefersTo(e, p, store, m.files);
      var s :| s in RefsIn(e.body) && Usable(store.value, m.files, s) && p == AssetPath(store.value, s);
      UseAfterRebuild(m, es, frozen, store.value, e, s);
      assert RefersTo(e, p, store, m1.files);
    } else if p in m1.files && KeptBySome(p, m, PathsIn(es), frozen) {
      var id :| Survives(id, m, PathsIn(es), frozen) && KeptBy(p, id, m);
      SurvivorsRepeat(m, es, frozen, store, m1, id);
      assert KeptBy(p, id, m1);
    }
  }

  lemma RepeatOf(m: Manifest, es: seq<Entry>, frozen: seq<PageId>, store: Option<Store>, m1: Manifest, id: PageId)
    requires Placed(es)
    requires var next := NextState(m, es, frozen, store);
      m1.files == next.files && m1.pages == next.pages && m1.assets == next.assets
    requires ResolveAll(es, store, m1.files) == ResolveAll(es, store, m.files)
    ensures SameAt(NextState(m1, es, frozen, store).pages, m1.pages, id)
    ensures SameAt(NextState(m1, es, frozen, store).assets, m1.assets, id)
  {
    var resolved := ResolveAll(es, store, m.files);
    var down, down1 := m.files + Hashes(Downloads(es, store, m.files)),
      m1.files + Hashes(Downloads(es, store, m1.files));
    PagesIgnoreFiles(resolved, down, down1);
    FreezeOf(NextOfPages(resolved, down), m.(files := TrackedAfterWrites(m, es, store)), PathsIn(es), frozen, id);
    FreezeOf(NextOfPages(resolved, down1), m1.(files := TrackedAfterWrites(m1, es, store)), PathsIn(es), frozen, id);
    SurvivorsRepeat(m, es, frozen, store, m1, id);
  }

  /** No churn: repeating a rebuild downloads, writes, removes and records nothing. */
  lemma RepeatIsQuiet(m: Manifest, disk: Disk, es: seq<Entry>, frozen: seq<PageId>, store: Option<Store>, v: nat,
      w: nat, scope: Option<PageId>)
    requires Placed(es)
    ensures var m1 := RebuiltManifest(m, es, frozen, store, v, scope);
      var m2 := RebuiltManifest(m1, es, frozen, store, w, scope);
      && Fingerprint(m2) == Fingerprint(m1) && m2.version == w
      && WrittenDisk(m1, disk, es, store) == disk
      && RebuiltDisk(m1, disk, es, frozen, store) == disk
  {
    var m1 := RebuiltManifest(m, es, frozen, store, v, scope);
    NextStateRepeats(m, es, frozen, store, m1, disk);
    SecondPassIdle(m, es, frozen, store, m1, disk);
    assert disk - Orphans(m1, es, frozen, store) == disk;
  }

  // ----- a full rebuild forgets its past -----

  /** Tracked assets carry the digest of what the store serves. */
  ghost predicate Honest(store: Option<Store>, files: Files) {
    store.Some? ==> forall s: Sha | AssetPath(store.value, s) in files && s in store.value.bytes ::
      files[AssetPath(store.value, s)] == Sha256(Blob(store.value.bytes[s]))
  }

  /** Every attachment the pages refer to can be downloaded. */
  ghost predicate AllServed(es: seq<Entry>, store: Option<Store>) {
    store.Some? ==> forall e, s :: e in es && s in RefsIn(e.body) ==> s in store.value.bytes
  }

  /** What a list of expected pages comes to when nothing is frozen: a fixed set of files. */
  function Image(es: seq<Entry>, store: Option<Store>): Next {
    NextState(FRESH, es, [], store)
  }

  lemma ServedUse(es: seq<Entry>, store: Option<Store>, a: Files, b: Files)
    requires AllServed(es, store)
    ensures ResolveAll(es, store, a) == ResolveAll(es, store, b)
    ensures forall p :: Wanted(p, es, store, a) <==> Wanted(p, es, store, b)
  {
    forall e | e in es ensures SameUse(e, store, a, b) {}
    SameUseSameEntries(es, store, a, b);
    forall p, e | e in es ensures RefersTo(e, p, store, a) <==> RefersTo(e, p, store, b) {
      assert SameUse(e, store, a, b);
    }
  }

  lemma WantedValue(m: Manifest, es: seq<Entry>, store: Store, s: Sha)
    requires Placed(es) && Honest(Some(store), m.files) && s in store.bytes
    requires Wanted(AssetPath(store, s), es, Some(store), m.files)
    ensures var p, now := AssetPath(store, s), TrackedAfterWrites(m, es, Some(store));
      p in now && now[p] == Sha256(Blob(store.bytes[s]))
  {
    var p := AssetPath(store, s);
    WantedIsTracked(p, m, es, Some(store));
    DownloadsExactly(es, store, m.files, p);
    var resolved := ResolveAll(es, Some(store), m.files);
    ResolvedPlaced(es, Some(store), m.files);
    PageHashesExactly(resolved);
    assert p !in PageHashes(resolved);
  }

  lemma FullFilesSame(m: Manifest, es: seq<Entry>, store: Option<Store>, p: Path)
    requires Placed(es) && Honest(store, m.files) && AllServed(es, store)
    ensures SameAt(NextState(m, es, [], store).files, Image(es, store).files, p)
  {
    ServedUse(es, store, m.files, FRESH.files);
    TrackedExactly(m, es, [], store, p);
    TrackedExactly(FRESH, es, [], store, p);
    if Wanted(p, es, store, m.files) {
      var e :| e in es && RefersTo(e, p, store, m.files);
      var s :| s in RefsIn(e.body) && Usable(store.value, m.files, s) && p == AssetPath(store.value, s);
      WantedValue(m, es, store.value, s);
      WantedValue(FRESH, es, store.value, s);
    } else if p in PathsIn(es) {
      var resolved := ResolveAll(es, store, m.files);
      ResolvedPlaced(es, store, m.files);
      PageHashesExactly(resolved);
    }
  }

  /** With nothing frozen and every attachment served, the next manifest is the image of the
      expected pages, whatever the manifest was before. */
  lemma FullRebuildIsImage(m: Manifest, es: seq<Entry>, store: Option<Store>)
    requires Placed(es) && Honest(store, m.files) && AllServed(es, store)
    ensures NextState(m, es, [], store) == Image(es, store)
  {
    var a, b := NextState(m, es, [], store), Image(es, store);
    ServedUse(es, store, m.files, FRESH.files);
    PagesIgnoreFiles(ResolveAll(es, store, m.files), m.files + Hashes(Downloads(es, store, m.files)),
      FRESH.files + Hashes(Downloads(es, store, FRESH.files)));
    forall p ensures SameAt(a.files, b.files, p) {
      FullFilesSame(m, es, store, p);
    }
    SameEverywhere(a.files, b.files);
  }

  /** Rebuilds never record a digest the store would not serve. */
  lemma RebuildStaysHonest(m: Manifest, es: seq<Entry>, frozen: seq<PageId>, store: Option<Store>)
    requires Placed(es) && Honest(store, m.files)
    ensures Honest(store, NextState(m, es, frozen, store).files)
  {
    var next := NextState(m, es, frozen, store);
    if store.Some? {
      var resolved := ResolveAll(es, store, m.files);
      ResolvedPlaced(es, store, m.files);
      PageHashesExactly(resolved);
      forall s: Sha | AssetPath(store.value, s) in next.files && s in store.value.bytes
        ensures next.files[AssetPath(store.value, s)] == Sha256(Blob(store.value.bytes[s]))
      {
        var p := AssetPath(store.value, s);
        TrackedExactly(m, es, frozen, store, p);
        DownloadsExactly(es, store.value, m.files, p);
      }
    }
  }

  /** Full, then any other rebuild in between, then full again: a partial fold that freezes half
      the workspace, or one where pages are archived. The owned tree comes back as it was. */
  lemma RoundTripRestoresTheTree(m: Manifest, disk: Disk, full: seq<Entry>, other: seq<Entry>, frozen: seq<PageId>,
      store: Option<Store>, scope: Option<PageId>, v: nat)
    requires Placed(full) && Placed(other) && AllServed(full, store)
    requires Honest(store, m.files) && Agrees(m.files, disk)
    ensures var m1, d1 := RebuiltManifest(m, full, [], store, v, scope), RebuiltDisk(m, disk, full, [], store);
      var m2, d2 := RebuiltManifest(m1, other, frozen, store, v, scope), RebuiltDisk(m1, d1, other, frozen, store);
      var m3, d3 := RebuiltManifest(m2, full, [], store, v, scope), RebuiltDisk(m2, d2, full, [], store);
      && m3 == m1
      && (forall p :: p in m1.files ==> p in d1 && p in d3 && d3[p] == d1[p])
      && (forall p :: p in m2.files && p !in m1.files ==> p !in d3)
  {
    var m1, d1 := RebuiltManifest(m, full, [], store, v, scope), RebuiltDisk(m, disk, full, [], store);
    var m2, d2 := RebuiltManifest(m1, other, frozen, store, v, scope), RebuiltDisk(m1, d1, other, frozen, store);
    RebuildIsExact(m, disk, full, [], store);
    RebuildStaysHonest(m, full, [], store);
    RebuildIsExact(m1, d1, other, frozen, store);
    RebuildStaysHonest(m1, other, frozen, store);
    RebuildIsExact(m2, d2, full, [], store);
    FullRebuildIsImage(m, full, store);
    FullRebuildIsImage(m2, full, store);
  }
}
