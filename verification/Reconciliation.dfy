/** What every rebuild guarantees, whatever manifest and folder it starts from. */
module Reconciliation {
  import opened Options
  import opened Slugs
  import opened Forest
  import opened Attachments
  import opened Projection
  import opened PathInjectivity

  /** Every tracked file is on disk with the recorded digest. */
  ghost predicate Agrees(files: Files, disk: Disk) {
    forall p :: p in files ==> p in disk && files[p] == Sha256(disk[p])
  }

  /** The shape of an expected list: one entry a path, none in the asset area. */
  ghost predicate Placed(es: seq<Entry>) {
    UniquePaths(es) && forall e :: e in es ==> |e.path| > 0 && e.path[0] != ASSETS_DIR
  }

  lemma PlacedPrefix(es: seq<Entry>)
    requires es != [] && Placed(es)
    ensures Placed(es[..|es| - 1]) && es[|es| - 1].path !in PathsIn(es[..|es| - 1])
    ensures PathsIn(es) == PathsIn(es[..|es| - 1]) + {es[|es| - 1].path}
  {
    var init, last := es[..|es| - 1], es[|es| - 1];
    assert es == init + [last];
    assert last in es;
    assert forall e :: e in init ==> e in es;
    forall k | 0 <= k < |init| ensures init[k].path != last.path {
      assert init[k] == es[k];
    }
  }

  lemma {:induction false} PageHashesExactly(es: seq<Entry>)
    requires Placed(es)
    ensures PageHashes(es).Keys == PathsIn(es)
    ensures forall e :: e in es ==> PageHashes(es)[e.path] == Sha256(Markdown(e.body))
  {
    if es != [] {
      var init, last := es[..|es| - 1], es[|es| - 1];
      PlacedPrefix(es);
      PageHashesExactly(init);
      assert es == init + [last];
    }
  }

  // ----- agreement -----

  /** Writing a page and recording it keeps manifest and disk in step. */
  lemma {:induction false} WritesKeepAgreement(es: seq<Entry>, files: Files, disk: Disk)
    requires Agrees(files, disk)
    ensures Agrees(files + PageHashes(es), WritePages(es, files, disk))
  {
    if es != [] {
      WritesKeepAgreement(es[..|es| - 1], files, disk);
    } else {
      assert files + PageHashes(es) == files;
    }
  }

  lemma WrittenAgrees(m: Manifest, disk: Disk, es: seq<Entry>, store: Option<Store>)
    requires Agrees(m.files, disk)
    ensures Agrees(TrackedAfterWrites(m, es, store), WrittenDisk(m, disk, es, store))
  {
    var d := Downloads(es, store, m.files);
    assert Agrees(m.files + Hashes(d), disk + d);
    WritesKeepAgreement(ResolveAll(es, store, m.files), m.files + Hashes(d), disk + d);
  }

  // ----- the next manifest -----

  /** Frozen pages whose entry survives: tracked somewhere no reliable page claims. */
  predicate Survives(id: PageId, m: Manifest, expected: set<Path>, frozen: seq<PageId>) {
    id in frozen && id in m.pages && m.pages[id] !in expected
  }

  predicate KeptBy(p: Path, id: PageId, m: Manifest) {
    (id in m.pages && p == m.pages[id]) || (id in m.assets && p in m.assets[id])
  }

  ghost predicate KeptBySome(p: Path, m: Manifest, expected: set<Path>, frozen: seq<PageId>) {
    exists id :: Survives(id, m, expected, frozen) && KeptBy(p, id, m)
  }

  /** The freeze pass on one path: tracked files of surviving frozen pages are carried over. */
  lemma {:induction false} FreezeAt(n: Next, m: Manifest, expected: set<Path>, frozen: seq<PageId>, p: Path)
    requires p in n.files ==> p in m.files && n.files[p] == m.files[p]
    ensures p in Freeze(n, m, expected, frozen).files <==>
      p in n.files || (p in m.files && KeptBySome(p, m, expected, frozen))
    ensures p in Freeze(n, m, expected, frozen).files ==>
      p in m.files && Freeze(n, m, expected, frozen).files[p] == m.files[p]
    ensures p in Freeze(n, m, expected, frozen).kept <==> p in n.kept || KeptBySome(p, m, expected, frozen)
  {
    if frozen != [] {
      var init, last := frozen[..|frozen| - 1], frozen[|frozen| - 1];
      assert frozen == init + [last];
      FreezeAt(n, m, expected, init, p);
      KeptBySomeSnoc(p, m, expected, init, last);
    }
  }

  lemma KeptBySomeSnoc(p: Path, m: Manifest, expected: set<Path>, init: seq<PageId>, last: PageId)
    ensures KeptBySome(p, m, expected, init + [last]) <==>
      KeptBySome(p, m, expected, init) || (last in m.pages && m.pages[last] !in expected && KeptBy(p, last, m))
  {
    assert Survives(last, m, expected, init + [last]) <==> last in m.pages && m.pages[last] !in expected;
    forall id ensures Survives(id, m, expected, init) ==> Survives(id, m, expected, init + [last]) {}
    if KeptBySome(p, m, expected, init + [last]) && !KeptBySome(p, m, expected, init) {
      var id :| Survives(id, m, expected, init + [last]) && KeptBy(p, id, m);
      assert id in init || id == last;
    }
  }

  /** The freeze pass on one page: surviving frozen pages keep their entry and asset list. */
  lemma {:induction false} FreezeOf(n: Next, m: Manifest, expected: set<Path>, frozen: seq<PageId>, id: PageId)
    ensures var f := Freeze(n, m, expected, frozen);
      if Survives(id, m, expected, frozen) then
        && id in f.pages && f.pages[id] == m.pages[id]
        && (if id in m.assets then id in f.assets && f.assets[id] == m.assets[id] else SameAt(f.assets, n.assets, id))
      else SameAt(f.pages, n.pages, id) && SameAt(f.assets, n.assets, id)
  {
    if frozen != [] {
      var init, last := frozen[..|frozen| - 1], frozen[|frozen| - 1];
      assert frozen == init + [last];
      FreezeOf(n, m, expected, init, id);
    }
  }

  predicate SameAt<K, V(==)>(a: map<K, V>, b: map<K, V>, k: K) {
    if k in a then k in b && a[k] == b[k] else k !in b
  }

  ghost predicate AssetsInArea(es: seq<Entry>) {
    forall e :: e in es ==> forall a :: a in e.assets ==> |a| > 0 && a[0] == ASSETS_DIR
  }

  ghost predicate ListedBySome(p: Path, es: seq<Entry>) {
    exists e :: e in es && p in e.assets
  }

  /** The page pass on one path: pages at their paths, and the assets they list. */
  lemma {:induction false} PagesAt(es: seq<Entry>, files: Files, p: Path)
    requires Placed(es) && AssetsInArea(es)
    ensures p in NextOfPages(es, files).files <==> p in PathsIn(es) || (p in files && ListedBySome(p, es))
    ensures p in NextOfPages(es, files).files ==>
      p in files + PageHashes(es) && NextOfPages(es, files).files[p] == (files + PageHashes(es))[p]
    ensures NextOfPages(es, files).kept == {}
  {
    if es != [] {
      var init, last := es[..|es| - 1], es[|es| - 1];
      PlacedPrefix(es);
      assert es == init + [last];
      assert last in es;
      assert forall e :: e in init ==> e in es;
      PagesAt(init, files, p);
      ListedSnoc(p, init, last);
      PagesAtStep(es, files, p);
    }
  }

  lemma PagesAtStep(es: seq<Entry>, files: Files, p: Path)
    requires es != [] && Placed(es) && AssetsInArea(es)
    ensures var init, last := es[..|es| - 1], es[|es| - 1];
      var n, n' := NextOfPages(init, files), NextOfPages(es, files);
      var now, now' := files + PageHashes(init), files + PageHashes(es);
      && (p in n'.files <==> p in n.files || p == last.path || (p in files && p in last.assets))
      && (p == last.path || (p in files && p in last.assets) ==> p in now' && n'.files[p] == now'[p])
      && (p != last.path && !(p in files && p in last.assets) && p in n.files ==> n'.files[p] == n.files[p])
      && (p != last.path ==> SameAt(now', now, p))
  {
    var last := es[|es| - 1];
    PlacedPrefix(es);
    PageHashesExactly(es);
    assert last in es;
    if p in last.assets {
      assert p[0] == ASSETS_DIR;
      assert p !in PathsIn(es);
    }
  }

  lemma ListedSnoc(p: Path, init: seq<Entry>, last: Entry)
    ensures ListedBySome(p, init + [last]) <==> ListedBySome(p, init) || p in last.assets
  {
    assert last in init + [last];
    assert forall e :: e in init + [last] <==> e in init || e == last;
  }

  /** A page appears once, since its path is a function of its id. */
  ghost predicate OncePerPage(es: seq<Entry>) {
    forall i, j :: 0 <= i < j < |es| ==> es[i].pageId != es[j].pageId
  }

  lemma {:induction false} PagesOf(es: seq<Entry>, files: Files, e: Entry)
    requires OncePerPage(es) && e in es
    ensures var n := NextOfPages(es, files);
      && e.pageId in n.pages && n.pages[e.pageId] == e.path
      && (if e.assets == [] then e.pageId !in n.assets else e.pageId in n.assets && n.assets[e.pageId] == e.assets)
  {
    var init, last := es[..|es| - 1], es[|es| - 1];
    assert es == init + [last];
    if e == last {
      NotAPage(init, files, e.pageId);
    } else {
      OthersApart(es, e);
      PagesOf(init, files, e);
    }
  }

  lemma OthersApart(es: seq<Entry>, e: Entry)
    requires OncePerPage(es) && e in es && e != es[|es| - 1]
    ensures e in es[..|es| - 1] && e.pageId != es[|es| - 1].pageId && OncePerPage(es[..|es| - 1])
  {
    var k :| 0 <= k < |es| && es[k] == e;
    assert es[..|es| - 1][k] == e;
  }

  lemma {:induction false} NotAPage(es: seq<Entry>, files: Files, id: PageId)
    requires forall k :: 0 <= k < |es| ==> es[k].pageId != id
    ensures id !in NextOfPages(es, files).pages && id !in NextOfPages(es, files).assets
  {
    if es != [] {
      NotAPage(es[..|es| - 1], files, id);
    }
  }

  // ----- one rebuild -----

  lemma ResolvedPlaced(es: seq<Entry>, store: Option<Store>, files: Files)
    requires Placed(es)
    ensures var r := ResolveAll(es, store, files); Placed(r) && AssetsInArea(r) && PathsIn(r) == PathsIn(es)
  {
    var r := ResolveAll(es, store, files);
    forall e | e in r
      ensures |e.path| > 0 && e.path[0] != ASSETS_DIR && forall a :: a in e.assets ==> |a| > 0 && a[0] == ASSETS_DIR
    {
      var k :| 0 <= k < |r| && r[k] == e;
      assert es[k] in es && e == Resolve(es[k], store, files);
    }
    forall p | p in PathsIn(es) ensures p in PathsIn(r) {
      var k := IndexOfPath(es, p);
      assert r[k] in r;
    }
    forall p | p in PathsIn(r) ensures p in PathsIn(es) {
      var k := IndexOfPath(r, p);
      assert es[k] in es;
    }
  }

  /** A page of the list refers to the asset at `p`, and the reference can be resolved. */
  ghost predicate Wanted(p: Path, es: seq<Entry>, store: Option<Store>, files: Files) {
    exists e :: e in es && RefersTo(e, p, store, files)
  }

  ghost predicate RefersTo(e: Entry, p: Path, store: Option<Store>, files: Files) {
    store.Some? && exists s :: s in RefsIn(e.body) && Usable(store.value, files, s) && p == AssetPath(store.value, s)
  }

  lemma ListedIffWanted(p: Path, es: seq<Entry>, store: Option<Store>, files: Files)
    requires Placed(es)
    ensures ListedBySome(p, ResolveAll(es, store, files)) <==> Wanted(p, es, store, files)
  {
    var r := ResolveAll(es, store, files);
    forall k | 0 <= k < |es| ensures p in r[k].assets <==> RefersTo(es[k], p, store, files) {
      assert es[k] in es;
      ListsItsAssets(es[k], store, files, p);
    }
    MatchedLists(p, es, r, store, files);
  }

  lemma MatchedLists(p: Path, es: seq<Entry>, r: seq<Entry>, store: Option<Store>, files: Files)
    requires |r| == |es| && forall k :: 0 <= k < |es| ==> (p in r[k].assets <==> RefersTo(es[k], p, store, files))
    ensures ListedBySome(p, r) <==> Wanted(p, es, store, files)
  {
    if k :| 0 <= k < |es| && p in r[k].assets {
      assert r[k] in r && es[k] in es;
    }
  }

  lemma ListsItsAssets(e: Entry, store: Option<Store>, files: Files, p: Path)
    requires |e.path| > 0
    ensures p in Resolve(e, store, files).assets <==> RefersTo(e, p, store, files)
  {
  }

  lemma WantedIsTracked(p: Path, m: Manifest, es: seq<Entry>, store: Option<Store>)
    requires Wanted(p, es, store, m.files)
    ensures p in m.files + Hashes(Downloads(es, store, m.files))
  {
    var e :| e in es && RefersTo(e, p, store, m.files);
    DownloadsExactly(es, store.value, m.files, p);
  }

  /** What a rebuild tracks at one path afterwards: expected pages, the assets they refer to,
      and what frozen pages keep, with the digests just written. */
  lemma TrackedExactly(m: Manifest, es: seq<Entry>, frozen: seq<PageId>, store: Option<Store>, p: Path)
    requires Placed(es)
    ensures var next, now := NextState(m, es, frozen, store), TrackedAfterWrites(m, es, store);
      && (p in next.files <==>
            p in PathsIn(es) || Wanted(p, es, store, m.files) || (p in now && KeptBySome(p, m, PathsIn(es), frozen)))
      && (p in next.files ==> p in now && next.files[p] == now[p])
      && (p in Orphans(m, es, frozen, store) <==> p in now && p !in next.files)
  {
    var resolved := ResolveAll(es, store, m.files);
    var downloaded := m.files + Hashes(Downloads(es, store, m.files));
    var now := TrackedAfterWrites(m, es, store);
    ResolvedPlaced(es, store, m.files);
    PagesAt(resolved, downloaded, p);
    PageHashesExactly(resolved);
    ListedIffWanted(p, es, store, m.files);
    if Wanted(p, es, store, m.files) {
      WantedIsTracked(p, m, es, store);
    }
    FreezeAt(NextOfPages(resolved, downloaded), m.(files := now), PathsIn(es), frozen, p);
    KeptIgnoresFiles(p, m, now, PathsIn(es), frozen);
  }

  lemma KeptIgnoresFiles(p: Path, m: Manifest, files: Files, expected: set<Path>, frozen: seq<PageId>)
    ensures KeptBySome(p, m.(files := files), expected, frozen) <==> KeptBySome(p, m, expected, frozen)
  {
    var m' := m.(files := files);
    forall id
      ensures Survives(id, m', expected, frozen) <==> Survives(id, m, expected, frozen)
      ensures KeptBy(p, id, m') <==> KeptBy(p, id, m)
    {
    }
  }

  // ----- exact reconciliation -----

  /** From any manifest that agrees with the disk: afterwards it agrees again, every expected page
      is in place, every other tracked file is gone, and paths nobody tracks or wants are untouched. */
  lemma RebuildIsExact(m: Manifest, disk: Disk, es: seq<Entry>, frozen: seq<PageId>, store: Option<Store>)
    requires Placed(es) && Agrees(m.files, disk)
    ensures var next, disk' := NextState(m, es, frozen, store), RebuiltDisk(m, disk, es, frozen, store);
      && Agrees(next.files, disk')
      && (forall e :: e in ResolveAll(es, store, m.files) ==> e.path in disk' && disk'[e.path] == Markdown(e.body))
      && (forall p :: p in m.files && p !in next.files ==> p !in disk')
      && (forall p :: p !in m.files && p !in PathsIn(es) && !Wanted(p, es, store, m.files) ==> SameAt(disk', disk, p))
  {
    var next, disk' := NextState(m, es, frozen, store), RebuiltDisk(m, disk, es, frozen, store);
    var now, written := TrackedAfterWrites(m, es, store), WrittenDisk(m, disk, es, store);
    WrittenAgrees(m, disk, es, store);
    forall p | p in next.files ensures p in disk' && next.files[p] == Sha256(disk'[p]) {
      TrackedExactly(m, es, frozen, store, p);
    }
    var resolved := ResolveAll(es, store, m.files);
    ResolvedPlaced(es, store, m.files);
    PageHashesExactly(resolved);
    forall e | e in resolved ensures e.path in disk' && disk'[e.path] == Markdown(e.body) {
      TrackedExactly(m, es, frozen, store, e.path);
    }
    forall p | p in m.files && p !in next.files ensures p !in disk' {
      TrackedExactly(m, es, frozen, store, p);
    }
    forall p | p !in m.files && p !in PathsIn(es) && !Wanted(p, es, store, m.files) ensures SameAt(disk', disk, p) {
      UntouchedPath(m, disk, es, frozen, store, p);
    }
  }

  lemma DownloadIsWanted(es: seq<Entry>, store: Store, files: Files, p: Path)
    requires p in Downloads(es, Some(store), files)
    ensures Wanted(p, es, Some(store), files)
  {
    DownloadsExactly(es, store, files, p);
    var e, s :| e in es && s in RefsIn(e.body) && Fresh(store, files, s) && p == AssetPath(store, s);
    assert RefersTo(e, p, Some(store), files);
  }

  lemma UntouchedPath(m: Manifest, disk: Disk, es: seq<Entry>, frozen: seq<PageId>, store: Option<Store>, p: Path)
    requires Placed(es)
    requires p !in m.files && p !in PathsIn(es) && !Wanted(p, es, store, m.files)
    ensures SameAt(RebuiltDisk(m, disk, es, frozen, store), disk, p)
  {
    var d, resolved := Downloads(es, store, m.files), ResolveAll(es, store, m.files);
    if p in d {
      DownloadIsWanted(es, store.value, m.files, p);
    }
    ResolvedPlaced(es, store, m.files);
    PageHashesExactly(resolved);
    WritesElsewhere(resolved, m.files + Hashes(d), disk + d, p);
  }

  lemma ExpectedPlaced(r: Render, scope: Option<PageId>)
    ensures Placed(Expected(r, scope)) && OncePerPage(Expected(r, scope))
  {
    ExpectedOutsideAssets(r, scope);
    ExpectedAreMirrored(r, scope, |r.fold.order|);
    var es := Expected(r, scope);
    forall i, j | 0 <= i < j < |es| ensures es[i].pageId != es[j].pageId {
      assert es[i] in es && es[j] in es;
    }
  }

  /** With distinct paths no page overwrites another: each mirrored page is expected as itself. */
  lemma {:induction false} MirroredAreExpected(r: Render, scope: Option<PageId>, n: nat, id: PageId)
    requires n <= |r.fold.order| && id in r.fold.order[..n]
    requires PathsDiffer(r.fold, scope) && Mirrored(id, r.fold, scope)
    ensures EntryFor(r, scope, id) in ExpectedUpTo(r, scope, n)
  {
    var last := r.fold.order[n - 1];
    assert r.fold.order[..n] == r.fold.order[..n - 1] + [last];
    if last != id {
      MirroredAreExpected(r, scope, n - 1, id);
    }
    if Mirrored(last, r.fold, scope) {
      EntriesApart(r, scope, id, last);
      PutKeepsOrHolds(ExpectedUpTo(r, scope, n - 1), EntryFor(r, scope, last), EntryFor(r, scope, id));
    }
  }

  lemma EntriesApart(r: Render, scope: Option<PageId>, a: PageId, b: PageId)
    requires PathsDiffer(r.fold, scope) && Mirrored(a, r.fold, scope) && Mirrored(b, r.fold, scope)
    ensures a == b || EntryFor(r, scope, a).path != EntryFor(r, scope, b).path
  {
  }

  lemma PutKeepsOrHolds(es: seq<Entry>, e: Entry, x: Entry)
    requires x == e || (x in es && x.path != e.path)
    ensures x in Put(es, e)
  {
    if x == e {
      PutHolds(es, e);
    } else {
      PutKeeps(es, e, x);
    }
  }

  lemma PutKeeps(es: seq<Entry>, e: Entry, x: Entry)
    requires x in es && x.path != e.path
    ensures x in Put(es, e)
  {
    var k :| 0 <= k < |es| && es[k] == x;
    assert Put(es, e)[k] == x;
  }

  /** The body a page gets on disk: its render, with the references that resolve linked. */
  function FinalBody(r: Render, scope: Option<PageId>, store: Option<Store>, files: Files, id: PageId): Body {
    Resolve(EntryFor(r, scope, id), store, files).body
  }

  /** Exact reconciliation, page by page: each mirrored page ends at its own path with its own
      body and its own entry, and nothing else that was tracked is left but wanted assets and
      what frozen pages keep. */
  lemma ReconcilesExactly(m: Manifest, disk: Disk, r: Render, scope: Option<PageId>, store: Option<Store>)
    requires ValidFold(r.fold) && PathsDiffer(r.fold, scope) && Agrees(m.files, disk)
    ensures var es, frozen := Expected(r, scope), Frozen(r.fold, scope);
      var next, disk' := NextState(m, es, frozen, store), RebuiltDisk(m, disk, es, frozen, store);
      && Agrees(next.files, disk')
      && (forall id :: Mirrored(id, r.fold, scope) ==>
            var path := PathOf(id, r.fold, scope);
            && path in next.files && path in disk' && disk'[path] == Markdown(FinalBody(r, scope, store, m.files, id))
            && (id !in r.fold.retired ==> id in next.pages && next.pages[id] == path))
      && (forall p :: p in m.files && p in disk' ==>
            || (exists id :: Mirrored(id, r.fold, scope) && p == PathOf(id, r.fold, scope))
            || Wanted(p, es, store, m.files) || KeptBySome(p, m, PathsIn(es), frozen))
  {
    var es, frozen := Expected(r, scope), Frozen(r.fold, scope);
    var next, disk' := NextState(m, es, frozen, store), RebuiltDisk(m, disk, es, frozen, store);
    ExpectedPlaced(r, scope);
    RebuildIsExact(m, disk, es, frozen, store);
    forall id | Mirrored(id, r.fold, scope)
      ensures var path := PathOf(id, r.fold, scope);
        && path in next.files && path in disk' && disk'[path] == Markdown(FinalBody(r, scope, store, m.files, id))
        && (id !in r.fold.retired ==> id in next.pages && next.pages[id] == path)
    {
      MirroredEntry(r, scope, store, m.files, id);
      TrackedExactly(m, es, frozen, store, PathOf(id, r.fold, scope));
      if id !in r.fold.retired {
        UnfrozenEntry(m, es, frozen, store, Resolve(EntryFor(r, scope, id), store, m.files));
      }
    }
    forall p | p in m.files && p in disk'
      ensures || (exists id :: Mirrored(id, r.fold, scope) && p == PathOf(id, r.fold, scope))
              || Wanted(p, es, store, m.files) || KeptBySome(p, m, PathsIn(es), frozen)
    {
      TrackedExactly(m, es, frozen, store, p);
      if p in PathsIn(es) {
        ExpectedAreMirrored(r, scope, |r.fold.order|);
        var k := IndexOfPath(es, p);
        assert es[k] in es && Mirrored(es[k].pageId, r.fold, scope);
      }
    }
  }

  lemma MirroredEntry(r: Render, scope: Option<PageId>, store: Option<Store>, files: Files, id: PageId)
    requires ValidFold(r.fold) && PathsDiffer(r.fold, scope) && Mirrored(id, r.fold, scope)
    ensures Resolve(EntryFor(r, scope, id), store, files) in ResolveAll(Expected(r, scope), store, files)
    ensures PathOf(id, r.fold, scope) in PathsIn(Expected(r, scope))
  {
    var es := Expected(r, scope);
    assert r.fold.order[..|r.fold.order|] == r.fold.order;
    MirroredAreExpected(r, scope, |r.fold.order|, id);
    var k :| 0 <= k < |es| && es[k] == EntryFor(r, scope, id);
    assert ResolveAll(es, store, files)[k] == Resolve(es[k], store, files);
  }

  /** The next manifest records an expected page that is not frozen at its expected path. */
  lemma UnfrozenEntry(m: Manifest, es: seq<Entry>, frozen: seq<PageId>, store: Option<Store>, e: Entry)
    requires OncePerPage(es) && e in ResolveAll(es, store, m.files) && e.pageId !in frozen
    ensures var next := NextState(m, es, frozen, store);
      && e.pageId in next.pages && next.pages[e.pageId] == e.path
      && (if e.assets == [] then e.pageId !in next.assets
          else e.pageId in next.assets && next.assets[e.pageId] == e.assets)
  {
    var resolved := ResolveAll(es, store, m.files);
    var downloaded := m.files + Hashes(Downloads(es, store, m.files));
    assert OncePerPage(resolved);
    PagesOf(resolved, downloaded, e);
    FreezeOf(NextOfPages(resolved, downloaded), m.(files := TrackedAfterWrites(m, es, store)), PathsIn(es), frozen,
      e.pageId);
  }

  // ----- frozen pages -----

  /** A frozen page no reliable page displaces keeps its entry, its file and its assets, byte for
      byte. */
  lemma FrozenPagesStay(m: Manifest, disk: Disk, es: seq<Entry>, frozen: seq<PageId>, store: Option<Store>, id: PageId)
    requires Placed(es) && Agrees(m.files, disk)
    requires id in frozen && id in m.pages
    requires m.pages[id] !in PathsIn(es)
    ensures var next, disk' := NextState(m, es, frozen, store), RebuiltDisk(m, disk, es, frozen, store);
      && id in next.pages && next.pages[id] == m.pages[id]
      && (id in m.assets ==> id in next.assets && next.assets[id] == m.assets[id])
      && (forall p :: p in m.files && KeptBy(p, id, m) && p !in PathsIn(es) ==>
            p in next.files && next.files[p] == m.files[p] && p in disk' && disk'[p] == disk[p])
  {
    var next, disk' := NextState(m, es, frozen, store), RebuiltDisk(m, disk, es, frozen, store);
    var resolved := ResolveAll(es, store, m.files);
    var downloaded := m.files + Hashes(Downloads(es, store, m.files));
    FreezeOf(NextOfPages(resolved, downloaded), m.(files := TrackedAfterWrites(m, es, store)), PathsIn(es), frozen, id);
    RebuildIsExact(m, disk, es, frozen, store);
    ResolvedPlaced(es, store, m.files);
    PageHashesExactly(resolved);
    forall p | p in m.files && KeptBy(p, id, m) && p !in PathsIn(es)
      ensures p in next.files && next.files[p] == m.files[p] && p in disk' && disk'[p] == disk[p]
    {
      assert Survives(id, m, PathsIn(es), frozen);
      assert KeptBySome(p, m, PathsIn(es), frozen);
      TrackedExactly(m, es, frozen, store, p);
    }
  }

  /** A frozen page displaced by a reliable one is forgotten: no entry, no assets. */
  lemma DisplacedIsForgotten(m: Manifest, es: seq<Entry>, frozen: seq<PageId>, store: Option<Store>, id: PageId)
    requires id in m.pages && m.pages[id] in PathsIn(es)
    requires forall e :: e in es ==> e.pageId != id
    ensures var next := NextState(m, es, frozen, store); id !in next.pages && id !in next.assets
  {
    var resolved := ResolveAll(es, store, m.files);
    var downloaded := m.files + Hashes(Downloads(es, store, m.files));
    forall k | 0 <= k < |resolved| ensures resolved[k].pageId != id {
      assert es[k] in es;
    }
    NotAPage(resolved, downloaded, id);
    FreezeOf(NextOfPages(resolved, downloaded), m.(files := TrackedAfterWrites(m, es, store)), PathsIn(es), frozen, id);
  }

  /** A rebuild never strands a file it tracked: what stays on disk stays tracked. */
  lemma NothingStranded(m: Manifest, disk: Disk, es: seq<Entry>, frozen: seq<PageId>, store: Option<Store>, p: Path)
    requires Placed(es) && Agrees(m.files, disk)
    requires p in m.files
    ensures p in RebuiltDisk(m, disk, es, frozen, store) <==> p in NextState(m, es, frozen, store).files
  {
    RebuildIsExact(m, disk, es, frozen, store);
  }
}
