/** Content commits applied as deltas (wiki-mirror/src/markdown-projection.ts:386-442): when they keep
    manifest and disk in step, and when they end where a whole rebuild would. */
module Deltas {
  import opened Options
  import opened Slugs
  import opened Forest
  import opened Attachments
  import opened Projection
  import opened Reconciliation
  import opened Convergence

  type Docs = seq<(PageId, Body)>

  /** The documents the delta writes lie at these paths. */
  ghost predicate WritesPath(docs: Docs, st: Fold, scope: Option<PageId>, p: Path) {
    exists d :: d in docs && !DeltaSkips(d.0, st, scope) && PathOf(d.0, st, scope) == p
  }

  lemma WritesPathSnoc(docs: Docs, d: (PageId, Body), st: Fold, scope: Option<PageId>, p: Path)
    ensures WritesPath(docs + [d], st, scope, p) <==>
      WritesPath(docs, st, scope, p) || (!DeltaSkips(d.0, st, scope) && PathOf(d.0, st, scope) == p)
  {
    assert d in docs + [d];
    assert forall x :: x in docs + [d] <==> x in docs || x == d;
  }

  lemma {:induction false} UntrackExactly(m: Manifest, retired: seq<PageId>, ids: seq<PageId>)
    ensures var u := Untrack(m, retired, ids);
      && (forall id :: id in u.pages ==> id in m.pages && u.pages[id] == m.pages[id])
      && (forall p :: p in u.files ==> p in m.files && u.files[p] == m.files[p])
      && (forall p :: p in u.paths ==> p !in u.files)
      && (forall p :: p in m.files ==> p in u.files || p in u.paths)
      && (forall id :: id in m.pages ==> (id in u.pages <==> id !in ids || id in retired))
      && (forall p :: p in u.paths <==> exists id :: id in ids && id !in retired && id in m.pages && m.pages[id] == p)
  {
    if ids != [] {
      var init, last := ids[..|ids| - 1], ids[|ids| - 1];
      assert ids == init + [last];
      UntrackExactly(m, retired, init);
    }
  }

  lemma {:induction false} DocsKeepAgreement(w: Written, docs: Docs, st: Fold, scope: Option<PageId>)
    requires Agrees(w.files, w.disk)
    ensures Agrees(WriteDocs(w, docs, st, scope).files, WriteDocs(w, docs, st, scope).disk)
  {
    if docs != [] {
      DocsKeepAgreement(w, docs[..|docs| - 1], st, scope);
    }
  }

  lemma {:induction false} DocsAt(w: Written, docs: Docs, st: Fold, scope: Option<PageId>, p: Path)
    ensures var v := WriteDocs(w, docs, st, scope);
      && (p in v.files <==> p in w.files || WritesPath(docs, st, scope, p))
      && (!WritesPath(docs, st, scope, p) ==> SameAt(v.files, w.files, p) && SameAt(v.disk, w.disk, p))
  {
    if docs != [] {
      var init, last := docs[..|docs| - 1], docs[|docs| - 1];
      assert docs == init + [last];
      WritesPathSnoc(init, last, st, scope, p);
      DocsAt(w, init, st, scope, p);
    }
  }

  /** A delta keeps manifest and disk in step exactly when it writes no page where it removes one:
      the removals run last and delete such a page's fresh file, which stays tracked. */
  lemma DeltaAgreesExactly(m: Manifest, disk: Disk, docs: Docs, removed: seq<PageId>, st: Fold, scope: Option<PageId>,
      version: nat)
    requires Agrees(m.files, disk)
    ensures Agrees(DeltaManifest(m, disk, docs, removed, st, scope, version).files,
      DeltaDisk(m, disk, docs, removed, st, scope)) <==>
      forall p :: p in Untrack(m, st.retired, removed).paths ==> !WritesPath(docs, st, scope, p)
  {
    var u := Untrack(m, st.retired, removed);
    var w0 := Written(u.files, u.pages, disk, 0);
    UntrackExactly(m, st.retired, removed);
    DocsKeepAgreement(w0, docs, st, scope);
    forall p ensures p in WriteDocs(w0, docs, st, scope).files <==> p in u.files || WritesPath(docs, st, scope, p) {
      DocsAt(w0, docs, st, scope, p);
    }
    var files, final := DeltaManifest(m, disk, docs, removed, st, scope, version).files,
      DeltaDisk(m, disk, docs, removed, st, scope);
    if p :| p in u.paths && WritesPath(docs, st, scope, p) {
      assert p in files && p !in final;
    }
  }

  /** The failing case, for any page: a removed page's path is taken by a page of the same delta.
      The new page's file is written, then deleted, and the manifest still lists it. */
  lemma RecreatedPageIsDeleted(st: Fold, gone: PageId, born: PageId, was: Body, body: Body, version: nat)
    requires gone != born && gone !in st.retired
    ensures var p := PathOf(born, st, None);
      var m := Manifest(version, map[p := Sha256(Markdown(was))], map[gone := p], map[], Some(LAYOUT_VERSION), None);
      var disk := map[p := Markdown(was)];
      && Agrees(m.files, disk)
      && p in DeltaManifest(m, disk, [(born, body)], [gone], st, None, version + 1).files
      && p !in DeltaDisk(m, disk, [(born, body)], [gone], st, None)
  {
    var p := PathOf(born, st, None);
    var m := Manifest(version, map[p := Sha256(Markdown(was))], map[gone := p], map[], Some(LAYOUT_VERSION), None);
    var docs: Docs := [(born, body)];
    UntrackExactly(m, st.retired, [gone]);
    var u := Untrack(m, st.retired, [gone]);
    assert gone in [gone] && m.pages[gone] == p;
    assert docs[0] in docs && WritesPath(docs, st, None, p);
    DocsAt(Written(u.files, u.pages, map[p := Markdown(was)], 0), docs, st, None, p);
  }

  // ----- a delta refines a rebuild -----

  /** Every tracked file belongs to one recorded page and the other way round; no assets. */
  ghost predicate OnePageAFile(m: Manifest) {
    && (forall id :: id in m.pages ==> m.pages[id] in m.files)
    && (forall p :: p in m.files ==> exists id :: id in m.pages && m.pages[id] == p)
    && (forall a, b :: a in m.pages && b in m.pages && m.pages[a] == m.pages[b] ==> a == b)
    && m.assets == map[]
  }

  ghost predicate TouchedBy(id: PageId, docs: Docs) {
    exists d :: d in docs && d.0 == id
  }

  /** A content commit: `es` is what the new fold expects, none of it with attachments. Touched pages
      carry their new body and stay where they were tracked, untouched ones are tracked as expected,
      the removed pages are the tracked ones that are no longer expected, and no page is written
      where one is removed. */
  ghost predicate ContentCommit(m: Manifest, es: seq<Entry>, docs: Docs, removed: seq<PageId>, st: Fold,
      scope: Option<PageId>)
  {
    && (forall e :: e in es ==> RefsIn(e.body) == [] && e.assets == [])
    && (forall d :: d in docs ==> !DeltaSkips(d.0, st, scope) && Entry(PathOf(d.0, st, scope), d.0, d.1, []) in es)
    && (forall e :: e in es && e.pageId in m.pages ==> m.pages[e.pageId] == e.path)
    && (forall e :: e in es && !TouchedBy(e.pageId, docs) ==>
          e.pageId in m.pages && e.path in m.files && m.files[e.path] == Sha256(Markdown(e.body)))
    && (forall id :: id in m.pages ==> (id in removed <==> forall e :: e in es ==> e.pageId != id))
    && (forall e, id :: e in es && id in removed && id in m.pages ==> m.pages[id] != e.path)
  }

  lemma ExpectedElsewhere(m: Manifest, es: seq<Entry>, docs: Docs, removed: seq<PageId>, st: Fold,
      scope: Option<PageId>, p: Path)
    requires OnePageAFile(m) && ContentCommit(m, es, docs, removed, st, scope)
    requires p in m.files
    ensures p in PathsIn(es) <==> !(exists id :: id in removed && id in m.pages && m.pages[id] == p)
  {
    var id :| id in m.pages && m.pages[id] == p;
    if id !in removed {
      var e :| e in es && e.pageId == id;
      assert e.path in PathsIn(es);
    }
  }

  lemma {:induction false} DocValue(w: Written, docs: Docs, st: Fold, scope: Option<PageId>, es: seq<Entry>, e: Entry)
    requires Placed(es) && OncePerPage(es) && e in es
    requires forall d :: d in docs ==> !DeltaSkips(d.0, st, scope) && Entry(PathOf(d.0, st, scope), d.0, d.1, []) in es
    requires TouchedBy(e.pageId, docs)
    ensures var v := WriteDocs(w, docs, st, scope);
      && e.path in v.files && v.files[e.path] == Sha256(Markdown(e.body))
      && e.pageId in v.pages && v.pages[e.pageId] == e.path
  {
    var init, last := docs[..|docs| - 1], docs[|docs| - 1];
    assert docs == init + [last];
    assert last in docs;
    var x := Entry(PathOf(last.0, st, scope), last.0, last.1, []);
    assert x in es;
    if last.0 == e.pageId {
      SameEntry(es, e, x);
    } else {
      var d :| d in docs && d.0 == e.pageId;
      assert d in init;
      DocValue(w, init, st, scope, es, e);
      DifferentPaths(es, e, x);
    }
  }

  lemma SameEntry(es: seq<Entry>, a: Entry, b: Entry)
    requires OncePerPage(es) && a in es && b in es && a.pageId == b.pageId
    ensures a == b
  {
  }

  lemma DifferentPaths(es: seq<Entry>, a: Entry, b: Entry)
    requires UniquePaths(es) && a in es && b in es && a.pageId != b.pageId
    ensures a.path != b.path
  {
  }

  lemma {:induction false} DocPages(w: Written, docs: Docs, st: Fold, scope: Option<PageId>, id: PageId)
    requires forall d :: d in docs ==> !DeltaSkips(d.0, st, scope)
    ensures var v := WriteDocs(w, docs, st, scope);
      && (id in v.pages <==> id in w.pages || TouchedBy(id, docs))
      && (!TouchedBy(id, docs) ==> SameAt(v.pages, w.pages, id))
  {
    if docs != [] {
      var init, last := docs[..|docs| - 1], docs[|docs| - 1];
      assert docs == init + [last];
      assert last in docs;
      DocPages(w, init, st, scope, id);
    }
  }

  lemma TouchedWrites(docs: Docs, st: Fold, scope: Option<PageId>, es: seq<Entry>, e: Entry)
    requires Placed(es) && OncePerPage(es) && e in es
    requires forall d :: d in docs ==> !DeltaSkips(d.0, st, scope) && Entry(PathOf(d.0, st, scope), d.0, d.1, []) in es
    ensures WritesPath(docs, st, scope, e.path) <==> TouchedBy(e.pageId, docs)
  {
    if d :| d in docs && PathOf(d.0, st, scope) == e.path && d.0 != e.pageId {
      DifferentPaths(es, e, Entry(PathOf(d.0, st, scope), d.0, d.1, []));
    }
    if d :| d in docs && d.0 == e.pageId {
      SameEntry(es, e, Entry(PathOf(d.0, st, scope), d.0, d.1, []));
    }
  }

  /** After a content commit the delta tracks exactly the expected pages, with their new digests. */
  lemma DeltaTracksExpected(m: Manifest, disk: Disk, es: seq<Entry>, docs: Docs, removed: seq<PageId>, st: Fold,
      scope: Option<PageId>)
    requires Placed(es) && OncePerPage(es) && st.retired == []
    requires OnePageAFile(m) && ContentCommit(m, es, docs, removed, st, scope)
    ensures var w := AfterDocs(m, disk, docs, removed, st, scope);
      && w.files.Keys == PathsIn(es)
      && (forall e :: e in es ==> w.files[e.path] == Sha256(Markdown(e.body)))
  {
    var u := Untrack(m, st.retired, removed);
    var w0 := Written(u.files, u.pages, disk, 0);
    var w := WriteDocs(w0, docs, st, scope);
    UntrackExactly(m, st.retired, removed);
    forall e | e in es ensures e.path in w.files && w.files[e.path] == Sha256(Markdown(e.body)) {
      DocsAt(w0, docs, st, scope, e.path);
      TouchedWrites(docs, st, scope, es, e);
      if TouchedBy(e.pageId, docs) {
        DocValue(w0, docs, st, scope, es, e);
      } else {
        assert e.path in PathsIn(es);
        assert e.path in m.files;
        ExpectedElsewhere(m, es, docs, removed, st, scope, e.path);
      }
    }
    forall p | p in w.files ensures p in PathsIn(es) {
      DocsAt(w0, docs, st, scope, p);
      if WritesPath(docs, st, scope, p) {
        var d :| d in docs && !DeltaSkips(d.0, st, scope) && PathOf(d.0, st, scope) == p;
        assert Entry(p, d.0, d.1, []) in es;
      } else {
        ExpectedElsewhere(m, es, docs, removed, st, scope, p);
      }
    }
    forall p | p in PathsIn(es) ensures p in w.files {
      var k := IndexOfPath(es, p);
      assert es[k] in es;
    }
  }

  lemma PlainResolve(es: seq<Entry>, store: Option<Store>, files: Files)
    requires forall e :: e in es ==> RefsIn(e.body) == [] && e.assets == []
    ensures ResolveAll(es, store, files) == es
    ensures forall p :: p !in Downloads(es, store, files) && !Wanted(p, es, store, files)
  {
    forall k | 0 <= k < |es| ensures Resolve(es[k], store, files) == es[k] {
      var e := es[k];
      assert e in es;
      if store.Some? && |e.path| > 0 {
        var body := Resolve(e, store, files).body;
        forall i | 0 <= i < |e.body| ensures body[i] == e.body[i] {
          assert e.body[i] in e.body;
        }
      }
    }
    if store.Some? {
      forall p ensures p !in Downloads(es, store, files) {
        DownloadsExactly(es, store.value, files, p);
      }
    }
  }

  lemma PlainRebuild(m: Manifest, disk: Disk, es: seq<Entry>, store: Option<Store>)
    requires Placed(es) && Agrees(m.files, disk)
    requires forall e :: e in es ==> RefsIn(e.body) == [] && e.assets == []
    ensures var next := NextState(m, es, [], store);
      && next.files.Keys == PathsIn(es)
      && (forall e :: e in es ==> next.files[e.path] == Sha256(Markdown(e.body)))
      && (forall p :: p in RebuiltDisk(m, disk, es, [], store) && p in m.files ==> p in PathsIn(es))
      && (forall p :: p !in m.files && p !in PathsIn(es) ==> SameAt(RebuiltDisk(m, disk, es, [], store), disk, p))
  {
    PlainResolve(es, store, m.files);
    PageHashesExactly(es);
    RebuildIsExact(m, disk, es, [], store);
    var next := NextState(m, es, [], store);
    forall p ensures p in next.files <==> p in PathsIn(es) {
      TrackedExactly(m, es, [], store, p);
    }
    forall e | e in es ensures next.files[e.path] == Sha256(Markdown(e.body)) {
      TrackedExactly(m, es, [], store, e.path);
    }
  }

  lemma PlainPages(m: Manifest, es: seq<Entry>, store: Option<Store>, id: PageId)
    requires Placed(es) && OncePerPage(es)
    requires forall e :: e in es ==> RefsIn(e.body) == [] && e.assets == []
    ensures var next := NextState(m, es, [], store);
      && id !in next.assets
      && (id in next.pages <==> exists e :: e in es && e.pageId == id)
      && (forall e :: e in es && e.pageId == id ==> next.pages[id] == e.path)
  {
    PlainResolve(es, store, m.files);
    var files := m.files + Hashes(Downloads(es, store, m.files));
    if e :| e in es && e.pageId == id {
      PagesOf(es, files, e);
    } else {
      NotAPage(es, files, id);
    }
  }

  lemma DeltaPages(m: Manifest, disk: Disk, es: seq<Entry>, docs: Docs, removed: seq<PageId>, st: Fold,
      scope: Option<PageId>, id: PageId)
    requires Placed(es) && OncePerPage(es) && st.retired == []
    requires OnePageAFile(m) && ContentCommit(m, es, docs, removed, st, scope)
    ensures var w := AfterDocs(m, disk, docs, removed, st, scope);
      && (id in w.pages <==> exists e :: e in es && e.pageId == id)
      && (forall e :: e in es && e.pageId == id ==> w.pages[id] == e.path)
  {
    var u := Untrack(m, st.retired, removed);
    var w0 := Written(u.files, u.pages, disk, 0);
    UntrackExactly(m, st.retired, removed);
    DocPages(w0, docs, st, scope, id);
    forall e | e in es && e.pageId == id ensures id in AfterDocs(m, disk, docs, removed, st, scope).pages
      && AfterDocs(m, disk, docs, removed, st, scope).pages[id] == e.path
    {
      ExpectedPage(m, w0, es, docs, removed, st, scope, e);
    }
    if id in AfterDocs(m, disk, docs, removed, st, scope).pages && TouchedBy(id, docs) {
      TouchedIsExpected(es, docs, st, scope, id);
    }
  }

  lemma TouchedIsExpected(es: seq<Entry>, docs: Docs, st: Fold, scope: Option<PageId>, id: PageId)
    requires forall d :: d in docs ==> Entry(PathOf(d.0, st, scope), d.0, d.1, []) in es
    requires TouchedBy(id, docs)
    ensures exists e :: e in es && e.pageId == id
  {
    var d :| d in docs && d.0 == id;
    assert Entry(PathOf(d.0, st, scope), d.0, d.1, []) in es;
  }

  lemma ExpectedPage(m: Manifest, w0: Written, es: seq<Entry>, docs: Docs, removed: seq<PageId>, st: Fold,
      scope: Option<PageId>, e: Entry)
    requires Placed(es) && OncePerPage(es) && ContentCommit(m, es, docs, removed, st, scope) && e in es
    requires forall id :: id in m.pages && id !in removed ==> id in w0.pages && w0.pages[id] == m.pages[id]
    ensures var w := WriteDocs(w0, docs, st, scope); e.pageId in w.pages && w.pages[e.pageId] == e.path
  {
    if TouchedBy(e.pageId, docs) {
      DocValue(w0, docs, st, scope, es, e);
    } else {
      DocPages(w0, docs, st, scope, e.pageId);
    }
  }

  lemma SameDisk(a: Files, d: Disk, b: Files, d': Disk, p: Path)
    requires Agrees(a, d) && Agrees(b, d') && p in a && p in b && a[p] == b[p]
    ensures SameAt(d, d', p)
  {
  }

  /** For a content commit the incremental path and the whole rebuild end alike: the same tracked
      files, the same page entries, the same disk. */
  lemma DeltaRefinesRebuild(m: Manifest, disk: Disk, es: seq<Entry>, docs: Docs, removed: seq<PageId>, st: Fold,
      scope: Option<PageId>, store: Option<Store>, version: nat)
    requires Placed(es) && OncePerPage(es) && st.retired == [] && Agrees(m.files, disk)
    requires OnePageAFile(m) && ContentCommit(m, es, docs, removed, st, scope)
    ensures var delta, whole :=
      DeltaManifest(m, disk, docs, removed, st, scope, version), RebuiltManifest(m, es, [], store, version, scope);
      && delta.files == whole.files && delta.pages == whole.pages && delta.assets == whole.assets
    ensures DeltaDisk(m, disk, docs, removed, st, scope) == RebuiltDisk(m, disk, es, [], store)
  {
    DeltaFilesSame(m, disk, es, docs, removed, st, scope, store);
    var next, w := NextState(m, es, [], store), AfterDocs(m, disk, docs, removed, st, scope);
    forall id ensures SameAt(w.pages, next.pages, id) && SameAt(m.assets, next.assets, id) {
      PlainPages(m, es, store, id);
      DeltaPages(m, disk, es, docs, removed, st, scope, id);
    }
    SameEverywhere(w.pages, next.pages);
    SameEverywhere(m.assets, next.assets);
    forall p ensures SameAt(DeltaDisk(m, disk, docs, removed, st, scope), RebuiltDisk(m, disk, es, [], store), p) {
      DeltaDiskSame(m, disk, es, docs, removed, st, scope, store, p);
    }
    SameEverywhere(DeltaDisk(m, disk, docs, removed, st, scope), RebuiltDisk(m, disk, es, [], store));
  }

  lemma DeltaFilesSame(m: Manifest, disk: Disk, es: seq<Entry>, docs: Docs, removed: seq<PageId>, st: Fold,
      scope: Option<PageId>, store: Option<Store>)
    requires Placed(es) && OncePerPage(es) && st.retired == [] && Agrees(m.files, disk)
    requires OnePageAFile(m) && ContentCommit(m, es, docs, removed, st, scope)
    ensures AfterDocs(m, disk, docs, removed, st, scope).files == NextState(m, es, [], store).files
  {
    DeltaTracksExpected(m, disk, es, docs, removed, st, scope);
    PlainRebuild(m, disk, es, store);
    SamePageFiles(es, AfterDocs(m, disk, docs, removed, st, scope).files, NextState(m, es, [], store).files);
  }

  lemma SamePageFiles(es: seq<Entry>, a: Files, b: Files)
    requires a.Keys == PathsIn(es) && b.Keys == PathsIn(es)
    requires forall e :: e in es ==> a[e.path] == b[e.path]
    ensures a == b
  {
    forall p | p in PathsIn(es) ensures a[p] == b[p] {
      var k := IndexOfPath(es, p);
      assert es[k] in es;
    }
  }

  lemma DeltaDiskSame(m: Manifest, disk: Disk, es: seq<Entry>, docs: Docs, removed: seq<PageId>, st: Fold,
      scope: Option<PageId>, store: Option<Store>, p: Path)
    requires Placed(es) && OncePerPage(es) && st.retired == [] && Agrees(m.files, disk)
    requires OnePageAFile(m) && ContentCommit(m, es, docs, removed, st, scope)
    ensures SameAt(DeltaDisk(m, disk, docs, removed, st, scope), RebuiltDisk(m, disk, es, [], store), p)
  {
    var w := AfterDocs(m, disk, docs, removed, st, scope);
    DeltaTracksExpected(m, disk, es, docs, removed, st, scope);
    PlainRebuild(m, disk, es, store);
    DeltaDiskAt(m, disk, docs, removed, st, scope, p);
    DeltaKeeps(m, es, docs, removed, st, scope, p);
    if p in PathsIn(es) {
      var k := IndexOfPath(es, p);
      assert es[k] in es;
      RebuildIsExact(m, disk, es, [], store);
      SameDisk(w.files, w.disk, NextState(m, es, [], store).files, RebuiltDisk(m, disk, es, [], store), p);
    }
  }

  /** The delta's disk at one path: gone where a page was removed, and otherwise as the writes left it. */
  lemma DeltaDiskAt(m: Manifest, disk: Disk, docs: Docs, removed: seq<PageId>, st: Fold, scope: Option<PageId>, p: Path)
    requires Agrees(m.files, disk)
    ensures var w := AfterDocs(m, disk, docs, removed, st, scope);
      && Agrees(w.files, w.disk)
      && (p in Untrack(m, st.retired, removed).paths ==> p !in DeltaDisk(m, disk, docs, removed, st, scope))
      && (p !in Untrack(m, st.retired, removed).paths ==>
        SameAt(DeltaDisk(m, disk, docs, removed, st, scope), w.disk, p))
      && (p !in w.files ==> SameAt(w.disk, disk, p))
  {
    var u := Untrack(m, st.retired, removed);
    var w0 := Written(u.files, u.pages, disk, 0);
    UntrackExactly(m, st.retired, removed);
    DocsKeepAgreement(w0, docs, st, scope);
    DocsAt(w0, docs, st, scope, p);
  }

  /** A tracked path is expected or removed, never both, and no other is removed. */
  lemma DeltaKeeps(m: Manifest, es: seq<Entry>, docs: Docs, removed: seq<PageId>, st: Fold, scope: Option<PageId>,
      p: Path)
    requires OnePageAFile(m) && ContentCommit(m, es, docs, removed, st, scope) && st.retired == []
    ensures p in Untrack(m, st.retired, removed).paths <==> p in m.files && p !in PathsIn(es)
  {
    UntrackExactly(m, st.retired, removed);
    if p in m.files {
      ExpectedElsewhere(m, es, docs, removed, st, scope, p);
    }
  }
}
