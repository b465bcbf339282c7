/** What a crash between any two file operations of a delta leaves, and what the next boot makes of a delta
    (wiki-mirror/src/markdown-projection.ts:403-442). */
module DeltaCrashes {
  import opened Options
  import opened Slugs
  import opened Forest
  import opened Attachments
  import opened Projection
  import opened Projector
  import opened Reconciliation
  import opened Convergence
  import opened CrashSafety
  import opened MirrorRuns
  import opened ShortcutLimits
  import opened Deltas

  /** The state a delta's writes start from. */
  function Before(m: Manifest, disk: Disk, removed: seq<PageId>, st: Fold): Written {
    var u := Untrack(m, st.retired, removed);
    Written(u.files, u.pages, disk, 0)
  }

  // ----- the writes, replayed -----

  lemma DocOpReplay(v: Written, id: PageId, body: Body, st: Fold, scope: Option<PageId>, before: seq<Op>, disk: Disk)
    requires ApplyOps(disk, before) == v.disk
    ensures var op := DocOp(v, id, body, st, scope);
      && |op| <= 1
      && ApplyOps(disk, before + op) == if op == [] then v.disk else v.disk[PathOf(id, st, scope) := Markdown(body)]
  {
    var op := DocOp(v, id, body, st, scope);
    if op == [] {
      assert before + op == before;
    } else {
      ApplySnoc(disk, before, op[0]);
      assert before + op == before + [op[0]];
    }
  }

  /** The writes of a delta, replayed, are the disk it computes, and as many as it counts. */
  lemma {:induction false} DocOpsReplay(w: Written, docs: Docs, st: Fold, scope: Option<PageId>)
    ensures ApplyOps(w.disk, DocOps(w, docs, st, scope)) == WriteDocs(w, docs, st, scope).disk
    ensures WriteDocs(w, docs, st, scope).count == w.count + |DocOps(w, docs, st, scope)|
    ensures forall i :: 0 <= i < |DocOps(w, docs, st, scope)| ==> DocOps(w, docs, st, scope)[i].Write?
  {
    if docs != [] {
      var init, last := docs[..|docs| - 1], docs[|docs| - 1];
      DocOpsReplay(w, init, st, scope);
      DocOpReplay(WriteDocs(w, init, st, scope), last.0, last.1, st, scope, DocOps(w, init, st, scope), w.disk);
    }
  }

  lemma BeforeTheLast(w: Written, docs: Docs, st: Fold, scope: Option<PageId>, k: nat)
    requires k < |DocOps(w, docs, st, scope)|
    ensures var ops, init := DocOps(w, docs, st, scope), DocOps(w, docs[..|docs| - 1], st, scope);
      k <= |init| && ops[..k] == init[..k]
  {
    var init, last := docs[..|docs| - 1], docs[|docs| - 1];
    assert |DocOp(WriteDocs(w, init, st, scope), last.0, last.1, st, scope)| <= 1;
  }

  /** Between two writes the disk is what the documents so far have made of it. */
  lemma {:induction false} BetweenDocs(w: Written, docs: Docs, st: Fold, scope: Option<PageId>, k: nat)
    returns (n: nat)
    requires k <= |DocOps(w, docs, st, scope)|
    ensures n <= |docs|
    ensures ApplyOps(w.disk, DocOps(w, docs, st, scope)[..k]) == WriteDocs(w, docs[..n], st, scope).disk
  {
    var ops := DocOps(w, docs, st, scope);
    if k == |ops| {
      n := |docs|;
      assert ops[..k] == ops && docs[..n] == docs;
      DocOpsReplay(w, docs, st, scope);
    } else {
      var init := docs[..|docs| - 1];
      BeforeTheLast(w, docs, st, scope, k);
      n := BetweenDocs(w, init, st, scope, k);
      assert docs[..n] == init[..n];
    }
  }

  /** A path holds what it held, or the body of a document that lies there. */
  ghost predicate OldOrGiven(d: Disk, disk: Disk, docs: Docs, st: Fold, scope: Option<PageId>, p: Path) {
    || SameAt(d, disk, p)
    || exists doc :: doc in docs && !DeltaSkips(doc.0, st, scope) && PathOf(doc.0, st, scope) == p
                     && p in d && d[p] == Markdown(doc.1)
  }

  lemma {:induction false} DocsGive(w: Written, docs: Docs, st: Fold, scope: Option<PageId>, p: Path)
    ensures OldOrGiven(WriteDocs(w, docs, st, scope).disk, w.disk, docs, st, scope, p)
  {
    if docs != [] {
      var init, last := docs[..|docs| - 1], docs[|docs| - 1];
      assert docs == init + [last] && last in docs;
      DocsGive(w, init, st, scope, p);
    }
  }

  // ----- the states a crash can leave -----

  /** Wherever the process dies in a delta: until the last write every path holds what it held or the body of
      one of the documents that lie there; from then on everything is written, and only files of removed
      pages are gone; at the end the disk is the delta's. */
  lemma DyingInDelta(m: Manifest, disk: Disk, docs: Docs, removed: seq<PageId>, st: Fold, scope: Option<PageId>,
      version: nat, ops: seq<Op>, removals: nat, k: nat, p: Path)
    requires DeltaTraces(ops, m, disk, docs, removed, st, scope, version, removals) && k <= |ops|
    ensures var w0 := Before(m, disk, removed, st);
      var d, written, gone := ApplyOps(disk, ops[..k]), WriteDocs(w0, docs, st, scope).disk,
        Untrack(m, st.retired, removed).paths;
      && (k <= |DocOps(w0, docs, st, scope)| ==> OldOrGiven(d, disk, docs, st, scope, p))
      && (k >= |DocOps(w0, docs, st, scope)| ==> SameAt(d, written, p) || (p in gone && p !in d))
      && (k == |ops| ==> SameAt(d, DeltaDisk(m, disk, docs, removed, st, scope), p))
  {
    var w0 := Before(m, disk, removed, st);
    var w := DocOps(w0, docs, st, scope);
    var doomed := set q | q in Untrack(m, st.retired, removed).paths;
    DocOpsReplay(w0, docs, st, scope);
    if k <= |w| {
      assert ops[..k] == ops[..|w|][..k];
      var n := BetweenDocs(w0, docs, st, scope, k);
      DocsGive(w0, docs[..n], st, scope, p);
      assert forall doc :: doc in docs[..n] ==> doc in docs;
    }
    if k >= |w| {
      CrashWhileRemoving(disk, ops, w, removals, doomed, WriteDocs(w0, docs, st, scope).disk, k);
    }
    if k == |ops| {
      WholeTraceReplays(disk, ops, w, removals, doomed, WriteDocs(w0, docs, st, scope).disk);
      assert ops[..k] == ops;
    }
  }

  // ----- what the next boot makes of it -----

  /** Untracked, the page's final content lies at its path already. */
  predicate LiesRight(m: Manifest, disk: Disk, e: Entry, store: Option<Store>) {
    e.path !in m.files && e.path in disk && disk[e.path] == FinalContent(e, store)
  }

  lemma DeltaStaysHonest(m: Manifest, disk: Disk, docs: Docs, removed: seq<PageId>, st: Fold, scope: Option<PageId>,
      version: nat, store: Option<Store>)
    requires Honest(store, m.files) && forall d :: d in docs ==> d.0 in st.pages
    ensures Honest(store, DeltaManifest(m, disk, docs, removed, st, scope, version).files)
  {
    UntrackExactly(m, st.retired, removed);
    if store.Some? {
      forall sha: Sha ensures !WritesPath(docs, st, scope, AssetPath(store.value, sha)) {
        if d :| d in docs && PathOf(d.0, st, scope) == AssetPath(store.value, sha) {
          PageOutsideAssets(d.0, st, scope);
        }
      }
      forall sha: Sha
        ensures var p := AssetPath(store.value, sha);
          SameAt(AfterDocs(m, disk, docs, removed, st, scope).files, Untrack(m, st.retired, removed).files, p)
      {
        DocsAt(Before(m, disk, removed, st), docs, st, scope, AssetPath(store.value, sha));
      }
    }
  }

  /** Over given files, a boot and a reconcile leave a served page right if and only if the manifest sends them
      to a rebuild or records the page's final content. */
  lemma BootHealsExactly(m: Manifest, disk: Disk, history: seq<Render>, s: Setting, e: Entry)
    requires history != [] && !ScopeGone(history[|history| - 1].fold, s.scope) && Honest(s.store, m.files)
    requires e in Expected(history[|history| - 1], s.scope) && Served(e, s.store)
    ensures HealsPage(m, disk, history, s, e) <==>
      || !Claims(m, history, s) || !Agrees(m.files, disk)
      || UpToDate(m.files, e.path, FinalContent(e, s.store)) || LiesRight(m, disk, e, s.store)
  {
    if Claims(m, history, s) && Agrees(m.files, disk) {
      BootedIsHealed(m, disk, history, s);
    } else {
      RebuildsToHead(m, disk, history, s);
    }
  }

  /** After a delta that was saved, the next boot and reconcile leave a served page right if and only if the
      manifest is foreign or claims less than the head, or the delta deleted a file it had written, which the
      boot notices, or the page's final content is recorded or lies there untracked: a page with attachments
      stays bare once the delta wrote it. */
  lemma SavedDeltaHealsExactly(m: Manifest, disk: Disk, docs: Docs, removed: seq<PageId>, st: Fold, version: nat,
      history: seq<Render>, s: Setting, e: Entry)
    requires Agrees(m.files, disk) && Honest(s.store, m.files) && forall d :: d in docs ==> d.0 in st.pages
    requires history != [] && !ScopeGone(history[|history| - 1].fold, s.scope)
    requires e in Expected(history[|history| - 1], s.scope) && Served(e, s.store)
    ensures var next := DeltaManifest(m, disk, docs, removed, st, s.scope, version);
      HealsPage(next, DeltaDisk(m, disk, docs, removed, st, s.scope), history, s, e) <==>
        || Foreign(next, s) || next.version < |history|
        || (exists p :: p in Untrack(m, st.retired, removed).paths && WritesPath(docs, st, s.scope, p))
        || UpToDate(next.files, e.path, FinalContent(e, s.store))
        || LiesRight(next, DeltaDisk(m, disk, docs, removed, st, s.scope), e, s.store)
  {
    DeltaStaysHonest(m, disk, docs, removed, st, s.scope, version, s.store);
    DeltaAgreesExactly(m, disk, docs, removed, st, s.scope, version);
    BootHealsExactly(DeltaManifest(m, disk, docs, removed, st, s.scope, version),
      DeltaDisk(m, disk, docs, removed, st, s.scope), history, s, e);
  }
}
