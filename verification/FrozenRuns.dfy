/** Freezing over whole runs: what a mirror does, through commits, boots, reconciles, crashes and stops, to
    the files of a page the fold cannot place. */
module FrozenRuns {
  import opened Options
  import opened Slugs
  import opened Forest
  import opened Attachments
  import opened Projection
  import opened Reconciliation
  import opened CrashSafety
  import opened MirrorRuns

  /** The manifest records the page's file `m.pages[id]`, and `p`, with these contents; `p` is that file
      or one of the page's assets. */
  ghost predicate Records(m: Manifest, id: PageId, own: Path, p: Path, mine: Content, c: Content) {
    && id in m.pages && m.pages[id] == own && UpToDate(m.files, own, mine)
    && KeptBy(p, id, m) && UpToDate(m.files, p, c)
  }

  /** Both files are on disk with these contents, and every manifest in force records them. */
  ghost predicate Held(w: World, id: PageId, own: Path, p: Path, mine: Content, c: Content) {
    && own in w.disk && w.disk[own] == mine && p in w.disk && w.disk[p] == c
    && w.persisted.Some? && Records(w.persisted.value, id, own, p, mine, c)
    && (w.memory.Some? ==> Records(w.memory.value, id, own, p, mine, c))
  }

  /** The fold freezes the page, and expects nothing at the two paths. */
  ghost predicate FreezesAt(r: Render, s: Setting, id: PageId, own: Path, p: Path) {
    && id in Frozen(r.fold, s.scope)
    && own !in PathsIn(Expected(r, s.scope)) && p !in PathsIn(Expected(r, s.scope))
  }

  /** An edit from outside that touches neither the two files nor the manifest. */
  ghost predicate Spares(w: World, w': World, own: Path, p: Path) {
    w'.persisted == w.persisted && SameAt(w'.disk, w.disk, own) && SameAt(w'.disk, w.disk, p)
  }

  /** A rebuild that freezes the page: neither file is written or removed. */
  lemma FrozenWrites(m: Manifest, disk: Disk, es: seq<Entry>, store: Option<Store>, p: Path)
    requires Placed(es) && p in m.files && p in disk && p !in PathsIn(es)
    ensures SameAt(WrittenDisk(m, disk, es, store), disk, p)
  {
    var d := Downloads(es, store, m.files);
    ResolvedPlaced(es, store, m.files);
    WritesElsewhere(ResolveAll(es, store, m.files), m.files + Hashes(d), disk + d, p);
  }

  lemma FrozenIsNoOrphan(m: Manifest, es: seq<Entry>, frozen: seq<PageId>, store: Option<Store>, id: PageId, p: Path)
    requires Placed(es) && id in frozen && id in m.pages && m.pages[id] !in PathsIn(es)
    requires p in m.files && KeptBy(p, id, m)
    ensures p !in Orphans(m, es, frozen, store)
  {
    assert Survives(id, m, PathsIn(es), frozen);
    assert KeptBySome(p, m, PathsIn(es), frozen);
    TrackedExactly(m, es, frozen, store, p);
  }

  lemma CrashSpares(w: World, w': World, s: Setting, id: PageId, own: Path, p: Path, mine: Content, c: Content, q: Path)
    requires Inv(w, s) && Rebuilds(w, s) && Crash(w, w', s)
    requires Records(w.memory.value, id, own, p, mine, c) && FreezesAt(Head(w), s, id, own, p)
    requires (q == own || q == p) && q in w.disk
    ensures SameAt(w'.disk, w.disk, q)
  {
    var m, es, frozen := w.memory.value, Expected(Head(w), s.scope), Frozen(Head(w).fold, s.scope);
    ExpectedPlaced(Head(w), s.scope);
    FrozenWrites(m, w.disk, es, s.store, q);
    FrozenIsNoOrphan(m, es, frozen, s.store, id, q);
    RebuildWritesReplay(m, w.disk, es, s.store);
    RebuildWritesLand(m, w.disk, es, s.store);
    var ops: seq<Op>, removals: nat, k: nat :| CrashAfter(w, w', s, ops, removals, k);
    CrashLeaves(w.disk, ops, RebuildWrites(m, es, s.store), removals, Orphans(m, es, frozen, s.store),
      WrittenDisk(m, w.disk, es, s.store), k, q);
  }

  lemma RebuiltRecords(m: Manifest, disk: Disk, r: Render, s: Setting, version: nat, id: PageId, own: Path, p: Path,
      mine: Content, c: Content)
    requires Agrees(m.files, disk) && Records(m, id, own, p, mine, c) && FreezesAt(r, s, id, own, p)
    ensures var es, frozen := Expected(r, s.scope), Frozen(r.fold, s.scope);
      var d := RebuiltDisk(m, disk, es, frozen, s.store);
      && Records(RebuiltManifest(m, es, frozen, s.store, version, s.scope), id, own, p, mine, c)
      && own in d && d[own] == mine && p in d && d[p] == c
  {
    ExpectedPlaced(r, s.scope);
    FrozenPagesStay(m, disk, Expected(r, s.scope), Frozen(r.fold, s.scope), s.store, id);
  }

  lemma RebuiltHolds(w: World, s: Setting, id: PageId, own: Path, p: Path, mine: Content, c: Content)
    requires Inv(w, s) && Held(w, id, own, p, mine, c) && Rebuilds(w, s) && FreezesAt(Head(w), s, id, own, p)
    ensures Held(Rebuilt(w, s), id, own, p, mine, c)
  {
    RebuiltRecords(w.memory.value, w.disk, Head(w), s, |w.history|, id, own, p, mine, c);
  }

  lemma BootHolds(w: World, w': World, s: Setting, id: PageId, own: Path, p: Path, mine: Content, c: Content)
    requires Held(w, id, own, p, mine, c) && Boot(w, w', s)
    ensures Held(w', id, own, p, mine, c)
  {
    var m := w.persisted.value;
    assert own in Verified(m.files, w.disk) && p in Verified(m.files, w.disk);
  }

  lemma CrashHolds(w: World, w': World, s: Setting, id: PageId, own: Path, p: Path, mine: Content, c: Content)
    requires Inv(w, s) && Held(w, id, own, p, mine, c) && Rebuilds(w, s) && FreezesAt(Head(w), s, id, own, p)
    requires Crash(w, w', s)
    ensures Held(w', id, own, p, mine, c)
  {
    RebuiltHolds(w, s, id, own, p, mine, c);
    CrashSpares(w, w', s, id, own, p, mine, c, own);
    CrashSpares(w, w', s, id, own, p, mine, c, p);
    assert w'.memory.None? && (w'.persisted == w.persisted || w'.persisted == Rebuilt(w, s).persisted);
  }

  /** One step of the kind the promise is about: rebuilds freeze the page, edits spare its files. */
  ghost predicate FreezingStep(w: World, w': World, s: Setting, id: PageId, own: Path, p: Path) {
    && Step(w, w', s)
    && ((Reconcile(w, w', s) || Crash(w, w', s)) && Rebuilds(w, s) ==> FreezesAt(Head(w), s, id, own, p))
    && (Tamper(w, w') ==> Spares(w, w', own, p))
  }

  lemma StepHolds(w: World, w': World, s: Setting, id: PageId, own: Path, p: Path, mine: Content, c: Content)
    requires Inv(w, s) && Held(w, id, own, p, mine, c) && FreezingStep(w, w', s, id, own, p)
    ensures Held(w', id, own, p, mine, c)
  {
    if Boot(w, w', s) {
      BootHolds(w, w', s, id, own, p, mine, c);
    } else if Reconcile(w, w', s) {
      if Rebuilds(w, s) {
        RebuiltHolds(w, s, id, own, p, mine, c);
      }
    } else if Crash(w, w', s) {
      CrashHolds(w, w', s, id, own, p, mine, c);
    } else if Tamper(w, w') {
      assert Spares(w, w', own, p);
    } else {
      assert Commit(w, w') || Stop(w, w');
    }
  }

  ghost predicate FreezingAt(run: seq<World>, k: int, s: Setting, id: PageId, own: Path, p: Path) {
    0 <= k < |run| - 1 && FreezingStep(run[k], run[k + 1], s, id, own, p)
  }

  lemma StepAtHolds(run: seq<World>, k: nat, s: Setting, id: PageId, own: Path, p: Path, mine: Content, c: Content)
    requires Run(run, s) && FreezingAt(run, k, s, id, own, p)
    requires Held(run[k], id, own, p, mine, c)
    ensures Held(run[k + 1], id, own, p, mine, c)
  {
    RunKeeps(run, s, k);
    StepHolds(run[k], run[k + 1], s, id, own, p, mine, c);
  }

  /** Freezing over whole runs: through commits, boots, reconciles, crashes anywhere in them, stops and edits
      elsewhere, a page that every rebuilt fold freezes keeps its entry, its file and its assets byte for
      byte, as long as no reliable page is expected at their paths. */
  lemma {:induction false} FrozenPagesStayInRuns(run: seq<World>, s: Setting, i: nat, n: nat, id: PageId, own: Path,
      p: Path,
      mine: Content, c: Content)
    requires Run(run, s) && i <= n < |run| && Held(run[i], id, own, p, mine, c)
    requires forall k :: i <= k < n ==> FreezingAt(run, k, s, id, own, p)
    ensures Held(run[n], id, own, p, mine, c)
  {
    if i < n {
      var last: nat := n - 1;
      FrozenPagesStayInRuns(run, s, i, last, id, own, p, mine, c);
      StepAtHolds(run, last, s, id, own, p, mine, c);
    }
  }
}
