/** Where the already-current exit trusts too much: manifests it should not, folds it has not seen, and
    downloads that failed (wiki-mirror/src/mirror.ts:137-145). */
module ShortcutLimits {
  import opened Options
  import opened Slugs
  import opened Forest
  import opened Attachments
  import opened Projection
  import opened Reconciliation
  import opened Convergence
  import opened Projector
  import opened MirrorRuns

  // ----- which manifests the exit may trust -----

  /** The process down, over this manifest and these files. */
  function Down(m: Manifest, disk: Disk, history: seq<Render>): World {
    World(history, disk, Some(m), None)
  }

  /** What this manifest claims sends every boot over files that bear it out straight to the exit. */
  predicate Claims(m: Manifest, history: seq<Render>, s: Setting) {
    !Foreign(m, s) && history != [] && m.version >= |history|
  }

  /** The files the manifest describes. */
  function BornOut(m: Manifest): Disk {
    map p | p in m.files :: m.files[p].content
  }

  lemma BornOutBoots(m: Manifest, history: seq<Render>, s: Setting)
    requires Claims(m, history, s)
    ensures Agrees(m.files, BornOut(m))
    ensures Healed(Down(m, BornOut(m), history), s) == Down(m, BornOut(m), history).(memory := Some(m))
  {
    BootedIsHealed(m, BornOut(m), history, s);
  }

  /** A manifest that claims the head is left as it is over files that bear it out. */
  lemma BootedIsHealed(m: Manifest, disk: Disk, history: seq<Render>, s: Setting)
    requires Claims(m, history, s) && Agrees(m.files, disk)
    ensures Healed(Down(m, disk, history), s) == Down(m, disk, history).(memory := Some(m))
  {
    assert Verified(m.files, disk) == m.files;
  }

  /** Boot takes the exit only with a manifest that claims the head and that the disk bears out. */
  lemma ExitExactly(m: Manifest, disk: Disk, history: seq<Render>, s: Setting)
    ensures AlreadyCurrent(World(history, disk, Some(m), Some(BootManifest(Some(m), disk, s.scope)))) <==>
      Claims(m, history, s) && Agrees(m.files, disk)
  {
    if Agrees(m.files, disk) {
      assert Verified(m.files, disk) == m.files;
    } else {
      var p :| p in m.files && !(p in disk && m.files[p] == Sha256(disk[p]));
      assert p !in Verified(m.files, disk);
    }
  }

  /** Over these files, a boot and a reconcile end at the head's image. */
  ghost predicate HealsToImage(m: Manifest, disk: Disk, history: seq<Render>, s: Setting)
    requires history != []
  {
    var w, image := Healed(Down(m, disk, history), s), ImageOf(history[|history| - 1], s).files;
    w.memory.Some? && w.memory.value.files == image && Agrees(image, w.disk)
  }

  /** Over these files, a boot and a reconcile end with the page's final content at its path. */
  ghost predicate HealsPage(m: Manifest, disk: Disk, history: seq<Render>, s: Setting, e: Entry) {
    var d := Healed(Down(m, disk, history), s).disk;
    e.path in d && d[e.path] == FinalContent(e, s.store)
  }

  lemma BootStaysHonest(m: Manifest, disk: Disk, s: Setting)
    requires Honest(s.store, m.files)
    ensures var up := BootManifest(Some(m), disk, s.scope); Honest(s.store, up.files) && Agrees(up.files, disk)
  {
  }

  lemma RebuildsToHead(m: Manifest, disk: Disk, history: seq<Render>, s: Setting)
    requires history != [] && !ScopeGone(history[|history| - 1].fold, s.scope)
    requires Honest(s.store, m.files) && !(Claims(m, history, s) && Agrees(m.files, disk))
    ensures var w := Healed(Down(m, disk, history), s);
      w.memory.Some? && Shows(w.memory.value.files, history[|history| - 1], s) && Agrees(w.memory.value.files, w.disk)
  {
    ExitExactly(m, disk, history, s);
    BootStaysHonest(m, disk, s);
    RebuiltIsTrusted(World(history, disk, Some(m), Some(BootManifest(Some(m), disk, s.scope))), s);
  }

  /** Exactly which persisted manifests are safe to find at boot, when the head folds whole: over every
      state of the files a boot and a reconcile end at the head's image, if and only if the manifest is
      foreign, claims less than the head, or tracks the head's image. */
  lemma SafeManifestExactly(m: Manifest, history: seq<Render>, s: Setting)
    requires history != [] && !ScopeGone(history[|history| - 1].fold, s.scope)
    requires Whole(history[|history| - 1], s) && Honest(s.store, m.files)
    ensures (forall disk: Disk :: HealsToImage(m, disk, history, s)) <==>
      Foreign(m, s) || m.version < |history| || m.files == ImageOf(history[|history| - 1], s).files
  {
    forall disk: Disk | !Claims(m, history, s) || m.files == ImageOf(history[|history| - 1], s).files
      ensures HealsToImage(m, disk, history, s)
    {
      if Claims(m, history, s) && Agrees(m.files, disk) {
        BootedIsHealed(m, disk, history, s);
      } else {
        RebuildsToHead(m, disk, history, s);
      }
    }
    if Claims(m, history, s) && HealsToImage(m, BornOut(m), history, s) {
      BornOutBoots(m, history, s);
    }
  }

  /** The same page by page, whatever else the fold holds: a page whose attachments are served is brought
      back over every state of the files if and only if the manifest is foreign, claims less than the head,
      or records the page's final content. */
  lemma SafePageExactly(m: Manifest, history: seq<Render>, s: Setting, e: Entry)
    requires history != [] && !ScopeGone(history[|history| - 1].fold, s.scope) && Honest(s.store, m.files)
    requires e in Expected(history[|history| - 1], s.scope) && Served(e, s.store)
    ensures (forall disk: Disk :: HealsPage(m, disk, history, s, e)) <==>
      Foreign(m, s) || m.version < |history| || UpToDate(m.files, e.path, FinalContent(e, s.store))
  {
    forall disk: Disk | !Claims(m, history, s) || UpToDate(m.files, e.path, FinalContent(e, s.store))
      ensures HealsPage(m, disk, history, s, e)
    {
      if Claims(m, history, s) && Agrees(m.files, disk) {
        BootedIsHealed(m, disk, history, s);
      } else {
        RebuildsToHead(m, disk, history, s);
      }
    }
    if Claims(m, history, s) && HealsPage(m, BornOut(m), history, s, e) {
      BornOutBoots(m, history, s);
    }
  }

  /** An edited manifest that lists no file and claims the head takes the exit over an empty folder. */
  lemma EmptyManifestExits(version: nat, history: seq<Render>, s: Setting)
    requires history != [] && version >= |history|
    ensures var m := FRESH.(version := version, layout := Some(LAYOUT_VERSION), scope := s.scope);
      Healed(Down(m, map[], history), s).disk == map[]
  {
    var m := FRESH.(version := version, layout := Some(LAYOUT_VERSION), scope := s.scope);
    BootedIsHealed(m, map[], history, s);
  }

  // ----- the same head, folded otherwise -----

  /** Exact effect of a rebuild on what one page path holds, for a page of whatever other fold. */
  ghost predicate Leaves(m: Manifest, disk: Disk, es: seq<Entry>, frozen: seq<PageId>, store: Option<Store>, p: Path,
      c: Content)
  {
    if p in PathsIn(es) then exists e :: e in es && e.path == p && c == Markdown(Resolve(e, store, m.files).body)
    else p in disk && disk[p] == c && (p in m.files ==> KeptBySome(p, m, PathsIn(es), frozen))
  }

  lemma LeavesExactly(m: Manifest, disk: Disk, es: seq<Entry>, frozen: seq<PageId>, store: Option<Store>, p: Path,
      c: Content)
    requires Placed(es) && Agrees(m.files, disk) && |p| > 0 && p[0] != ASSETS_DIR
    ensures var d := RebuiltDisk(m, disk, es, frozen, store);
      (p in d && d[p] == c) <==> Leaves(m, disk, es, frozen, store, p, c)
  {
    RebuildIsExact(m, disk, es, frozen, store);
    if p in PathsIn(es) {
      PlacedContent(m, disk, es, frozen, store, p);
    } else if p in m.files {
      UnwantedPage(p, es, store, m.files);
      UnlistedFile(m, disk, es, frozen, store, p);
    } else {
      UnwantedPage(p, es, store, m.files);
    }
  }

  lemma UnwantedPage(p: Path, es: seq<Entry>, store: Option<Store>, files: Files)
    requires |p| > 0 && p[0] != ASSETS_DIR
    ensures !Wanted(p, es, store, files)
  {
  }

  lemma PlacedContent(m: Manifest, disk: Disk, es: seq<Entry>, frozen: seq<PageId>, store: Option<Store>, p: Path)
    requires Placed(es) && Agrees(m.files, disk) && p in PathsIn(es)
    ensures var d := RebuiltDisk(m, disk, es, frozen, store);
      forall e :: e in es && e.path == p ==> p in d && d[p] == Markdown(Resolve(e, store, m.files).body)
  {
    RebuildIsExact(m, disk, es, frozen, store);
    var resolved := ResolveAll(es, store, m.files);
    forall e | e in es && e.path == p ensures Resolve(e, store, m.files) in resolved {
      var k :| 0 <= k < |es| && es[k] == e;
      assert resolved[k] in resolved;
    }
  }

  /** A tracked page file nothing expects: it stays as it was if a frozen page keeps it, and goes if none does. */
  lemma UnlistedFile(m: Manifest, disk: Disk, es: seq<Entry>, frozen: seq<PageId>, store: Option<Store>, p: Path)
    requires Placed(es) && Agrees(m.files, disk) && p in m.files && p !in PathsIn(es) && !Wanted(p, es, store, m.files)
    ensures var d := RebuiltDisk(m, disk, es, frozen, store);
      (p in d <==> KeptBySome(p, m, PathsIn(es), frozen)) && (p in d ==> d[p] == disk[p])
  {
    RebuildIsExact(m, disk, es, frozen, store);
    TrackedExactly(m, es, frozen, store, p);
    ResolvedPlaced(es, store, m.files);
    PageHashesExactly(ResolveAll(es, store, m.files));
  }

  /** What is there once the head was applied as `seen` and the process boots and reconciles again. */
  function AfterSeen(m: Manifest, disk: Disk, seen: Render, now: Setting, history: seq<Render>, before: Setting): Disk {
    var es, frozen := Expected(seen, before.scope), Frozen(seen.fold, before.scope);
    var m1 := RebuiltManifest(m, es, frozen, before.store, |history|, before.scope);
    Healed(Down(m1, RebuiltDisk(m, disk, es, frozen, before.store), history), now).disk
  }

  lemma AfterSeenIsIdle(m: Manifest, disk: Disk, seen: Render, now: Setting, history: seq<Render>, before: Setting)
    requires history != [] && Agrees(m.files, disk) && now.scope == before.scope
    ensures AfterSeen(m, disk, seen, now, history, before) ==
      RebuiltDisk(m, disk, Expected(seen, before.scope), Frozen(seen.fold, before.scope), before.store)
  {
    var es, frozen := Expected(seen, before.scope), Frozen(seen.fold, before.scope);
    ExpectedPlaced(seen, before.scope);
    RebuildIsExact(m, disk, es, frozen, before.store);
    var m1 := RebuiltManifest(m, es, frozen, before.store, |history|, before.scope);
    BootedIsHealed(m1, RebuiltDisk(m, disk, es, frozen, before.store), history, now);
  }

  /** A boot that knew fewer page types applies the head as it sees it and claims it. With every type known
      again the next boot and reconcile do nothing. So a page is right, until the next commit, exactly when the
      fold seen first expected a page at its path with the same final content, or expected none there and the
      file was right already, untracked or kept for a frozen page. */
  lemma LaterFoldExactly(m: Manifest, disk: Disk, seen: Render, history: seq<Render>, s: Setting, e: Entry)
    requires history != [] && Agrees(m.files, disk) && e in Expected(history[|history| - 1], s.scope)
    ensures var d := AfterSeen(m, disk, seen, s, history, s);
      (e.path in d && d[e.path] == FinalContent(e, s.store)) <==>
      Leaves(m, disk, Expected(seen, s.scope), Frozen(seen.fold, s.scope), s.store, e.path, FinalContent(e, s.store))
  {
    AfterSeenIsIdle(m, disk, seen, s, history, s);
    ExpectedPlaced(history[|history| - 1], s.scope);
    ExpectedPlaced(seen, s.scope);
    LeavesExactly(m, disk, Expected(seen, s.scope), Frozen(seen.fold, s.scope), s.store, e.path,
      FinalContent(e, s.store));
  }

  /** A workspace of one page. */
  function OnePage(id: PageId, title: string): Fold {
    Fold(map[id := Page(id, title, None, false)], [id], false, [])
  }

  /** The same events while the page's type is not registered. */
  function OneUnknown(id: PageId): Fold {
    Fold(map[], [], false, [id])
  }

  /** First boot into an empty folder with the page's type missing, second with it known: the folder stays
      empty although the fold is whole. */
  lemma UnknownTypeCase(id: PageId, title: string, docs: map<PageId, Body>)
    ensures ValidFold(OnePage(id, title)) && ValidFold(OneUnknown(id)) && Mirrored(id, OnePage(id, title), None)
    ensures AfterSeen(FRESH, map[], Render(OneUnknown(id), map[]), Setting(None, None),
      [Render(OnePage(id, title), docs)],
      Setting(None, None)) == map[]
  {
    var seen := Render(OneUnknown(id), map[]);
    AfterSeenIsIdle(FRESH, map[], seen, Setting(None, None), [Render(OnePage(id, title), docs)], Setting(None, None));
    NothingExpected(seen, Frozen(seen.fold, None));
  }

  lemma NothingExpected(r: Render, frozen: seq<PageId>)
    requires r.fold.order == []
    ensures RebuiltDisk(FRESH, map[], Expected(r, None), frozen, None) == map[]
  {
    assert Expected(r, None) == [];
  }

  // ----- downloads that failed -----

  lemma LinkedSame(body: Body, refs: seq<Sha>, dir: Path, was: Store, now: Store, files: Files)
    requires refs == RefsIn(body)
    requires forall sha: Sha :: AssetPath(was, sha) == AssetPath(now, sha)
    requires forall sha :: sha in refs ==> sha in now.bytes
    ensures Linked(body, refs, dir, was, files) == Linked(body, refs, dir, now, FRESH.files) <==>
      forall sha :: sha in refs ==> Usable(was, files, sha)
  {
    var x, y := Linked(body, refs, dir, was, files), Linked(body, refs, dir, now, FRESH.files);
    forall sha | sha in refs && !Usable(was, files, sha) ensures x != y {
      var i :| 0 <= i < |body| && body[i] == Ref(sha);
      assert x[i] == Ref(sha) && y[i].Link?;
    }
    if forall sha :: sha in refs ==> Usable(was, files, sha) {
      forall i | 0 <= i < |body| ensures x[i] == y[i] {
        assert body[i] in body;
      }
    }
  }

  lemma ResolvedSame(e: Entry, was: Store, now: Store, files: Files)
    requires |e.path| > 0 && Served(e, Some(now))
    requires forall sha: Sha :: AssetPath(was, sha) == AssetPath(now, sha)
    ensures Markdown(Resolve(e, Some(was), files).body) == FinalContent(e, Some(now)) <==>
      forall sha :: sha in RefsIn(e.body) ==> Usable(was, files, sha)
  {
    LinkedSame(e.body, RefsIn(e.body), Dir(e.path), was, now, files);
  }

  /** A rebuild that could not fetch some attachments claims the head all the same. Once they are served
      again the next boot and reconcile do nothing, so a page is right, until the next commit, exactly when
      every attachment it refers to was tracked or served already at that rebuild. */
  lemma LateDownloadExactly(m: Manifest, disk: Disk, history: seq<Render>, scope: Option<PageId>, was: Store,
      now: Store, e: Entry)
    requires history != [] && Agrees(m.files, disk) && e in Expected(history[|history| - 1], scope)
    requires forall sha: Sha :: AssetPath(was, sha) == AssetPath(now, sha)
    requires Served(e, Some(now))
    ensures var d := AfterSeen(m, disk, history[|history| - 1], Setting(scope, Some(now)), history,
      Setting(scope, Some(was)));
      (e.path in d && d[e.path] == FinalContent(e, Some(now))) <==>
      forall sha :: sha in RefsIn(e.body) ==> Usable(was, m.files, sha)
  {
    var head := history[|history| - 1];
    AfterSeenIsIdle(m, disk, head, Setting(scope, Some(now)), history, Setting(scope, Some(was)));
    ExpectedPlaced(head, scope);
    assert e.path in PathsIn(Expected(head, scope));
    PlacedContent(m, disk, Expected(head, scope), Frozen(head.fold, scope), Some(was), e.path);
    ResolvedSame(e, was, now, m.files);
  }

  /** One page with one attachment the first rebuild could not fetch: the reference stays as it was typed. */
  lemma MissedDownloadCase(id: PageId, title: string, sha: Sha, extension: map<Sha, string>, data: seq<Byte>)
    ensures var r := Render(OnePage(id, title), map[id := [Ref(sha)]]);
      var was, now := Store(extension, map[]), Store(extension, map[sha := data]);
      var path := PathOf(id, OnePage(id, title), None);
      var d := AfterSeen(FRESH, map[], r, Setting(None, Some(now)), [r], Setting(None, Some(was)));
      path in d && d[path] == Markdown([Ref(sha)]) && sha in now.bytes
  {
    var r := Render(OnePage(id, title), map[id := [Ref(sha)]]);
    var was, now := Store(extension, map[]), Store(extension, map[sha := data]);
    OnePageExpected(r, id, title);
    AfterSeenIsIdle(FRESH, map[], r, Setting(None, Some(now)), [r], Setting(None, Some(was)));
    ExpectedPlaced(r, None);
    var e := EntryFor(r, None, id);
    PlacedContent(FRESH, map[], Expected(r, None), Frozen(r.fold, None), Some(was), e.path);
    NothingLinked(e, sha, was);
  }

  lemma OnePageExpected(r: Render, id: PageId, title: string)
    requires r.fold == OnePage(id, title)
    ensures EntryFor(r, None, id) in Expected(r, None)
    ensures EntryFor(r, None, id).path in PathsIn(Expected(r, None))
  {
    assert Mirrored(id, r.fold, None);
    PutHolds(ExpectedUpTo(r, None, 0), EntryFor(r, None, id));
    assert r.fold.order[0] == id;
  }

  lemma NothingLinked(e: Entry, sha: Sha, was: Store)
    requires e.body == [Ref(sha)] && was.bytes == map[] && |e.path| > 0
    ensures Resolve(e, Some(was), FRESH.files).body == [Ref(sha)]
  {
  }
}
