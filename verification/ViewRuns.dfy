/** Runs whose boots see the workspace differently: each process folds the history with the page types it
    knows, serves the attachments it can reach, and may mirror another subtree
    (wiki-mirror/src/mirror.ts:107-160). What a manifest shows is what some earlier process saw. */
module ViewRuns {
  import opened Options
  import opened Slugs
  import opened Attachments
  import opened Projection
  import opened Reconciliation
  import opened Convergence
  import opened MirrorRuns

  /** The world, its history folded as the present process folds it, and what that process serves. */
  datatype Host = Host(world: World, setting: Setting)

  /** The endpoint serves part of the universe `u` of attachments, whose bytes never change. */
  ghost predicate Within(store: Option<Store>, u: Store) {
    store.Some? ==>
      && store.value.extension == u.extension
      && forall sha :: sha in store.value.bytes ==> sha in u.bytes && u.bytes[sha] == store.value.bytes[sha]
  }

  /** A boot, in a process that may see every fold so far, and the attachments, in another way. */
  ghost predicate Reboot(h: Host, h': Host, u: Store) {
    && Within(h'.setting.store, u) && AllValid(h'.world.history)
    && |h'.world.history| == |h.world.history|
    && Boot(h.world.(history := h'.world.history), h'.world, h'.setting)
  }

  /** What happens within one process, or with none up. */
  ghost predicate Goes(w: World, w': World, s: Setting) {
    Commit(w, w') || Reconcile(w, w', s) || Crash(w, w', s) || Stop(w, w') || Tamper(w, w')
  }

  /** While no process is up, a checkout puts back the manifest of an earlier moment, with any files. */
  ghost predicate PutBack(run: seq<Host>, i: nat)
    requires i < |run| - 1
  {
    && run[i].world.memory.None? && run[i + 1].setting == run[i].setting
    && exists j, disk ::
         0 <= j <= i && run[i + 1].world == run[i].world.(disk := disk, persisted := run[j].world.persisted)
  }

  ghost predicate Moves(run: seq<Host>, i: nat, u: Store)
    requires i < |run| - 1
  {
    var h, h' := run[i], run[i + 1];
    (h'.setting == h.setting && Goes(h.world, h'.world, h.setting)) || Reboot(h, h', u) || PutBack(run, i)
  }

  /** No manifest, or one of another layout, or one that claims nothing. */
  ghost predicate Begins(h: Host, u: Store) {
    && h.world.history == [] && h.world.memory.None? && Within(h.setting.store, u)
    && (h.world.persisted.Some? ==>
      var m := h.world.persisted.value;
      Honest(Some(u), m.files) && (m.layout != Some(LAYOUT_VERSION) || m.version == 0))
  }

  ghost predicate Views(run: seq<Host>, u: Store) {
    |run| > 0 && Begins(run[0], u) && forall i :: 0 <= i < |run| - 1 ==> Moves(run, i, u)
  }

  // ----- what a manifest shows -----

  /** The manifest shows the version it claims as the process of this moment sees it. */
  ghost predicate ShownTo(m: Manifest, h: Host) {
    && m.scope == h.setting.scope && 0 < m.version <= |h.world.history|
    && Shows(m.files, h.world.history[m.version - 1], h.setting)
  }

  ghost predicate ShownAt(m: Manifest, run: seq<Host>, j: int) {
    0 <= j < |run| && ShownTo(m, run[j])
  }

  /** What the manifest claims, it shows as some process so far saw it, and its assets are genuine. */
  ghost predicate Witnessed(m: Manifest, run: seq<Host>, n: int, u: Store) {
    && Honest(Some(u), m.files)
    && (m.layout == Some(LAYOUT_VERSION) && m.version > 0 ==> exists j :: j <= n && ShownAt(m, run, j))
  }

  ghost predicate Kept(run: seq<Host>, n: nat, u: Store)
    requires n < |run|
  {
    var h, w := run[n], run[n].world;
    && Within(h.setting.store, u) && AllValid(w.history)
    && (w.persisted.Some? ==> Witnessed(w.persisted.value, run, n, u))
    && (w.memory.Some? ==>
      && Witnessed(w.memory.value, run, n, u) && Agrees(w.memory.value.files, w.disk)
      && (w.memory.value.version > 0 ==> !Foreign(w.memory.value, h.setting)))
  }

  // ----- every step keeps it -----

  lemma WithinIsHonest(store: Option<Store>, u: Store, files: Files)
    requires Within(store, u) && Honest(Some(u), files)
    ensures Honest(store, files)
  {
    if store.Some? {
      forall sha: Sha ensures AssetPath(store.value, sha) == AssetPath(u, sha) {}
    }
  }

  /** A rebuild that downloads from part of the universe tracks genuine assets only. */
  lemma RebuildStaysGenuine(m: Manifest, es: seq<Entry>, frozen: seq<PageId>, store: Option<Store>, u: Store)
    requires Placed(es) && Within(store, u) && Honest(Some(u), m.files)
    ensures Honest(Some(u), NextState(m, es, frozen, store).files)
  {
    var resolved := ResolveAll(es, store, m.files);
    ResolvedPlaced(es, store, m.files);
    PageHashesExactly(resolved);
    forall sha: Sha | AssetPath(u, sha) in NextState(m, es, frozen, store).files && sha in u.bytes
      ensures NextState(m, es, frozen, store).files[AssetPath(u, sha)] == Sha256(Blob(u.bytes[sha]))
    {
      var p := AssetPath(u, sha);
      TrackedExactly(m, es, frozen, store, p);
      GenuineDownload(es, store, u, m.files, sha);
    }
  }

  lemma GenuineDownload(es: seq<Entry>, store: Option<Store>, u: Store, files: Files, sha: Sha)
    requires Within(store, u) && sha in u.bytes
    ensures var d, p := Downloads(es, store, files), AssetPath(u, sha); p in d ==> d[p] == Blob(u.bytes[sha])
  {
    var p := AssetPath(u, sha);
    if store.Some? && p in Downloads(es, store, files) {
      assert p == AssetPath(store.value, sha);
      DownloadsExactly(es, store.value, files, p);
      var e, s :| e in es && s in RefsIn(e.body) && Fresh(store.value, files, s) && p == AssetPath(store.value, s);
      AssetPathsDiffer(store.value, s, sha);
    }
  }

  lemma WitnessedLater(m: Manifest, run: seq<Host>, n: int, later: int, u: Store)
    requires Witnessed(m, run, n, u) && n <= later
    ensures Witnessed(m, run, later, u)
  {
  }

  lemma RebuiltIsGenuine(h: Host, u: Store)
    requires Rebuilds(h.world, h.setting) && Within(h.setting.store, u)
    requires Honest(Some(u), h.world.memory.value.files)
    ensures Honest(Some(u), Rebuilt(h.world, h.setting).memory.value.files)
  {
    var r, s := Head(h.world), h.setting;
    ExpectedPlaced(r, s.scope);
    RebuildStaysGenuine(h.world.memory.value, Expected(r, s.scope), Frozen(r.fold, s.scope), s.store, u);
  }

  lemma HeadIsShownTo(m: Manifest, h: Host)
    requires h.world.history != [] && m.scope == h.setting.scope && m.version == |h.world.history|
    requires Shows(m.files, Head(h.world), h.setting)
    ensures ShownTo(m, h)
  {
  }

  /** What a rebuild records is shown to the process that rebuilt. */
  lemma RebuiltIsShown(h: Host, u: Store)
    requires Rebuilds(h.world, h.setting) && Within(h.setting.store, u)
    requires Honest(Some(u), h.world.memory.value.files) && Agrees(h.world.memory.value.files, h.world.disk)
    ensures var w := Rebuilt(h.world, h.setting);
      && w.history == h.world.history && w.memory.Some? && !Foreign(w.memory.value, h.setting)
      && ShownTo(w.memory.value, h) && Honest(Some(u), w.memory.value.files) && Agrees(w.memory.value.files, w.disk)
      && (w.persisted == h.world.persisted || w.persisted == w.memory)
  {
    WithinIsHonest(h.setting.store, u, h.world.memory.value.files);
    RebuiltIsTrusted(h.world, h.setting);
    RebuiltIsGenuine(h, u);
    HeadIsShownTo(Rebuilt(h.world, h.setting).memory.value, h);
  }

  lemma ShownIsWitnessed(m: Manifest, run: seq<Host>, n: nat, u: Store)
    requires n < |run| && ShownTo(m, run[n]) && Honest(Some(u), m.files)
    ensures Witnessed(m, run, n, u)
  {
    assert ShownAt(m, run, n);
  }

  lemma ReconcileKeeps(run: seq<Host>, n: nat, u: Store)
    requires n + 1 < |run| && Kept(run, n, u) && run[n + 1].setting == run[n].setting
    requires Rebuilds(run[n].world, run[n].setting) && run[n + 1].world == Rebuilt(run[n].world, run[n].setting)
    ensures Kept(run, n + 1, u)
  {
    RebuiltIsShown(run[n], u);
    ShownIsWitnessed(run[n + 1].world.memory.value, run, n + 1, u);
    if run[n].world.persisted.Some? {
      WitnessedLater(run[n].world.persisted.value, run, n, n + 1, u);
    }
  }

  lemma CrashedKeeps(run: seq<Host>, n: nat, u: Store)
    requires n + 1 < |run| && Kept(run, n, u) && run[n + 1].setting == run[n].setting
    requires Crash(run[n].world, run[n + 1].world, run[n].setting)
    ensures Kept(run, n + 1, u)
  {
    RebuiltIsShown(run[n], u);
    ShownIsWitnessed(Rebuilt(run[n].world, run[n].setting).memory.value, run, n, u);
    var w' := run[n + 1].world;
    assert w'.history == run[n].world.history && w'.memory.None?;
    assert w'.persisted == run[n].world.persisted ||
      w'.persisted == Rebuilt(run[n].world, run[n].setting).persisted;
    if w'.persisted.Some? {
      WitnessedLater(w'.persisted.value, run, n, n + 1, u);
    }
  }

  lemma RebootKeeps(run: seq<Host>, n: nat, u: Store)
    requires n + 1 < |run| && Kept(run, n, u) && Reboot(run[n], run[n + 1], u)
    ensures Kept(run, n + 1, u)
  {
    if run[n].world.persisted.Some? {
      WitnessedLater(run[n].world.persisted.value, run, n, n + 1, u);
    }
  }

  /** Steps that leave manifest and memory alone, or drop them. */
  lemma QuietKeeps(run: seq<Host>, n: nat, u: Store)
    requires n + 1 < |run| && Kept(run, n, u) && run[n + 1].setting == run[n].setting
    requires AllValid(run[n + 1].world.history)
    requires var w, w' := run[n].world, run[n + 1].world;
      && (w'.persisted == w.persisted || w'.persisted.None?)
      && (w'.memory.None? || (w'.memory == w.memory && w'.disk == w.disk))
    ensures Kept(run, n + 1, u)
  {
    if run[n].world.persisted.Some? {
      WitnessedLater(run[n].world.persisted.value, run, n, n + 1, u);
    }
    if run[n].world.memory.Some? {
      WitnessedLater(run[n].world.memory.value, run, n, n + 1, u);
    }
  }

  lemma GoesKeeps(run: seq<Host>, n: nat, u: Store)
    requires n + 1 < |run| && Kept(run, n, u) && run[n + 1].setting == run[n].setting
    requires Goes(run[n].world, run[n + 1].world, run[n].setting)
    ensures Kept(run, n + 1, u)
  {
    var w, w', s := run[n].world, run[n + 1].world, run[n].setting;
    if Crash(w, w', s) {
      CrashedKeeps(run, n, u);
    } else if Reconcile(w, w', s) && Rebuilds(w, s) {
      ReconcileKeeps(run, n, u);
    } else {
      QuietKeeps(run, n, u);
    }
  }

  /** In every run, however differently its processes saw the workspace: a manifest that claims a version
      shows it as some process so far saw it. */
  lemma {:induction false} ViewsKeep(run: seq<Host>, u: Store, n: nat)
    requires Views(run, u) && n < |run|
    ensures Kept(run, n, u)
  {
    if n > 0 {
      var last: nat := n - 1;
      ViewsKeep(run, u, last);
      assert Moves(run, last, u);
      if PutBack(run, last) {
        var j, disk :|
          0 <= j <= last && run[n].world == run[last].world.(disk := disk, persisted := run[j].world.persisted);
        ViewsKeep(run, u, j);
        PutBackKeeps(run, last, j, u);
      } else if Reboot(run[last], run[n], u) {
        RebootKeeps(run, last, u);
      } else {
        GoesKeeps(run, last, u);
      }
    }
  }

  lemma PutBackKeeps(run: seq<Host>, n: nat, j: nat, u: Store)
    requires j <= n && n + 1 < |run| && Kept(run, n, u) && Kept(run, j, u) && run[n].world.memory.None?
    requires run[n + 1].setting == run[n].setting
    requires var w, w' := run[n].world, run[n + 1].world;
      w'.persisted == run[j].world.persisted && w'.memory.None? && w'.history == w.history
    ensures Kept(run, n + 1, u)
  {
    if run[j].world.persisted.Some? {
      WitnessedLater(run[j].world.persisted.value, run, j, n + 1, u);
    }
  }

  // ----- the exit and the next rebuild -----

  lemma {:induction false} LengthsGrow(run: seq<Host>, u: Store, i: nat, j: nat)
    requires Views(run, u) && i <= j < |run|
    ensures |run[i].world.history| <= |run[j].world.history|
  {
    if i < j {
      var last: nat := j - 1;
      LengthsGrow(run, u, i, last);
      assert Moves(run, last, u);
    }
  }

  lemma SomeView(m: Manifest, run: seq<Host>, n: nat, u: Store) returns (j: nat)
    requires Witnessed(m, run, n, u) && m.layout == Some(LAYOUT_VERSION) && m.version > 0 && n < |run|
    ensures j <= n && ShownTo(m, run[j])
  {
    var i :| i <= n && ShownAt(m, run, i);
    j := i;
  }

  lemma HeadShownTo(m: Manifest, h: Host, length: nat)
    requires ShownTo(m, h) && m.version >= length >= |h.world.history|
    ensures |h.world.history| == length && Shows(m.files, Head(h.world), h.setting)
  {
    assert h.world.history[m.version - 1] == Head(h.world);
  }

  /** Whenever the already-current exit is taken, what is tracked and on disk is the head as some process so
      far saw it, under the same scope. */
  lemma ExitShowsSomeView(run: seq<Host>, u: Store, n: nat) returns (j: nat)
    requires Views(run, u) && n < |run| && AlreadyCurrent(run[n].world)
    ensures j <= n && run[j].setting.scope == run[n].setting.scope
    ensures |run[j].world.history| == |run[n].world.history|
    ensures Shows(run[n].world.memory.value.files, Head(run[j].world), run[j].setting)
    ensures Agrees(run[n].world.memory.value.files, run[n].world.disk)
  {
    ViewsKeep(run, u, n);
    var m := run[n].world.memory.value;
    j := SomeView(m, run, n, u);
    LengthsGrow(run, u, j, n);
    HeadShownTo(m, run[j], |run[n].world.history|);
  }

  /** So at the exit a page is right, as the present process sees it, if and only if that earlier process saw
      the same final content for the path, wherever it saw a page whose attachments it served. */
  lemma ExitPageExactly(run: seq<Host>, u: Store, n: nat) returns (j: nat)
    requires Views(run, u) && n < |run| && AlreadyCurrent(run[n].world)
    ensures j <= n && |run[j].world.history| == |run[n].world.history| > 0
    ensures var now, past, d := run[n], run[j], run[n].world.disk;
      forall e, seen ::
        e in Expected(Head(now.world), now.setting.scope) && seen in Expected(Head(past.world), past.setting.scope)
        && Served(seen, past.setting.store) && seen.path == e.path ==>
        (e.path in d && d[e.path] == FinalContent(e, now.setting.store) <==>
         FinalContent(e, now.setting.store) == FinalContent(seen, past.setting.store))
  {
    j := ExitShowsSomeView(run, u, n);
  }

  /** A reconcile that rebuilds shows the head as the present process sees it, whatever was shown before. */
  lemma RebuildShowsThisView(run: seq<Host>, u: Store, n: nat)
    requires Views(run, u) && n < |run| && Rebuilds(run[n].world, run[n].setting)
    ensures var w := Rebuilt(run[n].world, run[n].setting);
      Shows(w.memory.value.files, Head(run[n].world), run[n].setting) && Agrees(w.memory.value.files, w.disk)
  {
    ViewsKeep(run, u, n);
    WithinIsHonest(run[n].setting.store, u, run[n].world.memory.value.files);
    RebuiltIsTrusted(run[n].world, run[n].setting);
  }
}
