/** Whole runs of one mirror: commits, boots, reconciles, crashes between file operations, and edits
    to the folder while the process is down (wiki-mirror/src/mirror.ts:107-160). */
module MirrorRuns {
  import opened Options
  import opened Slugs
  import opened Forest
  import opened Attachments
  import opened PathInjectivity
  import opened Projection
  import opened Reconciliation
  import opened Convergence
  import opened Projector

  /** The fixed surroundings of a run: what is mirrored, and where attachments come from. */
  datatype Setting = Setting(scope: Option<PageId>, store: Option<Store>)

  /** `history[v - 1]` is the fold, with its renders, of the first `v` events. `memory` is the loaded
      manifest while the process is up. */
  datatype World = World(history: seq<Render>, disk: Disk, persisted: Option<Manifest>, memory: Option<Manifest>)

  /** A fold with every chain whole, nothing retired, and every attachment served. */
  ghost predicate Whole(r: Render, s: Setting) {
    && ValidFold(r.fold)
    && Frozen(r.fold, s.scope) == []
    && AllServed(Expected(r, s.scope), s.store)
  }

  function ImageOf(r: Render, s: Setting): Next {
    Image(Expected(r, s.scope), s.store)
  }

  // ----- steps -----

  /** The already-current exit: a nonempty history the loaded manifest claims to have applied. */
  predicate AlreadyCurrent(w: World) {
    w.memory.Some? && w.history != [] && w.memory.value.version >= |w.history|
  }

  function Head(w: World): Render
    requires w.history != []
  {
    w.history[|w.history| - 1]
  }

  /** Any fold may come next: pages of unknown types, broken chains and attachments that are not served. */
  ghost predicate Commit(w: World, w': World) {
    exists r: Render :: ValidFold(r.fold) && w' == w.(history := w.history + [r])
  }

  ghost predicate Boot(w: World, w': World, s: Setting) {
    w' == w.(memory := Some(BootManifest(w.persisted, w.disk, s.scope)))
  }

  /** The world after a rebuild to the head. */
  function Rebuilt(w: World, s: Setting): World
    requires w.memory.Some? && w.history != []
  {
    var m, es, frozen := w.memory.value, Expected(Head(w), s.scope), Frozen(Head(w).fold, s.scope);
    var m' := RebuiltManifest(m, es, frozen, s.store, |w.history|, s.scope);
    World(w.history, RebuiltDisk(m, w.disk, es, frozen, s.store),
          if Fingerprint(m') != Fingerprint(m) then Some(m') else w.persisted, Some(m'))
  }

  predicate Rebuilds(w: World, s: Setting) {
    w.memory.Some? && w.history != [] && !AlreadyCurrent(w) && !ScopeGone(Head(w).fold, s.scope)
  }

  /** A reconcile that runs to its end. */
  function Reconciled(w: World, s: Setting): World {
    if Rebuilds(w, s) then Rebuilt(w, s) else w
  }

  ghost predicate Reconcile(w: World, w': World, s: Setting) {
    w.memory.Some? && w' == Reconciled(w, s)
  }

  /** The process dies after the first `k` operations of a reconcile. */
  ghost predicate CrashAfter(w: World, w': World, s: Setting, ops: seq<Op>, removals: nat, k: nat) {
    && Rebuilds(w, s)
    && var m, es, frozen := w.memory.value, Expected(Head(w), s.scope), Frozen(Head(w).fold, s.scope);
    && Traces(ops, m, Rebuilt(w, s).memory.value, es, frozen, s.store, removals)
    && k <= |ops|
    && w' == World(w.history, ApplyOps(w.disk, ops[..k]),
                   if k == |ops| then Rebuilt(w, s).persisted else w.persisted, None)
  }

  ghost predicate Crash(w: World, w': World, s: Setting) {
    exists ops, removals, k :: CrashAfter(w, w', s, ops, removals, k)
  }

  ghost predicate Stop(w: World, w': World) {
    w' == w.(memory := None)
  }

  /** While the process is down anyone may change the mirrored files, or lose the manifest. */
  ghost predicate Tamper(w: World, w': World) {
    && w.memory.None?
    && exists disk :: w' == w.(disk := disk) || w' == w.(disk := disk, persisted := None)
  }

  ghost predicate Step(w: World, w': World, s: Setting) {
    Commit(w, w') || Boot(w, w', s) || Reconcile(w, w', s) || Crash(w, w', s) || Stop(w, w') || Tamper(w, w')
  }

  /** While the process is down a checkout puts back the manifest of any earlier moment, with any files. */
  ghost predicate Checkout(run: seq<World>, i: nat)
    requires i < |run| - 1
  {
    && run[i].memory.None?
    && exists j, disk :: 0 <= j <= i && run[i + 1] == run[i].(disk := disk, persisted := run[j].persisted)
  }

  /** A folder with no usable manifest, or one written under another layout or scope. */
  ghost predicate Start(w: World, s: Setting) {
    && w.history == [] && w.memory.None?
    && (w.persisted.Some? ==> Foreign(w.persisted.value, s) && Honest(s.store, w.persisted.value.files))
  }

  predicate Foreign(m: Manifest, s: Setting) {
    m.layout != Some(LAYOUT_VERSION) || m.scope != s.scope
  }

  ghost predicate Run(run: seq<World>, s: Setting) {
    && |run| > 0 && Start(run[0], s)
    && forall i :: 0 <= i < |run| - 1 ==> Step(run[i], run[i + 1], s) || Checkout(run, i)
  }

  // ----- what a manifest at a version tracks -----

  /** Every attachment the entry refers to can be downloaded. */
  ghost predicate Served(e: Entry, store: Option<Store>) {
    store.Some? ==> forall sha :: sha in RefsIn(e.body) ==> sha in store.value.bytes
  }

  /** The content an entry comes to once all its attachments are linked. */
  function FinalContent(e: Entry, store: Option<Store>): Content {
    Markdown(Resolve(e, store, FRESH.files).body)
  }

  /** Every expected page whose attachments are served is tracked with its final content. */
  ghost predicate ShowsPages(files: Files, r: Render, s: Setting) {
    forall e :: e in Expected(r, s.scope) && Served(e, s.store) ==> UpToDate(files, e.path, FinalContent(e, s.store))
  }

  /** And when the fold is whole, the manifest tracks its image and nothing else. */
  ghost predicate Shows(files: Files, r: Render, s: Setting) {
    ShowsPages(files, r, s) && (Whole(r, s) ==> files == ImageOf(r, s).files)
  }

  lemma ServedIsFinal(e: Entry, store: Option<Store>, files: Files)
    requires Served(e, store)
    ensures Resolve(e, store, files) == Resolve(e, store, FRESH.files)
  {
    SameUseSameEntry(e, store, files, FRESH.files);
  }

  /** Whatever it starts from and whatever it freezes, a rebuild tracks each served page as it should be. */
  lemma RebuiltShowsPage(m: Manifest, es: seq<Entry>, frozen: seq<PageId>, store: Option<Store>, k: nat)
    requires Placed(es) && k < |es| && Served(es[k], store)
    ensures UpToDate(NextState(m, es, frozen, store).files, es[k].path, FinalContent(es[k], store))
  {
    var resolved := ResolveAll(es, store, m.files);
    assert resolved[k] in resolved;
    ServedIsFinal(es[k], store, m.files);
    PagesUpToDate(m, es, frozen, store);
  }

  lemma RebuiltShows(m: Manifest, r: Render, s: Setting)
    requires Honest(s.store, m.files)
    ensures Shows(NextState(m, Expected(r, s.scope), Frozen(r.fold, s.scope), s.store).files, r, s)
  {
    var es, frozen := Expected(r, s.scope), Frozen(r.fold, s.scope);
    ExpectedPlaced(r, s.scope);
    forall e | e in es && Served(e, s.store)
      ensures UpToDate(NextState(m, es, frozen, s.store).files, e.path, FinalContent(e, s.store))
    {
      var k :| 0 <= k < |es| && es[k] == e;
      RebuiltShowsPage(m, es, frozen, s.store, k);
    }
    if Whole(r, s) {
      FullRebuildIsImage(m, es, s.store);
    }
  }

  // ----- the invariant -----

  /** A manifest that claims a version shows that version. */
  ghost predicate Vouches(m: Manifest, history: seq<Render>, s: Setting) {
    && Honest(s.store, m.files)
    && (m.version > 0 ==> m.version <= |history| && Shows(m.files, history[m.version - 1], s))
  }

  ghost predicate Borne(persisted: Option<Manifest>, history: seq<Render>, s: Setting) {
    persisted.Some? ==>
      Honest(s.store, persisted.value.files) && (!Foreign(persisted.value, s) ==> Vouches(persisted.value, history, s))
  }

  ghost predicate Inv(w: World, s: Setting) {
    && Borne(w.persisted, w.history, s)
    && (w.memory.Some? ==> Vouches(w.memory.value, w.history, s) && Agrees(w.memory.value.files, w.disk))
  }

  /** Boot drops what the disk does not bear out, so what it keeps can be trusted. */
  lemma BootIsTrusted(persisted: Option<Manifest>, disk: Disk, history: seq<Render>, s: Setting)
    requires Borne(persisted, history, s)
    ensures var m := BootManifest(persisted, disk, s.scope); Vouches(m, history, s) && Agrees(m.files, disk)
  {
  }

  /** A rebuild to the head shows the head. */
  lemma RebuiltIsTrusted(w: World, s: Setting)
    requires w.memory.Some? && w.history != []
    requires Honest(s.store, w.memory.value.files) && Agrees(w.memory.value.files, w.disk)
    ensures var w' := Rebuilt(w, s);
      && w'.memory.value.version == |w.history| && Shows(w'.memory.value.files, Head(w), s)
      && Honest(s.store, w'.memory.value.files) && Agrees(w'.memory.value.files, w'.disk)
  {
    var m, es, frozen := w.memory.value, Expected(Head(w), s.scope), Frozen(Head(w).fold, s.scope);
    ExpectedPlaced(Head(w), s.scope);
    RebuiltShows(m, Head(w), s);
    RebuildStaysHonest(m, es, frozen, s.store);
    RebuildIsExact(m, w.disk, es, frozen, s.store);
  }

  lemma RebuiltKeeps(w: World, s: Setting)
    requires Inv(w, s) && w.memory.Some? && w.history != []
    ensures Inv(Rebuilt(w, s), s)
  {
    RebuiltIsTrusted(w, s);
    AdoptedKeeps(w, Rebuilt(w, s), s);
  }

  lemma AdoptedKeeps(w: World, w': World, s: Setting)
    requires Inv(w, s) && w'.history == w.history != [] && w'.memory.Some?
    requires w'.persisted == w.persisted || w'.persisted == w'.memory
    requires w'.memory.value.version == |w.history| && Shows(w'.memory.value.files, Head(w), s)
    requires Honest(s.store, w'.memory.value.files) && Agrees(w'.memory.value.files, w'.disk)
    ensures Inv(w', s)
  {
    AdoptVouches(w'.memory.value, w.history, s);
  }

  lemma AdoptVouches(m: Manifest, history: seq<Render>, s: Setting)
    requires history != [] && m.version == |history|
    requires Shows(m.files, history[|history| - 1], s) && Honest(s.store, m.files)
    ensures Vouches(m, history, s)
  {
    assert history[m.version - 1] == history[|history| - 1];
  }

  lemma CrashKeeps(w: World, w': World, s: Setting)
    requires Inv(w, s) && Crash(w, w', s)
    ensures Inv(w', s)
  {
    RebuiltKeeps(w, s);
    assert w'.history == w.history && w'.memory.None?;
    assert w'.persisted == w.persisted || w'.persisted == Rebuilt(w, s).persisted;
  }

  /** Trust in a manifest outlives every later commit. */
  lemma TrustGrows(m: Manifest, history: seq<Render>, later: seq<Render>, s: Setting)
    requires history <= later && Vouches(m, history, s)
    ensures Vouches(m, later, s)
  {
  }

  lemma BorneGrows(persisted: Option<Manifest>, history: seq<Render>, later: seq<Render>, s: Setting)
    requires history <= later && Borne(persisted, history, s)
    ensures Borne(persisted, later, s)
  {
    if persisted.Some? && !Foreign(persisted.value, s) {
      TrustGrows(persisted.value, history, later, s);
    }
  }

  lemma CommitKeeps(w: World, w': World, s: Setting)
    requires Inv(w, s) && Commit(w, w')
    ensures Inv(w', s)
  {
    BorneGrows(w.persisted, w.history, w'.history, s);
    if w.memory.Some? {
      TrustGrows(w.memory.value, w.history, w'.history, s);
    }
  }

  lemma StepKeeps(w: World, w': World, s: Setting)
    ensures Inv(w, s) && Step(w, w', s) ==> Inv(w', s)
  {
    if Inv(w, s) && Step(w, w', s) {
      if Boot(w, w', s) {
        BootIsTrusted(w.persisted, w.disk, w.history, s);
      } else if Reconcile(w, w', s) {
        if Rebuilds(w, s) {
          RebuiltKeeps(w, s);
        }
      } else if Crash(w, w', s) {
        CrashKeeps(w, w', s);
      } else if Commit(w, w') {
        CommitKeeps(w, w', s);
      } else if Tamper(w, w') {
      } else {
        assert Stop(w, w');
      }
    }
  }

  lemma StepGrows(w: World, w': World, s: Setting)
    ensures Step(w, w', s) ==> w.history <= w'.history
  {
  }

  lemma {:induction false} HistoryGrows(run: seq<World>, s: Setting, i: nat, j: nat)
    requires Run(run, s) && i <= j < |run|
    ensures run[i].history <= run[j].history
  {
    if i < j {
      HistoryGrows(run, s, i, j - 1);
      StepGrows(run[j - 1], run[j], s);
    }
  }

  lemma {:induction false} RunKeeps(run: seq<World>, s: Setting, n: nat)
    requires Run(run, s) && n < |run|
    ensures Inv(run[n], s)
  {
    if n > 0 {
      RunKeeps(run, s, n - 1);
      StepKeeps(run[n - 1], run[n], s);
      if Checkout(run, n - 1) {
        var j, disk :| 0 <= j <= n - 1 && run[n] == run[n - 1].(disk := disk, persisted := run[j].persisted);
        RunKeeps(run, s, j);
        HistoryGrows(run, s, j, n - 1);
        BorneGrows(run[j].persisted, run[j].history, run[n].history, s);
      }
    }
  }

  // ----- the shortcut is sound -----

  /** A manifest that claims the head shows the head. */
  lemma CurrentShowsHead(w: World, s: Setting)
    requires Inv(w, s) && AlreadyCurrent(w)
    ensures Shows(w.memory.value.files, Head(w), s) && Agrees(w.memory.value.files, w.disk)
  {
    HeadIsShown(w.memory.value, w.history, s);
  }

  lemma HeadIsShown(m: Manifest, history: seq<Render>, s: Setting)
    requires Vouches(m, history, s) && history != [] && m.version >= |history|
    ensures Shows(m.files, history[|history| - 1], s)
  {
    assert history[m.version - 1] == history[|history| - 1];
  }

  /** In every run, whenever a reconcile takes its already-current exit and the head folds whole, the
      head's image is on disk, byte for byte, and nothing outside it is tracked. */
  lemma ShortcutIsSound(run: seq<World>, s: Setting, n: nat)
    requires Run(run, s) && n < |run| && AlreadyCurrent(run[n]) && Whole(Head(run[n]), s)
    ensures run[n].memory.value.files == ImageOf(Head(run[n]), s).files
    ensures Agrees(ImageOf(Head(run[n]), s).files, run[n].disk)
  {
    RunKeeps(run, s, n);
    CurrentShowsHead(run[n], s);
  }

  /** The page is at its path with its final body. */
  ghost predicate OnDisk(disk: Disk, r: Render, s: Setting, id: PageId)
    requires id in r.fold.pages
  {
    var path := PathOf(id, r.fold, s.scope);
    path in disk && disk[path] == Markdown(FinalBody(r, s.scope, s.store, FRESH.files, id))
  }

  lemma ShownPage(files: Files, disk: Disk, r: Render, s: Setting, id: PageId)
    requires ShowsPages(files, r, s) && Agrees(files, disk)
    requires ValidFold(r.fold) && PathsDiffer(r.fold, s.scope) && Mirrored(id, r.fold, s.scope)
    requires Served(EntryFor(r, s.scope, id), s.store)
    ensures OnDisk(disk, r, s, id)
  {
    assert r.fold.order[..|r.fold.order|] == r.fold.order;
    MirroredAreExpected(r, s.scope, |r.fold.order|, id);
  }

  /** In terms of pages, whatever is frozen and whatever attachments other pages miss: in every run, when
      the exit is taken, every page the head mirrors is at its path with its final body, if its own
      attachments are served. */
  lemma ShortcutPages(run: seq<World>, s: Setting, n: nat, id: PageId)
    requires Run(run, s) && n < |run| && AlreadyCurrent(run[n])
    requires var r := Head(run[n]);
      PathsDiffer(r.fold, s.scope) && Mirrored(id, r.fold, s.scope) && Served(EntryFor(r, s.scope, id), s.store)
    ensures OnDisk(run[n].disk, Head(run[n]), s, id)
  {
    RunKeeps(run, s, n);
    HistoryIsValid(run, s, n);
    CurrentShowsHead(run[n], s);
    ShownPage(run[n].memory.value.files, run[n].disk, Head(run[n]), s, id);
  }

  ghost predicate AllValid(history: seq<Render>) {
    forall r :: r in history ==> ValidFold(r.fold)
  }

  lemma StepStaysValid(w: World, w': World, s: Setting)
    requires AllValid(w.history)
    ensures Step(w, w', s) ==> AllValid(w'.history)
  {
  }

  lemma {:induction false} HistoryIsValid(run: seq<World>, s: Setting, n: nat)
    requires Run(run, s) && n < |run|
    ensures AllValid(run[n].history)
  {
    if n > 0 {
      var last: nat := n - 1;
      HistoryIsValid(run, s, last);
      StepStaysValid(run[last], run[last + 1], s);
    }
  }

  /** The world after one boot and one reconcile. */
  function Healed(w: World, s: Setting): World {
    Reconciled(w.(memory := Some(BootManifest(w.persisted, w.disk, s.scope))), s)
  }

  lemma UpAndReconciled(up: World, s: Setting)
    requires Inv(up, s) && up.memory.Some? && up.history != [] && !ScopeGone(Head(up).fold, s.scope)
    ensures var w := Reconciled(up, s);
      w.memory.Some? && Shows(w.memory.value.files, Head(up), s) && Agrees(w.memory.value.files, w.disk)
  {
    if AlreadyCurrent(up) {
      CurrentShowsHead(up, s);
    } else {
      RebuiltIsTrusted(up, s);
    }
  }

  /** Self-heal: from any state a run can reach, however the folder was left, one boot and one
      reconcile show the head (when the subtree root is there): each served page at its path with its
      final body, and the whole image when the head folds whole. */
  lemma BootAndReconcileHeal(run: seq<World>, s: Setting, n: nat)
    requires Run(run, s) && n < |run|
    requires run[n].history != [] && !ScopeGone(Head(run[n]).fold, s.scope)
    ensures var w := Healed(run[n], s);
      && w.memory.Some? && Agrees(w.memory.value.files, w.disk)
      && (Whole(Head(run[n]), s) ==> w.memory.value.files == ImageOf(Head(run[n]), s).files)
      && (PathsDiffer(Head(run[n]).fold, s.scope) ==>
            forall id ::
              Mirrored(id, Head(run[n]).fold, s.scope) && Served(EntryFor(Head(run[n]), s.scope, id), s.store) ==>
              OnDisk(w.disk, Head(run[n]), s, id))
  {
    RunKeeps(run, s, n);
    HistoryIsValid(run, s, n);
    BootIsTrusted(run[n].persisted, run[n].disk, run[n].history, s);
    UpAndReconciled(run[n].(memory := Some(BootManifest(run[n].persisted, run[n].disk, s.scope))), s);
    var w, r := Healed(run[n], s), Head(run[n]);
    forall id |
      PathsDiffer(r.fold, s.scope) && Mirrored(id, r.fold, s.scope) && Served(EntryFor(r, s.scope, id), s.store)
      ensures OnDisk(w.disk, r, s, id)
    {
      ShownPage(w.memory.value.files, w.disk, r, s, id);
    }
  }
}
