/** Files left on disk that no manifest tracks: which runs leave them, and when they go. */
module StrayFiles {
  import opened Options
  import opened Slugs
  import opened Forest
  import opened Attachments
  import opened Projection
  import opened Reconciliation
  import opened Projector
  import opened CrashSafety
  import opened MirrorRuns

  /** What a boot would load now. */
  function Known(w: World, s: Setting): Files {
    BootManifest(w.persisted, w.disk, s.scope).files
  }

  predicate Stray(w: World, s: Setting, p: Path) {
    p in w.disk && p !in Known(w, s)
  }

  /** The process tracks exactly what a boot would load. */
  ghost predicate Synced(w: World, s: Setting) {
    w.memory.Some? ==> w.memory.value.files == Known(w, s)
  }

  lemma KnownIsVerified(w: World, s: Setting)
    ensures Known(w, s) == if w.persisted.None? then FRESH.files else Verified(w.persisted.value.files, w.disk)
  {
  }

  lemma AgreedIsVerified(files: Files, disk: Disk)
    requires Agrees(files, disk)
    ensures Verified(files, disk) == files
  {
  }

  /** A manifest not saved because nothing changed: the saved one still says the same. */
  lemma UnsavedStaysVerified(saved: Files, files: Files, disk: Disk, disk': Disk)
    requires files == Verified(saved, disk) && Agrees(files, disk')
    requires forall p :: p !in files ==> SameAt(disk', disk, p)
    ensures Verified(saved, disk') == files
  {
    forall p | p in saved ensures p in Verified(saved, disk') <==> p in files {
      if p !in files {
        assert SameAt(disk', disk, p);
      }
    }
  }

  lemma RebuiltUntouched(w: World, s: Setting, p: Path)
    requires Inv(w, s) && w.memory.Some? && w.history != []
    ensures var w' := Rebuilt(w, s);
      p !in w.memory.value.files && p !in w'.memory.value.files ==> SameAt(w'.disk, w.disk, p)
  {
    var m, es, frozen := w.memory.value, Expected(Head(w), s.scope), Frozen(Head(w).fold, s.scope);
    ExpectedPlaced(Head(w), s.scope);
    TrackedExactly(m, es, frozen, s.store, p);
    RebuildIsExact(m, w.disk, es, frozen, s.store);
  }

  lemma RebuiltIsSynced(w: World, s: Setting)
    requires Inv(w, s) && Synced(w, s) && Rebuilds(w, s)
    ensures Synced(Rebuilt(w, s), s)
  {
    var w' := Rebuilt(w, s);
    RebuiltIsTrusted(w, s);
    KnownIsVerified(w, s);
    KnownIsVerified(w', s);
    if w'.persisted == w'.memory {
      AgreedIsVerified(w'.memory.value.files, w'.disk);
    } else {
      assert Fingerprint(w'.memory.value) == Fingerprint(w.memory.value);
      assert Fingerprint(w'.memory.value).files == Fingerprint(w.memory.value).files;
      forall p | p !in w.memory.value.files ensures SameAt(w'.disk, w.disk, p) {
        RebuiltUntouched(w, s, p);
      }
      if w.persisted.Some? {
        UnsavedStaysVerified(w.persisted.value.files, w.memory.value.files, w.disk, w'.disk);
      }
    }
  }

  lemma StepStaysSynced(w: World, w': World, s: Setting)
    requires Inv(w, s) && Synced(w, s)
    ensures Step(w, w', s) ==> Synced(w', s)
  {
    if Step(w, w', s) {
      if Reconcile(w, w', s) {
        if Rebuilds(w, s) {
          RebuiltIsSynced(w, s);
        }
      } else if w'.memory.Some? {
        assert Commit(w, w') || Boot(w, w', s);
      }
    }
  }

  /** In every run the process tracks exactly what a boot would load. */
  lemma {:induction false} RunStaysSynced(run: seq<World>, s: Setting, n: nat)
    requires Run(run, s) && n < |run|
    ensures Synced(run[n], s)
  {
    if n > 0 {
      var last: nat := n - 1;
      RunStaysSynced(run, s, last);
      RunKeeps(run, s, last);
      StepStaysSynced(run[last], run[last + 1], s);
    }
  }

  // ----- one step -----

  /** No page of the head is at `p` or refers to it. */
  ghost predicate Ignores(w: World, s: Setting, p: Path)
    requires w.memory.Some? && w.history != []
  {
    p !in PathsIn(Expected(Head(w), s.scope)) && !Wanted(p, Expected(Head(w), s.scope), s.store, w.memory.value.files)
  }

  lemma NotTracked(m: Manifest, es: seq<Entry>, store: Option<Store>, p: Path)
    requires Placed(es) && p !in m.files && p !in PathsIn(es) && !Wanted(p, es, store, m.files)
    ensures p !in TrackedAfterWrites(m, es, store)
  {
    if p in Downloads(es, store, m.files) {
      DownloadIsWanted(es, store.value, m.files, p);
    }
    ResolvedPlaced(es, store, m.files);
    PageHashesExactly(ResolveAll(es, store, m.files));
  }

  lemma UntrackedExactly(m: Manifest, disk: Disk, es: seq<Entry>, frozen: seq<PageId>, store: Option<Store>, p: Path)
    requires Placed(es) && Agrees(m.files, disk)
    ensures var d, next := RebuiltDisk(m, disk, es, frozen, store), NextState(m, es, frozen, store).files;
      && (p in d && p !in next <==> p in disk && p !in m.files && p !in PathsIn(es) && !Wanted(p, es, store, m.files))
      && (p in d && p !in next ==> SameAt(d, disk, p))
  {
    RebuildIsExact(m, disk, es, frozen, store);
    TrackedExactly(m, es, frozen, store, p);
    if p !in m.files && p !in PathsIn(es) && !Wanted(p, es, store, m.files) {
      NotTracked(m, es, store, p);
    }
  }

  /** A rebuild leaves a stray file exactly where there was one that no page expects or refers to. */
  lemma RebuiltStrayExactly(w: World, s: Setting, p: Path)
    requires Inv(w, s) && Synced(w, s) && Rebuilds(w, s)
    ensures Stray(Rebuilt(w, s), s, p) <==> Stray(w, s, p) && Ignores(w, s, p)
    ensures Stray(Rebuilt(w, s), s, p) ==> SameAt(Rebuilt(w, s).disk, w.disk, p)
  {
    RebuiltIsSynced(w, s);
    ExpectedPlaced(Head(w), s.scope);
    UntrackedExactly(w.memory.value, w.disk, Expected(Head(w), s.scope), Frozen(Head(w).fold, s.scope), s.store, p);
  }

  // ----- a crash -----

  /** The process died before the end of a reconcile that had written what is at `p` now. */
  ghost predicate WroteAndDied(w: World, w': World, s: Setting, p: Path) {
    exists ops, removals, k :: WroteAndDiedAfter(w, w', s, p, ops, removals, k)
  }

  ghost predicate WroteAndDiedAfter(w: World, w': World, s: Setting, p: Path, ops: seq<Op>, removals: nat, k: nat) {
    CrashAfter(w, w', s, ops, removals, k) && k < |ops| && p in w'.disk && Write(p, w'.disk[p]) in ops[..k]
  }

  /** A reconcile that dies after its last operation has done everything. */
  lemma DiedAtTheEnd(w: World, w': World, s: Setting, ops: seq<Op>, removals: nat, k: nat)
    requires CrashAfter(w, w', s, ops, removals, k) && k == |ops|
    ensures w' == Rebuilt(w, s).(memory := None)
  {
    var m, es, frozen := w.memory.value, Expected(Head(w), s.scope), Frozen(Head(w).fold, s.scope);
    ExpectedPlaced(Head(w), s.scope);
    RebuildWritesReplay(m, w.disk, es, s.store);
    RebuildWritesLand(m, w.disk, es, s.store);
    WholeTraceReplays(w.disk, ops, RebuildWrites(m, es, s.store), removals, Orphans(m, es, frozen, s.store),
      WrittenDisk(m, w.disk, es, s.store));
    assert ops[..k] == ops;
  }

  /** A crash leaves a new stray file only where the dying reconcile had written one. */
  lemma CrashStray(w: World, w': World, s: Setting, p: Path)
    requires Inv(w, s) && Synced(w, s) && Crash(w, w', s) && Stray(w', s, p)
    ensures Stray(w, s, p) || WroteAndDied(w, w', s, p)
  {
    var ops: seq<Op>, removals: nat, k: nat :| CrashAfter(w, w', s, ops, removals, k);
    if k == |ops| {
      DiedAtTheEnd(w, w', s, ops, removals, k);
      RebuiltStrayExactly(w, s, p);
    } else {
      ChangedIsWritten(w.disk, ops[..k], p);
      if SameAt(w'.disk, w.disk, p) {
        SameBytesSameKnown(w, w', s, p);
      } else {
        assert WroteAndDiedAfter(w, w', s, p, ops, removals, k);
      }
    }
  }

  lemma SameBytesSameKnown(w: World, w': World, s: Setting, p: Path)
    requires w'.persisted == w.persisted && SameAt(w'.disk, w.disk, p)
    ensures Stray(w', s, p) <==> Stray(w, s, p)
  {
    KnownIsVerified(w, s);
    KnownIsVerified(w', s);
  }

  lemma StepStray(w: World, w': World, s: Setting, p: Path)
    requires Inv(w, s) && Synced(w, s) && UndisturbedStep(w, w', s) && Stray(w', s, p)
    ensures Stray(w, s, p) || WroteAndDied(w, w', s, p)
  {
    if Crash(w, w', s) {
      CrashStray(w, w', s, p);
    } else if Reconcile(w, w', s) && Rebuilds(w, s) {
      RebuiltStrayExactly(w, s, p);
    } else {
      assert w'.persisted == w.persisted && w'.disk == w.disk;
    }
  }

  /** A step of the mirror itself: no edit from outside. */
  ghost predicate UndisturbedStep(w: World, w': World, s: Setting) {
    Commit(w, w') || Boot(w, w', s) || Reconcile(w, w', s) || Crash(w, w', s) || Stop(w, w')
  }

  ghost predicate Undisturbed(run: seq<World>, s: Setting, k: int) {
    0 <= k < |run| - 1 && UndisturbedStep(run[k], run[k + 1], s)
  }

  lemma StepAtStray(run: seq<World>, s: Setting, k: nat, p: Path)
    requires Run(run, s) && Undisturbed(run, s, k) && Stray(run[k + 1], s, p)
    ensures Stray(run[k], s, p) || WroteAndDied(run[k], run[k + 1], s, p)
  {
    RunKeeps(run, s, k);
    RunStaysSynced(run, s, k);
    StepStray(run[k], run[k + 1], s, p);
  }

  ghost predicate DiedAt(run: seq<World>, s: Setting, k: int, p: Path) {
    0 <= k < |run| - 1 && WroteAndDied(run[k], run[k + 1], s, p)
  }

  ghost predicate DiedBetween(run: seq<World>, s: Setting, i: nat, n: nat, p: Path) {
    exists k :: i <= k < n && DiedAt(run, s, k, p)
  }

  lemma DiedLater(run: seq<World>, s: Setting, i: nat, n: nat, p: Path)
    requires i <= n && (DiedBetween(run, s, i, n, p) || DiedAt(run, s, n, p))
    ensures DiedBetween(run, s, i, n + 1, p)
  {
  }

  /** Over whole runs nothing is stranded but by a crash: left to itself the mirror has a file on disk that
      it does not track only if it was so from the start, or if a reconcile died after writing it. */
  lemma {:induction false} StraysComeFromCrashes(run: seq<World>, s: Setting, i: nat, n: nat, p: Path)
    requires Run(run, s) && i <= n < |run| && Stray(run[n], s, p)
    requires forall k :: i <= k < n ==> Undisturbed(run, s, k)
    ensures Stray(run[i], s, p) || DiedBetween(run, s, i, n, p)
  {
    if i < n {
      var last: nat := n - 1;
      StepAtStray(run, s, last, p);
      if Stray(run[last], s, p) {
        StraysComeFromCrashes(run, s, i, last, p);
      }
      if !Stray(run[i], s, p) {
        DiedLater(run, s, i, last, p);
      }
    }
  }

  // ----- strays come, and stay -----

  lemma {:induction false} RemovalsOf(doomed: set<Path>) returns (ops: seq<Op>)
    ensures Removals(ops, doomed) && RemovesAll(ops, doomed)
  {
    if doomed == {} {
      ops := [];
    } else {
      var p :| p in doomed;
      var rest := RemovalsOf(doomed - {p});
      ops := rest + [Remove(p)];
    }
  }

  lemma TraceOf(w: seq<Op>, doomed: set<Path>, saved: Option<Manifest>) returns (ops: seq<Op>, removals: nat)
    ensures WritesThenRemovals(ops, w, removals, doomed) && SavesLast(ops, |w| + removals, saved)
  {
    var gone := RemovalsOf(doomed);
    var save := if saved.Some? then [Save(saved.value)] else [];
    removals := |gone|;
    ops := w + gone + save;
    assert ops[|w|..|w| + removals] == gone;
    forall p | p in doomed ensures Remove(p) in ops {
      assert Remove(p) in gone;
    }
  }

  /** A reconcile can die after any of its first operations. */
  lemma CanDieAfter(w: World, s: Setting, k: nat) returns (w': World, ops: seq<Op>, removals: nat)
    requires Rebuilds(w, s) && k <= |RebuildWrites(w.memory.value, Expected(Head(w), s.scope), s.store)|
    ensures CrashAfter(w, w', s, ops, removals, k)
  {
    var m, es, frozen := w.memory.value, Expected(Head(w), s.scope), Frozen(Head(w).fold, s.scope);
    ops, removals := TraceOf(RebuildWrites(m, es, s.store), Orphans(m, es, frozen, s.store),
      Changed(m, Rebuilt(w, s).memory.value));
    w' := World(w.history, ApplyOps(w.disk, ops[..k]),
      if k == |ops| then Rebuilt(w, s).persisted else w.persisted, None);
  }

  lemma DiedAmongWrites(w: World, w': World, s: Setting, ops: seq<Op>, removals: nat, k: nat)
    requires CrashAfter(w, w', s, ops, removals, k)
    requires k <= |RebuildWrites(w.memory.value, Expected(Head(w), s.scope), s.store)|
    ensures w'.persisted == w.persisted
  {
  }

  lemma LastWriteStands(disk: Disk, ops: seq<Op>, w: seq<Op>, i: nat)
    requires i < |w| <= |ops| && ops[..|w|] == w && w[i].Write?
    ensures var d := ApplyOps(disk, ops[..i + 1]); w[i].path in d && d[w[i].path] == w[i].content
  {
    assert ops[i] == ops[..|w|][i];
    assert ops[..i + 1] == ops[..i] + [w[i]];
    ApplySnoc(disk, ops[..i], w[i]);
  }

  /** Every write of a reconcile can be its last, and strands its file exactly when the saved manifest does
      not record that content already. */
  lemma CrashStrandsExactly(w: World, s: Setting, k: nat)
    requires Rebuilds(w, s) && 0 < k <= |RebuildWrites(w.memory.value, Expected(Head(w), s.scope), s.store)|
    ensures var op := RebuildWrites(w.memory.value, Expected(Head(w), s.scope), s.store)[k - 1];
      && op.Write?
      && (exists w', ops, removals :: CrashAfter(w, w', s, ops, removals, k))
      && (forall w', ops, removals :: CrashAfter(w, w', s, ops, removals, k) ==>
            (Stray(w', s, op.path) <==>
             !(w.persisted.Some? && UpToDate(w.persisted.value.files, op.path, op.content))))
  {
    var m, es := w.memory.value, Expected(Head(w), s.scope);
    var all := RebuildWrites(m, es, s.store);
    ExpectedPlaced(Head(w), s.scope);
    RebuildWritesLand(m, w.disk, es, s.store);
    var dead, trace, n := CanDieAfter(w, s, k);
    var op := all[k - 1];
    forall w', ops, removals | CrashAfter(w, w', s, ops, removals, k)
      ensures Stray(w', s, op.path) <==> !(w.persisted.Some? && UpToDate(w.persisted.value.files, op.path, op.content))
    {
      DiedAmongWrites(w, w', s, ops, removals, k);
      LastWriteStands(w.disk, ops, all, k - 1);
      KnownIsVerified(w', s);
    }
  }

  /** A crash in a reconcile that ignores a stray file leaves it as it was. */
  lemma CrashIgnores(w: World, w': World, s: Setting, p: Path)
    requires Inv(w, s) && Synced(w, s) && Crash(w, w', s) && Stray(w, s, p) && Ignores(w, s, p)
    ensures Stray(w', s, p) && SameAt(w'.disk, w.disk, p)
  {
    var ops: seq<Op>, removals: nat, k: nat :| CrashAfter(w, w', s, ops, removals, k);
    if k == |ops| {
      DiedAtTheEnd(w, w', s, ops, removals, k);
      RebuiltStrayExactly(w, s, p);
    } else {
      IgnoredIsLeft(w, s, ops, removals, k, p);
      SameBytesSameKnown(w, w', s, p);
    }
  }

  lemma IgnoredIsLeft(w: World, s: Setting, ops: seq<Op>, removals: nat, k: nat, p: Path)
    requires Rebuilds(w, s) && Ignores(w, s, p) && p in w.disk && p !in w.memory.value.files && k <= |ops|
    requires Traces(ops, w.memory.value, Rebuilt(w, s).memory.value, Expected(Head(w), s.scope),
      Frozen(Head(w).fold, s.scope),
      s.store, removals)
    ensures SameAt(ApplyOps(w.disk, ops[..k]), w.disk, p)
  {
    var m, es, frozen := w.memory.value, Expected(Head(w), s.scope), Frozen(Head(w).fold, s.scope);
    ExpectedPlaced(Head(w), s.scope);
    NotTracked(m, es, s.store, p);
    IgnoredIsUnwritten(m, w.disk, es, s.store, p);
    RebuildWritesReplay(m, w.disk, es, s.store);
    RebuildWritesLand(m, w.disk, es, s.store);
    CrashLeaves(w.disk, ops, RebuildWrites(m, es, s.store), removals, Orphans(m, es, frozen, s.store),
      WrittenDisk(m, w.disk, es, s.store), k, p);
  }

  lemma IgnoredIsUnwritten(m: Manifest, disk: Disk, es: seq<Entry>, store: Option<Store>, p: Path)
    requires Placed(es) && p !in PathsIn(es) && p !in TrackedAfterWrites(m, es, store)
    ensures SameAt(WrittenDisk(m, disk, es, store), disk, p)
  {
    var d := Downloads(es, store, m.files);
    ResolvedPlaced(es, store, m.files);
    PageHashesExactly(ResolveAll(es, store, m.files));
    assert p !in Hashes(d);
    WritesElsewhere(ResolveAll(es, store, m.files), m.files + Hashes(d), disk + d, p);
  }

  /** Whoever rebuilds in this step has no page at `p` and none that refers to it. */
  ghost predicate IgnoringStep(w: World, w': World, s: Setting, p: Path) {
    (Reconcile(w, w', s) || Crash(w, w', s)) && Rebuilds(w, s) ==> Ignores(w, s, p)
  }

  /** A step of the mirror that, when it rebuilds, has no page at `p` and none that refers to it. */
  ghost predicate IgnoringAt(run: seq<World>, s: Setting, k: int, p: Path) {
    Undisturbed(run, s, k) && IgnoringStep(run[k], run[k + 1], s, p)
  }

  lemma IgnoringStepKeeps(w: World, w': World, s: Setting, p: Path)
    requires Inv(w, s) && Synced(w, s) && UndisturbedStep(w, w', s)
    requires IgnoringStep(w, w', s, p) && Stray(w, s, p)
    ensures Stray(w', s, p) && SameAt(w'.disk, w.disk, p)
  {
    if Crash(w, w', s) {
      CrashIgnores(w, w', s, p);
    } else if Reconcile(w, w', s) && Rebuilds(w, s) {
      RebuiltStrayExactly(w, s, p);
    } else {
      assert w'.persisted == w.persisted && w'.disk == w.disk;
    }
  }

  lemma IgnoringAtKeeps(run: seq<World>, s: Setting, k: nat, p: Path)
    requires Run(run, s) && IgnoringAt(run, s, k, p) && Stray(run[k], s, p)
    ensures Stray(run[k + 1], s, p) && SameAt(run[k + 1].disk, run[k].disk, p)
  {
    RunKeeps(run, s, k);
    RunStaysSynced(run, s, k);
    IgnoringStepKeeps(run[k], run[k + 1], s, p);
  }

  /** And a stray file stays: the mirror never removes or rewrites it, through commits, boots, reconciles and
      crashes, until a page is expected at its path or refers to it. */
  lemma {:induction false} StraysStayInRuns(run: seq<World>, s: Setting, i: nat, n: nat, p: Path)
    requires Run(run, s) && i <= n < |run| && Stray(run[i], s, p)
    requires forall k :: i <= k < n ==> IgnoringAt(run, s, k, p)
    ensures Stray(run[n], s, p) && SameAt(run[n].disk, run[i].disk, p)
  {
    if i < n {
      var last: nat := n - 1;
      StraysStayInRuns(run, s, i, last, p);
      IgnoringAtKeeps(run, s, last, p);
    }
  }
}
