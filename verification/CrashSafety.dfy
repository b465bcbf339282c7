/** What a crash between any two file operations of a rebuild can leave behind. */
module CrashSafety {
  import opened Options
  import opened Slugs
  import opened Forest
  import opened Attachments
  import opened Projection
  import opened Reconciliation
  import opened Projector

  // ----- the writes, replayed -----

  lemma {:induction false} FetchOpsReplay(disk: Disk, refs: seq<Sha>, store: Store, files: Files, before: Disk)
    requires Sourced(store, files, before)
    ensures ApplyOps(disk + before, FetchOps(refs, store, files, before)) ==
      disk + (before + Fetched(refs, store, files))
    ensures Sourced(store, files, before + Fetched(refs, store, files))
  {
    if refs == [] {
      assert before + Fetched(refs, store, files) == before;
    } else {
      var init, last := refs[..|refs| - 1], refs[|refs| - 1];
      assert refs == init + [last];
      FetchOpsReplay(disk, init, store, files, before);
      FetchedStep(store, files, before, init, last);
      var now := before + Fetched(init, store, files);
      IntoLands(store, files, disk, now, last);
      ApplyAppend(disk + before, FetchOps(init, store, files, before), FetchOp(store, files, now, last));
      FetchOpReplay(disk, store, files, now, last);
    }
  }

  lemma FetchOpReplay(disk: Disk, store: Store, files: Files, now: Disk, sha: Sha)
    requires Sourced(store, files, now)
    ensures ApplyOps(disk + now, FetchOp(store, files, now, sha)) == disk + Into(store, files, now, sha)
  {
    IntoLands(store, files, disk, now, sha);
    var op := FetchOp(store, files, now, sha);
    if op != [] {
      assert op == [] + op;
      ApplySnoc(disk + now, [], op[0]);
      assert [] + [op[0]] == op;
    } else if Fresh(store, files, sha) {
      assert now[AssetPath(store, sha) := Blob(store.bytes[sha])] == now;
    }
  }

  lemma {:induction false} DownloadOpsReplay(disk: Disk, es: seq<Entry>, store: Store, files: Files)
    ensures ApplyOps(disk, DownloadOps(es, Some(store), files)) == disk + Downloads(es, Some(store), files)
  {
    if es == [] {
      assert disk + Downloads(es, Some(store), files) == disk;
    } else {
      var init, last := es[..|es| - 1], es[|es| - 1];
      DownloadOpsReplay(disk, init, store, files);
      DownloadsSourced(init, store, files);
      var d, refs := Downloads(init, Some(store), files), RefsIn(last.body);
      ApplyAppend(disk, DownloadOps(init, Some(store), files), FetchOps(refs, store, files, d));
      FetchOpsReplay(disk, refs, store, files, d);
    }
  }

  lemma DownloadsReplay(disk: Disk, es: seq<Entry>, store: Option<Store>, files: Files)
    ensures ApplyOps(disk, DownloadOps(es, store, files)) == disk + Downloads(es, store, files)
  {
    if store.Some? {
      DownloadOpsReplay(disk, es, store.value, files);
    } else {
      assert disk + Downloads(es, store, files) == disk;
    }
  }

  lemma {:induction false} WriteOpsReplay(disk: Disk, es: seq<Entry>, files: Files)
    ensures ApplyOps(disk, WriteOps(es, files)) == WritePages(es, files, disk)
  {
    if es != [] {
      var init, last := es[..|es| - 1], es[|es| - 1];
      WriteOpsReplay(disk, init, files);
      if !UpToDate(files + PageHashes(init), last.path, Markdown(last.body)) {
        ApplySnoc(disk, WriteOps(init, files), Write(last.path, Markdown(last.body)));
      } else {
        assert WriteOps(es, files) == WriteOps(init, files);
      }
    }
  }

  /** Replaying a rebuild's writes gives the disk the rebuild computes. */
  lemma RebuildWritesReplay(m: Manifest, disk: Disk, es: seq<Entry>, store: Option<Store>)
    ensures ApplyOps(disk, RebuildWrites(m, es, store)) == WrittenDisk(m, disk, es, store)
  {
    var d := Downloads(es, store, m.files);
    var pages := WriteOps(ResolveAll(es, store, m.files), m.files + Hashes(d));
    ApplyAppend(disk, DownloadOps(es, store, m.files), pages);
    DownloadsReplay(disk, es, store, m.files);
    WriteOpsReplay(disk + d, ResolveAll(es, store, m.files), m.files + Hashes(d));
  }

  // ----- no path is written twice -----

  /** Writes only, each leaving at its path what `final` holds there. */
  ghost predicate WritesInto(ops: seq<Op>, final: Disk) {
    forall i :: 0 <= i < |ops| ==> ops[i].Write? && ops[i].path in final && final[ops[i].path] == ops[i].content
  }

  lemma {:induction false} FetchOpsLand(refs: seq<Sha>, store: Store, files: Files, before: Disk)
    ensures WritesInto(FetchOps(refs, store, files, before), Fetched(refs, store, files))
  {
    if refs != [] {
      var init, last := refs[..|refs| - 1], refs[|refs| - 1];
      FetchOpsLand(init, store, files, before);
      var ops, d, d' := FetchOps(init, store, files, before), Fetched(init, store, files), Fetched(refs, store, files);
      forall i | 0 <= i < |ops| ensures ops[i].path in d' && d'[ops[i].path] == ops[i].content {
        var p := ops[i].path;
        FetchedExactly(init, store, files, p);
        FetchedExactly(refs, store, files, p);
        var s :| s in init && Fresh(store, files, s) && p == AssetPath(store, s);
        assert s in refs;
      }
    }
  }

  lemma {:induction false} DownloadOpsLand(es: seq<Entry>, store: Option<Store>, files: Files)
    ensures WritesInto(DownloadOps(es, store, files), Downloads(es, store, files))
  {
    if store.Some? && es != [] {
      var init, last := es[..|es| - 1], es[|es| - 1];
      assert es == init + [last];
      DownloadOpsLand(init, store, files);
      var refs := RefsIn(last.body);
      FetchOpsLand(refs, store.value, files, Downloads(init, store, files));
      var ops, d, d' := DownloadOps(init, store, files), Downloads(init, store, files), Downloads(es, store, files);
      forall i | 0 <= i < |ops| ensures ops[i].path in d' && d'[ops[i].path] == ops[i].content {
        var p := ops[i].path;
        DownloadsExactly(init, store.value, files, p);
        DownloadsExactly(es, store.value, files, p);
      }
    }
  }

  lemma {:induction false} WriteOpsLand(es: seq<Entry>, files: Files, disk: Disk)
    requires Placed(es)
    ensures WritesInto(WriteOps(es, files), WritePages(es, files, disk))
    ensures forall i :: 0 <= i < |WriteOps(es, files)| ==> WriteOps(es, files)[i].path in PathsIn(es)
  {
    if es != [] {
      PlacedPrefix(es);
      WriteOpsLand(es[..|es| - 1], files, disk);
    }
  }

  /** Every write of a rebuild is final: nothing it writes is written over later. */
  lemma RebuildWritesLand(m: Manifest, disk: Disk, es: seq<Entry>, store: Option<Store>)
    requires Placed(es)
    ensures WritesInto(RebuildWrites(m, es, store), WrittenDisk(m, disk, es, store))
  {
    var d, resolved := Downloads(es, store, m.files), ResolveAll(es, store, m.files);
    ResolvedPlaced(es, store, m.files);
    DownloadOpsLand(es, store, m.files);
    WriteOpsLand(resolved, m.files + Hashes(d), disk + d);
    var ops, final := DownloadOps(es, store, m.files), WrittenDisk(m, disk, es, store);
    forall i | 0 <= i < |ops| ensures ops[i].path in final && final[ops[i].path] == ops[i].content {
      DownloadsAreAssets(es, store, m.files, ops[i].path);
      WritesElsewhere(resolved, m.files + Hashes(d), disk + d, ops[i].path);
    }
  }

  // ----- states a crash can leave -----

  lemma {:induction false} PrefixOfWrites(disk: Disk, ops: seq<Op>, final: Disk, k: nat)
    requires k <= |ops| && WritesInto(ops, final)
    ensures var d := ApplyOps(disk, ops[..k]);
      && (forall p :: p in disk ==> p in d)
      && (forall p :: SameAt(d, disk, p) || (p in d && p in final && d[p] == final[p]))
  {
    if k > 0 {
      PrefixOfWrites(disk, ops, final, k - 1);
      assert ops[..k] == ops[..k - 1] + [ops[k - 1]];
      ApplySnoc(disk, ops[..k - 1], ops[k - 1]);
    }
  }

  lemma {:induction false} PrefixOfRemovals(disk: Disk, ops: seq<Op>, doomed: set<Path>, k: nat)
    requires k <= |ops|
    requires forall i :: 0 <= i < |ops| ==> ops[i].Save? || (ops[i].Remove? && ops[i].path in doomed)
    ensures var d := ApplyOps(disk, ops[..k]);
      forall p :: SameAt(d, disk, p) || (p in doomed && p !in d)
  {
    if k > 0 {
      PrefixOfRemovals(disk, ops, doomed, k - 1);
      assert ops[..k] == ops[..k - 1] + [ops[k - 1]];
      ApplySnoc(disk, ops[..k - 1], ops[k - 1]);
    }
  }

  /** Dying among the writes: nothing is gone, and every path is as before or as it will be. */
  lemma CrashWhileWriting(disk: Disk, ops: seq<Op>, w: seq<Op>, removals: nat, doomed: set<Path>, final: Disk, k: nat)
    requires WritesThenRemovals(ops, w, removals, doomed) && WritesInto(w, final)
    requires k <= |w|
    ensures var d := ApplyOps(disk, ops[..k]);
      && (forall p :: p in disk ==> p in d)
      && (forall p :: SameAt(d, disk, p) || (p in d && p in final && d[p] == final[p]))
  {
    assert ops[..k] == ops[..|w|][..k];
    PrefixOfWrites(disk, w, final, k);
  }

  /** Dying among the removals: every write has landed, and only doomed files are gone. */
  lemma CrashWhileRemoving(disk: Disk, ops: seq<Op>, w: seq<Op>, removals: nat, doomed: set<Path>, final: Disk, k: nat)
    requires WritesThenRemovals(ops, w, removals, doomed) && ApplyOps(disk, w) == final
    requires |w| <= k <= |ops|
    ensures var d := ApplyOps(disk, ops[..k]);
      forall p :: SameAt(d, final, p) || (p in doomed && p !in d)
  {
    var rest := ops[|w|..];
    forall i | 0 <= i < |rest| ensures rest[i].Save? || (rest[i].Remove? && rest[i].path in doomed) {
      if i < removals {
        assert rest[i] == ops[|w|..|w| + removals][i];
      }
    }
    assert ops[..k] == w + rest[..k - |w|];
    ApplyAppend(disk, w, rest[..k - |w|]);
    PrefixOfRemovals(final, rest, doomed, k - |w|);
  }

  /** Wherever the process dies, a file the writes leave alone and nobody removes is as it was. */
  lemma CrashLeaves(disk: Disk, ops: seq<Op>, w: seq<Op>, removals: nat, doomed: set<Path>, written: Disk, k: nat,
      q: Path)
    requires WritesThenRemovals(ops, w, removals, doomed) && k <= |ops|
    requires WritesInto(w, written) && ApplyOps(disk, w) == written
    requires q in disk && SameAt(written, disk, q) && q !in doomed
    ensures SameAt(ApplyOps(disk, ops[..k]), disk, q)
  {
    if k <= |w| {
      CrashWhileWriting(disk, ops, w, removals, doomed, written, k);
    } else {
      CrashWhileRemoving(disk, ops, w, removals, doomed, written, k);
    }
  }

  /** What is removed and not written again is gone. */
  lemma {:induction false} RemovedIsGone(disk: Disk, ops: seq<Op>, p: Path)
    requires forall i :: 0 <= i < |ops| ==> ops[i].Save? || ops[i].Remove?
    ensures Remove(p) in ops ==> p !in ApplyOps(disk, ops)
  {
    if ops != [] {
      RemovedIsGone(disk, ops[..|ops| - 1], p);
      assert ops == ops[..|ops| - 1] + [ops[|ops| - 1]];
    }
  }

  /** A file that is not as it was has been written. */
  lemma {:induction false} ChangedIsWritten(disk: Disk, ops: seq<Op>, p: Path)
    ensures p in ApplyOps(disk, ops) ==> SameAt(ApplyOps(disk, ops), disk, p) || Write(p, ApplyOps(disk, ops)[p]) in ops
  {
    if ops != [] {
      ChangedIsWritten(disk, ops[..|ops| - 1], p);
      assert ops == ops[..|ops| - 1] + [ops[|ops| - 1]];
    }
  }

  lemma DoomedIsGone(disk: Disk, ops: seq<Op>, w: seq<Op>, removals: nat, doomed: set<Path>, p: Path)
    requires WritesThenRemovals(ops, w, removals, doomed) && p in doomed
    requires forall i :: 0 <= i < |w| ==> w[i].Write?
    ensures p !in ApplyOps(disk, ops)
  {
    var rest := ops[|w|..];
    assert ops == w + rest;
    ApplyAppend(disk, w, rest);
    forall i | 0 <= i < |rest| ensures rest[i].Save? || rest[i].Remove? {
      if i < removals {
        assert rest[i] == ops[|w|..|w| + removals][i];
      }
    }
    assert Remove(p) in w + rest && Remove(p) !in w;
    RemovedIsGone(ApplyOps(disk, w), rest, p);
  }

  /** A whole trace, replayed, is the written disk without the doomed files. */
  lemma WholeTraceReplays(disk: Disk, ops: seq<Op>, w: seq<Op>, removals: nat, doomed: set<Path>, written: Disk)
    requires WritesThenRemovals(ops, w, removals, doomed) && ApplyOps(disk, w) == written
    requires forall i :: 0 <= i < |w| ==> w[i].Write?
    ensures ApplyOps(disk, ops) == written - doomed
  {
    assert ops[..|ops|] == ops;
    CrashWhileRemoving(disk, ops, w, removals, doomed, written, |ops|);
    forall p | p in doomed ensures p !in ApplyOps(disk, ops) {
      DoomedIsGone(disk, ops, w, removals, doomed, p);
    }
  }

  /** Whenever the process dies, an expected page is on disk with its new body, or its old file is still
      there, untouched or giving way to another new file only. */
  lemma OldFileGivesWayToNew(m: Manifest, disk: Disk, es: seq<Entry>, frozen: seq<PageId>, store: Option<Store>,
      ops: seq<Op>, removals: nat, k: nat, e: Entry)
    requires Placed(es) && Agrees(m.files, disk) && k <= |ops|
    requires e in ResolveAll(es, store, m.files)
    requires e.pageId in m.pages && m.pages[e.pageId] in m.files
    ensures WritesThenRemovals(ops, RebuildWrites(m, es, store), removals, Orphans(m, es, frozen, store)) ==>
      var d, was := ApplyOps(disk, ops[..k]), m.pages[e.pageId];
      || (e.path in d && d[e.path] == Markdown(e.body))
      || (was in d && d[was] == disk[was])
      || (was in d && was in WrittenDisk(m, disk, es, store) && d[was] == WrittenDisk(m, disk, es, store)[was]
          && (was in PathsIn(es) || was in Downloads(es, store, m.files)))
  {
    if WritesThenRemovals(ops, RebuildWrites(m, es, store), removals, Orphans(m, es, frozen, store)) {
      var w, written := RebuildWrites(m, es, store), WrittenDisk(m, disk, es, store);
      if k >= |w| {
        RebuildWritesReplay(m, disk, es, store);
        CrashWhileRemoving(disk, ops, w, removals, Orphans(m, es, frozen, store), written, k);
        ExpectedInPlace(m, disk, es, frozen, store, e);
      } else {
        RebuildWritesLand(m, disk, es, store);
        CrashWhileWriting(disk, ops, w, removals, Orphans(m, es, frozen, store), written, k);
        OnlyWrittenPathsChange(m, disk, es, store, m.pages[e.pageId]);
      }
    }
  }

  lemma ExpectedInPlace(m: Manifest, disk: Disk, es: seq<Entry>, frozen: seq<PageId>, store: Option<Store>, e: Entry)
    requires Placed(es) && Agrees(m.files, disk) && e in ResolveAll(es, store, m.files)
    ensures var written := WrittenDisk(m, disk, es, store);
      e.path in written && written[e.path] == Markdown(e.body) && e.path !in Orphans(m, es, frozen, store)
  {
    RebuildIsExact(m, disk, es, frozen, store);
    ResolvedPlaced(es, store, m.files);
  }

  lemma OnlyWrittenPathsChange(m: Manifest, disk: Disk, es: seq<Entry>, store: Option<Store>, p: Path)
    requires Placed(es) && p in disk
    ensures p in PathsIn(es) || p in Downloads(es, store, m.files) || SameAt(WrittenDisk(m, disk, es, store), disk, p)
  {
    if p !in PathsIn(es) {
      ResolvedPlaced(es, store, m.files);
      var d := Downloads(es, store, m.files);
      WritesElsewhere(ResolveAll(es, store, m.files), m.files + Hashes(d), disk + d, p);
    }
  }

  // ----- when no page can be lost -----

  /** The page's new body is at its new path. */
  predicate InPlace(d: Disk, e: Entry) {
    e.path in d && d[e.path] == Markdown(e.body)
  }

  /** The manifest records a file for the page. */
  predicate HasFile(e: Entry, m: Manifest) {
    e.pageId in m.pages && m.pages[e.pageId] in m.files
  }

  /** Of a page that had a file: its new body is in place, or its old file is untouched. */
  ghost predicate Kept(e: Entry, m: Manifest, disk: Disk, d: Disk) {
    HasFile(e, m) ==> InPlace(d, e) || SameAt(d, disk, m.pages[e.pageId])
  }

  ghost predicate AllKept(resolved: seq<Entry>, m: Manifest, disk: Disk, d: Disk) {
    forall j :: 0 <= j < |resolved| ==> Kept(resolved[j], m, disk, d)
  }

  /** Page `i`, written first, takes with another content the old path of page `j`, which still has to move. */
  predicate Takes(resolved: seq<Entry>, m: Manifest, disk: Disk, i: int, j: int) {
    && 0 <= i < j < |resolved|
    && HasFile(resolved[j], m) && !InPlace(disk, resolved[j])
    && resolved[i].path == m.pages[resolved[j].pageId] && !InPlace(disk, resolved[i])
  }

  /** The writes of the first `n` pages come first. */
  lemma {:induction false} WriteOpsPrefix(es: seq<Entry>, files: Files, n: nat)
    requires n <= |es|
    ensures |WriteOps(es[..n], files)| <= |WriteOps(es, files)|
    ensures WriteOps(es, files)[..|WriteOps(es[..n], files)|] == WriteOps(es[..n], files)
  {
    if n == |es| {
      assert es[..n] == es;
    } else {
      WriteOpsPrefix(es[..|es| - 1], files, n);
      assert es[..|es| - 1][..n] == es[..n];
    }
  }

  /** Between two writes the disk is what the pages so far have made of it. */
  lemma {:induction false} BetweenWrites(disk: Disk, es: seq<Entry>, files: Files, k: nat) returns (n: nat)
    requires k <= |WriteOps(es, files)|
    ensures n <= |es| && ApplyOps(disk, WriteOps(es, files)[..k]) == WritePages(es[..n], files, disk)
  {
    if k == |WriteOps(es, files)| {
      WriteOpsReplay(disk, es, files);
      assert WriteOps(es, files)[..k] == WriteOps(es, files) && es[..|es|] == es;
      n := |es|;
    } else {
      var init := es[..|es| - 1];
      n := BetweenWrites(disk, init, files, k);
      assert WriteOps(es, files)[..k] == WriteOps(init, files)[..k] && es[..n] == init[..n];
    }
  }

  lemma PlacedTake(es: seq<Entry>, n: nat)
    requires Placed(es) && n <= |es|
    ensures Placed(es[..n])
    ensures forall j :: n <= j < |es| ==> es[j].path !in PathsIn(es[..n])
  {
    assert forall e :: e in es[..n] ==> e in es;
    assert forall i, j :: 0 <= i < n <= j < |es| ==> es[..n][i].path != es[j].path;
  }

  /** A page among those written is in place. */
  lemma {:induction false} WrittenInPlace(es: seq<Entry>, files: Files, disk: Disk, j: nat)
    requires Placed(es) && Agrees(files, disk) && j < |es|
    ensures InPlace(WritePages(es, files, disk), es[j])
  {
    WritesKeepAgreement(es, files, disk);
    PageHashesExactly(es);
    assert es[j] in es;
    assert (files + PageHashes(es))[es[j].path] == Sha256(Markdown(es[j].body));
  }

  /** A page whose path no page so far has written: its new file is as it was. */
  lemma UnwrittenAsBefore(es: seq<Entry>, files: Files, disk: Disk, n: nat, j: nat)
    requires Placed(es) && n <= j < |es|
    ensures InPlace(WritePages(es[..n], files, disk), es[j]) <==> InPlace(disk, es[j])
  {
    PlacedTake(es, n);
    WritesElsewhere(es[..n], files, disk, es[j].path);
  }

  /** With `n` pages written a page is kept, unless one of them takes its old path while it still has to move. */
  lemma KeptBetween(es: seq<Entry>, files: Files, m: Manifest, disk: Disk, n: nat, j: nat)
    requires Placed(es) && Agrees(files, disk) && n <= |es| && j < |es|
    requires HasFile(es[j], m) ==> m.pages[es[j].pageId] in disk
    ensures Kept(es[j], m, disk, WritePages(es[..n], files, disk)) || exists i :: i < n && Takes(es, m, disk, i, j)
  {
    PlacedTake(es, n);
    if j < n {
      WrittenInPlace(es[..n], files, disk, j);
    } else if HasFile(es[j], m) {
      UnwrittenAsBefore(es, files, disk, n, j);
      var was := m.pages[es[j].pageId];
      if was in PathsIn(es[..n]) {
        var i := IndexOfPath(es[..n], was);
        WrittenInPlace(es[..n], files, disk, i);
        assert Takes(es, m, disk, i, j) || InPlace(disk, es[j]) || InPlace(disk, es[i]);
      } else {
        WritesElsewhere(es[..n], files, disk, was);
      }
    }
  }

  /** Once the taking page is written, the page it takes from is neither at its old path nor at its new. */
  lemma TakenIsLost(es: seq<Entry>, files: Files, m: Manifest, disk: Disk, i: nat, j: nat)
    requires Placed(es) && Agrees(files, disk) && Takes(es, m, disk, i, j)
    requires m.pages[es[j].pageId] in disk
    ensures !Kept(es[j], m, disk, WritePages(es[..i + 1], files, disk))
  {
    PlacedTake(es, i + 1);
    WrittenInPlace(es[..i + 1], files, disk, i);
    UnwrittenAsBefore(es, files, disk, i + 1, j);
  }

  /** The old file of a page is no download's. */
  lemma OldFileAsBefore(m: Manifest, disk: Disk, d: Disk, e: Entry)
    requires Agrees(m.files, disk)
    requires forall p :: p in m.files ==> SameAt(d, disk, p)
    ensures Kept(e, m, disk, d)
  {
  }

  lemma DownloadsElsewhere(m: Manifest, disk: Disk, es: seq<Entry>, store: Option<Store>)
    requires Placed(es)
    ensures var d := disk + Downloads(es, store, m.files);
      && (forall p :: p in m.files ==> SameAt(d, disk, p))
      && (forall e :: e in es ==> SameAt(d, disk, e.path))
  {
    forall p | p in Downloads(es, store, m.files) ensures |p| > 0 && p[0] == ASSETS_DIR {
      DownloadsAreAssets(es, store, m.files, p);
    }
  }

  /** Paths of expected pages and of tracked files are as before: what can be lost is the same. */
  lemma SameStakes(resolved: seq<Entry>, m: Manifest, disk: Disk, d: Disk, now: Disk)
    requires forall p :: p in m.files ==> SameAt(d, disk, p)
    requires forall e :: e in resolved ==> SameAt(d, disk, e.path)
    ensures AllKept(resolved, m, d, now) <==> AllKept(resolved, m, disk, now)
    ensures forall i, j :: Takes(resolved, m, d, i, j) <==> Takes(resolved, m, disk, i, j)
  {
    forall j | 0 <= j < |resolved| ensures Kept(resolved[j], m, d, now) <==> Kept(resolved[j], m, disk, now) {
    }
    forall i, j ensures Takes(resolved, m, d, i, j) <==> Takes(resolved, m, disk, i, j) {
      if 0 <= i < j < |resolved| {
        assert resolved[i] in resolved && resolved[j] in resolved;
      }
    }
  }

  ghost predicate NoneTakes(resolved: seq<Entry>, m: Manifest, disk: Disk) {
    forall i, j :: !Takes(resolved, m, disk, i, j)
  }

  /** Every page is kept however many pages are written, exactly when none takes another's old file. */
  lemma KeptThroughoutWrites(resolved: seq<Entry>, files: Files, m: Manifest, disk: Disk)
    requires Placed(resolved) && Agrees(files, disk) && Agrees(m.files, disk)
    ensures (forall n: nat :: n <= |resolved| ==> AllKept(resolved, m, disk, WritePages(resolved[..n], files, disk)))
      <==> NoneTakes(resolved, m, disk)
  {
    forall n: nat, j | n <= |resolved| && 0 <= j < |resolved| && NoneTakes(resolved, m, disk)
      ensures Kept(resolved[j], m, disk, WritePages(resolved[..n], files, disk))
    {
      KeptBetween(resolved, files, m, disk, n, j);
    }
    forall i, j | Takes(resolved, m, disk, i, j)
      ensures !AllKept(resolved, m, disk, WritePages(resolved[..i + 1], files, disk))
    {
      TakenIsLost(resolved, files, m, disk, i, j);
    }
  }

  lemma KeptWhileDownloading(m: Manifest, disk: Disk, es: seq<Entry>, store: Option<Store>, ops: seq<Op>, k: nat,
      e: Entry)
    requires Placed(es) && Agrees(m.files, disk)
    requires k <= |DownloadOps(es, store, m.files)| <= |ops|
    requires ops[..|DownloadOps(es, store, m.files)|] == DownloadOps(es, store, m.files)
    ensures Kept(e, m, disk, ApplyOps(disk, ops[..k]))
  {
    var dl := DownloadOps(es, store, m.files);
    DownloadOpsLand(es, store, m.files);
    assert ops[..k] == dl[..k];
    PrefixOfWrites(disk, dl, Downloads(es, store, m.files), k);
    OldFileAsBefore(m, disk, ApplyOps(disk, ops[..k]), e);
  }

  lemma ApplyThrough(disk: Disk, ops: seq<Op>, first: seq<Op>, next: seq<Op>, k: nat)
    requires first + next <= ops && k <= |next|
    ensures ApplyOps(disk, ops[..|first| + k]) == ApplyOps(ApplyOps(disk, first), next[..k])
  {
    assert ops[..|first| + k] == first + next[..k];
    ApplyAppend(disk, first, next[..k]);
  }

  lemma KeptWhileRemoving(m: Manifest, disk: Disk, es: seq<Entry>, frozen: seq<PageId>, store: Option<Store>,
      ops: seq<Op>, removals: nat, k: nat, e: Entry)
    requires Placed(es) && Agrees(m.files, disk) && e in ResolveAll(es, store, m.files)
    requires |RebuildWrites(m, es, store)| <= k <= |ops|
    ensures WritesThenRemovals(ops, RebuildWrites(m, es, store), removals, Orphans(m, es, frozen, store)) ==>
      Kept(e, m, disk, ApplyOps(disk, ops[..k]))
  {
    if WritesThenRemovals(ops, RebuildWrites(m, es, store), removals, Orphans(m, es, frozen, store)) {
      RebuildWritesReplay(m, disk, es, store);
      CrashWhileRemoving(disk, ops, RebuildWrites(m, es, store), removals, Orphans(m, es, frozen, store),
        WrittenDisk(m, disk, es, store), k);
      ExpectedInPlace(m, disk, es, frozen, store, e);
    }
  }

  /** A moment among the page writes: the first `n` pages are written. */
  lemma MomentOfWrites(disk: Disk, ops: seq<Op>, dl: seq<Op>, pages: seq<Op>, d: Disk, resolved: seq<Entry>,
      files: Files, k: nat)
    returns (n: nat)
    requires ApplyOps(disk, dl) == d && pages == WriteOps(resolved, files)
    requires dl + pages <= ops && |dl| <= k <= |dl| + |pages|
    ensures n <= |resolved| && ApplyOps(disk, ops[..k]) == WritePages(resolved[..n], files, d)
  {
    var i: nat := k - |dl|;
    n := BetweenWrites(d, resolved, files, i);
    ApplyThrough(disk, ops, dl, pages, i);
  }

  /** The first `n` pages written: there is such a moment. */
  lemma MomentOfPages(disk: Disk, ops: seq<Op>, dl: seq<Op>, pages: seq<Op>, d: Disk, resolved: seq<Entry>,
      files: Files, n: nat)
    returns (k: nat)
    requires ApplyOps(disk, dl) == d && pages == WriteOps(resolved, files)
    requires dl + pages <= ops && n <= |resolved|
    ensures k <= |dl| + |pages| && ApplyOps(disk, ops[..k]) == WritePages(resolved[..n], files, d)
  {
    var done := WriteOps(resolved[..n], files);
    WriteOpsPrefix(resolved, files, n);
    WriteOpsReplay(d, resolved[..n], files);
    ApplyThrough(disk, ops, dl, pages, |done|);
    k := |dl| + |done|;
  }

  /** Every page is kept after each of the first `hi` operations. */
  ghost predicate KeptUpTo(resolved: seq<Entry>, m: Manifest, disk: Disk, ops: seq<Op>, hi: nat) {
    forall k :: 0 <= k <= hi <= |ops| ==> AllKept(resolved, m, disk, ApplyOps(disk, ops[..k]))
  }

  /** Every page is kept after each of the pages is written. */
  ghost predicate KeptByPages(resolved: seq<Entry>, m: Manifest, files: Files, disk: Disk, d: Disk) {
    forall n: nat :: n <= |resolved| ==> AllKept(resolved, m, disk, WritePages(resolved[..n], files, d))
  }

  lemma KeptAmongWrites(m: Manifest, disk: Disk, ops: seq<Op>, dl: seq<Op>, pages: seq<Op>, d: Disk,
      resolved: seq<Entry>, files: Files)
    requires ApplyOps(disk, dl) == d && pages == WriteOps(resolved, files) && dl + pages <= ops
    requires KeptUpTo(resolved, m, disk, ops, |dl|)
    ensures KeptUpTo(resolved, m, disk, ops, |dl| + |pages|) <==> KeptByPages(resolved, m, files, disk, d)
  {
    if KeptByPages(resolved, m, files, disk, d) {
      forall k | |dl| <= k <= |dl| + |pages| ensures AllKept(resolved, m, disk, ApplyOps(disk, ops[..k])) {
        var n := MomentOfWrites(disk, ops, dl, pages, d, resolved, files, k);
      }
    }
    if KeptUpTo(resolved, m, disk, ops, |dl| + |pages|) {
      forall n: nat | n <= |resolved| ensures AllKept(resolved, m, disk, WritePages(resolved[..n], files, d)) {
        var k := MomentOfPages(disk, ops, dl, pages, d, resolved, files, n);
        assert AllKept(resolved, m, disk, ApplyOps(disk, ops[..k]));
      }
    }
  }

  /** What is at stake is the same before and after the downloads. */
  lemma Stakes(m: Manifest, disk: Disk, es: seq<Entry>, store: Option<Store>, d: Disk, resolved: seq<Entry>)
    requires Placed(es) && Agrees(m.files, disk)
    requires d == disk + Downloads(es, store, m.files) && resolved == ResolveAll(es, store, m.files)
    ensures forall p :: p in m.files ==> SameAt(d, disk, p)
    ensures forall e :: e in resolved ==> SameAt(d, disk, e.path)
    ensures Agrees(m.files, d) && Agrees(m.files + Hashes(Downloads(es, store, m.files)), d)
  {
    DownloadsElsewhere(m, disk, es, store);
    forall e | e in resolved ensures SameAt(d, disk, e.path) {
      var k :| 0 <= k < |resolved| && resolved[k] == e;
      assert es[k] in es;
    }
  }

  lemma KeptUpToDownloads(m: Manifest, disk: Disk, es: seq<Entry>, store: Option<Store>, ops: seq<Op>, dl: seq<Op>,
      resolved: seq<Entry>)
    requires Placed(es) && Agrees(m.files, disk)
    requires dl == DownloadOps(es, store, m.files) && dl <= ops
    ensures KeptUpTo(resolved, m, disk, ops, |dl|)
  {
    forall k, j | 0 <= k <= |dl| && 0 <= j < |resolved| ensures Kept(resolved[j], m, disk, ApplyOps(disk, ops[..k])) {
      KeptWhileDownloading(m, disk, es, store, ops, k, resolved[j]);
    }
  }

  /** The pages' old and new files are at stake alike before and after the downloads. */
  lemma SameByPages(resolved: seq<Entry>, m: Manifest, files: Files, disk: Disk, d: Disk)
    requires forall p :: p in m.files ==> SameAt(d, disk, p)
    requires forall e :: e in resolved ==> SameAt(d, disk, e.path)
    requires Placed(resolved) && Agrees(files, d) && Agrees(m.files, d)
    ensures KeptByPages(resolved, m, files, disk, d) <==> NoneTakes(resolved, m, disk)
  {
    KeptThroughoutWrites(resolved, files, m, d);
    forall now ensures AllKept(resolved, m, d, now) <==> AllKept(resolved, m, disk, now) {
      SameStakes(resolved, m, disk, d, now);
    }
    SameStakes(resolved, m, disk, d, disk);
  }

  lemma KeptWhileWriting(m: Manifest, disk: Disk, es: seq<Entry>, store: Option<Store>, ops: seq<Op>,
      resolved: seq<Entry>,
      dl: seq<Op>, pages: seq<Op>, files: Files)
    requires Placed(es) && Agrees(m.files, disk) && resolved == ResolveAll(es, store, m.files)
    requires dl == DownloadOps(es, store, m.files) && files == m.files + Hashes(Downloads(es, store, m.files))
    requires pages == WriteOps(resolved, files) && dl + pages <= ops
    ensures KeptUpTo(resolved, m, disk, ops, |dl| + |pages|) <==> NoneTakes(resolved, m, disk)
  {
    var d := disk + Downloads(es, store, m.files);
    ResolvedPlaced(es, store, m.files);
    Stakes(m, disk, es, store, d, resolved);
    SameByPages(resolved, m, files, disk, d);
    DownloadsReplay(disk, es, store, m.files);
    KeptUpToDownloads(m, disk, es, store, ops, dl, resolved);
    KeptAmongWrites(m, disk, ops, dl, pages, d, resolved, files);
  }

  lemma KeptUpToRemovals(m: Manifest, disk: Disk, es: seq<Entry>, frozen: seq<PageId>, store: Option<Store>,
      ops: seq<Op>, removals: nat, resolved: seq<Entry>, lo: nat)
    requires Placed(es) && Agrees(m.files, disk) && resolved == ResolveAll(es, store, m.files)
    requires WritesThenRemovals(ops, RebuildWrites(m, es, store), removals, Orphans(m, es, frozen, store))
    requires lo == |RebuildWrites(m, es, store)| && KeptUpTo(resolved, m, disk, ops, lo)
    ensures KeptUpTo(resolved, m, disk, ops, |ops|)
  {
    forall k, j | lo <= k <= |ops| && 0 <= j < |resolved| ensures Kept(resolved[j], m, disk, ApplyOps(disk, ops[..k])) {
      KeptWhileRemoving(m, disk, es, frozen, store, ops, removals, k, resolved[j]);
    }
  }

  /** No page is ever lost, exactly: wherever the process dies, every expected page that had a file has its
      new body at its new path or its old file untouched, if and only if no page written earlier in fold
      order takes, with another content, the old path of a page that still has to move. */
  lemma NoPageIsLostExactly(m: Manifest, disk: Disk, es: seq<Entry>, frozen: seq<PageId>, store: Option<Store>,
      ops: seq<Op>, removals: nat)
    requires Placed(es) && Agrees(m.files, disk)
    ensures WritesThenRemovals(ops, RebuildWrites(m, es, store), removals, Orphans(m, es, frozen, store)) ==>
      (KeptUpTo(ResolveAll(es, store, m.files), m, disk, ops, |ops|) <==>
        NoneTakes(ResolveAll(es, store, m.files), m, disk))
  {
    if WritesThenRemovals(ops, RebuildWrites(m, es, store), removals, Orphans(m, es, frozen, store)) {
      var resolved, files := ResolveAll(es, store, m.files), m.files + Hashes(Downloads(es, store, m.files));
      var dl, pages := DownloadOps(es, store, m.files), WriteOps(resolved, files);
      WritesComeFirst(ops, dl + pages, removals, Orphans(m, es, frozen, store));
      KeptWhileWriting(m, disk, es, store, ops, resolved, dl, pages, files);
      assert |RebuildWrites(m, es, store)| == |dl| + |pages|;
      KeptToTheEnd(m, disk, es, frozen, store, ops, removals, resolved, |dl| + |pages|);
    }
  }

  lemma WritesComeFirst(ops: seq<Op>, w: seq<Op>, removals: nat, doomed: set<Path>)
    requires WritesThenRemovals(ops, w, removals, doomed)
    ensures w <= ops
  {
  }

  lemma KeptToTheEnd(m: Manifest, disk: Disk, es: seq<Entry>, frozen: seq<PageId>, store: Option<Store>,
      ops: seq<Op>, removals: nat, resolved: seq<Entry>, lo: nat)
    requires Placed(es) && Agrees(m.files, disk) && resolved == ResolveAll(es, store, m.files)
    requires WritesThenRemovals(ops, RebuildWrites(m, es, store), removals, Orphans(m, es, frozen, store))
    requires lo == |RebuildWrites(m, es, store)|
    ensures KeptUpTo(resolved, m, disk, ops, |ops|) <==> KeptUpTo(resolved, m, disk, ops, lo)
  {
    if KeptUpTo(resolved, m, disk, ops, lo) {
      KeptUpToRemovals(m, disk, es, frozen, store, ops, removals, resolved, lo);
    }
  }

  /** Two pages change places with their bodies as they were: after the first of the two writes no path
      holds the second page's body any more. */
  lemma SwappedPagesCase(a: PageId, b: PageId, p: Path, q: Path, x: Body, y: Body)
    requires a != b && p != q && x != y && |p| > 0 && |q| > 0 && p[0] != ASSETS_DIR && q[0] != ASSETS_DIR
    ensures var disk := map[p := Markdown(x), q := Markdown(y)];
      var m := FRESH.(files := Hashes(disk), pages := map[a := p, b := q]);
      var es := [Entry(q, a, x, []), Entry(p, b, y, [])];
      && Placed(es) && Agrees(m.files, disk) && ResolveAll(es, None, m.files) == es && Takes(es, m, disk, 0, 1)
      && |RebuildWrites(m, es, None)| == 2
      && forall z :: z in ApplyOps(disk, RebuildWrites(m, es, None)[..1]) ==>
           ApplyOps(disk, RebuildWrites(m, es, None)[..1])[z] == Markdown(x)
  {
    var disk := map[p := Markdown(x), q := Markdown(y)];
    var m := FRESH.(files := Hashes(disk), pages := map[a := p, b := q]);
    var e, f := Entry(q, a, x, []), Entry(p, b, y, []);
    SwapTakes(e, f, m, disk);
    PlainWrites([e, f], m);
    TwoWrites(e, f, m.files, [e][..0]);
    OneWrite(disk, RebuildWrites(m, [e, f], None), q, Markdown(x));
  }

  lemma SwapTakes(e: Entry, f: Entry, m: Manifest, disk: Disk)
    requires e.path != f.path && |e.path| > 0 && |f.path| > 0 && e.path[0] != ASSETS_DIR && f.path[0] != ASSETS_DIR
    requires f.pageId in m.pages && m.pages[f.pageId] == e.path && e.path in m.files
    requires !InPlace(disk, e) && !InPlace(disk, f)
    ensures Placed([e, f]) && Takes([e, f], m, disk, 0, 1)
  {
  }

  lemma OneWrite(disk: Disk, w: seq<Op>, q: Path, c: Content)
    requires |w| > 0 && w[0] == Write(q, c)
    ensures ApplyOps(disk, w[..1]) == disk[q := c]
  {
    assert w[..1] == w[..0] + [Write(q, c)];
    ApplySnoc(disk, w[..0], Write(q, c));
  }

  /** Without attachments the writes are the pages'. */
  lemma PlainWrites(es: seq<Entry>, m: Manifest)
    requires forall e :: e in es ==> e.assets == []
    ensures ResolveAll(es, None, m.files) == es
    ensures RebuildWrites(m, es, None) == WriteOps(es, m.files)
  {
    assert forall i :: 0 <= i < |es| ==> es[i] in es;
    assert m.files + Hashes(Downloads(es, None, m.files)) == m.files;
  }

  lemma TwoWrites(e: Entry, f: Entry, files: Files, none: seq<Entry>)
    requires none == [] && e.path != f.path
    requires !UpToDate(files, e.path, Markdown(e.body)) && !UpToDate(files, f.path, Markdown(f.body))
    ensures WriteOps([e, f], files) == [Write(e.path, Markdown(e.body)), Write(f.path, Markdown(f.body))]
  {
    assert none + [e] == [e] && [e] + [f] == [e, f];
    NothingWritten(files, none);
    WritesSnoc(none, e, files);
    WritesSnoc([e], f, files);
    assert UpToDate(files[e.path := Sha256(Markdown(e.body))], f.path, Markdown(f.body)) <==>
      UpToDate(files, f.path, Markdown(f.body));
  }

  lemma NothingWritten(files: Files, none: seq<Entry>)
    requires none == []
    ensures files + PageHashes(none) == files && WriteOps(none, files) == []
  {
  }

  lemma WritesSnoc(es: seq<Entry>, e: Entry, files: Files)
    ensures files + PageHashes(es + [e]) == (files + PageHashes(es))[e.path := Sha256(Markdown(e.body))]
    ensures WriteOps(es + [e], files) == WriteOps(es, files) +
      if UpToDate(files + PageHashes(es), e.path, Markdown(e.body)) then [] else [Write(e.path, Markdown(e.body))]
  {
    assert (es + [e])[..|es|] == es;
  }
}
