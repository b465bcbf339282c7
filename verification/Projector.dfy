/** The projector itself: `MarkdownDiskProjector` writing one workspace's mirror into one folder
    (wiki-mirror/src/markdown-projection.ts:283-726), each method proved against `Projection`. */
module Projector {
  import opened Options
  import opened Slugs
  import opened Forest
  import opened Attachments
  import opened Projection

  /** The mirror root. Every operation is atomic; `trace` records them in order. */
  class Folder {
    var disk: Disk
    var persisted: Option<Manifest>
    ghost var trace: seq<Op>

    constructor ()
      ensures disk == map[] && persisted == None && trace == []
    {
      disk, persisted, trace := map[], None, [];
    }

    method WriteFile(p: Path, c: Content)
      modifies this
      ensures disk == old(disk)[p := c] && persisted == old(persisted) && trace == old(trace) + [Write(p, c)]
    {
      disk := disk[p := c];
      trace := trace + [Write(p, c)];
    }

    method RemoveFile(p: Path)
      modifies this
      ensures disk == old(disk) - {p} && persisted == old(persisted) && trace == old(trace) + [Remove(p)]
    {
      disk := disk - {p};
      trace := trace + [Remove(p)];
    }

    method SaveManifest(m: Manifest)
      modifies this
      ensures disk == old(disk) && persisted == Some(m) && trace == old(trace) + [Save(m)]
    {
      persisted := Some(m);
      trace := trace + [Save(m)];
    }
  }

  datatype Outcome = Done | RootNotLoaded | RootMissing

  predicate ScopeGone(st: Fold, scope: Option<PageId>) {
    scope.Some? && scope.value !in st.pages
  }

  // ----- the shape of a trace -----

  ghost predicate Removals(ops: seq<Op>, doomed: set<Path>) {
    forall i :: 0 <= i < |ops| ==> ops[i].Remove? && ops[i].path in doomed
  }

  /** Every one of `doomed` is removed. */
  ghost predicate RemovesAll(ops: seq<Op>, doomed: set<Path>) {
    forall p :: p in doomed ==> Remove(p) in ops
  }

  /** The writes `w`, then the removals of all `doomed`, then at most one manifest. */
  ghost predicate WritesThenRemovals(ops: seq<Op>, w: seq<Op>, removals: nat, doomed: set<Path>) {
    && |w| + removals <= |ops| <= |w| + removals + 1
    && ops[..|w|] == w
    && Removals(ops[|w|..|w| + removals], doomed) && RemovesAll(ops, doomed)
    && (forall i :: |w| + removals <= i < |ops| ==> ops[i].Save?)
  }

  /** From `at` on, the trace saves this manifest, or nothing. */
  ghost predicate SavesLast(ops: seq<Op>, at: nat, saved: Option<Manifest>) {
    at <= |ops| && ops[at..] == if saved.Some? then [Save(saved.value)] else []
  }

  /** The operations of a whole reconcile from manifest `m` to manifest `next`, in order. */
  ghost predicate Traces(ops: seq<Op>, m: Manifest, next: Manifest, es: seq<Entry>, frozen: seq<PageId>,
      store: Option<Store>,
      removals: nat)
  {
    && WritesThenRemovals(ops, RebuildWrites(m, es, store), removals, Orphans(m, es, frozen, store))
    && SavesLast(ops, |RebuildWrites(m, es, store)| + removals, Changed(m, next))
  }

  /** The operations of a delta from manifest `m`, in order: the documents written, the removed pages'
      files removed, and the new manifest saved unless nothing was written and nothing removed. */
  ghost predicate DeltaTraces(ops: seq<Op>, m: Manifest, disk: Disk, docs: seq<(PageId, Body)>, removed: seq<PageId>,
      st: Fold, scope: Option<PageId>, version: nat, removals: nat)
  {
    var u := Untrack(m, st.retired, removed);
    var w := DocOps(Written(u.files, u.pages, disk, 0), docs, st, scope);
    && WritesThenRemovals(ops, w, removals, (set p | p in u.paths))
    && SavesLast(ops, |w| + removals,
      if AfterDocs(m, disk, docs, removed, st, scope).count > 0 || u.paths != []
      then Some(DeltaManifest(m, disk, docs, removed, st, scope, version)) else None)
  }

  /** The manifest to save, unless nothing but its version changed. */
  function Changed(m: Manifest, next: Manifest): Option<Manifest> {
    if Fingerprint(next) != Fingerprint(m) then Some(next) else None
  }

  class MarkdownDiskProjector {
    const folder: Folder
    const scope: Option<PageId>
    const attachments: Option<Store>
    var manifest: Manifest

    constructor (folder: Folder, scope: Option<PageId>, attachments: Option<Store>)
      ensures this.folder == folder && this.scope == scope && this.attachments == attachments
      ensures manifest == FRESH
    {
      this.folder, this.scope, this.attachments := folder, scope, attachments;
      manifest := FRESH;
    }

    function AppliedVersion(): (v: nat)
      reads this
    {
      manifest.version
    }

    /** Loads the manifest and drops every entry the disk does not bear out. */
    method Init()
      modifies this`manifest
      ensures manifest == BootManifest(folder.persisted, folder.disk, scope)
    {
      if folder.persisted.None? {
        manifest := FRESH;
        return;
      }
      var loaded := folder.persisted.value;
      var m := loaded;
      if m.layout != Some(LAYOUT_VERSION) || m.scope != scope {
        m := m.(version := 0);
      }
      var stale := 0;
      var left := loaded.files.Keys;
      while left != {}
        invariant left <= loaded.files.Keys
        invariant m.files ==
          map p | p in loaded.files && (p in left || p in Verified(loaded.files, folder.disk)) :: loaded.files[p]
        invariant m == loaded.(files := m.files, version := m.version)
        invariant m.version ==
          if loaded.layout != Some(LAYOUT_VERSION) || loaded.scope != scope then 0 else loaded.version
        invariant stale == 0 <==> m.files == loaded.files
        invariant stale >= 0
        decreases |left|
      {
        var rel :| rel in left;
        left := left - {rel};
        var ok := rel in folder.disk && Sha256(folder.disk[rel]) == loaded.files[rel];
        if !ok {
          assert rel !in Verified(loaded.files, folder.disk);
          m := m.(files := m.files - {rel});
          stale := stale + 1;
        }
      }
      assert m.files == Verified(loaded.files, folder.disk);
      if stale == 0 {
        manifest := m;
        return;
      }
      manifest := m.(pages := map id | id in m.pages && m.pages[id] in m.files :: m.pages[id], version := 0);
    }

    /** Writes `content` only when its digest changed. */
    method WriteIfChanged(rel: Path, content: Content) returns (written: bool)
      modifies this`manifest, folder
      ensures manifest == old(manifest).(files := old(manifest).files[rel := Sha256(content)])
      ensures written == !UpToDate(old(manifest).files, rel, content)
      ensures folder.disk == if written then old(folder.disk)[rel := content] else old(folder.disk)
      ensures folder.persisted == old(folder.persisted)
      ensures folder.trace == old(folder.trace) + if written then [Write(rel, content)] else []
    {
      if rel in manifest.files && manifest.files[rel] == Sha256(content) {
        assert manifest.files == manifest.files[rel := Sha256(content)];
        return false;
      }
      folder.WriteFile(rel, content);
      manifest := manifest.(files := manifest.files[rel := Sha256(content)]);
      return true;
    }

    /** Removes the files, in whatever order they come. */
    method RemoveFiles(rels: set<Path>)
      modifies folder
      ensures folder.disk == old(folder.disk) - rels && folder.persisted == old(folder.persisted)
      ensures |folder.trace| >= |old(folder.trace)| && folder.trace[..|old(folder.trace)|] == old(folder.trace)
      ensures Removals(folder.trace[|old(folder.trace)|..], rels)
      ensures RemovesAll(folder.trace[|old(folder.trace)|..], rels)
    {
      var left := rels;
      while left != {}
        invariant left <= rels
        invariant folder.disk == old(folder.disk) - (rels - left) && folder.persisted == old(folder.persisted)
        invariant |folder.trace| >= |old(folder.trace)| && folder.trace[..|old(folder.trace)|] == old(folder.trace)
        invariant Removals(folder.trace[|old(folder.trace)|..], rels)
        invariant RemovesAll(folder.trace[|old(folder.trace)|..], rels - left)
        decreases |left|
      {
        var rel :| rel in left;
        ghost var gone := folder.trace[|old(folder.trace)|..];
        left := left - {rel};
        folder.RemoveFile(rel);
        assert folder.trace[|old(folder.trace)|..] == gone + [Remove(rel)];
      }
      assert rels - left == rels;
    }

    /** The expected files and the frozen pages of a fold. */
    method Sort(r: Render) returns (expected: seq<Entry>, frozen: seq<PageId>)
      requires ValidFold(r.fold)
      ensures expected == Expected(r, scope) && frozen == Frozen(r.fold, scope)
    {
      var st := r.fold;
      expected, frozen := [], st.retired;
      for i := 0 to |st.order|
        invariant expected == ExpectedUpTo(r, scope, i)
        invariant frozen == FrozenUpTo(st, scope, i)
      {
        var id := st.order[i];
        assert id in st.order;
        var reliable := HasReliablePath(id, st);
        if !reliable {
          frozen := frozen + [id];
          continue;
        }
        if scope.Some? {
          var member := InSubtree(id, st, scope.value);
          if member.None? { frozen := frozen + [id]; }
          if member != Some(true) { continue; }
        }
        var pageRel := PageRelPath(id, st, scope);
        expected := Put(expected, Entry(pageRel, id, DocOf(r, id), []));
      }
    }

    /** Makes one referenced asset available, downloading it if it is not tracked. The manifest
        tracked `files0` and the disk held `disk0` before the downloads `d`. */
    method FetchAsset(store: Store, sha: Sha, ghost files0: Files, ghost disk0: Disk, ghost d: Disk)
      returns (usable: bool)
      requires Sourced(store, files0, d)
      requires manifest.files == files0 + Hashes(d) && folder.disk == disk0 + d
      modifies this`manifest, folder
      ensures usable == Usable(store, files0, sha)
      ensures manifest == old(manifest).(files := files0 + Hashes(Into(store, files0, d, sha)))
      ensures folder.disk == disk0 + Into(store, files0, d, sha) && folder.persisted == old(folder.persisted)
      ensures folder.trace == old(folder.trace) + FetchOp(store, files0, d, sha)
    {
      var rel := AssetPath(store, sha);
      IntoLands(store, files0, disk0, d, sha);
      if rel in manifest.files { return true; }
      if sha !in store.bytes { return false; }
      var written := WriteIfChanged(rel, Blob(store.bytes[sha]));
      return true;
    }

    /** One more reference of a page, after those `done`. */
    method FetchNext(store: Store, sha: Sha, ghost files0: Files, ghost disk0: Disk, ghost before: Disk,
        ghost t0: seq<Op>, ghost done: seq<Sha>)
      returns (usable: bool)
      requires Sourced(store, files0, before + Fetched(done, store, files0))
      requires manifest.files == files0 + Hashes(before + Fetched(done, store, files0))
      requires folder.disk == disk0 + (before + Fetched(done, store, files0))
      requires folder.trace == t0 + FetchOps(done, store, files0, before)
      modifies this`manifest, folder
      ensures usable == Usable(store, files0, sha)
      ensures Sourced(store, files0, before + Fetched(done + [sha], store, files0))
      ensures manifest == old(manifest).(files := files0 + Hashes(before + Fetched(done + [sha], store, files0)))
      ensures folder.disk == disk0 + (before + Fetched(done + [sha], store, files0))
      ensures folder.persisted == old(folder.persisted)
      ensures folder.trace == t0 + FetchOps(done + [sha], store, files0, before)
    {
      ghost var d := before + Fetched(done, store, files0);
      IntoLands(store, files0, disk0, d, sha);
      FetchedStep(store, files0, before, done, sha);
      Assoc(t0, FetchOps(done, store, files0, before), FetchOp(store, files0, d, sha));
      usable := FetchAsset(store, sha, files0, disk0, d);
    }

    /** The page's own part in one more reference: its asset listed, its link put in. */
    static method LinkNext(store: Store, entry: Entry, sha: Sha, usable: bool, mine: seq<Path>, body: Body,
        ghost files0: Files, ghost done: seq<Sha>)
      returns (mine': seq<Path>, body': Body)
      requires |entry.path| > 0 && usable == Usable(store, files0, sha)
      requires mine == UsableAssets(done, store, files0)
      requires body == Linked(entry.body, done, Dir(entry.path), store, files0)
      ensures mine' == UsableAssets(done + [sha], store, files0)
      ensures body' == Linked(entry.body, done + [sha], Dir(entry.path), store, files0)
    {
      ResolveStep(entry, done, sha, store, files0);
      mine', body' := mine, body;
      if usable {
        mine' := mine + [AssetPath(store, sha)];
        body' := Relink(body, sha, Relative(Dir(entry.path), AssetPath(store, sha)));
      }
    }

    /** One page's references, in order: their assets made available, their links put in. */
    method ResolveEntry(store: Store, entry: Entry, ghost files0: Files, ghost disk0: Disk, ghost before: Disk)
      returns (resolved: Entry)
      requires |entry.path| > 0
      requires Sourced(store, files0, before)
      requires manifest.files == files0 + Hashes(before) && folder.disk == disk0 + before
      modifies this`manifest, folder
      ensures resolved == Resolve(entry, Some(store), files0)
      ensures manifest == old(manifest).(files := files0 + Hashes(before + Fetched(RefsIn(entry.body), store, files0)))
      ensures folder.disk == disk0 + (before + Fetched(RefsIn(entry.body), store, files0))
      ensures folder.persisted == old(folder.persisted)
      ensures folder.trace == old(folder.trace) + FetchOps(RefsIn(entry.body), store, files0, before)
    {
      var refs := RefsIn(entry.body);
      var mine: seq<Path>, body := [], entry.body;
      ghost var done := refs[..0];
      NothingFetched(entry, store, files0, before, done);
      for j := 0 to |refs|
        invariant done <= refs && |done| == j
        invariant mine == UsableAssets(done, store, files0)
        invariant body == Linked(entry.body, done, Dir(entry.path), store, files0)
        invariant Sourced(store, files0, before + Fetched(done, store, files0))
        invariant manifest == old(manifest).(files := files0 + Hashes(before + Fetched(done, store, files0)))
        invariant folder.disk == disk0 + (before + Fetched(done, store, files0))
        invariant folder.persisted == old(folder.persisted)
        invariant folder.trace == old(folder.trace) + FetchOps(done, store, files0, before)
      {
        var usable := FetchNext(store, refs[j], files0, disk0, before, old(folder.trace), done);
        mine, body := LinkNext(store, entry, refs[j], usable, mine, body, files0, done);
        done := done + [refs[j]];
      }
      assert done == refs;
      resolved := entry.(body := body, assets := mine);
    }

    /** One more page's attachments, after those of the pages `done`. */
    method ResolveNext(store: Store, entry: Entry, resolved0: seq<Entry>, ghost files0: Files, ghost disk0: Disk,
        ghost t0: seq<Op>, ghost done: seq<Entry>)
      returns (resolved: seq<Entry>)
      requires |entry.path| > 0 && resolved0 == ResolveAll(done, Some(store), files0)
      requires manifest.files == files0 + Hashes(Downloads(done, Some(store), files0))
      requires folder.disk == disk0 + Downloads(done, Some(store), files0)
      requires folder.trace == t0 + DownloadOps(done, Some(store), files0)
      modifies this`manifest, folder
      ensures resolved == ResolveAll(done + [entry], Some(store), files0)
      ensures manifest == old(manifest).(files := files0 + Hashes(Downloads(done + [entry], Some(store), files0)))
      ensures folder.disk == disk0 + Downloads(done + [entry], Some(store), files0)
      ensures folder.persisted == old(folder.persisted)
      ensures folder.trace == t0 + DownloadOps(done + [entry], Some(store), files0)
    {
      ghost var d := Downloads(done, Some(store), files0);
      DownloadsStep(done, entry, store, files0);
      DownloadsSourced(done, store, files0);
      Assoc(t0, DownloadOps(done, Some(store), files0), FetchOps(RefsIn(entry.body), store, files0, d));
      ResolveAllStep(done, entry, Some(store), files0);
      var next := ResolveEntry(store, entry, files0, disk0, d);
      resolved := resolved0 + [next];
    }

    /** Every page's references, page by page. */
    method ResolveEntries(store: Store, expected: seq<Entry>) returns (resolved: seq<Entry>)
      requires forall i :: 0 <= i < |expected| ==> |expected[i].path| > 0
      modifies this`manifest, folder
      ensures resolved == ResolveAll(expected, Some(store), old(manifest).files)
      ensures manifest == old(manifest).(files :=
        old(manifest).files + Hashes(Downloads(expected, Some(store), old(manifest).files)))
      ensures folder.disk == old(folder.disk) + Downloads(expected, Some(store), old(manifest).files)
      ensures folder.persisted == old(folder.persisted)
      ensures folder.trace == old(folder.trace) + DownloadOps(expected, Some(store), old(manifest).files)
    {
      ghost var files0, disk0, t0 := manifest.files, folder.disk, folder.trace;
      ghost var done := expected[..0];
      NoDownloads(store, files0, disk0, done);
      resolved := [];
      for i := 0 to |expected|
        invariant done <= expected && |done| == i
        invariant resolved == ResolveAll(done, Some(store), files0)
        invariant manifest == old(manifest).(files := files0 + Hashes(Downloads(done, Some(store), files0)))
        invariant folder.disk == disk0 + Downloads(done, Some(store), files0)
        invariant folder.persisted == old(folder.persisted)
        invariant folder.trace == t0 + DownloadOps(done, Some(store), files0)
      {
        resolved := ResolveNext(store, expected[i], resolved, files0, disk0, t0, done);
        TakeOneMore(expected, done);
        done := done + [expected[i]];
      }
      assert done == expected;
    }

    /** Downloads what the bodies refer to and is not tracked yet, and links the references. */
    method MaterializeAssets(expected: seq<Entry>) returns (resolved: seq<Entry>)
      requires forall i :: 0 <= i < |expected| ==> |expected[i].path| > 0
      modifies this`manifest, folder
      ensures resolved == ResolveAll(expected, attachments, old(manifest).files)
      ensures manifest == old(manifest).(files :=
        old(manifest).files + Hashes(Downloads(expected, attachments, old(manifest).files)))
      ensures folder.disk == old(folder.disk) + Downloads(expected, attachments, old(manifest).files)
      ensures folder.persisted == old(folder.persisted)
      ensures folder.trace == old(folder.trace) + DownloadOps(expected, attachments, old(manifest).files)
    {
      if attachments.None? {
        ghost var d := Downloads(expected, attachments, manifest.files);
        assert manifest.files + Hashes(d) == manifest.files && folder.disk + d == folder.disk;
        return ResolveAll(expected, None, manifest.files);
      }
      resolved := ResolveEntries(attachments.value, expected);
    }

    /** One more page written and recorded, after the pages `done`. */
    method WriteNext(e: Entry, next0: Next, ghost files0: Files, ghost disk0: Disk, ghost t0: seq<Op>,
        ghost done: seq<Entry>)
      returns (next: Next)
      requires manifest.files == files0 + PageHashes(done) && folder.disk == WritePages(done, files0, disk0)
      requires next0 == NextOfPages(done, files0) && folder.trace == t0 + WriteOps(done, files0)
      modifies this`manifest, folder
      ensures manifest == old(manifest).(files := files0 + PageHashes(done + [e]))
      ensures folder.disk == WritePages(done + [e], files0, disk0)
      ensures next == NextOfPages(done + [e], files0)
      ensures folder.persisted == old(folder.persisted)
      ensures folder.trace == t0 + WriteOps(done + [e], files0)
    {
      PageStep(done, e, files0, disk0);
      Assoc(t0, WriteOps(done, files0),
        if UpToDate(manifest.files, e.path, Markdown(e.body)) then [] else [Write(e.path, Markdown(e.body))]);
      var _ := WriteIfChanged(e.path, Markdown(e.body));
      next := RecordPage(next0, e, manifest.files);
    }

    /** Writes the changed pages and collects what the next manifest records about them. */
    method WriteAll(resolved: seq<Entry>) returns (next: Next)
      modifies this`manifest, folder
      ensures manifest == old(manifest).(files := old(manifest).files + PageHashes(resolved))
      ensures folder.disk == WritePages(resolved, old(manifest).files, old(folder.disk))
      ensures next == NextOfPages(resolved, old(manifest).files)
      ensures folder.persisted == old(folder.persisted)
      ensures folder.trace == old(folder.trace) + WriteOps(resolved, old(manifest).files)
    {
      ghost var files0, disk0, t0 := manifest.files, folder.disk, folder.trace;
      ghost var done := resolved[..0];
      NoPages(files0, disk0, done);
      next := Next(map[], map[], map[], {});
      for i := 0 to |resolved|
        invariant done <= resolved && |done| == i
        invariant manifest == old(manifest).(files := files0 + PageHashes(done))
        invariant folder.disk == WritePages(done, files0, disk0)
        invariant next == NextOfPages(done, files0)
        invariant folder.persisted == old(folder.persisted)
        invariant folder.trace == t0 + WriteOps(done, files0)
      {
        next := WriteNext(resolved[i], next, files0, disk0, t0, done);
        TakeOneMore(resolved, done);
        done := done + [resolved[i]];
      }
      assert done == resolved;
    }

    /** Keeps the frozen pages' files and entries. */
    method KeepFrozen(next0: Next, expected: set<Path>, frozen: seq<PageId>) returns (next: Next)
      ensures next == Freeze(next0, manifest, expected, frozen)
    {
      next := next0;
      for i := 0 to |frozen|
        invariant next == Freeze(next0, manifest, expected, frozen[..i])
      {
        assert frozen[..i + 1][..i] == frozen[..i] && frozen[..i + 1][i] == frozen[i];
        next := FreezeOne(next, manifest, expected, frozen[i]);
      }
      assert frozen[..|frozen|] == frozen;
    }

    /** Every write of a reconcile: downloads, then pages. */
    method WritePass(expected: seq<Entry>) returns (next: Next)
      requires forall i :: 0 <= i < |expected| ==> |expected[i].path| > 0
      modifies this`manifest, folder
      ensures manifest == old(manifest).(files := TrackedAfterWrites(old(manifest), expected, attachments))
      ensures folder.disk == WrittenDisk(old(manifest), old(folder.disk), expected, attachments)
      ensures next == NextOfPages(ResolveAll(expected, attachments, old(manifest).files),
                        old(manifest).files + Hashes(Downloads(expected, attachments, old(manifest).files)))
      ensures folder.persisted == old(folder.persisted)
      ensures folder.trace == old(folder.trace) + RebuildWrites(old(manifest), expected, attachments)
    {
      ghost var m0 := manifest;
      var resolved := MaterializeAssets(expected);
      Assoc(old(folder.trace), DownloadOps(expected, attachments, m0.files), WriteOps(resolved, manifest.files));
      next := WriteAll(resolved);
    }

    /** A reconcile whose subtree root is folded: the folder and the manifest become what
        `Projection` says, and every write comes before every removal. */
    method Reconcile(version: nat, r: Render) returns (ghost removals: nat)
      requires ValidFold(r.fold)
      modifies this`manifest, folder
      ensures manifest == RebuiltManifest(old(manifest), Expected(r, scope), Frozen(r.fold, scope), attachments,
        version, scope)
      ensures folder.disk ==
        RebuiltDisk(old(manifest), old(folder.disk), Expected(r, scope), Frozen(r.fold, scope), attachments)
      ensures folder.persisted ==
        if Fingerprint(manifest) != Fingerprint(old(manifest)) then Some(manifest) else old(folder.persisted)
      ensures |folder.trace| >= |old(folder.trace)| && folder.trace[..|old(folder.trace)|] == old(folder.trace)
      ensures Traces(folder.trace[|old(folder.trace)|..], old(manifest), manifest,
                Expected(r, scope), Frozen(r.fold, scope), attachments, removals)
    {
      ghost var m0, t0 := manifest, folder.trace;
      var before := manifest;
      var expected, frozen := Sort(r);
      ExpectedOutsideAssets(r, scope);
      assert forall i :: 0 <= i < |expected| ==> expected[i] in expected;
      var next := WritePass(expected);
      next := KeepFrozen(next, PathsIn(expected), frozen);
      assert next == NextState(m0, expected, frozen, attachments);
      var orphans := set p | p in manifest.files && p !in PathsIn(expected) && p !in next.kept && p !in next.files;
      assert orphans == Orphans(m0, expected, frozen, attachments);
      removals := Sweep(orphans, Manifest(version, next.files, next.pages, next.assets, Some(LAYOUT_VERSION), scope),
        before);
      TracesWhole(t0, folder.trace, m0, manifest, expected, frozen, attachments, orphans, removals);
    }

    /** Removes the orphans, then adopts the new manifest, saving it if more than the version changed. */
    method Sweep(orphans: set<Path>, next: Manifest, before: Manifest) returns (ghost removals: nat)
      modifies this`manifest, folder
      ensures manifest == next && folder.disk == old(folder.disk) - orphans
      ensures folder.persisted == if Fingerprint(next) != Fingerprint(before) then Some(next) else old(folder.persisted)
      ensures |folder.trace| >= |old(folder.trace)| && folder.trace[..|old(folder.trace)|] == old(folder.trace)
      ensures WritesThenRemovals(folder.trace[|old(folder.trace)|..], [], removals, orphans)
      ensures SavesLast(folder.trace[|old(folder.trace)|..], removals, Changed(before, next))
    {
      RemoveFiles(orphans);
      removals := |folder.trace| - |old(folder.trace)|;
      ghost var gone := folder.trace[|old(folder.trace)|..];
      manifest := next;
      if Fingerprint(next) != Fingerprint(before) {
        folder.SaveManifest(next);
        assert folder.trace[|old(folder.trace)|..] == gone + [Save(next)];
      }
    }

    /** A whole reconcile; it refuses, touching nothing, when the subtree root is gone. */
    method Rebuild(version: nat, r: Render) returns (outcome: Outcome)
      requires ValidFold(r.fold)
      modifies this`manifest, folder
      ensures outcome ==
        if !ScopeGone(r.fold, scope) then Done
        else if scope.value in r.fold.retired then RootNotLoaded else RootMissing
      ensures ScopeGone(r.fold, scope) ==>
        manifest == old(manifest) && folder.disk == old(folder.disk) && folder.persisted == old(folder.persisted)
      ensures !ScopeGone(r.fold, scope) ==>
        && manifest == RebuiltManifest(old(manifest), Expected(r, scope), Frozen(r.fold, scope), attachments, version,
          scope)
        && folder.disk == RebuiltDisk(old(manifest), old(folder.disk), Expected(r, scope), Frozen(r.fold, scope),
          attachments)
        && folder.persisted ==
          (if Fingerprint(manifest) != Fingerprint(old(manifest)) then Some(manifest) else old(folder.persisted))
    {
      if scope.Some? && scope.value !in r.fold.pages {
        return if scope.value in r.fold.retired then RootNotLoaded else RootMissing;
      }
      var _ := Reconcile(version, r);
      return Done;
    }

    /** Untracks the removed pages the registry knows; `paths` are their files. */
    method UntrackPages(removed: seq<PageId>, retired: seq<PageId>) returns (paths: seq<Path>)
      modifies this`manifest
      ensures var u := Untrack(old(manifest), retired, removed);
        && manifest == old(manifest).(files := u.files, pages := u.pages)
        && paths == u.paths
    {
      paths := [];
      for i := 0 to |removed|
        invariant manifest == old(manifest).(files := manifest.files, pages := manifest.pages)
        invariant Untracked(manifest.files, manifest.pages, paths) == Untrack(old(manifest), retired, removed[..i])
      {
        assert removed[..i + 1][..i] == removed[..i] && removed[..i + 1][i] == removed[i];
        var id := removed[i];
        if id in retired { continue; }
        if id in manifest.pages {
          var rel := manifest.pages[id];
          paths := paths + [rel];
          manifest := manifest.(pages := manifest.pages - {id}, files := manifest.files - {rel});
        }
      }
      assert removed[..|removed|] == removed;
    }

    /** Writes the documents within the scope, in order, and records where they lie. */
    method WriteDocuments(docs: seq<(PageId, Body)>, st: Fold) returns (written: nat)
      modifies this`manifest, folder
      ensures var w0 := Written(old(manifest).files, old(manifest).pages, old(folder.disk), 0);
        && Written(manifest.files, manifest.pages, folder.disk, written) == WriteDocs(w0, docs, st, scope)
        && folder.trace == old(folder.trace) + DocOps(w0, docs, st, scope)
      ensures manifest == old(manifest).(files := manifest.files, pages := manifest.pages)
      ensures folder.persisted == old(folder.persisted)
    {
      written := 0;
      ghost var w0 := Written(manifest.files, manifest.pages, folder.disk, 0);
      ghost var done := docs[..0];
      for i := 0 to |docs|
        invariant done <= docs && |done| == i
        invariant manifest == old(manifest).(files := manifest.files, pages := manifest.pages)
        invariant Written(manifest.files, manifest.pages, folder.disk, written) == WriteDocs(w0, done, st, scope)
        invariant folder.persisted == old(folder.persisted)
        invariant folder.trace == old(folder.trace) + DocOps(w0, done, st, scope)
      {
        var (id, body) := docs[i];
        DocStep(w0, done, id, body, st, scope, old(folder.trace));
        done := done + [(id, body)];
        if scope.Some? {
          var member := InSubtree(id, st, scope.value);
          if member != Some(true) { continue; }
        }
        var rel := PageRelPath(id, st, scope);
        var wrote := WriteIfChanged(rel, Markdown(body));
        if wrote { written := written + 1; }
        manifest := manifest.(pages := manifest.pages[id := rel]);
      }
      assert done == docs;
    }

    /** Removes the files, then adopts the version, saving the manifest if anything was touched. */
    method Settle(doomed: set<Path>, version: nat, touched: bool) returns (ghost removals: nat)
      modifies this`manifest, folder
      ensures manifest == old(manifest).(version := version) && folder.disk == old(folder.disk) - doomed
      ensures folder.persisted == if touched then Some(manifest) else old(folder.persisted)
      ensures |folder.trace| >= |old(folder.trace)| && folder.trace[..|old(folder.trace)|] == old(folder.trace)
      ensures WritesThenRemovals(folder.trace[|old(folder.trace)|..], [], removals, doomed)
      ensures SavesLast(folder.trace[|old(folder.trace)|..], removals, if touched then Some(manifest) else None)
    {
      RemoveFiles(doomed);
      removals := |folder.trace| - |old(folder.trace)|;
      ghost var gone := folder.trace[|old(folder.trace)|..];
      manifest := manifest.(version := version);
      if touched {
        folder.SaveManifest(manifest);
        assert folder.trace[|old(folder.trace)|..] == gone + [Save(manifest)];
      }
    }

    /** A content commit: writes the given pages, drops the removed pages' files, no sweep. */
    method ApplyDelta(version: nat, docs: seq<(PageId, Body)>, removed: seq<PageId>, st: Fold)
      returns (ghost removals: nat)
      modifies this`manifest, folder
      ensures manifest == DeltaManifest(old(manifest), old(folder.disk), docs, removed, st, scope, version)
      ensures folder.disk == DeltaDisk(old(manifest), old(folder.disk), docs, removed, st, scope)
      ensures folder.persisted ==
        if AfterDocs(old(manifest), old(folder.disk), docs, removed, st, scope).count > 0
           || Untrack(old(manifest), st.retired, removed).paths != []
        then Some(manifest) else old(folder.persisted)
      ensures |folder.trace| >= |old(folder.trace)| && folder.trace[..|old(folder.trace)|] == old(folder.trace)
      ensures DeltaTraces(folder.trace[|old(folder.trace)|..], old(manifest), old(folder.disk), docs, removed, st,
                scope, version, removals)
    {
      ghost var t0 := folder.trace;
      var removedPaths := UntrackPages(removed, st.retired);
      ghost var w0 := Written(manifest.files, manifest.pages, folder.disk, 0);
      var written := WriteDocuments(docs, st);
      var touched := written > 0 || |removedPaths| > 0;
      var doomed := set p | p in removedPaths;
      removals := Settle(doomed, version, touched);
      TraceAppends(t0, DocOps(w0, docs, st, scope), folder.trace, removals, doomed,
        if touched then Some(manifest) else None);
    }
  }

  /** One more document of a delta. */
  lemma DocStep(w: Written, docs: seq<(PageId, Body)>, id: PageId, body: Body, st: Fold, scope: Option<PageId>,
      t0: seq<Op>)
    ensures var v, rel := WriteDocs(w, docs, st, scope), PathOf(id, st, scope);
      && var clean := UpToDate(v.files, rel, Markdown(body));
      && WriteDocs(w, docs + [(id, body)], st, scope) ==
        (if DeltaSkips(id, st, scope) then v
         else Written(v.files[rel := Sha256(Markdown(body))], v.pages[id := rel],
           if clean then v.disk else v.disk[rel := Markdown(body)], if clean then v.count else v.count + 1))
      && t0 + DocOps(w, docs + [(id, body)], st, scope) ==
        t0 + DocOps(w, docs, st, scope) +
        if DeltaSkips(id, st, scope) || clean then [] else [Write(rel, Markdown(body))]
  {
    assert (docs + [(id, body)])[..|docs|] == docs;
  }

  lemma TakeOneMore<T>(xs: seq<T>, done: seq<T>)
    requires done <= xs && |done| < |xs|
    ensures done + [xs[|done|]] <= xs
  {
  }

  lemma Assoc<T>(a: seq<T>, b: seq<T>, c: seq<T>)
    ensures (a + b) + c == a + (b + c)
  {
  }

  lemma TracesWhole(t0: seq<Op>, t: seq<Op>, m: Manifest, next: Manifest, es: seq<Entry>, frozen: seq<PageId>,
      store: Option<Store>, orphans: set<Path>, removals: nat)
    requires orphans == Orphans(m, es, frozen, store)
    requires |t| >= |t0 + RebuildWrites(m, es, store)|
    requires t[..|t0 + RebuildWrites(m, es, store)|] == t0 + RebuildWrites(m, es, store)
    requires WritesThenRemovals(t[|t0 + RebuildWrites(m, es, store)|..], [], removals, orphans)
    requires SavesLast(t[|t0 + RebuildWrites(m, es, store)|..], removals, Changed(m, next))
    ensures |t| >= |t0| && t[..|t0|] == t0
    ensures Traces(t[|t0|..], m, next, es, frozen, store, removals)
  {
    TraceAppends(t0, RebuildWrites(m, es, store), t, removals, orphans, Changed(m, next));
  }

  lemma TraceAppends(t0: seq<Op>, w: seq<Op>, t: seq<Op>, removals: nat, orphans: set<Path>, saved: Option<Manifest>)
    requires |t| >= |t0 + w| && t[..|t0 + w|] == t0 + w
    requires WritesThenRemovals(t[|t0 + w|..], [], removals, orphans) && SavesLast(t[|t0 + w|..], removals, saved)
    ensures |t| >= |t0| && t[..|t0|] == t0
    ensures WritesThenRemovals(t[|t0|..], w, removals, orphans) && SavesLast(t[|t0|..], |w| + removals, saved)
  {
    var rest := t[|t0 + w|..];
    assert t[|t0|..] == w + rest;
    assert t[..|t0|] == t[..|t0 + w|][..|t0|];
    assert t[|t0|..][..|w|] == t[..|t0 + w|][|t0|..] == w;
    assert t[|t0|..][|w|..|w| + removals] == rest[0..removals];
    forall i | |w| + removals <= i < |t[|t0|..]| ensures t[|t0|..][i].Save? {
      assert t[|t0|..][i] == rest[i - |w|];
    }
  }

  lemma NoPages(files: Files, disk: Disk, none: seq<Entry>)
    requires none == []
    ensures files + PageHashes(none) == files && WritePages(none, files, disk) == disk && WriteOps(none, files) == []
    ensures NextOfPages(none, files) == Next(map[], map[], map[], {})
  {
  }

  /** One more page written: what it adds to the manifest, the disk and the next manifest. */
  lemma PageStep(es: seq<Entry>, e: Entry, files: Files, disk: Disk)
    ensures files + PageHashes(es + [e]) == (files + PageHashes(es))[e.path := Sha256(Markdown(e.body))]
    ensures WriteOps(es + [e], files) == WriteOps(es, files) +
      (if UpToDate(files + PageHashes(es), e.path, Markdown(e.body)) then [] else [Write(e.path, Markdown(e.body))])
    ensures WritePages(es + [e], files, disk) ==
      (if UpToDate(files + PageHashes(es), e.path, Markdown(e.body)) then WritePages(es, files, disk)
       else WritePages(es, files, disk)[e.path := Markdown(e.body)])
    ensures NextOfPages(es + [e], files) == RecordPage(NextOfPages(es, files), e, files + PageHashes(es + [e]))
  {
    assert (es + [e])[..|es|] == es;
  }

  lemma DownloadsSourced(es: seq<Entry>, store: Store, files: Files)
    ensures Sourced(store, files, Downloads(es, Some(store), files))
  {
    forall s: Sha | AssetPath(store, s) in Downloads(es, Some(store), files)
      ensures s in store.bytes && Downloads(es, Some(store), files)[AssetPath(store, s)] == Blob(store.bytes[s])
    {
      DownloadsExactly(es, store, files, AssetPath(store, s));
      var e, s' :|
        e in es && s' in RefsIn(e.body) && Fresh(store, files, s') && AssetPath(store, s) == AssetPath(store, s');
      AssetPathsDiffer(store, s, s');
    }
  }

  /** Downloads hold what the store serves, at paths that were not tracked. */
  ghost predicate Sourced(store: Store, files0: Files, d: Disk) {
    && (forall p :: p in d ==> p !in files0)
    && (forall s: Sha :: AssetPath(store, s) in d ==>
      s in store.bytes && d[AssetPath(store, s)] == Blob(store.bytes[s]))
  }

  /** The downloads `d` with `sha` added, if it takes a download. */
  ghost function Into(store: Store, files0: Files, d: Disk, sha: Sha): Disk {
    if Fresh(store, files0, sha) then d[AssetPath(store, sha) := Blob(store.bytes[sha])] else d
  }

  lemma IntoLands(store: Store, files0: Files, disk0: Disk, d: Disk, sha: Sha)
    requires Sourced(store, files0, d)
    ensures Sourced(store, files0, Into(store, files0, d, sha))
    ensures AssetPath(store, sha) in files0 + Hashes(d) ==>
      Into(store, files0, d, sha) == d && Usable(store, files0, sha)
    ensures files0 + Hashes(Into(store, files0, d, sha)) ==
      if Fresh(store, files0, sha)
      then (files0 + Hashes(d))[AssetPath(store, sha) := Sha256(Blob(store.bytes[sha]))] else files0 + Hashes(d)
    ensures disk0 + Into(store, files0, d, sha) ==
      if Fresh(store, files0, sha) then (disk0 + d)[AssetPath(store, sha) := Blob(store.bytes[sha])] else disk0 + d
    ensures forall p :: p in d ==> p in Into(store, files0, d, sha) && Into(store, files0, d, sha)[p] == d[p]
  {
    if Fresh(store, files0, sha) {
      StaysSourced(store, files0, d, sha);
      SameIfThere(store, files0, d, sha);
      OneMoreTracked(files0, disk0, d, AssetPath(store, sha), Blob(store.bytes[sha]));
    }
  }

  lemma StaysSourced(store: Store, files0: Files, d: Disk, sha: Sha)
    requires Sourced(store, files0, d) && Fresh(store, files0, sha)
    ensures Sourced(store, files0, d[AssetPath(store, sha) := Blob(store.bytes[sha])])
  {
    var d' := d[AssetPath(store, sha) := Blob(store.bytes[sha])];
    forall s: Sha | AssetPath(store, s) in d'
      ensures s in store.bytes && d'[AssetPath(store, s)] == Blob(store.bytes[s])
    {
      if AssetPath(store, s) == AssetPath(store, sha) {
        AssetPathsDiffer(store, s, sha);
      }
    }
  }

  /** A digest downloaded already comes down the same. */
  lemma SameIfThere(store: Store, files0: Files, d: Disk, sha: Sha)
    requires Sourced(store, files0, d) && sha in store.bytes
    ensures AssetPath(store, sha) in d ==> d[AssetPath(store, sha) := Blob(store.bytes[sha])] == d
  {
  }

  lemma OneMoreTracked(files0: Files, disk0: Disk, d: Disk, p: Path, c: Content)
    ensures files0 + Hashes(d[p := c]) == (files0 + Hashes(d))[p := Sha256(c)]
    ensures disk0 + d[p := c] == (disk0 + d)[p := c]
  {
  }

  lemma FetchedStep(store: Store, files0: Files, before: Disk, refs: seq<Sha>, sha: Sha)
    ensures before + Fetched(refs + [sha], store, files0) ==
      Into(store, files0, before + Fetched(refs, store, files0), sha)
    ensures FetchOps(refs + [sha], store, files0, before) ==
      FetchOps(refs, store, files0, before) + FetchOp(store, files0, before + Fetched(refs, store, files0), sha)
  {
    assert (refs + [sha])[..|refs|] == refs;
  }

  lemma NothingFetched(entry: Entry, store: Store, files: Files, before: Disk, none: seq<Sha>)
    requires none == [] && |entry.path| > 0
    ensures before + Fetched(none, store, files) == before && FetchOps(none, store, files, before) == []
    ensures UsableAssets(none, store, files) == []
    ensures Linked(entry.body, none, Dir(entry.path), store, files) == entry.body
  {
  }

  lemma NoDownloads(store: Store, files: Files, disk: Disk, none: seq<Entry>)
    requires none == []
    ensures files + Hashes(Downloads(none, Some(store), files)) == files
    ensures disk + Downloads(none, Some(store), files) == disk
    ensures DownloadOps(none, Some(store), files) == [] && ResolveAll(none, Some(store), files) == []
  {
  }

  lemma DownloadsStep(es: seq<Entry>, e: Entry, store: Store, files: Files)
    ensures Downloads(es + [e], Some(store), files) ==
      Downloads(es, Some(store), files) + Fetched(RefsIn(e.body), store, files)
    ensures DownloadOps(es + [e], Some(store), files) ==
      DownloadOps(es, Some(store), files) + FetchOps(RefsIn(e.body), store, files, Downloads(es, Some(store), files))
  {
    assert (es + [e])[..|es|] == es;
  }

  lemma ResolveAllStep(es: seq<Entry>, e: Entry, store: Option<Store>, files: Files)
    ensures ResolveAll(es + [e], store, files) == ResolveAll(es, store, files) + [Resolve(e, store, files)]
  {
  }

  lemma ResolveStep(entry: Entry, refs: seq<Sha>, sha: Sha, store: Store, files: Files)
    requires |entry.path| > 0
    ensures UsableAssets(refs + [sha], store, files) ==
      UsableAssets(refs, store, files) + (if Usable(store, files, sha) then [AssetPath(store, sha)] else [])
    ensures Linked(entry.body, refs + [sha], Dir(entry.path), store, files) ==
      (if Usable(store, files, sha)
       then Relink(Linked(entry.body, refs, Dir(entry.path), store, files), sha,
         Relative(Dir(entry.path), AssetPath(store, sha)))
       else Linked(entry.body, refs, Dir(entry.path), store, files))
  {
    assert (refs + [sha])[..|refs|] == refs;
  }
}
