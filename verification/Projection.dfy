/** What one rebuild or one delta does to a mirror's folder and manifest, as functions of the state
    it starts from (wiki-mirror/src/markdown-projection.ts:403-574). */
module Projection {
  import opened Options
  import opened Slugs
  import opened Forest
  import opened Attachments

  /** SHA-256 taken as injective: the digest of a content stands for that content. */
  datatype Hash = Sha256(content: Content)

  const LAYOUT_VERSION: nat := 2

  type Files = map<Path, Hash>
  type Disk = map<Path, Content>

  datatype Manifest = Manifest(
    version: nat,
    files: Files,
    pages: map<PageId, Path>,
    assets: map<PageId, seq<Path>>,
    layout: Option<nat>,
    scope: Option<PageId>)

  const FRESH := Manifest(0, map[], map[], map[], None, None)

  /** Everything a manifest records except its version. */
  function Fingerprint(m: Manifest): Manifest {
    m.(version := 0)
  }

  /** A fold with the bodies rendered from it. */
  datatype Render = Render(fold: Fold, docs: map<PageId, Body>)

  function DocOf(r: Render, id: PageId): Body {
    if id in r.docs then r.docs[id] else []
  }

  /** What the mirror wants at one path; `assets` are the asset files the body refers to. */
  datatype Entry = Entry(path: Path, pageId: PageId, body: Body, assets: seq<Path>)

  // ----- the expected file set -----

  function PathsIn(es: seq<Entry>): set<Path> {
    set e | e in es :: e.path
  }

  ghost predicate UniquePaths(es: seq<Entry>) {
    forall i, j :: 0 <= i < j < |es| ==> es[i].path != es[j].path
  }

  function IndexOfPath(es: seq<Entry>, p: Path): (k: nat)
    requires p in PathsIn(es)
    ensures k < |es| && es[k].path == p
  {
    if es[0].path == p then 0
    else
      assert es == [es[0]] + es[1..];
      1 + IndexOfPath(es[1..], p)
  }

  /** `Map.set`: a path already present keeps its place and takes the new value. */
  function Put(es: seq<Entry>, e: Entry): (r: seq<Entry>)
    ensures UniquePaths(es) ==> UniquePaths(r)
    ensures PathsIn(r) == PathsIn(es) + {e.path}
  {
    if e.path in PathsIn(es) then
      var k := IndexOfPath(es, e.path);
      assert forall x :: x in es[k := e] ==> x == e || x in es;
      assert es[k := e][k] == e;
      assert forall j :: 0 <= j < |es| && j != k ==> es[k := e][j] == es[j];
      es[k := e]
    else
      es + [e]
  }

  function EntryFor(r: Render, scope: Option<PageId>, id: PageId): Entry {
    Entry(PathOf(id, r.fold, scope), id, DocOf(r, id), [])
  }

  /** The expected files after the first `n` pages of the fold. */
  function ExpectedUpTo(r: Render, scope: Option<PageId>, n: nat): (es: seq<Entry>)
    requires n <= |r.fold.order|
    ensures UniquePaths(es)
  {
    if n == 0 then []
    else
      var es, id := ExpectedUpTo(r, scope, n - 1), r.fold.order[n - 1];
      if Mirrored(id, r.fold, scope) then Put(es, EntryFor(r, scope, id)) else es
  }

  function Expected(r: Render, scope: Option<PageId>): (es: seq<Entry>)
    ensures UniquePaths(es)
  {
    ExpectedUpTo(r, scope, |r.fold.order|)
  }

  /** Nothing but mirrored pages is expected, each at its own path with its own body. */
  lemma {:induction false} ExpectedAreMirrored(r: Render, scope: Option<PageId>, n: nat)
    requires n <= |r.fold.order|
    ensures forall e :: e in ExpectedUpTo(r, scope, n) ==>
      Mirrored(e.pageId, r.fold, scope) && e == EntryFor(r, scope, e.pageId)
  {
    if n > 0 {
      ExpectedAreMirrored(r, scope, n - 1);
      var es, id := ExpectedUpTo(r, scope, n - 1), r.fold.order[n - 1];
      if Mirrored(id, r.fold, scope) {
        PutHolds(es, EntryFor(r, scope, id));
      }
    }
  }

  lemma PutHolds(es: seq<Entry>, e: Entry)
    ensures forall x :: x in Put(es, e) ==> x == e || x in es
    ensures e in Put(es, e)
  {
    if e.path in PathsIn(es) {
      var k := IndexOfPath(es, e.path);
      assert es[k := e][k] == e;
    }
  }

  /** A folded page the mirror must leave alone: it cannot tell the page's path or its subtree. */
  predicate Unplaced(id: PageId, st: Fold, scope: Option<PageId>) {
    !Faithful(id, st) || (scope.Some? && Membership(id, st, scope.value).None?)
  }

  function FrozenUpTo(st: Fold, scope: Option<PageId>, n: nat): (ids: seq<PageId>)
    requires n <= |st.order|
    ensures forall id :: id in ids <==> id in st.retired || (id in st.order[..n] && Unplaced(id, st, scope))
  {
    if n == 0 then st.retired
    else
      var ids, id := FrozenUpTo(st, scope, n - 1), st.order[n - 1];
      assert st.order[..n] == st.order[..n - 1] + [id];
      if Unplaced(id, st, scope) then ids + [id] else ids
  }

  function Frozen(st: Fold, scope: Option<PageId>): (ids: seq<PageId>)
    ensures forall id :: id in ids <==> id in st.retired || (id in st.order && Unplaced(id, st, scope))
  {
    assert st.order[..|st.order|] == st.order;
    FrozenUpTo(st, scope, |st.order|)
  }

  // ----- attachments -----

  /** The reference can be resolved: its asset is tracked already, or its bytes can be had. */
  predicate Usable(store: Store, files: Files, sha: Sha) {
    AssetPath(store, sha) in files || sha in store.bytes
  }

  function UsableAssets(refs: seq<Sha>, store: Store, files: Files): (r: seq<Path>)
    ensures forall p :: p in r <==> exists s :: s in refs && Usable(store, files, s) && p == AssetPath(store, s)
  {
    if refs == [] then []
    else
      var init, last := refs[..|refs| - 1], refs[|refs| - 1];
      assert refs == init + [last];
      UsableAssets(init, store, files) + (if Usable(store, files, last) then [AssetPath(store, last)] else [])
  }

  /** The body with the references among `refs` that can be resolved replaced by links. */
  function Linked(body: Body, refs: seq<Sha>, dir: Path, store: Store, files: Files): (r: Body)
    ensures |r| == |body|
  {
    seq(|body|, i requires 0 <= i < |body| =>
      if body[i].Ref? && body[i].sha in refs && Usable(store, files, body[i].sha)
      then Link(Relative(dir, AssetPath(store, body[i].sha))) else body[i])
  }

  function Dir(p: Path): Path
    requires |p| > 0
  {
    p[..|p| - 1]
  }

  function Resolve(e: Entry, store: Option<Store>, files: Files): (r: Entry)
    ensures r.path == e.path && r.pageId == e.pageId
  {
    if store.None? || |e.path| == 0 then e.(assets := [])
    else
      var refs := RefsIn(e.body);
      e.(body := Linked(e.body, refs, Dir(e.path), store.value, files),
         assets := UsableAssets(refs, store.value, files))
  }

  function ResolveAll(es: seq<Entry>, store: Option<Store>, files: Files): (r: seq<Entry>)
    ensures |r| == |es| && forall i :: 0 <= i < |es| ==> r[i] == Resolve(es[i], store, files)
  {
    seq(|es|, i requires 0 <= i < |es| => Resolve(es[i], store, files))
  }

  /** Referenced, not tracked yet, and served: a download. */
  predicate Fresh(store: Store, files: Files, sha: Sha) {
    AssetPath(store, sha) !in files && sha in store.bytes
  }

  /** The downloads a list of references causes. */
  function Fetched(refs: seq<Sha>, store: Store, files: Files): (d: Disk)
    ensures forall p :: p in d ==> p !in files
  {
    if refs == [] then map[]
    else
      var d, sha := Fetched(refs[..|refs| - 1], store, files), refs[|refs| - 1];
      if Fresh(store, files, sha) then d[AssetPath(store, sha) := Blob(store.bytes[sha])] else d
  }

  function Downloads(es: seq<Entry>, store: Option<Store>, files: Files): (d: Disk)
    ensures forall p :: p in d ==> p !in files
  {
    if store.None? || es == [] then map[]
    else Downloads(es[..|es| - 1], store, files) + Fetched(RefsIn(es[|es| - 1].body), store.value, files)
  }

  lemma {:induction false} FetchedExactly(refs: seq<Sha>, store: Store, files: Files, p: Path)
    ensures p in Fetched(refs, store, files) <==>
      exists s :: s in refs && Fresh(store, files, s) && p == AssetPath(store, s)
    ensures forall s | s in store.bytes && p == AssetPath(store, s) && p in Fetched(refs, store, files) ::
      Fetched(refs, store, files)[p] == Blob(store.bytes[s])
  {
    if refs != [] {
      var init, last := refs[..|refs| - 1], refs[|refs| - 1];
      assert refs == init + [last];
      FetchedExactly(init, store, files, p);
      forall s | s in store.bytes && p == AssetPath(store, s) && p in Fetched(refs, store, files)
        ensures Fetched(refs, store, files)[p] == Blob(store.bytes[s])
      {
        if Fresh(store, files, last) && p == AssetPath(store, last) {
          AssetPathsDiffer(store, s, last);
        }
      }
    }
  }

  /** What a rebuild downloads: exactly the fresh digests its pages refer to. */
  lemma {:induction false} DownloadsExactly(es: seq<Entry>, store: Store, files: Files, p: Path)
    ensures p in Downloads(es, Some(store), files) <==>
      exists e, s :: e in es && s in RefsIn(e.body) && Fresh(store, files, s) && p == AssetPath(store, s)
    ensures forall s | s in store.bytes && p == AssetPath(store, s) && p in Downloads(es, Some(store), files) ::
      Downloads(es, Some(store), files)[p] == Blob(store.bytes[s])
  {
    if es != [] {
      var init, last := es[..|es| - 1], es[|es| - 1];
      assert es == init + [last];
      DownloadsExactly(init, store, files, p);
      FetchedExactly(RefsIn(last.body), store, files, p);
    }
  }

  function Hashes(d: Disk): Files {
    map p | p in d :: Sha256(d[p])
  }

  // ----- the three passes of a rebuild -----

  function PageHashes(es: seq<Entry>): Files {
    if es == [] then map[]
    else PageHashes(es[..|es| - 1])[es[|es| - 1].path := Sha256(Markdown(es[|es| - 1].body))]
  }

  predicate UpToDate(files: Files, p: Path, c: Content) {
    p in files && files[p] == Sha256(c)
  }

  /** Writes every page whose recorded hash differs. */
  function WritePages(es: seq<Entry>, files: Files, disk: Disk): Disk {
    if es == [] then disk
    else
      var init, last := es[..|es| - 1], es[|es| - 1];
      var d := WritePages(init, files, disk);
      if UpToDate(files + PageHashes(init), last.path, Markdown(last.body)) then d
      else d[last.path := Markdown(last.body)]
  }

  datatype Next = Next(files: Files, pages: map<PageId, Path>, assets: map<PageId, seq<Path>>, kept: set<Path>)

  function Listed(files: Files, ps: seq<Path>): Files {
    map p | p in ps && p in files :: files[p]
  }

  /** Records a page just written, and the assets it refers to, as tracked `now`. */
  function RecordPage(n: Next, e: Entry, now: Files): Next
    requires e.path in now
  {
    Next(n.files[e.path := now[e.path]] + Listed(now, e.assets), n.pages[e.pageId := e.path],
         if e.assets != [] then n.assets[e.pageId := e.assets] else n.assets, n.kept)
  }

  /** The manifest the written pages leave behind; `files` is the manifest's before the page writes. */
  function NextOfPages(es: seq<Entry>, files: Files): Next {
    if es == [] then Next(map[], map[], map[], {})
    else RecordPage(NextOfPages(es[..|es| - 1], files), es[|es| - 1], files + PageHashes(es))
  }

  /** A frozen page keeps its tracked file, its entry and its assets, unless its path is expected. */
  function FreezeOne(n: Next, m: Manifest, expected: set<Path>, id: PageId): Next {
    if id !in m.pages || m.pages[id] in expected then n
    else
      var rel := m.pages[id];
      var files := if rel in m.files then n.files[rel := m.files[rel]] else n.files;
      var pages := n.pages[id := rel];
      if id in m.assets then
        Next(files + Listed(m.files, m.assets[id]), pages, n.assets[id := m.assets[id]],
          n.kept + {rel} + set a | a in m.assets[id])
      else
        Next(files, pages, n.assets, n.kept + {rel})
  }

  function Freeze(n: Next, m: Manifest, expected: set<Path>, ids: seq<PageId>): Next {
    if ids == [] then n
    else FreezeOne(Freeze(n, m, expected, ids[..|ids| - 1]), m, expected, ids[|ids| - 1])
  }

  /** Tracked files once every write of the rebuild has landed. */
  function TrackedAfterWrites(m: Manifest, es: seq<Entry>, store: Option<Store>): Files {
    m.files + Hashes(Downloads(es, store, m.files)) + PageHashes(ResolveAll(es, store, m.files))
  }

  function NextState(m: Manifest, es: seq<Entry>, frozen: seq<PageId>, store: Option<Store>): Next {
    var resolved := ResolveAll(es, store, m.files);
    var downloaded := m.files + Hashes(Downloads(es, store, m.files));
    Freeze(NextOfPages(resolved, downloaded), m.(files := TrackedAfterWrites(m, es, store)), PathsIn(es), frozen)
  }

  /** Tracked files nothing expects or keeps. */
  function Orphans(m: Manifest, es: seq<Entry>, frozen: seq<PageId>, store: Option<Store>): set<Path> {
    var next := NextState(m, es, frozen, store);
    set p | p in TrackedAfterWrites(m, es, store) && p !in PathsIn(es) && p !in next.kept && p !in next.files
  }

  function WrittenDisk(m: Manifest, disk: Disk, es: seq<Entry>, store: Option<Store>): Disk {
    WritePages(ResolveAll(es, store, m.files), m.files + Hashes(Downloads(es, store, m.files)),
      disk + Downloads(es, store, m.files))
  }

  function RebuiltManifest(m: Manifest, es: seq<Entry>, frozen: seq<PageId>, store: Option<Store>, version: nat,
      scope: Option<PageId>): Manifest
  {
    var next := NextState(m, es, frozen, store);
    Manifest(version, next.files, next.pages, next.assets, Some(LAYOUT_VERSION), scope)
  }

  function RebuiltDisk(m: Manifest, disk: Disk, es: seq<Entry>, frozen: seq<PageId>, store: Option<Store>): Disk {
    WrittenDisk(m, disk, es, store) - Orphans(m, es, frozen, store)
  }

  // ----- the writes of a rebuild, in order -----

  datatype Op = Write(path: Path, content: Content) | Remove(path: Path) | Save(manifest: Manifest)

  /** A digest is downloaded once, the first time it is needed. */
  function FetchOp(store: Store, files: Files, before: Disk, sha: Sha): seq<Op> {
    if Fresh(store, files, sha) && AssetPath(store, sha) !in before
    then [Write(AssetPath(store, sha), Blob(store.bytes[sha]))] else []
  }

  function FetchOps(refs: seq<Sha>, store: Store, files: Files, before: Disk): seq<Op> {
    if refs == [] then []
    else
      var init := refs[..|refs| - 1];
      FetchOps(init, store, files, before) +
        FetchOp(store, files, before + Fetched(init, store, files), refs[|refs| - 1])
  }

  function DownloadOps(es: seq<Entry>, store: Option<Store>, files: Files): seq<Op> {
    if store.None? || es == [] then []
    else
      var init := es[..|es| - 1];
      DownloadOps(init, store, files) +
        FetchOps(RefsIn(es[|es| - 1].body), store.value, files, Downloads(init, store, files))
  }

  function WriteOps(es: seq<Entry>, files: Files): seq<Op> {
    if es == [] then []
    else
      var init, last := es[..|es| - 1], es[|es| - 1];
      WriteOps(init, files) +
      if UpToDate(files + PageHashes(init), last.path, Markdown(last.body)) then []
      else [Write(last.path, Markdown(last.body))]
  }

  function RebuildWrites(m: Manifest, es: seq<Entry>, store: Option<Store>): seq<Op> {
    DownloadOps(es, store, m.files) +
      WriteOps(ResolveAll(es, store, m.files), m.files + Hashes(Downloads(es, store, m.files)))
  }

  function ApplyOp(d: Disk, op: Op): Disk {
    match op
    case Write(p, c) => d[p := c]
    case Remove(p) => d - {p}
    case Save(_) => d
  }

  function ApplyOps(d: Disk, ops: seq<Op>): Disk {
    if ops == [] then d else ApplyOp(ApplyOps(d, ops[..|ops| - 1]), ops[|ops| - 1])
  }

  lemma ApplySnoc(d: Disk, ops: seq<Op>, op: Op)
    ensures ApplyOps(d, ops + [op]) == ApplyOp(ApplyOps(d, ops), op)
  {
    assert (ops + [op])[..|ops|] == ops;
  }

  lemma {:induction false} ApplyAppend(d: Disk, a: seq<Op>, b: seq<Op>)
    ensures ApplyOps(d, a + b) == ApplyOps(ApplyOps(d, a), b)
  {
    if b == [] {
      assert a + b == a;
    } else {
      var init, last := b[..|b| - 1], b[|b| - 1];
      assert a + b == (a + init) + [last];
      ApplySnoc(d, a + init, last);
      ApplyAppend(d, a, init);
    }
  }

  // ----- page paths, asset paths -----

  /** Page paths and asset paths never meet. */
  lemma ExpectedOutsideAssets(r: Render, scope: Option<PageId>)
    ensures forall e :: e in Expected(r, scope) ==> |e.path| > 0 && e.path[0] != ASSETS_DIR
  {
    ExpectedAreMirrored(r, scope, |r.fold.order|);
    forall e | e in Expected(r, scope) ensures |e.path| > 0 && e.path[0] != ASSETS_DIR {
      PageOutsideAssets(e.pageId, r.fold, scope);
    }
  }

  lemma PageOutsideAssets(id: PageId, st: Fold, scope: Option<PageId>)
    requires id in st.pages
    ensures PathOf(id, st, scope)[0] != ASSETS_DIR
  {
    if !Hidden(id, st) && scope != Some(id) {
      SlugsOfChars(Below(Up(id, st), scope), st);
      var slugs := LiveSlugs(id, st, scope);
      if slugs != [] {
        assert SlugChar(slugs[0][0]);
        assert PathOf(id, st, scope)[0][0] == slugs[0][0];
      }
    }
  }

  lemma DownloadsAreAssets(es: seq<Entry>, store: Option<Store>, files: Files, p: Path)
    requires p in Downloads(es, store, files)
    ensures |p| > 0 && p[0] == ASSETS_DIR
  {
    DownloadsExactly(es, store.value, files, p);
  }

  /** Page writes leave every other path alone. */
  lemma {:induction false} WritesElsewhere(es: seq<Entry>, files: Files, disk: Disk, p: Path)
    requires p !in PathsIn(es)
    ensures p in WritePages(es, files, disk) <==> p in disk
    ensures p in disk ==> WritePages(es, files, disk)[p] == disk[p]
  {
    if es != [] {
      var init, last := es[..|es| - 1], es[|es| - 1];
      assert es == init + [last];
      assert last in es;
      assert forall x :: x in init ==> x in es;
      WritesElsewhere(init, files, disk, p);
    }
  }

  // ----- deltas -----

  /** Untracks the removed pages; `paths` collects their files, in order. */
  datatype Untracked = Untracked(files: Files, pages: map<PageId, Path>, paths: seq<Path>)

  function Untrack(m: Manifest, retired: seq<PageId>, ids: seq<PageId>): Untracked {
    if ids == [] then Untracked(m.files, m.pages, [])
    else
      var u, id := Untrack(m, retired, ids[..|ids| - 1]), ids[|ids| - 1];
      if id in retired || id !in u.pages then u
      else Untracked(u.files - {u.pages[id]}, u.pages - {id}, u.paths + [u.pages[id]])
  }

  predicate DeltaSkips(id: PageId, st: Fold, scope: Option<PageId>) {
    scope.Some? && Membership(id, st, scope.value) != Some(true)
  }

  /** The manifest and disk after writing the delta's documents, in order. */
  datatype Written = Written(files: Files, pages: map<PageId, Path>, disk: Disk, count: nat)

  function WriteDocs(w: Written, docs: seq<(PageId, Body)>, st: Fold, scope: Option<PageId>): Written {
    if docs == [] then w
    else
      var v, (id, body) := WriteDocs(w, docs[..|docs| - 1], st, scope), docs[|docs| - 1];
      if DeltaSkips(id, st, scope) then v
      else
        var rel := PathOf(id, st, scope);
        var clean := UpToDate(v.files, rel, Markdown(body));
        Written(v.files[rel := Sha256(Markdown(body))], v.pages[id := rel],
                if clean then v.disk else v.disk[rel := Markdown(body)], if clean then v.count else v.count + 1)
  }

  /** The operations of those writes, in order: a document outside the scope or unchanged takes none. */
  function DocOp(w: Written, id: PageId, body: Body, st: Fold, scope: Option<PageId>): seq<Op> {
    if DeltaSkips(id, st, scope) || UpToDate(w.files, PathOf(id, st, scope), Markdown(body)) then []
    else [Write(PathOf(id, st, scope), Markdown(body))]
  }

  function DocOps(w: Written, docs: seq<(PageId, Body)>, st: Fold, scope: Option<PageId>): seq<Op> {
    if docs == [] then []
    else
      var init, (id, body) := docs[..|docs| - 1], docs[|docs| - 1];
      DocOps(w, init, st, scope) + DocOp(WriteDocs(w, init, st, scope), id, body, st, scope)
  }

  function AfterDocs(m: Manifest, disk: Disk, docs: seq<(PageId, Body)>, removed: seq<PageId>, st: Fold,
      scope: Option<PageId>): Written
  {
    var u := Untrack(m, st.retired, removed);
    WriteDocs(Written(u.files, u.pages, disk, 0), docs, st, scope)
  }

  function DeltaManifest(m: Manifest, disk: Disk, docs: seq<(PageId, Body)>, removed: seq<PageId>, st: Fold,
      scope: Option<PageId>, version: nat): Manifest
  {
    var w := AfterDocs(m, disk, docs, removed, st, scope);
    m.(files := w.files, pages := w.pages, version := version)
  }

  function DeltaDisk(m: Manifest, disk: Disk, docs: seq<(PageId, Body)>, removed: seq<PageId>, st: Fold,
      scope: Option<PageId>): Disk
  {
    AfterDocs(m, disk, docs, removed, st, scope).disk - (set p | p in Untrack(m, st.retired, removed).paths)
  }

  // ----- boot -----

  function Verified(files: Files, disk: Disk): Files {
    map p | p in files && p in disk && files[p] == Sha256(disk[p]) :: files[p]
  }

  /** A loaded manifest, checked against the disk: stale entries go, and any doubt zeroes the version. */
  function BootManifest(persisted: Option<Manifest>, disk: Disk, scope: Option<PageId>): Manifest {
    if persisted.None? then FRESH
    else
      var m := persisted.value;
      var files := Verified(m.files, disk);
      var doubted := m.layout != Some(LAYOUT_VERSION) || m.scope != scope;
      if files == m.files then (if doubted then m.(version := 0) else m)
      else m.(version := 0, files := files, pages := map id | id in m.pages && m.pages[id] in files :: m.pages[id])
  }
}
