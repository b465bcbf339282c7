/** The folded page forest and the path every page gets on disk
    (wiki-mirror/src/markdown-projection.ts:110-174 and :223-269). */
module Forest {
  import opened Options
  import opened Slugs

  /** A root-relative path as its segments; the text form joins them with slashes. */
  type Path = seq<string>

  datatype Page = Page(id: PageId, title: string, parentId: Option<PageId>, archived: bool)

  /** The fold of a workspace's history. `order` is the iteration order of the page map and
      `retired` lists the pages the fold could not see because their type is not registered. */
  datatype Fold = Fold(pages: map<PageId, Page>, order: seq<PageId>, archived: bool, retired: seq<PageId>)

  ghost predicate ValidFold(st: Fold) {
    && (forall id :: id in st.order <==> id in st.pages)
    && (forall i, j :: 0 <= i < j < |st.order| ==> st.order[i] != st.order[j])
    && (forall id :: id in st.pages ==> st.pages[id].id == id)
  }

  const INDEX := "index.md"
  const ARCHIVED_DIR := ".archived"

  // ----- the walk to the root -----

  /** The pages met walking up from `cur`, nearest first: until the top, a page the fold does
      not hold, or a page already seen. */
  function Lineage(st: Fold, cur: Option<PageId>, seen: set<PageId>): (line: seq<PageId>)
    ensures forall a :: a in line ==> a in st.pages
    decreases st.pages.Keys - seen
  {
    if cur.None? || cur.value in seen || cur.value !in st.pages then []
    else [cur.value] + Lineage(st, st.pages[cur.value].parentId, seen + {cur.value})
  }

  /** The page the walk needed and the fold does not hold, if any. */
  function BreaksAt(st: Fold, cur: Option<PageId>, seen: set<PageId>): Option<PageId>
    decreases st.pages.Keys - seen
  {
    if cur.None? || cur.value in seen then None
    else if cur.value !in st.pages then cur
    else BreaksAt(st, st.pages[cur.value].parentId, seen + {cur.value})
  }

  function Up(id: PageId, st: Fold): (line: seq<PageId>)
    ensures forall a :: a in line ==> a in st.pages
  {
    Lineage(st, Some(id), {})
  }

  /** Hidden from default views: the workspace, the page or an ancestor is archived. */
  predicate Hidden(id: PageId, st: Fold) {
    st.archived || exists a :: a in Up(id, st) && st.pages[a].archived
  }

  /** The fold determines the page's path: the path is keyed by id, or its chain is whole. */
  predicate Faithful(id: PageId, st: Fold) {
    Hidden(id, st) || BreaksAt(st, Some(id), {}).None?
  }

  /** Whether `root` is the page or one of its ancestors; unknown when the chain breaks first. */
  function Membership(id: PageId, st: Fold, root: PageId): Option<bool> {
    if root in Up(id, st) || BreaksAt(st, Some(id), {}) == Some(root) then Some(true)
    else if BreaksAt(st, Some(id), {}).Some? then None
    else Some(false)
  }

  /** Pages a mirror writes: placed faithfully and, when scoped, known to be in the subtree. */
  predicate Mirrored(id: PageId, st: Fold, scope: Option<PageId>) {
    && id in st.pages
    && Faithful(id, st)
    && (scope.Some? ==> Membership(id, st, scope.value) == Some(true))
  }

  // ----- paths -----

  predicate HasChildren(id: PageId, st: Fold) {
    exists c :: c in st.pages && st.pages[c].parentId == Some(id)
  }

  /** Another page under the same parent has a title with the same slug. */
  predicate SharesBase(id: PageId, st: Fold)
    requires id in st.pages
  {
    exists p :: p in st.pages && p != id && st.pages[p].parentId == st.pages[id].parentId
      && Slugify(st.pages[p].title) == Slugify(st.pages[id].title)
  }

  function SiblingSlug(id: PageId, st: Fold): (r: string) {
    if id !in st.pages then ShortId(id)
    else if SharesBase(id, st) then Slugify(st.pages[id].title) + "-" + ShortId(id)
    else Slugify(st.pages[id].title)
  }

  /** The part of a line below `scope`. */
  function Below(line: seq<PageId>, scope: Option<PageId>): (r: seq<PageId>)
    ensures forall a :: a in r ==> a in line
  {
    if line == [] || scope == Some(line[0]) then [] else [line[0]] + Below(line[1..], scope)
  }

  /** Slugs of a nearest-first line, outermost first. */
  function SlugsOf(line: seq<PageId>, st: Fold): (r: seq<string>)
    ensures |r| == |line|
  {
    if line == [] then [] else SlugsOf(line[1..], st) + [SiblingSlug(line[0], st)]
  }

  /** A live page's own slug under those of its ancestors, down from the subtree root. */
  function LiveSlugs(id: PageId, st: Fold, scope: Option<PageId>): seq<string> {
    SlugsOf(Below(Up(id, st), scope), st)
  }

  function FilePath(slugs: seq<string>, folder: bool): (r: Path)
    ensures |r| > 0
  {
    if folder then (if slugs == [] then [""] else slugs) + [INDEX]
    else if slugs == [] then [".md"]
    else slugs[..|slugs| - 1] + [slugs[|slugs| - 1] + ".md"]
  }

  function PathOf(id: PageId, st: Fold, scope: Option<PageId>): (r: Path)
    ensures |r| > 0
  {
    if Hidden(id, st) then [ARCHIVED_DIR, ArchivedFileName(id)]
    else if scope == Some(id) then [INDEX]
    else FilePath(LiveSlugs(id, st, scope), HasChildren(id, st))
  }

  // ----- the walks as the projector runs them -----

  method SlugsUpward(pageId: PageId, st: Fold, scope: Option<PageId>) returns (slugs: seq<string>)
    ensures slugs == LiveSlugs(pageId, st, scope)
  {
    slugs := [];
    var cur, seen := Some(pageId), {};
    ghost var met: seq<PageId> := [];
    while cur.Some? && cur != scope && cur.value !in seen
      invariant Up(pageId, st) == met + Lineage(st, cur, seen)
      invariant scope.Some? ==> scope.value !in met
      invariant slugs == SlugsOf(met, st)
      decreases st.pages.Keys - seen
    {
      if cur.value !in st.pages { break; }
      PrependSlug(met, cur.value, st);
      LineageStep(met, st, cur.value, seen);
      slugs := [SiblingSlug(cur.value, st)] + slugs;
      met := met + [cur.value];
      seen, cur := seen + {cur.value}, st.pages[cur.value].parentId;
    }
    WalkEndsBelow(st, met, cur, seen, scope);
  }

  method EffectivelyArchived(pageId: PageId, st: Fold) returns (r: bool)
    ensures r == Hidden(pageId, st)
  {
    if st.archived { return true; }
    var cur, seen := Some(pageId), {};
    ghost var met: seq<PageId> := [];
    while cur.Some? && cur.value !in seen
      invariant Up(pageId, st) == met + Lineage(st, cur, seen)
      invariant forall a :: a in met ==> a in st.pages && !st.pages[a].archived
      decreases st.pages.Keys - seen
    {
      if cur.value !in st.pages { return false; }
      if st.pages[cur.value].archived {
        assert cur.value in Up(pageId, st);
        return true;
      }
      met := met + [cur.value];
      seen, cur := seen + {cur.value}, st.pages[cur.value].parentId;
    }
    return false;
  }

  method HasReliablePath(pageId: PageId, st: Fold) returns (r: bool)
    ensures r == Faithful(pageId, st)
  {
    if st.archived { return true; }
    var cur, seen := Some(pageId), {};
    ghost var met: seq<PageId> := [];
    while cur.Some? && cur.value !in seen
      invariant Up(pageId, st) == met + Lineage(st, cur, seen)
      invariant BreaksAt(st, Some(pageId), {}) == BreaksAt(st, cur, seen)
      invariant forall a :: a in met ==> a in st.pages && !st.pages[a].archived
      decreases st.pages.Keys - seen
    {
      if cur.value !in st.pages { return false; }
      if st.pages[cur.value].archived {
        assert cur.value in Up(pageId, st);
        return true;
      }
      met := met + [cur.value];
      seen, cur := seen + {cur.value}, st.pages[cur.value].parentId;
    }
    return true;
  }

  lemma MeetsRoot(st: Fold, root: PageId, seen: set<PageId>)
    requires root !in seen
    ensures root in Lineage(st, Some(root), seen) || BreaksAt(st, Some(root), seen) == Some(root)
  {
  }

  method InSubtree(pageId: PageId, st: Fold, root: PageId) returns (r: Option<bool>)
    ensures r == Membership(pageId, st, root)
  {
    var cur, seen := Some(pageId), {};
    ghost var met: seq<PageId> := [];
    while cur.Some? && cur.value !in seen
      invariant Up(pageId, st) == met + Lineage(st, cur, seen)
      invariant BreaksAt(st, Some(pageId), {}) == BreaksAt(st, cur, seen)
      invariant root !in met
      decreases st.pages.Keys - seen
    {
      if cur.value == root {
        MeetsRoot(st, root, seen);
        return Some(true);
      }
      if cur.value !in st.pages { return None; }
      met := met + [cur.value];
      seen, cur := seen + {cur.value}, st.pages[cur.value].parentId;
    }
    return Some(false);
  }

  lemma {:induction false} BelowAppend(met: seq<PageId>, rest: seq<PageId>, scope: Option<PageId>)
    requires scope.Some? ==> scope.value !in met
    ensures Below(met + rest, scope) == met + Below(rest, scope)
  {
    if met == [] {
      assert met + rest == rest;
    } else {
      assert (met + rest)[1..] == met[1..] + rest;
      BelowAppend(met[1..], rest, scope);
    }
  }

  lemma {:induction false} SlugsOfAppend(a: seq<PageId>, b: seq<PageId>, st: Fold)
    ensures SlugsOf(a + b, st) == SlugsOf(b, st) + SlugsOf(a, st)
  {
    if a == [] {
      assert a + b == b;
    } else {
      assert (a + b)[1..] == a[1..] + b;
      SlugsOfAppend(a[1..], b, st);
    }
  }

  lemma PrependSlug(met: seq<PageId>, id: PageId, st: Fold)
    ensures SlugsOf(met + [id], st) == [SiblingSlug(id, st)] + SlugsOf(met, st)
  {
    SlugsOfAppend(met, [id], st);
    assert SlugsOf([id], st) == [SiblingSlug(id, st)];
  }

  lemma LineageStep(met: seq<PageId>, st: Fold, id: PageId, seen: set<PageId>)
    requires id in st.pages && id !in seen
    ensures met + Lineage(st, Some(id), seen) == (met + [id]) + Lineage(st, st.pages[id].parentId, seen + {id})
  {
    var rest := Lineage(st, st.pages[id].parentId, seen + {id});
    assert met + ([id] + rest) == (met + [id]) + rest;
  }

  lemma WalkEndsBelow(st: Fold, met: seq<PageId>, cur: Option<PageId>, seen: set<PageId>, scope: Option<PageId>)
    requires scope.Some? ==> scope.value !in met
    requires cur.None? || cur == scope || cur.value in seen || cur.value !in st.pages
    ensures Below(met + Lineage(st, cur, seen), scope) == met
  {
    BelowAppend(met, Lineage(st, cur, seen), scope);
    assert met + [] == met;
  }

  method PageRelPath(pageId: PageId, st: Fold, scope: Option<PageId>) returns (r: Path)
    ensures r == PathOf(pageId, st, scope)
  {
    var hidden := EffectivelyArchived(pageId, st);
    if hidden { return [ARCHIVED_DIR, ArchivedFileName(pageId)]; }
    if scope == Some(pageId) { return [INDEX]; }
    var slugs := SlugsUpward(pageId, st, scope);
    return FilePath(slugs, HasChildren(pageId, st));
  }

  // ----- where files may land -----

  /** A segment that names one entry of its own directory. */
  predicate PlainSegment(s: string) {
    s != "" && s != "." && s != ".." && '/' !in s
  }

  lemma SiblingSlugChars(id: PageId, st: Fold)
    ensures |SiblingSlug(id, st)| > 0
    ensures forall i :: 0 <= i < |SiblingSlug(id, st)| ==> SlugChar(SiblingSlug(id, st)[i])
  {
    var s := SiblingSlug(id, st);
    if id in st.pages && SharesBase(id, st) {
      var base := Slugify(st.pages[id].title);
      forall i | 0 <= i < |s| ensures SlugChar(s[i]) {
        if i > |base| {
          assert s[i] == ShortId(id)[i - |base| - 1];
        }
      }
    }
  }

  lemma {:induction false} SlugsOfChars(line: seq<PageId>, st: Fold)
    ensures forall k :: 0 <= k < |line| ==>
      |SlugsOf(line, st)[k]| > 0 && forall i :: 0 <= i < |SlugsOf(line, st)[k]| ==> SlugChar(SlugsOf(line, st)[k][i])
  {
    if line != [] {
      SlugsOfChars(line[1..], st);
      SiblingSlugChars(line[0], st);
    }
  }

  /** The mirror writes only under its root: whatever the titles and ids are, no segment of a
      folded page's path is empty, a dot entry, or holds a slash. */
  lemma PathsStayUnderRoot(id: PageId, st: Fold, scope: Option<PageId>)
    requires id in st.pages
    ensures forall k :: 0 <= k < |PathOf(id, st, scope)| ==> PlainSegment(PathOf(id, st, scope)[k])
  {
    if Hidden(id, st) {
      assert '/' !in ArchivedFileName(id);
    } else if scope != Some(id) {
      SlugsOfChars(Below(Up(id, st), scope), st);
      FilePathIsPlain(LiveSlugs(id, st, scope), HasChildren(id, st));
    }
  }

  lemma FilePathIsPlain(slugs: seq<string>, folder: bool)
    requires forall k :: 0 <= k < |slugs| ==>
      |slugs[k]| > 0 && forall i :: 0 <= i < |slugs[k]| ==> SlugChar(slugs[k][i])
    ensures slugs != [] ==> forall k :: 0 <= k < |FilePath(slugs, folder)| ==> PlainSegment(FilePath(slugs, folder)[k])
  {
    if slugs != [] {
      var r := FilePath(slugs, folder);
      forall k | 0 <= k < |r| ensures PlainSegment(r[k]) {
        if k < |slugs| {
          assert slugs[k][0] != '.' && '/' !in slugs[k];
        }
      }
    }
  }
}
