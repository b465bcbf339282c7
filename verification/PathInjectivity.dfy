/** When do two pages share a file? The path rule (wiki-mirror/src/markdown-projection.ts:134-151
    and :219-246) keeps pages apart except in four families of folds, whatever the ids; ids as the
    engine mints them rule out two of the four. */
module PathInjectivity {
  import opened Options
  import opened Slugs
  import opened Forest

  /** The engine's parent relation has no cycle: every parent ranks below its child. */
  ghost predicate Acyclic(st: Fold, rank: map<PageId, nat>) {
    && (forall id :: id in st.pages ==> id in rank)
    && (forall id :: id in st.pages && st.pages[id].parentId.Some? && st.pages[id].parentId.value in st.pages
          ==> rank[st.pages[id].parentId.value] < rank[id])
  }

  predicate SameShortId(x: PageId, y: PageId) {
    ShortId(x) == ShortId(y)
  }

  /** Ids as the engine mints them, with stamps distinct among siblings. */
  ghost predicate MintedIds(st: Fold) {
    && (forall id :: id in st.pages ==> MintedId(id))
    && (forall x, y {:trigger SameShortId(x, y)} | x in st.pages && y in st.pages && x != y && SameShortId(x, y) ::
          st.pages[x].parentId != st.pages[y].parentId)
  }

  predicate Live(id: PageId, st: Fold, scope: Option<PageId>) {
    Mirrored(id, st, scope) && !Hidden(id, st)
  }

  predicate Folder(id: PageId, st: Fold, scope: Option<PageId>) {
    HasChildren(id, st) || scope == Some(id)
  }

  ghost predicate PathsDiffer(st: Fold, scope: Option<PageId>) {
    forall a, b :: Mirrored(a, st, scope) && Mirrored(b, st, scope) && PathOf(a, st, scope) == PathOf(b, st, scope) ==>
      a == b
  }

  /** Two live siblings, both folders or both leaves, neither the root of the mirror. */
  predicate Rivals(x: PageId, y: PageId, st: Fold, scope: Option<PageId>) {
    && Live(x, st, scope) && Live(y, st, scope) && x != y
    && scope != Some(x) && scope != Some(y)
    && st.pages[x].parentId == st.pages[y].parentId
    && HasChildren(x, st) == HasChildren(y, st)
  }

  /** The disambiguated slug of a page. */
  function Suffixed(id: PageId, st: Fold): string
    requires id in st.pages
  {
    Slugify(st.pages[id].title) + "-" + ShortId(id)
  }

  /** One sibling is plain and spells the disambiguated form of the other. */
  predicate SpellsOut(x: PageId, y: PageId, st: Fold)
    requires x in st.pages && y in st.pages
  {
    !SharesBase(x, st) && SharesBase(y, st) && Slugify(st.pages[x].title) == Suffixed(y, st)
  }

  predicate RunsTogether(x: PageId, y: PageId, st: Fold)
    requires x in st.pages && y in st.pages
  {
    SharesBase(x, st) && SharesBase(y, st) && Suffixed(x, st) == Suffixed(y, st)
  }

  /** `x`, which shares its title slug with no sibling, spells the disambiguated form of its rival `y`. */
  predicate PlainMeetsSuffixed(x: PageId, y: PageId, st: Fold, scope: Option<PageId>) {
    Rivals(x, y, st, scope) && SpellsOut(x, y, st)
  }

  /** Two rivals, both disambiguated, whose title slug and short id run together into the same slug. */
  predicate SuffixedMeet(x: PageId, y: PageId, st: Fold, scope: Option<PageId>) {
    Rivals(x, y, st, scope) && RunsTogether(x, y, st)
  }

  /** Two archived pages whose ids spell the same file name. */
  predicate ArchivedMeet(x: PageId, y: PageId, st: Fold, scope: Option<PageId>) {
    && Mirrored(x, st, scope) && Mirrored(y, st, scope) && x != y
    && Hidden(x, st) && Hidden(y, st)
    && ArchivedFileName(x) == ArchivedFileName(y)
  }

  /** A live leaf page titled like `Index`, right under another mirrored page. */
  predicate LeafNamedIndex(x: PageId, p: PageId, st: Fold, scope: Option<PageId>) {
    && Live(x, st, scope) && Live(p, st, scope)
    && scope != Some(x)
    && st.pages[x].parentId == Some(p)
    && !HasChildren(x, st)
    && SiblingSlug(x, st) == "index"
  }

  ghost predicate NoPlainMeetsSuffixed(st: Fold, scope: Option<PageId>) {
    forall x, y :: !PlainMeetsSuffixed(x, y, st, scope)
  }

  ghost predicate NoSuffixedMeet(st: Fold, scope: Option<PageId>) {
    forall x, y :: !SuffixedMeet(x, y, st, scope)
  }

  ghost predicate NoArchivedMeet(st: Fold, scope: Option<PageId>) {
    forall x, y :: !ArchivedMeet(x, y, st, scope)
  }

  /** No two rivals have the same slug. */
  ghost predicate RivalsApart(st: Fold, scope: Option<PageId>) {
    NoPlainMeetsSuffixed(st, scope) && NoSuffixedMeet(st, scope)
  }

  ghost predicate NoLeafNamedIndex(st: Fold, scope: Option<PageId>) {
    forall x, p :: !LeafNamedIndex(x, p, st, scope)
  }

  /** Directory slugs of the page's parent; none at the top. */
  function ParentSlugs(id: PageId, st: Fold, scope: Option<PageId>): seq<string>
    requires id in st.pages
  {
    if st.pages[id].parentId.None? then [] else LiveSlugs(st.pages[id].parentId.value, st, scope)
  }

  // ----- the walks on an acyclic forest -----

  lemma {:induction false} SeenIsIdle(st: Fold, rank: map<PageId, nat>, cur: Option<PageId>, seen: set<PageId>)
    requires Acyclic(st, rank) && seen <= st.pages.Keys
    requires cur.Some? && cur.value in st.pages ==> forall s :: s in seen ==> rank[cur.value] < rank[s]
    ensures Lineage(st, cur, seen) == Lineage(st, cur, {})
    ensures BreaksAt(st, cur, seen) == BreaksAt(st, cur, {})
    decreases if cur.Some? && cur.value in st.pages then rank[cur.value] + 1 else 0
  {
    if cur.Some? && cur.value in st.pages {
      var parent := st.pages[cur.value].parentId;
      SeenIsIdle(st, rank, parent, seen + {cur.value});
      SeenIsIdle(st, rank, parent, {} + {cur.value});
    }
  }

  /** One step of the walk: a page's line is the page and then its parent's line. */
  lemma UpUnfolds(st: Fold, rank: map<PageId, nat>, id: PageId)
    requires Acyclic(st, rank) && id in st.pages
    ensures var parent := st.pages[id].parentId;
      && Up(id, st) == [id] + (if parent.None? then [] else Up(parent.value, st))
      && BreaksAt(st, Some(id), {}) == BreaksAt(st, parent, {})
  {
    SeenIsIdle(st, rank, st.pages[id].parentId, {} + {id});
  }

  lemma LiveParent(st: Fold, rank: map<PageId, nat>, id: PageId, scope: Option<PageId>)
    requires Acyclic(st, rank) && Live(id, st, scope) && scope != Some(id)
    ensures st.pages[id].parentId.Some? ==> Live(st.pages[id].parentId.value, st, scope)
    ensures st.pages[id].parentId.None? ==> scope.None?
  {
    UpUnfolds(st, rank, id);
    var parent := st.pages[id].parentId;
    if parent.Some? {
      var p := parent.value;
      assert p in st.pages;
      forall a | a in Up(p, st) ensures !st.pages[a].archived {
        assert a in Up(id, st);
      }
    }
  }

  lemma LiveSlugsUnfold(st: Fold, rank: map<PageId, nat>, id: PageId, scope: Option<PageId>)
    requires Acyclic(st, rank) && Live(id, st, scope)
    ensures scope == Some(id) ==> LiveSlugs(id, st, scope) == []
    ensures scope != Some(id) ==> LiveSlugs(id, st, scope) == ParentSlugs(id, st, scope) + [SiblingSlug(id, st)]
  {
    UpUnfolds(st, rank, id);
    if scope != Some(id) {
      var parent := st.pages[id].parentId;
      var rest := if parent.None? then [] else Up(parent.value, st);
      assert Up(id, st)[1..] == rest;
      assert Below(Up(id, st), scope) == [id] + Below(rest, scope);
      assert ([id] + Below(rest, scope))[1..] == Below(rest, scope);
    }
  }

  lemma LivePathShape(st: Fold, rank: map<PageId, nat>, id: PageId, scope: Option<PageId>)
    requires Acyclic(st, rank) && Live(id, st, scope)
    ensures Folder(id, st, scope) ==> PathOf(id, st, scope) == LiveSlugs(id, st, scope) + [INDEX]
    ensures !Folder(id, st, scope) ==>
      PathOf(id, st, scope) == ParentSlugs(id, st, scope) + [SiblingSlug(id, st) + ".md"]
  {
    LiveSlugsUnfold(st, rank, id, scope);
  }

  // ----- siblings -----

  lemma SharedBasesShare(x: PageId, y: PageId, st: Fold)
    requires x in st.pages && y in st.pages && x != y && st.pages[x].parentId == st.pages[y].parentId
    requires Slugify(st.pages[x].title) == Slugify(st.pages[y].title)
    ensures SharesBase(x, st) && SharesBase(y, st)
  {
  }

  /** Siblings whose short ids differ but have equally many dashes collide in one way only: a plain slug
      that spells a suffixed one. */
  lemma SiblingSlugsDiffer(x: PageId, y: PageId, st: Fold)
    requires x in st.pages && y in st.pages && x != y && st.pages[x].parentId == st.pages[y].parentId
    requires !SameShortId(x, y) && Dashes(ShortId(x)) == Dashes(ShortId(y))
    ensures SiblingSlug(x, st) == SiblingSlug(y, st) ==>
      SpellsOut(x, y, st) || SpellsOut(y, x, st)
  {
    SlugsMeetExactly(x, y, st);
    if RunsTogether(x, y, st) {
      EvenDashesSplit(Slugify(st.pages[x].title), ShortId(x), Slugify(st.pages[y].title), ShortId(y));
    }
  }

  lemma SlugsMeetExactly(x: PageId, y: PageId, st: Fold)
    requires x in st.pages && y in st.pages && x != y && st.pages[x].parentId == st.pages[y].parentId
    ensures SiblingSlug(x, st) == SiblingSlug(y, st) <==>
      SpellsOut(x, y, st) || SpellsOut(y, x, st) || RunsTogether(x, y, st)
  {
    if !SharesBase(x, st) && !SharesBase(y, st) {
      if SiblingSlug(x, st) == SiblingSlug(y, st) {
        SharedBasesShare(x, y, st);
      }
    }
  }

  lemma RivalsClash(st: Fold, scope: Option<PageId>, x: PageId, y: PageId)
    requires Rivals(x, y, st, scope)
    ensures SiblingSlug(x, st) == SiblingSlug(y, st) <==>
      PlainMeetsSuffixed(x, y, st, scope) || PlainMeetsSuffixed(y, x, st, scope) || SuffixedMeet(x, y, st, scope)
  {
    SlugsMeetExactly(x, y, st);
  }

  lemma SiblingsApart(st: Fold, scope: Option<PageId>, x: PageId, y: PageId)
    requires RivalsApart(st, scope)
    requires Live(x, st, scope) && Live(y, st, scope) && scope != Some(x) && scope != Some(y)
    requires st.pages[x].parentId == st.pages[y].parentId && HasChildren(x, st) == HasChildren(y, st)
    requires SiblingSlug(x, st) == SiblingSlug(y, st)
    ensures x == y
  {
    if x != y {
      RivalsClash(st, scope, x, y);
    }
  }

  /** Two live folders with the same directory are one page. */
  lemma {:induction false} FoldersApart(st: Fold, rank: map<PageId, nat>, scope: Option<PageId>, a: PageId, b: PageId)
    requires Acyclic(st, rank) && RivalsApart(st, scope)
    requires Live(a, st, scope) && Live(b, st, scope)
    requires Folder(a, st, scope) && Folder(b, st, scope)
    requires LiveSlugs(a, st, scope) == LiveSlugs(b, st, scope)
    ensures a == b
    decreases rank[a], 2
  {
    LiveSlugsUnfold(st, rank, a, scope);
    LiveSlugsUnfold(st, rank, b, scope);
    if scope != Some(a) && scope != Some(b) {
      LiveParent(st, rank, a, scope);
      LiveParent(st, rank, b, scope);
      SameLastSameParent(st, rank, scope, a, b);
      SiblingsApart(st, scope, a, b);
    }
  }

  lemma {:induction false} SameLastSameParent(st: Fold, rank: map<PageId, nat>, scope: Option<PageId>, a: PageId,
      b: PageId)
    requires Acyclic(st, rank) && RivalsApart(st, scope)
    requires Live(a, st, scope) && Live(b, st, scope) && scope != Some(a) && scope != Some(b)
    requires LiveSlugs(a, st, scope) == LiveSlugs(b, st, scope)
    ensures SiblingSlug(a, st) == SiblingSlug(b, st)
    ensures st.pages[a].parentId == st.pages[b].parentId
    decreases rank[a], 1
  {
    LiveSlugsUnfold(st, rank, a, scope);
    LiveSlugsUnfold(st, rank, b, scope);
    LastsEqual(ParentSlugs(a, st, scope), SiblingSlug(a, st), ParentSlugs(b, st, scope), SiblingSlug(b, st));
    SameDirectorySameParent(st, rank, scope, a, b);
  }

  lemma LastsEqual<T>(a: seq<T>, x: T, b: seq<T>, y: T)
    requires a + [x] == b + [y]
    ensures a == b && x == y
  {
    assert a == (a + [x])[..|a|] && b == (b + [y])[..|b|];
    assert x == (a + [x])[|a|] && y == (b + [y])[|b|];
  }

  /** The parents of two live pages, when their directories agree, are the same page. */
  lemma {:induction false} SameDirectorySameParent(st: Fold, rank: map<PageId, nat>, scope: Option<PageId>, a: PageId,
      b: PageId)
    requires Acyclic(st, rank) && RivalsApart(st, scope)
    requires Live(a, st, scope) && Live(b, st, scope) && scope != Some(a) && scope != Some(b)
    ensures ParentSlugs(a, st, scope) == ParentSlugs(b, st, scope) ==> st.pages[a].parentId == st.pages[b].parentId
    decreases rank[a], 0
  {
    if ParentSlugs(a, st, scope) == ParentSlugs(b, st, scope) {
      LiveParent(st, rank, a, scope);
      LiveParent(st, rank, b, scope);
      var pa, pb := st.pages[a].parentId, st.pages[b].parentId;
      if pa.Some? && pb.Some? {
        FoldersApart(st, rank, scope, pa.value, pb.value);
      } else if pa.Some? {
        LiveSlugsUnfold(st, rank, pa.value, scope);
      } else if pb.Some? {
        LiveSlugsUnfold(st, rank, pb.value, scope);
      }
    }
  }

  // ----- two pages, one path -----

  lemma MdSuffix(a: string, b: string)
    requires a + ".md" == b + ".md"
    ensures a == b
  {
    assert a == (a + ".md")[..|a|] && b == (b + ".md")[..|b|];
  }

  lemma LeavesApart(st: Fold, rank: map<PageId, nat>, scope: Option<PageId>, a: PageId, b: PageId)
    requires Acyclic(st, rank) && RivalsApart(st, scope)
    requires Live(a, st, scope) && Live(b, st, scope)
    requires !Folder(a, st, scope) && !Folder(b, st, scope)
    ensures PathOf(a, st, scope) == PathOf(b, st, scope) ==> a == b
  {
    if PathOf(a, st, scope) == PathOf(b, st, scope) {
      LivePathShape(st, rank, a, scope);
      LivePathShape(st, rank, b, scope);
      LastsEqual(ParentSlugs(a, st, scope), SiblingSlug(a, st) + ".md", ParentSlugs(b, st, scope),
        SiblingSlug(b, st) + ".md");
      MdSuffix(SiblingSlug(a, st), SiblingSlug(b, st));
      SameDirectorySameParent(st, rank, scope, a, b);
      SiblingsApart(st, scope, a, b);
    }
  }

  lemma LeafFileIsIndex(st: Fold, rank: map<PageId, nat>, scope: Option<PageId>, leaf: PageId, f: PageId)
    requires Acyclic(st, rank)
    requires Live(leaf, st, scope) && Live(f, st, scope)
    requires !Folder(leaf, st, scope) && Folder(f, st, scope)
    ensures PathOf(leaf, st, scope) == PathOf(f, st, scope) ==>
      ParentSlugs(leaf, st, scope) == LiveSlugs(f, st, scope) && SiblingSlug(leaf, st) == "index"
  {
    if PathOf(leaf, st, scope) == PathOf(f, st, scope) {
      LivePathShape(st, rank, leaf, scope);
      LivePathShape(st, rank, f, scope);
      SameFile(ParentSlugs(leaf, st, scope), SiblingSlug(leaf, st), LiveSlugs(f, st, scope));
    }
  }

  lemma SameFile(above: seq<string>, slug: string, folder: seq<string>)
    requires above + [slug + ".md"] == folder + [INDEX]
    ensures above == folder && slug == "index"
  {
    LastsEqual(above, slug + ".md", folder, INDEX);
    assert INDEX == "index" + ".md";
    MdSuffix(slug, "index");
  }

  lemma LeafMeetsFolder(st: Fold, rank: map<PageId, nat>, scope: Option<PageId>, leaf: PageId, f: PageId)
    requires Acyclic(st, rank) && RivalsApart(st, scope)
    requires Live(leaf, st, scope) && Live(f, st, scope)
    requires !Folder(leaf, st, scope) && Folder(f, st, scope)
    ensures PathOf(leaf, st, scope) == PathOf(f, st, scope) ==> LeafNamedIndex(leaf, f, st, scope)
  {
    if PathOf(leaf, st, scope) == PathOf(f, st, scope) {
      LeafFileIsIndex(st, rank, scope, leaf, f);
      LiveParent(st, rank, leaf, scope);
      if st.pages[leaf].parentId.Some? {
        FoldersApart(st, rank, scope, st.pages[leaf].parentId.value, f);
      } else {
        LiveSlugsUnfold(st, rank, f, scope);
      }
    }
  }

  /** Live pages never land in the archive directory. */
  lemma LiveOutsideArchive(st: Fold, rank: map<PageId, nat>, scope: Option<PageId>, id: PageId)
    requires Acyclic(st, rank) && Live(id, st, scope)
    ensures |PathOf(id, st, scope)[0]| > 0 && PathOf(id, st, scope)[0][0] != '.'
  {
    if scope == Some(id) {
      assert PathOf(id, st, scope) == [INDEX];
    } else {
      SlugsOfChars(Below(Up(id, st), scope), st);
      LiveSlugsUnfold(st, rank, id, scope);
      FirstSegment(LiveSlugs(id, st, scope), HasChildren(id, st));
    }
  }

  lemma FirstSegment(slugs: seq<string>, folder: bool)
    requires slugs != [] && |slugs[0]| > 0 && SlugChar(slugs[0][0])
    ensures |FilePath(slugs, folder)[0]| > 0 && FilePath(slugs, folder)[0][0] != '.'
  {
  }

  lemma PathsApart(st: Fold, rank: map<PageId, nat>, scope: Option<PageId>, a: PageId, b: PageId)
    requires Acyclic(st, rank) && RivalsApart(st, scope)
    requires NoLeafNamedIndex(st, scope) && NoArchivedMeet(st, scope)
    requires Mirrored(a, st, scope) && Mirrored(b, st, scope)
    requires PathOf(a, st, scope) == PathOf(b, st, scope)
    ensures a == b
  {
    if Hidden(a, st) && Hidden(b, st) {
      assert !ArchivedMeet(a, b, st, scope);
    } else if Hidden(a, st) {
      LiveOutsideArchive(st, rank, scope, b);
    } else if Hidden(b, st) {
      LiveOutsideArchive(st, rank, scope, a);
    } else if Folder(a, st, scope) && Folder(b, st, scope) {
      LivePathShape(st, rank, a, scope);
      LivePathShape(st, rank, b, scope);
      LastsEqual(LiveSlugs(a, st, scope), INDEX, LiveSlugs(b, st, scope), INDEX);
      FoldersApart(st, rank, scope, a, b);
    } else if !Folder(a, st, scope) && !Folder(b, st, scope) {
      LeavesApart(st, rank, scope, a, b);
    } else if Folder(b, st, scope) {
      LeafMeetsFolder(st, rank, scope, a, b);
    } else {
      LeafMeetsFolder(st, rank, scope, b, a);
    }
  }

  lemma RivalsCollide(st: Fold, rank: map<PageId, nat>, scope: Option<PageId>, x: PageId, y: PageId)
    requires Acyclic(st, rank) && Rivals(x, y, st, scope) && SiblingSlug(x, st) == SiblingSlug(y, st)
    ensures PathOf(x, st, scope) == PathOf(y, st, scope)
  {
    LiveSlugsUnfold(st, rank, x, scope);
    LiveSlugsUnfold(st, rank, y, scope);
  }

  lemma LeafNamedIndexCollides(st: Fold, rank: map<PageId, nat>, scope: Option<PageId>, x: PageId, p: PageId)
    requires Acyclic(st, rank) && LeafNamedIndex(x, p, st, scope)
    ensures x != p && PathOf(x, st, scope) == PathOf(p, st, scope)
  {
    LivePathShape(st, rank, x, scope);
    LivePathShape(st, rank, p, scope);
    assert "index" + ".md" == INDEX;
  }

  lemma ArchivedCollide(st: Fold, scope: Option<PageId>, x: PageId, y: PageId)
    ensures ArchivedMeet(x, y, st, scope) ==> PathOf(x, st, scope) == PathOf(y, st, scope)
  {
  }

  /** Whatever the ids are, distinct mirrored pages get distinct paths exactly when none of the four
      families occurs. */
  lemma PathsDifferExactly(st: Fold, rank: map<PageId, nat>, scope: Option<PageId>)
    requires Acyclic(st, rank)
    ensures PathsDiffer(st, scope) <==>
      && NoPlainMeetsSuffixed(st, scope) && NoSuffixedMeet(st, scope)
      && NoLeafNamedIndex(st, scope) && NoArchivedMeet(st, scope)
  {
    if RivalsApart(st, scope) && NoLeafNamedIndex(st, scope) && NoArchivedMeet(st, scope) {
      forall a, b | Mirrored(a, st, scope) && Mirrored(b, st, scope) && PathOf(a, st, scope) == PathOf(b, st, scope)
        ensures a == b
      {
        PathsApart(st, rank, scope, a, b);
      }
    }
    if PathsDiffer(st, scope) {
      forall x, y ensures !PlainMeetsSuffixed(x, y, st, scope) && !SuffixedMeet(x, y, st, scope) {
        if PlainMeetsSuffixed(x, y, st, scope) || SuffixedMeet(x, y, st, scope) {
          RivalsClash(st, scope, x, y);
          RivalsCollide(st, rank, scope, x, y);
        }
      }
      forall x, y ensures !ArchivedMeet(x, y, st, scope) {
        ArchivedCollide(st, scope, x, y);
      }
      forall x, p ensures !LeafNamedIndex(x, p, st, scope) {
        if LeafNamedIndex(x, p, st, scope) {
          LeafNamedIndexCollides(st, rank, scope, x, p);
        }
      }
    }
  }

  // ----- ids as the engine mints them -----

  lemma SameSuffixedSameStamp(x: PageId, y: PageId, st: Fold)
    requires x in st.pages && y in st.pages && MintedId(x) && MintedId(y) && Suffixed(x, st) == Suffixed(y, st)
    ensures SameShortId(x, y)
  {
    MintedIsSafe(x);
    MintedIsSafe(y);
    EvenDashesSplit(Slugify(st.pages[x].title), ShortId(x), Slugify(st.pages[y].title), ShortId(y));
  }

  /** Minted ids rule out two families: disambiguation and archiving keep their promise. */
  lemma MintedRulesOut(st: Fold, scope: Option<PageId>)
    requires MintedIds(st)
    ensures NoSuffixedMeet(st, scope) && NoArchivedMeet(st, scope)
  {
    forall x, y ensures !SuffixedMeet(x, y, st, scope) {
      if SuffixedMeet(x, y, st, scope) {
        SameSuffixedSameStamp(x, y, st);
      }
    }
    forall x, y ensures !ArchivedMeet(x, y, st, scope) {
      if ArchivedMeet(x, y, st, scope) {
        MintedArchivedNamesDiffer(x, y);
      }
    }
  }

  /** With minted ids, distinct mirrored pages get distinct paths exactly when no plain slug spells a
      disambiguated one and no leaf is named index. */
  lemma MintedPathsDifferExactly(st: Fold, rank: map<PageId, nat>, scope: Option<PageId>)
    requires Acyclic(st, rank) && MintedIds(st)
    ensures PathsDiffer(st, scope) <==> NoPlainMeetsSuffixed(st, scope) && NoLeafNamedIndex(st, scope)
  {
    MintedRulesOut(st, scope);
    PathsDifferExactly(st, rank, scope);
  }

  // ----- every family occurs -----

  /** The line of a live page whose chain to the top has one or two pages. */
  lemma ShortChainIsLive(st: Fold, rank: map<PageId, nat>, id: PageId)
    requires Acyclic(st, rank) && id in st.pages && !st.archived && !st.pages[id].archived
    requires st.pages[id].parentId.Some? ==> var p := st.pages[id].parentId.value;
      p in st.pages && !st.pages[p].archived && st.pages[p].parentId.None?
    ensures Live(id, st, None)
  {
    UpUnfolds(st, rank, id);
    if st.pages[id].parentId.Some? {
      UpUnfolds(st, rank, st.pages[id].parentId.value);
    }
  }

  /** `Index` under `Guide`, or any title that slugs to `index` under any page: one file for both. */
  lemma LeafNamedIndexCase(st: Fold, g: PageId, i: PageId, guide: string, index: string)
    requires g != i && MintedId(g) && MintedId(i) && Slugify(index) == "index"
    requires st == Fold(map[g := Page(g, guide, None, false), i := Page(i, index, Some(g), false)], [g, i], false, [])
    ensures ValidFold(st) && MintedIds(st)
    ensures Mirrored(g, st, None) && Mirrored(i, st, None) && PathOf(g, st, None) == PathOf(i, st, None)
  {
    assert st.pages[g] == Page(g, guide, None, false) && st.pages[i] == Page(i, index, Some(g), false);
    TwoMinted(st, g, i);
    LeafUnderCollides(st, g, i);
  }

  lemma TwoMinted(st: Fold, g: PageId, i: PageId)
    requires st.pages.Keys == {g, i} && MintedId(g) && MintedId(i)
    requires st.pages[g].parentId != st.pages[i].parentId
    ensures MintedIds(st)
  {
    assert forall x :: x in st.pages ==> x == g || x == i;
  }

  lemma LeafUnderCollides(st: Fold, g: PageId, i: PageId)
    requires g != i && st.pages.Keys == {g, i} && !st.archived
    requires st.pages[g].parentId.None? && st.pages[i].parentId == Some(g)
    requires !st.pages[g].archived && !st.pages[i].archived && Slugify(st.pages[i].title) == "index"
    ensures Mirrored(g, st, None) && Mirrored(i, st, None) && PathOf(g, st, None) == PathOf(i, st, None)
  {
    var rank: map<PageId, nat> := map[g := 0, i := 1];
    ShortChainIsLive(st, rank, g);
    ShortChainIsLive(st, rank, i);
    assert !SharesBase(i, st) && !HasChildren(i, st);
    LeafNamedIndexCollides(st, rank, None, i, g);
  }

  lemma IndexSlug()
    ensures Slugify("Index") == "index"
  {
    assert Lower("Index") == "index";
    SlugifyLowered("Index");
  }

  /** A workspace of three live pages, side by side at the top, with ids as the engine mints them. */
  ghost predicate ThreeAtTheTop(st: Fold, a: PageId, b: PageId, c: PageId) {
    && st.pages.Keys == {a, b, c} && st.order == [a, b, c] && !st.archived && st.retired == []
    && (forall p :: p in st.pages ==>
          st.pages[p].id == p && st.pages[p].parentId.None? && !st.pages[p].archived && MintedId(p))
    && !SameShortId(a, b) && !SameShortId(a, c) && !SameShortId(b, c)
  }

  /** Any three titles and ids make one. */
  lemma ThreeTitles(p: Page, q: Page, r: Page)
    requires p.parentId.None? && q.parentId.None? && r.parentId.None? && !p.archived && !q.archived && !r.archived
    requires MintedId(p.id) && MintedId(q.id) && MintedId(r.id)
    requires !SameShortId(p.id, q.id) && !SameShortId(p.id, r.id) && !SameShortId(q.id, r.id)
    ensures ThreeAtTheTop(Fold(map[p.id := p, q.id := q, r.id := r], [p.id, q.id, r.id], false, []), p.id, q.id, r.id)
  {
    ThreeApart(p.id, q.id, r.id);
    ThreeEntries(p, q, r);
    var st := Fold(map[p.id := p, q.id := q, r.id := r], [p.id, q.id, r.id], false, []);
    OneOfThree(st, p.id, q.id, r.id);
  }

  lemma OneOfThree(st: Fold, a: PageId, b: PageId, c: PageId)
    requires st.pages.Keys == {a, b, c} && MintedId(a) && MintedId(b) && MintedId(c)
    ensures forall p :: p in st.pages ==> MintedId(p)
  {
    forall p | p in st.pages ensures MintedId(p) {
      assert p == a || p == b || p == c;
    }
  }

  lemma ThreeEntries(p: Page, q: Page, r: Page)
    requires p.id != q.id && q.id != r.id && p.id != r.id
    ensures var pages := map[p.id := p, q.id := q, r.id := r];
      pages.Keys == {p.id, q.id, r.id} && pages[p.id] == p && pages[q.id] == q && pages[r.id] == r
  {
  }

  /** `foo`, `Foo` and `Foo-K1` side by side at the top, `Foo` having the local part `k1`:
      disambiguating the second spells the third. */
  lemma PlainMeetsSuffixedCase(st: Fold, a: PageId, b: PageId, c: PageId)
    requires ThreeAtTheTop(st, a, b, c)
    requires Slugify(st.pages[a].title) == Slugify(st.pages[b].title)
    requires Slugify(st.pages[c].title) == Slugify(st.pages[b].title) + "-" + ShortId(b)
    ensures ValidFold(st) && MintedIds(st)
    ensures Mirrored(b, st, None) && Mirrored(c, st, None) && PathOf(c, st, None) == PathOf(b, st, None)
  {
    ThreeApart(a, b, c);
    ThreeValid(st, a, b, c);
    ThreeMinted(st, a, b, c);
    TopSiblingsCollide(st, a, b, c);
  }

  lemma ThreeApart(a: PageId, b: PageId, c: PageId)
    requires !SameShortId(a, b) && !SameShortId(a, c) && !SameShortId(b, c)
    ensures a != b && b != c && a != c
  {
  }

  lemma ThreeValid(st: Fold, a: PageId, b: PageId, c: PageId)
    requires st.pages.Keys == {a, b, c} && st.order == [a, b, c] && a != b && b != c && a != c
    requires forall p :: p in st.pages ==> st.pages[p].id == p
    ensures ValidFold(st)
  {
  }

  lemma TopSiblingsCollide(st: Fold, a: PageId, b: PageId, c: PageId)
    requires st.pages.Keys == {a, b, c} && a != b && b != c && a != c && !st.archived
    requires forall p :: p in st.pages ==> st.pages[p].parentId.None? && !st.pages[p].archived
    requires Slugify(st.pages[a].title) == Slugify(st.pages[b].title)
    requires Slugify(st.pages[c].title) == Slugify(st.pages[b].title) + "-" + ShortId(b)
    ensures Mirrored(b, st, None) && Mirrored(c, st, None) && PathOf(c, st, None) == PathOf(b, st, None)
  {
    var rank: map<PageId, nat> := map p | p in st.pages :: 0;
    ShortChainIsLive(st, rank, b);
    ShortChainIsLive(st, rank, c);
    SiblingsCollide(st, rank, a, b, c);
  }

  lemma ThreeMinted(st: Fold, a: PageId, b: PageId, c: PageId)
    requires st.pages.Keys == {a, b, c} && forall p :: p in st.pages ==> MintedId(p)
    requires !SameShortId(a, b) && !SameShortId(a, c) && !SameShortId(b, c)
    ensures MintedIds(st)
  {
    NoneShared(st.pages.Keys, a, b, c);
  }

  lemma NoneShared(ids: set<PageId>, a: PageId, b: PageId, c: PageId)
    requires ids == {a, b, c} && !SameShortId(a, b) && !SameShortId(a, c) && !SameShortId(b, c)
    ensures forall x, y :: x in ids && y in ids && x != y ==> !SameShortId(x, y)
  {
  }

  lemma SiblingsCollide(st: Fold, rank: map<PageId, nat>, a: PageId, b: PageId, c: PageId)
    requires Acyclic(st, rank) && st.pages.Keys == {a, b, c} && a != b && b != c && a != c
    requires forall p :: p in st.pages ==> st.pages[p].parentId.None?
    requires Live(b, st, None) && Live(c, st, None)
    requires Slugify(st.pages[a].title) == Slugify(st.pages[b].title)
    requires Slugify(st.pages[c].title) == Slugify(st.pages[b].title) + "-" + ShortId(b)
    ensures PathOf(c, st, None) == PathOf(b, st, None)
  {
    SharedBasesShare(a, b, st);
    LongerSlugIsPlain(st, a, b, c);
    assert !HasChildren(b, st) && !HasChildren(c, st);
    RivalsClash(st, None, c, b);
    RivalsCollide(st, rank, None, c, b);
  }

  lemma LongerSlugIsPlain(st: Fold, a: PageId, b: PageId, c: PageId)
    requires st.pages.Keys == {a, b, c}
    requires Slugify(st.pages[a].title) == Slugify(st.pages[b].title)
    requires Slugify(st.pages[c].title) == Slugify(st.pages[b].title) + "-" + ShortId(b)
    ensures !SharesBase(c, st)
  {
    assert |Slugify(st.pages[c].title)| > |Slugify(st.pages[b].title)|;
    forall p | p in st.pages && p != c ensures Slugify(st.pages[p].title) != Slugify(st.pages[c].title) {
      assert p in {a, b, c};
    }
  }

  /** Titles such siblings can have, whatever their ids: a slug, the same with capitals, and the slug with
      the second page's short id spelled out. */
  lemma SpelledOutTitles(base: string, capitals: string, id: PageId)
    requires IsSlug(base) && Lower(capitals) == base
    ensures Slugify(base) == base && Slugify(capitals) == base
    ensures Slugify(base + "-" + ShortId(id)) == base + "-" + ShortId(id)
  {
    SlugifyFixesSlugs(base);
    SlugifyLowered(capitals);
    SlugsJoin(base, ShortId(id));
    SlugifyFixesSlugs(base + "-" + ShortId(id));
  }

  /** Live pages side by side at the top, and nothing else. */
  ghost predicate AllAtTheTop(st: Fold) {
    !st.archived && forall p :: p in st.pages ==> st.pages[p].parentId.None? && !st.pages[p].archived
  }

  /** Ids of uneven shape bring the third family: two pages on one slug, two on that slug and `word`, and
      short ids of which one is the other behind `word`. The second and the fourth share a file. */
  lemma SuffixedMeetCase(st: Fold, a: PageId, b: PageId, c: PageId, d: PageId, word: string)
    requires AllAtTheTop(st) && {a, b, c, d} <= st.pages.Keys && a != b && c != d
    requires Slugify(st.pages[a].title) == Slugify(st.pages[b].title)
    requires Slugify(st.pages[c].title) == Slugify(st.pages[d].title) == Slugify(st.pages[b].title) + "-" + word
    requires ShortId(b) == word + "-" + ShortId(d)
    ensures b != d && Mirrored(b, st, None) && Mirrored(d, st, None) && PathOf(b, st, None) == PathOf(d, st, None)
  {
    var rank: map<PageId, nat> := map p | p in st.pages :: 0;
    ShortChainIsLive(st, rank, b);
    ShortChainIsLive(st, rank, d);
    SharedBasesShare(a, b, st);
    SharedBasesShare(c, d, st);
    RunTogether(Slugify(st.pages[b].title), word, ShortId(d));
    assert !HasChildren(b, st) && !HasChildren(d, st);
    RivalsClash(st, None, b, d);
    RivalsCollide(st, rank, None, b, d);
  }

  /** Such short ids: one local part is the other behind a word and a dash. */
  lemma UnevenIds(kind: string, word: string, short: string)
    requires PageType(kind) && IsSlug(word) && IsSlug(short)
    ensures ShortId(kind + (":" + short)) == short
    ensures ShortId(kind + (":" + (word + "-" + short))) == word + "-" + ShortId(kind + (":" + short))
  {
    SlugsJoin(word, short);
    LocalOf(kind, short);
    LocalOf(kind, word + "-" + short);
    ShortIdIsLocalPart(kind + (":" + short));
    ShortIdIsLocalPart(kind + (":" + (word + "-" + short)));
  }

  lemma RunTogether(base: string, word: string, short: string)
    ensures base + "-" + (word + "-" + short) == base + "-" + word + "-" + short
    ensures |word + "-" + short| > |short|
  {
  }

  /** And the fourth: a type that itself holds two dashes and a local part that does. */
  lemma ArchivedMeetCase(kind: string, word: string, local: string)
    requires PageType(kind) && PageType(word) && PageType(local)
    ensures ArchivedFileName(kind + (":" + (word + "--" + local))) ==
      ArchivedFileName((kind + "--" + word) + (":" + local))
    ensures kind + (":" + (word + "--" + local)) != (kind + "--" + word) + (":" + local)
  {
    ArchivedNameOfParts(kind, word + "--" + local);
    ArchivedNameOfParts(kind + "--" + word, local);
    ColonAt(kind, word + "--" + local);
    ColonAt(kind + "--" + word, local);
    OneName(kind, word, local);
  }

  lemma OneName(kind: string, word: string, local: string)
    ensures (kind + "-") + "-" + (word + "--" + local) == ((kind + "--" + word) + "-") + "-" + local
  {
  }
}
