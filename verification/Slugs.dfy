/** Names a mirror gives to pages: title slugs, short ids and archived file names
    (wiki-mirror/src/markdown-projection.ts:94-108 and :212-221). */
module Slugs {

  type PageId = string

  predicate Alnum(c: char) {
    'a' <= c <= 'z' || '0' <= c <= '9'
  }

  predicate SlugChar(c: char) {
    Alnum(c) || c == '-'
  }

  function LowerChar(c: char): char {
    if 'A' <= c <= 'Z' then ((c as int) + 32) as char else c
  }

  function Lower(s: string): string {
    seq(|s|, i requires 0 <= i < |s| => LowerChar(s[i]))
  }

  /** Slug characters with no two dashes in a row. */
  predicate Dashed(s: string) {
    && (forall i :: 0 <= i < |s| ==> SlugChar(s[i]))
    && (forall i :: 0 < i < |s| ==> s[i - 1] != '-' || s[i] != '-')
  }

  lemma SlicesStayDashed(s: string, lo: nat, hi: nat)
    requires Dashed(s) && lo <= hi <= |s|
    ensures Dashed(s[lo..hi])
  {
    var t := s[lo..hi];
    forall i | 0 < i < |t| ensures t[i - 1] != '-' || t[i] != '-' {
      assert t[i - 1] == s[lo + i - 1] && t[i] == s[lo + i];
    }
  }

  /** Every maximal run of characters outside `[a-z0-9]` becomes one dash. */
  function DashRuns(s: string, inRun: bool): (r: string)
    ensures Dashed(r)
    ensures inRun && |r| > 0 ==> r[0] != '-'
  {
    if s == "" then ""
    else if Alnum(s[0]) then [s[0]] + DashRuns(s[1..], false)
    else if inRun then DashRuns(s[1..], true)
    else "-" + DashRuns(s[1..], true)
  }

  function StripLeading(s: string): (r: string)
    ensures Dashed(s) ==> Dashed(r)
    ensures |r| > 0 ==> r[0] != '-'
  {
    if |s| > 0 && s[0] == '-' then
      assert Dashed(s) ==> Dashed(s[1..]) by { if Dashed(s) { SlicesStayDashed(s, 1, |s|); } }
      StripLeading(s[1..])
    else s
  }

  function StripTrailing(s: string): (r: string)
    ensures Dashed(s) ==> Dashed(r)
    ensures |r| <= |s|
    ensures |r| > 0 ==> r[|r| - 1] != '-' && r[0] == s[0]
  {
    if |s| > 0 && s[|s| - 1] == '-' then
      assert Dashed(s) ==> Dashed(s[..|s| - 1]) by { if Dashed(s) { SlicesStayDashed(s, 0, |s| - 1); } }
      StripTrailing(s[..|s| - 1])
    else s
  }

  /** Two or more dashes in a row become one. */
  function CollapseDashes(s: string): string {
    if |s| < 2 then s
    else if s[0] == '-' && s[1] == '-' then CollapseDashes(s[1..])
    else [s[0]] + CollapseDashes(s[1..])
  }

  lemma {:induction false} CollapseIsIdle(s: string)
    requires Dashed(s)
    ensures CollapseDashes(s) == s
  {
    if |s| >= 2 {
      SlicesStayDashed(s, 1, |s|);
      CollapseIsIdle(s[1..]);
      assert s == [s[0]] + s[1..];
    }
  }

  /** What every slug looks like, whatever the title was. */
  predicate IsSlug(s: string) {
    && |s| > 0
    && Dashed(s)
    && s[0] != '-' && s[|s| - 1] != '-'
  }

  function Slugify(title: string): (r: string)
    ensures IsSlug(r)
  {
    var stripped := StripTrailing(StripLeading(DashRuns(Lower(title), false)));
    CollapseIsIdle(stripped);
    var s := CollapseDashes(stripped);
    if |s| > 0 then s else "untitled"
  }

  lemma {:induction false} DashRunsKeepsSlugs(s: string)
    requires Dashed(s)
    ensures DashRuns(s, false) == s
    ensures |s| > 0 && s[0] != '-' ==> DashRuns(s, true) == s
  {
    if |s| > 0 {
      assert s == [s[0]] + s[1..];
      SlicesStayDashed(s, 1, |s|);
      DashRunsKeepsSlugs(s[1..]);
    }
  }

  /** A title that is a slug up to letter case keeps its spelling. */
  lemma SlugifyLowered(s: string)
    requires IsSlug(Lower(s))
    ensures Slugify(s) == Lower(s)
  {
    SlugSlugifies(s, Lower(s));
  }

  lemma SlugSlugifies(s: string, low: string)
    requires low == Lower(s) && IsSlug(low)
    ensures Slugify(s) == low
  {
    DashRunsKeepsSlugs(low);
    NothingToStrip(low);
    CollapseIsIdle(low);
  }

  lemma NothingToStrip(s: string)
    requires |s| > 0 && s[0] != '-' && s[|s| - 1] != '-'
    ensures StripTrailing(StripLeading(s)) == s
  {
    assert StripLeading(s) == s;
    assert StripTrailing(s) == s;
  }

  /** Slugging is stable: a slug is its own slug, so a base-36 local part is its own short id. */
  lemma SlugifyFixesSlugs(s: string)
    requires IsSlug(s)
    ensures Slugify(s) == s
  {
    assert Lower(s) == s;
    SlugifyLowered(s);
  }

  /** Index of the first colon, or the length when there is none. */
  function Colon(id: string): (k: nat)
    ensures k <= |id|
    ensures forall i :: 0 <= i < k ==> id[i] != ':'
    ensures k < |id| ==> id[k] == ':'
  {
    if id == "" || id[0] == ':' then 0 else 1 + Colon(id[1..])
  }

  /** What follows the type of an id. */
  function Local(id: PageId): string {
    var k := Colon(id);
    if k < |id| then id[k + 1..] else id
  }

  function ShortId(id: PageId): (r: string)
    ensures IsSlug(r)
  {
    Slugify(Local(id))
  }

  predicate FileChar(c: char) {
    'A' <= c <= 'Z' || 'a' <= c <= 'z' || '0' <= c <= '9' || c == '.' || c == '_' || c == '-'
  }

  /** Replaces each colon by two dashes. */
  function SpellColons(id: string): string {
    if id == "" then "" else (if id[0] == ':' then "--" else [id[0]]) + SpellColons(id[1..])
  }

  /** Every maximal run of characters a file name may not hold becomes one dash. */
  function SafeRuns(s: string, inRun: bool): (r: string)
    ensures forall c :: c in r ==> FileChar(c)
  {
    if s == "" then ""
    else if FileChar(s[0]) then [s[0]] + SafeRuns(s[1..], false)
    else (if inRun then "" else "-") + SafeRuns(s[1..], true)
  }

  function ArchivedFileName(id: PageId): (r: string)
    ensures forall c :: c in r ==> FileChar(c)
    ensures |r| >= 3 && r[|r| - 3..] == ".md"
  {
    SafeRuns(SpellColons(id), false) + ".md"
  }

  /** `type:local`, and nothing in either a file name may not hold. */
  predicate SafeId(id: PageId) {
    var k := Colon(id);
    && k < |id|
    && (forall i :: 0 <= i < k ==> FileChar(id[i]))
    && (forall i :: k < i < |id| ==> FileChar(id[i]))
  }

  lemma {:induction false} SpellColonsPlain(s: string)
    requires forall i :: 0 <= i < |s| ==> s[i] != ':'
    ensures SpellColons(s) == s
  {
    if s != "" {
      SpellColonsPlain(s[1..]);
    }
  }

  lemma {:induction false} SpellColonsAppend(a: string, b: string)
    ensures SpellColons(a + b) == SpellColons(a) + SpellColons(b)
  {
    if a == "" {
      assert a + b == b;
    } else {
      assert (a + b)[1..] == a[1..] + b;
      SpellColonsAppend(a[1..], b);
    }
  }

  lemma {:induction false} SafeRunsPlain(s: string)
    requires forall i :: 0 <= i < |s| ==> FileChar(s[i])
    ensures SafeRuns(s, false) == s
  {
    if s != "" {
      SafeRunsPlain(s[1..]);
    }
  }

  lemma SpellColonOnce(a: string, b: string)
    requires forall i :: 0 <= i < |a| ==> a[i] != ':'
    requires forall i :: 0 <= i < |b| ==> b[i] != ':'
    ensures SpellColons(a + (":" + b)) == a + ("--" + b)
  {
    var tail := ":" + b;
    SpellColonsAppend(a, tail);
    SpellColonsPlain(a);
    SpellColonsPlain(b);
    assert tail[1..] == b;
  }

  lemma ArchivedNameOfParts(a: string, b: string)
    requires forall i :: 0 <= i < |a| ==> FileChar(a[i])
    requires forall i :: 0 <= i < |b| ==> FileChar(b[i])
    ensures ArchivedFileName(a + (":" + b)) == (a + "-") + "-" + b + ".md"
  {
    SpellColonOnce(a, b);
    var spelled := (a + "-") + "-" + b;
    assert a + ("--" + b) == spelled;
    SafeRunsPlain(spelled);
  }

  lemma ArchivedNameOfSafeId(id: PageId)
    requires SafeId(id)
    ensures ArchivedFileName(id) == (id[..Colon(id)] + "-") + "-" + Local(id) + ".md"
  {
    KindIsSafe(id, id[..Colon(id)]);
    LocalIsSafe(id, Local(id));
    ArchivedNameOfSplit(id, id[..Colon(id)], Local(id));
  }

  lemma ArchivedNameOfSplit(id: PageId, kind: string, local: string)
    requires Colon(id) < |id| && kind == id[..Colon(id)] && local == Local(id)
    requires forall i :: 0 <= i < |kind| ==> FileChar(kind[i])
    requires forall i :: 0 <= i < |local| ==> FileChar(local[i])
    ensures ArchivedFileName(id) == (kind + "-") + "-" + local + ".md"
  {
    SplitsAtColon(id);
    ArchivedNameOfParts(kind, local);
  }

  lemma KindIsSafe(id: PageId, kind: string)
    requires SafeId(id) && kind == id[..Colon(id)]
    ensures forall i :: 0 <= i < |kind| ==> FileChar(kind[i])
  {
  }

  lemma LocalIsSafe(id: PageId, local: string)
    requires SafeId(id) && local == Local(id)
    ensures forall i :: 0 <= i < |local| ==> FileChar(local[i])
  {
    assert forall i :: 0 <= i < |local| ==> local[i] == id[Colon(id) + 1 + i];
  }

  lemma SplitsAtColon(id: string)
    requires Colon(id) < |id|
    ensures id == id[..Colon(id)] + (":" + id[Colon(id) + 1..])
  {
    SplitsAt(id, Colon(id), ":");
  }

  lemma SplitsAt(s: string, k: nat, one: string)
    requires k < |s| && one == [s[k]]
    ensures s == s[..k] + (one + s[k + 1..])
  {
  }

  ghost function Dashes(s: string): nat {
    multiset(s)['-']
  }

  /** A name splits one way only into what precedes a dash and a suffix with a given number of dashes. */
  lemma EvenDashesSplit(a: string, u: string, b: string, v: string)
    requires a + "-" + u == b + "-" + v && Dashes(u) == Dashes(v)
    ensures a == b && u == v
  {
    if |u| < |v| {
      LongerHasMore(a, u, b, v);
    } else if |v| < |u| {
      LongerHasMore(b, v, a, u);
    } else {
      WithoutPrefixes(a, u, b, v, "-");
    }
  }

  lemma WithoutPrefixes(a: string, u: string, b: string, v: string, dash: string)
    requires a + dash + u == b + dash + v && |u| == |v|
    ensures a == b && u == v
  {
    var s := a + dash + u;
    assert a == s[..|a|] && b == (b + dash + v)[..|b|];
    assert u == s[|a| + |dash|..] && v == (b + dash + v)[|b| + |dash|..];
  }

  /** The longer of two such suffixes ends in a dash and the shorter. */
  lemma LongerHasMore(a: string, u: string, b: string, v: string)
    requires a + "-" + u == b + "-" + v && |u| < |v|
    ensures Dashes(u) < Dashes(v)
  {
    var rest := |v| - |u| - 1;
    TailOf(a, "-", u, b, v);
    assert v == v[..rest] + (['-'] + u);
  }

  lemma TailOf(a: string, dash: string, u: string, b: string, v: string)
    requires a + dash + u == b + dash + v && |dash| == 1 && |u| < |v|
    ensures v[|v| - |u| - 1..] == dash + u
  {
    var s, t := a + dash + u, b + dash + v;
    assert s[|a|..] == dash + u;
    assert t[|t| - |u| - 1..] == v[|v| - |u| - 1..];
  }

  /** Two pages whose ids have equally many dashes after the type never share an archived file. */
  lemma ArchivedNamesDiffer(a: PageId, b: PageId)
    requires SafeId(a) && SafeId(b) && Dashes(Local(a)) == Dashes(Local(b))
    requires ArchivedFileName(a) == ArchivedFileName(b)
    ensures a == b
  {
    var j, k := Colon(a), Colon(b);
    ArchivedNameOfSafeId(a);
    ArchivedNameOfSafeId(b);
    WithoutSuffix((a[..j] + "-") + "-" + Local(a), (b[..k] + "-") + "-" + Local(b), ".md");
    EvenDashesSplit(a[..j] + "-", Local(a), b[..k] + "-", Local(b));
    WithoutSuffix(a[..j], b[..k], "-");
    SplitsAtColon(a);
    SplitsAtColon(b);
  }

  lemma WithoutSuffix(p: string, q: string, end: string)
    requires p + end == q + end
    ensures p == q
  {
    assert p == (p + end)[..|p|] && q == (q + end)[..|q|];
  }

  /** The short id is what follows the type, unchanged, exactly when that reads as a slug. */
  lemma ShortIdIsLocalPart(id: PageId)
    ensures ShortId(id) == Local(id) <==> IsSlug(Local(id))
  {
    if IsSlug(Local(id)) {
      SlugifyFixesSlugs(Local(id));
    }
  }

  // ----- ids as the engine mints them -----

  /** A base-36 number. */
  predicate Base36(s: string) {
    |s| > 0 && forall i :: 0 <= i < |s| ==> Alnum(s[i])
  }

  /** A type that may stand in a file name. */
  predicate PageType(kind: string) {
    forall i :: 0 <= i < |kind| ==> FileChar(kind[i])
  }

  /** Time, counter and random number (wiki/src/core/wiki.ts:116-125). */
  function Stamp(time: string, counter: string, random: string): string {
    time + "-" + counter + "-" + random
  }

  predicate Fields(kind: string, time: string, counter: string, random: string) {
    PageType(kind) && Base36(time) && Base36(counter) && Base36(random)
  }

  /** The type, a colon and such a stamp (wiki/src/core/structure.ts:240). */
  ghost predicate MintedId(id: PageId) {
    exists kind, time, counter, random ::
      Fields(kind, time, counter, random) && id == kind + (":" + Stamp(time, counter, random))
  }

  lemma SlugsJoin(a: string, b: string)
    requires IsSlug(a) && IsSlug(b)
    ensures IsSlug(a + "-" + b)
  {
    var s := a + "-" + b;
    forall i | 0 <= i < |s| ensures SlugChar(s[i]) && (i > 0 ==> s[i - 1] != '-' || s[i] != '-') {
      assert i < |a| ==> s[i] == a[i];
      assert i > |a| ==> s[i] == b[i - |a| - 1];
      assert 0 < i <= |a| ==> s[i - 1] == a[i - 1];
      assert i > |a| + 1 ==> s[i - 1] == b[i - |a| - 2];
    }
  }

  lemma {:induction false} NoDashes(s: string)
    requires '-' !in s
    ensures Dashes(s) == 0
  {
    assert '-' !in multiset(s);
  }

  lemma StampIsSlug(time: string, counter: string, random: string)
    requires Base36(time) && Base36(counter) && Base36(random)
    ensures IsSlug(Stamp(time, counter, random)) && Dashes(Stamp(time, counter, random)) == 2
  {
    SlugsJoin(time, counter);
    SlugsJoin(time + "-" + counter, random);
    NoDashes(time);
    NoDashes(counter);
    NoDashes(random);
    assert multiset("-") == multiset{'-'};
  }

  lemma {:induction false} ColonAt(kind: string, rest: string)
    requires ':' !in kind
    ensures Colon(kind + (":" + rest)) == |kind|
  {
    var id := kind + (":" + rest);
    assert id[|kind|] == ':';
    assert forall i :: 0 <= i < |kind| ==> id[i] == kind[i];
  }

  lemma LocalOf(kind: string, rest: string)
    requires ':' !in kind
    ensures Local(kind + (":" + rest)) == rest
  {
    ColonAt(kind, rest);
    assert (kind + (":" + rest))[|kind| + 1..] == rest;
  }

  lemma PartsAreSafe(kind: string, rest: string)
    requires PageType(kind) && forall i :: 0 <= i < |rest| ==> FileChar(rest[i])
    ensures SafeId(kind + (":" + rest)) && Local(kind + (":" + rest)) == rest
  {
    ColonAt(kind, rest);
    LocalOf(kind, rest);
    var id := kind + (":" + rest);
    assert forall i :: 0 <= i < |kind| ==> id[i] == kind[i];
    assert forall i :: |kind| < i < |id| ==> id[i] == rest[i - |kind| - 1];
  }

  /** Any three numbers and a type make one. */
  lemma StampedIsMinted(kind: string, time: string, counter: string, random: string)
    requires Fields(kind, time, counter, random)
    ensures var id := kind + (":" + Stamp(time, counter, random));
      MintedId(id) && ShortId(id) == Stamp(time, counter, random)
  {
    StampIsSlug(time, counter, random);
    PartsAreSafe(kind, Stamp(time, counter, random));
    ShortIdIsLocalPart(kind + (":" + Stamp(time, counter, random)));
  }

  /** A minted id may stand in a file name, and its short id is its stamp, two dashes and all. */
  lemma MintedIsSafe(id: PageId)
    requires MintedId(id)
    ensures SafeId(id) && ShortId(id) == Local(id) && Dashes(ShortId(id)) == 2
  {
    var kind, time, counter, random :|
      Fields(kind, time, counter, random) && id == kind + (":" + Stamp(time, counter, random));
    StampIsSlug(time, counter, random);
    PartsAreSafe(kind, Stamp(time, counter, random));
    ShortIdIsLocalPart(id);
  }

  /** Archiving never overwrites another page: minted ids have archived files of their own. */
  lemma MintedArchivedNamesDiffer(a: PageId, b: PageId)
    requires MintedId(a) && MintedId(b) && ArchivedFileName(a) == ArchivedFileName(b)
    ensures a == b
  {
    MintedIsSafe(a);
    MintedIsSafe(b);
    ArchivedNamesDiffer(a, b);
  }
}
