/** The outline: a flat list of sections whose depths encode a tree. (wiki-ui/lib/outline.ts:24-123) */
module Outline {
  import opened Options

  datatype Section = Section(id: string, depth: nat, slot: string)
  datatype Direction = Up | Down

  /** Section `i` is at most one level deeper than the one before it, and the first is at the top. */
  predicate Legal(es: seq<Section>, i: int)
    requires 0 <= i < |es|
  {
    es[i].depth <= (if i == 0 then 0 else es[i - 1].depth + 1)
  }

  /** No heading level is skipped. */
  ghost predicate WellFormed(es: seq<Section>) {
    forall i :: 0 <= i < |es| ==> Legal(es, i)
  }

  ghost predicate UniqueIds(es: seq<Section>) {
    forall i, j :: 0 <= i < j < |es| ==> es[i].id != es[j].id
  }

  /** Section `i` is an ancestor of section `j`: everything after `i` up to `j` is deeper. */
  ghost predicate Under(es: seq<Section>, i: int, j: int) {
    0 <= i < j < |es| && forall k :: i < k <= j ==> es[k].depth > es[i].depth
  }

  /** `end` is where the subtree of `i` ends. */
  ghost predicate Ends(es: seq<Section>, i: int, end: int) {
    && 0 <= i < end <= |es|
    && (forall k :: i < k < end ==> es[k].depth > es[i].depth)
    && (end < |es| ==> es[end].depth <= es[i].depth)
  }

  /** The end of the subtree of `i`, counting on from `from`. */
  function End(es: seq<Section>, i: nat, from: nat): (end: nat)
    requires i < from <= |es|
    ensures from <= end <= |es|
    ensures forall k :: from <= k < end ==> es[k].depth > es[i].depth
    ensures end < |es| ==> es[end].depth <= es[i].depth
    decreases |es| - from
  {
    if from < |es| && es[from].depth > es[i].depth then End(es, i, from + 1) else from
  }

  lemma EndIsUnique(es: seq<Section>, i: int, a: int, b: int)
    requires Ends(es, i, a) && Ends(es, i, b)
    ensures a == b
  {
  }

  method SubtreeRange(es: seq<Section>, index: nat) returns (start: nat, end: nat)
    requires index < |es|
    ensures start == index && Ends(es, index, end)
    ensures forall j :: start < j < end <==> Under(es, index, j)
  {
    var base := es[index].depth;
    end := index + 1;
    while end < |es| && es[end].depth > base
      invariant index < end <= |es|
      invariant forall k :: index < k < end ==> es[k].depth > base
    {
      end := end + 1;
    }
    start := index;
  }

  method SubtreeIds(es: seq<Section>, index: nat) returns (ids: seq<string>)
    requires index < |es|
    ensures exists end :: Ends(es, index, end) && ids == Ids(es)[index..end]
  {
    var start, end := SubtreeRange(es, index);
    ids := Ids(es[start..end]);
    assert ids == Ids(es)[index..end];
  }

  function Ids(es: seq<Section>): (ids: seq<string>)
    ensures |ids| == |es| && forall i :: 0 <= i < |es| ==> ids[i] == es[i].id
  {
    seq(|es|, i requires 0 <= i < |es| => es[i].id)
  }

  // ----- ancestors -----

  /** The nearest section at or before `i` that is at level `want`. */
  function Back(es: seq<Section>, i: nat, want: nat): (p: nat)
    requires WellFormed(es) && i < |es| && es[i].depth >= want
    ensures p <= i && es[p].depth == want
    ensures forall k :: p < k <= i ==> es[k].depth > want
  {
    if es[i].depth == want then i else
      assert Legal(es, i);
      Back(es, i - 1, want)
  }

  function Parent(es: seq<Section>, j: nat): (p: nat)
    requires WellFormed(es) && j < |es| && es[j].depth > 0
    ensures p < j && es[p].depth == es[j].depth - 1
    ensures forall k :: p < k < j ==> es[k].depth >= es[j].depth
  {
    assert Legal(es, j);
    Back(es, j - 1, es[j].depth - 1)
  }

  /** Parent of parent of parent, outermost first. */
  function Chain(es: seq<Section>, j: nat): (chain: seq<nat>)
    requires WellFormed(es) && j < |es|
    ensures |chain| == es[j].depth && forall d :: 0 <= d < |chain| ==> chain[d] < j
  {
    if es[j].depth == 0 then [] else Chain(es, Parent(es, j)) + [Parent(es, j)]
  }

  lemma UnderParent(es: seq<Section>, i: int, j: nat)
    requires WellFormed(es) && j < |es| && es[j].depth > 0
    ensures Under(es, i, j) <==> i == Parent(es, j) || Under(es, i, Parent(es, j))
  {
  }

  /** The chain of parents is the ancestors, each at its own level. */
  lemma {:induction false} ChainIsAncestors(es: seq<Section>, j: nat)
    requires WellFormed(es) && j < |es|
    ensures forall d :: 0 <= d < |Chain(es, j)| ==> Under(es, Chain(es, j)[d], j) && es[Chain(es, j)[d]].depth == d
    ensures forall i :: Under(es, i, j) ==> es[i].depth < es[j].depth && Chain(es, j)[es[i].depth] == i
    decreases j
  {
    if es[j].depth > 0 {
      var p := Parent(es, j);
      ChainIsAncestors(es, p);
      forall i ensures Under(es, i, j) <==> i == p || Under(es, i, p) {
        UnderParent(es, i, j);
      }
    }
  }

  function IdsAt(es: seq<Section>, at: seq<nat>): (ids: seq<string>)
    requires forall d :: 0 <= d < |at| ==> at[d] < |es|
    ensures |ids| == |at| && forall d :: 0 <= d < |at| ==> ids[d] == es[at[d]].id
  {
    seq(|at|, d requires 0 <= d < |at| => es[at[d]].id)
  }

  /** Section `j` is the nearest before `end` at this level. */
  ghost predicate NearestAt(es: seq<Section>, j: int, end: int, level: int) {
    0 <= j < end <= |es| && es[j].depth == level && forall k :: j < k < end ==> es[k].depth != level
  }

  /** `chain` climbs up from before `end`, outermost first: the nearest section at level `want`, before it
      the nearest one level up, and so on, until the next level does not occur. */
  ghost predicate Climbs(es: seq<Section>, end: int, want: int, chain: seq<nat>)
    decreases |chain|
  {
    if chain == [] then forall j :: 0 <= j < end && j < |es| ==> es[j].depth != want
    else
      var last := chain[|chain| - 1];
      NearestAt(es, last, end, want) && Climbs(es, last, want - 1, chain[..|chain| - 1])
  }

  lemma {:induction false} ClimbIsUnique(es: seq<Section>, end: int, want: int, a: seq<nat>, b: seq<nat>)
    requires Climbs(es, end, want, a) && Climbs(es, end, want, b)
    ensures a == b
    decreases |a|
  {
    if a != [] && b != [] {
      var last := a[|a| - 1];
      assert last == b[|b| - 1];
      ClimbIsUnique(es, last, want - 1, a[..|a| - 1], b[..|b| - 1]);
      assert a == a[..|a| - 1] + [last] && b == b[..|b| - 1] + [last];
    }
  }

  function Walk(es: seq<Section>, end: nat, want: int): (chain: seq<nat>)
    requires end <= |es|
    ensures forall k :: 0 <= k < |chain| ==> chain[k] < end
    ensures Climbs(es, end, want, chain)
  {
    if end == 0 || want < 0 then []
    else if es[end - 1].depth == want then
      var chain := Walk(es, end - 1, want - 1);
      assert (chain + [end - 1])[..|chain|] == chain;
      chain + [end - 1]
    else Walk(es, end - 1, want)
  }

  lemma {:induction false} ChainClimbs(es: seq<Section>, j: nat)
    requires WellFormed(es) && j < |es|
    ensures Climbs(es, j, es[j].depth - 1, Chain(es, j))
    decreases j
  {
    if es[j].depth > 0 {
      var p := Parent(es, j);
      ChainClimbs(es, p);
      assert (Chain(es, p) + [p])[..|Chain(es, p)|] == Chain(es, p);
    }
  }

  lemma WalkStep(es: seq<Section>, i: nat, want: nat, met: seq<nat>)
    requires i < |es| && es[i].depth == want
    ensures Walk(es, i + 1, want) + met == Walk(es, i, want - 1) + ([i] + met)
  {
  }

  lemma IdsStep(es: seq<Section>, i: nat, met: seq<nat>)
    requires i < |es| && forall k :: 0 <= k < |met| ==> met[k] < |es|
    ensures IdsAt(es, [i] + met) == [es[i].id] + IdsAt(es, met)
  {
  }

  /** The sections the climb from `index` meets, outermost first: in any outline the nearest section one
      level up, the nearest before that another level up, and so on; in a well-formed one the parents. */
  method AncestorIds(es: seq<Section>, index: nat) returns (out: seq<string>)
    requires index < |es|
    ensures out == IdsAt(es, Walk(es, index, es[index].depth - 1))
    ensures WellFormed(es) ==> out == IdsAt(es, Chain(es, index))
  {
    out := [];
    var want := es[index].depth - 1;
    var i := index - 1;
    ghost var all, met: seq<nat> := Walk(es, index, want), [];
    while i >= 0 && want >= 0
      invariant -1 <= i < index && want >= -1
      invariant all == Walk(es, i + 1, want) + met
      invariant forall k :: 0 <= k < |met| ==> met[k] < |es|
      invariant out == IdsAt(es, met)
    {
      if es[i].depth == want {
        WalkStep(es, i, want, met);
        IdsStep(es, i, met);
        met := [i] + met;
        out := [es[i].id] + out;
        want := want - 1;
      } else {
        WalkPast(es, i, want);
      }
      i := i - 1;
    }
    WalkEnds(es, i + 1, want, met);
    WalkIsChain(es, index, all);
  }

  lemma WalkPast(es: seq<Section>, i: nat, want: nat)
    requires i < |es| && es[i].depth != want
    ensures Walk(es, i + 1, want) == Walk(es, i, want)
  {
  }

  lemma WalkEnds(es: seq<Section>, end: nat, want: int, met: seq<nat>)
    requires end <= |es| && (end == 0 || want < 0)
    ensures Walk(es, end, want) + met == met
  {
  }

  lemma WalkIsChain(es: seq<Section>, index: nat, walk: seq<nat>)
    requires index < |es| && walk == Walk(es, index, es[index].depth - 1)
    ensures WellFormed(es) ==> walk == Chain(es, index)
  {
    if WellFormed(es) {
      ChainClimbs(es, index);
      ClimbIsUnique(es, index, es[index].depth - 1, Chain(es, index), walk);
    }
  }

  // ----- collapsing -----

  /** A section is hidden exactly when some ancestor of it is collapsed. */
  method HiddenByCollapse(es: seq<Section>, collapsed: set<string>) returns (hidden: set<string>)
    ensures forall id :: id in hidden <==> exists i, j :: Under(es, i, j) && es[i].id in collapsed && es[j].id == id
  {
    hidden := {};
    for i := 0 to |es|
      invariant forall id :: id in hidden <==>
        exists a, j :: a < i && Under(es, a, j) && es[a].id in collapsed && es[j].id == id
    {
      if es[i].id in collapsed {
        var start, end := SubtreeRange(es, i);
        ghost var before := hidden;
        for j := i + 1 to end
          invariant forall id :: id in hidden <==> id in before || exists k :: i < k < j && es[k].id == id
        {
          hidden := hidden + {es[j].id};
        }
        forall id ensures id in hidden <==>
          exists a, j :: a < i + 1 && Under(es, a, j) && es[a].id in collapsed && es[j].id == id {
          if k :| i < k < end && es[k].id == id {
            assert Under(es, i, k);
          }
        }
      }
    }
  }

  // ----- indenting -----

  predicate CanIndent(es: seq<Section>, index: nat)
    requires index < |es|
  {
    index > 0 && |es[index].slot| == 0 && es[index - 1].depth >= es[index].depth
  }

  predicate CanOutdent(es: seq<Section>, index: nat)
    requires index < |es|
  {
    es[index].depth > 0
  }

  function Deeper(es: seq<Section>): (r: seq<Section>)
    ensures |r| == |es| && forall i :: 0 <= i < |es| ==> r[i] == es[i].(depth := es[i].depth + 1)
  {
    seq(|es|, i requires 0 <= i < |es| => es[i].(depth := es[i].depth + 1))
  }

  function Shallower(es: seq<Section>): (r: seq<Section>)
    requires forall i :: 0 <= i < |es| ==> es[i].depth > 0
    ensures |r| == |es| && forall i :: 0 <= i < |es| ==> r[i] == es[i].(depth := es[i].depth - 1)
  {
    seq(|es|, i requires 0 <= i < |es| => es[i].(depth := es[i].depth - 1))
  }

  /** Section `i` and everything under it, one level deeper. */
  function Indented(es: seq<Section>, i: nat): seq<Section>
    requires i < |es|
  {
    var end := End(es, i, i + 1);
    es[..i] + Deeper(es[i..end]) + es[end..]
  }

  function Outdented(es: seq<Section>, i: nat): seq<Section>
    requires i < |es| && CanOutdent(es, i)
  {
    var end := End(es, i, i + 1);
    es[..i] + Shallower(es[i..end]) + es[end..]
  }

  /** For a section no slot pins to the top, `canIndent` is exactly whether indenting skips no level. */
  lemma IndentKeepsExactly(es: seq<Section>, i: nat)
    requires WellFormed(es) && i < |es| && es[i].slot == ""
    ensures WellFormed(Indented(es, i)) <==> CanIndent(es, i)
  {
    var end := End(es, i, i + 1);
    var t := Indented(es, i);
    forall k | 0 <= k < |es| && k != i ensures Legal(t, k) {
      assert Legal(es, k);
    }
    assert Legal(es, i) && (Legal(t, i) <==> CanIndent(es, i));
  }

  lemma OutdentKeeps(es: seq<Section>, i: nat)
    requires WellFormed(es) && i < |es| && CanOutdent(es, i)
    ensures WellFormed(Outdented(es, i))
  {
    var end := End(es, i, i + 1);
    var t := Outdented(es, i);
    forall k | 0 <= k < |es| ensures Legal(t, k) {
      assert Legal(es, k) && (k > 0 ==> Legal(es, k - 1));
    }
  }

  lemma IndentedEnd(es: seq<Section>, i: nat)
    requires i < |es|
    ensures |Indented(es, i)| == |es| && End(Indented(es, i), i, i + 1) == End(es, i, i + 1)
  {
    var t, end := Indented(es, i), End(es, i, i + 1);
    forall k | i <= k < end ensures t[k].depth == es[k].depth + 1 {
      assert t[k] == Deeper(es[i..end])[k - i];
    }
    assert Ends(t, i, end) && Ends(t, i, End(t, i, i + 1));
    EndIsUnique(t, i, end, End(t, i, i + 1));
  }

  /** Outdenting undoes an indent. */
  lemma OutdentUndoesIndent(es: seq<Section>, i: nat)
    requires i < |es|
    ensures |Indented(es, i)| == |es| && CanOutdent(Indented(es, i), i) && Outdented(Indented(es, i), i) == es
  {
    var end := End(es, i, i + 1);
    IndentedEnd(es, i);
    Thirds(es[..i], Deeper(es[i..end]), es[end..]);
    ShallowerAgain(es[i..end]);
    assert es[..i] + es[i..end] + es[end..] == es;
  }

  lemma ShallowerAgain(es: seq<Section>)
    ensures Shallower(Deeper(es)) == es
  {
  }

  lemma Thirds<T>(a: seq<T>, b: seq<T>, c: seq<T>)
    ensures (a + b + c)[..|a|] == a && (a + b + c)[|a|..|a| + |b|] == b && (a + b + c)[|a| + |b|..] == c
  {
  }

  // ----- sibling moves -----

  /** `p` and `q` are siblings next to each other. */
  ghost predicate NextTo(es: seq<Section>, p: int, q: int) {
    Ends(es, p, q) && q < |es| && es[p].depth == es[q].depth
  }

  /** Lift `start..end` out and put it back so that it begins at `to` of what is left. */
  function Moved<T>(es: seq<T>, start: nat, end: nat, to: nat): seq<T>
    requires start <= end <= |es| && to <= |es| - (end - start)
  {
    var lifted := es[..start] + es[end..];
    lifted[..to] + es[start..end] + lifted[to..]
  }

  /** Two blocks side by side change places. */
  function Swapped<T>(es: seq<T>, p: nat, q: nat, r: nat): seq<T>
    requires p <= q <= r <= |es|
  {
    es[..p] + es[q..r] + es[p..q] + es[r..]
  }

  lemma MovedUpIsSwapped<T>(es: seq<T>, p: nat, q: nat, r: nat)
    requires p <= q <= r <= |es|
    ensures Moved(es, q, r, p) == Swapped(es, p, q, r)
  {
    var lifted := es[..q] + es[r..];
    assert lifted[..p] == es[..p] && lifted[p..] == es[p..q] + es[r..];
  }

  lemma MovedDownIsSwapped<T>(es: seq<T>, p: nat, q: nat, r: nat)
    requires p <= q <= r <= |es|
    ensures Moved(es, p, q, r - (q - p)) == Swapped(es, p, q, r)
  {
    var lifted := es[..p] + es[q..];
    assert lifted[..r - (q - p)] == es[..p] + es[q..r] && lifted[r - (q - p)..] == es[r..];
  }

  lemma SwapBack<T>(es: seq<T>, p: nat, q: nat, r: nat)
    requires p <= q <= r <= |es|
    ensures Swapped(Swapped(es, p, q, r), p, p + (r - q), r) == es
  {
    var t, m := Swapped(es, p, q, r), p + (r - q);
    assert t[..p] == es[..p] && t[p..m] == es[q..r] && t[m..r] == es[p..q] && t[r..] == es[r..];
    assert es == es[..p] + es[p..q] + es[q..r] + es[r..];
  }

  /** Where section `j` stands once `start..end` is lifted out. */
  method FindLifted(es: seq<Section>, start: nat, end: nat, j: nat) returns (at: nat)
    requires UniqueIds(es) && start <= end <= |es| && j < |es| && (j < start || end <= j)
    ensures at == if j < start then j else j - (end - start)
  {
    var lifted := es[..start] + es[end..];
    ghost var where := if j < start then j else j - (end - start);
    at := 0;
    while lifted[at].id != es[j].id
      invariant 0 <= at <= where < |lifted|
      invariant lifted[where] == es[j]
      decreases where - at
    {
      at := at + 1;
    }
    assert lifted[at] == es[if at < start then at else at + (end - start)];
  }

  lemma NoElderSibling(es: seq<Section>, i: int, index: int)
    requires 0 <= i < index < |es| && es[i].depth < es[index].depth
    requires forall k :: i < k < index ==> es[k].depth > es[index].depth
    ensures !exists p :: NextTo(es, p, index)
  {
    forall p | 0 <= p < index && es[p].depth == es[index].depth ensures !Ends(es, p, index) {
      assert p < i && es[i].depth < es[p].depth;
    }
  }

  lemma NoYoungerSibling(es: seq<Section>, index: int, end: int)
    requires Ends(es, index, end) && (end < |es| ==> es[end].depth < es[index].depth)
    ensures !exists q :: NextTo(es, index, q)
  {
    forall q ensures !NextTo(es, index, q) {
      if Ends(es, index, q) {
        EndIsUnique(es, index, end, q);
      }
    }
  }

  method ElderSiblingTarget(es: seq<Section>, index: nat, end: nat) returns (to: Option<nat>)
    requires UniqueIds(es) && index < |es| && Ends(es, index, end)
    ensures if to.Some? then NextTo(es, to.value, index) else !exists p :: NextTo(es, p, index)
  {
    var i := index - 1;
    while i >= 0
      invariant -1 <= i < index
      invariant forall k :: i < k < index ==> es[k].depth > es[index].depth
    {
      if es[i].depth < es[index].depth {
        NoElderSibling(es, i, index);
        return None;
      }
      if es[i].depth == es[index].depth {
        var at := FindLifted(es, index, end, i);
        return Some(at);
      }
      i := i - 1;
    }
    return None;
  }

  method YoungerSiblingTarget(es: seq<Section>, index: nat, end: nat) returns (to: Option<nat>)
    requires UniqueIds(es) && index < |es| && Ends(es, index, end)
    ensures if to.Some? then NextTo(es, index, end) && Ends(es, end, to.value + (end - index))
      else !exists q :: NextTo(es, index, q)
  {
    for i := end to |es|
      invariant i == end
    {
      if es[i].depth < es[index].depth {
        NoYoungerSibling(es, index, end);
        return None;
      }
      if es[i].depth == es[index].depth {
        var _, nextEnd := SubtreeRange(es, i);
        if nextEnd == |es| {
          return Some(|es| - (end - index));
        }
        var at := FindLifted(es, index, end, nextEnd);
        return Some(at);
      }
    }
    NoYoungerSibling(es, index, end);
    return None;
  }

  /** The subtree at `index` and its elder sibling's, or its younger sibling's, are the two blocks
      `p..q` and `q..r`. */
  ghost predicate SideBySide(es: seq<Section>, p: int, q: int, r: int) {
    NextTo(es, p, q) && Ends(es, q, r)
  }

  /** Where the subtree at `index` lands, in the list without it: nowhere exactly when there is no
      sibling that way, and otherwise where its block changes places with the sibling's. */
  method SiblingMoveTarget(es: seq<Section>, index: nat, direction: Direction) returns (to: Option<nat>)
    requires UniqueIds(es) && index < |es|
    ensures direction.Up? && to.None? ==> !exists p :: NextTo(es, p, index)
    ensures direction.Down? && to.None? ==> !exists q :: NextTo(es, index, q)
    ensures direction.Up? && to.Some? ==> exists end ::
      SideBySide(es, to.value, index, end) && Moved(es, index, end, to.value) == Swapped(es, to.value, index, end)
    ensures direction.Down? && to.Some? ==> exists end ::
      var nextEnd := to.value + (end - index);
      SideBySide(es, index, end, nextEnd) && Moved(es, index, end, to.value) == Swapped(es, index, end, nextEnd)
  {
    var start, end := SubtreeRange(es, index);
    if direction.Up? {
      to := ElderSiblingTarget(es, index, end);
      if to.Some? {
        MovedUpIsSwapped(es, to.value, index, end);
      }
    } else {
      to := YoungerSiblingTarget(es, index, end);
      if to.Some? {
        MovedDownIsSwapped(es, index, end, to.value + (end - index));
      }
    }
  }

}
