/** What a move does to the tree the outline encodes, and the commands behind it.
    (wiki-models/src/spec-restatement/spec-restatement.ts:262-274 and :831-857) */
module OutlineMoves {
  import opened Options
  import opened Outline

  /** Where section `k` stands once the blocks `p..q` and `q..r` have changed places. */
  function NewIndex(p: int, q: int, r: int, k: int): int {
    if p <= k < q then k + (r - q) else if q <= k < r then k - (q - p) else k
  }

  lemma SwappedAt<T>(es: seq<T>, p: nat, q: nat, r: nat, k: nat)
    requires p <= q <= r <= |es| && k < |es|
    ensures |Swapped(es, p, q, r)| == |es| && 0 <= NewIndex(p, q, r, k) < |es|
    ensures Swapped(es, p, q, r)[NewIndex(p, q, r, k)] == es[k]
    ensures NewIndex(p, p + (r - q), r, NewIndex(p, q, r, k)) == k
  {
  }

  /** The section now at `k` is the one that stood at the index the way back leads to. */
  lemma SwappedFrom<T>(es: seq<T>, p: nat, q: nat, r: nat, k: nat)
    requires p <= q <= r <= |es| && k < |es|
    ensures |Swapped(es, p, q, r)| == |es| && 0 <= NewIndex(p, p + (r - q), r, k) < |es|
    ensures Swapped(es, p, q, r)[k] == es[NewIndex(p, p + (r - q), r, k)]
  {
  }

  lemma BlocksAreDeep(es: seq<Section>, p: nat, q: nat, r: nat)
    requires SideBySide(es, p, q, r)
    ensures forall k :: p <= k < r ==> es[k].depth >= es[p].depth
    ensures r < |es| ==> es[r].depth <= es[p].depth
  {
  }

  /** A sibling move loses, adds and changes no section. */
  lemma MoveKeepsSections<T>(es: seq<T>, p: nat, q: nat, r: nat)
    requires p <= q <= r <= |es|
    ensures multiset(Swapped(es, p, q, r)) == multiset(es)
  {
    var a, b, c, d := es[..p], es[p..q], es[q..r], es[r..];
    assert es == a + b + c + d;
    assert multiset(a + c + b + d) == multiset(a) + multiset(c) + multiset(b) + multiset(d);
  }

  lemma MoveKeepsUniqueIds(es: seq<Section>, p: nat, q: nat, r: nat)
    requires p <= q <= r <= |es| && UniqueIds(es)
    ensures UniqueIds(Swapped(es, p, q, r))
  {
    var t := Swapped(es, p, q, r);
    forall i, j | 0 <= i < j < |t| ensures t[i].id != t[j].id {
      SwappedFrom(es, p, q, r, i);
      SwappedFrom(es, p, q, r, j);
    }
  }

  /** A sibling move skips no heading level. */
  lemma MoveKeepsWellFormed(es: seq<Section>, p: nat, q: nat, r: nat)
    requires SideBySide(es, p, q, r) && WellFormed(es)
    ensures WellFormed(Swapped(es, p, q, r))
  {
    BlocksAreDeep(es, p, q, r);
    var t := Swapped(es, p, q, r);
    forall k | 0 <= k < |t| ensures Legal(t, k) {
      var was := NewIndex(p, p + (r - q), r, k);
      SwappedFrom(es, p, q, r, k);
      assert Legal(es, was) && Legal(es, p);
      if k > 0 {
        SwappedFrom(es, p, q, r, k - 1);
      }
    }
  }

  /** The swapped blocks are again side by side. */
  lemma StillSideBySide(es: seq<Section>, p: nat, q: nat, r: nat)
    requires SideBySide(es, p, q, r)
    ensures SideBySide(Swapped(es, p, q, r), p, p + (r - q), r)
  {
    BlocksAreDeep(es, p, q, r);
    var t, m := Swapped(es, p, q, r), p + (r - q);
    assert t[p] == es[q] && t[m] == es[p];
    forall k | p < k < r && k != m ensures t[k].depth > es[p].depth {
      SwappedFrom(es, p, q, r, k);
    }
    assert r < |t| ==> t[r] == es[r];
  }

  lemma StaysUnder(es: seq<Section>, p: nat, q: nat, r: nat, i: nat, j: nat)
    requires SideBySide(es, p, q, r) && Under(es, i, j)
    ensures Under(Swapped(es, p, q, r), NewIndex(p, q, r, i), NewIndex(p, q, r, j))
  {
    BlocksAreDeep(es, p, q, r);
    SwappedAt(es, p, q, r, i);
    SwappedAt(es, p, q, r, j);
    var t := Swapped(es, p, q, r);
    forall k | NewIndex(p, q, r, i) < k <= NewIndex(p, q, r, j) ensures t[k].depth > es[i].depth {
      SwappedFrom(es, p, q, r, k);
      var was := NewIndex(p, p + (r - q), r, k);
      assert i < p <= j ==> es[p].depth > es[i].depth;
    }
  }

  lemma NewIndexBack(p: int, q: int, r: int, k: int)
    requires p <= q <= r
    ensures NewIndex(p, p + (r - q), r, NewIndex(p, q, r, k)) == k
  {
  }

  lemma CameFromUnder(es: seq<Section>, p: nat, q: nat, r: nat, m: nat, i: nat, j: nat)
    requires SideBySide(es, p, q, r) && m == p + (r - q) && Under(Swapped(es, p, q, r), i, j)
    ensures Under(es, NewIndex(p, m, r, i), NewIndex(p, m, r, j))
  {
    SidesBack(es, p, q, r, m);
    PlacesBack(es, p, q, r, m);
    StaysUnder(Swapped(es, p, q, r), p, m, r, i, j);
  }

  lemma SidesBack(es: seq<Section>, p: nat, q: nat, r: nat, m: nat)
    requires SideBySide(es, p, q, r) && m == p + (r - q)
    ensures SideBySide(Swapped(es, p, q, r), p, m, r)
  {
    StillSideBySide(es, p, q, r);
  }

  lemma PlacesBack(es: seq<Section>, p: nat, q: nat, r: nat, m: nat)
    requires p <= q <= r <= |es| && m == p + (r - q)
    ensures Swapped(Swapped(es, p, q, r), p, m, r) == es
  {
    SwapBack(es, p, q, r);
  }

  /** A sibling move is a move in the tree: every section keeps exactly the ancestors it had, and so
      its parent. */
  lemma MoveKeepsAncestry(es: seq<Section>, p: nat, q: nat, r: nat, i: nat, j: nat)
    requires SideBySide(es, p, q, r) && i < |es| && j < |es|
    ensures Under(Swapped(es, p, q, r), NewIndex(p, q, r, i), NewIndex(p, q, r, j)) <==> Under(es, i, j)
  {
    if Under(es, i, j) {
      StaysUnder(es, p, q, r, i, j);
    } else if Under(Swapped(es, p, q, r), NewIndex(p, q, r, i), NewIndex(p, q, r, j)) {
      NewIndexBack(p, q, r, i);
      NewIndexBack(p, q, r, j);
      CameFromUnder(es, p, q, r, p + (r - q), NewIndex(p, q, r, i), NewIndex(p, q, r, j));
    }
  }

  lemma OneElder(es: seq<Section>, q: nat, a: int, b: int)
    requires NextTo(es, a, q) && NextTo(es, b, q)
    ensures a == b
  {
  }

  /** Moving down and then up again is the identity: the subtree has an elder sibling to move past,
      and whatever elder sibling it finds, the swap gives the outline back. */
  lemma UpUndoesDown(es: seq<Section>, p: nat, q: nat, r: nat, elder: nat, end: nat)
    requires SideBySide(es, p, q, r)
    ensures SideBySide(Swapped(es, p, q, r), p, p + (r - q), r)
    ensures SideBySide(Swapped(es, p, q, r), elder, p + (r - q), end) ==>
      Swapped(Swapped(es, p, q, r), elder, p + (r - q), end) == es
  {
    var t, m := Swapped(es, p, q, r), p + (r - q);
    StillSideBySide(es, p, q, r);
    if SideBySide(t, elder, m, end) {
      OneElder(t, m, elder, p);
      EndIsUnique(t, m, end, r);
      SwapBack(es, p, q, r);
    }
  }

  /** And so is moving up and then down again. */
  lemma DownUndoesUp(es: seq<Section>, p: nat, q: nat, r: nat, younger: nat, end: nat)
    requires SideBySide(es, p, q, r)
    ensures SideBySide(Swapped(es, p, q, r), p, younger, end) ==>
      Swapped(Swapped(es, p, q, r), p, younger, end) == es
  {
    var t, m := Swapped(es, p, q, r), p + (r - q);
    StillSideBySide(es, p, q, r);
    if SideBySide(t, p, younger, end) {
      EndIsUnique(t, p, younger, m);
      EndIsUnique(t, m, end, r);
      SwapBack(es, p, q, r);
    }
  }

  /** The deepest level the destination allows, which `moveSection` clamps the block to. */
  function Ceiling(lifted: seq<Section>, to: nat): nat
    requires to <= |lifted|
  {
    if to > 0 then lifted[to - 1].depth + 1 else 0
  }

  /** A sibling move is never clamped, up or down: no depth changes. */
  lemma SiblingMoveIsNotClamped(es: seq<Section>, p: nat, q: nat, r: nat)
    requires SideBySide(es, p, q, r) && WellFormed(es)
    ensures es[q].depth <= Ceiling(es[..q] + es[r..], p)
    ensures es[p].depth <= Ceiling(es[..p] + es[q..], r - (q - p))
  {
    BlocksAreDeep(es, p, q, r);
    assert Legal(es, p);
    assert p > 0 ==> (es[..q] + es[r..])[p - 1] == es[p - 1];
    assert (es[..p] + es[q..])[r - (q - p) - 1] == es[r - 1];
  }

  // ----- a move to any place -----

  /** How far `moveSection` lifts the block so that its head is no deeper than the ceiling. */
  function Lift(depth: nat, ceiling: nat): nat {
    if depth > ceiling then depth - ceiling else 0
  }

  function Lifted(es: seq<Section>, levels: nat): (r: seq<Section>)
    requires forall i :: 0 <= i < |es| ==> es[i].depth >= levels
    ensures |r| == |es| && forall i :: 0 <= i < |es| ==> r[i] == es[i].(depth := es[i].depth - levels)
  {
    seq(|es|, i requires 0 <= i < |es| => es[i].(depth := es[i].depth - levels))
  }

  /** The subtree `start..end` taken out, clamped and put back at `to` of the rest. */
  function Relocated(es: seq<Section>, start: nat, end: nat, to: nat): seq<Section>
    requires Ends(es, start, end) && to <= |es| - (end - start)
  {
    var rest := es[..start] + es[end..];
    rest[..to] + Lifted(es[start..end], Lift(es[start].depth, Ceiling(rest, to))) + rest[to..]
  }

  lemma RestIsWellFormed(es: seq<Section>, start: nat, end: nat)
    requires Ends(es, start, end) && WellFormed(es)
    ensures WellFormed(es[..start] + es[end..])
  {
    var rest := es[..start] + es[end..];
    forall k | 0 <= k < |rest| ensures Legal(rest, k) {
      assert Legal(es, if k < start then k else k + (end - start)) && Legal(es, start);
    }
  }

  lemma InsertedIsWellFormed(rest: seq<Section>, block: seq<Section>, to: nat)
    requires WellFormed(rest) && to <= |rest| && block != [] && block[0].depth <= Ceiling(rest, to)
    requires forall k :: 0 < k < |block| ==> Legal(block, k)
    ensures WellFormed(rest[..to] + block + rest[to..]) <==>
      (to < |rest| ==> rest[to].depth <= block[|block| - 1].depth + 1)
  {
    var t, after := rest[..to] + block + rest[to..], to + |block|;
    forall k | 0 <= k < |t| && k != after ensures Legal(t, k) {
      if k < to {
        assert Legal(rest, k);
      } else if k < after {
        assert k > to ==> Legal(block, k - to);
      } else {
        assert Legal(rest, k - |block|);
      }
    }
    assert to < |rest| ==> t[after] == rest[to] && t[after - 1] == block[|block| - 1];
    assert to < |rest| ==> (Legal(t, after) <==> rest[to].depth <= block[|block| - 1].depth + 1);
  }

  /** Exactly when a move to any place skips no heading level: the section behind the landing may be at
      most one level deeper than the last section of the moved block, clamped as it is. */
  lemma RelocationKeepsExactly(es: seq<Section>, start: nat, end: nat, to: nat)
    requires Ends(es, start, end) && WellFormed(es) && to <= |es| - (end - start)
    ensures var rest := es[..start] + es[end..];
      WellFormed(Relocated(es, start, end, to)) <==>
      (to < |rest| ==> rest[to].depth <= es[end - 1].depth - Lift(es[start].depth, Ceiling(rest, to)) + 1)
  {
    var rest := es[..start] + es[end..];
    var block := Lifted(es[start..end], Lift(es[start].depth, Ceiling(rest, to)));
    RestIsWellFormed(es, start, end);
    LiftedIsLegal(es, start, end, Lift(es[start].depth, Ceiling(rest, to)));
    InsertedIsWellFormed(rest, block, to);
  }

  lemma LiftedIsLegal(es: seq<Section>, start: nat, end: nat, levels: nat)
    requires WellFormed(es) && start < end <= |es| && forall k :: start <= k < end ==> es[k].depth >= levels
    ensures var block := Lifted(es[start..end], levels); forall k :: 0 < k < |block| ==> Legal(block, k)
  {
    var block := Lifted(es[start..end], levels);
    forall k | 0 < k < |block| ensures Legal(block, k) {
      assert Legal(es, start + k);
      assert block[k] == es[start + k].(depth := es[start + k].depth - levels);
      assert block[k - 1].depth == es[start + k - 1].depth - levels;
    }
  }

  /** Four sections at levels 0, 1, 2 and 0, the last moved between the second and the third: nothing is
      clamped, and the third is left two levels below the section now before it. */
  lemma SkippedLevelCase(a: string, b: string, c: string, d: string)
    ensures var es := [Section(a, 0, ""), Section(b, 1, ""), Section(c, 2, ""), Section(d, 0, "")];
      && WellFormed(es) && Ends(es, 3, 4)
      && Relocated(es, 3, 4, 2) == [es[0], es[1], es[3], es[2]] && !WellFormed(Relocated(es, 3, 4, 2))
  {
    var es := [Section(a, 0, ""), Section(b, 1, ""), Section(c, 2, ""), Section(d, 0, "")];
    assert es[..3] + es[4..] == [es[0], es[1], es[2]];
    assert Lifted(es[3..4], 0) == [es[3]];
    var t := Relocated(es, 3, 4, 2);
    assert t == [es[0], es[1], es[3], es[2]];
    assert !Legal(t, 3);
  }

  // ----- the commands behind a move -----

  /** One element lifted out and put back at `toIndex` of the rest. */
  datatype MoveElement = MoveElement(id: string, toIndex: nat)

  function IndexOf(ids: seq<string>, id: string): (i: nat)
    requires id in ids
    ensures i < |ids| && ids[i] == id && id !in ids[..i]
  {
    if ids[0] == id then 0 else IndexOf(ids[1..], id) + 1
  }

  function Without(ids: seq<string>, id: string): seq<string> {
    if id in ids then var i := IndexOf(ids, id); ids[..i] + ids[i + 1..] else ids
  }

  function Perform(ids: seq<string>, op: MoveElement): seq<string> {
    if op.id !in ids then ids
    else
      var rest := Without(ids, op.id);
      var at := if op.toIndex <= |rest| then op.toIndex else |rest|;
      rest[..at] + [op.id] + rest[at..]
  }

  function PerformAll(ids: seq<string>, ops: seq<MoveElement>): seq<string> {
    if ops == [] then ids else Perform(PerformAll(ids, ops[..|ops| - 1]), ops[|ops| - 1])
  }

  ghost predicate Distinct(ids: seq<string>) {
    forall i, j :: 0 <= i < j < |ids| ==> ids[i] != ids[j]
  }

  lemma IndexOfAt(ids: seq<string>, i: nat)
    requires Distinct(ids) && i < |ids|
    ensures IndexOf(ids, ids[i]) == i
  {
  }

  lemma {:induction false} DistinctCounts(ids: seq<string>, x: string)
    requires Distinct(ids)
    ensures multiset(ids)[x] <= 1
  {
    if ids != [] {
      var init, last := ids[..|ids| - 1], ids[|ids| - 1];
      DistinctCounts(init, x);
      assert ids == init + [last];
      assert last !in init;
    }
  }

  lemma CountsDistinct(ids: seq<string>)
    requires forall x :: multiset(ids)[x] <= 1
    ensures Distinct(ids)
  {
    forall i, j | 0 <= i < j < |ids| ensures ids[i] != ids[j] {
      assert ids == ids[..j] + [ids[j]] + ids[j + 1..];
      assert ids[i] in ids[..j];
      assert multiset(ids)[ids[j]] >= multiset(ids[..j])[ids[j]] + 1;
    }
  }

  lemma DistinctBelow(ids: seq<string>, others: seq<string>)
    requires Distinct(ids) && multiset(others) <= multiset(ids)
    ensures Distinct(others)
  {
    forall x ensures multiset(others)[x] <= 1 {
      DistinctCounts(ids, x);
    }
    CountsDistinct(others);
  }

  /** The id at `i` lifted out of a list of distinct ids. */
  lemma Lifting(before: seq<string>, id: string, after: seq<string>)
    requires Distinct(before + [id] + after)
    ensures id in before + [id] + after && Without(before + [id] + after, id) == before + after
    ensures Distinct(before + after)
  {
    var ids := before + [id] + after;
    assert ids[|before|] == id;
    IndexOfAt(ids, |before|);
    assert ids[..|before|] == before && ids[|before| + 1..] == after;
    DistinctBelow(ids, before + after);
  }

  lemma Landing(before: seq<string>, id: string, after: seq<string>)
    ensures (before + after)[..|before|] == before && (before + after)[|before|..] == after
  {
  }

  /** The run `sub` on its way up, past `over`: `k` of its ids have moved. */
  function GoingUp(head: seq<string>, over: seq<string>, sub: seq<string>, rest: seq<string>, k: nat): seq<string>
    requires k <= |sub|
  {
    head + sub[..k] + over + sub[k..] + rest
  }

  function GoingDown(head: seq<string>, over: seq<string>, sub: seq<string>, rest: seq<string>, k: nat): seq<string>
    requires k <= |sub|
  {
    head + sub[k..] + over + sub[..k] + rest
  }

  lemma StepUp(head: seq<string>, over: seq<string>, sub: seq<string>, rest: seq<string>, k: nat)
    requires k < |sub| && Distinct(GoingUp(head, over, sub, rest, k))
    ensures var cur := GoingUp(head, over, sub, rest, k);
      var fixed, free := head + sub[..k], over + sub[k + 1..] + rest;
      && sub[k] in cur && Without(cur, sub[k]) == fixed + free && Distinct(fixed + free)
      && fixed + [sub[k]] + free == GoingUp(head, over, sub, rest, k + 1)
      && Distinct(GoingUp(head, over, sub, rest, k + 1))
  {
    var front, after := head + sub[..k], sub[k + 1..] + rest;
    UpForms(head, over, sub, rest, k, front, after);
    LiftPast(front, over, sub[k], after);
  }

  /** The run before and after one step up, around the id that moves. */
  lemma UpForms(head: seq<string>, over: seq<string>, sub: seq<string>, rest: seq<string>, k: nat,
      front: seq<string>, after: seq<string>)
    requires k < |sub| && front == head + sub[..k] && after == sub[k + 1..] + rest
    ensures GoingUp(head, over, sub, rest, k) == front + over + [sub[k]] + after
    ensures GoingUp(head, over, sub, rest, k + 1) == front + [sub[k]] + (over + after)
    ensures over + sub[k + 1..] + rest == over + after
  {
    OneInside(sub, k);
    Regroup(front, over, [sub[k]], sub[k + 1..], rest);
    Regroup(head, sub[..k], [sub[k]], over, sub[k + 1..] + rest);
    Regroup(front, [sub[k]], over, sub[k + 1..], rest);
  }

  lemma OneInside<T>(xs: seq<T>, k: nat)
    requires k < |xs|
    ensures xs[k..] == [xs[k]] + xs[k + 1..] && xs[..k + 1] == xs[..k] + [xs[k]]
  {
  }

  lemma Regroup<T>(a: seq<T>, b: seq<T>, c: seq<T>, d: seq<T>, e: seq<T>)
    ensures a + b + (c + d) + e == a + b + c + (d + e) == a + (b + c) + d + e == a + b + (c + d + e)
    ensures c + d + e == c + (d + e)
  {
  }

  /** The id behind `over` lifted out and put back before it. */
  lemma LiftPast(fixed: seq<string>, over: seq<string>, id: string, after: seq<string>)
    requires Distinct(fixed + over + [id] + after)
    ensures var cur, next := fixed + over + [id] + after, fixed + [id] + (over + after);
      && id in cur && Without(cur, id) == fixed + (over + after) && Distinct(fixed + (over + after)) && Distinct(next)
  {
    Lifting(fixed + over, id, after);
    assert fixed + over + after == fixed + (over + after);
    DistinctBelow(fixed + over + [id] + after, fixed + [id] + (over + after));
  }

  lemma StepDown(head: seq<string>, over: seq<string>, sub: seq<string>, rest: seq<string>, k: nat)
    requires k < |sub| && Distinct(GoingDown(head, over, sub, rest, k))
    ensures var cur := GoingDown(head, over, sub, rest, k);
      var fixed := head + sub[k + 1..] + over + sub[..k];
      && sub[k] in cur && Without(cur, sub[k]) == fixed + rest && Distinct(fixed + rest)
      && fixed + [sub[k]] + rest == GoingDown(head, over, sub, rest, k + 1)
      && Distinct(GoingDown(head, over, sub, rest, k + 1))
  {
    var cur, next := GoingDown(head, over, sub, rest, k), GoingDown(head, over, sub, rest, k + 1);
    var fixed := head + sub[k + 1..] + over + sub[..k];
    assert cur == head + [sub[k]] + (sub[k + 1..] + over + sub[..k] + rest);
    Lifting(head, sub[k], sub[k + 1..] + over + sub[..k] + rest);
    assert head + (sub[k + 1..] + over + sub[..k] + rest) == fixed + rest;
    assert fixed + [sub[k]] + rest == next;
    DistinctBelow(cur, next);
  }

  /** One id lifted out and put back behind the last of `fixed`, or first of all. */
  method MoveBehind(cur: seq<string>, id: string, first: bool, behind: string, ghost fixed: seq<string>,
      ghost free: seq<string>)
    returns (op: MoveElement, next: seq<string>)
    requires id in cur && Without(cur, id) == fixed + free && Distinct(fixed + free)
    requires if first then fixed == [] else fixed != [] && fixed[|fixed| - 1] == behind
    ensures op.id == id && next == Perform(cur, op) == fixed + [id] + free
  {
    var lifted := Without(cur, id);
    if !first {
      assert lifted[|fixed| - 1] == behind;
      IndexOfAt(lifted, |fixed| - 1);
    }
    var insert := if first then 0 else IndexOf(lifted, behind) + 1;
    Landing(fixed, id, free);
    op, next := MoveElement(id, insert), lifted[..insert] + [id] + lifted[insert..];
  }

  /** Where the run has got to, when it is to stand after `at` of the `others` and came from `start`. */
  ghost function Underway(others: seq<string>, sub: seq<string>, start: nat, at: nat, k: nat): seq<string>
    requires start <= |others| && at <= |others| && k <= |sub|
  {
    if at <= start then GoingUp(others[..at], others[at..start], sub, others[start..], k)
    else GoingDown(others[..start], others[start..at], sub, others[at..], k)
  }

  /** What stands before the next id's landing, and behind it. */
  ghost function Fixed(others: seq<string>, sub: seq<string>, start: nat, at: nat, k: nat): seq<string>
    requires start <= |others| && at <= |others| && k < |sub|
  {
    if at <= start then others[..at] + sub[..k] else others[..start] + sub[k + 1..] + others[start..at] + sub[..k]
  }

  ghost function Free(others: seq<string>, sub: seq<string>, start: nat, at: nat, k: nat): seq<string>
    requires start <= |others| && at <= |others| && k < |sub|
  {
    if at <= start then others[at..start] + sub[k + 1..] + others[start..] else others[at..]
  }

  lemma UnderwayStep(others: seq<string>, sub: seq<string>, start: nat, at: nat, k: nat)
    requires start <= |others| && at <= |others| && k < |sub| && Distinct(Underway(others, sub, start, at, k))
    ensures var cur := Underway(others, sub, start, at, k);
      var fixed, free := Fixed(others, sub, start, at, k), Free(others, sub, start, at, k);
      && sub[k] in cur && Without(cur, sub[k]) == fixed + free && Distinct(fixed + free)
      && fixed + [sub[k]] + free == Underway(others, sub, start, at, k + 1)
      && Distinct(Underway(others, sub, start, at, k + 1))
  {
    if at <= start {
      StepUp(others[..at], others[at..start], sub, others[start..], k);
    } else {
      StepDown(others[..start], others[start..at], sub, others[at..], k);
    }
  }

  lemma FixedEnds(others: seq<string>, sub: seq<string>, start: nat, at: nat, k: nat)
    requires start <= |others| && at <= |others| && k < |sub|
    ensures var fixed := Fixed(others, sub, start, at, k);
      if k > 0 then fixed != [] && fixed[|fixed| - 1] == sub[k - 1]
      else if at > 0 then fixed != [] && fixed[|fixed| - 1] == others[at - 1]
      else fixed == []
  {
  }

  lemma UnderwayEnds(others: seq<string>, sub: seq<string>, start: nat, at: nat)
    requires start <= |others| && at <= |others|
    ensures Underway(others, sub, start, at, 0) == others[..start] + sub + others[start..]
    ensures Underway(others, sub, start, at, |sub|) == others[..at] + sub + others[at..]
  {
    if at <= start {
      UpEnds(others[..at], others[at..start], sub, others[start..]);
      Middle(others, at, start);
    } else {
      DownEnds(others[..start], others[start..at], sub, others[at..]);
      Middle(others, start, at);
    }
  }

  lemma UpEnds(head: seq<string>, over: seq<string>, sub: seq<string>, rest: seq<string>)
    ensures GoingUp(head, over, sub, rest, 0) == head + over + sub + rest
    ensures GoingUp(head, over, sub, rest, |sub|) == head + sub + (over + rest)
  {
  }

  lemma DownEnds(head: seq<string>, over: seq<string>, sub: seq<string>, rest: seq<string>)
    ensures GoingDown(head, over, sub, rest, 0) == head + sub + (over + rest)
    ensures GoingDown(head, over, sub, rest, |sub|) == head + over + sub + rest
  {
  }

  lemma Middle<T>(xs: seq<T>, lo: nat, hi: nat)
    requires lo <= hi <= |xs|
    ensures xs[..lo] + xs[lo..hi] == xs[..hi] && xs[lo..hi] + xs[hi..] == xs[lo..]
  {
  }

  lemma Parts(ids: seq<string>, start: nat, end: nat)
    requires start < end <= |ids|
    ensures var others := ids[..start] + ids[end..]; others[..start] + ids[start..end] + others[start..] == ids
  {
  }

  /** What the next section of the run moves behind, and what stays after it. */
  lemma NextLanding(rest: seq<string>, subtree: seq<string>, start: nat, at: nat, k: nat, first: bool, behind: string)
    returns (fixed: seq<string>, free: seq<string>)
    requires start <= |rest| && at <= |rest| && k < |subtree| && Distinct(Underway(rest, subtree, start, at, k))
    requires first <==> k == 0 && at == 0
    requires k > 0 ==> behind == subtree[k - 1]
    requires k == 0 && at > 0 ==> behind == rest[at - 1]
    ensures var cur := Underway(rest, subtree, start, at, k);
      subtree[k] in cur && Without(cur, subtree[k]) == fixed + free && Distinct(fixed + free)
    ensures if first then fixed == [] else fixed != [] && fixed[|fixed| - 1] == behind
    ensures fixed + [subtree[k]] + free == Underway(rest, subtree, start, at, k + 1)
    ensures Distinct(Underway(rest, subtree, start, at, k + 1))
  {
    UnderwayStep(rest, subtree, start, at, k);
    FixedEnds(rest, subtree, start, at, k);
    fixed, free := Fixed(rest, subtree, start, at, k), Free(rest, subtree, start, at, k);
  }

  /** The next section of the run, behind the one moved before it or where the run is to stand. */
  method MoveNext(rest: seq<string>, subtree: seq<string>, start: nat, at: nat, k: nat, cur: seq<string>)
    returns (op: MoveElement, next: seq<string>)
    requires start <= |rest| && at <= |rest| && k < |subtree|
    requires cur == Underway(rest, subtree, start, at, k) && Distinct(cur)
    ensures next == Perform(cur, op) == Underway(rest, subtree, start, at, k + 1) && Distinct(next)
  {
    var first := k == 0 && at == 0;
    var behind := if k > 0 then subtree[k - 1] else if at > 0 then rest[at - 1] else subtree[k];
    ghost var fixed, free := NextLanding(rest, subtree, start, at, k, first, behind);
    op, next := MoveBehind(cur, subtree[k], first, behind, fixed, free);
  }

  lemma PerformOneMore(ids: seq<string>, ops: seq<MoveElement>, op: MoveElement)
    ensures PerformAll(ids, ops + [op]) == Perform(PerformAll(ids, ops), op)
  {
    assert (ops + [op])[..|ops|] == ops;
  }

  /** The commands that carry a whole subtree, one section at a time, to where its head is to land:
      performed in order they are the block move. */
  method MoveSubtreeOps(ids: seq<string>, start: nat, end: nat, toIndex: nat) returns (ops: seq<MoveElement>)
    requires Distinct(ids) && start < end <= |ids|
    ensures var last := |ids| - (end - start);
      PerformAll(ids, ops) == Moved(ids, start, end, if toIndex <= last then toIndex else last)
    ensures |ops| == end - start
  {
    var rest, subtree := ids[..start] + ids[end..], ids[start..end];
    var at := if toIndex <= |rest| then toIndex else |rest|;
    var cur := ids;
    ops := [];
    Parts(ids, start, end);
    UnderwayEnds(rest, subtree, start, at);
    for k := 0 to |subtree|
      invariant cur == Underway(rest, subtree, start, at, k) && Distinct(cur)
      invariant PerformAll(ids, ops) == cur && |ops| == k
    {
      var op;
      op, cur := MoveNext(rest, subtree, start, at, k, cur);
      PerformOneMore(ids, ops, op);
      ops := ops + [op];
    }
  }

  lemma IdsOfMoved(es: seq<Section>, start: nat, end: nat, to: nat)
    requires start <= end <= |es| && to <= |es| - (end - start)
    ensures Moved(Ids(es), start, end, to) == Ids(Moved(es, start, end, to))
  {
    var a, b := Moved(Ids(es), start, end, to), Moved(es, start, end, to);
    forall k | 0 <= k < |es| ensures a[k] == b[k].id {
      var lifted := if k < to then k else k - (end - start);
      assert k < to || k >= to + (end - start) ==>
        a[k] == (Ids(es)[..start] + Ids(es)[end..])[lifted] && b[k] == (es[..start] + es[end..])[lifted];
    }
  }

  lemma IdsOfRelocated(es: seq<Section>, start: nat, end: nat, to: nat)
    requires Ends(es, start, end) && to <= |es| - (end - start)
    ensures Ids(Relocated(es, start, end, to)) == Ids(Moved(es, start, end, to))
  {
    var rest := es[..start] + es[end..];
    IdsOfThree(rest[..to], es[start..end], rest[to..]);
    IdsOfThree(rest[..to], Lifted(es[start..end], Lift(es[start].depth, Ceiling(rest, to))), rest[to..]);
    IdsOfLifted(es[start..end], Lift(es[start].depth, Ceiling(rest, to)));
  }

  lemma IdsOfThree(a: seq<Section>, b: seq<Section>, c: seq<Section>)
    ensures Ids(a + b + c) == Ids(a) + Ids(b) + Ids(c)
  {
  }

  lemma IdsOfLifted(es: seq<Section>, levels: nat)
    requires forall i :: 0 <= i < |es| ==> es[i].depth >= levels
    ensures Ids(Lifted(es, levels)) == Ids(es)
  {
  }

  /** The section `k` of the subtree at `index` lands with its block, this many levels higher. */
  ghost predicate Rises(es: seq<Section>, index: nat, end: nat, to: nat, levels: nat, k: int)
    requires Ends(es, index, end) && to <= |es| - (end - index) && index <= k < end
  {
    es[k].depth >= levels && Relocated(es, index, end, to)[to + (k - index)] == es[k].(depth := es[k].depth - levels)
  }

  /** Every section of the block rises by the same number of levels. */
  lemma BlockOfRelocated(es: seq<Section>, start: nat, end: nat, to: nat)
    requires Ends(es, start, end) && to <= |es| - (end - start)
    ensures forall k :: start <= k < end ==>
      Rises(es, start, end, to, Lift(es[start].depth, Ceiling(es[..start] + es[end..], to)), k)
  {
    var rest := es[..start] + es[end..];
    var block := Lifted(es[start..end], Lift(es[start].depth, Ceiling(rest, to)));
    forall k | start <= k < end
      ensures Rises(es, start, end, to, Lift(es[start].depth, Ceiling(rest, to)), k)
    {
      assert Relocated(es, start, end, to)[to + (k - start)] == block[k - start];
    }
  }

  /** The command itself: the element moves and how many levels the block rises, or a refusal when the
      place is past the last. */
  method MoveSection(es: seq<Section>, index: nat, toIndex: nat) returns (end: nat, r: Option<(seq<MoveElement>, nat)>)
    requires UniqueIds(es) && index < |es|
    ensures Ends(es, index, end) && (r.None? <==> toIndex > |es| - (end - index))
    ensures r.Some? ==>
      && PerformAll(Ids(es), r.value.0) == Ids(Relocated(es, index, end, toIndex))
      && r.value.1 == Lift(es[index].depth, Ceiling(es[..index] + es[end..], toIndex))
      && forall k :: index <= k < end ==> Rises(es, index, end, toIndex, r.value.1, k)
  {
    var start;
    start, end := SubtreeRange(es, index);
    if toIndex > |es| - (end - start) {
      return end, None;
    }
    IdsOfMoved(es, index, end, toIndex);
    IdsOfRelocated(es, index, end, toIndex);
    BlockOfRelocated(es, index, end, toIndex);
    var ops := MoveSubtreeOps(Ids(es), start, end, toIndex);
    var rest := es[..start] + es[end..];
    var ceiling := if toIndex > 0 then rest[toIndex - 1].depth + 1 else 0;
    var shift := if ceiling < es[index].depth then ceiling - es[index].depth else 0;
    return end, Some((ops, -shift));
  }

  /** A press of the move button, from the studio's target to the commands' effect: the section's
      block changes places with its sibling's, or there is no sibling and nothing is sent. */
  method MoveSibling(es: seq<Section>, index: nat, direction: Direction) returns (ops: seq<MoveElement>)
    requires UniqueIds(es) && index < |es|
    ensures ops == [] ==>
      (direction.Up? ==> !exists p :: NextTo(es, p, index)) && (direction.Down? ==> !exists q :: NextTo(es, index, q))
    ensures ops != [] && direction.Up? ==> exists p, end ::
      SideBySide(es, p, index, end) && PerformAll(Ids(es), ops) == Ids(Swapped(es, p, index, end))
    ensures ops != [] && direction.Down? ==> exists end, nextEnd ::
      SideBySide(es, index, end, nextEnd) && PerformAll(Ids(es), ops) == Ids(Swapped(es, index, end, nextEnd))
  {
    var to := SiblingMoveTarget(es, index, direction);
    if to.None? {
      return [];
    }
    var start, end := SubtreeRange(es, index);
    ghost var e :|
      var nextEnd := to.value + (e - index);
      if direction.Up? then
        SideBySide(es, to.value, index, e) && Moved(es, index, e, to.value) == Swapped(es, to.value, index, e)
      else SideBySide(es, index, e, nextEnd) && Moved(es, index, e, to.value) == Swapped(es, index, e, nextEnd);
    EndIsUnique(es, index, e, end);
    IdsOfMoved(es, index, end, to.value);
    ops := MoveSubtreeOps(Ids(es), index, end, to.value);
  }
}
