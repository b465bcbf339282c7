/** Which lines of a recipe file reach the page, which only the report, and which neither.
    (scripts/import-recipes.ts:436-687) */
module LostLines {
  import opened Options
  import opened Recipe
  import opened RecipeLines
  import opened NoteOrder

  // ----- what reaches the page -----

  /** Notes without a title or a body: their headings are named in the report when they are read, and
      dropped from the page. */
  function Blanks(drafts: seq<Draft>): seq<Draft> {
    if drafts == [] then []
    else if Blank(drafts[|drafts| - 1]) then Blanks(drafts[..|drafts| - 1]) + [drafts[|drafts| - 1]]
    else Blanks(drafts[..|drafts| - 1])
  }

  /** How often `x` stands on the page: in a block or as its group, as the url or the yield, in a note that
      is kept, or among the attached files. */
  function OnPage(p: Parse, x: Line): nat {
    TimesInBlocks(p.ingredients, x) + TimesInBlocks(p.steps, x) + TimesOne(p.url, x) + TimesOne(p.sourceYield, x)
    + TimesInDrafts(NonBlank(Ordered(p.drafts)), x) + Times(p.embeds + p.extraUrls, x)
  }

  /** How often `x` stands in the report alone: a label thrown out by the next, or a blank note's heading. */
  function OnlyReported(p: Parse, x: Line): nat {
    Times(p.discarded, x) + TimesInDrafts(Blanks(Ordered(p.drafts)), x)
  }

  lemma {:induction false} KeptOrBlank(drafts: seq<Draft>, x: Line)
    ensures TimesInDrafts(NonBlank(drafts), x) + TimesInDrafts(Blanks(drafts), x) == TimesInDrafts(drafts, x)
  {
    if drafts != [] {
      var init, last := drafts[..|drafts| - 1], drafts[|drafts| - 1];
      KeptOrBlank(init, x);
      DraftsSnoc(NonBlank(init), last, x);
      DraftsSnoc(Blanks(init), last, x);
    }
  }

  lemma {:induction false} DraftsConcat(a: seq<Draft>, b: seq<Draft>, x: Line)
    ensures TimesInDrafts(a + b, x) == TimesInDrafts(a, x) + TimesInDrafts(b, x)
  {
    if b == [] {
      assert a + b == a;
    } else {
      var init, last := b[..|b| - 1], b[|b| - 1];
      DraftsConcat(a, init, x);
      DraftsConcatSnoc(a, init, last, x);
      assert init + [last] == b;
    }
  }

  lemma DraftsConcatSnoc(a: seq<Draft>, init: seq<Draft>, last: Draft, x: Line)
    requires TimesInDrafts(a + init, x) == TimesInDrafts(a, x) + TimesInDrafts(init, x)
    ensures TimesInDrafts(a + (init + [last]), x) == TimesInDrafts(a, x) + TimesInDrafts(init + [last], x)
  {
    DraftsSnoc(a + init, last, x);
    DraftsSnoc(init, last, x);
    assert a + (init + [last]) == a + init + [last];
  }

  /** The order of the notes does not matter. */
  lemma {:induction false} SameDraftsSameTimes(a: seq<Draft>, b: seq<Draft>, x: Line)
    requires multiset(a) == multiset(b)
    ensures TimesInDrafts(a, x) == TimesInDrafts(b, x)
  {
    if a == [] {
      assert |multiset(b)| == 0;
    } else {
      var init, last := a[..|a| - 1], a[|a| - 1];
      assert a == init + [last];
      assert last in multiset(b);
      var k :| 0 <= k < |b| && b[k] == last;
      TakenOut(a, b, k);
      SameDraftsSameTimes(init, b[..k] + b[k + 1..], x);
      DraftsConcat(b[..k], b[k + 1..], x);
      OutOfTheMiddle(b, k, x);
    }
  }

  lemma TakenOut(a: seq<Draft>, b: seq<Draft>, k: nat)
    requires a != [] && k < |b| && b[k] == a[|a| - 1] && multiset(a) == multiset(b)
    ensures multiset(a[..|a| - 1]) == multiset(b[..k] + b[k + 1..])
  {
    assert a == a[..|a| - 1] + [a[|a| - 1]];
    assert b == b[..k] + [b[k]] + b[k + 1..];
    assert multiset(a) == multiset(a[..|a| - 1]) + multiset{b[k]};
    assert multiset(b) == multiset(b[..k] + b[k + 1..]) + multiset{b[k]};
    OneLess(multiset(a[..|a| - 1]), multiset(b[..k] + b[k + 1..]), b[k]);
  }

  lemma OneLess<T(!new)>(a: multiset<T>, b: multiset<T>, x: T)
    requires a + multiset{x} == b + multiset{x}
    ensures a == b
  {
    forall y ensures a[y] == b[y] {
      assert (a + multiset{x})[y] == (b + multiset{x})[y];
    }
  }

  lemma OutOfTheMiddle(b: seq<Draft>, k: nat, x: Line)
    requires k < |b|
    ensures TimesInDrafts(b, x) ==
      TimesInDrafts(b[..k], x) + TimesInDrafts(b[k + 1..], x) + TimesOne(b[k].heading, x) + Times(b[k].lines, x)
  {
    var head := b[..k] + [b[k]];
    assert b == head + b[k + 1..];
    DraftsConcat(head, b[k + 1..], x);
    DraftsSnoc(b[..k], b[k], x);
  }

  /** Every kept line is on the page, or in the report alone, or it is the label still pending at the end,
      as often as it stands in the file. */
  lemma EveryLineAccounted(lines: seq<Line>, x: Line)
    ensures var p := ReadBlocks(Blocks(lines));
      OnPage(p, x) + OnlyReported(p, x) + TimesOne(p.pendingLabel, x) == multiset(Kept(lines))[x]
  {
    var p := ReadBlocks(Blocks(lines));
    FileLineConservation(lines, x);
    NotesInOrder(p.drafts, 0);
    SameDraftsSameTimes(Ordered(p.drafts), p.drafts, x);
    KeptOrBlank(Ordered(p.drafts), x);
    TimesConcat(p.embeds, p.extraUrls, x);
  }

  // ----- the label that stays pending -----

  /** Prose where no ingredient has been seen: a note, which takes no label. */
  predicate EarlyProse(p: Parse, body: seq<Line>) {
    p.ingredients == [] && !MostlyIngredients(body)
  }

  /** The block leaves the pending label alone: it is in the notes or begins them, nothing is left of it but
      metadata, or it is unlabelled prose where no ingredient has been seen. */
  predicate PassesBy(p: Parse, block: seq<Line>) {
    || p.notesMode
    || var (q, rest) := Sifted(p, block);
       || rest == [] || FirstHeading(rest) < |rest|
       || (!rest[0].marks.introduces && EarlyProse(q, rest))
  }

  /** The block begins with the label `x` and has nothing that takes it. */
  predicate LeavesPending(p: Parse, block: seq<Line>, x: Line) {
    && !p.notesMode
    && var (q, rest) := Sifted(p, block);
       && rest != [] && FirstHeading(rest) == |rest| && rest[0] == x && x.marks.introduces
       && (|rest| == 1 || EarlyProse(q, rest[1..]))
  }

  lemma {:induction false} SiftKeepsLabel(p: Parse, lines: seq<Line>)
    ensures Sifted(p, lines).0.pendingLabel == p.pendingLabel && Sifted(p, lines).0.ingredients == p.ingredients
    ensures Sifted(p, lines).0.steps == p.steps
  {
    if lines != [] {
      SiftKeepsLabel(p, lines[..|lines| - 1]);
    }
  }

  lemma {:induction false} NotesKeepLabel(p: Parse, lines: seq<Line>)
    ensures NotedAll(p, lines).pendingLabel == p.pendingLabel
  {
    if lines != [] {
      NotesKeepLabel(p, lines[..|lines| - 1]);
    }
  }

  lemma BodiedLabel(p: Parse, rest: seq<Line>)
    ensures Bodied(p, rest).pendingLabel == if EarlyProse(p, rest) then p.pendingLabel else None
  {
  }

  lemma PendingStep(p: Parse, block: seq<Line>, x: Line)
    ensures ReadBlock(p, block).pendingLabel == Some(x) <==>
      LeavesPending(p, block, x) || (PassesBy(p, block) && p.pendingLabel == Some(x))
  {
    if p.notesMode {
      NotesKeepLabel(p, block);
    } else {
      var (q, rest) := Sifted(p, block);
      SiftKeepsLabel(p, block);
      if rest != [] {
        var at := FirstHeading(rest);
        if at < |rest| {
          NotesKeepLabel(q.(drafts := q.drafts + Singles(rest[..at]), notesMode := true), rest[at..]);
        } else {
          MethodLabel(q, rest, x);
        }
      }
    }
  }

  lemma MethodLabel(q: Parse, rest: seq<Line>, x: Line)
    requires rest != []
    ensures Method(q, rest).pendingLabel == Some(x) <==>
      if rest[0].marks.introduces then rest[0] == x && (|rest| == 1 || EarlyProse(q, rest[1..]))
      else EarlyProse(q, rest) && q.pendingLabel == Some(x)
  {
    BodiedLabel(q, rest);
    if rest[0].marks.introduces && |rest| > 1 {
      BodiedLabel(Labelled(q, rest[0]), rest[1..]);
    }
  }

  /** Block `i` leaves the label `x` pending and every later block passes it by. */
  ghost predicate LeftAt(blocks: seq<seq<Line>>, i: int, x: Line) {
    && 0 <= i < |blocks| && LeavesPending(ReadBlocks(blocks[..i]), blocks[i], x)
    && forall j :: i < j < |blocks| ==> PassesBy(ReadBlocks(blocks[..j]), blocks[j])
  }

  lemma {:induction false} PendingExactly(blocks: seq<seq<Line>>, x: Line)
    ensures ReadBlocks(blocks).pendingLabel == Some(x) <==> exists i :: LeftAt(blocks, i, x)
  {
    if blocks != [] {
      var init, last := blocks[..|blocks| - 1], blocks[|blocks| - 1];
      PendingExactly(init, x);
      PendingSnoc(init, last, x);
      assert init + [last] == blocks;
    }
  }

  lemma PendingSnoc(init: seq<seq<Line>>, last: seq<Line>, x: Line)
    requires ReadBlocks(init).pendingLabel == Some(x) <==> exists i :: LeftAt(init, i, x)
    ensures ReadBlocks(init + [last]).pendingLabel == Some(x) <==> exists i :: LeftAt(init + [last], i, x)
  {
    PrefixesSame(init, last);
    PendingStep(ReadBlocks(init), last, x);
    if LeavesPending(ReadBlocks(init), last, x) {
      LeftAtSnoc(init, last, |init|, x);
    } else if PassesBy(ReadBlocks(init), last) {
      if i :| LeftAt(init, i, x) {
        LeftAtSnoc(init, last, i, x);
      }
    }
    if i :| LeftAt(init + [last], i, x) {
      LeftAtSnoc(init, last, i, x);
    }
  }

  lemma LeftAtSnoc(init: seq<seq<Line>>, last: seq<Line>, i: int, x: Line)
    ensures LeftAt(init + [last], i, x) <==>
      || (LeftAt(init, i, x) && PassesBy(ReadBlocks(init), last))
      || (i == |init| && LeavesPending(ReadBlocks(init), last, x))
  {
    PrefixesSame(init, last);
    if 0 <= i < |init| && LeftAt(init + [last], i, x) {
      assert PassesBy(ReadBlocks((init + [last])[..|init|]), (init + [last])[|init|]);
    }
  }

  lemma PrefixesSame<T>(init: seq<T>, last: T)
    ensures forall j :: 0 <= j < |init| ==> (init + [last])[..j] == init[..j] && (init + [last])[j] == init[j]
    ensures (init + [last])[..|init|] == init && (init + [last])[|init|] == last
  {
  }

  /** Exactly when a line is lost: a kept line, standing once in the file, reaches neither the page nor the
      report if and only if it is a label whose block takes no label and which every later block passes by. */
  lemma LostExactly(lines: seq<Line>, x: Line)
    requires multiset(Kept(lines))[x] == 1
    ensures var p := ReadBlocks(Blocks(lines));
      OnPage(p, x) + OnlyReported(p, x) == 0 <==> exists i :: LeftAt(Blocks(lines), i, x)
  {
    EveryLineAccounted(lines, x);
    PendingExactly(Blocks(lines), x);
  }

  lemma OneBlock(x: Line, lines: seq<Line>, none: seq<Line>)
    requires none == [] && lines == none + [x] && !x.marks.separator
    ensures Kept(lines) == lines && Blocks(lines) == [lines]
  {
    assert lines[..|lines| - 1] == none && lines[|lines| - 1] == x;
    assert Kept(none) == none && Blocked(none) == Cutting([], none);
    assert Blocked(lines) == Cutting([], none + [x]);
  }

  lemma SiftedAlone(p: Parse, x: Line, lines: seq<Line>, none: seq<Line>)
    requires none == [] && lines == none + [x] && Taken(p, x) == None
    ensures Sifted(p, lines) == (p, lines)
  {
    assert Sifted(p, none) == (p, none);
    assert lines[..|lines| - 1] == none && lines[|lines| - 1] == x;
  }

  lemma HeadingAlone(x: Line, lines: seq<Line>, none: seq<Line>)
    requires none == [] && lines == [x] && x.marks.heading.None?
    ensures FirstHeading(lines) == |lines|
  {
    assert lines[1..] == none && FirstHeading(none) == 0;
  }

  lemma LabelAlone(x: Line, p: Parse, lines: seq<Line>)
    requires |lines| == 1 && lines[0] == x && x.marks.introduces && !p.notesMode
    requires Sifted(p, lines) == (p, lines) && FirstHeading(lines) == |lines|
    ensures LeavesPending(p, lines, x)
  {
  }

  lemma LeftAlone(x: Line, p: Parse, lines: seq<Line>, none: seq<Line>)
    requires none == [] && lines == none + [x] && x.marks.introduces && x.marks.heading.None? && !p.notesMode
    requires Taken(p, x) == None
    ensures LeavesPending(p, lines, x)
  {
    SiftedAlone(p, x, lines, none);
    HeadingAlone(x, lines, none);
    LabelAlone(x, p, lines);
  }

  lemma OnlyBlockLeaves(blocks: seq<seq<Line>>, block: seq<Line>, x: Line)
    requires blocks == [block] && LeavesPending(NOTHING, block, x)
    ensures LeftAt(blocks, 0, x)
  {
    assert ReadBlocks(blocks[..0]) == NOTHING;
  }

  /** The failing case: a file that is a label with nothing behind it. */
  lemma TrailingLabelCase(x: Line, lines: seq<Line>)
    requires x.marks.introduces && x.marks.heading.None? && !x.marks.separator && Taken(NOTHING, x) == None
    requires lines == [x]
    ensures var p := ReadBlocks(Blocks(lines)); OnPage(p, x) + OnlyReported(p, x) == 0
  {
    LeftAlone(x, NOTHING, lines, lines[..0]);
    OneBlock(x, lines, lines[..0]);
    OnlyBlockLeaves(Blocks(lines), lines, x);
    LostExactly(lines, x);
  }
}
