/** Where every line of a recipe file ends up. */
module RecipeLines {
  import opened Options
  import opened Recipe

  // ----- every line in exactly one place -----

  /** How often `x` stands among the lines. */
  function Times(lines: seq<Line>, x: Line): nat {
    if lines == [] then 0 else Times(lines[..|lines| - 1], x) + if lines[|lines| - 1] == x then 1 else 0
  }

  lemma {:induction false} TimesIsMultiplicity(lines: seq<Line>, x: Line)
    ensures Times(lines, x) == multiset(lines)[x]
  {
    if lines != [] {
      TimesIsMultiplicity(lines[..|lines| - 1], x);
      assert lines == lines[..|lines| - 1] + [lines[|lines| - 1]];
    }
  }

  function TimesOne(line: Option<Line>, x: Line): nat {
    if line == Some(x) then 1 else 0
  }

  function TimesInBlocks(blocks: seq<Block>, x: Line): nat {
    if blocks == [] then 0
    else
      var last := blocks[|blocks| - 1];
      TimesInBlocks(blocks[..|blocks| - 1], x) + TimesOne(last.group, x) + Times(last.lines, x)
  }

  function TimesInDrafts(drafts: seq<Draft>, x: Line): nat {
    if drafts == [] then 0
    else
      var last := drafts[|drafts| - 1];
      TimesInDrafts(drafts[..|drafts| - 1], x) + TimesOne(last.heading, x) + Times(last.lines, x)
  }

  /** How often `x` stands in what was read: as a block's label or one of its lines, as a note's
      heading or one of its lines, among the file references, as the url or the yield, as a label
      thrown out or the one still pending. */
  function Placed(p: Parse, x: Line): nat {
    TimesInBlocks(p.ingredients, x) + TimesInBlocks(p.steps, x) + TimesInDrafts(p.drafts, x)
    + Times(p.embeds, x) + Times(p.extraUrls, x) + Times(p.discarded, x)
    + TimesOne(p.url, x) + TimesOne(p.sourceYield, x) + TimesOne(p.pendingLabel, x)
  }

  lemma TimesSnoc(lines: seq<Line>, line: Line, x: Line)
    ensures Times(lines + [line], x) == Times(lines, x) + if line == x then 1 else 0
  {
    assert (lines + [line])[..|lines|] == lines;
  }

  lemma {:induction false} TimesConcat(a: seq<Line>, b: seq<Line>, x: Line)
    ensures Times(a + b, x) == Times(a, x) + Times(b, x)
  {
    if b == [] {
      assert a + b == a;
    } else {
      TimesConcat(a, b[..|b| - 1], x);
      assert (a + b)[..|a + b| - 1] == a + b[..|b| - 1];
    }
  }

  lemma BlocksSnoc(blocks: seq<Block>, b: Block, x: Line)
    ensures TimesInBlocks(blocks + [b], x) == TimesInBlocks(blocks, x) + TimesOne(b.group, x) + Times(b.lines, x)
  {
    assert (blocks + [b])[..|blocks|] == blocks;
  }

  lemma DraftsSnoc(drafts: seq<Draft>, d: Draft, x: Line)
    ensures TimesInDrafts(drafts + [d], x) == TimesInDrafts(drafts, x) + TimesOne(d.heading, x) + Times(d.lines, x)
  {
    assert (drafts + [d])[..|drafts|] == drafts;
  }

  lemma SingleCounts(drafts: seq<Draft>, line: Line, x: Line)
    ensures TimesInDrafts(drafts + [Draft(None, [line])], x) == TimesInDrafts(drafts, x) + if line == x then 1 else 0
  {
    DraftsSnoc(drafts, Draft(None, [line]), x);
    TimesSnoc([], line, x);
    assert [] + [line] == [line];
  }

  lemma {:induction false} DraftsOfSingles(drafts: seq<Draft>, lines: seq<Line>, x: Line)
    ensures TimesInDrafts(drafts + Singles(lines), x) == TimesInDrafts(drafts, x) + Times(lines, x)
  {
    if lines == [] {
      assert drafts + Singles(lines) == drafts;
    } else {
      var init, last := lines[..|lines| - 1], lines[|lines| - 1];
      DraftsOfSingles(drafts, init, x);
      assert Singles(lines) == Singles(init) + [Draft(None, [last])];
      SingleCounts(drafts + Singles(init), last, x);
      assert drafts + Singles(lines) == drafts + Singles(init) + [Draft(None, [last])];
    }
  }

  lemma TakenPlaces(p: Parse, line: Line, x: Line)
    ensures Taken(p, line).Some? ==> Placed(Taken(p, line).value, x) == Placed(p, x) + if line == x then 1 else 0
  {
    if line.marks.embed {
      TimesSnoc(p.embeds, line, x);
    } else if line.marks.link {
      if p.url.Some? {
        TimesSnoc(p.extraUrls, line, x);
      }
    }
  }

  lemma {:induction false} SiftedPlaces(p: Parse, lines: seq<Line>, x: Line)
    ensures Placed(Sifted(p, lines).0, x) + Times(Sifted(p, lines).1, x) == Placed(p, x) + Times(lines, x)
  {
    if lines != [] {
      var init, last := lines[..|lines| - 1], lines[|lines| - 1];
      SiftedPlaces(p, init, x);
      TakenPlaces(Sifted(p, init).0, last, x);
      TimesSnoc(Sifted(p, init).1, last, x);
      TimesSnoc(init, last, x);
      assert lines == init + [last];
    }
  }

  lemma NotedPlaces(p: Parse, line: Line, x: Line)
    ensures Placed(Noted(p, line), x) == Placed(p, x) + if line == x then 1 else 0
  {
    if line.marks.heading.Some? {
      DraftsSnoc(p.drafts, Draft(Some(line), []), x);
    } else if !p.noteOpen || p.drafts == [] {
      DraftsSnoc(p.drafts, Draft(None, [line]), x);
    } else {
      var init, last := p.drafts[..|p.drafts| - 1], p.drafts[|p.drafts| - 1];
      DraftsSnoc(init, last.(lines := last.lines + [line]), x);
      TimesSnoc(last.lines, line, x);
    }
  }

  lemma {:induction false} NotedAllPlaces(p: Parse, lines: seq<Line>, x: Line)
    ensures Placed(NotedAll(p, lines), x) == Placed(p, x) + Times(lines, x)
  {
    if lines != [] {
      var init, last := lines[..|lines| - 1], lines[|lines| - 1];
      NotedAllPlaces(p, init, x);
      NotedPlaces(NotedAll(p, init), last, x);
      TimesSnoc(init, last, x);
      assert lines == init + [last];
    }
  }

  lemma BodiedPlaces(p: Parse, rest: seq<Line>, x: Line)
    ensures Placed(Bodied(p, rest), x) == Placed(p, x) + Times(rest, x)
  {
    if MostlyIngredients(rest) || (p.ingredients != [] && p.steps == [] && AllBare(rest)) {
      BlocksSnoc(p.ingredients, Block(p.pendingLabel, rest), x);
    } else if p.ingredients == [] {
      if AllOrdered(rest) {
        DraftsOfSingles(p.drafts, rest, x);
      } else {
        DraftsSnoc(p.drafts, Draft(None, rest), x);
      }
    } else {
      BlocksSnoc(p.steps, Block(p.pendingLabel, rest), x);
    }
  }

  lemma LabelledPlaces(p: Parse, line: Line, x: Line)
    ensures Placed(Labelled(p, line), x) == Placed(p, x) + if line == x then 1 else 0
  {
    if p.pendingLabel.Some? {
      TimesSnoc(p.discarded, p.pendingLabel.value, x);
    } else {
      assert p.discarded + [] == p.discarded;
    }
  }

  lemma TimesHead(lines: seq<Line>, x: Line)
    requires lines != []
    ensures Times(lines, x) == (if lines[0] == x then 1 else 0) + Times(lines[1..], x)
  {
    assert lines == [lines[0]] + lines[1..];
    TimesConcat([lines[0]], lines[1..], x);
    TimesSnoc([], lines[0], x);
    assert [] + [lines[0]] == [lines[0]];
  }

  lemma MethodPlaces(p: Parse, rest: seq<Line>, x: Line)
    requires rest != []
    ensures Placed(Method(p, rest), x) == Placed(p, x) + Times(rest, x)
  {
    if !rest[0].marks.introduces {
      BodiedPlaces(p, rest, x);
    } else {
      LabelledPlaces(p, rest[0], x);
      TimesHead(rest, x);
      if |rest| > 1 {
        BodiedPlaces(Labelled(p, rest[0]), rest[1..], x);
      }
    }
  }

  lemma NotesStartPlaces(q: Parse, rest: seq<Line>, at: nat, x: Line)
    requires at <= |rest|
    ensures Placed(NotedAll(q.(drafts := q.drafts + Singles(rest[..at]), notesMode := true), rest[at..]), x) ==
      Placed(q, x) + Times(rest, x)
  {
    DraftsOfSingles(q.drafts, rest[..at], x);
    NotedAllPlaces(q.(drafts := q.drafts + Singles(rest[..at]), notesMode := true), rest[at..], x);
    TimesConcat(rest[..at], rest[at..], x);
    assert rest == rest[..at] + rest[at..];
  }

  lemma ReadBlockPlaces(p: Parse, block: seq<Line>, x: Line)
    ensures Placed(ReadBlock(p, block), x) == Placed(p, x) + Times(block, x)
  {
    if p.notesMode {
      NotedAllPlaces(p, block, x);
    } else {
      var (q, rest) := Sifted(p, block);
      SiftedPlaces(p, block, x);
      if rest != [] {
        if FirstHeading(rest) == |rest| {
          MethodPlaces(q, rest, x);
        } else {
          NotesStartPlaces(q, rest, FirstHeading(rest), x);
        }
      }
    }
  }

  /** Line conservation: every line of the blocks stands in exactly one place, as often as it stands
      in the file, and nothing stands anywhere that is not in the file. */
  lemma {:induction false} EveryLineOnce(blocks: seq<seq<Line>>, x: Line)
    ensures Placed(ReadBlocks(blocks), x) == Times(Flat(blocks), x)
  {
    if blocks != [] {
      var init, last := blocks[..|blocks| - 1], blocks[|blocks| - 1];
      EveryLineOnce(init, x);
      ReadBlockPlaces(ReadBlocks(init), last, x);
      TimesConcat(Flat(init), last, x);
    }
  }

  /** And so of the whole file, separators aside. */
  lemma FileLineConservation(lines: seq<Line>, x: Line)
    ensures Placed(ReadBlocks(Blocks(lines)), x) == multiset(Kept(lines))[x]
  {
    EveryLineOnce(Blocks(lines), x);
    BlocksKeepLines(lines);
    TimesIsMultiplicity(Kept(lines), x);
  }

  // ----- every line in the right place -----

  predicate IsIngredientBlock(b: Block) {
    b.lines != [] && (MostlyIngredients(b.lines) || AllBare(b.lines))
  }

  predicate IsStepBlock(b: Block) {
    b.lines != [] && !MostlyIngredients(b.lines)
  }

  predicate IsLabel(line: Option<Line>) {
    line.Some? ==> line.value.marks.introduces
  }

  ghost predicate AllIngredients(blocks: seq<Block>) {
    forall i :: 0 <= i < |blocks| ==> IsIngredientBlock(blocks[i]) && IsLabel(blocks[i].group)
  }

  ghost predicate AllSteps(blocks: seq<Block>) {
    forall i :: 0 <= i < |blocks| ==> IsStepBlock(blocks[i]) && IsLabel(blocks[i].group)
  }

  ghost predicate AllNotes(drafts: seq<Draft>) {
    forall i :: 0 <= i < |drafts| && drafts[i].heading.Some? ==> drafts[i].heading.value.marks.heading.Some?
  }

  ghost predicate AllEmbeds(lines: seq<Line>) {
    forall i :: 0 <= i < |lines| ==> lines[i].marks.embed
  }

  ghost predicate AllLinks(lines: seq<Line>) {
    forall i :: 0 <= i < |lines| ==> lines[i].marks.link
  }

  ghost predicate AllLabels(lines: seq<Line>) {
    forall i :: 0 <= i < |lines| ==> lines[i].marks.introduces
  }

  /** What stands where belongs there: links, embeds and yields each in their places, labels only as
      groups, pending or thrown out, note headings only on notes, and no method without ingredients. */
  ghost predicate Fits(p: Parse) {
    && AllEmbeds(p.embeds) && AllLinks(p.extraUrls) && AllLabels(p.discarded) && IsLabel(p.pendingLabel)
    && (p.url.Some? ==> p.url.value.marks.link) && (p.extraUrls != [] ==> p.url.Some?)
    && (p.sourceYield.Some? ==> p.sourceYield.value.marks.serving)
    && AllIngredients(p.ingredients) && AllSteps(p.steps) && (p.steps != [] ==> p.ingredients != [])
    && AllNotes(p.drafts) && (p.noteOpen ==> p.notesMode && p.drafts != [])
  }

  lemma TakenFits(p: Parse, line: Line)
    requires Fits(p) && Taken(p, line).Some?
    ensures Fits(Taken(p, line).value)
  {
  }

  lemma {:induction false} SiftedFits(p: Parse, lines: seq<Line>)
    requires Fits(p)
    ensures Fits(Sifted(p, lines).0) && Sifted(p, lines).0.notesMode == p.notesMode
  {
    if lines != [] {
      SiftedFits(p, lines[..|lines| - 1]);
      var (q, last) := (Sifted(p, lines[..|lines| - 1]).0, lines[|lines| - 1]);
      if Taken(q, last).Some? {
        TakenFits(q, last);
      }
    }
  }

  /** The notes take no more than notes: a recipe does not go back to its method. */
  lemma {:induction false} NotesAreFinal(p: Parse, lines: seq<Line>)
    requires Fits(p) && p.notesMode
    ensures var q := NotedAll(p, lines); Fits(q) && q == p.(drafts := q.drafts, noteOpen := q.noteOpen)
    ensures |NotedAll(p, lines).drafts| >= |p.drafts|
  {
    if lines != [] {
      NotesAreFinal(p, lines[..|lines| - 1]);
      NotedFits(NotedAll(p, lines[..|lines| - 1]), lines[|lines| - 1]);
    }
  }

  lemma NotedFits(p: Parse, line: Line)
    requires Fits(p) && p.notesMode
    ensures var q := Noted(p, line);
      Fits(q) && q == p.(drafts := q.drafts, noteOpen := q.noteOpen) && |q.drafts| >= |p.drafts|
  {
  }

  lemma BlockFits(ingredients: seq<Block>, b: Block)
    requires IsLabel(b.group)
    ensures AllIngredients(ingredients) && IsIngredientBlock(b) ==> AllIngredients(ingredients + [b])
    ensures AllSteps(ingredients) && IsStepBlock(b) ==> AllSteps(ingredients + [b])
  {
  }

  lemma BodiedFits(p: Parse, rest: seq<Line>)
    requires Fits(p) && rest != []
    ensures Fits(Bodied(p, rest))
  {
    if MostlyIngredients(rest) || (p.ingredients != [] && p.steps == [] && AllBare(rest)) {
      BlockFits(p.ingredients, Block(p.pendingLabel, rest));
    } else if p.ingredients == [] {
      assert AllNotes(p.drafts + Singles(rest)) && AllNotes(p.drafts + [Draft(None, rest)]);
    } else {
      BlockFits(p.steps, Block(p.pendingLabel, rest));
    }
  }

  lemma MethodFits(p: Parse, rest: seq<Line>)
    requires Fits(p) && rest != []
    ensures Fits(Method(p, rest))
  {
    if !rest[0].marks.introduces {
      BodiedFits(p, rest);
    } else if |rest| > 1 {
      BodiedFits(Labelled(p, rest[0]), rest[1..]);
    }
  }

  lemma ReadBlockFits(p: Parse, block: seq<Line>)
    requires Fits(p)
    ensures Fits(ReadBlock(p, block))
    ensures p.notesMode ==> var q := ReadBlock(p, block); q == p.(drafts := q.drafts, noteOpen := q.noteOpen)
  {
    if p.notesMode {
      NotesAreFinal(p, block);
    } else {
      var (q, rest) := Sifted(p, block);
      SiftedFits(p, block);
      if rest != [] {
        var at := FirstHeading(rest);
        if at == |rest| {
          MethodFits(q, rest);
        } else {
          NotesAreFinal(q.(drafts := q.drafts + Singles(rest[..at]), notesMode := true), rest[at..]);
        }
      }
    }
  }

  /** Whatever the file, everything read from it stands where it belongs. */
  lemma {:induction false} EverythingFits(blocks: seq<seq<Line>>)
    ensures Fits(ReadBlocks(blocks))
  {
    if blocks != [] {
      EverythingFits(blocks[..|blocks| - 1]);
      ReadBlockFits(ReadBlocks(blocks[..|blocks| - 1]), blocks[|blocks| - 1]);
    }
  }

  /** In the notes a line is never without a note to go to: the unnamed note the reader would fall
      back on is never opened. */
  lemma {:induction false} NoUnnamedNote(p: Parse, lines: seq<Line>)
    requires lines != [] && lines[0].marks.heading.Some?
    ensures NotedAll(p, lines).noteOpen
    ensures forall i :: |p.drafts| <= i < |NotedAll(p, lines).drafts| ==> NotedAll(p, lines).drafts[i].heading.Some?
    ensures |NotedAll(p, lines).drafts| > |p.drafts|
  {
    var init := lines[..|lines| - 1];
    if init == [] {
      assert NotedAll(p, init) == p;
    } else {
      NoUnnamedNote(p, init);
    }
  }

  // ----- steps -----

  /** One step a line when every line is a finished sentence, and one for the whole block otherwise. */
  method StepBodies(block: seq<Line>) returns (bodies: seq<seq<Line>>)
    requires block != []
    ensures Flat(bodies) == block && forall i :: 0 <= i < |bodies| ==> bodies[i] != []
    ensures (forall i :: 0 <= i < |block| ==> block[i].marks.finished) ==>
      forall i :: 0 <= i < |bodies| ==> |bodies[i]| == 1
    ensures (exists i :: 0 <= i < |block| && !block[i].marks.finished) ==> bodies == [block]
  {
    var unfinished := 0;
    while unfinished < |block| && block[unfinished].marks.finished
      invariant 0 <= unfinished <= |block|
      invariant forall i :: 0 <= i < unfinished ==> block[i].marks.finished
    {
      unfinished := unfinished + 1;
    }
    if |block| == 1 || unfinished < |block| {
      FlatSnoc([], block);
      assert [] + [block] == [block] && [] + block == block;
      return [block];
    }
    bodies := [];
    for i := 0 to |block|
      invariant Flat(bodies) == block[..i] && |bodies| == i
      invariant forall k :: 0 <= k < i ==> |bodies[k]| == 1
    {
      FlatSnoc(bodies, [block[i]]);
      bodies := bodies + [[block[i]]];
    }
  }
}
