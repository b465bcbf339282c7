/** A recipe file read block by block. (scripts/import-recipes.ts:208-222, 436-626) */
module Recipe {
  import opened Options

  /** What the line patterns make of a note heading: the rank of its date, if it has a full one,
      whether its title is blank, and whether it carries its body inline. */
  datatype Heading = Heading(iso: Option<nat>, blankTitle: bool, inline: bool)

  /** What each of the line patterns makes of a line. */
  datatype Marks = Marks(
    separator: bool, embed: bool, link: bool, serving: bool, heading: Option<Heading>, introduces: bool,
    ingredient: bool, bareItem: bool, ordered: bool, finished: bool)

  /** A line of the file, by its number, and its marks. */
  datatype Line = Line(number: nat, marks: Marks)

  // ----- blocks -----

  ghost predicate Solid(lines: seq<Line>) {
    lines != [] && forall i :: 0 <= i < |lines| ==> !lines[i].marks.separator
  }

  /** The blocks before the current one, and the current one. */
  datatype Cutting = Cutting(out: seq<seq<Line>>, cur: seq<Line>)

  function Closed(c: Cutting): seq<seq<Line>> {
    if |c.cur| > 0 then c.out + [c.cur] else c.out
  }

  function Extended(c: Cutting, line: Line): Cutting {
    if line.marks.separator then Cutting(Closed(c), []) else Cutting(c.out, c.cur + [line])
  }

  function Blocked(lines: seq<Line>): Cutting {
    if lines == [] then Cutting([], []) else Extended(Blocked(lines[..|lines| - 1]), lines[|lines| - 1])
  }

  function Blocks(lines: seq<Line>): seq<seq<Line>> {
    Closed(Blocked(lines))
  }

  method BlocksOf(lines: seq<Line>) returns (out: seq<seq<Line>>)
    ensures out == Blocks(lines)
  {
    out := [];
    var cur := [];
    for i := 0 to |lines|
      invariant Blocked(lines[..i]) == Cutting(out, cur)
    {
      var line := lines[i];
      assert lines[..i + 1][..i] == lines[..i];
      if line.marks.separator {
        if |cur| > 0 {
          out := out + [cur];
        }
        cur := [];
      } else {
        cur := cur + [line];
      }
    }
    assert lines[..|lines|] == lines;
    if |cur| > 0 {
      out := out + [cur];
    }
  }

  lemma BlockedSnoc(lines: seq<Line>, line: Line)
    ensures Blocked(lines + [line]) == Extended(Blocked(lines), line)
  {
    assert (lines + [line])[..|lines|] == lines;
  }

  lemma ExtendedAfter(before: seq<seq<Line>>, c: Cutting, line: Line)
    ensures Extended(Cutting(before + c.out, c.cur), line) ==
      Cutting(before + Extended(c, line).out, Extended(c, line).cur)
  {
    assert before + (c.out + [c.cur]) == before + c.out + [c.cur];
  }

  lemma {:induction false} BlockedAfterSeparator(a: seq<Line>, sep: Line, b: seq<Line>)
    requires sep.marks.separator
    ensures Blocked(a + [sep] + b) == Cutting(Blocks(a) + Blocked(b).out, Blocked(b).cur)
  {
    if b == [] {
      assert a + [sep] + b == a + [sep];
      BlockedSnoc(a, sep);
    } else {
      var init, last := b[..|b| - 1], b[|b| - 1];
      BlockedAfterSeparator(a, sep, init);
      assert a + [sep] + b == a + [sep] + init + [last];
      BlockedSnoc(a + [sep] + init, last);
      ExtendedAfter(Blocks(a), Blocked(init), last);
    }
  }

  lemma ExtendedSolid(init: seq<Line>, last: Line)
    requires !last.marks.separator
    ensures Extended(Cutting([], init), last) == Cutting([], init + [last])
  {
  }

  lemma {:induction false} BlockedSolid(lines: seq<Line>)
    requires forall i :: 0 <= i < |lines| ==> !lines[i].marks.separator
    ensures Blocked(lines) == Cutting([], lines)
  {
    if lines != [] {
      var init, last := lines[..|lines| - 1], lines[|lines| - 1];
      assert init + [last] == lines;
      BlockedSolid(init);
      ExtendedSolid(init, last);
    }
  }

  /** Blocks are cut at separators and nowhere else: lines without one are one block, and a separator
      keeps what is before it apart from what is after. */
  lemma CutAtSeparatorsOnly(a: seq<Line>, sep: Line, b: seq<Line>)
    requires sep.marks.separator
    ensures Blocks(a + [sep] + b) == Blocks(a) + Blocks(b)
    ensures Solid(a) ==> Blocks(a) == [a]
    ensures Blocks([]) == []
  {
    BlockedAfterSeparator(a, sep, b);
    assert Blocks(a) + (Blocked(b).out + [Blocked(b).cur]) == Blocks(a) + Blocked(b).out + [Blocked(b).cur];
    if Solid(a) {
      BlockedSolid(a);
    }
  }

  function Flat<T>(parts: seq<seq<T>>): seq<T> {
    if parts == [] then [] else Flat(parts[..|parts| - 1]) + parts[|parts| - 1]
  }

  /** The lines that are not separators. */
  function Kept(lines: seq<Line>): seq<Line> {
    if lines == [] then []
    else if lines[|lines| - 1].marks.separator then Kept(lines[..|lines| - 1])
    else Kept(lines[..|lines| - 1]) + [lines[|lines| - 1]]
  }

  lemma FlatSnoc<T>(parts: seq<seq<T>>, part: seq<T>)
    ensures Flat(parts + [part]) == Flat(parts) + part
  {
    assert (parts + [part])[..|parts|] == parts;
  }

  lemma {:induction false} BlockedKeepsLines(lines: seq<Line>)
    ensures Flat(Blocked(lines).out) + Blocked(lines).cur == Kept(lines)
  {
    if lines != [] {
      var Cutting(out, cur) := Blocked(lines[..|lines| - 1]);
      BlockedKeepsLines(lines[..|lines| - 1]);
      FlatSnoc(out, cur);
      assert Flat(out) + (cur + [lines[|lines| - 1]]) == Flat(out) + cur + [lines[|lines| - 1]];
    }
  }

  /** The blocks hold every line but the separators, in order. */
  lemma BlocksKeepLines(lines: seq<Line>)
    ensures Flat(Blocks(lines)) == Kept(lines)
  {
    BlockedKeepsLines(lines);
    FlatSnoc(Blocked(lines).out, Blocked(lines).cur);
  }

  // ----- reading a block -----

  /** An ingredient or step block, under the label that headed it. */
  datatype Block = Block(group: Option<Line>, lines: seq<Line>)

  /** A note in the making: its heading line, if it has one, and its lines. */
  datatype Draft = Draft(heading: Option<Line>, lines: seq<Line>)

  /** What has been read so far. Ingredients, or steps, have been seen exactly when there are some, and
      `noteOpen` says that the last draft takes further lines. */
  datatype Parse = Parse(
    ingredients: seq<Block>, steps: seq<Block>, drafts: seq<Draft>, embeds: seq<Line>, url: Option<Line>,
    extraUrls: seq<Line>, sourceYield: Option<Line>, pendingLabel: Option<Line>, discarded: seq<Line>,
    notesMode: bool, noteOpen: bool)

  const NOTHING := Parse([], [], [], [], None, [], None, None, [], false, false)

  /** One line outside the notes: metadata and embeds come out, and anything else is kept. */
  function Taken(p: Parse, line: Line): Option<Parse> {
    if line.marks.embed then Some(p.(embeds := p.embeds + [line]))
    else if line.marks.link then
      Some(if p.url.None? then p.(url := Some(line)) else p.(extraUrls := p.extraUrls + [line]))
    else if line.marks.serving && p.sourceYield.None? then Some(p.(sourceYield := Some(line)))
    else None
  }

  function Sifted(p: Parse, lines: seq<Line>): (r: (Parse, seq<Line>)) {
    if lines == [] then (p, [])
    else
      var (q, kept) := Sifted(p, lines[..|lines| - 1]);
      var line := lines[|lines| - 1];
      match Taken(q, line)
      case Some(q') => (q', kept)
      case None => (q, kept + [line])
  }

  /** One line of the notes: a heading opens a note, anything else goes into the open one. */
  function Noted(p: Parse, line: Line): Parse {
    if line.marks.heading.Some? then p.(drafts := p.drafts + [Draft(Some(line), [])], noteOpen := true)
    else if !p.noteOpen || p.drafts == [] then p.(drafts := p.drafts + [Draft(None, [line])], noteOpen := true)
    else
      var last := p.drafts[|p.drafts| - 1];
      p.(drafts := p.drafts[..|p.drafts| - 1] + [last.(lines := last.lines + [line])])
  }

  function NotedAll(p: Parse, lines: seq<Line>): Parse {
    if lines == [] then p else Noted(NotedAll(p, lines[..|lines| - 1]), lines[|lines| - 1])
  }

  function FirstHeading(lines: seq<Line>): (i: nat)
    ensures i <= |lines| && (i < |lines| ==> lines[i].marks.heading.Some?)
    ensures forall k :: 0 <= k < i ==> lines[k].marks.heading.None?
  {
    if lines == [] || lines[0].marks.heading.Some? then 0 else FirstHeading(lines[1..]) + 1
  }

  /** Each line a note of its own. */
  function Singles(lines: seq<Line>): (drafts: seq<Draft>)
    ensures |drafts| == |lines| && forall i :: 0 <= i < |lines| ==> drafts[i] == Draft(None, [lines[i]])
  {
    seq(|lines|, i requires 0 <= i < |lines| => Draft(None, [lines[i]]))
  }

  function Hits(lines: seq<Line>): (hits: nat)
    ensures hits <= |lines|
  {
    if lines == [] then 0 else Hits(lines[..|lines| - 1]) + if lines[|lines| - 1].marks.ingredient then 1 else 0
  }

  predicate MostlyIngredients(lines: seq<Line>) {
    Hits(lines) >= 1 && Hits(lines) * 2 >= |lines|
  }

  predicate AllBare(lines: seq<Line>) {
    forall i :: 0 <= i < |lines| ==> lines[i].marks.bareItem
  }

  predicate AllOrdered(lines: seq<Line>) {
    forall i :: 0 <= i < |lines| ==> lines[i].marks.ordered
  }

  /** A block past its label: ingredients, or a note before any were seen, or steps. */
  function Bodied(p: Parse, rest: seq<Line>): Parse {
    if MostlyIngredients(rest) || (p.ingredients != [] && p.steps == [] && AllBare(rest)) then
      p.(ingredients := p.ingredients + [Block(p.pendingLabel, rest)], pendingLabel := None)
    else if p.ingredients == [] then
      p.(drafts := p.drafts + if AllOrdered(rest) then Singles(rest) else [Draft(None, rest)])
    else
      p.(steps := p.steps + [Block(p.pendingLabel, rest)], pendingLabel := None)
  }

  /** A label at the head of a block becomes the pending one, throwing out the one that still was. */
  function Labelled(p: Parse, line: Line): Parse {
    p.(discarded := if p.pendingLabel.Some? then p.discarded + [p.pendingLabel.value] else p.discarded,
       pendingLabel := Some(line))
  }

  function Method(p: Parse, rest: seq<Line>): Parse
    requires rest != []
  {
    if !rest[0].marks.introduces then Bodied(p, rest)
    else if |rest| == 1 then Labelled(p, rest[0])
    else Bodied(Labelled(p, rest[0]), rest[1..])
  }

  function ReadBlock(p: Parse, block: seq<Line>): Parse {
    if p.notesMode then NotedAll(p, block)
    else
      var (q, rest) := Sifted(p, block);
      if rest == [] then q
      else
        var at := FirstHeading(rest);
        if at == |rest| then Method(q, rest)
        else NotedAll(q.(drafts := q.drafts + Singles(rest[..at]), notesMode := true), rest[at..])
  }

  function ReadBlocks(blocks: seq<seq<Line>>): Parse {
    if blocks == [] then NOTHING else ReadBlock(ReadBlocks(blocks[..|blocks| - 1]), blocks[|blocks| - 1])
  }

  // ----- the reading loops -----

  method Sift(p: Parse, block: seq<Line>) returns (q: Parse, kept: seq<Line>)
    ensures (q, kept) == Sifted(p, block) && q.notesMode == p.notesMode
  {
    q, kept := p, [];
    for i := 0 to |block|
      invariant (q, kept) == Sifted(p, block[..i]) && q.notesMode == p.notesMode
    {
      var line := block[i];
      assert block[..i + 1][..i] == block[..i];
      if line.marks.embed {
        q := q.(embeds := q.embeds + [line]);
      } else if line.marks.link {
        if q.url.None? {
          q := q.(url := Some(line));
        } else {
          q := q.(extraUrls := q.extraUrls + [line]);
        }
      } else if line.marks.serving && q.sourceYield.None? {
        q := q.(sourceYield := Some(line));
      } else {
        kept := kept + [line];
      }
    }
    assert block[..|block|] == block;
  }

  method TakeNotes(p: Parse, lines: seq<Line>) returns (q: Parse)
    ensures q == NotedAll(p, lines)
  {
    q := p;
    for i := 0 to |lines|
      invariant q == NotedAll(p, lines[..i])
    {
      assert lines[..i + 1][..i] == lines[..i];
      if lines[i].marks.heading.Some? {
        q := q.(drafts := q.drafts + [Draft(Some(lines[i]), [])], noteOpen := true);
      } else {
        if !q.noteOpen || q.drafts == [] {
          q := q.(drafts := q.drafts + [Draft(None, [])], noteOpen := true);
        }
        var last := q.drafts[|q.drafts| - 1];
        assert [] + [lines[i]] == [lines[i]];
        q := q.(drafts := q.drafts[..|q.drafts| - 1] + [last.(lines := last.lines + [lines[i]])]);
      }
    }
    assert lines[..|lines|] == lines;
  }

  method CountHits(lines: seq<Line>) returns (hits: nat)
    ensures hits == Hits(lines)
  {
    hits := 0;
    for i := 0 to |lines|
      invariant hits == Hits(lines[..i])
    {
      assert lines[..i + 1][..i] == lines[..i];
      hits := hits + if lines[i].marks.ingredient then 1 else 0;
    }
    assert lines[..|lines|] == lines;
  }

  /** The file's blocks, one after the other. */
  method ParseRecipe(blocks: seq<seq<Line>>) returns (p: Parse)
    ensures p == ReadBlocks(blocks)
  {
    p := NOTHING;
    for i := 0 to |blocks|
      invariant p == ReadBlocks(blocks[..i])
    {
      assert blocks[..i + 1][..i] == blocks[..i];
      p := ParseBlock(p, blocks[i]);
    }
    assert blocks[..|blocks|] == blocks;
  }

  method ParseBlock(p: Parse, block: seq<Line>) returns (q: Parse)
    ensures q == ReadBlock(p, block)
  {
    var rest := block;
    q := p;
    if !p.notesMode {
      q, rest := Sift(p, block);
    }
    if |rest| == 0 {
      return;
    }
    if q.notesMode {
      q := TakeNotes(q, rest);
      return;
    }
    var startsNotes := FirstHeading(rest);
    if startsNotes < |rest| {
      q := q.(drafts := q.drafts + Singles(rest[..startsNotes]), notesMode := true);
      q := TakeNotes(q, rest[startsNotes..]);
      return;
    }
    q := ReadMethod(q, rest);
  }

  method ReadMethod(p: Parse, block: seq<Line>) returns (q: Parse)
    requires block != []
    ensures q == Method(p, block)
  {
    var rest := block;
    q := p;
    if rest[0].marks.introduces {
      if q.pendingLabel.Some? {
        q := q.(discarded := q.discarded + [q.pendingLabel.value]);
      }
      q := q.(pendingLabel := Some(rest[0]));
      rest := rest[1..];
      if |rest| == 0 {
        return;
      }
    }
    var hits := CountHits(rest);
    var isIngredientBlock :=
      (hits >= 1 && hits * 2 >= |rest|) || (q.ingredients != [] && q.steps == [] && AllBare(rest));
    if isIngredientBlock {
      q := q.(ingredients := q.ingredients + [Block(q.pendingLabel, rest)], pendingLabel := None);
      return;
    }
    if q.ingredients == [] {
      q := q.(drafts := q.drafts + if AllOrdered(rest) then Singles(rest) else [Draft(None, rest)]);
      return;
    }
    q := q.(steps := q.steps + [Block(q.pendingLabel, rest)], pendingLabel := None);
  }
}
