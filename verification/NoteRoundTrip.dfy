/** Splitting and joining undo each other, up to a normal form. (wiki-ui/lib/article-notes.ts:47-77) */
module NoteRoundTrip {
  import opened Options
  import opened Trimming
  import opened NoteDocument
  import NoteDiff
  import NoteReplay

  // ----- what hangs off the block above -----

  function SkipDigits(s: string, i: nat): (j: nat)
    requires i <= |s|
    ensures i <= j <= |s|
    decreases |s| - i
  {
    if i < |s| && '0' <= s[i] <= '9' then SkipDigits(s, i + 1) else i
  }

  /** A list item or a quote. */
  predicate Marker(s: string) {
    || (|s| > 1 && (s[0] == '-' || s[0] == '*' || s[0] == '+' || s[0] == '>') && s[1] == ' ')
    || var j := SkipDigits(s, 0);
       j > 0 && j + 1 < |s| && (s[j] == '.' || s[j] == ')') && s[j + 1] == ' '
  }

  predicate ContinuesPrevious(block: string, previous: string) {
    Marker(block) && !(previous != "" && IsSpace(previous[0]))
  }

  // ----- blocks into notes -----

  /** The blocks of each note, one more block placed. */
  function Place(groups: seq<seq<string>>, block: string): seq<seq<string>> {
    if groups != [] && Marker(block) then groups[..|groups| - 1] + [groups[|groups| - 1] + [block]]
    else groups + [[block]]
  }

  function Grouped(blocks: seq<string>): seq<seq<string>> {
    if blocks == [] then [] else Place(Grouped(blocks[..|blocks| - 1]), blocks[|blocks| - 1])
  }

  function Notes(groups: seq<seq<string>>): (notes: seq<string>)
    ensures |notes| == |groups| && forall i :: 0 <= i < |groups| ==> notes[i] == Joined(groups[i])
  {
    seq(|groups|, i requires 0 <= i < |groups| => Joined(groups[i]))
  }

  function SplitNotes(doc: string): seq<string> {
    Notes(Grouped(Kept(Cut(doc), Trim)))
  }

  function NotesToDocument(notes: seq<string>): string {
    Joined(Kept(notes, Trim))
  }

  // ----- joining, piece by piece -----

  lemma {:induction false} JoinedConcat(a: seq<string>, b: seq<string>)
    requires a != [] && b != []
    ensures Joined(a + b) == Joined(a) + "\n\n" + Joined(b)
  {
    if |a| == 1 {
      assert (a + b)[1..] == b;
    } else {
      JoinedConcat(a[1..], b);
      assert (a + b)[1..] == a[1..] + b;
      assert a[0] + "\n\n" + (Joined(a[1..]) + "\n\n" + Joined(b)) ==
        a[0] + "\n\n" + Joined(a[1..]) + "\n\n" + Joined(b);
    }
  }

  /** Solid blocks joined start and end as the first and last of them. */
  lemma {:induction false} JoinedEnds(g: seq<string>)
    requires g != [] && forall k :: 0 <= k < |g| ==> g[k] != ""
    ensures Joined(g) != "" && Joined(g)[0] == g[0][0]
    ensures Joined(g)[|Joined(g)| - 1] == g[|g| - 1][|g[|g| - 1]| - 1]
  {
    if |g| > 1 {
      JoinedEnds(g[1..]);
    }
  }

  lemma JoinedIsTrimmed(g: seq<string>)
    requires g != [] && AllSolid(g)
    ensures Joined(g) != "" && Trimmed(Joined(g)) && Trim(Joined(g)) == Joined(g)
  {
    JoinedEnds(g);
    assert Solid(g[0]) && Solid(g[|g| - 1]);
  }

  // ----- groups -----

  /** Groups of solid blocks: only list items and quotes follow another block, and only the first
      group may start with one. */
  ghost predicate Proper(groups: seq<seq<string>>) {
    forall i :: 0 <= i < |groups| ==> ProperGroup(groups[i]) && (i > 0 ==> !Marker(groups[i][0]))
  }

  ghost predicate ProperGroup(g: seq<string>) {
    g != [] && AllSolid(g) && forall k :: 0 < k < |g| ==> Marker(g[k])
  }

  lemma PlaceKeepsProper(groups: seq<seq<string>>, block: string)
    requires Proper(groups) && Solid(block)
    ensures Proper(Place(groups, block))
  {
    if groups != [] && Marker(block) {
      var last := groups[|groups| - 1];
      assert ProperGroup(last + [block]);
    } else {
      assert ProperGroup([block]);
    }
  }

  lemma {:induction false} GroupedIsProper(blocks: seq<string>)
    requires AllSolid(blocks)
    ensures Proper(Grouped(blocks))
  {
    if blocks != [] {
      GroupedIsProper(blocks[..|blocks| - 1]);
      PlaceKeepsProper(Grouped(blocks[..|blocks| - 1]), blocks[|blocks| - 1]);
    }
  }

  function Flat(groups: seq<seq<string>>): seq<string> {
    if groups == [] then [] else Flat(groups[..|groups| - 1]) + groups[|groups| - 1]
  }

  lemma FlatOfPlaced(groups: seq<seq<string>>, block: string)
    ensures Flat(Place(groups, block)) == Flat(groups) + [block]
  {
    if groups != [] && Marker(block) {
      var init, last := groups[..|groups| - 1], groups[|groups| - 1];
      assert (init + [last + [block]])[..|groups| - 1] == init;
      assert Flat(init) + (last + [block]) == Flat(init) + last + [block];
    } else {
      assert (groups + [[block]])[..|groups|] == groups;
    }
  }

  lemma {:induction false} FlatOfGrouped(blocks: seq<string>)
    ensures Flat(Grouped(blocks)) == blocks
  {
    if blocks != [] {
      FlatOfGrouped(blocks[..|blocks| - 1]);
      FlatOfPlaced(Grouped(blocks[..|blocks| - 1]), blocks[|blocks| - 1]);
    }
  }

  lemma GroupedSnoc(blocks: seq<string>, block: string)
    ensures Grouped(blocks + [block]) == Place(Grouped(blocks), block)
  {
    assert (blocks + [block])[..|blocks|] == blocks;
  }

  /** A whole group placed block by block. */
  lemma {:induction false} GroupedGroup(blocks: seq<string>, groups: seq<seq<string>>, g: seq<string>)
    requires Grouped(blocks) == groups && g != [] && (forall k :: 0 < k < |g| ==> Marker(g[k]))
    requires groups == [] || !Marker(g[0])
    ensures Grouped(blocks + g) == groups + [g]
  {
    var init, last := g[..|g| - 1], g[|g| - 1];
    LastOff(blocks, g);
    GroupedSnoc(blocks + init, last);
    if |g| == 1 {
      assert blocks + init == blocks && g == [last];
    } else {
      GroupedGroup(blocks, groups, init);
      PlacedOnLast(groups, init, last);
    }
  }

  lemma LastOff(blocks: seq<string>, g: seq<string>)
    requires g != []
    ensures blocks + g == (blocks + g[..|g| - 1]) + [g[|g| - 1]] && g == g[..|g| - 1] + [g[|g| - 1]]
  {
  }

  lemma PlacedOnLast(groups: seq<seq<string>>, g: seq<string>, block: string)
    requires Marker(block)
    ensures Place(groups + [g], block) == groups + [g + [block]]
  {
    assert (groups + [g])[..|groups|] == groups;
  }

  lemma {:induction false} GroupedOfFlat(groups: seq<seq<string>>)
    requires Proper(groups)
    ensures Grouped(Flat(groups)) == groups
  {
    if groups != [] {
      var init, g := groups[..|groups| - 1], groups[|groups| - 1];
      GroupedOfFlat(init);
      assert ProperGroup(g);
      GroupedGroup(Flat(init), init, g);
      assert init + [g] == groups;
    }
  }

  lemma {:induction false} FlatIsSolid(groups: seq<seq<string>>)
    requires Proper(groups)
    ensures AllSolid(Flat(groups)) && (groups != [] ==> Flat(groups) != [])
  {
    if groups != [] {
      FlatIsSolid(groups[..|groups| - 1]);
      assert ProperGroup(groups[|groups| - 1]);
    }
  }

  lemma {:induction false} JoinedNotes(groups: seq<seq<string>>)
    requires Proper(groups)
    ensures Joined(Notes(groups)) == Joined(Flat(groups))
  {
    if groups != [] {
      var init, g := groups[..|groups| - 1], groups[|groups| - 1];
      JoinedNotes(init);
      FlatIsSolid(init);
      assert ProperGroup(g) && Notes(groups) == Notes(init) + [Joined(g)];
      if init == [] {
        assert Flat(groups) == g && Notes(groups) == [Joined(g)];
      } else {
        JoinedConcat(Notes(init), [Joined(g)]);
        JoinedConcat(Flat(init), g);
      }
    }
  }

  lemma NotesAreNeat(groups: seq<seq<string>>)
    requires Proper(groups)
    ensures Neat(Notes(groups), Trim)
  {
    forall i | 0 <= i < |groups| ensures Notes(groups)[i] != "" && Trim(Notes(groups)[i]) == Notes(groups)[i] {
      assert ProperGroup(groups[i]);
      JoinedIsTrimmed(groups[i]);
    }
  }

  lemma SplitUndoesJoinOfGroups(groups: seq<seq<string>>)
    requires Proper(groups)
    ensures SplitNotes(NotesToDocument(Notes(groups))) == Notes(groups)
  {
    NotesAreNeat(groups);
    KeptUndone(Notes(groups), Trim);
    JoinedNotes(groups);
    FlatIsSolid(groups);
    GroupedOfFlat(groups);
    if groups == [] {
      EmptyDocument();
    } else {
      BlocksOfJoined(Flat(groups));
    }
  }

  lemma EmptyDocument()
    ensures Kept(Cut(""), Trim) == []
  {
    assert Cut("") == [""];
    assert [""][..0] == [];
    assert Trim("") == "";
  }

  // ----- the normal form -----

  /** A note as splitting makes them: solid blocks a blank line apart, all but the first of them list
      items or quotes. */
  ghost predicate IsNote(note: string) {
    ProperGroup(Cut(note)) && note == Joined(Cut(note))
  }

  /** A list of notes as splitting makes them. */
  ghost predicate Normal(notes: seq<string>) {
    forall i :: 0 <= i < |notes| ==> IsNote(notes[i]) && (i > 0 ==> !Marker(Cut(notes[i])[0]))
  }

  /** Whatever is split comes out normal. */
  lemma SplitIsNormal(doc: string)
    ensures Normal(SplitNotes(doc))
  {
    var blocks := Kept(Cut(doc), Trim);
    PiecesAreWhole(doc);
    KeptAreSolid(Cut(doc));
    GroupedIsProper(blocks);
    var groups := Grouped(blocks);
    forall i | 0 <= i < |groups| ensures Cut(Notes(groups)[i]) == groups[i] {
      assert ProperGroup(groups[i]);
      CutUndoesJoin(groups[i]);
    }
  }

  /** Splitting undoes joining on every normal list. */
  lemma SplitUndoesJoin(notes: seq<string>)
    requires Normal(notes)
    ensures SplitNotes(NotesToDocument(notes)) == notes
  {
    var groups := seq(|notes|, i requires 0 <= i < |notes| => Cut(notes[i]));
    assert Proper(groups) by {
      forall i | 0 <= i < |groups| ensures ProperGroup(groups[i]) && (i > 0 ==> !Marker(groups[i][0])) {
        assert IsNote(notes[i]);
      }
    }
    forall i | 0 <= i < |notes| ensures Notes(groups)[i] == notes[i] {
      assert IsNote(notes[i]);
    }
    assert Notes(groups) == notes;
    SplitUndoesJoinOfGroups(groups);
  }

  /** Splitting, joining and splitting again gives what splitting once gave. */
  lemma SplitTwice(doc: string)
    ensures SplitNotes(NotesToDocument(SplitNotes(doc))) == SplitNotes(doc)
  {
    SplitIsNormal(doc);
    SplitUndoesJoin(SplitNotes(doc));
  }

  // ----- the splitting loop -----

  lemma PlacedNotes(groups: seq<seq<string>>, block: string)
    requires Proper(groups) && Solid(block)
    ensures Notes(Place(groups, block)) ==
      if groups != [] && ContinuesPrevious(block, Notes(groups)[|groups| - 1])
      then Notes(groups)[|groups| - 1 := Notes(groups)[|groups| - 1] + "\n\n" + block]
      else Notes(groups) + [block]
  {
    if groups != [] {
      var last := groups[|groups| - 1];
      assert ProperGroup(last);
      JoinedEnds(last);
      assert Solid(last[0]);
      JoinedConcat(last, [block]);
    }
  }

  lemma NothingKept(none: seq<string>, blocks: seq<string>)
    requires none == [] && blocks == Kept(none, Trim)
    ensures AllSolid(blocks) && Proper(Grouped(blocks)) && Notes(Grouped(blocks)) == []
  {
  }

  lemma TrimIsSolid(piece: string)
    requires Whole(piece) && Trim(piece) != ""
    ensures Solid(Trim(piece))
  {
    TrimKeepsWhole(piece);
  }

  lemma KeptSnoc(pieces: seq<string>, i: nat)
    requires i < |pieces|
    ensures Kept(pieces[..i + 1], Trim) == KeepOne(Kept(pieces[..i], Trim), Trim(pieces[i]))
  {
    assert pieces[..i + 1][..i] == pieces[..i];
  }

  /** One more block: hung on the last note, or a note of its own. */
  method PlaceBlock(chunks0: seq<string>, block: string, ghost blocks: seq<string>) returns (chunks: seq<string>)
    requires AllSolid(blocks) && Proper(Grouped(blocks)) && Solid(block)
    requires chunks0 == Notes(Grouped(blocks))
    ensures Proper(Grouped(blocks + [block])) && chunks == Notes(Grouped(blocks + [block]))
  {
    PlaceKeepsProper(Grouped(blocks), block);
    PlacedNotes(Grouped(blocks), block);
    GroupedSnoc(blocks, block);
    var last := |chunks0| - 1;
    if last >= 0 && ContinuesPrevious(block, chunks0[last]) {
      chunks := chunks0[last := chunks0[last] + "\n\n" + block];
    } else {
      chunks := chunks0 + [block];
    }
  }

  /** The next piece: dropped when nothing is left of it, and placed otherwise. */
  method TakePiece(pieces: seq<string>, i: nat, chunks0: seq<string>, ghost blocks: seq<string>)
    returns (chunks: seq<string>)
    requires i < |pieces| && Whole(pieces[i]) && blocks == Kept(pieces[..i], Trim)
    requires AllSolid(blocks) && Proper(Grouped(blocks)) && chunks0 == Notes(Grouped(blocks))
    ensures var more := Kept(pieces[..i + 1], Trim);
      AllSolid(more) && Proper(Grouped(more)) && chunks == Notes(Grouped(more))
  {
    var block := Trim(pieces[i]);
    KeptSnoc(pieces, i);
    KeepOneSolid(blocks, pieces[i]);
    chunks := chunks0;
    if block != "" {
      TrimIsSolid(pieces[i]);
      chunks := PlaceBlock(chunks0, block, blocks);
    }
  }

  method SplitNoteDocument(doc: string) returns (chunks: seq<string>)
    ensures chunks == SplitNotes(doc)
  {
    var pieces := Cut(doc);
    PiecesAreWhole(doc);
    chunks := [];
    ghost var blocks := Kept(pieces[..0], Trim);
    NothingKept(pieces[..0], blocks);
    for i := 0 to |pieces|
      invariant blocks == Kept(pieces[..i], Trim)
      invariant AllSolid(blocks) && Proper(Grouped(blocks))
      invariant chunks == Notes(Grouped(blocks))
    {
      chunks := TakePiece(pieces, i, chunks, blocks);
      blocks := Kept(pieces[..i + 1], Trim);
    }
    assert pieces[..|pieces|] == pieces;
  }

  // ----- autosave -----

  lemma NormalIsTrimmed(notes: seq<string>)
    requires Normal(notes)
    ensures NoteReplay.AllTrimmed(notes, Trim)
  {
    forall i | 0 <= i < |notes| ensures Trim(notes[i]) == notes[i] {
      assert IsNote(notes[i]);
      JoinedIsTrimmed(Cut(notes[i]));
    }
  }

  /** Saving twice: once a document's edits are carried out, saving it again sends nothing, and so
      does saving the document the stored notes now make. */
  lemma SecondSaveIsQuiet(stored: seq<NoteDiff.Note>, doc: string, newId: nat -> string)
    requires NoteDiff.UniqueIds(stored) && !NoteReplay.Prepends(NoteDiff.Texts(stored, Trim), SplitNotes(doc))
    ensures var out := NoteDiff.Replay(stored, NoteDiff.Edits(stored, SplitNotes(doc), Trim), newId);
      && out.Some?
      && NoteDiff.Edits(out.value, SplitNotes(doc), Trim) == []
      && NoteDiff.Edits(out.value, SplitNotes(NotesToDocument(NoteDiff.Texts(out.value, Trim))), Trim) == []
  {
    var next := SplitNotes(doc);
    SplitIsNormal(doc);
    NormalIsTrimmed(next);
    NoteReplay.ReplayReadsExactly(stored, next, newId, Trim);
    var out := NoteDiff.Replay(stored, NoteDiff.Edits(stored, next, Trim), newId).value;
    SplitUndoesJoin(next);
    NoteReplay.UnchangedIsQuiet(out, next, Trim);
  }

  lemma OneMoreUnique(stored: seq<NoteDiff.Note>, note: NoteDiff.Note)
    requires NoteDiff.UniqueIds(stored) && forall n :: n in stored ==> n.id != note.id
    ensures NoteDiff.UniqueIds(stored + [note])
  {
  }

  /** Saving twice always gets there: whatever the first save left, a note put in front and appended at the
      end included, the edits of the next save of the same document all succeed and what comes out reads as
      the document; a third save sends nothing. */
  lemma SecondSaveMends(stored: seq<NoteDiff.Note>, doc: string, newId: nat -> string, nextId: nat -> string)
    requires NoteDiff.UniqueIds(stored)
    requires NoteReplay.Prepends(NoteDiff.Texts(stored, Trim), SplitNotes(doc)) ==>
      forall n :: n in stored ==> n.id != newId(0)
    ensures var next := SplitNotes(doc);
      var once := NoteDiff.Replay(stored, NoteDiff.Edits(stored, next, Trim), newId);
      && once.Some?
      && var twice := NoteDiff.Replay(once.value, NoteDiff.Edits(once.value, next, Trim), nextId);
      && twice.Some? && NoteDiff.Texts(twice.value, Trim) == next
      && NoteDiff.Edits(twice.value, next, Trim) == []
  {
    var next := SplitNotes(doc);
    SplitIsNormal(doc);
    NormalIsTrimmed(next);
    NoteReplay.ReplayReadsExactly(stored, next, newId, Trim);
    var once := NoteDiff.Replay(stored, NoteDiff.Edits(stored, next, Trim), newId).value;
    if NoteReplay.Prepends(NoteDiff.Texts(stored, Trim), next) {
      NoteReplay.PrependedGoesLast(stored, next, newId, Trim);
      OneMoreUnique(stored, NoteDiff.Note(newId(0), next[0]));
      assert |once| == |next|;
      NoteReplay.ReplayReadsExactly(once, next, nextId, Trim);
    } else {
      NoteReplay.UnchangedIsQuiet(once, next, Trim);
    }
    NoteReplay.UnchangedIsQuiet(NoteDiff.Replay(once, NoteDiff.Edits(once, next, Trim), nextId).value, next, Trim);
  }
}
