/** The notes as one document, and the document back into notes. (wiki-ui/lib/article-notes.ts:47-77) */
module NoteDocument {
  import opened Trimming

  // ----- the blank lines -----

  predicate IsBlank(c: char) {
    c == ' ' || c == '\t'
  }

  /** The first place at or after `i` that is not a blank. */
  function SkipBlanks(doc: string, i: nat): (j: nat)
    requires i <= |doc|
    ensures i <= j <= |doc| && (j < |doc| ==> !IsBlank(doc[j]))
    ensures forall k :: i <= k < j ==> IsBlank(doc[k])
    decreases |doc| - i
  {
    if i < |doc| && IsBlank(doc[i]) then SkipBlanks(doc, i + 1) else i
  }

  /** A line break, blanks, and another line break start at `i`. */
  predicate BreaksAt(doc: string, i: nat)
    requires i < |doc|
  {
    doc[i] == '\n' && SkipBlanks(doc, i + 1) < |doc| && doc[SkipBlanks(doc, i + 1)] == '\n'
  }

  /** The first blank line at or after `i`, or the end. */
  function FirstBreak(doc: string, i: nat): (b: nat)
    requires i <= |doc|
    ensures i <= b <= |doc| && (b < |doc| ==> BreaksAt(doc, b))
    ensures forall k :: i <= k < b ==> !BreaksAt(doc, k)
    decreases |doc| - i
  {
    if i == |doc| || BreaksAt(doc, i) then i else FirstBreak(doc, i + 1)
  }

  /** The document cut at its blank lines. */
  function Cut(doc: string): (pieces: seq<string>)
    ensures |pieces| > 0
    decreases |doc|
  {
    var b := FirstBreak(doc, 0);
    if b == |doc| then [doc] else [doc[..b]] + Cut(doc[SkipBlanks(doc, b + 1) + 1..])
  }

  ghost predicate Whole(s: string) {
    forall i :: 0 <= i < |s| ==> !BreaksAt(s, i)
  }

  /** A block: something, trimmed, with no blank line in it. */
  ghost predicate Solid(s: string) {
    s != "" && Trimmed(s) && Whole(s)
  }

  lemma SkipBlanksIs(doc: string, i: nat, j: nat)
    requires i <= j <= |doc| && (forall k :: i <= k < j ==> IsBlank(doc[k])) && (j < |doc| ==> !IsBlank(doc[j]))
    ensures SkipBlanks(doc, i) == j
  {
  }

  /** What breaks inside a part breaks in the whole. */
  lemma BreakInPart(s: string, lo: nat, hi: nat, i: nat)
    requires lo <= hi <= |s| && i < hi - lo && BreaksAt(s[lo..hi], i)
    ensures BreaksAt(s, lo + i)
  {
    var j := SkipBlanks(s[lo..hi], i + 1);
    forall k | lo + i + 1 <= k < lo + j ensures IsBlank(s[k]) {
      assert IsBlank(s[lo..hi][k - lo]);
    }
    assert s[lo..hi][i] == s[lo + i] && s[lo..hi][j] == s[lo + j];
    SkipBlanksIs(s, lo + i + 1, lo + j);
  }

  lemma PartIsWhole(s: string, lo: nat, hi: nat)
    requires lo <= hi <= |s| && forall i :: lo <= i < hi ==> !BreaksAt(s, i)
    ensures Whole(s[lo..hi])
  {
    forall i | 0 <= i < hi - lo ensures !BreaksAt(s[lo..hi], i) {
      if BreaksAt(s[lo..hi], i) {
        BreakInPart(s, lo, hi, i);
      }
    }
  }

  /** Trimming takes a middle part. */
  lemma TrimIsPart(s: string) returns (lo: nat, hi: nat)
    ensures lo <= hi <= |s| && Trim(s) == s[lo..hi]
  {
    var t := TrimStart(s);
    var r := TrimEnd(t);
    lo := |s| - |t|;
    hi := lo + |r|;
    assert t == s[lo..] && r == t[..|r|];
    assert s[lo..][..|r|] == s[lo..hi];
  }

  lemma TrimKeepsWhole(s: string)
    requires Whole(s)
    ensures Whole(Trim(s))
  {
    var lo, hi := TrimIsPart(s);
    PartIsWhole(s, lo, hi);
  }

  lemma {:induction false} PiecesAreWhole(doc: string)
    ensures forall k :: 0 <= k < |Cut(doc)| ==> Whole(Cut(doc)[k])
    decreases |doc|
  {
    var b := FirstBreak(doc, 0);
    PartIsWhole(doc, 0, b);
    if b < |doc| {
      PiecesAreWhole(doc[SkipBlanks(doc, b + 1) + 1..]);
    } else {
      assert doc[0..b] == doc;
    }
  }

  /** The blocks with one more, unless it is empty. */
  function KeepOne(blocks: seq<string>, block: string): seq<string> {
    if block == "" then blocks else blocks + [block]
  }

  /** The blocks of a document: its pieces, trimmed, the empty ones dropped. */
  function Kept(pieces: seq<string>, trim: string -> string): seq<string> {
    if pieces == [] then [] else KeepOne(Kept(pieces[..|pieces| - 1], trim), trim(pieces[|pieces| - 1]))
  }

  ghost predicate AllSolid(blocks: seq<string>) {
    forall k :: 0 <= k < |blocks| ==> Solid(blocks[k])
  }

  lemma KeepOneSolid(blocks: seq<string>, piece: string)
    requires AllSolid(blocks) && Whole(piece)
    ensures AllSolid(KeepOne(blocks, Trim(piece)))
  {
    TrimKeepsWhole(piece);
  }

  lemma {:induction false} KeptAreSolid(pieces: seq<string>)
    requires forall k :: 0 <= k < |pieces| ==> Whole(pieces[k])
    ensures AllSolid(Kept(pieces, Trim))
  {
    if pieces != [] {
      KeptAreSolid(pieces[..|pieces| - 1]);
      KeepOneSolid(Kept(pieces[..|pieces| - 1], Trim), pieces[|pieces| - 1]);
    }
  }

  /** Nothing to trim or drop. */
  ghost predicate Neat(blocks: seq<string>, trim: string -> string) {
    forall k :: 0 <= k < |blocks| ==> blocks[k] != "" && trim(blocks[k]) == blocks[k]
  }

  lemma {:induction false} KeptUndone(blocks: seq<string>, trim: string -> string)
    requires Neat(blocks, trim)
    ensures Kept(blocks, trim) == blocks
  {
    if blocks != [] {
      var init, last := blocks[..|blocks| - 1], blocks[|blocks| - 1];
      KeptUndone(init, trim);
      assert init + [last] == blocks;
    }
  }

  // ----- joining -----

  /** Blocks with a blank line between them. */
  function Joined(blocks: seq<string>): string {
    if blocks == [] then "" else if |blocks| == 1 then blocks[0] else blocks[0] + "\n\n" + Joined(blocks[1..])
  }

  /** A break that starts in a trimmed text ends in it, whatever follows. */
  lemma BreakStaysInside(b: string, after: string, i: nat)
    requires Trimmed(b) && i < |b|
    ensures BreaksAt(b + after, i) ==> BreaksAt(b, i)
  {
    var doc := b + after;
    var j := SkipBlanks(doc, i + 1);
    assert IsSpace('\n') && IsSpace(' ') && IsSpace('\t');
    assert doc[|b| - 1] == b[|b| - 1];
    assert forall k :: 0 <= k < |b| ==> b[k] == doc[k];
    if j < |b| {
      SkipBlanksIs(b, i + 1, j);
    }
  }

  /** A solid block ends where the blank line after it begins. */
  lemma BreakAfterBlock(b: string, rest: string)
    requires Solid(b)
    ensures var doc := b + "\n\n" + rest; FirstBreak(doc, 0) == |b| && SkipBlanks(doc, |b| + 1) == |b| + 1
  {
    BreakAfterText(b, "\n\n" + rest);
    Grouped(b, "\n\n", rest);
  }

  lemma Grouped(a: string, b: string, c: string)
    ensures a + b + c == a + (b + c)
  {
  }

  lemma BreakAfterText(b: string, after: string)
    requires Solid(b) && |after| >= 2 && after[0] == '\n' && after[1] == '\n'
    ensures FirstBreak(b + after, 0) == |b| && SkipBlanks(b + after, |b| + 1) == |b| + 1
  {
    var doc, at: nat := b + after, |b| + 1;
    assert doc[|b|] == after[0] && doc[at] == after[1];
    SkipBlanksIs(doc, at, at);
    assert BreaksAt(doc, |b|);
    forall i | 0 <= i < |b| ensures !BreaksAt(doc, i) {
      BreakStaysInside(b, after, i);
    }
  }

  lemma BreakFree(b: string)
    requires Solid(b)
    ensures FirstBreak(b, 0) == |b|
  {
  }

  /** Cutting undoes joining solid blocks. */
  lemma {:induction false} CutUndoesJoin(blocks: seq<string>)
    requires blocks != [] && AllSolid(blocks)
    ensures Cut(Joined(blocks)) == blocks
  {
    if |blocks| == 1 {
      BreakFree(blocks[0]);
    } else {
      CutUndoesJoin(blocks[1..]);
      CutFirst(blocks[0], Joined(blocks[1..]));
      assert [blocks[0]] + blocks[1..] == blocks;
    }
  }

  /** The first cut of a document that begins with a solid block takes that block off. */
  lemma CutFirst(b: string, rest: string)
    requires Solid(b)
    ensures Cut(b + "\n\n" + rest) == [b] + Cut(rest)
  {
    BreakAfterBlock(b, rest);
    var doc := b + "\n\n" + rest;
    Halves(b, "\n\n", rest);
    CutAt(doc, |b|);
    assert doc[|b| + 2..] == rest;
  }

  lemma CutAt(doc: string, k: nat)
    requires k < |doc| && FirstBreak(doc, 0) == k && SkipBlanks(doc, k + 1) == k + 1
    ensures k + 2 <= |doc| && Cut(doc) == [doc[..k]] + Cut(doc[k + 2..])
  {
  }

  lemma Halves(a: string, b: string, c: string)
    ensures (a + b + c)[..|a|] == a && (a + b + c)[|a| + |b|..] == c
  {
  }

  lemma SolidIsNeat(blocks: seq<string>)
    requires AllSolid(blocks)
    ensures Neat(blocks, Trim)
  {
  }

  /** The blocks of a document made of solid blocks are those. */
  lemma BlocksOfJoined(blocks: seq<string>)
    requires AllSolid(blocks) && blocks != []
    ensures Kept(Cut(Joined(blocks)), Trim) == blocks
  {
    CutUndoesJoin(blocks);
    SolidIsNeat(blocks);
    KeptUndone(blocks, Trim);
  }
}
