/** What the diff's commands do when they are carried out. */
module NoteReplay {
  import opened Options
  import opened NoteDiff

  // ----- single commands -----

  lemma NoteAtIs(notes: seq<Note>, i: nat)
    requires UniqueIds(notes) && i < |notes|
    ensures NoteAt(notes, notes[i].id) == i
  {
  }

  /** The edits `done` lead from the stored notes to `state`. */
  predicate LeadsTo(stored: seq<Note>, done: seq<Edit>, newId: nat -> string, state: seq<Note>) {
    Replay(stored, done, newId) == Some(state)
  }

  lemma Then(stored: seq<Note>, done: seq<Edit>, edit: Edit, newId: nat -> string, state: seq<Note>, after: seq<Note>)
    requires LeadsTo(stored, done, newId, state) && Perform(state, edit, newId(|done|)) == Some(after)
    ensures LeadsTo(stored, done + [edit], newId, after)
  {
    assert (done + [edit])[..|done|] == done;
  }

  lemma PerformAt(notes: seq<Note>, i: nat, markdown: string, id: string)
    requires UniqueIds(notes) && i < |notes|
    ensures Perform(notes, Revise(notes[i].id, markdown), id) == Some(notes[i := notes[i].(markdown := markdown)])
    ensures Perform(notes, Add(markdown, Some(notes[i].id)), id) ==
      Some(notes[..i + 1] + [Note(id, markdown)] + notes[i + 1..])
    ensures Perform(notes, Remove(notes[i].id), id) == Some(notes[..i] + notes[i + 1..])
  {
    NoteAtIs(notes, i);
  }

  // ----- revisions -----

  /** A note that read `was`, made to read `text`. */
  function Fix(note: Note, was: string, text: string): Note {
    if was == text then note else note.(markdown := text)
  }

  /** The stored notes with `k` of them, from `h` on, brought up to date. */
  function Revised(stored: seq<Note>, was: seq<string>, next: seq<string>, h: nat, k: nat): (notes: seq<Note>)
    requires h + k <= |stored| == |was| && h + k <= |next|
    ensures |notes| == |stored|
    ensures forall i :: 0 <= i < |stored| ==>
      notes[i] == if h <= i < h + k then Fix(stored[i], was[i], next[i]) else stored[i]
  {
    seq(|stored|, i requires 0 <= i < |stored| => if h <= i < h + k then Fix(stored[i], was[i], next[i]) else stored[i])
  }

  lemma RevisedStep(stored: seq<Note>, was: seq<string>, next: seq<string>, h: nat, k: nat)
    requires h + k < |stored| == |was| && h + k < |next|
    ensures Revised(stored, was, next, h, k + 1) ==
      Revised(stored, was, next, h, k)[h + k := Fix(stored[h + k], was[h + k], next[h + k])]
    ensures UniqueIds(stored) ==> UniqueIds(Revised(stored, was, next, h, k))
  {
  }

  lemma NothingYet(stored: seq<Note>, newId: nat -> string)
    ensures LeadsTo(stored, [], newId, stored)
  {
  }

  lemma ReviseOne(stored: seq<Note>, done: seq<Edit>, newId: nat -> string, state: seq<Note>, at: nat, text: string)
    requires LeadsTo(stored, done, newId, state) && UniqueIds(state) && at < |state|
    ensures LeadsTo(stored, done + [Revise(state[at].id, text)], newId, state[at := state[at].(markdown := text)])
  {
    PerformAt(state, at, text, newId(|done|));
    Then(stored, done, Revise(state[at].id, text), newId, state, state[at := state[at].(markdown := text)]);
  }

  lemma {:induction false} ReplayRevisions(stored: seq<Note>, was: seq<string>, next: seq<string>, h: nat, k: nat,
      newId: nat -> string)
    requires UniqueIds(stored) && h + k <= |stored| == |was| && h + k <= |next|
    ensures LeadsTo(stored, Revisions(stored, was, next, h, k), newId, Revised(stored, was, next, h, k))
  {
    if k == 0 {
      assert Revised(stored, was, next, h, 0) == stored;
      NothingYet(stored, newId);
    } else {
      ReplayRevisions(stored, was, next, h, k - 1, newId);
      RevisionStep(stored, was, next, h, k, h + k - 1, newId);
    }
  }

  lemma RevisionStep(stored: seq<Note>, was: seq<string>, next: seq<string>, h: nat, k: nat, at: nat,
      newId: nat -> string)
    requires UniqueIds(stored) && k > 0 && h + k <= |stored| == |was| && h + k <= |next| && at == h + k - 1
    requires LeadsTo(stored, Revisions(stored, was, next, h, k - 1), newId, Revised(stored, was, next, h, k - 1))
    ensures LeadsTo(stored, Revisions(stored, was, next, h, k), newId, Revised(stored, was, next, h, k))
  {
    RevisedStep(stored, was, next, h, k - 1);
    var before := Revised(stored, was, next, h, k - 1);
    if was[at] == next[at] {
      assert before[at := stored[at]] == before;
    } else {
      ReviseOne(stored, Revisions(stored, was, next, h, k - 1), newId, before, at, next[at]);
    }
  }

  // ----- additions -----

  function NewNotes(next: seq<string>, from: nat, k: nat, newId: nat -> string, first: nat): (notes: seq<Note>)
    requires from + k <= |next|
    ensures |notes| == k && forall i :: 0 <= i < k ==> notes[i].markdown == next[from..][i]
  {
    if k == 0 then [] else NewNotes(next, from, k - 1, newId, first) + [Note(newId(first + k - 1), next[from + k - 1])]
  }

  lemma AdditionsCount(stored: seq<Note>, next: seq<string>, from: nat, t: nat, k: nat)
    requires from + k <= |next| && from <= |stored|
    ensures |Additions(stored, next, from, t, k)| == k
  {
  }

  lemma AppendOne(stored: seq<Note>, done: seq<Edit>, newId: nat -> string, state: seq<Note>, text: string, at: nat)
    requires LeadsTo(stored, done, newId, state) && at == |done|
    ensures LeadsTo(stored, done + [Add(text, None)], newId, state + [Note(newId(at), text)])
  {
    Then(stored, done, Add(text, None), newId, state, state + [Note(newId(at), text)]);
  }

  lemma OneMore<T>(done: seq<T>, more: seq<T>, x: T)
    ensures done + (more + [x]) == done + more + [x] && done + [] == done
  {
  }

  lemma AppendStep(stored: seq<Note>, next: seq<string>, from: nat, t: nat, k: nat, done: seq<Edit>, state: seq<Note>,
      newId: nat -> string)
    requires k > 0 && from + k <= |next| && from <= |stored| && (t == 0 || from == 0)
    requires LeadsTo(stored, done + Additions(stored, next, from, t, k - 1), newId,
      state + NewNotes(next, from, k - 1, newId, |done|))
    ensures LeadsTo(stored, done + Additions(stored, next, from, t, k), newId,
      state + NewNotes(next, from, k, newId, |done|))
  {
    var adds, notes := Additions(stored, next, from, t, k - 1), NewNotes(next, from, k - 1, newId, |done|);
    var text, at: nat := next[from + k - 1], |done| + k - 1;
    AdditionsCount(stored, next, from, t, k - 1);
    AppendOne(stored, done + adds, newId, state + notes, text, at);
    OneMore(done, adds, Add(text, None));
    OneMore(state, notes, Note(newId(at), text));
    LastAddition(stored, next, from, t, k);
  }

  lemma LastAddition(stored: seq<Note>, next: seq<string>, from: nat, t: nat, k: nat)
    requires k > 0 && from + k <= |next| && from <= |stored| && (t == 0 || from == 0)
    ensures Additions(stored, next, from, t, k) ==
      Additions(stored, next, from, t, k - 1) + [Add(next[from + k - 1], None)]
  {
  }

  lemma {:induction false} ReplayAppends(stored: seq<Note>, next: seq<string>, from: nat, t: nat, k: nat,
                                         done: seq<Edit>, state: seq<Note>, newId: nat -> string)
    requires from + k <= |next| && from <= |stored| && (t == 0 || from == 0)
    requires LeadsTo(stored, done, newId, state)
    ensures LeadsTo(stored, done + Additions(stored, next, from, t, k), newId,
      state + NewNotes(next, from, k, newId, |done|))
  {
    if k == 0 {
      assert done + [] == done && state + [] == state;
    } else {
      ReplayAppends(stored, next, from, t, k - 1, done, state, newId);
      AppendStep(stored, next, from, t, k, done, state, newId);
    }
  }

  lemma ReplayInsert(stored: seq<Note>, next: seq<string>, from: nat, t: nat, done: seq<Edit>, state: seq<Note>,
      newId: nat -> string)
    requires 0 < from < |next| && from <= |stored| && from <= |state| && t > 0
    requires LeadsTo(stored, done, newId, state) && UniqueIds(state) && state[from - 1].id == stored[from - 1].id
    ensures LeadsTo(stored, done + Additions(stored, next, from, t, 1), newId,
      state[..from] + NewNotes(next, from, 1, newId, |done|) + state[from..])
  {
    PerformAt(state, from - 1, next[from], newId(|done|));
    var edit := Add(next[from], Some(stored[from - 1].id));
    assert Additions(stored, next, from, t, 0) == [] && Additions(stored, next, from, t, 1) == [edit];
    Then(stored, done, edit, newId, state, state[..from] + [Note(newId(|done|), next[from])] + state[from..]);
    assert NewNotes(next, from, 0, newId, |done|) == [];
    assert NewNotes(next, from, 1, newId, |done|) == [Note(newId(|done|), next[from])];
  }

  // ----- removals -----

  lemma RemoveOne(stored: seq<Note>, done: seq<Edit>, newId: nat -> string, state: seq<Note>, from: nat, k: nat)
    requires UniqueIds(state) && from + k < |state| && LeadsTo(stored, done, newId, state[..from] + state[from + k..])
    ensures LeadsTo(stored, done + [Remove(state[from + k].id)], newId, state[..from] + state[from + k + 1..])
  {
    RemoveMiddle(state, from, k, newId(|done|));
    Then(stored, done, Remove(state[from + k].id), newId, state[..from] + state[from + k..],
      state[..from] + state[from + k + 1..]);
  }

  lemma RemoveStep(stored: seq<Note>, from: nat, k: nat, done: seq<Edit>, gone: seq<Edit>, state: seq<Note>,
      newId: nat -> string)
    requires from + k < |stored| == |state| && UniqueIds(state) && state[from + k].id == stored[from + k].id
    requires gone == Removals(stored, from, k) && LeadsTo(stored, done + gone, newId, state[..from] + state[from + k..])
    ensures LeadsTo(stored, done + (gone + [Remove(stored[from + k].id)]), newId, state[..from] + state[from + k + 1..])
  {
    OneMore(done, gone, Remove(stored[from + k].id));
    RemoveOne(stored, done + gone, newId, state, from, k);
  }

  lemma {:induction false} ReplayRemovals(stored: seq<Note>, from: nat, k: nat, done: seq<Edit>, state: seq<Note>,
      newId: nat -> string)
    requires from + k <= |stored| == |state| && LeadsTo(stored, done, newId, state)
    requires UniqueIds(state) && forall i :: 0 <= i < |stored| ==> state[i].id == stored[i].id
    ensures LeadsTo(stored, done + Removals(stored, from, k), newId, state[..from] + state[from + k..])
  {
    if k == 0 {
      assert done + [] == done && state[..from] + state[from..] == state;
    } else {
      var j := k - 1;
      ReplayRemovals(stored, from, j, done, state, newId);
      RemoveStep(stored, from, j, done, Removals(stored, from, j), state, newId);
      assert from + j + 1 == from + k;
    }
  }

  lemma RemoveMiddle(state: seq<Note>, from: nat, k: nat, id: string)
    requires UniqueIds(state) && from + k < |state|
    ensures Perform(state[..from] + state[from + k..], Remove(state[from + k].id), id) ==
      Some(state[..from] + state[from + k + 1..])
  {
    var mid := state[..from] + state[from + k..];
    assert UniqueIds(mid) by {
      forall i, j | 0 <= i < j < |mid| ensures mid[i].id != mid[j].id {
        assert mid[i] == state[if i < from then i else i + k] && mid[j] == state[if j < from then j else j + k];
      }
    }
    PerformAt(mid, from, "", id);
    assert mid[..from] + mid[from + 1..] == state[..from] + state[from + k + 1..];
  }

  // ----- the whole diff -----

  /** One new note before all the stored ones: nothing stands above it to anchor it to. */
  predicate Prepends(was: seq<string>, next: seq<string>) {
    was != [] && |next| == |was| + 1 && next[1..] == was && next[0] != was[0]
  }

  lemma UnanchoredExactly(was: seq<string>, next: seq<string>)
    ensures var p := PlanOf(was, next);
      Prepends(was, next) <==> p.tail > 0 && p.head + p.paired == 0 && |was| < |next|
  {
    var p := PlanOf(was, next);
    assert |next| == |was| + 1 && p.tail == |was| ==> (next[1..] == was <==> TailAgrees(was, next, |was|)) by {
      assert forall k :: 0 <= k < |was| && |next| == |was| + 1 ==> next[1..][k] == next[k + (|next| - |was|)];
    }
    if Prepends(was, next) && p.tail < |was| {
      PrependedTail(was, next, p.tail);
    }
  }

  lemma PrependedTail(was: seq<string>, next: seq<string>, t: nat)
    requires Prepends(was, next) && t < |was|
    ensures was[|was| - 1 - t] == next[|next| - 1 - t]
  {
    assert next[1..][|was| - 1 - t] == next[|next| - 1 - t];
  }

  /** The notes brought up to date, with `more` new ones in place. */
  function Grown(stored: seq<Note>, was: seq<string>, next: seq<string>, h: nat, k: nat, more: nat,
      newId: nat -> string): seq<Note>
    requires h + k <= |stored| == |was| && h + k + more <= |next|
  {
    var revised := Revised(stored, was, next, h, k);
    revised[..h + k] + NewNotes(next, h + k, more, newId, |Revisions(stored, was, next, h, k)|) + revised[h + k..]
  }

  /** The notes brought up to date, `gone` spare ones after `from` gone. */
  function Shrunk(revised: seq<Note>, from: nat, gone: nat): seq<Note>
    requires from + gone <= |revised|
  {
    revised[..from] + revised[from + gone..]
  }

  lemma RevisedKeepsIds(stored: seq<Note>, was: seq<string>, next: seq<string>, h: nat, k: nat)
    requires h + k <= |stored| == |was| && h + k <= |next|
    ensures forall i :: 0 <= i < |stored| ==> Revised(stored, was, next, h, k)[i].id == stored[i].id
    ensures UniqueIds(stored) ==> UniqueIds(Revised(stored, was, next, h, k))
  {
  }

  lemma NoEdits(stored: seq<Note>, next: seq<string>, from: nat, t: nat)
    requires from <= |stored|
    ensures from <= |next| ==> Additions(stored, next, from, t, 0) == []
    ensures Removals(stored, from, 0) == []
  {
  }

  lemma GrowingEdits(stored: seq<Note>, was: seq<string>, next: seq<string>, p: Plan, from: nat)
    requires |stored| == |was| <= |next| && from == p.head + p.paired && from + p.tail == |was|
    ensures EditsOf(stored, was, next, p) ==
      Revisions(stored, was, next, p.head, p.paired) + Additions(stored, next, from, p.tail, |next| - |was|)
  {
    NoEdits(stored, next, from, p.tail);
    assert |stored| - p.tail - from == 0 && |next| - p.tail - from == |next| - |was|;
  }

  lemma ShrinkingEdits(stored: seq<Note>, was: seq<string>, next: seq<string>, p: Plan, from: nat)
    requires |stored| == |was| >= |next| && from == p.head + p.paired && from + p.tail == |next|
    ensures EditsOf(stored, was, next, p) ==
      Revisions(stored, was, next, p.head, p.paired) + Removals(stored, from, |was| - |next|)
  {
    NoEdits(stored, next, from, p.tail);
    assert |next| - p.tail - from == 0 && |stored| - p.tail - from == |was| - |next|;
  }

  lemma ReplayAppended(stored: seq<Note>, was: seq<string>, next: seq<string>, p: Plan, more: nat, newId: nat -> string)
    requires UniqueIds(stored) && |was| == |stored| && |next| == |was| + more && p.tail == 0
    requires p.head + p.paired == |was|
    ensures LeadsTo(stored, EditsOf(stored, was, next, p), newId,
      Grown(stored, was, next, p.head, p.paired, more, newId))
  {
    var revised, done := Revised(stored, was, next, p.head, p.paired), Revisions(stored, was, next, p.head, p.paired);
    GrowingEdits(stored, was, next, p, |was|);
    ReplayRevisions(stored, was, next, p.head, p.paired, newId);
    ReplayAppends(stored, next, |was|, 0, more, done, revised, newId);
    AtTheEnd(revised, NewNotes(next, |was|, more, newId, |done|));
  }

  lemma AtTheEnd(notes: seq<Note>, more: seq<Note>)
    ensures notes[..|notes|] + more + notes[|notes|..] == notes + more
  {
  }

  lemma ReplayInserted(stored: seq<Note>, was: seq<string>, next: seq<string>, p: Plan, newId: nat -> string)
    requires UniqueIds(stored) && |was| == |stored| && |next| == |was| + 1 && p.tail > 0 && p.head + p.paired > 0
    requires p.head + p.paired + p.tail == |was|
    ensures LeadsTo(stored, EditsOf(stored, was, next, p), newId, Grown(stored, was, next, p.head, p.paired, 1, newId))
  {
    GrowingEdits(stored, was, next, p, p.head + p.paired);
    ReplayRevisions(stored, was, next, p.head, p.paired, newId);
    RevisedKeepsIds(stored, was, next, p.head, p.paired);
    ReplayInsert(stored, next, p.head + p.paired, p.tail, Revisions(stored, was, next, p.head, p.paired),
      Revised(stored, was, next, p.head, p.paired), newId);
  }

  lemma ReplayDropped(stored: seq<Note>, done: seq<Edit>, revised: seq<Note>, from: nat, gone: nat,
      newId: nat -> string)
    requires from + gone <= |stored| == |revised| && LeadsTo(stored, done, newId, revised)
    requires UniqueIds(revised) && forall i :: 0 <= i < |stored| ==> revised[i].id == stored[i].id
    ensures LeadsTo(stored, done + Removals(stored, from, gone), newId, Shrunk(revised, from, gone))
  {
    ReplayRemovals(stored, from, gone, done, revised, newId);
  }

  lemma ReplayShrunk(stored: seq<Note>, was: seq<string>, next: seq<string>, p: Plan, from: nat, gone: nat,
      newId: nat -> string)
    requires UniqueIds(stored) && |was| == |stored| == |next| + gone && from == p.head + p.paired
    requires from + p.tail == |next|
    ensures LeadsTo(stored, EditsOf(stored, was, next, p), newId,
      Shrunk(Revised(stored, was, next, p.head, p.paired), from, gone))
  {
    ReplayRevisions(stored, was, next, p.head, p.paired, newId);
    RevisedKeepsIds(stored, was, next, p.head, p.paired);
    ReplayDropped(stored, Revisions(stored, was, next, p.head, p.paired), Revised(stored, was, next, p.head, p.paired),
      from, gone, newId);
    ShrinkingEdits(stored, was, next, p, from);
  }

  ghost predicate AllTrimmed(next: seq<string>, trim: string -> string) {
    forall i :: 0 <= i < |next| ==> trim(next[i]) == next[i]
  }

  lemma TextsOfParts(a: seq<Note>, b: seq<Note>, trim: string -> string)
    ensures Texts(a + b, trim) == Texts(a, trim) + Texts(b, trim)
  {
  }

  /** Brought up to date, the head and the paired notes read as `next`, and the others are as stored. */
  lemma RevisedReads(stored: seq<Note>, was: seq<string>, next: seq<string>, h: nat, k: nat, trim: string -> string)
    requires was == Texts(stored, trim) && h + k <= |stored| && h + k <= |next| && AllTrimmed(next, trim)
    requires forall i :: 0 <= i < h ==> was[i] == next[i]
    ensures Texts(Revised(stored, was, next, h, k)[..h + k], trim) == next[..h + k]
    ensures Revised(stored, was, next, h, k)[h + k..] == stored[h + k..]
    ensures Revised(stored, was, next, h, k)[..h] == stored[..h]
  {
    var revised := Revised(stored, was, next, h, k);
    forall i | 0 <= i < h + k ensures trim(revised[i].markdown) == next[i] {
      assert was[i] == trim(stored[i].markdown) && (i >= h ==> revised[i] == Fix(stored[i], was[i], next[i]));
    }
  }

  lemma {:induction false} NewNotesRead(next: seq<string>, from: nat, k: nat, newId: nat -> string, first: nat,
      trim: string -> string)
    requires from + k <= |next| && AllTrimmed(next, trim)
    ensures Texts(NewNotes(next, from, k, newId, first), trim) == next[from..from + k]
  {
    if k > 0 {
      NewNotesRead(next, from, k - 1, newId, first, trim);
      var note := Note(newId(first + k - 1), next[from + k - 1]);
      TextsOfParts(NewNotes(next, from, k - 1, newId, first), [note], trim);
      assert Texts([note], trim) == [next[from + k - 1]];
      assert next[from..from + k] == next[from..from + k - 1] + [next[from + k - 1]];
    }
  }

  lemma TailReads(stored: seq<Note>, was: seq<string>, next: seq<string>, lo: nat, hi: nat, trim: string -> string)
    requires was == Texts(stored, trim) && lo <= |stored| && hi <= |next| && |stored| - lo == |next| - hi
    requires TailAgrees(was, next, |stored| - lo)
    ensures Texts(stored[lo..], trim) == next[hi..]
  {
    var kept := stored[lo..];
    forall i | 0 <= i < |kept| ensures next[hi..][i] == trim(kept[i].markdown) {
      assert was[lo + i] == next[lo + i + (|next| - |stored|)];
    }
  }

  /** `out` reads as `next`, and the notes matched at either end are the very same. */
  ghost predicate Reads(out: seq<Note>, stored: seq<Note>, next: seq<string>, p: Plan, trim: string -> string) {
    && Texts(out, trim) == next
    && p.head <= |stored| && p.tail <= |stored| && p.head + p.tail <= |out|
    && out[..p.head] == stored[..p.head] && out[|out| - p.tail..] == stored[|stored| - p.tail..]
  }

  lemma PartsRead(a: seq<Note>, b: seq<Note>, c: seq<Note>, next: seq<string>, from: nat, to: nat,
      trim: string -> string)
    requires from <= to <= |next|
    requires Texts(a, trim) == next[..from] && Texts(b, trim) == next[from..to] && Texts(c, trim) == next[to..]
    ensures Texts(a + b + c, trim) == next
  {
    TextsOfParts(a + b, c, trim);
    TextsOfParts(a, b, trim);
    assert next == next[..from] + next[from..to] + next[to..];
  }

  /** Three parts that read as `next`, the first starting with the head and the last being the tail. */
  lemma TogetherReads(a: seq<Note>, b: seq<Note>, c: seq<Note>, stored: seq<Note>, next: seq<string>, p: Plan,
      from: nat, to: nat, trim: string -> string)
    requires from <= to <= |next| && p.head <= from && p.head <= |stored| && p.tail <= |stored|
    requires stored[..p.head] <= a && c == stored[|stored| - p.tail..]
    requires Texts(a, trim) == next[..from] && Texts(b, trim) == next[from..to] && Texts(c, trim) == next[to..]
    ensures Reads(a + b + c, stored, next, p, trim)
  {
    PartsRead(a, b, c, next, from, to, trim);
    assert (a + b + c)[..p.head] == stored[..p.head] && (a + b + c)[|a + b + c| - p.tail..] == c;
  }

  /** The part up to `from` brought up to date, and the tail from `lo` in the one, `hi` in the other. */
  lemma PartsOf(stored: seq<Note>, was: seq<string>, next: seq<string>, p: Plan, from: nat, lo: nat, hi: nat,
      trim: string -> string)
    requires was == Texts(stored, trim) && Fits(was, next, p) && AllTrimmed(next, trim)
    requires from == p.head + p.paired && lo == |stored| - p.tail && hi == |next| - p.tail
    ensures Texts(Revised(stored, was, next, p.head, p.paired)[..from], trim) == next[..from]
    ensures stored[..p.head] <= Revised(stored, was, next, p.head, p.paired)[..from]
    ensures Revised(stored, was, next, p.head, p.paired)[from..] == stored[from..]
    ensures Texts(stored[lo..], trim) == next[hi..]
  {
    RevisedReads(stored, was, next, p.head, p.paired, trim);
    TailReads(stored, was, next, lo, hi, trim);
  }

  lemma GrownReads(stored: seq<Note>, was: seq<string>, next: seq<string>, p: Plan, from: nat, more: nat,
      newId: nat -> string, trim: string -> string)
    requires was == Texts(stored, trim) && Fits(was, next, p) && |next| == |stored| + more && AllTrimmed(next, trim)
    requires from == p.head + p.paired
    ensures Reads(Grown(stored, was, next, p.head, p.paired, more, newId), stored, next, p, trim)
  {
    var end: nat := from + more;
    assert from == |stored| - p.tail && end == |next| - p.tail;
    PartsOf(stored, was, next, p, from, from, end, trim);
    var first, revised :=
      |Revisions(stored, was, next, p.head, p.paired)|, Revised(stored, was, next, p.head, p.paired);
    NewNotesRead(next, from, more, newId, first, trim);
    GrownFromParts(stored, revised, NewNotes(next, from, more, newId, first), next, p, from, more, trim);
    GrownIs(stored, was, next, p.head, p.paired, more, newId, from, first, revised);
  }

  lemma GrownIs(stored: seq<Note>, was: seq<string>, next: seq<string>, h: nat, k: nat, more: nat, newId: nat -> string,
      from: nat, first: nat, revised: seq<Note>)
    requires h + k <= |stored| == |was| && h + k + more <= |next|
    requires from == h + k && first == |Revisions(stored, was, next, h, k)|
    requires revised == Revised(stored, was, next, h, k)
    ensures Grown(stored, was, next, h, k, more, newId) ==
      revised[..from] + NewNotes(next, from, more, newId, first) + revised[from..]
  {
  }

  lemma GrownFromParts(stored: seq<Note>, revised: seq<Note>, news: seq<Note>, next: seq<string>, p: Plan, from: nat,
      more: nat, trim: string -> string)
    requires |revised| == |stored| == from + p.tail && p.head <= from && |next| == from + more + p.tail
    requires Texts(revised[..from], trim) == next[..from] && Texts(news, trim) == next[from..from + more]
    requires stored[..p.head] <= revised[..from] && revised[from..] == stored[from..]
    requires Texts(stored[from..], trim) == next[from + more..]
    ensures Reads(revised[..from] + news + revised[from..], stored, next, p, trim)
  {
    ThreeRead(revised[..from], news, stored[from..], stored, next, p, from, from + more, trim);
  }

  lemma ThreeRead(a: seq<Note>, b: seq<Note>, c: seq<Note>, stored: seq<Note>, next: seq<string>, p: Plan, from: nat,
      to: nat, trim: string -> string)
    requires from <= to <= |next| && p.head <= from && from + p.tail == |stored|
    requires stored[..p.head] <= a && c == stored[from..]
    requires Texts(a, trim) == next[..from] && Texts(b, trim) == next[from..to] && Texts(c, trim) == next[to..]
    ensures Reads(a + b + c, stored, next, p, trim)
  {
    assert from == |stored| - p.tail;
    TogetherReads(a, b, c, stored, next, p, from, to, trim);
  }

  lemma BothRead(a: seq<Note>, c: seq<Note>, stored: seq<Note>, next: seq<string>, p: Plan, from: nat, lo: nat,
      trim: string -> string)
    requires from <= |next| && p.head <= from <= lo && lo + p.tail == |stored|
    requires stored[..p.head] <= a && c == stored[lo..]
    requires Texts(a, trim) == next[..from] && Texts(c, trim) == next[from..]
    ensures Reads(a + c, stored, next, p, trim)
  {
    assert a + [] == a && lo == |stored| - p.tail;
    TogetherReads(a, [], c, stored, next, p, from, from, trim);
  }

  lemma Dropped(a: seq<Note>, b: seq<Note>, from: nat, gone: nat)
    requires from + gone <= |a| == |b| && a[from..] == b[from..]
    ensures a[from + gone..] == b[from + gone..]
  {
    assert a[from + gone..] == a[from..][gone..] && b[from + gone..] == b[from..][gone..];
  }

  lemma ShrunkFromParts(stored: seq<Note>, revised: seq<Note>, next: seq<string>, p: Plan, from: nat, gone: nat,
      trim: string -> string)
    requires |revised| == |stored| == from + gone + p.tail && p.head <= from && |next| == from + p.tail
    requires Texts(revised[..from], trim) == next[..from]
    requires stored[..p.head] <= revised[..from] && revised[from..] == stored[from..]
    requires Texts(stored[from + gone..], trim) == next[from..]
    ensures Reads(Shrunk(revised, from, gone), stored, next, p, trim)
  {
    Dropped(revised, stored, from, gone);
    BothRead(revised[..from], stored[from + gone..], stored, next, p, from, from + gone, trim);
  }

  lemma ShrunkReads(stored: seq<Note>, was: seq<string>, next: seq<string>, p: Plan, from: nat, gone: nat,
      trim: string -> string)
    requires was == Texts(stored, trim) && Fits(was, next, p) && |stored| == |next| + gone && AllTrimmed(next, trim)
    requires from == p.head + p.paired
    ensures Reads(Shrunk(Revised(stored, was, next, p.head, p.paired), from, gone), stored, next, p, trim)
  {
    PartsOf(stored, was, next, p, from, from + gone, from, trim);
    ShrunkFromParts(stored, Revised(stored, was, next, p.head, p.paired), next, p, from, gone, trim);
  }

  // ----- the promises -----

  /** The one document the commands get wrong. For unique ids and trimmed notes the commands, carried
      out in order, all succeed; what comes out reads as `next`, and holds the matched notes at both
      ends unchanged, exactly unless one new note was put before all the stored ones. */
  lemma ReplayReadsExactly(stored: seq<Note>, next: seq<string>, newId: nat -> string, trim: string -> string)
    requires UniqueIds(stored) && AllTrimmed(next, trim)
    ensures var out := Replay(stored, Edits(stored, next, trim), newId);
      out.Some? && (Texts(out.value, trim) == next <==> !Prepends(Texts(stored, trim), next))
    ensures !Prepends(Texts(stored, trim), next) ==>
      Reads(Replay(stored, Edits(stored, next, trim), newId).value, stored, next, PlanOf(Texts(stored, trim), next),
        trim)
  {
    var was := Texts(stored, trim);
    if Prepends(was, next) {
      PrependedGoesLast(stored, next, newId, trim);
    } else {
      ReplayReads(stored, was, next, newId, trim);
    }
  }

  /** Some list of notes the edits lead to reads as `next`. */
  ghost predicate EndsWell(stored: seq<Note>, edits: seq<Edit>, next: seq<string>, p: Plan, newId: nat -> string,
      trim: string -> string)
  {
    var out := Replay(stored, edits, newId);
    out.Some? && Reads(out.value, stored, next, p, trim)
  }

  lemma LeadsWell(stored: seq<Note>, edits: seq<Edit>, out: seq<Note>, next: seq<string>, p: Plan,
      newId: nat -> string, trim: string -> string)
    requires LeadsTo(stored, edits, newId, out) && Reads(out, stored, next, p, trim)
    ensures EndsWell(stored, edits, next, p, newId, trim)
  {
  }

  lemma GrowingReads(stored: seq<Note>, was: seq<string>, next: seq<string>, p: Plan, more: nat, newId: nat -> string,
      trim: string -> string)
    requires UniqueIds(stored) && AllTrimmed(next, trim) && was == Texts(stored, trim) && Fits(was, next, p)
    requires |next| == |stored| + more && more > 0 && (p.tail == 0 || p.head + p.paired > 0)
    ensures EndsWell(stored, EditsOf(stored, was, next, p), next, p, newId, trim)
  {
    GrownReads(stored, was, next, p, p.head + p.paired, more, newId, trim);
    if p.tail == 0 {
      ReplayAppended(stored, was, next, p, more, newId);
    } else {
      ReplayInserted(stored, was, next, p, newId);
    }
    LeadsWell(stored, EditsOf(stored, was, next, p), Grown(stored, was, next, p.head, p.paired, more, newId), next, p,
      newId, trim);
  }

  lemma ShrinkingReads(stored: seq<Note>, was: seq<string>, next: seq<string>, p: Plan, gone: nat,
      newId: nat -> string, trim: string -> string)
    requires UniqueIds(stored) && AllTrimmed(next, trim) && was == Texts(stored, trim) && Fits(was, next, p)
    requires |stored| == |next| + gone
    ensures EndsWell(stored, EditsOf(stored, was, next, p), next, p, newId, trim)
  {
    var from := p.head + p.paired;
    var out := Shrunk(Revised(stored, was, next, p.head, p.paired), from, gone);
    assert Reads(out, stored, next, p, trim) by { ShrunkReads(stored, was, next, p, from, gone, trim); }
    assert LeadsTo(stored, EditsOf(stored, was, next, p), newId, out) by {
      ReplayShrunk(stored, was, next, p, from, gone, newId);
    }
    LeadsWell(stored, EditsOf(stored, was, next, p), out, next, p, newId, trim);
  }

  lemma ReplayReads(stored: seq<Note>, was: seq<string>, next: seq<string>, newId: nat -> string,
      trim: string -> string)
    requires UniqueIds(stored) && AllTrimmed(next, trim) && was == Texts(stored, trim) && !Prepends(was, next)
    ensures EndsWell(stored, EditsOf(stored, was, next, PlanOf(was, next)), next, PlanOf(was, next), newId, trim)
  {
    if |next| <= |stored| {
      ShrinkingReads(stored, was, next, PlanOf(was, next), |stored| - |next|, newId, trim);
    } else {
      UnanchoredExactly(was, next);
      GrowingReads(stored, was, next, PlanOf(was, next), |next| - |stored|, newId, trim);
    }
  }

  /** The new first note ends up last. */
  lemma PrependedGoesLast(stored: seq<Note>, next: seq<string>, newId: nat -> string, trim: string -> string)
    requires UniqueIds(stored) && AllTrimmed(next, trim) && Prepends(Texts(stored, trim), next)
    ensures Replay(stored, Edits(stored, next, trim), newId) == Some(stored + [Note(newId(0), next[0])])
    ensures Texts(stored + [Note(newId(0), next[0])], trim) != next
  {
    var was := Texts(stored, trim);
    var p := PlanOf(was, next);
    UnanchoredExactly(was, next);
    GrowingEdits(stored, was, next, p, 0);
    NothingYet(stored, newId);
    ReplayAppends(stored, next, 0, p.tail, 1, [], stored, newId);
    assert EditsOf(stored, was, next, p) == [] + Additions(stored, next, 0, p.tail, 1);
    assert NewNotes(next, 0, 0, newId, 0) == [] && NewNotes(next, 0, 1, newId, 0) == [Note(newId(0), next[0])];
    assert Texts(stored + [Note(newId(0), next[0])], trim)[0] == was[0];
  }

  lemma UnchangedIsQuiet(stored: seq<Note>, next: seq<string>, trim: string -> string)
    requires Texts(stored, trim) == next
    ensures Edits(stored, next, trim) == []
  {
    var was := Texts(stored, trim);
    var p := PlanOf(was, next);
    assert p.paired == 0;
    GrowingEdits(stored, was, next, p, p.head);
    assert Additions(stored, next, p.head, p.tail, 0) == [];
  }

  /** Nothing is sent exactly when nothing changed. */
  lemma QuietExactlyWhenUnchanged(stored: seq<Note>, next: seq<string>, newId: nat -> string, trim: string -> string)
    requires UniqueIds(stored) && AllTrimmed(next, trim)
    ensures Edits(stored, next, trim) == [] <==> Texts(stored, trim) == next
  {
    if Texts(stored, trim) == next {
      UnchangedIsQuiet(stored, next, trim);
    } else if Edits(stored, next, trim) == [] {
      ReplayReadsExactly(stored, next, newId, trim);
      if Prepends(Texts(stored, trim), next) {
        PrependedGoesLast(stored, next, newId, trim);
      }
    }
  }

  // ----- each stored note at most once -----

  function Touched(edit: Edit): Option<string> {
    match edit
    case Revise(id, _) => Some(id)
    case Remove(id) => Some(id)
    case Add(_, _) => None
  }

  /** The edits touch stored notes from `lo` up to `hi`, each at most once. */
  ghost predicate TouchesOnce(edits: seq<Edit>, stored: seq<Note>, lo: nat, hi: nat) {
    && (forall e :: 0 <= e < |edits| && Touched(edits[e]).Some? ==> TouchesWithin(edits[e], stored, lo, hi))
    && (forall d, e :: 0 <= d < e < |edits| && Touched(edits[d]).Some? ==> Touched(edits[d]) != Touched(edits[e]))
  }

  ghost predicate TouchesWithin(edit: Edit, stored: seq<Note>, lo: nat, hi: nat) {
    exists i :: lo <= i < hi && i < |stored| && Touched(edit) == Some(stored[i].id)
  }

  lemma TouchesOneMore(edits: seq<Edit>, stored: seq<Note>, lo: nat, hi: nat, edit: Edit)
    requires UniqueIds(stored) && TouchesOnce(edits, stored, lo, hi) && lo <= hi < |stored|
    requires Touched(edit) == Some(stored[hi].id)
    ensures TouchesOnce(edits + [edit], stored, lo, hi + 1)
  {
    var all := edits + [edit];
    forall e | 0 <= e < |edits| && Touched(edits[e]).Some?
      ensures TouchesWithin(edits[e], stored, lo, hi + 1) && Touched(edits[e]) != Touched(edit)
    {
      assert TouchesWithin(edits[e], stored, lo, hi);
    }
  }

  lemma {:induction false} RevisionsTouchOnce(stored: seq<Note>, was: seq<string>, next: seq<string>, h: nat, k: nat)
    requires UniqueIds(stored) && h + k <= |stored| == |was| && h + k <= |next|
    ensures TouchesOnce(Revisions(stored, was, next, h, k), stored, h, h + k)
  {
    if k > 0 {
      RevisionsTouchOnce(stored, was, next, h, k - 1);
      var before := Revisions(stored, was, next, h, k - 1);
      if was[h + k - 1] == next[h + k - 1] {
        forall e | 0 <= e < |before| && Touched(before[e]).Some? ensures TouchesWithin(before[e], stored, h, h + k) {
          assert TouchesWithin(before[e], stored, h, h + k - 1);
        }
      } else {
        TouchesOneMore(before, stored, h, h + k - 1, Revise(stored[h + k - 1].id, next[h + k - 1]));
      }
    }
  }

  lemma {:induction false} RemovalsTouchOnce(stored: seq<Note>, from: nat, k: nat)
    requires UniqueIds(stored) && from + k <= |stored|
    ensures TouchesOnce(Removals(stored, from, k), stored, from, from + k)
  {
    if k > 0 {
      RemovalsTouchOnce(stored, from, k - 1);
      TouchesOneMore(Removals(stored, from, k - 1), stored, from, from + k - 1, Remove(stored[from + k - 1].id));
    }
  }

  lemma {:induction false} AdditionsTouchNothing(stored: seq<Note>, next: seq<string>, from: nat, t: nat, k: nat)
    requires from + k <= |next| && from <= |stored|
    ensures forall e :: 0 <= e < |Additions(stored, next, from, t, k)| ==>
      Touched(Additions(stored, next, from, t, k)[e]) == None
  {
    if k > 0 {
      AdditionsTouchNothing(stored, next, from, t, k - 1);
    }
  }

  lemma PlanTouchesOnce(stored: seq<Note>, was: seq<string>, next: seq<string>, h: nat, k: nat, t: nat, more: nat,
      gone: nat)
    requires UniqueIds(stored) && |was| == |stored| == h + k + gone + t && |next| == h + k + more + t
    ensures TouchesOnce(EditsOf(stored, was, next, Plan(h, k, t)), stored, 0, |stored|)
  {
    RevisionsTouchOnce(stored, was, next, h, k);
    AdditionsTouchNothing(stored, next, h + k, t, more);
    RemovalsTouchOnce(stored, h + k, gone);
    TouchesApart(Revisions(stored, was, next, h, k), Additions(stored, next, h + k, t, more),
      Removals(stored, h + k, gone), stored, h, h + k, h + k + gone);
    assert |next| - t - (h + k) == more && |stored| - t - (h + k) == gone;
  }

  /** Each stored note is revised or removed at most once, and nothing but stored notes is. */
  lemma EachNoteOnce(stored: seq<Note>, next: seq<string>, trim: string -> string)
    requires UniqueIds(stored)
    ensures TouchesOnce(Edits(stored, next, trim), stored, 0, |stored|)
  {
    var was := Texts(stored, trim);
    var p := PlanOf(was, next);
    PlanTouchesOnce(stored, was, next, p.head, p.paired, p.tail, |next| - p.tail - p.head - p.paired,
      |stored| - p.tail - p.head - p.paired);
  }

  lemma TouchesApart(a: seq<Edit>, b: seq<Edit>, c: seq<Edit>, stored: seq<Note>, lo: nat, from: nat, hi: nat)
    requires UniqueIds(stored) && lo <= from <= hi <= |stored|
    requires TouchesOnce(a, stored, lo, from) && TouchesOnce(c, stored, from, hi)
    requires forall e :: 0 <= e < |b| ==> Touched(b[e]) == None
    ensures TouchesOnce(a + b + c, stored, 0, |stored|)
  {
    var all := a + b + c;
    forall e | 0 <= e < |all| && Touched(all[e]).Some? ensures TouchesWithin(all[e], stored, 0, |stored|) {
      assert if e < |a| then TouchesWithin(a[e], stored, lo, from)
        else TouchesWithin(c[e - |a| - |b|], stored, from, hi);
    }
    forall d, e | 0 <= d < |a| && 0 <= e < |c| && Touched(a[d]).Some? ensures Touched(a[d]) != Touched(c[e]) {
      assert TouchesWithin(a[d], stored, lo, from);
      assert Touched(c[e]).Some? ==> TouchesWithin(c[e], stored, from, hi);
    }
  }
}
