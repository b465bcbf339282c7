/** The commands that turn the stored notes into the edited document.
    (wiki-ui/lib/article-notes.ts:95-131, replayed as wiki-models/src/article/article-notes.ts:123-188) */
module NoteDiff {
  import opened Options

  datatype Note = Note(id: string, markdown: string)
  datatype Edit =
    | Revise(noteId: string, markdown: string)
    | Add(markdown: string, afterId: Option<string>)
    | Remove(noteId: string)

  ghost predicate UniqueIds(notes: seq<Note>) {
    forall i, j :: 0 <= i < j < |notes| ==> notes[i].id != notes[j].id
  }

  /** What the notes read, `trim` taking the white space off both ends of a string. */
  function Texts(notes: seq<Note>, trim: string -> string): (texts: seq<string>)
    ensures |texts| == |notes| && forall i :: 0 <= i < |notes| ==> texts[i] == trim(notes[i].markdown)
  {
    seq(|notes|, i requires 0 <= i < |notes| => trim(notes[i].markdown))
  }

  // ----- the commands -----

  /** Where the note `id` is; `|notes|` when there is none. */
  function NoteAt(notes: seq<Note>, id: string): (i: nat)
    ensures i <= |notes| && (i < |notes| ==> notes[i].id == id)
    ensures forall k :: 0 <= k < i ==> notes[k].id != id
  {
    if notes == [] || notes[0].id == id then 0 else NoteAt(notes[1..], id) + 1
  }

  /** One command on the notes list, `newId` naming a new note; a command on a missing note fails. */
  function Perform(notes: seq<Note>, edit: Edit, newId: string): Option<seq<Note>> {
    match edit
    case Revise(id, markdown) =>
      var i := NoteAt(notes, id);
      if i == |notes| then None else Some(notes[i := notes[i].(markdown := markdown)])
    case Add(markdown, None) => Some(notes + [Note(newId, markdown)])
    case Add(markdown, Some(id)) =>
      var i := NoteAt(notes, id);
      if i == |notes| then None else Some(notes[..i + 1] + [Note(newId, markdown)] + notes[i + 1..])
    case Remove(id) =>
      var i := NoteAt(notes, id);
      if i == |notes| then None else Some(notes[..i] + notes[i + 1..])
  }

  /** The commands in order; the first to fail stops them. */
  function Replay(notes: seq<Note>, edits: seq<Edit>, newId: nat -> string): Option<seq<Note>> {
    if edits == [] then Some(notes)
    else
      var before := Replay(notes, edits[..|edits| - 1], newId);
      if before.None? then None else Perform(before.value, edits[|edits| - 1], newId(|edits| - 1))
  }

  // ----- the diff -----

  /** How far both lists agree from the front, at least up to `h`. */
  function Head(was: seq<string>, next: seq<string>, h: nat): (r: nat)
    requires h <= |was| && h <= |next|
    ensures h <= r <= |was| && r <= |next|
    ensures forall i :: h <= i < r ==> was[i] == next[i]
    ensures r < |was| && r < |next| ==> was[r] != next[r]
    decreases |was| - h
  {
    if h < |was| && h < |next| && was[h] == next[h] then Head(was, next, h + 1) else h
  }

  ghost predicate TailAgrees(was: seq<string>, next: seq<string>, t: nat)
    requires t <= |was| && t <= |next|
  {
    forall k :: |was| - t <= k < |was| ==> was[k] == next[k + (|next| - |was|)]
  }

  /** How far both agree from the back, short of the first `h`, and at least up to `t`. */
  function Tail(was: seq<string>, next: seq<string>, h: nat, t: nat): (r: nat)
    requires h + t <= |was| && h + t <= |next|
    ensures t <= r && h + r <= |was| && h + r <= |next|
    ensures TailAgrees(was, next, t) ==> TailAgrees(was, next, r)
    ensures h + r < |was| && h + r < |next| ==> was[|was| - 1 - r] != next[|next| - 1 - r]
    decreases |was| - t
  {
    if h + t < |was| && h + t < |next| && was[|was| - 1 - t] == next[|next| - 1 - t] then Tail(was, next, h, t + 1)
    else t
  }

  /** What the diff does: `head` notes stay, `paired` are revised, `tail` stay, and in between notes
      are added or removed. No tail stays when more than one note is new, since only one can be anchored. */
  datatype Plan = Plan(head: nat, paired: nat, tail: nat)

  ghost predicate Fits(was: seq<string>, next: seq<string>, p: Plan) {
    && p.head + p.paired + p.tail == (if |was| <= |next| then |was| else |next|)
    && (|next| - |was| > 1 ==> p.tail == 0)
    && (forall i :: 0 <= i < p.head ==> was[i] == next[i])
    && TailAgrees(was, next, p.tail)
    && (p.paired > 0 ==> was[p.head] != next[p.head])
  }

  function PlanOf(was: seq<string>, next: seq<string>): (p: Plan)
    ensures Fits(was, next, p)
  {
    var h := Head(was, next, 0);
    var t := if |next| - |was| > 1 then 0 else Tail(was, next, h, 0);
    Plan(h, (if |was| <= |next| then |was| else |next|) - t - h, t)
  }

  /** Revisions of the first `k` notes after the head, which read `was`. */
  function Revisions(stored: seq<Note>, was: seq<string>, next: seq<string>, h: nat, k: nat): seq<Edit>
    requires h + k <= |stored| == |was| && h + k <= |next|
  {
    if k == 0 then []
    else if was[h + k - 1] == next[h + k - 1] then Revisions(stored, was, next, h, k - 1)
    else Revisions(stored, was, next, h, k - 1) + [Revise(stored[h + k - 1].id, next[h + k - 1])]
  }

  /** `k` notes of `next` added, from `from` on: appended, or inserted after the stored note before
      `from` when a tail was kept and there is one. */
  function Additions(stored: seq<Note>, next: seq<string>, from: nat, t: nat, k: nat): seq<Edit>
    requires from + k <= |next| && from <= |stored|
  {
    if k == 0 then []
    else Additions(stored, next, from, t, k - 1) +
         [Add(next[from + k - 1], if t > 0 && from > 0 then Some(stored[from - 1].id) else None)]
  }

  /** `k` stored notes removed, from `from` on. */
  function Removals(stored: seq<Note>, from: nat, k: nat): seq<Edit>
    requires from + k <= |stored|
  {
    if k == 0 then [] else Removals(stored, from, k - 1) + [Remove(stored[from + k - 1].id)]
  }

  function EditsOf(stored: seq<Note>, was: seq<string>, next: seq<string>, p: Plan): seq<Edit>
    requires p.head + p.paired + p.tail <= |stored| == |was| && p.head + p.paired + p.tail <= |next|
  {
    var from := p.head + p.paired;
    Revisions(stored, was, next, p.head, p.paired)
    + Additions(stored, next, from, p.tail, |next| - p.tail - from)
    + Removals(stored, from, |stored| - p.tail - from)
  }

  function Edits(stored: seq<Note>, next: seq<string>, trim: string -> string): seq<Edit> {
    EditsOf(stored, Texts(stored, trim), next, PlanOf(Texts(stored, trim), next))
  }

  method MatchHead(was: seq<string>, next: seq<string>) returns (head: nat)
    ensures head == Head(was, next, 0)
  {
    head := 0;
    while head < |was| && head < |next| && was[head] == next[head]
      invariant head <= |was| && head <= |next|
      invariant Head(was, next, 0) == Head(was, next, head)
    {
      head := head + 1;
    }
  }

  method MatchTail(was: seq<string>, next: seq<string>, head: nat) returns (tail: nat)
    requires head <= |was| && head <= |next|
    ensures tail == Tail(was, next, head, 0)
  {
    tail := 0;
    while tail < |was| - head && tail < |next| - head && was[|was| - 1 - tail] == next[|next| - 1 - tail]
      invariant head + tail <= |was| && head + tail <= |next|
      invariant Tail(was, next, head, 0) == Tail(was, next, head, tail)
    {
      tail := tail + 1;
    }
  }

  method Match(was: seq<string>, next: seq<string>) returns (p: Plan)
    ensures p == PlanOf(was, next)
  {
    var head := MatchHead(was, next);
    var tail := MatchTail(was, next, head);
    if |next| - |was| > 1 {
      tail := 0;
    }
    var before, after := |was| - head - tail, |next| - head - tail;
    p := Plan(head, if before <= after then before else after, tail);
  }

  method ReviseMiddle(stored: seq<Note>, was: seq<string>, next: seq<string>, head: nat, paired: nat)
    returns (edits: seq<Edit>)
    requires head + paired <= |stored| == |was| && head + paired <= |next|
    ensures edits == Revisions(stored, was, next, head, paired)
  {
    edits := [];
    for i := 0 to paired
      invariant edits == Revisions(stored, was, next, head, i)
    {
      if was[head + i] != next[head + i] {
        edits := edits + [Revise(stored[head + i].id, next[head + i])];
      }
    }
  }

  method AddMiddle(stored: seq<Note>, next: seq<string>, head: nat, was: nat, now: nat, tail: nat, paired: nat)
    returns (edits: seq<Edit>)
    requires head + was <= |stored| && head + now <= |next|
    requires paired <= was && paired <= now && (paired < now ==> paired == was)
    requires tail > 0 ==> now <= paired + 1
    ensures edits == Additions(stored, next, head + paired, tail, now - paired)
  {
    edits := [];
    for i := paired to now
      invariant edits == Additions(stored, next, head + paired, tail, i - paired)
    {
      var anchor := if i > 0 && i - 1 < was then Some(stored[head + i - 1].id)
        else if head > 0 then Some(stored[head - 1].id) else None;
      edits := edits + [Add(next[head + i], if tail > 0 then anchor else None)];
    }
  }

  method RemoveMiddle(stored: seq<Note>, from: nat, count: nat) returns (edits: seq<Edit>)
    requires from + count <= |stored|
    ensures edits == Removals(stored, from, count)
  {
    edits := [];
    for i := 0 to count
      invariant edits == Removals(stored, from, i)
    {
      edits := edits + [Remove(stored[from + i].id)];
    }
  }

  method Planned(stored: seq<Note>, texts: seq<string>, next: seq<string>, p: Plan) returns (edits: seq<Edit>)
    requires |texts| == |stored| && p.head + p.paired + p.tail == if |stored| <= |next| then |stored| else |next|
    requires |next| - |stored| > 1 ==> p.tail == 0
    ensures edits == EditsOf(stored, texts, next, p)
  {
    var from := p.head + p.paired;
    var was, now := |stored| - p.tail - p.head, |next| - p.tail - p.head;
    assert p.paired == if was <= now then was else now;
    assert |stored| - p.tail - from == was - p.paired && |next| - p.tail - from == now - p.paired;
    var revised := ReviseMiddle(stored, texts, next, p.head, p.paired);
    var added := AddMiddle(stored, next, p.head, was, now, p.tail, p.paired);
    var removed := RemoveMiddle(stored, from, was - p.paired);
    edits := revised + added + removed;
  }

  method DiffNotes(stored: seq<Note>, next: seq<string>, trim: string -> string) returns (edits: seq<Edit>)
    ensures edits == Edits(stored, next, trim)
  {
    var was := Texts(stored, trim);
    var p := Match(was, next);
    edits := Planned(stored, was, next, p);
  }
}
