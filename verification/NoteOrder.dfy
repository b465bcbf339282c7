/** The notes of a recipe, oldest first. (scripts/import-recipes.ts:650-687) */
module NoteOrder {
  import opened Options
  import opened Recipe

  /** The rank of the date a note is headed by, if it is headed by one. */
  function Date(d: Draft): Option<nat> {
    if d.heading.Some? && d.heading.value.marks.heading.Some? then d.heading.value.marks.heading.value.iso else None
  }

  /** Neither a title nor a body. */
  predicate Blank(d: Draft) {
    && d.lines == [] && d.heading.Some? && d.heading.value.marks.heading.Some?
    && d.heading.value.marks.heading.value.blankTitle && !d.heading.value.marks.heading.value.inline
  }

  // ----- runs -----

  /** A run: a note and the undated ones that follow it. */
  ghost predicate IsRun(run: seq<Draft>) {
    run != [] && forall k :: 0 < k < |run| ==> Date(run[k]).None?
  }

  predicate Dated(run: seq<Draft>) {
    run != [] && Date(run[0]).Some?
  }

  function Placed(runs: seq<seq<Draft>>, d: Draft): seq<seq<Draft>> {
    if Date(d).Some? || runs == [] then runs + [[d]]
    else runs[..|runs| - 1] + [runs[|runs| - 1] + [d]]
  }

  function Runs(drafts: seq<Draft>): seq<seq<Draft>> {
    if drafts == [] then [] else Placed(Runs(drafts[..|drafts| - 1]), drafts[|drafts| - 1])
  }

  /** Runs as `Runs` makes them: only the first may have no date. */
  ghost predicate Proper(runs: seq<seq<Draft>>) {
    forall i :: 0 <= i < |runs| ==> IsRun(runs[i]) && (i > 0 ==> Dated(runs[i]))
  }

  lemma PlacedKeeps(runs: seq<seq<Draft>>, d: Draft)
    requires Proper(runs)
    ensures Proper(Placed(runs, d)) && Flat(Placed(runs, d)) == Flat(runs) + [d]
  {
    if Date(d).Some? || runs == [] {
      FlatSnoc(runs, [d]);
    } else {
      var init, last := runs[..|runs| - 1], runs[|runs| - 1];
      FlatSnoc(init, last + [d]);
      assert IsRun(last) && IsRun(last + [d]);
      assert Flat(init) + (last + [d]) == Flat(init) + last + [d];
    }
  }

  lemma {:induction false} RunsAreProper(drafts: seq<Draft>)
    ensures Proper(Runs(drafts)) && Flat(Runs(drafts)) == drafts
  {
    if drafts != [] {
      var init, last := drafts[..|drafts| - 1], drafts[|drafts| - 1];
      RunsAreProper(init);
      PlacedKeeps(Runs(init), last);
      assert init + [last] == drafts;
    }
  }

  lemma RunsSnoc(drafts: seq<Draft>, d: Draft)
    ensures Runs(drafts + [d]) == Placed(Runs(drafts), d)
  {
    assert (drafts + [d])[..|drafts|] == drafts;
  }

  /** A whole run placed note by note. */
  lemma {:induction false} RunPlaced(drafts: seq<Draft>, runs: seq<seq<Draft>>, run: seq<Draft>)
    requires Runs(drafts) == runs && IsRun(run) && (runs == [] || Dated(run))
    ensures Runs(drafts + run) == runs + [run]
  {
    var init, last := run[..|run| - 1], run[|run| - 1];
    assert init + [last] == run;
    if init == [] {
      assert run == [last];
      RunsSnoc(drafts, last);
    } else {
      assert IsRun(init);
      RunPlaced(drafts, runs, init);
      RunGrows(drafts, runs, init, last);
    }
  }

  lemma RunGrows(drafts: seq<Draft>, runs: seq<seq<Draft>>, run: seq<Draft>, d: Draft)
    requires Runs(drafts + run) == runs + [run] && Date(d).None?
    ensures Runs(drafts + (run + [d])) == runs + [run + [d]]
  {
    assert drafts + (run + [d]) == drafts + run + [d];
    RunsSnoc(drafts + run, d);
    PlacedOnLast(runs, run, d);
  }

  lemma PlacedOnLast(runs: seq<seq<Draft>>, run: seq<Draft>, d: Draft)
    requires Date(d).None?
    ensures Placed(runs + [run], d) == runs + [run + [d]]
  {
    assert (runs + [run])[..|runs|] == runs;
  }

  lemma {:induction false} RunsOfFlat(runs: seq<seq<Draft>>)
    requires Proper(runs)
    ensures Runs(Flat(runs)) == runs
  {
    if runs != [] {
      var init, last := runs[..|runs| - 1], runs[|runs| - 1];
      RunsOfFlat(init);
      assert IsRun(last) && (init != [] ==> Dated(last));
      RunPlaced(Flat(init), init, last);
      assert init + [last] == runs;
    }
  }

  // ----- sorting -----

  predicate Later(a: seq<Draft>, b: seq<Draft>) {
    Dated(a) && Dated(b) && Date(a[0]).value > Date(b[0]).value
  }

  /** `run` after every run not later than it. */
  function Insert(sorted: seq<seq<Draft>>, run: seq<Draft>): seq<seq<Draft>> {
    if sorted != [] && Later(sorted[|sorted| - 1], run)
    then Insert(sorted[..|sorted| - 1], run) + [sorted[|sorted| - 1]]
    else sorted + [run]
  }

  /** A stable sort by date, as `Array.prototype.sort` is since ECMAScript 2019. */
  function Sorted(runs: seq<seq<Draft>>): seq<seq<Draft>> {
    if runs == [] then [] else Insert(Sorted(runs[..|runs| - 1]), runs[|runs| - 1])
  }

  ghost predicate AllDated(runs: seq<seq<Draft>>) {
    forall i :: 0 <= i < |runs| ==> Dated(runs[i])
  }

  ghost predicate InOrder(runs: seq<seq<Draft>>) {
    forall i, j :: 0 <= i < j < |runs| ==> !Later(runs[i], runs[j])
  }

  lemma {:induction false} InsertHolds(sorted: seq<seq<Draft>>, run: seq<Draft>)
    ensures |Insert(sorted, run)| == |sorted| + 1
    ensures forall x :: x in Insert(sorted, run) ==> x == run || x in sorted
    ensures multiset(Flat(Insert(sorted, run))) == multiset(Flat(sorted)) + multiset(run)
  {
    if sorted != [] && Later(sorted[|sorted| - 1], run) {
      var init, last := sorted[..|sorted| - 1], sorted[|sorted| - 1];
      InsertHolds(init, run);
      FlatSnoc(Insert(init, run), last);
      assert multiset(Flat(init) + last) == multiset(Flat(init)) + multiset(last);
    } else {
      FlatSnoc(sorted, run);
    }
  }

  lemma {:induction false} InsertKeeps(sorted: seq<seq<Draft>>, run: seq<Draft>)
    requires AllDated(sorted) && InOrder(sorted) && Dated(run)
    ensures AllDated(Insert(sorted, run)) && InOrder(Insert(sorted, run))
  {
    if sorted != [] && Later(sorted[|sorted| - 1], run) {
      var init, last := sorted[..|sorted| - 1], sorted[|sorted| - 1];
      InsertKeeps(init, run);
      assert init + [last] == sorted;
      LastStaysLatest(init, last, run);
    } else {
      LastIsLatest(sorted, run);
    }
  }

  lemma LastStaysLatest(init: seq<seq<Draft>>, last: seq<Draft>, run: seq<Draft>)
    requires AllDated(init + [last]) && InOrder(init + [last]) && Dated(run) && Later(last, run)
    ensures forall i :: 0 <= i < |Insert(init, run)| ==> !Later(Insert(init, run)[i], last)
  {
    InsertHolds(init, run);
    var r := Insert(init, run);
    forall i | 0 <= i < |r| ensures !Later(r[i], last) {
      assert r[i] in r;
      if r[i] in init {
        var k :| 0 <= k < |init| && init[k] == r[i];
        assert !Later((init + [last])[k], (init + [last])[|init|]);
      }
    }
  }

  lemma LastIsLatest(sorted: seq<seq<Draft>>, run: seq<Draft>)
    requires AllDated(sorted) && InOrder(sorted) && Dated(run) && (sorted != [] ==> !Later(sorted[|sorted| - 1], run))
    ensures AllDated(sorted + [run]) && InOrder(sorted + [run])
  {
    forall i | 0 <= i < |sorted| ensures !Later(sorted[i], run) {
      assert i < |sorted| - 1 ==> !Later(sorted[i], sorted[|sorted| - 1]);
    }
  }

  lemma {:induction false} SortedKeeps(runs: seq<seq<Draft>>)
    requires AllDated(runs)
    ensures AllDated(Sorted(runs)) && InOrder(Sorted(runs)) && |Sorted(runs)| == |runs|
    ensures forall x :: x in Sorted(runs) ==> x in runs
    ensures multiset(Flat(Sorted(runs))) == multiset(Flat(runs))
  {
    if runs != [] {
      var init, last := runs[..|runs| - 1], runs[|runs| - 1];
      SortedKeeps(init);
      InsertKeeps(Sorted(init), last);
      InsertHolds(Sorted(init), last);
      assert multiset(Flat(init) + last) == multiset(Flat(init)) + multiset(last);
    }
  }

  /** The runs of one date, in order. */
  function OfDate(runs: seq<seq<Draft>>, date: nat): seq<seq<Draft>> {
    if runs == [] then []
    else
      var last := runs[|runs| - 1];
      if Dated(last) && Date(last[0]).value == date then OfDate(runs[..|runs| - 1], date) + [last]
      else OfDate(runs[..|runs| - 1], date)
  }

  lemma OfDateSnoc(runs: seq<seq<Draft>>, run: seq<Draft>, date: nat)
    ensures OfDate(runs + [run], date) ==
      if Dated(run) && Date(run[0]).value == date then OfDate(runs, date) + [run] else OfDate(runs, date)
  {
    assert (runs + [run])[..|runs|] == runs;
  }

  lemma {:induction false} InsertIsStable(sorted: seq<seq<Draft>>, run: seq<Draft>, date: nat)
    requires AllDated(sorted) && Dated(run)
    ensures OfDate(Insert(sorted, run), date) == OfDate(sorted + [run], date)
  {
    if sorted != [] && Later(sorted[|sorted| - 1], run) {
      var init, last := sorted[..|sorted| - 1], sorted[|sorted| - 1];
      InsertIsStable(init, run, date);
      OfDateSnoc(Insert(init, run), last, date);
      OfDateSnoc(init, run, date);
      OfDateSnoc(sorted, run, date);
    }
  }

  /** Runs of one date keep their order. */
  lemma {:induction false} SortIsStable(runs: seq<seq<Draft>>, date: nat)
    requires AllDated(runs)
    ensures OfDate(Sorted(runs), date) == OfDate(runs, date)
  {
    if runs != [] {
      var init, last := runs[..|runs| - 1], runs[|runs| - 1];
      SortIsStable(init, date);
      SortedKeeps(init);
      InsertIsStable(Sorted(init), last, date);
      OfDateSnoc(Sorted(init), last, date);
    }
  }

  lemma {:induction false} SortedWhenInOrder(runs: seq<seq<Draft>>)
    requires AllDated(runs) && InOrder(runs)
    ensures Sorted(runs) == runs
  {
    if runs != [] {
      var init, last := runs[..|runs| - 1], runs[|runs| - 1];
      SortedWhenInOrder(init);
      assert init == [] || !Later(init[|init| - 1], last);
      assert init + [last] == runs;
    }
  }

  // ----- the notes in order -----

  function Select(runs: seq<seq<Draft>>, dated: bool): seq<seq<Draft>> {
    if runs == [] then []
    else if Dated(runs[|runs| - 1]) == dated then Select(runs[..|runs| - 1], dated) + [runs[|runs| - 1]]
    else Select(runs[..|runs| - 1], dated)
  }

  /** Only the first run may be undated, so selecting takes the runs apart in order. */
  lemma {:induction false} SelectSplits(runs: seq<seq<Draft>>)
    requires Proper(runs)
    ensures Select(runs, false) + Select(runs, true) == runs
    ensures |Select(runs, false)| <= 1 && Proper(Select(runs, false)) && Proper(Select(runs, true))
    ensures AllDated(Select(runs, true))
    ensures AllDated(runs) ==> Select(runs, false) == []
  {
    if runs != [] {
      var init, last := runs[..|runs| - 1], runs[|runs| - 1];
      SelectSplits(init);
      assert init + [last] == runs && IsRun(last);
      if !Dated(last) {
        assert init == [];
      } else {
        assert Select(init, false) + (Select(init, true) + [last]) == Select(init, false) + Select(init, true) + [last];
      }
    }
  }

  /** The runs in their new order. */
  function Reordered(runs: seq<seq<Draft>>): seq<seq<Draft>> {
    Select(runs, false) + Sorted(Select(runs, true))
  }

  function Ordered(drafts: seq<Draft>): seq<Draft> {
    Flat(Reordered(Runs(drafts)))
  }

  lemma {:induction false} FlatConcat<T>(a: seq<seq<T>>, b: seq<seq<T>>)
    ensures Flat(a + b) == Flat(a) + Flat(b)
  {
    if b == [] {
      assert a + b == a;
    } else {
      var init, last := b[..|b| - 1], b[|b| - 1];
      FlatConcat(a, init);
      assert a + b == a + init + [last];
      FlatSnoc(a + init, last);
      assert Flat(a) + (Flat(init) + last) == Flat(a) + Flat(init) + last;
    }
  }

  lemma ReorderedIsProper(runs: seq<seq<Draft>>)
    requires Proper(runs)
    ensures Proper(Reordered(runs)) && Select(Reordered(runs), true) == Sorted(Select(runs, true))
    ensures Select(Reordered(runs), false) == Select(runs, false)
  {
    SelectSplits(runs);
    var first, dated := Select(runs, false), Sorted(Select(runs, true));
    SortedKeeps(Select(runs, true));
    forall i | 0 <= i < |dated| ensures IsRun(dated[i]) {
      assert dated[i] in dated;
      var k :| 0 <= k < |Select(runs, true)| && Select(runs, true)[k] == dated[i];
      assert IsRun(Select(runs, true)[k]);
    }
    assert Proper(first + dated) by {
      assert first != [] ==> IsRun(first[0]);
    }
    SelectUndated(runs);
    SelectJoined(first, dated);
  }

  lemma {:induction false} SelectUndated(runs: seq<seq<Draft>>)
    ensures forall i :: 0 <= i < |Select(runs, false)| ==> !Dated(Select(runs, false)[i])
  {
    if runs != [] {
      SelectUndated(runs[..|runs| - 1]);
    }
  }

  lemma {:induction false} SelectJoined(first: seq<seq<Draft>>, dated: seq<seq<Draft>>)
    requires AllDated(dated) && |first| <= 1
    requires forall i :: 0 <= i < |first| ==> !Dated(first[i])
    ensures Select(first + dated, false) == first && Select(first + dated, true) == dated
  {
    if dated == [] {
      assert first + dated == first;
      assert first != [] ==> Select(first[..0], true) == [] && first[..0] + [first[0]] == first;
    } else {
      var init, last := dated[..|dated| - 1], dated[|dated| - 1];
      SelectJoined(first, init);
      assert (first + dated)[..|first + dated| - 1] == first + init && init + [last] == dated;
    }
  }

  /** The notes come out rearranged, none lost, added or changed; dated runs are in order of date, those
      of one date as they were; and every run is together, so each undated note still stands behind
      the dated one it followed, and those before the first date still in front. */
  lemma NotesInOrder(drafts: seq<Draft>, date: nat)
    ensures multiset(Ordered(drafts)) == multiset(drafts)
    ensures Runs(Ordered(drafts)) == Reordered(Runs(drafts))
    ensures Select(Runs(Ordered(drafts)), false) == Select(Runs(drafts), false)
    ensures var dated := Select(Runs(Ordered(drafts)), true);
      InOrder(dated) && OfDate(dated, date) == OfDate(Select(Runs(drafts), true), date)
  {
    var runs := Runs(drafts);
    RunsAreProper(drafts);
    ReorderedIsProper(runs);
    RunsOfFlat(Reordered(runs));
    SelectSplits(runs);
    SortedKeeps(Select(runs, true));
    SortIsStable(Select(runs, true), date);
    OrderedHolds(Select(runs, false), Select(runs, true));
  }

  lemma OrderedHolds(first: seq<seq<Draft>>, dated: seq<seq<Draft>>)
    requires AllDated(dated)
    ensures multiset(Flat(first + Sorted(dated))) == multiset(Flat(first + dated))
  {
    FlatConcat(first, dated);
    FlatConcat(first, Sorted(dated));
    SortedKeeps(dated);
  }

  /** The order changes exactly when the dates were out of order, and a list once ordered stays so. */
  lemma ReorderedExactly(drafts: seq<Draft>)
    ensures Ordered(drafts) == drafts <==> InOrder(Select(Runs(drafts), true))
    ensures Ordered(Ordered(drafts)) == Ordered(drafts)
  {
    InOrderStays(drafts);
    InOrderStays(Ordered(drafts));
    NotesInOrder(drafts, 0);
  }

  lemma InOrderStays(drafts: seq<Draft>)
    ensures InOrder(Select(Runs(drafts), true)) ==> Ordered(drafts) == drafts
  {
    RunsAreProper(drafts);
    SelectSplits(Runs(drafts));
    if InOrder(Select(Runs(drafts), true)) {
      SortedWhenInOrder(Select(Runs(drafts), true));
    }
  }

  /** The notes to keep: those with a title or a body. */
  function NonBlank(drafts: seq<Draft>): seq<Draft> {
    if drafts == [] then []
    else if Blank(drafts[|drafts| - 1]) then NonBlank(drafts[..|drafts| - 1])
    else NonBlank(drafts[..|drafts| - 1]) + [drafts[|drafts| - 1]]
  }

  method GatherRuns(drafts: seq<Draft>) returns (runs: seq<seq<Draft>>)
    ensures runs == Runs(drafts)
  {
    runs := [];
    for i := 0 to |drafts|
      invariant runs == Runs(drafts[..i])
    {
      assert drafts[..i + 1][..i] == drafts[..i];
      if Date(drafts[i]).Some? || |runs| == 0 {
        runs := runs + [[drafts[i]]];
      } else {
        runs := runs[..|runs| - 1] + [runs[|runs| - 1] + [drafts[i]]];
      }
    }
    assert drafts[..|drafts|] == drafts;
  }

  /** The notes of the page, and the lines of the note on attached files after them. */
  method OrderNotes(drafts: seq<Draft>, embeds: seq<Line>, extraUrls: seq<Line>)
    returns (notes: seq<Draft>, attached: seq<Line>)
    ensures notes == NonBlank(Ordered(drafts)) && attached == embeds + extraUrls
  {
    var runs := GatherRuns(drafts);
    var ordered := Reordered(runs);
    notes := [];
    for i := 0 to |ordered|
      invariant notes == NonBlank(Flat(ordered[..i]))
    {
      assert ordered[..i + 1] == ordered[..i] + [ordered[i]];
      FlatSnoc(ordered[..i], ordered[i]);
      notes := KeepRun(notes, ordered[i], Flat(ordered[..i]));
    }
    assert ordered[..|ordered|] == ordered;
    attached := embeds + extraUrls;
  }

  method KeepRun(notes: seq<Draft>, run: seq<Draft>, ghost before: seq<Draft>) returns (kept: seq<Draft>)
    requires notes == NonBlank(before)
    ensures kept == NonBlank(before + run)
  {
    kept := notes;
    assert before + run[..0] == before;
    for i := 0 to |run|
      invariant kept == NonBlank(before + run[..i])
    {
      assert (before + run[..i + 1])[..|before| + i] == before + run[..i];
      if !Blank(run[i]) {
        kept := kept + [run[i]];
      }
    }
    assert run[..|run|] == run;
  }
}
