/** Runs of the probe over one workspace: when it must raise the alarm, and when it must not. */
module PaceRuns {
  import opened Options
  import opened ServerProbe

  /** One round's look at the workspace. The tail's state is read at `snapAt`, the round is stamped
      `roundAt`, and the host's offset is read at `headAt`. */
  datatype Turn = Turn(ws: Status, head: HeadOutcome, snapAt: int, roundAt: int, headAt: int)

  /** The entry after the first `n` rounds since the last reset. */
  function After(turns: seq<Turn>, n: nat): Option<Entry>
    requires n <= |turns|
  {
    if n == 0 then None
    else Some(Paced(After(turns, n - 1), turns[n - 1].ws, turns[n - 1].head, turns[n - 1].roundAt))
  }

  function AlarmAt(turns: seq<Turn>, i: nat, stuckAfter: int): Option<Event>
    requires i < |turns|
  {
    Alarm(After(turns, i), turns[i].ws, turns[i].head, turns[i].roundAt, stuckAfter)
  }

  /** An entry is stamped with its round and never blames a later moment. */
  lemma {:induction false} EntriesLookBack(turns: seq<Turn>, n: nat)
    requires 0 < n <= |turns|
    requires forall i :: 0 < i < n ==> turns[i - 1].roundAt <= turns[i].roundAt
    ensures After(turns, n).value.probedAt == turns[n - 1].roundAt
    ensures turns[n - 1].head.Answered? ==> After(turns, n).value.offset == turns[n - 1].head.offset
    ensures turns[n - 1].head.Failed? ==> After(turns, n).value.offset == None
    ensures After(turns, n).value.behindSince.Some? ==> After(turns, n).value.behindSince.value <= turns[n - 1].roundAt
  {
    if n > 1 {
      EntriesLookBack(turns, n - 1);
    }
  }

  // ----- no false alarm -----

  /** How late things may be: gap between round stamps, snapshot, HEAD, and commit to reconcile. */
  datatype Bounds = Bounds(gap: int, snapshot: int, head: int, delay: int)

  /** Rounds run one after another within their bounds. */
  ghost predicate Sequential(turns: seq<Turn>, b: Bounds) {
    && (forall i :: 0 <= i < |turns| ==>
          turns[i].snapAt <= turns[i].roundAt <= turns[i].snapAt + b.snapshot
          && turns[i].roundAt <= turns[i].headAt <= turns[i].roundAt + b.head)
    && (forall i :: 0 < i < |turns| ==>
          turns[i - 1].headAt <= turns[i].snapAt && turns[i].roundAt <= turns[i - 1].roundAt + b.gap)
  }

  /** The host answers with its offset, which moves only when something is committed. */
  ghost predicate Truthful(turns: seq<Turn>, offsetAt: int -> Option<string>, committed: int -> bool) {
    && (forall i :: 0 <= i < |turns| && turns[i].head.Answered? ==> turns[i].head.offset == offsetAt(turns[i].headAt))
    && (forall a, c :: a <= c && offsetAt(a) != offsetAt(c) ==> exists t :: a < t <= c && committed(t))
  }

  /** A connected tail has reconciled every commit older than the delay. */
  ghost predicate KeepsPace(turns: seq<Turn>, committed: int -> bool, b: Bounds) {
    forall i, t :: 0 <= i < |turns| && turns[i].ws.connected && committed(t) && t + b.delay <= turns[i].snapAt ==>
      turns[i].ws.lastReconcileAt.Some? && turns[i].ws.lastReconcileAt.value >= t
  }

  /** Whatever the tracker blames is explained by a commit it saw within a round and a HEAD. */
  ghost predicate Explained(e: Option<Entry>, committed: int -> bool, b: Bounds) {
    e.Some? && e.value.behindSince.Some? ==>
      exists t :: committed(t) && e.value.behindSince.value <= t <= e.value.behindSince.value + b.gap + b.head
  }

  lemma {:induction false} BlameIsExplained(turns: seq<Turn>, offsetAt: int -> Option<string>,
      committed: int -> bool, b: Bounds, n: nat)
    requires n <= |turns| && Sequential(turns, b) && Truthful(turns, offsetAt, committed)
    ensures Explained(After(turns, n), committed, b)
  {
    if n > 0 {
      BlameIsExplained(turns, offsetAt, committed, b, n - 1);
      if n > 1 {
        MoveIsExplained(turns, offsetAt, committed, b, n - 1);
      }
      NewBlame(After(turns, n - 1), turns[n - 1], committed, b);
    }
  }

  /** A moved offset seen against this entry has a commit near the entry's stamp. */
  ghost predicate MoveExplained(e: Option<Entry>, t: Turn, committed: int -> bool, b: Bounds) {
    e.Some? && e.value.offset.Some? && t.head.Answered? && e.value.offset != t.head.offset ==>
      exists at :: committed(at) && e.value.probedAt <= at <= e.value.probedAt + b.gap + b.head
  }

  lemma NewBlame(e: Option<Entry>, t: Turn, committed: int -> bool, b: Bounds)
    requires Explained(e, committed, b) && MoveExplained(e, t, committed, b)
    ensures Explained(Some(Paced(e, t.ws, t.head, t.roundAt)), committed, b)
  {
  }

  lemma MoveIsExplained(turns: seq<Turn>, offsetAt: int -> Option<string>, committed: int -> bool, b: Bounds, n: nat)
    requires 0 < n < |turns| && Sequential(turns, b) && Truthful(turns, offsetAt, committed)
    ensures MoveExplained(After(turns, n), turns[n], committed, b)
  {
    RoundsAscend(turns, b);
    EntriesLookBack(turns, n);
    var before, now, e := turns[n - 1], turns[n], After(turns, n).value;
    if now.head.Answered? && e.offset.Some? && e.offset != now.head.offset {
      assert offsetAt(before.headAt) != offsetAt(now.headAt);
      var t :| before.headAt < t <= now.headAt && committed(t);
      assert e.probedAt <= t <= e.probedAt + b.gap + b.head;
    }
  }

  lemma RoundsAscend(turns: seq<Turn>, b: Bounds)
    requires Sequential(turns, b)
    ensures forall i :: 0 < i < |turns| ==> turns[i - 1].roundAt <= turns[i].roundAt
  {
  }

  /** A blame old enough for the alarm has a commit the tail had time to reconcile. */
  lemma OldBlameIsReconciled(e: Entry, turns: seq<Turn>, committed: int -> bool, b: Bounds, stuckAfter: int, i: nat)
    requires i < |turns| && turns[i].roundAt <= turns[i].snapAt + b.snapshot
    requires KeepsPace(turns, committed, b) && Explained(Some(e), committed, b)
    requires b.gap + b.snapshot + b.head + b.delay <= stuckAfter
    ensures turns[i].ws.connected && e.behindSince.Some? && turns[i].roundAt - e.behindSince.value >= stuckAfter ==>
      ReconciledSince(turns[i], e.behindSince.value)
  {
    if turns[i].ws.connected && e.behindSince.Some? && turns[i].roundAt - e.behindSince.value >= stuckAfter {
      var t :| committed(t) && e.behindSince.value <= t <= e.behindSince.value + b.gap + b.head;
      assert t + b.delay <= turns[i].snapAt;
    }
  }

  /** No false alarm: when a round gap, a snapshot, a HEAD and a reconcile fit in the threshold, a tail
      that keeps pace is never called wedged. */
  lemma NoFalseAlarm(turns: seq<Turn>, offsetAt: int -> Option<string>, committed: int -> bool, b: Bounds,
      stuckAfter: int, i: nat)
    requires i < |turns| && Sequential(turns, b) && Truthful(turns, offsetAt, committed)
    requires KeepsPace(turns, committed, b)
    requires b.gap + b.snapshot + b.head + b.delay <= stuckAfter
    ensures AlarmAt(turns, i, stuckAfter) == None
  {
    BlameIsExplained(turns, offsetAt, committed, b, i + 1);
    OldBlameIsReconciled(After(turns, i + 1).value, turns, committed, b, stuckAfter, i);
  }

  // ----- bounded detection -----

  /** The moment a moved offset is blamed on: the last round known level, or the standing blame. */
  function Anchor(e: Entry): int {
    if e.behindSince.Some? then e.behindSince.value else e.probedAt
  }

  ghost predicate Healthy(t: Turn) {
    t.head.Answered? && t.ws.connected
  }

  predicate ReconciledSince(t: Turn, at: int) {
    t.ws.lastReconcileAt.Some? && t.ws.lastReconcileAt.value >= at
  }

  /** A moved offset arms the tracker exactly when no reconcile is stamped since the anchor. */
  lemma MoveArmsExactly(turns: seq<Turn>, i: nat)
    requires i < |turns| && Healthy(turns[i])
    requires var e := After(turns, i); e.Some? && e.value.offset.Some? && e.value.offset != turns[i].head.offset
    ensures var e, e' := After(turns, i).value, After(turns, i + 1).value;
      && (e'.behindSince.Some? <==> !ReconciledSince(turns[i], Anchor(e)))
      && (e'.behindSince.Some? ==> e'.behindSince == Some(Anchor(e)))
  {
  }

  /** From the move at `i` to the round `j` the host answers and the tail is connected. */
  ghost predicate MovedAt(turns: seq<Turn>, i: nat, j: nat) {
    && i <= j < |turns|
    && (forall k :: i <= k <= j ==> Healthy(turns[k]))
    && After(turns, i).Some? && After(turns, i).value.offset.Some?
    && After(turns, i).value.offset != turns[i].head.offset
  }

  /** After the move the offset stands still. */
  ghost predicate OneMove(turns: seq<Turn>, i: nat, j: nat) {
    MovedAt(turns, i, j) && forall k :: i <= k <= j ==> turns[k].head.offset == turns[i].head.offset
  }

  /** Some round from the move on shows a reconcile stamped since the anchor. */
  ghost predicate Answers(turns: seq<Turn>, i: nat, j: nat)
    requires MovedAt(turns, i, j)
  {
    exists k :: i <= k <= j && ReconciledSince(turns[k], Anchor(After(turns, i).value))
  }

  /** After one move the blame stands at the anchor until the first such round, and never comes back. */
  lemma {:induction false} BlameExactly(turns: seq<Turn>, i: nat, j: nat)
    requires OneMove(turns, i, j)
    ensures After(turns, j + 1).value.offset == turns[i].head.offset
    ensures After(turns, j + 1).value.behindSince ==
      if Answers(turns, i, j) then None else Some(Anchor(After(turns, i).value))
  {
    if i == j {
      MoveArmsExactly(turns, i);
    } else {
      BlameExactly(turns, i, j - 1);
      AnswersStep(turns, i, j);
    }
  }

  lemma AnswersStep(turns: seq<Turn>, i: nat, j: nat)
    requires MovedAt(turns, i, j) && i < j && MovedAt(turns, i, j - 1)
    ensures Answers(turns, i, j) <==>
      Answers(turns, i, j - 1) || ReconciledSince(turns[j], Anchor(After(turns, i).value))
  {
  }

  /** Exact detection: over rounds in which the offset moved once, at the first, the alarm is raised at a
      round the threshold after the anchor if and only if no round so far shows a reconcile since then. */
  lemma AlarmExactly(turns: seq<Turn>, i: nat, j: nat, stuckAfter: int)
    requires OneMove(turns, i, j)
    requires turns[j].roundAt - Anchor(After(turns, i).value) >= stuckAfter
    ensures AlarmAt(turns, j, stuckAfter) ==
      if Answers(turns, i, j) then None
      else Some(Wedged(turns[j].ws.workspaceId, Anchor(After(turns, i).value)))
    ensures StuckAt(After(turns, j + 1), turns[j].roundAt, stuckAfter) <==> !Answers(turns, i, j)
  {
    BlameExactly(turns, i, j);
  }

  /** For a tail whose stamp stands still as well, the first snapshot decides. */
  lemma StillTailAlarmExactly(turns: seq<Turn>, i: nat, j: nat, stuckAfter: int)
    requires OneMove(turns, i, j)
    requires forall k :: i <= k <= j ==> turns[k].ws.lastReconcileAt == turns[i].ws.lastReconcileAt
    requires turns[j].roundAt - Anchor(After(turns, i).value) >= stuckAfter
    ensures AlarmAt(turns, j, stuckAfter).Some? <==> !ReconciledSince(turns[i], Anchor(After(turns, i).value))
  {
    AlarmExactly(turns, i, j, stuckAfter);
  }

  /** Bounded detection: once the offset has moved past a tail that does not reconcile, every later
      round at least the threshold after the anchor raises the alarm. */
  lemma {:induction false} WedgeIsDetected(turns: seq<Turn>, i: nat, j: nat, stuckAfter: int)
    requires i <= j < |turns| && turns[i].head.Answered?
    requires var e := After(turns, i); e.Some? && e.value.offset.Some? && e.value.offset != turns[i].head.offset
    requires forall k :: i <= k <= j ==> Healthy(turns[k]) && !ReconciledSince(turns[k], Anchor(After(turns, i).value))
    ensures After(turns, j + 1).value.behindSince == Some(Anchor(After(turns, i).value))
    ensures turns[j].roundAt - Anchor(After(turns, i).value) >= stuckAfter ==>
      AlarmAt(turns, j, stuckAfter) == Some(Wedged(turns[j].ws.workspaceId, Anchor(After(turns, i).value)))
  {
    if j == i {
      MoveArmsExactly(turns, i);
    } else {
      WedgeIsDetected(turns, i, j - 1, stuckAfter);
    }
  }

  /** A move at `i` blamed on `at`, and unanswered up to round `j`. */
  ghost predicate Unanswered(turns: seq<Turn>, i: nat, j: nat, at: int) {
    MovedAt(turns, i, j) && at == Anchor(After(turns, i).value) && !Answers(turns, i, j)
  }

  /** In every run: something is blamed after a round exactly when some move is unanswered so far. */
  lemma {:induction false} BlamedExactly(turns: seq<Turn>, j: nat, at: int)
    requires j < |turns|
    ensures After(turns, j + 1).value.behindSince == Some(at) <==> exists i :: Unanswered(turns, i, j, at)
  {
    if i :| Unanswered(turns, i, j, at) {
      WedgeIsDetected(turns, i, j, 0);
    }
    if After(turns, j + 1).value.behindSince == Some(at) {
      var e := After(turns, j);
      if e.Some? && e.value.behindSince.Some? {
        BlamedExactly(turns, j - 1, at);
        var i :| Unanswered(turns, i, j - 1, at);
        AnswersStep(turns, i, j);
        assert Unanswered(turns, i, j, at);
      } else {
        assert Unanswered(turns, j, j, at);
      }
    }
  }

  /** In every run, whatever moves and reconciles it holds: a round raises the alarm if and only if it is
      healthy and some move, blamed at least the threshold ago, is unanswered so far. */
  lemma EveryAlarmExactly(turns: seq<Turn>, j: nat, stuckAfter: int)
    requires j < |turns|
    ensures AlarmAt(turns, j, stuckAfter).Some? <==>
      exists i, at :: Unanswered(turns, i, j, at) && turns[j].roundAt - at >= stuckAfter
  {
    var blame := After(turns, j + 1).value.behindSince;
    if blame.Some? {
      BlamedExactly(turns, j, blame.value);
    }
    forall i, at | Unanswered(turns, i, j, at) ensures blame == Some(at) && Healthy(turns[j]) {
      BlamedExactly(turns, j, at);
    }
  }

  /** From a level round, with no reconcile stamped at or after it, the alarm is due within the
      threshold of that round. */
  lemma LevelRoundDetects(turns: seq<Turn>, i: nat, j: nat, stuckAfter: int, now: int)
    requires 0 < i <= j < |turns|
    requires forall k :: 0 < k < |turns| ==> turns[k - 1].roundAt <= turns[k].roundAt
    requires turns[i - 1].head.Answered? && turns[i].head.Answered? && turns[i - 1].head.offset.Some?
    requires turns[i - 1].head.offset != turns[i].head.offset
    requires After(turns, i).value.behindSince.None?
    requires forall k :: i <= k <= j ==> Healthy(turns[k]) && !ReconciledSince(turns[k], turns[i - 1].roundAt)
    requires turns[j].roundAt >= turns[i - 1].roundAt + stuckAfter
    ensures AlarmAt(turns, j, stuckAfter).Some?
    ensures now >= turns[j].roundAt ==> StuckAt(After(turns, j + 1), now, stuckAfter)
  {
    EntriesLookBack(turns, i);
    WedgeIsDetected(turns, i, j, stuckAfter);
  }

  /** Without the level round the promise fails. The offset moves twice; the reconcile at 25 answers
      for the first move but was not yet in the second snapshot, so the third round forgives both
      moves at once, and a tail dead since then is never reported. */
  lemma SecondMoveIsForgiven(ws: Status, start: int, later: seq<Turn>, stuckAfter: int, j: nat)
    requires ws.connected && ws.lastReconcileAt == Some(start) && start < 0
    requires forall k :: 0 <= k < |later| ==>
      later[k].ws == ws.(lastReconcileAt := Some(25)) && later[k].head == Answered(Some("c"))
    requires j < |later|
    ensures var turns := TwoMoves(ws) + later;
      && turns[1].head.offset != turns[2].head.offset
      && (forall k :: 1 <= k < |turns| ==> Healthy(turns[k]) && !ReconciledSince(turns[k], turns[1].roundAt))
      && AlarmAt(turns, j + 3, stuckAfter) == None
  {
    ForgivenStays(TwoMoves(ws) + later, later, j);
  }

  /** Rounds at 0, 30 and 60. The tail reconciles at 25, after the second round's snapshot. */
  function TwoMoves(ws: Status): seq<Turn> {
    [Turn(ws, Answered(Some("a")), 0, 0, 0),
     Turn(ws, Answered(Some("b")), 24, 30, 31),
     Turn(ws.(lastReconcileAt := Some(25)), Answered(Some("c")), 60, 60, 61)]
  }

  lemma {:induction false} ForgivenStays(turns: seq<Turn>, later: seq<Turn>, j: nat)
    requires |turns| == |later| + 3 && turns[3..] == later && j < |later|
    requires forall k :: 0 <= k < 2 ==>
      turns[k].ws.connected && turns[k].ws.lastReconcileAt.Some? && turns[k].ws.lastReconcileAt.value < 0
    requires turns[2].ws.connected && turns[2].ws.lastReconcileAt == Some(25)
    requires turns[0].head == Answered(Some("a"))
    requires turns[1].head == Answered(Some("b")) && turns[2].head == Answered(Some("c"))
    requires turns[0].roundAt == 0
    requires forall k :: 0 <= k < |later| ==> Healthy(later[k]) && later[k].head.offset == Some("c")
    ensures After(turns, j + 4).value.behindSince == None && After(turns, j + 4).value.offset == Some("c")
  {
    assert turns[3 + j] == later[j];
    if j == 0 {
      assert After(turns, 1) == Some(Entry(Some("a"), None, 0));
      assert "a" != "b" && "b" != "c";
      assert After(turns, 2).value.behindSince == Some(0);
      assert After(turns, 3).value.behindSince == None && After(turns, 3).value.offset == Some("c");
    } else {
      ForgivenStays(turns, later, j - 1);
    }
  }
}
