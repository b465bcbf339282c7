/** The tail loop of one workspace (wiki-mirror/src/mirror.ts:49-161): each reconcile is the step
    `MirrorRuns` reasons about. */
module Mirror {
  import opened Options
  import opened Forest
  import opened Projection
  import opened Projector
  import opened MirrorRuns

  class WorkspaceMirror {
    const sink: MarkdownDiskProjector
    var stopped: bool
    var lastReconcileAt: Option<int>
    var lastReconcileError: Option<Outcome>
    var subtreeTitle: Option<string>

    constructor (sink: MarkdownDiskProjector)
      ensures this.sink == sink && !stopped
      ensures lastReconcileAt == None && lastReconcileError == None && subtreeTitle == None
    {
      this.sink := sink;
      stopped, lastReconcileAt, lastReconcileError, subtreeTitle := false, None, None, None;
    }

    /** The run state this mirror is in, over the given history. */
    function Seen(history: seq<Render>): World
      reads this, sink, sink.folder
    {
      World(history, sink.folder.disk, sink.folder.persisted, Some(sink.manifest))
    }

    function Here(): Setting
      reads this, sink
    {
      Setting(sink.scope, sink.attachments)
    }

    /** Rebuilds to the head, or refuses because the subtree root is gone. */
    method RebuildHead(history: seq<Render>) returns (outcome: Outcome)
      requires history != [] && ValidFold(history[|history| - 1].fold) && !AlreadyCurrent(Seen(history))
      modifies sink`manifest, sink.folder
      ensures Seen(history) == Reconciled(old(Seen(history)), Here())
      ensures outcome == Done <==> !ScopeGone(history[|history| - 1].fold, sink.scope)
    {
      outcome := sink.Rebuild(|history|, history[|history| - 1]);
    }

    /** Brings the mirror to the head of the history, unless it is there already or the subtree root
        is gone. A scoped mirror folds once more to learn its title. */
    method ReconcileOnce(history: seq<Render>) returns (outcome: Outcome)
      requires forall r :: r in history ==> ValidFold(r.fold)
      modifies this`subtreeTitle, sink`manifest, sink.folder
      ensures Seen(history) == Reconciled(old(Seen(history)), Here())
      ensures outcome == Done <==>
        history == [] || old(AlreadyCurrent(Seen(history))) || !ScopeGone(history[|history| - 1].fold, sink.scope)
      ensures subtreeTitle ==
        if history != [] && sink.scope.Some? && sink.scope.value in history[|history| - 1].fold.pages
           && !(old(AlreadyCurrent(Seen(history))) && old(subtreeTitle).Some?)
        then Some(history[|history| - 1].fold.pages[sink.scope.value].title) else old(subtreeTitle)
    {
      if |history| == 0 { return Done; }
      var head, scope := |history|, sink.scope;
      var current := sink.AppliedVersion() >= head;
      if current && (scope.None? || subtreeTitle.Some?) { return Done; }
      var r := history[head - 1];
      if scope.Some? && scope.value in r.fold.pages {
        subtreeTitle := Some(r.fold.pages[scope.value].title);
      }
      if current { return Done; }
      outcome := RebuildHead(history);
    }

    /** One reconcile with its outcome recorded. */
    method Reconcile(history: seq<Render>, now: int) returns (outcome: Outcome)
      requires forall r :: r in history ==> ValidFold(r.fold)
      modifies this, sink`manifest, sink.folder
      ensures Seen(history) == Reconciled(old(Seen(history)), Here())
      ensures lastReconcileAt == (if outcome == Done then Some(now) else old(lastReconcileAt))
      ensures lastReconcileError == (if outcome == Done then None else Some(outcome))
      ensures stopped == old(stopped)
    {
      outcome := ReconcileOnce(history);
      if outcome == Done {
        lastReconcileAt, lastReconcileError := Some(now), None;
      } else {
        lastReconcileError := Some(outcome);
      }
    }

    /** The live-tail trigger: nothing once stopped. */
    method Kick(history: seq<Render>, now: int)
      requires forall r :: r in history ==> ValidFold(r.fold)
      modifies this, sink`manifest, sink.folder
      ensures Seen(history) == if old(stopped) then old(Seen(history)) else Reconciled(old(Seen(history)), Here())
      ensures old(stopped) ==> lastReconcileAt == old(lastReconcileAt) && lastReconcileError == old(lastReconcileError)
    {
      if stopped { return; }
      var _ := Reconcile(history, now);
    }
  }
}
