/** The liveness probe: does each tail keep pace with the stream host?
    (wiki-mirror/src/server-probe.ts:139-287) */
module ServerProbe {
  import opened Options

  datatype Status = Status(workspaceId: string, connected: bool, lastReconcileAt: Option<int>)
  datatype Failure = Unauthorized | Unreachable | HostError
  datatype HeadOutcome = Answered(offset: Option<string>) | Failed(why: Failure)
  datatype Entry = Entry(offset: Option<string>, behindSince: Option<int>, probedAt: int)
  datatype Event = Recovered | Wedged(workspaceId: string, behindSince: int)

  // ----- one entry per workspace -----

  function Earlier(a: Option<int>, b: Option<int>): Option<int> {
    if a.None? || b.None? then None else Some(if b.value < a.value then b.value else a.value)
  }

  /** Two entries of one workspace, merged. */
  function Merge(prev: Status, ws: Status): Status {
    prev.(connected := prev.connected || ws.connected,
          lastReconcileAt :=
            if prev.connected && ws.connected then Earlier(prev.lastReconcileAt, ws.lastReconcileAt)
            else if prev.connected then prev.lastReconcileAt
            else if ws.connected then ws.lastReconcileAt
            else None)
  }

  /** `m` sums up the entries of its workspace: connected when any is, and then as current as the
      least recently reconciled connected one, a connected entry that never reconciled being least. */
  ghost predicate SumsUp(m: Status, entries: seq<Status>) {
    && (m.connected <==> exists e :: e in entries && e.workspaceId == m.workspaceId && e.connected)
    && (m.connected ==>
          && (forall e :: e in entries && e.workspaceId == m.workspaceId && e.connected && m.lastReconcileAt.Some? ==>
                e.lastReconcileAt.Some? && m.lastReconcileAt.value <= e.lastReconcileAt.value)
          && (exists e :: e in entries
                && e.workspaceId == m.workspaceId && e.connected && e.lastReconcileAt == m.lastReconcileAt))
  }

  lemma MergeSumsUp(prev: Status, entries: seq<Status>, ws: Status)
    requires SumsUp(prev, entries) && ws.workspaceId == prev.workspaceId
    ensures SumsUp(Merge(prev, ws), entries + [ws])
  {
    var m, all := Merge(prev, ws), entries + [ws];
    assert ws in all;
    assert forall e :: e in all <==> e in entries || e == ws;
    if prev.connected {
      var e :|
        e in entries && e.workspaceId == prev.workspaceId && e.connected && e.lastReconcileAt == prev.lastReconcileAt;
      assert e in all;
    }
  }

  lemma OtherSumsUp(m: Status, entries: seq<Status>, ws: Status)
    requires SumsUp(m, entries) && ws.workspaceId != m.workspaceId
    ensures SumsUp(m, entries + [ws])
  {
    var all := entries + [ws];
    assert forall e :: e in all <==> e in entries || e == ws;
    if m.connected {
      var e :| e in entries && e.workspaceId == m.workspaceId && e.connected && e.lastReconcileAt == m.lastReconcileAt;
      assert e in all;
    }
  }

  /** The merge has no say in the matter: any two summaries of the same entries agree on pace,
      whatever order the entries came in. */
  lemma SummaryIsOrderFree(a: Status, b: Status, es: seq<Status>, fs: seq<Status>)
    requires SumsUp(a, es) && SumsUp(b, fs) && a.workspaceId == b.workspaceId
    requires forall e :: e in es <==> e in fs
    ensures a.connected == b.connected && (a.connected ==> a.lastReconcileAt == b.lastReconcileAt)
  {
  }

  ghost predicate OncePerWorkspace(ms: seq<Status>) {
    forall i, j :: 0 <= i < j < |ms| ==> ms[i].workspaceId != ms[j].workspaceId
  }

  ghost predicate Mentions(es: seq<Status>, id: string) {
    exists k :: 0 <= k < |es| && es[k].workspaceId == id
  }

  /** One summary for each workspace mentioned, and none besides. */
  ghost predicate Summary(merged: seq<Status>, entries: seq<Status>) {
    && OncePerWorkspace(merged)
    && (forall k :: 0 <= k < |merged| ==> SumsUp(merged[k], entries))
    && (forall id :: Mentions(merged, id) <==> Mentions(entries, id))
  }

  lemma MentionsSnoc(es: seq<Status>, ws: Status, id: string)
    ensures Mentions(es + [ws], id) <==> Mentions(es, id) || ws.workspaceId == id
  {
    assert (es + [ws])[|es|] == ws;
    if k :| 0 <= k < |es| && es[k].workspaceId == id {
      assert (es + [ws])[k] == es[k];
    }
  }

  lemma NewWorkspace(merged: seq<Status>, entries: seq<Status>, ws: Status)
    requires Summary(merged, entries) && !Mentions(merged, ws.workspaceId)
    ensures Summary(merged + [ws], entries + [ws])
  {
    assert ws in entries + [ws];
    forall e | e in entries ensures e.workspaceId != ws.workspaceId {
      var k :| 0 <= k < |entries| && entries[k] == e;
      assert !Mentions(entries, ws.workspaceId);
    }
    forall j | 0 <= j < |merged| ensures SumsUp(merged[j], entries + [ws]) && merged[j].workspaceId != ws.workspaceId {
      OtherSumsUp(merged[j], entries, ws);
    }
    forall id ensures Mentions(merged + [ws], id) <==> Mentions(entries + [ws], id) {
      MentionsSnoc(merged, ws, id);
      MentionsSnoc(entries, ws, id);
    }
  }

  lemma KnownWorkspace(merged: seq<Status>, entries: seq<Status>, ws: Status, k: nat)
    requires Summary(merged, entries) && k < |merged| && merged[k].workspaceId == ws.workspaceId
    ensures Summary(merged[k := Merge(merged[k], ws)], entries + [ws])
  {
    var after := merged[k := Merge(merged[k], ws)];
    MergeSumsUp(merged[k], entries, ws);
    forall j | 0 <= j < |merged| && j != k ensures SumsUp(after[j], entries + [ws]) {
      assert merged[j].workspaceId != merged[k].workspaceId;
      OtherSumsUp(merged[j], entries, ws);
    }
    forall id ensures Mentions(after, id) <==> Mentions(entries + [ws], id) {
      MentionsSnoc(entries, ws, id);
      assert forall j :: 0 <= j < |merged| ==> after[j].workspaceId == merged[j].workspaceId;
      assert Mentions(after, id) <==> Mentions(merged, id);
      assert ws.workspaceId == id ==> Mentions(merged, id);
    }
  }

  /** One merged entry per workspace mentioned, in order of first mention. */
  method PerWorkspace(entries: seq<Status>) returns (merged: seq<Status>)
    ensures Summary(merged, entries)
  {
    merged := [];
    for i := 0 to |entries|
      invariant Summary(merged, entries[..i])
    {
      var ws := entries[i];
      assert entries[..i + 1] == entries[..i] + [ws];
      var k := 0;
      while k < |merged| && merged[k].workspaceId != ws.workspaceId
        invariant 0 <= k <= |merged|
        invariant forall j :: 0 <= j < k ==> merged[j].workspaceId != ws.workspaceId
      {
        k := k + 1;
      }
      if k == |merged| {
        NewWorkspace(merged, entries[..i], ws);
        merged := merged + [ws];
      } else {
        KnownWorkspace(merged, entries[..i], ws, k);
        merged := merged[k := Merge(merged[k], ws)];
      }
    }
    assert entries[..|entries|] == entries;
  }

  // ----- pace -----

  /** The workspace's entry after one round's answer. */
  function Paced(previous: Option<Entry>, ws: Status, head: HeadOutcome, roundAt: int): Entry {
    if head.Failed? then Entry(None, None, roundAt)
    else if !ws.connected then Entry(head.offset, None, roundAt)
    else
      var kept := if previous.Some? then previous.value.behindSince else None;
      var moved := previous.Some? && previous.value.offset.Some? && previous.value.offset != head.offset;
      var behind := if moved && kept.None? then Some(previous.value.probedAt) else kept;
      var caughtUp := behind.Some? && ws.lastReconcileAt.Some? && ws.lastReconcileAt.value >= behind.value;
      Entry(head.offset, if caughtUp then None else behind, roundAt)
  }

  /** The alarm one answer raises, if any. */
  function Alarm(previous: Option<Entry>, ws: Status, head: HeadOutcome, roundAt: int, stuckAfter: int): Option<Event> {
    var e := Paced(previous, ws, head, roundAt);
    if head.Answered? && ws.connected && e.behindSince.Some? && roundAt - e.behindSince.value >= stuckAfter
    then Some(Wedged(ws.workspaceId, e.behindSince.value)) else None
  }

  // ----- a round's answers -----

  ghost predicate HeadsCover(workspaces: seq<Status>, heads: map<string, HeadOutcome>) {
    forall k :: 0 <= k < |workspaces| ==> workspaces[k].workspaceId in heads
  }

  function WhyFailed(head: HeadOutcome): Option<Failure> {
    if head.Failed? then Some(head.why) else None
  }

  ghost predicate AnsweredAfter(workspaces: seq<Status>, heads: map<string, HeadOutcome>, k: int)
    requires HeadsCover(workspaces, heads)
  {
    forall j :: 0 <= j < |workspaces| && k < j ==> heads[workspaces[j].workspaceId].Answered?
  }

  /** `outcome` is the last failure among the answers, when there is one. */
  ghost predicate LastFailure(workspaces: seq<Status>, heads: map<string, HeadOutcome>, outcome: Option<Failure>)
    requires HeadsCover(workspaces, heads)
  {
    && (outcome.None? ==> forall k :: 0 <= k < |workspaces| ==> heads[workspaces[k].workspaceId].Answered?)
    && (outcome.Some? ==>
          exists k | 0 <= k < |workspaces| ::
            heads[workspaces[k].workspaceId] == Failed(outcome.value) && AnsweredAfter(workspaces, heads, k))
  }

  lemma LastFailureSnoc(workspaces: seq<Status>, ws: Status, heads: map<string, HeadOutcome>, outcome: Option<Failure>)
    requires HeadsCover(workspaces, heads) && ws.workspaceId in heads && LastFailure(workspaces, heads, outcome)
    ensures HeadsCover(workspaces + [ws], heads)
    ensures LastFailure(workspaces + [ws], heads,
      if heads[ws.workspaceId].Failed? then WhyFailed(heads[ws.workspaceId]) else outcome)
  {
    var all := workspaces + [ws];
    assert all[|workspaces|] == ws;
    assert heads[ws.workspaceId].Failed? ==> AnsweredAfter(all, heads, |workspaces|);
    if heads[ws.workspaceId].Answered? && outcome.Some? {
      var k :| 0 <= k < |workspaces|
        && heads[workspaces[k].workspaceId] == Failed(outcome.value) && AnsweredAfter(workspaces, heads, k);
      assert AnsweredAfter(all, heads, k);
      assert heads[all[k].workspaceId] == Failed(outcome.value);
    }
  }

  lemma MergedHeadsCover(merged: seq<Status>, snapshot: seq<Status>, heads: map<string, HeadOutcome>)
    requires Summary(merged, snapshot) && HeadsCover(snapshot, heads)
    ensures HeadsCover(merged, heads)
  {
    forall k | 0 <= k < |merged| ensures merged[k].workspaceId in heads {
      assert Mentions(merged, merged[k].workspaceId);
      var j :| 0 <= j < |snapshot| && snapshot[j].workspaceId == merged[k].workspaceId;
    }
  }

  /** Whether a workspace is reported stuck at `now`. */
  predicate StuckAt(e: Option<Entry>, now: int, stuckAfter: int) {
    e.Some? && e.value.behindSince.Some? && now - e.value.behindSince.value >= stuckAfter
  }

  class Probe {
    const stuckAfter: int
    var perWorkspace: map<string, Entry>
    var reachable: bool
    var lastError: Option<Failure>
    var unauthorized: bool
    var started: bool

    constructor (stuckAfter: int)
      ensures this.stuckAfter == stuckAfter && perWorkspace == map[]
      ensures !reachable && lastError == None && !unauthorized && !started
    {
      this.stuckAfter, perWorkspace := stuckAfter, map[];
      reachable, lastError, unauthorized, started := false, None, false, false;
    }

    function EntryOf(id: string): Option<Entry>
      reads this
    {
      if id in perWorkspace then Some(perWorkspace[id]) else None
    }

    method Workspace(id: string, now: int) returns (stuck: bool)
      ensures stuck <==> StuckAt(EntryOf(id), now, stuckAfter)
    {
      if id !in perWorkspace {
        return false;
      }
      var entry := perWorkspace[id];
      stuck := entry.behindSince.Some? && now - entry.behindSince.value >= stuckAfter;
    }

    method Reset()
      modifies this`perWorkspace
      ensures perWorkspace == map[]
    {
      perWorkspace := map[];
    }

    method TrackPace(ws: Status, offset: Option<string>, roundAt: int) returns (events: seq<Event>)
      modifies this`perWorkspace
      ensures perWorkspace ==
        old(perWorkspace)[ws.workspaceId := Paced(old(EntryOf(ws.workspaceId)), ws, Answered(offset), roundAt)]
      ensures var alarm := Alarm(old(EntryOf(ws.workspaceId)), ws, Answered(offset), roundAt, stuckAfter);
        events == if alarm.Some? then [alarm.value] else []
    {
      var id := ws.workspaceId;
      if !ws.connected {
        perWorkspace := perWorkspace[id := Entry(offset, None, roundAt)];
        return [];
      }
      var behindSince := if id in perWorkspace then perWorkspace[id].behindSince else None;
      var moved := id in perWorkspace && perWorkspace[id].offset.Some? && perWorkspace[id].offset != offset;
      if moved && behindSince.None? {
        behindSince := Some(perWorkspace[id].probedAt);
      }
      if behindSince.Some? && ws.lastReconcileAt.Some? && ws.lastReconcileAt.value >= behindSince.value {
        behindSince := None;
      }
      perWorkspace := perWorkspace[id := Entry(offset, behindSince, roundAt)];
      if behindSince.Some? && roundAt - behindSince.value >= stuckAfter {
        return [Wedged(id, behindSince.value)];
      }
      return [];
    }

    method Record(outcome: Option<Failure>) returns (events: seq<Event>)
      modifies this`reachable, this`lastError, this`unauthorized
      ensures lastError == outcome
      ensures reachable == (outcome != Some(Unreachable)) && unauthorized == (outcome == Some(Unauthorized))
      ensures events ==
        if outcome.None? && started && !(old(reachable) && old(lastError).None?) then [Recovered] else []
    {
      var wasHealthy := reachable && lastError.None?;
      if outcome.None? {
        reachable, lastError, unauthorized := true, None, false;
        return if !wasHealthy && started then [Recovered] else [];
      }
      reachable, unauthorized, lastError := outcome.value != Unreachable, outcome.value == Unauthorized, outcome;
      return [];
    }

    /** Every merged workspace takes its own step, whatever the others answered, and no other entry
        changes; `outcome` is the last failure among the answers. */
    method TrackAll(workspaces: seq<Status>, heads: map<string, HeadOutcome>, roundAt: int)
      returns (events: seq<Event>, outcome: Option<Failure>)
      requires OncePerWorkspace(workspaces) && HeadsCover(workspaces, heads)
      modifies this`perWorkspace
      ensures forall w :: w in workspaces ==>
        EntryOf(w.workspaceId) == Some(Paced(old(EntryOf(w.workspaceId)), w, heads[w.workspaceId], roundAt))
      ensures forall id :: !Mentions(workspaces, id) ==> EntryOf(id) == old(EntryOf(id))
      ensures forall e :: e in events <==>
        exists w :: w in workspaces
          && Alarm(old(EntryOf(w.workspaceId)), w, heads[w.workspaceId], roundAt, stuckAfter) == Some(e)
      ensures LastFailure(workspaces, heads, outcome)
    {
      events, outcome := [], None;
      for i := 0 to |workspaces|
        invariant forall k :: 0 <= k < i ==>
          var w := workspaces[k];
          EntryOf(w.workspaceId) == Some(Paced(old(EntryOf(w.workspaceId)), w, heads[w.workspaceId], roundAt))
        invariant forall id :: !Mentions(workspaces[..i], id) ==> EntryOf(id) == old(EntryOf(id))
        invariant HeadsCover(workspaces[..i], heads) && LastFailure(workspaces[..i], heads, outcome)
        invariant forall e :: e in events <==> exists k ::
          && 0 <= k < i
          && Alarm(old(EntryOf(workspaces[k].workspaceId)), workspaces[k], heads[workspaces[k].workspaceId],
               roundAt, stuckAfter) == Some(e)
      {
        var ws := workspaces[i];
        assert ws in workspaces && workspaces[..i + 1] == workspaces[..i] + [ws];
        assert !Mentions(workspaces[..i], ws.workspaceId);
        LastFailureSnoc(workspaces[..i], ws, heads, outcome);
        forall id ensures Mentions(workspaces[..i + 1], id) <==> Mentions(workspaces[..i], id) || ws.workspaceId == id {
          MentionsSnoc(workspaces[..i], ws, id);
        }
        if heads[ws.workspaceId].Failed? {
          outcome := Some(heads[ws.workspaceId].why);
          perWorkspace := perWorkspace[ws.workspaceId := Entry(None, None, roundAt)];
        } else {
          var fired := TrackPace(ws, heads[ws.workspaceId].offset, roundAt);
          events := events + fired;
        }
      }
      assert workspaces[..|workspaces|] == workspaces;
    }

    /** One whole round: merge the snapshot, follow every workspace, then judge the host. With
        nothing configured the catalog answers for the host. */
    method Round(snapshot: seq<Status>, heads: map<string, HeadOutcome>, catalog: HeadOutcome, roundAt: int)
      returns (events: seq<Event>, ghost merged: seq<Status>)
      requires HeadsCover(snapshot, heads)
      modifies this
      ensures Summary(merged, snapshot) && HeadsCover(merged, heads)
      ensures forall w :: w in merged ==>
        EntryOf(w.workspaceId) == Some(Paced(old(EntryOf(w.workspaceId)), w, heads[w.workspaceId], roundAt))
      ensures forall id :: !Mentions(merged, id) ==> EntryOf(id) == old(EntryOf(id))
      ensures forall id, since :: Wedged(id, since) in events <==>
        exists w :: w in merged
          && Alarm(old(EntryOf(w.workspaceId)), w, heads[w.workspaceId], roundAt, stuckAfter) == Some(Wedged(id, since))
      ensures if snapshot == [] then lastError == WhyFailed(catalog) else LastFailure(merged, heads, lastError)
      ensures Recovered in events <==> lastError.None? && started && !(old(reachable) && old(lastError).None?)
      ensures started == old(started)
    {
      var workspaces := PerWorkspace(snapshot);
      merged := workspaces;
      MergedHeadsCover(workspaces, snapshot, heads);
      if |workspaces| == 0 {
        assert snapshot == [] by {
          if snapshot != [] { assert Mentions(snapshot, snapshot[0].workspaceId); }
        }
        events := Record(WhyFailed(catalog));
        return;
      }
      assert snapshot != [] by {
        assert Mentions(workspaces, workspaces[0].workspaceId);
      }
      var alarms, outcome := TrackAll(workspaces, heads, roundAt);
      var recovery := Record(outcome);
      events := alarms + recovery;
    }
  }
}
