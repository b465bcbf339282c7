/** The log's ring buffer, its readers and its live tails.
    (wiki-server/src/logger.ts:161-268, wiki-server/src/control.ts:234-267) */
module Logs {
  import opened Options

  datatype Level = Info | Warn | Error
  datatype Source = Server | Stream | Mcp | Auth
  datatype Record = Record(seqNo: nat, level: Level, source: Source, msg: string)

  /** What a reader asks for. */
  datatype Query = Query(since: Option<int>, limit: Option<nat>, level: Option<Level>, source: Option<Source>)

  datatype History = History(records: seq<Record>, next: int, truncated: bool)

  predicate Matches(r: Record, q: Query) {
    && (q.since.None? || r.seqNo > q.since.value)
    && (q.level.None? || r.level == q.level.value)
    && (q.source.None? || r.source == q.source.value)
  }

  function Wanted(records: seq<Record>, q: Query): (wanted: seq<Record>)
    ensures forall r :: r in wanted <==> r in records && Matches(r, q)
  {
    if records == [] then []
    else if Matches(records[|records| - 1], q) then Wanted(records[..|records| - 1], q) + [records[|records| - 1]]
    else Wanted(records[..|records| - 1], q)
  }

  function Latest(records: seq<Record>, limit: Option<nat>): seq<Record> {
    if limit.Some? && |records| > limit.value then records[|records| - limit.value..] else records
  }

  /** Where a reader who received these is to go on. */
  function Next(records: seq<Record>, since: Option<int>): int {
    if |records| > 0 then records[|records| - 1].seqNo else if since.Some? then since.value else -1
  }

  function HistoryOf(buffer: seq<Record>, evicted: nat, nextSeq: nat, q: Query): History {
    var records := Latest(Wanted(buffer, q), q.limit);
    var oldestHeld := if |buffer| > 0 then buffer[0].seqNo else nextSeq;
    History(records, Next(records, q.since), q.since.Some? && q.since.value + 1 < oldestHeld && evicted > 0)
  }

  // ----- everything ever logged -----

  /** All records ever logged, and how many of them were evicted. */
  datatype Log = Log(all: seq<Record>, evicted: nat)

  ghost predicate Numbered(all: seq<Record>) {
    forall i :: 0 <= i < |all| ==> all[i].seqNo == i
  }

  ghost predicate Valid(log: Log) {
    log.evicted <= |log.all| && Numbered(log.all)
  }

  function Read(log: Log, q: Query): History
    requires log.evicted <= |log.all|
  {
    HistoryOf(log.all[log.evicted..], log.evicted, |log.all|, q)
  }

  /** `truncated` says exactly that a record past `since` is gone. */
  lemma TruncatedExactly(log: Log, q: Query)
    requires Valid(log) && q.since.Some?
    ensures Read(log, q).truncated <==> exists i :: 0 <= i < log.evicted && log.all[i].seqNo > q.since.value
  {
    if q.since.value + 1 < log.evicted && log.evicted > 0 {
      assert log.all[log.evicted - 1].seqNo > q.since.value;
    }
  }

  lemma {:induction false} WantedConcat(a: seq<Record>, b: seq<Record>, q: Query)
    ensures Wanted(a + b, q) == Wanted(a, q) + Wanted(b, q)
  {
    if b == [] {
      assert a + b == a;
    } else {
      WantedConcat(a, b[..|b| - 1], q);
      assert (a + b)[..|a + b| - 1] == a + b[..|b| - 1];
      assert (a + b)[|a + b| - 1] == b[|b| - 1];
    }
  }

  lemma {:induction false} WantedNone(records: seq<Record>, q: Query)
    requires forall i :: 0 <= i < |records| ==> !Matches(records[i], q)
    ensures Wanted(records, q) == []
  {
    if records != [] {
      WantedNone(records[..|records| - 1], q);
    }
  }

  lemma {:induction false} WantedAgree(records: seq<Record>, q: Query, p: Query)
    requires forall i :: 0 <= i < |records| ==> (Matches(records[i], q) <==> Matches(records[i], p))
    ensures Wanted(records, q) == Wanted(records, p)
  {
    if records != [] {
      WantedAgree(records[..|records| - 1], q, p);
    }
  }

  /** An untruncated read without a limit returns every matching record ever logged, in order. */
  lemma UntruncatedReadIsWhole(log: Log, q: Query)
    requires Valid(log) && q.limit.None? && q.since.Some? && !Read(log, q).truncated
    ensures Read(log, q).records == Wanted(log.all, q)
  {
    assert log.all == log.all[..log.evicted] + log.all[log.evicted..];
    WantedConcat(log.all[..log.evicted], log.all[log.evicted..], q);
    TruncatedExactly(log, q);
    WantedNone(log.all[..log.evicted], q);
  }

  lemma {:induction false} WantedAscends(records: seq<Record>, q: Query)
    requires Ascending(records)
    ensures Ascending(Wanted(records, q))
  {
    if records != [] {
      var init, last := records[..|records| - 1], records[|records| - 1];
      WantedAscends(init, q);
      forall r | r in Wanted(init, q) ensures r.seqNo < last.seqNo {
        assert r in init;
      }
    }
  }

  ghost predicate Ascending(records: seq<Record>) {
    forall i, j :: 0 <= i < j < |records| ==> records[i].seqNo < records[j].seqNo
  }

  lemma LastIsLargest(records: seq<Record>, q: Query, r: Record)
    requires Ascending(records) && |Wanted(records, q)| > 0 && r in records && Matches(r, q)
    ensures var wanted := Wanted(records, q); r.seqNo <= wanted[|wanted| - 1].seqNo
  {
    WantedAscends(records, q);
    var wanted := Wanted(records, q);
    assert r in wanted;
    var k :| 0 <= k < |wanted| && wanted[k] == r;
  }

  /** Reading on from the last record that matched finds no more. */
  lemma NothingPastTheLast(records: seq<Record>, q: Query)
    requires Ascending(records) && |Wanted(records, q)| > 0
    ensures var wanted := Wanted(records, q); Wanted(records, q.(since := Some(wanted[|wanted| - 1].seqNo))) == []
  {
    var wanted := Wanted(records, q);
    var last := wanted[|wanted| - 1];
    assert last in wanted;
    var p := q.(since := Some(last.seqNo));
    forall i | 0 <= i < |records| ensures !Matches(records[i], p) {
      if Matches(records[i], q) {
        LastIsLargest(records, q, records[i]);
      }
    }
    WantedNone(records, p);
  }

  lemma NothingPastNext(records: seq<Record>, q: Query)
    requires Ascending(records)
    ensures Wanted(records, q.(since := Some(Next(Wanted(records, q), q.since)))) == []
  {
    if |Wanted(records, q)| > 0 {
      NothingPastTheLast(records, q);
    } else {
      var p := q.(since := Some(Next([], q.since)));
      forall i | 0 <= i < |records| ensures !Matches(records[i], p) {
        assert records[i] !in Wanted(records, q);
      }
      WantedNone(records, p);
    }
  }

  lemma LatestEndsTheSame(records: seq<Record>, limit: nat, since: Option<int>)
    requires limit > 0
    ensures Next(Latest(records, Some(limit)), since) == Next(records, since)
    ensures Latest(records, Some(limit)) == records <==> |records| <= limit
  {
  }

  /** A limit of none returns nothing and moves nothing: the next read has it all. */
  lemma LimitOfNone(log: Log, q: Query)
    requires Valid(log) && q.limit.None?
    ensures var r := Read(log, q.(limit := Some(0)));
      r.records == [] && Read(log, q.(since := Some(r.next))).records == Read(log, q).records
  {
    var buffer := log.all[log.evicted..];
    WantedAgree(buffer, q, q.(limit := Some(0)));
    WantedAgree(buffer, q, q.(since := Some(Next([], q.since))));
  }

  /** A limit keeps the latest and skips the rest for good: a read with a limit and the next one from
      where it ended together hold everything the unlimited read holds exactly when there was no more
      than the limit allows, or the limit allows nothing. */
  lemma LimitSkipsExactly(log: Log, q: Query, limit: nat)
    requires Valid(log) && q.limit.None?
    ensures var r := Read(log, q.(limit := Some(limit)));
      var again := Read(log, q.(since := Some(r.next)));
      r.records + again.records == Read(log, q).records <==> |Read(log, q).records| <= limit || limit == 0
  {
    if limit == 0 {
      LimitOfNone(log, q);
    } else {
      LimitSkips(log, q, limit);
    }
  }

  lemma LimitSkips(log: Log, q: Query, limit: nat)
    requires Valid(log) && q.limit.None? && limit > 0
    ensures var r := Read(log, q.(limit := Some(limit)));
      var again := Read(log, q.(since := Some(r.next)));
      r.records + again.records == Read(log, q).records <==> |Read(log, q).records| <= limit
  {
    var buffer := log.all[log.evicted..];
    var wanted := Wanted(buffer, q);
    WantedAgree(buffer, q, q.(limit := Some(limit)));
    LatestEndsTheSame(wanted, limit, q.since);
    NothingPastNext(buffer, q);
    assert Latest(wanted, Some(limit)) + [] == Latest(wanted, Some(limit));
  }

  // ----- a reader that comes back -----

  /** The log as it stood at each of a reader's visits: it only grows, and only forgets. */
  ghost predicate Visits(logs: seq<Log>) {
    && (forall k :: 0 <= k < |logs| ==> Valid(logs[k]))
    && (forall k :: 0 < k < |logs| ==> logs[k - 1].all <= logs[k].all)
  }

  /** Where the reader's `k`-th visit starts: after the last record the one before returned. */
  function Since(logs: seq<Log>, k: nat, q: Query): int
    requires k <= |logs| && q.since.Some? && forall i :: 0 <= i < |logs| ==> logs[i].evicted <= |logs[i].all|
  {
    if k == 0 then q.since.value else Read(logs[k - 1], q.(since := Some(Since(logs, k - 1, q)))).next
  }

  function Visit(logs: seq<Log>, k: nat, q: Query): History
    requires k < |logs| && q.since.Some? && forall i :: 0 <= i < |logs| ==> logs[i].evicted <= |logs[i].all|
  {
    Read(logs[k], q.(since := Some(Since(logs, k, q))))
  }

  /** All the reader has received after `k` visits. */
  function Received(logs: seq<Log>, k: nat, q: Query): seq<Record>
    requires k <= |logs| && q.since.Some? && forall i :: 0 <= i < |logs| ==> logs[i].evicted <= |logs[i].all|
  {
    if k == 0 then [] else Received(logs, k - 1, q) + Visit(logs, k - 1, q).records
  }

  /** What a visit leaves for the next: nothing matching is held past where it starts. */
  lemma VisitLeavesNothing(log: Log, q: Query)
    requires Valid(log) && q.limit.None? && q.since.Some? && !Read(log, q).truncated
    ensures var next := Read(log, q).next;
      && Wanted(log.all, q.(since := Some(next))) == []
      && (next == q.since.value || 0 <= next < |log.all|) && next >= q.since.value
  {
    UntruncatedReadIsWhole(log, q);
    NothingPastNext(log.all, q);
    var wanted := Wanted(log.all, q);
    if |wanted| > 0 {
      assert wanted[|wanted| - 1] in wanted;
    }
  }

  /** On what was logged after the previous visit, asking from there is asking from the start. */
  lemma NewRecordsAgree(before: seq<Record>, all: seq<Record>, q: Query, next: int)
    requires Numbered(all) && before <= all && q.since.Some? && (next == q.since.value || 0 <= next < |before|)
    requires next >= q.since.value
    ensures Wanted(all[|before|..], q.(since := Some(next))) == Wanted(all[|before|..], q)
  {
    var p := q.(since := Some(next));
    forall i | 0 <= i < |all[|before|..]| ensures Matches(all[|before|..][i], p) <==> Matches(all[|before|..][i], q) {
      assert all[|before|..][i] == all[|before| + i];
    }
    WantedAgree(all[|before|..], p, q);
  }

  lemma WantedParts(before: seq<Record>, all: seq<Record>, q: Query)
    requires before <= all
    ensures Wanted(all, q) == Wanted(before, q) + Wanted(all[|before|..], q)
  {
    assert all == before + all[|before|..];
    WantedConcat(before, all[|before|..], q);
  }

  lemma WantedGrows(before: seq<Record>, all: seq<Record>, q: Query, since: int)
    requires Numbered(all) && before <= all && q.since.Some?
    requires since >= q.since.value && (since == q.since.value || 0 <= since < |before|)
    ensures Wanted(before, q.(since := Some(since))) == [] ==>
      Wanted(all, q) == Wanted(before, q) + Wanted(all, q.(since := Some(since)))
  {
    var p, later := q.(since := Some(since)), all[|before|..];
    NewRecordsAgree(before, all, q, since);
    WantedParts(before, all, q);
    WantedParts(before, all, p);
    if Wanted(before, p) == [] {
      assert Wanted(all, p) == Wanted(later, p) == Wanted(later, q);
    }
  }

  /** One more visit, from where nothing matching was left behind. */
  lemma VisitContinues(before: seq<Record>, log: Log, q: Query, since: int)
    requires Valid(log) && before <= log.all && q.limit.None? && q.since.Some?
    requires since >= q.since.value && (since == q.since.value || 0 <= since < |before|)
    requires Wanted(before, q.(since := Some(since))) == [] && !Read(log, q.(since := Some(since))).truncated
    ensures Wanted(log.all, q) == Wanted(before, q) + Read(log, q.(since := Some(since))).records
  {
    UntruncatedReadIsWhole(log, q.(since := Some(since)));
    WantedGrows(before, log.all, q, since);
  }

  ghost predicate CaughtUp(logs: seq<Log>, k: nat, q: Query)
    requires Visits(logs) && 0 < k <= |logs| && q.since.Some?
  {
    var since := Since(logs, k, q);
    && Wanted(logs[k - 1].all, q.(since := Some(since))) == []
    && since >= q.since.value && (since == q.since.value || 0 <= since < |logs[k - 1].all|)
  }

  lemma {:induction false} VisitsCatchUp(logs: seq<Log>, k: nat, q: Query)
    requires Visits(logs) && 0 < k <= |logs| && q.limit.None? && q.since.Some?
    requires forall i :: 0 <= i < k ==> !Visit(logs, i, q).truncated
    ensures CaughtUp(logs, k, q)
  {
    if k > 1 {
      VisitsCatchUp(logs, k - 1, q);
    }
    assert !Visit(logs, k - 1, q).truncated;
    assert logs[if k > 1 then k - 2 else 0].all <= logs[k - 1].all;
    VisitLeavesNothing(logs[k - 1], q.(since := Some(Since(logs, k - 1, q))));
  }

  /** Gap-free reading: a reader without a limit who starts each visit where the last one ended
      receives every matching record after its first `since`, once and in order, unless a visit was
      reported truncated. */
  lemma {:induction false} ChainedReadsAreGapFree(logs: seq<Log>, k: nat, q: Query)
    requires Visits(logs) && 0 < k <= |logs| && q.limit.None? && q.since.Some?
    requires forall i :: 0 <= i < k ==> !Visit(logs, i, q).truncated
    ensures Received(logs, k, q) == Wanted(logs[k - 1].all, q)
  {
    assert !Visit(logs, k - 1, q).truncated;
    if k == 1 {
      FirstVisitIsWhole(logs, q);
    } else {
      ChainedReadsAreGapFree(logs, k - 1, q);
      VisitsCatchUp(logs, k - 1, q);
      VisitContinues(logs[k - 2].all, logs[k - 1], q, Since(logs, k - 1, q));
    }
  }

  lemma FirstVisitIsWhole(logs: seq<Log>, q: Query)
    requires Visits(logs) && logs != [] && q.limit.None? && q.since.Some? && !Visit(logs, 0, q).truncated
    ensures Received(logs, 1, q) == Wanted(logs[0].all, q)
  {
    assert q.(since := Some(q.since.value)) == q;
    UntruncatedReadIsWhole(logs[0], q);
    assert Received(logs, 0, q) == [];
  }
}
