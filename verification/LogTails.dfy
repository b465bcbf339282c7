/** The logger and its live tails at work. */
module LogTails {
  import opened Options
  import opened Logs

  // ----- a tail -----

  datatype Feed = Feed(lastSent: int, written: seq<Record>)

  /** A record not newer than the last one sent is dropped. */
  function Sent(f: Feed, r: Record): Feed {
    if r.seqNo <= f.lastSent then f else Feed(r.seqNo, f.written + [r])
  }

  function SentAll(f: Feed, records: seq<Record>): Feed {
    if records == [] then f else Sent(SentAll(f, records[..|records| - 1]), records[|records| - 1])
  }

  function Past(since: int): Query {
    Query(Some(since), None, None, None)
  }

  /** Of ascending records a tail writes exactly those past the last one it sent. */
  lemma {:induction false} SentAscending(f: Feed, records: seq<Record>)
    requires Ascending(records)
    ensures SentAll(f, records).written == f.written + Wanted(records, Past(f.lastSent))
    ensures SentAll(f, records).lastSent == Next(Wanted(records, Past(f.lastSent)), Some(f.lastSent))
  {
    if records != [] {
      var init, last := records[..|records| - 1], records[|records| - 1];
      SentAscending(f, init);
      var wanted := Wanted(init, Past(f.lastSent));
      if |wanted| > 0 {
        assert wanted[|wanted| - 1] in init;
      }
    }
  }

  /** What a tail opened on `log` has written once `live` has been logged. */
  function Tailed(log: Log, q: Query, live: seq<Record>): Feed
    requires log.evicted <= |log.all|
  {
    SentAll(SentAll(Feed(if q.since.Some? then q.since.value else -1, []), Read(log, q).records), live)
  }

  lemma LatestAscends(records: seq<Record>, limit: Option<nat>)
    requires Ascending(records)
    ensures Ascending(Latest(records, limit)) && forall r :: r in Latest(records, limit) ==> r in records
  {
  }

  lemma SentWhole(records: seq<Record>, since: int, end: nat)
    requires Ascending(records) && forall r :: r in records ==> since < r.seqNo < end
    ensures var f := SentAll(Feed(since, []), records);
      f.written == records && (f.lastSent == since || since < f.lastSent < end)
  {
    SentAscending(Feed(since, []), records);
    WantedAll(records, Past(since));
    LastIsWithin(records, since, end);
  }

  lemma LastIsWithin(records: seq<Record>, since: int, end: nat)
    requires forall r :: r in records ==> since < r.seqNo < end
    ensures |records| > 0 ==> since < records[|records| - 1].seqNo < end
  {
    assert |records| > 0 ==> records[|records| - 1] in records;
  }

  lemma BacklogIsPast(buffer: seq<Record>, q: Query, end: nat)
    requires Ascending(buffer) && forall r :: r in buffer ==> r.seqNo < end
    ensures var records := Latest(Wanted(buffer, q), q.limit);
      Ascending(records) && forall r :: r in records ==> (if q.since.Some? then q.since.value else -1) < r.seqNo < end
  {
    WantedAscends(buffer, q);
    LatestAscends(Wanted(buffer, q), q.limit);
  }

  /** The backlog goes out whole. */
  lemma BacklogIsSent(log: Log, q: Query)
    requires Valid(log)
    ensures var since := if q.since.Some? then q.since.value else -1;
      var f := SentAll(Feed(since, []), Read(log, q).records);
      f.written == Read(log, q).records && (f.lastSent == since || since < f.lastSent < |log.all|)
  {
    SuffixAscends(log.all, log.evicted);
    BacklogIsPast(log.all[log.evicted..], q, |log.all|);
    SentWhole(Read(log, q).records, if q.since.Some? then q.since.value else -1, |log.all|);
  }

  lemma {:induction false} WantedAll(records: seq<Record>, q: Query)
    requires forall i :: 0 <= i < |records| ==> Matches(records[i], q)
    ensures Wanted(records, q) == records
  {
    if records != [] {
      WantedAll(records[..|records| - 1], q);
      assert records[..|records| - 1] + [records[|records| - 1]] == records;
    }
  }

  /** A tail writes its backlog and then every live record past its `since`, filtered or not. */
  lemma TailWrites(log: Log, q: Query, live: seq<Record>)
    requires Valid(log) && Numbered(log.all + live)
    ensures var since := if q.since.Some? then q.since.value else -1;
      Tailed(log, q, live).written == Read(log, q).records + Wanted(live, Past(since))
  {
    var since := if q.since.Some? then q.since.value else -1;
    var f := SentAll(Feed(since, []), Read(log, q).records);
    BacklogIsSent(log, q);
    forall i | 0 <= i < |live| ensures live[i].seqNo == |log.all| + i {
      assert (log.all + live)[|log.all| + i] == live[i];
    }
    SentAscending(f, live);
    WantedAgree(live, Past(f.lastSent), Past(since));
  }

  lemma UnfilteredParts(held: seq<Record>, live: seq<Record>, since: Option<int>, from: int)
    requires from == (if since.Some? then since.value else -1)
    ensures Wanted(held + live, Query(since, None, None, None)) ==
      Wanted(held, Query(since, None, None, None)) + Wanted(live, Past(from))
  {
    WantedConcat(held, live, Query(since, None, None, None));
    WantedAgree(live, Query(since, None, None, None), Past(from));
  }

  lemma SuffixAscends(all: seq<Record>, from: nat)
    requires Numbered(all) && from <= |all|
    ensures Ascending(all[from..])
  {
  }

  /** Gap-free tailing: a tail without filter or limit delivers everything held past its `since` when
      it opened and everything logged after, exactly once and in increasing order. */
  lemma TailIsGapFree(log: Log, since: Option<int>, live: seq<Record>)
    requires Valid(log) && Numbered(log.all + live)
    ensures var q := Query(since, None, None, None);
      && Tailed(log, q, live).written == Wanted((log.all + live)[log.evicted..], q)
      && Ascending(Tailed(log, q, live).written)
  {
    var q := Query(since, None, None, None);
    TailWrites(log, q, live);
    assert (log.all + live)[log.evicted..] == log.all[log.evicted..] + live;
    UnfilteredParts(log.all[log.evicted..], live, since, if since.Some? then since.value else -1);
    SuffixAscends(log.all + live, log.evicted);
    WantedAscends((log.all + live)[log.evicted..], q);
  }

  /** A filtered tail filters its backlog only: it keeps to its filter exactly when every live record
      past its `since` happens to match. */
  lemma FilterHonouredExactly(log: Log, q: Query, live: seq<Record>)
    requires Valid(log) && Numbered(log.all + live)
    ensures var since := if q.since.Some? then q.since.value else -1;
      (forall r :: r in Tailed(log, q, live).written ==> Matches(r, q)) <==>
        (forall r :: r in live && r.seqNo > since ==> Matches(r, q))
  {
    var since := if q.since.Some? then q.since.value else -1;
    TailWrites(log, q, live);
    LatestAscendsOrNot(Wanted(log.all[log.evicted..], q), q.limit);
    assert forall r :: r in Tailed(log, q, live).written <==>
      r in Read(log, q).records || r in Wanted(live, Past(since));
  }

  lemma LatestAscendsOrNot(records: seq<Record>, limit: Option<nat>)
    ensures forall r :: r in Latest(records, limit) ==> r in records
  {
  }

  // ----- the logger -----

  /** A record logged carries an open tail on. */
  lemma TailedOneMore(log: Log, q: Query, live: seq<Record>, record: Record)
    requires log.evicted <= |log.all|
    ensures Tailed(log, q, live + [record]) == Sent(Tailed(log, q, live), record)
  {
    assert (live + [record])[..|live|] == live;
  }

  lemma FollowsOn(log: Log, q: Query, all: seq<Record>, record: Record)
    requires log.evicted <= |log.all| && log.all <= all
    ensures log.all <= all + [record]
    ensures Tailed(log, q, (all + [record])[|log.all|..]) == Sent(Tailed(log, q, all[|log.all|..]), record)
  {
    assert (all + [record])[|log.all|..] == all[|log.all|..] + [record];
    TailedOneMore(log, q, all[|log.all|..], record);
  }

  lemma NothingLive(log: Log, q: Query, all: seq<Record>)
    requires log.evicted <= |log.all| && all == log.all
    ensures all[|log.all|..] == []
    ensures Tailed(log, q, all[|log.all|..]) ==
      SentAll(Feed(if q.since.Some? then q.since.value else -1, []), Read(log, q).records)
  {
  }

  class Tail {
    var lastSent: int
    var written: seq<Record>
    /** What it was opened on and asked for. */
    ghost const log: Log
    ghost const query: Query

    constructor (since: int, ghost log: Log, ghost query: Query)
      ensures View() == Feed(since, []) && this.log == log && this.query == query
    {
      lastSent, written := since, [];
      this.log, this.query := log, query;
    }

    /** It has written exactly what such a tail is to write once `all` has been logged. */
    ghost predicate Follows(all: seq<Record>)
      reads this
    {
      log.evicted <= |log.all| && log.all <= all && View() == Tailed(log, query, all[|log.all|..])
    }

    function View(): Feed
      reads this
    {
      Feed(lastSent, written)
    }

    method Send(record: Record)
      modifies this
      ensures View() == Sent(old(View()), record)
    {
      if record.seqNo <= lastSent {
        return;
      }
      lastSent := record.seqNo;
      written := written + [record];
    }
  }

  class Logger {
    const bufferSize: nat
    var buffer: seq<Record>
    var evicted: nat
    var nextSeq: nat
    var subscribers: set<Tail>
    ghost var all: seq<Record>

    /** Every open tail has written its backlog and every live record since, as it should. */
    ghost predicate Valid()
      reads this, subscribers
    {
      Sound() && forall t :: t in subscribers ==> t.Follows(all)
    }

    /** The buffer is always the unbroken end of everything logged, and nothing leaves it early. */
    ghost predicate Sound()
      reads this
    {
      && Logs.Valid(Log(all, evicted))
      && buffer == all[evicted..] && nextSeq == |all| == evicted + |buffer|
      && 0 < bufferSize && |buffer| <= bufferSize && (evicted > 0 ==> |buffer| == bufferSize)
    }

    constructor (bufferSize: int)
      ensures Valid() && all == [] && subscribers == {} && this.bufferSize == if bufferSize < 1 then 1 else bufferSize
    {
      this.bufferSize := if bufferSize < 1 then 1 else bufferSize;
      buffer, evicted, nextSeq, subscribers, all := [], 0, 0, {}, [];
    }

    /** Push the record, and shift out the oldest past capacity. */
    method Keep(record: Record)
      requires Sound() && record.seqNo == nextSeq
      modifies this`buffer, this`evicted, this`nextSeq, this`all
      ensures Sound() && all == old(all) + [record]
      ensures evicted == old(evicted) + if old(|buffer|) == bufferSize then 1 else 0
    {
      nextSeq := nextSeq + 1;
      all := all + [record];
      buffer := buffer + [record];
      while |buffer| > bufferSize
        invariant evicted <= |all| && buffer == all[evicted..] && nextSeq == |all| == evicted + |buffer|
        invariant |buffer| >= bufferSize || (evicted == 0 && evicted == old(evicted))
        modifies this`buffer, this`evicted
        invariant evicted ==
          old(evicted) || (evicted == old(evicted) + 1 && |buffer| == bufferSize && old(|buffer|) == bufferSize)
      {
        buffer := buffer[1..];
        evicted := evicted + 1;
      }
    }

    method Emit(level: Level, source: Source, msg: string) returns (record: Record)
      requires Valid()
      modifies this`buffer, this`evicted, this`nextSeq, this`all, subscribers
      ensures Valid() && record == Record(old(nextSeq), level, source, msg) && all == old(all) + [record]
      ensures evicted == old(evicted) + if old(|buffer|) == bufferSize then 1 else 0
      ensures forall t :: t in subscribers ==> t.View() == Sent(old(t.View()), record)
    {
      record := Record(nextSeq, level, source, msg);
      Keep(record);
      FeedTails(record);
      forall t | t in subscribers ensures t.Follows(all) {
        FollowsOn(t.log, t.query, old(all), record);
      }
    }

    /** Every subscriber gets the record, in whatever order. */
    method FeedTails(record: Record)
      modifies subscribers
      ensures forall t :: t in subscribers ==> t.View() == Sent(old(t.View()), record)
    {
      var todo := subscribers;
      while todo != {}
        invariant todo <= subscribers
        invariant forall t :: t in subscribers && t !in todo ==> t.View() == Sent(old(t.View()), record)
        invariant forall t :: t in todo ==> t.View() == old(t.View())
        modifies subscribers
        decreases |todo|
      {
        var t :| t in todo;
        t.Send(record);
        todo := todo - {t};
      }
    }

    static method Filter(held: seq<Record>, q: Query) returns (records: seq<Record>)
      ensures records == Wanted(held, q)
    {
      records := [];
      for i := 0 to |held|
        invariant records == Wanted(held[..i], q)
      {
        assert held[..i + 1][..i] == held[..i];
        if Matches(held[i], q) {
          records := records + [held[i]];
        }
      }
      assert held[..|held|] == held;
    }

    method ReadHistory(q: Query) returns (history: History)
      requires Sound()
      ensures history == Read(Log(all, evicted), q)
    {
      var records := Filter(buffer, q);
      var oldestHeld := if |buffer| > 0 then buffer[0].seqNo else nextSeq;
      var truncated := q.since.Some? && q.since.value + 1 < oldestHeld && evicted > 0;
      if q.limit.Some? && |records| > q.limit.value {
        records := records[|records| - q.limit.value..];
      }
      history := History(records, Next(records, q.since), truncated);
    }

    /** Subscribe first, then flush the backlog. */
    method TailLogs(q: Query) returns (tail: Tail)
      requires Valid()
      modifies this`subscribers
      ensures Valid() && fresh(tail) && subscribers == old(subscribers) + {tail}
      ensures tail.log == Log(all, evicted) && tail.query == q && tail.View() == Tailed(Log(all, evicted), q, [])
    {
      tail := new Tail(if q.since.Some? then q.since.value else -1, Log(all, evicted), q);
      ghost var start := tail.View();
      subscribers := subscribers + {tail};
      var backlog := ReadHistory(q);
      for i := 0 to |backlog.records|
        invariant tail.View() == SentAll(start, backlog.records[..i])
        modifies tail
      {
        assert backlog.records[..i + 1][..i] == backlog.records[..i];
        tail.Send(backlog.records[i]);
      }
      assert backlog.records[..|backlog.records|] == backlog.records;
      NothingLive(tail.log, q, all);
    }
  }
}
