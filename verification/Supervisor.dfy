/** One configured emitter, supervised: attempts, backoff, and starts that land after they were
    abandoned. (wiki-mirror/src/supervisor.ts:109-195, wiki-mirror/src/mirror.ts:68-105) */
module Supervisor {
  import opened Options

  /** How a mirror's start call stands. */
  datatype Start = Pending | Resolved | Rejected

  /** A tail loop: its start call, whether it was told to stop, and whether it holds a subscription. */
  datatype Tail = Tail(start: Start, stopped: bool, held: bool)

  /** What an attempt is waiting for. `Dropping` waits for a mirror to drain, and then records a
      failure unless the supervisor was stopped under a start that went well. */
  datatype Stage = Initing | Opening | Syncing(mirror: nat) | Dropping(failed: bool)

  /** How an attempt ended: a failure waits before the next one, unless nothing is to follow. */
  datatype Outcome = Started | Failed(wait: Option<int>)

  /** The supervisor's fields, its attempts under way, the live timers, every mirror it made, and
      the outcomes so far. */
  datatype Emitter = Emitter(
    tail: Option<nat>, attempts: nat, nextRetryAt: Option<int>, timer: Option<nat>, stopped: bool,
    flights: map<nat, Stage>, nextFlight: nat, armed: set<nat>, nextTimer: nat,
    mirrors: seq<Tail>, outcomes: seq<Outcome>)

  datatype Step =
    | RetryNow
    | TimerFires(timer: nat)
    | Advances(flight: nat, ok: bool, now: int)
    | StartResolves(mirror: nat)
    | StartRejects(mirror: nat)
    | StopCalled

  function Attempted(s: Emitter): Emitter {
    if s.stopped || s.tail.Some? then s
    else s.(attempts := s.attempts + 1, flights := s.flights[s.nextFlight := Initing], nextFlight := s.nextFlight + 1)
  }

  function Cancelled(s: Emitter): Emitter {
    if s.timer.None? then s else s.(armed := s.armed - {s.timer.value}, timer := None)
  }

  /** Mirror `m` told to stop: it hands back the subscription it holds, or will be given. */
  function StopMirror(mirrors: seq<Tail>, m: nat): seq<Tail> {
    if m < |mirrors| then mirrors[m := mirrors[m].(stopped := true, held := false)] else mirrors
  }

  /** The wait before the next attempt, after the `k`-th in a row. */
  function Delay(delays: seq<int>, k: nat): int
    requires |delays| > 0
  {
    delays[if k <= 1 then 0 else if k - 1 < |delays| then k - 1 else |delays| - 1]
  }

  function Failing(s: Emitter, flight: nat, now: int, delays: seq<int>): Emitter
    requires |delays| > 0
  {
    var t := s.(flights := s.flights - {flight});
    if s.stopped then t.(outcomes := s.outcomes + [Failed(None)])
    else
      var wait := Delay(delays, s.attempts);
      t.(outcomes := s.outcomes + [Failed(Some(wait))], nextRetryAt := Some(now + wait),
         timer := Some(s.nextTimer), armed := s.armed + {s.nextTimer}, nextTimer := s.nextTimer + 1)
  }

  /** An attempt resumes; what it waited for went well, or failed or timed out. */
  function Advanced(s: Emitter, flight: nat, ok: bool, now: int, delays: seq<int>): Emitter
    requires |delays| > 0
  {
    if flight !in s.flights then s
    else match s.flights[flight]
      case Initing => s.(flights := s.flights[flight := if ok then Opening else Dropping(true)])
      case Opening =>
        if !ok then s.(flights := s.flights[flight := Dropping(true)])
        else s.(flights := s.flights[flight := Syncing(|s.mirrors|)],
                mirrors := s.mirrors + [Tail(Pending, false, false)])
      case Syncing(m) =>
        if !ok then s.(flights := s.flights[flight := Dropping(true)], mirrors := StopMirror(s.mirrors, m))
        else if m >= |s.mirrors| || s.mirrors[m].start != Resolved then s
        else if s.stopped then s.(flights := s.flights[flight := Dropping(false)], mirrors := StopMirror(s.mirrors, m))
        else s.(flights := s.flights - {flight}, tail := Some(m), nextRetryAt := None, attempts := 0,
                outcomes := s.outcomes + [Started])
      case Dropping(failed) =>
        if failed then Failing(s, flight, now, delays) else s.(flights := s.flights - {flight})
  }

  function Apply(s: Emitter, step: Step, delays: seq<int>): Emitter
    requires |delays| > 0
  {
    match step
    case RetryNow => if s.stopped || s.tail.Some? then s else Attempted(Cancelled(s))
    case TimerFires(timer) => if timer !in s.armed then s else Attempted(s.(armed := s.armed - {timer}, timer := None))
    case Advances(flight, ok, now) => Advanced(s, flight, ok, now, delays)
    case StartResolves(m) =>
      if m < |s.mirrors| && s.mirrors[m].start.Pending?
      then s.(mirrors := s.mirrors[m := s.mirrors[m].(start := Resolved, held := !s.mirrors[m].stopped)]) else s
    case StartRejects(m) =>
      if m < |s.mirrors| && s.mirrors[m].start.Pending?
      then s.(mirrors := s.mirrors[m := s.mirrors[m].(start := Rejected)]) else s
    case StopCalled =>
      var t := Cancelled(s).(stopped := true, nextRetryAt := None);
      if s.tail.None? then t else t.(mirrors := StopMirror(s.mirrors, s.tail.value))
  }

  /** The supervisor, asked to start. */
  function Asked(): Emitter {
    Attempted(Emitter(None, 0, None, None, false, map[], 0, {}, 0, [], []))
  }

  /** The supervisor after the first `n` steps since it was asked to start. */
  function At(steps: seq<Step>, n: nat, delays: seq<int>): Emitter
    requires n <= |steps| && |delays| > 0
  {
    if n == 0 then Asked() else Apply(At(steps, n - 1, delays), steps[n - 1], delays)
  }

  // ----- what every run keeps -----

  /** Failures in a row up to now. */
  function Streak(outcomes: seq<Outcome>): nat {
    if outcomes == [] || outcomes[|outcomes| - 1].Started? then 0 else Streak(outcomes[..|outcomes| - 1]) + 1
  }

  /** The k-th failure in a row waits the k-th delay, the last one for ever after. */
  ghost predicate WaitsItsTurn(outcomes: seq<Outcome>, delays: seq<int>)
    requires |delays| > 0
  {
    forall i :: 0 <= i < |outcomes| && outcomes[i].Failed? && outcomes[i].wait.Some? ==>
      var k := Streak(outcomes[..i + 1]);
      k > 0 && outcomes[i].wait.value == delays[if k - 1 < |delays| then k - 1 else |delays| - 1]
  }

  /** Running, attempting, or waiting to: exactly one of them. */
  predicate ExactlyOne(s: Emitter) {
    && |s.flights| <= 1
    && (s.tail.Some? ==> s.flights == map[] && s.timer.None?)
    && (s.flights != map[] ==> s.timer.None?)
    && (s.tail.Some? || s.flights != map[] || s.timer.Some?)
  }

  predicate InFlight(s: Emitter, m: nat) {
    exists f :: f in s.flights && s.flights[f] == Syncing(m)
  }

  /** A mirror told to stop holds nothing; any other has someone who will tell it. */
  predicate Owned(s: Emitter, m: nat)
    requires m < |s.mirrors|
  {
    if s.mirrors[m].stopped then !s.mirrors[m].held else InFlight(s, m) || (s.tail == Some(m) && !s.stopped)
  }

  ghost predicate AllOwned(s: Emitter) {
    && (s.tail.Some? ==> s.tail.value < |s.mirrors|)
    && (forall m :: 0 <= m < |s.mirrors| ==> Owned(s, m))
  }

  ghost predicate Valid(s: Emitter, delays: seq<int>)
    requires |delays| > 0
  {
    && |s.flights| <= 1 && (forall f :: f in s.flights ==> f < s.nextFlight)
    && (!s.stopped ==> forall f :: f in s.flights ==> s.flights[f] != Dropping(false))
    && (!s.stopped ==> ExactlyOne(s))
    && s.armed == (if s.timer.Some? then {s.timer.value} else {})
    && (s.timer.Some? ==> s.nextRetryAt.Some?)
    && (s.stopped ==> s.timer.None?)
    && AllOwned(s)
    && (!s.stopped ==> s.attempts == Streak(s.outcomes) + |s.flights|)
    && WaitsItsTurn(s.outcomes, delays)
  }

  lemma OneFlight(flights: map<nat, Stage>, f: nat, stage: Stage)
    requires |flights| <= 1 && f in flights
    ensures flights == map[f := flights[f]] && flights[f := stage] == map[f := stage]
    ensures flights - {f} == map[] && |flights| == 1 && |flights[f := stage]| == 1
  {
    assert |flights| == |flights.Keys| && |flights.Keys - {f}| == |flights.Keys| - 1;
    assert flights.Keys == {f} by {
      assert flights.Keys - {f} == {};
    }
    assert |map[f := stage]| == 1;
  }

  lemma OutcomeSnoc(outcomes: seq<Outcome>, o: Outcome, delays: seq<int>)
    requires |delays| > 0 && WaitsItsTurn(outcomes, delays)
    requires o.Failed? && o.wait.Some? ==> o.wait.value == Delay(delays, Streak(outcomes) + 1)
    ensures WaitsItsTurn(outcomes + [o], delays)
    ensures Streak(outcomes + [o]) == if o.Started? then 0 else Streak(outcomes) + 1
  {
    var all := outcomes + [o];
    assert all[..|outcomes|] == outcomes && all[..|all|] == all;
    forall i | 0 <= i < |outcomes| ensures all[..i + 1] == outcomes[..i + 1] && all[i] == outcomes[i] {
    }
  }

  /** With nothing under way and nothing armed, an attempt makes the supervisor whole again. */
  lemma AttemptKeeps(s: Emitter, delays: seq<int>)
    requires |delays| > 0 && !s.stopped && s.tail.None?
    requires s.flights == map[] && s.timer.None? && s.armed == {} && s.attempts == Streak(s.outcomes)
    requires AllOwned(s) && WaitsItsTurn(s.outcomes, delays)
    ensures Valid(Attempted(s), delays)
  {
    var t := Attempted(s);
    assert t.flights == map[s.nextFlight := Initing] && |t.flights| == 1;
    forall m | 0 <= m < |s.mirrors| ensures Owned(t, m) {
      assert Owned(s, m) && !InFlight(s, m);
    }
  }

  lemma SameOwners(s: Emitter, t: Emitter)
    requires AllOwned(s)
    requires t.mirrors == s.mirrors && t.tail == s.tail && t.flights == s.flights && t.stopped == s.stopped
    ensures AllOwned(t)
  {
    forall m | 0 <= m < |t.mirrors| ensures Owned(t, m) {
      assert Owned(s, m);
    }
  }

  lemma TimerKeeps(s: Emitter, timer: nat, delays: seq<int>)
    requires |delays| > 0 && Valid(s, delays)
    ensures Valid(Apply(s, TimerFires(timer), delays), delays)
  {
    if timer in s.armed {
      var idle := s.(armed := s.armed - {timer}, timer := None);
      SameOwners(s, idle);
      AttemptKeeps(idle, delays);
    }
  }

  lemma RetryKeeps(s: Emitter, delays: seq<int>)
    requires |delays| > 0 && Valid(s, delays) && (s.flights == map[] || s.stopped)
    ensures Valid(Apply(s, RetryNow, delays), delays)
  {
    if !s.stopped && s.tail.None? {
      SameOwners(s, Cancelled(s));
      AttemptKeeps(Cancelled(s), delays);
    }
  }

  /** One attempt moves along to `stage`, keeping every mirror owned. */
  lemma StageKeeps(s: Emitter, t: Emitter, f: nat, stage: Stage, delays: seq<int>)
    requires |delays| > 0 && Valid(s, delays) && f in s.flights
    requires stage == Dropping(false) ==> s.stopped
    requires t == s.(flights := s.flights[f := stage], mirrors := t.mirrors) && |t.mirrors| >= |s.mirrors|
    requires forall m :: 0 <= m < |t.mirrors| ==>
      || (m < |s.mirrors| && t.mirrors[m] == s.mirrors[m] && s.flights[f] != Syncing(m))
      || (if t.mirrors[m].stopped then !t.mirrors[m].held else stage == Syncing(m))
    ensures Valid(t, delays)
  {
    OneFlight(s.flights, f, stage);
    forall m | 0 <= m < |t.mirrors| ensures Owned(t, m) {
      assert t.flights[f] == stage;
      assert m < |s.mirrors| ==> Owned(s, m);
    }
  }

  /** The attempt is over, having left its mirror to be the tail, or stopped. */
  lemma EndKeepsOwned(s: Emitter, t: Emitter, f: nat)
    requires AllOwned(s) && |s.flights| <= 1 && f in s.flights && t.mirrors == s.mirrors && t.stopped == s.stopped
    requires t.flights == s.flights - {f}
    requires match s.flights[f]
      case Syncing(m) => m < |s.mirrors| && t.tail == Some(m) && s.tail.None? && !s.stopped
      case _ => t.tail == s.tail
    ensures AllOwned(t)
  {
    OneFlight(s.flights, f, Initing);
    forall m | 0 <= m < |t.mirrors| ensures Owned(t, m) {
      assert Owned(s, m);
    }
  }

  lemma SyncedKeeps(s: Emitter, f: nat, ok: bool, now: int, delays: seq<int>)
    requires |delays| > 0 && Valid(s, delays) && f in s.flights && s.flights[f].Syncing?
    ensures Valid(Advanced(s, f, ok, now, delays), delays)
  {
    var t, m := Advanced(s, f, ok, now, delays), s.flights[f].mirror;
    if !ok {
      StageKeeps(s, t, f, Dropping(true), delays);
    } else if m < |s.mirrors| && s.mirrors[m].start == Resolved {
      if s.stopped {
        StageKeeps(s, t, f, Dropping(false), delays);
      } else {
        OneFlight(s.flights, f, Initing);
        EndKeepsOwned(s, t, f);
        OutcomeSnoc(s.outcomes, Started, delays);
      }
    }
  }

  lemma DroppedKeeps(s: Emitter, f: nat, ok: bool, now: int, delays: seq<int>)
    requires |delays| > 0 && Valid(s, delays) && f in s.flights && s.flights[f].Dropping?
    ensures Valid(Advanced(s, f, ok, now, delays), delays)
  {
    OneFlight(s.flights, f, Initing);
    EndKeepsOwned(s, Advanced(s, f, ok, now, delays), f);
    if s.flights[f].failed {
      FailingKeeps(s, f, now, delays);
    }
  }

  lemma FailingKeeps(s: Emitter, f: nat, now: int, delays: seq<int>)
    requires |delays| > 0 && Valid(s, delays) && f in s.flights && |s.flights| == 1 && s.flights - {f} == map[]
    requires AllOwned(Failing(s, f, now, delays))
    ensures Valid(Failing(s, f, now, delays), delays)
  {
    OutcomeSnoc(s.outcomes, if s.stopped then Failed(None) else Failed(Some(Delay(delays, s.attempts))), delays);
  }

  lemma AdvanceKeeps(s: Emitter, f: nat, ok: bool, now: int, delays: seq<int>)
    requires |delays| > 0 && Valid(s, delays)
    ensures Valid(Advanced(s, f, ok, now, delays), delays)
  {
    if f in s.flights {
      match s.flights[f]
      case Initing => StageKeeps(s, Advanced(s, f, ok, now, delays), f, if ok then Opening else Dropping(true), delays);
      case Opening => StageKeeps(s, Advanced(s, f, ok, now, delays), f,
        if ok then Syncing(|s.mirrors|) else Dropping(true), delays);
      case Syncing(m) => SyncedKeeps(s, f, ok, now, delays);
      case Dropping(failed) => DroppedKeeps(s, f, ok, now, delays);
    }
  }

  lemma MirrorStepKeeps(s: Emitter, step: Step, delays: seq<int>)
    requires |delays| > 0 && Valid(s, delays) && (step.StartResolves? || step.StartRejects? || step.StopCalled?)
    ensures Valid(Apply(s, step, delays), delays)
  {
    var t := Apply(s, step, delays);
    forall m | 0 <= m < |t.mirrors| ensures Owned(t, m) {
      assert Owned(s, m) && (InFlight(s, m) ==> InFlight(t, m));
    }
  }

  lemma StepKeeps(s: Emitter, step: Step, delays: seq<int>)
    requires |delays| > 0 && Valid(s, delays) && (step.RetryNow? ==> s.flights == map[] || s.stopped)
    ensures Valid(Apply(s, step, delays), delays)
  {
    match step
    case RetryNow => RetryKeeps(s, delays);
    case TimerFires(timer) => TimerKeeps(s, timer, delays);
    case Advances(f, ok, now) => AdvanceKeeps(s, f, ok, now, delays);
    case _ => MirrorStepKeeps(s, step, delays);
  }

  /** `retryNow` is not called in the middle of an attempt. */
  ghost predicate Patient(steps: seq<Step>, delays: seq<int>)
    requires |delays| > 0
  {
    forall i :: 0 <= i < |steps| && steps[i].RetryNow? ==>
      At(steps, i, delays).flights == map[] || At(steps, i, delays).stopped
  }

  /** Never silently dead: over every interleaving, a supervisor that was not stopped is running,
      attempting, or has exactly one retry timer armed, and each failure waits its turn. */
  lemma {:induction false} RunKeeps(steps: seq<Step>, n: nat, delays: seq<int>)
    requires n <= |steps| && |delays| > 0 && Patient(steps, delays)
    ensures Valid(At(steps, n, delays), delays)
  {
    if n == 0 {
      AttemptKeeps(Emitter(None, 0, None, None, false, map[], 0, {}, 0, [], []), delays);
    } else {
      RunKeeps(steps, n - 1, delays);
      StepKeeps(At(steps, n - 1, delays), steps[n - 1], delays);
    }
  }

  /** After stop, once no attempt is under way, no mirror holds a subscription, and one still to
      land will hand it back. */
  lemma StoppedHoldsNothing(steps: seq<Step>, n: nat, delays: seq<int>)
    requires n <= |steps| && |delays| > 0 && Patient(steps, delays)
    requires At(steps, n, delays).stopped && At(steps, n, delays).flights == map[]
    ensures forall m :: 0 <= m < |At(steps, n, delays).mirrors| ==>
      At(steps, n, delays).mirrors[m].stopped && !At(steps, n, delays).mirrors[m].held
    ensures At(steps, n, delays).armed == {}
  {
    RunKeeps(steps, n, delays);
    var s := At(steps, n, delays);
    forall m | 0 <= m < |s.mirrors| ensures s.mirrors[m].stopped && !s.mirrors[m].held {
      assert Owned(s, m);
    }
  }

  /** Being patient is exactly what it takes: a `retryNow` keeps the supervisor whole if and only if
      it was stopped or had no attempt under way. */
  lemma RetryNowKeepsExactly(s: Emitter, delays: seq<int>)
    requires |delays| > 0 && Valid(s, delays)
    ensures Valid(Apply(s, RetryNow, delays), delays) <==> s.stopped || s.flights == map[]
  {
    if s.stopped || s.flights == map[] {
      RetryKeeps(s, delays);
    } else {
      var t := Apply(s, RetryNow, delays);
      assert t.flights.Keys == s.flights.Keys + {s.nextFlight};
      assert |t.flights| == |t.flights.Keys| && |t.flights.Keys| == |s.flights.Keys| + 1;
      var f :| f in s.flights;
      OneFlight(s.flights, f, Initing);
    }
  }

  /** The run that goes wrong: `retryNow` while attempt `f` waits for its mirror to start, both
      starts land, and then stop is called. */
  function Impatient(s: Emitter, f: nat, m: nat, delays: seq<int>): Emitter
    requires |delays| > 0
  {
    Landed(RetriedTo(s, delays), f, s.nextFlight, m, |s.mirrors|, delays)
  }

  function RetriedTo(s: Emitter, delays: seq<int>): Emitter
    requires |delays| > 0
  {
    var retried := Apply(s, RetryNow, delays);
    var opening := Apply(retried, Advances(s.nextFlight, true, 0), delays);
    Apply(opening, Advances(s.nextFlight, true, 0), delays)
  }

  function Landed(s: Emitter, f: nat, g: nat, m: nat, n: nat, delays: seq<int>): Emitter
    requires |delays| > 0
  {
    var running := Apply(Apply(s, StartResolves(m), delays), Advances(f, true, 0), delays);
    var replaced := Apply(Apply(running, StartResolves(n), delays), Advances(g, true, 0), delays);
    Apply(replaced, StopCalled, delays)
  }

  /** An impatient retry leaks: from any such moment the run ends stopped with no attempt under way,
      and the first mirror still subscribed. */
  lemma ImpatientRetryLeaks(s: Emitter, f: nat, m: nat, delays: seq<int>)
    requires |delays| > 0 && Valid(s, delays) && !s.stopped && f in s.flights && s.flights[f] == Syncing(m)
    requires m < |s.mirrors| && s.mirrors[m] == Tail(Pending, false, false)
    ensures var t := Impatient(s, f, m, delays);
      t.stopped && t.flights == map[] && |t.mirrors| == |s.mirrors| + 1 && t.mirrors[m] == Tail(Resolved, false, true)
  {
    RetryStartsAnother(s, f, m, delays);
    BothLand(RetriedTo(s, delays), f, s.nextFlight, m, |s.mirrors|, delays);
  }

  lemma RetryStartsAnother(s: Emitter, f: nat, m: nat, delays: seq<int>)
    requires |delays| > 0 && Valid(s, delays) && !s.stopped && f in s.flights && s.flights[f] == Syncing(m)
    ensures var t := RetriedTo(s, delays);
      && t.flights == map[f := Syncing(m), s.nextFlight := Syncing(|s.mirrors|)] && f != s.nextFlight
      && t.mirrors == s.mirrors + [Tail(Pending, false, false)] && !t.stopped
  {
    OneFlight(s.flights, f, Initing);
    var retried := Apply(s, RetryNow, delays);
    assert retried.flights == map[f := Syncing(m), s.nextFlight := Initing];
    var opening := Apply(retried, Advances(s.nextFlight, true, 0), delays);
    assert opening.flights == map[f := Syncing(m), s.nextFlight := Opening];
  }

  lemma BothLand(s: Emitter, f: nat, g: nat, m: nat, n: nat, delays: seq<int>)
    requires |delays| > 0 && !s.stopped && f != g && m < n < |s.mirrors|
    requires s.flights == map[f := Syncing(m), g := Syncing(n)]
    requires s.mirrors[m] == Tail(Pending, false, false) && s.mirrors[n] == Tail(Pending, false, false)
    ensures var t := Landed(s, f, g, m, n, delays);
      t.stopped && t.flights == map[] && |t.mirrors| == |s.mirrors| && t.mirrors[m] == Tail(Resolved, false, true)
  {
    var running := Apply(Apply(s, StartResolves(m), delays), Advances(f, true, 0), delays);
    assert running.flights == map[g := Syncing(n)] && running.mirrors[m] == Tail(Resolved, false, true);
    var replaced := Apply(Apply(running, StartResolves(n), delays), Advances(g, true, 0), delays);
    assert replaced.flights == map[] && replaced.tail == Some(n);
  }

  // ----- the supervisor itself -----

  class EmitterSupervisor {
    const delays: seq<int>
    var tail: Option<nat>
    var attempts: nat
    var nextRetryAt: Option<int>
    var timer: Option<nat>
    var stopped: bool
    var flights: map<nat, Stage>
    var nextFlight: nat
    var armed: set<nat>
    var nextTimer: nat
    var mirrors: seq<Tail>
    var outcomes: seq<Outcome>

    function View(): Emitter
      reads this
    {
      Emitter(tail, attempts, nextRetryAt, timer, stopped, flights, nextFlight, armed, nextTimer, mirrors, outcomes)
    }

    /** Made and asked to start. */
    constructor (delays: seq<int>)
      requires |delays| > 0
      ensures this.delays == delays && View() == Asked()
    {
      this.delays := delays;
      tail, attempts, nextRetryAt, timer, stopped := None, 0, None, None, false;
      flights, nextFlight, armed, nextTimer, mirrors, outcomes := map[], 0, {}, 0, [], [];
      new;
      Attempt();
    }

    method Attempt()
      modifies this
      ensures View() == Attempted(old(View()))
    {
      if stopped || tail.Some? {
        return;
      }
      attempts := attempts + 1;
      flights, nextFlight := flights[nextFlight := Initing], nextFlight + 1;
    }

    method CancelTimer()
      modifies this`armed, this`timer
      ensures View() == Cancelled(old(View()))
    {
      if timer.Some? {
        armed := armed - {timer.value};
        timer := None;
      }
    }

    method RetryNow()
      requires |delays| > 0
      modifies this
      ensures View() == Apply(old(View()), Step.RetryNow, delays)
    {
      if stopped || tail.Some? {
        return;
      }
      CancelTimer();
      Attempt();
    }

    method TimerFires(t: nat)
      requires |delays| > 0
      modifies this
      ensures View() == Apply(old(View()), Step.TimerFires(t), delays)
    {
      if t in armed {
        armed := armed - {t};
        timer := None;
        Attempt();
      }
    }

    method ScheduleRetry(now: int)
      requires |delays| > 0
      modifies this`nextRetryAt, this`timer, this`armed, this`nextTimer, this`outcomes
      ensures stopped ==> View() == old(View()).(outcomes := old(outcomes) + [Failed(None)])
      ensures !stopped ==> var wait := Delay(delays, attempts);
        View() == old(View()).(outcomes := old(outcomes) + [Failed(Some(wait))], nextRetryAt := Some(now + wait),
          timer := Some(old(nextTimer)), armed := old(armed) + {old(nextTimer)}, nextTimer := old(nextTimer) + 1)
    {
      if stopped {
        outcomes := outcomes + [Failed(None)];
        return;
      }
      var last := |delays| - 1;
      var wait := delays[if attempts == 0 then 0 else if attempts - 1 < last then attempts - 1 else last];
      outcomes := outcomes + [Failed(Some(wait))];
      nextRetryAt := Some(now + wait);
      timer, armed, nextTimer := Some(nextTimer), armed + {nextTimer}, nextTimer + 1;
    }

    /** An attempt's body, from what it waited for to the next. */
    method Resume(flight: nat, ok: bool, now: int)
      requires |delays| > 0
      modifies this
      ensures View() == Advanced(old(View()), flight, ok, now, delays)
    {
      if flight !in flights {
        return;
      }
      match flights[flight] {
        case Initing =>
          flights := flights[flight := if ok then Opening else Dropping(true)];
        case Opening =>
          if ok {
            flights, mirrors := flights[flight := Syncing(|mirrors|)], mirrors + [Tail(Pending, false, false)];
          } else {
            flights := flights[flight := Dropping(true)];
          }
        case Syncing(m) =>
          if !ok {
            flights, mirrors := flights[flight := Dropping(true)], StopMirror(mirrors, m);
          } else if m < |mirrors| && mirrors[m].start == Resolved {
            if stopped {
              flights, mirrors := flights[flight := Dropping(false)], StopMirror(mirrors, m);
            } else {
              flights, tail := flights - {flight}, Some(m);
              nextRetryAt, attempts, outcomes := None, 0, outcomes + [Started];
            }
          }
        case Dropping(failed) =>
          flights := flights - {flight};
          if failed {
            ScheduleRetry(now);
          }
      }
    }

    /** A mirror's start call lands, however late. */
    method StartLands(m: nat)
      requires |delays| > 0
      modifies this`mirrors
      ensures View() == Apply(old(View()), StartResolves(m), delays)
    {
      if m < |mirrors| && mirrors[m].start.Pending? {
        mirrors := mirrors[m := mirrors[m].(start := Resolved, held := !mirrors[m].stopped)];
      }
    }

    method Stop()
      requires |delays| > 0
      modifies this
      ensures View() == Apply(old(View()), StopCalled, delays)
    {
      stopped := true;
      CancelTimer();
      nextRetryAt := None;
      if tail.Some? {
        mirrors := StopMirror(mirrors, tail.value);
      }
    }
  }
}
