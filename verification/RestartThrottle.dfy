/** The service's restarts: throttled, deferred rather than dropped, and raced by close.
    (wiki-mirror/src/main.ts:158-274) */
module RestartThrottle {
  import opened Options

  const MIN_RESTART_INTERVAL_MS := 60_000

  /** Where one running restart is waiting. */
  datatype Stage = StoppingEmitters | ClosingEngine | StartingEmitters
  datatype Closing = Serving | Draining | TearingDown | Closed

  /** The service's fields, the restarts under way, and every supervisor and engine it ever made:
      `stopped` and `shut` are those told to stop or close. */
  datatype Service = Service(
    lastRestartAt: int, restarting: Option<nat>, deferred: Option<int>, closing: Closing,
    flights: map<nat, Stage>, nextFlight: nat,
    listed: set<nat>, stopped: set<nat>, nextSupervisor: nat,
    engine: nat, shut: set<nat>)

  datatype Step =
    | Request(now: int)
    | TimerFires(now: int)
    | Advances(flight: nat, ok: bool)
    | CloseCalled
    | Drained
    | EngineCloses

  function Fresh(next: nat, count: nat): (ids: set<nat>)
    ensures forall i: nat :: i in ids <==> next <= i < next + count
  {
    if count == 0 then {} else Fresh(next, count - 1) + {next + count - 1}
  }

  /** The service once started. */
  function Booted(emitters: nat): Service {
    Service(0, None, None, Serving, map[], 0, Fresh(0, emitters), {}, emitters, 0, {})
  }

  function Restarted(s: Service, now: int): Service {
    if s.closing != Serving || s.restarting.Some? then s
    else if now - s.lastRestartAt < MIN_RESTART_INTERVAL_MS then
      if s.deferred.Some? then s
      else s.(deferred := Some(now + (MIN_RESTART_INTERVAL_MS - (now - s.lastRestartAt))))
    else
      s.(lastRestartAt := now, restarting := Some(s.nextFlight),
         flights := s.flights[s.nextFlight := StoppingEmitters], nextFlight := s.nextFlight + 1,
         listed := {}, stopped := s.stopped + s.listed)
  }

  /** A restart has returned or thrown. */
  function Settled(s: Service, flight: nat): Service {
    s.(flights := s.flights - {flight}, restarting := None)
  }

  /** A restart resumes after the step it waited for, which went well or not. */
  function Advanced(s: Service, flight: nat, ok: bool, emitters: nat): Service {
    if flight !in s.flights then s
    else match s.flights[flight]
      case StoppingEmitters =>
        if !ok then Settled(s, flight)
        else s.(flights := s.flights[flight := ClosingEngine], shut := s.shut + {s.engine})
      case ClosingEngine =>
        if s.closing != Serving || !ok then Settled(s, flight)
        else s.(flights := s.flights[flight := StartingEmitters], engine := s.engine + 1,
                listed := Fresh(s.nextSupervisor, emitters), nextSupervisor := s.nextSupervisor + emitters)
      case StartingEmitters => Settled(s, flight)
  }

  /** One step of the world; a step that cannot happen changes nothing. */
  function Apply(s: Service, step: Step, emitters: nat): Service {
    match step
    case Request(now) => Restarted(s, now)
    case TimerFires(now) => if s.deferred.Some? then Restarted(s.(deferred := None), now) else s
    case Advances(flight, ok) => Advanced(s, flight, ok, emitters)
    case CloseCalled => if s.closing == Serving then s.(closing := Draining, deferred := None) else s
    case Drained =>
      if s.closing == Draining && s.restarting.None?
      then s.(closing := TearingDown, listed := {}, stopped := s.stopped + s.listed) else s
    case EngineCloses => if s.closing == TearingDown then s.(closing := Closed, shut := s.shut + {s.engine}) else s
  }

  /** The service after the first `n` steps of a run. */
  function At(steps: seq<Step>, n: nat, emitters: nat): Service
    requires n <= |steps|
  {
    if n == 0 then Booted(emitters) else Apply(At(steps, n - 1, emitters), steps[n - 1], emitters)
  }

  ghost predicate Valid(s: Service) {
    && s.flights.Keys == (if s.restarting.Some? then {s.restarting.value} else {})
    && (s.restarting.Some? ==> s.restarting.value < s.nextFlight)
    && (s.deferred.Some? ==> s.closing == Serving && s.deferred.value <= s.lastRestartAt + MIN_RESTART_INTERVAL_MS)
    && (s.restarting.Some? && s.flights[s.restarting.value] != StartingEmitters ==> s.listed == {})
    && (s.restarting.Some? && s.flights[s.restarting.value] == ClosingEngine ==> s.engine in s.shut)
    && (forall i: nat :: i < s.nextSupervisor ==> i in s.listed || i in s.stopped)
    && (forall e: nat :: e < s.engine ==> e in s.shut)
    && (s.closing in {TearingDown, Closed} ==> s.restarting.None? && s.listed == {})
    && (s.closing == Closed ==> s.engine in s.shut)
  }

  lemma RestartedKeeps(s: Service, now: int)
    requires Valid(s)
    ensures Valid(Restarted(s, now))
  {
    if s.restarting.None? {
      assert s.flights == map[];
    }
  }

  lemma AdvancedKeeps(s: Service, flight: nat, ok: bool, emitters: nat)
    requires Valid(s)
    ensures Valid(Advanced(s, flight, ok, emitters))
  {
    if flight in s.flights {
      assert s.restarting == Some(flight);
    }
  }

  lemma StepKeeps(s: Service, step: Step, emitters: nat)
    requires Valid(s)
    ensures Valid(Apply(s, step, emitters))
  {
    match step
    case Request(now) => RestartedKeeps(s, now);
    case TimerFires(now) => RestartedKeeps(s.(deferred := None), now);
    case Advances(flight, ok) => AdvancedKeeps(s, flight, ok, emitters);
    case _ =>
  }

  /** Every interleaving keeps the service valid: at most one restart is in flight, and `restarting`
      is it. */
  lemma {:induction false} RunKeeps(steps: seq<Step>, n: nat, emitters: nat)
    requires n <= |steps|
    ensures Valid(At(steps, n, emitters)) && |At(steps, n, emitters).flights| <= 1
  {
    if n == 0 {
      BootedIsValid(emitters);
    } else {
      RunKeeps(steps, n - 1, emitters);
      StepKeeps(At(steps, n - 1, emitters), steps[n - 1], emitters);
    }
    AtMostOne(At(steps, n, emitters));
  }

  lemma BootedIsValid(emitters: nat)
    ensures Valid(Booted(emitters))
  {
  }

  lemma AtMostOne(s: Service)
    requires Valid(s)
    ensures |s.flights| <= 1
  {
    assert |s.flights| == |s.flights.Keys|;
  }

  /** Once close has resolved nothing is left: no supervisor listed, none ever made still going, no
      engine open, no timer armed and no restart in flight. */
  lemma ClosedLeavesNothing(steps: seq<Step>, n: nat, emitters: nat)
    requires n <= |steps| && At(steps, n, emitters).closing == Closed
    ensures var s := At(steps, n, emitters);
      && s.listed == {} && s.deferred.None? && s.flights == map[]
      && (forall i: nat :: i < s.nextSupervisor ==> i in s.stopped)
      && (forall e: nat :: e <= s.engine ==> e in s.shut)
  {
    RunKeeps(steps, n, emitters);
  }

  // ----- the throttle -----

  predicate Starts(steps: seq<Step>, i: nat, emitters: nat)
    requires i < |steps|
  {
    At(steps, i + 1, emitters).nextFlight > At(steps, i, emitters).nextFlight
  }

  lemma {:induction false} TimeSinceStart(steps: seq<Step>, i: nat, j: nat, emitters: nat)
    requires i <= j <= |steps|
    ensures var s, t := At(steps, i, emitters), At(steps, j, emitters);
      && s.nextFlight <= t.nextFlight && s.lastRestartAt <= t.lastRestartAt
      && (t.nextFlight > s.nextFlight ==> t.lastRestartAt - s.lastRestartAt >= MIN_RESTART_INTERVAL_MS)
  {
    if i < j {
      TimeSinceStart(steps, i, j - 1, emitters);
    }
  }

  /** Any two restarts of a run start at least the minimum interval apart. */
  lemma StartsAreSpaced(steps: seq<Step>, i: nat, j: nat, emitters: nat)
    requires i < j < |steps| && Starts(steps, i, emitters) && Starts(steps, j, emitters)
    ensures At(steps, j + 1, emitters).lastRestartAt - At(steps, i + 1, emitters).lastRestartAt >=
      MIN_RESTART_INTERVAL_MS
  {
    TimeSinceStart(steps, i + 1, j + 1, emitters);
    TimeSinceStart(steps, i + 1, j, emitters);
  }

  /** What a request is owed: a restart begun since, or an armed timer with none in the way. */
  predicate Honoured(s: Service, begun: nat) {
    s.nextFlight > begun || (s.deferred.Some? && s.restarting.None?)
  }

  lemma StepHonours(s: Service, step: Step, begun: nat, emitters: nat)
    requires Valid(s) && s.nextFlight >= begun && (Honoured(s, begun) || (step.Request? && s.restarting.None?))
    requires Apply(s, step, emitters).closing == Serving
    ensures Honoured(Apply(s, step, emitters), begun)
  {
  }

  /** No request is dropped: until close is called, a request is absorbed by the restart already in
      flight, or one has started since, or the timer stands armed to start one. */
  lemma {:induction false} NothingDropped(steps: seq<Step>, i: nat, j: nat, emitters: nat)
    requires i < j <= |steps| && steps[i].Request?
    requires At(steps, j, emitters).closing == Serving
    ensures At(steps, i, emitters).restarting.Some?
      || Honoured(At(steps, j, emitters), At(steps, i, emitters).nextFlight)
  {
    ServedBefore(steps, j, emitters);
    if j > i + 1 {
      NothingDropped(steps, i, j - 1, emitters);
    }
    if At(steps, i, emitters).restarting.None? {
      RunKeeps(steps, j - 1, emitters);
      TimeSinceStart(steps, i, j - 1, emitters);
      StepHonours(At(steps, j - 1, emitters), steps[j - 1], At(steps, i, emitters).nextFlight, emitters);
    }
  }

  lemma ServedBefore(steps: seq<Step>, j: nat, emitters: nat)
    requires 0 < j <= |steps| && At(steps, j, emitters).closing == Serving
    ensures At(steps, j - 1, emitters).closing == Serving
  {
  }

  /** Nor postponed for ever: a timer firing when due finds or starts a restart, unless another one
      started since the timer was armed. */
  lemma DueTimerStarts(steps: seq<Step>, n: nat, now: int, emitters: nat)
    requires n <= |steps|
    requires var s := At(steps, n, emitters); s.deferred.Some? && s.deferred.value <= now
    ensures var s, t := At(steps, n, emitters), Apply(At(steps, n, emitters), TimerFires(now), emitters);
      || t.restarting.Some?
      || (t.deferred.Some? && s.deferred.value < t.deferred.value == s.lastRestartAt + MIN_RESTART_INTERVAL_MS)
  {
    RunKeeps(steps, n, emitters);
  }

  // ----- what is left running -----

  /** Nothing a restart waits for throws. Stopping an emitter drains its tail and absorbs the failure, a
      failure to close the engine is caught, and building the next one repeats what went well at boot. */
  ghost predicate Smooth(steps: seq<Step>) {
    forall i :: 0 <= i < |steps| && steps[i].Advances? ==> steps[i].ok
  }

  /** The supervisors made last, one for each emitter. */
  predicate Latest(s: Service, emitters: nat) {
    s.nextSupervisor >= emitters && s.listed == Fresh(s.nextSupervisor - emitters, emitters)
  }

  /** Where a restart stands, or none, while the service serves: between the stopping of the old supervisors
      and the start of the new none is listed, and only between the engines is there none. */
  ghost predicate Staffed(s: Service, emitters: nat) {
    && (forall e :: e in s.shut ==> e <= s.engine)
    && (s.restarting.None? ==> Latest(s, emitters) && s.engine !in s.shut)
    && (s.restarting.Some? ==>
          && s.restarting.value in s.flights
          && match s.flights[s.restarting.value]
             case StoppingEmitters => s.listed == {} && s.engine !in s.shut
             case ClosingEngine => s.listed == {}
             case StartingEmitters => Latest(s, emitters) && s.engine !in s.shut)
  }

  lemma StepStaffs(s: Service, step: Step, emitters: nat)
    requires Valid(s) && Staffed(s, emitters) && (step.Advances? ==> step.ok)
    ensures Apply(s, step, emitters).closing == Serving ==> Staffed(Apply(s, step, emitters), emitters)
  {
  }

  lemma {:induction false} RunStaffs(steps: seq<Step>, n: nat, emitters: nat)
    requires n <= |steps| && Smooth(steps) && At(steps, n, emitters).closing == Serving
    ensures Staffed(At(steps, n, emitters), emitters)
  {
    if n > 0 {
      ServedBefore(steps, n, emitters);
      RunStaffs(steps, n - 1, emitters);
      RunKeeps(steps, n - 1, emitters);
      StepStaffs(At(steps, n - 1, emitters), steps[n - 1], emitters);
    }
  }

  /** Every restart ends with the mirror running: over every interleaving, whenever the service serves and no
      restart is under way, its engine is open and it lists the supervisors made last, one for each emitter;
      every earlier engine is shut and every earlier supervisor stopped. */
  lemma EmittersListed(steps: seq<Step>, n: nat, emitters: nat)
    requires n <= |steps| && Smooth(steps)
    requires var s := At(steps, n, emitters); s.closing == Serving && s.restarting.None?
    ensures var s := At(steps, n, emitters);
      && Latest(s, emitters) && s.engine !in s.shut
      && (forall e: nat :: e < s.engine ==> e in s.shut)
      && (forall i: nat :: i < s.nextSupervisor - emitters ==> i in s.stopped)
  {
    RunStaffs(steps, n, emitters);
    RunKeeps(steps, n, emitters);
  }

  // ----- the service itself -----

  class MirrorService {
    const emitters: nat
    var lastRestartAt: int
    var restarting: Option<nat>
    var deferred: Option<int>
    var closing: Closing
    var flights: map<nat, Stage>
    var nextFlight: nat
    var supervisorList: set<nat>
    var stopped: set<nat>
    var nextSupervisor: nat
    var engine: nat
    var shut: set<nat>

    function View(): Service
      reads this
    {
      Service(lastRestartAt, restarting, deferred, closing, flights, nextFlight, supervisorList, stopped,
        nextSupervisor, engine, shut)
    }

    constructor (emitters: nat)
      ensures this.emitters == emitters && View() == Booted(emitters)
    {
      this.emitters := emitters;
      lastRestartAt, restarting, deferred, closing := 0, None, None, Serving;
      flights, nextFlight := map[], 0;
      supervisorList, stopped, nextSupervisor := Fresh(0, emitters), {}, emitters;
      engine, shut := 0, {};
    }

    method StopEmitters()
      modifies this`supervisorList, this`stopped
      ensures supervisorList == {} && stopped == old(stopped) + old(supervisorList)
    {
      var supervisors := supervisorList;
      supervisorList := {};
      stopped := stopped + supervisors;
    }

    method StartEmitters()
      modifies this`supervisorList, this`nextSupervisor
      ensures supervisorList == Fresh(old(nextSupervisor), emitters) && nextSupervisor == old(nextSupervisor) + emitters
    {
      supervisorList := Fresh(nextSupervisor, emitters);
      nextSupervisor := nextSupervisor + emitters;
    }

    method Restart(now: int)
      modifies this
      ensures View() == Restarted(old(View()), now)
    {
      if closing != Serving || restarting.Some? {
        return;
      }
      var sinceLast := now - lastRestartAt;
      if sinceLast < MIN_RESTART_INTERVAL_MS {
        if deferred.None? {
          deferred := Some(now + (MIN_RESTART_INTERVAL_MS - sinceLast));
        }
        return;
      }
      lastRestartAt := now;
      restarting, flights, nextFlight := Some(nextFlight), flights[nextFlight := StoppingEmitters], nextFlight + 1;
      StopEmitters();
    }

    method DeferredFires(now: int)
      modifies this
      ensures View() == Apply(old(View()), TimerFires(now), emitters)
    {
      if deferred.Some? {
        deferred := None;
        Restart(now);
      }
    }

    /** The restart's body, from the step it waited for to the next. */
    method DoRestart(flight: nat, ok: bool)
      modifies this
      ensures View() == Advanced(old(View()), flight, ok, emitters)
    {
      if flight !in flights {
        return;
      }
      match flights[flight] {
        case StoppingEmitters =>
          if ok {
            shut := shut + {engine};
            flights := flights[flight := ClosingEngine];
            return;
          }
        case ClosingEngine =>
          if closing == Serving && ok {
            engine := engine + 1;
            StartEmitters();
            flights := flights[flight := StartingEmitters];
            return;
          }
        case StartingEmitters =>
      }
      flights, restarting := flights - {flight}, None;
    }

    /** Close, up to waiting for a restart in flight. */
    method Close()
      modifies this
      ensures View() == Apply(old(View()), CloseCalled, emitters)
    {
      if closing == Serving {
        closing := Draining;
        deferred := None;
      }
    }

    /** Close, once no restart is in flight. */
    method TearDown()
      modifies this
      ensures View() == Apply(old(View()), Drained, emitters)
    {
      if closing == Draining && restarting.None? {
        StopEmitters();
        closing := TearingDown;
      }
    }

    /** Close, at its end. */
    method CloseEngine()
      modifies this
      ensures View() == Apply(old(View()), EngineCloses, emitters)
    {
      if closing == TearingDown {
        shut := shut + {engine};
        closing := Closed;
      }
    }
  }
}
