/** The primary process of the batch runner: it keeps workers running, re-forks
    with a backoff, and once stopped drains them and exits. */
module Primary {
  import opened Wrappers
  import opened Numbers

  const INITIAL_MS: nat := 1_000
  const MAX_MS: nat := 30_000
  const HEALTHY_MS: nat := 60_000

  /** The code of a worker whose source will not deliver again. */
  const SOURCE_CLOSED: nat := 2

  /** A worker is `live` until its exit event and `connected` until its disconnect
      event; the cluster lists it until both have come. `times` are the exits that
      were answered with a timer, `codes` the exit codes that count for a drain. */
  datatype Primary = Primary(workers: nat, forks: nat, live: set<nat>, connected: set<nat>, timers: nat,
                             stopping: bool, signalled: set<nat>, delayMs: nat, lastExitAt: Option<int>,
                             exitCode: nat, exit: Option<nat>, now: int, times: seq<int>, codes: seq<nat>)

  /** What can happen next, in any order. A worker killed by a signal has no code. */
  datatype Event =
    | Later(ms: nat)
    | Exited(worker: nat, code: Option<nat>)
    | Disconnected(worker: nat)
    | TimerFired
    | Sigterm

  function Listed(p: Primary): set<nat> {
    p.live + p.connected
  }

  // ---- Steps ----

  function Fork(p: Primary): Primary {
    p.(forks := p.forks + 1, live := p.live + {p.forks}, connected := p.connected + {p.forks})
  }

  function Forks(p: Primary, n: nat): Primary {
    if n == 0 then p else Fork(Forks(p, n - 1))
  }

  function Begin(workers: nat, now: int): Primary {
    Forks(Primary(workers, 0, {}, {}, 0, false, {}, 0, None, 0, None, now, [], []), workers)
  }

  function ExitWhenDrained(p: Primary): Primary {
    if Listed(p) == {} then p.(exit := Some(p.exitCode)) else p
  }

  function Stop(p: Primary): Primary {
    ExitWhenDrained(p.(stopping := true, signalled := p.signalled + Listed(p)))
  }

  /** `nextReforkDelay`. */
  function NextDelay(p: Primary): Primary {
    p.(delayMs := if p.lastExitAt.None? || p.now - p.lastExitAt.value >= HEALTHY_MS then INITIAL_MS
                  else Min(p.delayMs * 2, MAX_MS),
       lastExitAt := Some(p.now), times := p.times + [p.now])
  }

  function ExitedSpec(p: Primary, worker: nat, code: Option<nat>): Primary {
    if worker !in p.live then p
    else
      var p' := p.(live := p.live - {worker});
      if p.stopping then
        var counted := if code.Some? then code.value else 1;
        ExitWhenDrained(p'.(exitCode := Max(p.exitCode, counted), codes := p.codes + [counted]))
      else if code == Some(SOURCE_CLOSED) then
        Stop(p'.(exitCode := SOURCE_CLOSED, codes := p.codes + [SOURCE_CLOSED]))
      else NextDelay(p').(timers := p.timers + 1)
  }

  function DisconnectedSpec(p: Primary, worker: nat): Primary {
    if worker !in p.connected then p
    else
      var p' := p.(connected := p.connected - {worker});
      if p.stopping then ExitWhenDrained(p') else p'
  }

  function TimerFiredSpec(p: Primary): Primary {
    if p.timers == 0 then p
    else
      var p' := p.(timers := p.timers - 1);
      if p.stopping then p' else Fork(p')
  }

  /** Nothing happens once the process has exited. */
  function Step(p: Primary, e: Event): Primary {
    if p.exit.Some? then p
    else
      match e
      case Later(ms) => p.(now := p.now + ms)
      case Exited(worker, code) => ExitedSpec(p, worker, code)
      case Disconnected(worker) => DisconnectedSpec(p, worker)
      case TimerFired => TimerFiredSpec(p)
      case Sigterm => Stop(p)
  }

  // ---- What every step keeps ----

  /** The delay after n consecutive early exits. */
  function Backoff(n: nat): nat {
    Min(INITIAL_MS * Pow2(n), MAX_MS)
  }

  /** How many of the latest exits came early, within a minute of the one before. */
  function Streak(times: seq<int>): nat {
    if |times| <= 1 || times[|times| - 1] - times[|times| - 2] >= HEALTHY_MS then 0
    else 1 + Streak(times[..|times| - 1])
  }

  function MaxOf(codes: seq<nat>): nat {
    if codes == [] then 0 else Max(MaxOf(codes[..|codes| - 1]), codes[|codes| - 1])
  }

  /** Every worker not running has a timer to replace it. */
  ghost predicate Staffed(p: Primary)
  {
    && (forall w :: w in p.live || w in p.connected ==> w < p.forks)
    && (!p.stopping ==> |p.live| + p.timers == p.workers && p.exit.None? && p.codes == [])
  }

  ghost predicate BacksOff(p: Primary)
  {
    && p.lastExitAt == (if p.times == [] then None else Some(p.times[|p.times| - 1]))
    && (p.times != [] ==> p.delayMs == Backoff(Streak(p.times)))
  }

  /** A stopped primary told every worker, and exits exactly when none is listed,
      with the highest code that counts. */
  ghost predicate Drains(p: Primary)
  {
    && p.exitCode == MaxOf(p.codes)
    && (p.stopping ==> p.live <= p.signalled)
    && (p.exit.Some? <==> p.stopping && Listed(p) == {})
    && (p.exit.Some? ==> p.exit.value == MaxOf(p.codes))
  }

  ghost predicate Valid(p: Primary)
  {
    Staffed(p) && BacksOff(p) && Drains(p)
  }

  lemma MaxSnoc(codes: seq<nat>, code: nat)
    ensures MaxOf(codes + [code]) == Max(MaxOf(codes), code)
  {
    assert (codes + [code])[..|codes|] == codes;
  }

  lemma {:induction false} MaxIsMax(codes: seq<nat>)
    ensures forall k :: 0 <= k < |codes| ==> codes[k] <= MaxOf(codes)
    ensures codes != [] ==> MaxOf(codes) in codes
  {
    if codes != [] {
      MaxIsMax(codes[..|codes| - 1]);
    }
  }

  /** Doubling and capping is capping the power. */
  lemma BackoffDoubles(n: nat)
    ensures Backoff(n + 1) == Min(Backoff(n) * 2, MAX_MS)
  {
  }

  lemma NextDelayKeeps(p: Primary)
    requires BacksOff(p)
    ensures BacksOff(NextDelay(p)) && NextDelay(p).delayMs == Backoff(Streak(p.times + [p.now]))
  {
    var times := p.times + [p.now];
    assert times[..|p.times|] == p.times;
    if p.times != [] {
      BackoffDoubles(Streak(p.times));
      assert Streak(times) == if p.now - p.times[|p.times| - 1] >= HEALTHY_MS then 0 else 1 + Streak(p.times);
    }
    assert Pow2(0) == 1;
    hide Streak;
  }

  lemma DrainingExitKeeps(p: Primary, worker: nat, counted: nat)
    requires Valid(p) && p.exit.None? && p.stopping && worker in p.live
    ensures Valid(ExitWhenDrained(p.(live := p.live - {worker}, exitCode := Max(p.exitCode, counted),
                                     codes := p.codes + [counted])))
  {
    MaxSnoc(p.codes, counted);
    hide Backoff, Streak, MaxOf;
  }

  lemma ClosedExitKeeps(p: Primary, worker: nat)
    requires Valid(p) && !p.stopping && worker in p.live
    ensures Valid(Stop(p.(live := p.live - {worker}, exitCode := SOURCE_CLOSED, codes := p.codes + [SOURCE_CLOSED])))
  {
    MaxSnoc(p.codes, SOURCE_CLOSED);
    assert MaxOf([]) == 0;
    hide Backoff, Streak, MaxOf;
  }

  lemma CrashExitKeeps(p: Primary, worker: nat)
    requires Valid(p) && !p.stopping && worker in p.live
    ensures Valid(NextDelay(p.(live := p.live - {worker})).(timers := p.timers + 1))
  {
    assert |p.live - {worker}| == |p.live| - 1;
    NextDelayKeeps(p.(live := p.live - {worker}));
    hide Backoff, Streak, MaxOf;
  }

  lemma ExitedKeeps(p: Primary, worker: nat, code: Option<nat>)
    requires Valid(p) && p.exit.None?
    ensures Valid(ExitedSpec(p, worker, code))
  {
    if worker in p.live {
      if p.stopping {
        DrainingExitKeeps(p, worker, if code.Some? then code.value else 1);
      } else if code == Some(SOURCE_CLOSED) {
        ClosedExitKeeps(p, worker);
      } else {
        CrashExitKeeps(p, worker);
      }
    }
    hide Valid, ExitWhenDrained, Stop, NextDelay, Max;
  }

  lemma TimerFiredKeeps(p: Primary)
    requires Valid(p) && p.exit.None?
    ensures Valid(TimerFiredSpec(p))
  {
    if p.timers > 0 && !p.stopping {
      assert p.forks !in p.live;
      assert |p.live + {p.forks}| == |p.live| + 1;
    }
    hide Backoff, Streak, MaxOf;
  }

  lemma DisconnectedKeeps(p: Primary, worker: nat)
    requires Valid(p) && p.exit.None?
    ensures Valid(DisconnectedSpec(p, worker))
  {
    hide Backoff, Streak, MaxOf;
  }

  lemma StopKeeps(p: Primary)
    requires Valid(p) && p.exit.None?
    ensures Valid(Stop(p))
  {
    hide Backoff, Streak, MaxOf;
  }

  lemma LaterKeeps(p: Primary, ms: nat)
    requires Valid(p)
    ensures Valid(p.(now := p.now + ms))
  {
    hide Backoff, Streak, MaxOf;
  }

  lemma StepKeeps(p: Primary, e: Event)
    requires Valid(p)
    ensures Valid(Step(p, e))
  {
    hide Valid, ExitedSpec, DisconnectedSpec, TimerFiredSpec, Stop;
    if p.exit.None? {
      match e
      case Exited(worker, code) => ExitedKeeps(p, worker, code);
      case TimerFired => TimerFiredKeeps(p);
      case Later(ms) => LaterKeeps(p, ms);
      case Disconnected(worker) => DisconnectedKeeps(p, worker);
      case Sigterm => StopKeeps(p);
    }
  }

  /** Once stopping, nothing is forked and nothing un-stops it. */
  lemma StoppedForksNothing(p: Primary, e: Event)
    ensures p.stopping ==> Step(p, e).stopping && Step(p, e).forks == p.forks && Step(p, e).times == p.times
  {
  }

  lemma {:induction false} ForksStaffs(p: Primary, n: nat)
    requires p.forks == 0 && p.live == {} && p.connected == {}
    ensures
      var p' := Forks(p, n);
      && p' == p.(forks := n, live := p'.live, connected := p'.live)
      && |p'.live| == n && forall w :: w in p'.live ==> w < n
  {
    if n > 0 {
      ForksStaffs(p, n - 1);
      assert n - 1 !in Forks(p, n - 1).live;
    }
  }

  lemma BeginValid(workers: nat, now: int)
    ensures Valid(Begin(workers, now)) && |Begin(workers, now).live| == workers == Begin(workers, now).workers
  {
    ForksStaffs(Primary(workers, 0, {}, {}, 0, false, {}, 0, None, 0, None, now, [], []), workers);
  }

  function RunSpec(p: Primary, events: seq<Event>): Primary
    decreases |events|
  {
    if events == [] then p else RunSpec(Step(p, events[0]), events[1..])
  }

  /** Every run: while not stopping, live workers and timers make up `workers`; the
      delay is the backoff of the current streak; a stopped primary forks nothing,
      and has exited exactly when no worker is listed, with the highest code. */
  lemma {:induction false} EveryRun(p: Primary, events: seq<Event>)
    requires Valid(p)
    ensures
      var p' := RunSpec(p, events);
      && (!p'.stopping ==> |p'.live| + p'.timers == p'.workers == p.workers)
      && (p'.times != [] ==> p'.delayMs == Backoff(Streak(p'.times)))
      && (p.stopping ==> p'.forks == p.forks)
      && (p'.stopping ==> (p'.exit.Some? <==> Listed(p') == {}))
      && (p'.exit.Some? ==> p'.stopping && p'.live == {} && p'.exit.value == MaxOf(p'.codes))
    decreases |events|
  {
    if events != [] {
      StepKeeps(p, events[0]);
      StoppedForksNothing(p, events[0]);
      SameWorkers(p, events[0]);
      hide Step, Staffed, BacksOff, Drains;
      EveryRun(Step(p, events[0]), events[1..]);
    }
  }

  lemma SameWorkers(p: Primary, e: Event)
    ensures Step(p, e).workers == p.workers
  {
  }

  // ---- What each event does ----

  /** The exit of a worker: while the primary drains its code counts, 1 if a signal killed
      it; before, the code of a closed source makes it stop with that code, and any
      other exit schedules a replacement and counts nothing. */
  lemma ExitedDoes(p: Primary, worker: nat, code: Option<nat>)
    requires Valid(p) && p.exit.None? && worker in p.live
    ensures
      var p' := Step(p, Exited(worker, code));
      && p'.live == p.live - {worker} && p'.connected == p.connected && p'.forks == p.forks
      && (p.stopping ==>
            var counted := if code.Some? then code.value else 1;
            && p'.exitCode == (if counted > p.exitCode then counted else p.exitCode)
            && p'.stopping && p'.timers == p.timers && p'.times == p.times && p'.signalled == p.signalled)
      && (!p.stopping && code == Some(SOURCE_CLOSED) ==>
            && p'.stopping && p'.exitCode == SOURCE_CLOSED
            && p'.timers == p.timers && p'.times == p.times && p'.live + p'.connected <= p'.signalled)
      && (!p.stopping && code != Some(SOURCE_CLOSED) ==>
            && !p'.stopping && p'.exitCode == p.exitCode && p'.signalled == p.signalled
            && p'.timers == p.timers + 1 && p'.times == p.times + [p.now])
  {
    hide Valid;
  }

  /** The others: a disconnected worker is unlisted; a timer forks the next worker unless
      the primary drains; SIGTERM stops it and tells every worker listed; time passes. */
  lemma OthersDo(p: Primary, worker: nat, ms: nat)
    requires p.exit.None?
    ensures
      var p' := Step(p, Disconnected(worker));
      && p' == p.(connected := p.connected - {worker}, exit := p'.exit)
      && (!p.stopping ==> p'.exit.None?)
    ensures
      var p' := Step(p, TimerFired);
      if p.timers == 0 then p' == p
      else if p.stopping then p' == p.(timers := p.timers - 1)
      else
        p' == p.(timers := p.timers - 1, forks := p.forks + 1, live := p.live + {p.forks},
                 connected := p.connected + {p.forks})
    ensures
      var p' := Step(p, Sigterm);
      && p'.stopping && p' == p.(stopping := true, signalled := p'.signalled, exit := p'.exit)
      && p'.signalled == p.signalled + p.live + p.connected
    ensures Step(p, Later(ms)) == p.(now := p.now + ms)
  {
  }

  /** The event stops the primary: a SIGTERM, or a worker whose source closed. */
  predicate StopsAt(p: Primary, e: Event) {
    p.exit.None? && (e.Sigterm? || (e.Exited? && e.worker in p.live && e.code == Some(SOURCE_CLOSED)))
  }

  /** Some event of the run stops it. */
  predicate StopsDuring(p: Primary, events: seq<Event>)
    decreases |events|
  {
    events != [] && (StopsAt(p, events[0]) || StopsDuring(Step(p, events[0]), events[1..]))
  }

  /** The code an event counts: a worker's exit code once the primary drains, 1 for one
      killed by a signal, and before that only the code of a closed source. */
  function Counted(p: Primary, e: Event): seq<nat> {
    if p.exit.Some? || !e.Exited? || e.worker !in p.live then []
    else
      match e.code
      case None => if p.stopping then [1] else []
      case Some(code) => if p.stopping || code == SOURCE_CLOSED then [code] else []
  }

  function CodesOf(p: Primary, events: seq<Event>): seq<nat>
    decreases |events|
  {
    if events == [] then [] else Counted(p, events[0]) + CodesOf(Step(p, events[0]), events[1..])
  }

  lemma StepCounts(p: Primary, e: Event)
    ensures Step(p, e).codes == p.codes + Counted(p, e)
    ensures Step(p, e).stopping <==> p.stopping || StopsAt(p, e)
  {
  }

  lemma {:induction false} RunCounts(p: Primary, events: seq<Event>)
    ensures RunSpec(p, events).codes == p.codes + CodesOf(p, events)
    ensures RunSpec(p, events).stopping <==> p.stopping || StopsDuring(p, events)
    decreases |events|
  {
    if events != [] {
      StepCounts(p, events[0]);
      hide Step, Counted, StopsAt;
      RunCounts(Step(p, events[0]), events[1..]);
    }
  }

  /** Over every run from the start: the primary stops if and only if it was told to or a
      worker's source closed, and once it exits its code is the highest of the codes
      counted since, 0 when there are none. */
  lemma EveryRunExits(workers: nat, now: int, events: seq<Event>)
    ensures
      var start := Begin(workers, now);
      var p, codes := RunSpec(start, events), CodesOf(start, events);
      && (p.stopping <==> StopsDuring(start, events))
      && (p.exit.Some? ==> p.stopping && p.live == {} && p.connected == {})
      && (p.exit.Some? ==> forall code :: code in codes ==> code <= p.exit.value)
      && (p.exit.Some? ==> if codes == [] then p.exit.value == 0 else p.exit.value in codes)
  {
    var start := Begin(workers, now);
    BeginValid(workers, now);
    ForksStaffs(Primary(workers, 0, {}, {}, 0, false, {}, 0, None, 0, None, now, [], []), workers);
    assert start.codes == [] && !start.stopping;
    hide Begin, RunSpec, CodesOf, StopsDuring, Valid, Streak, Backoff, Forks, MaxOf;
    RunCounts(start, events);
    EveryRun(start, events);
    var codes := CodesOf(start, events);
    assert [] + codes == codes;
    MaxIsMax(codes);
    assert MaxOf([]) == 0 by { NoCodes(); }
    assert forall code :: code in codes ==> exists k :: 0 <= k < |codes| && codes[k] == code;
  }

  lemma NoCodes()
    ensures MaxOf([]) == 0
  {
  }

  // ---- The primary ----

  class ClusterPrimary {
    const workers: nat
    var forks: nat
    var live: set<nat>
    var connected: set<nat>
    var timers: nat
    var stopping: bool
    var signalled: set<nat>
    var delayMs: nat
    var lastExitAt: Option<int>
    var workerExitCode: nat
    var exit: Option<nat>
    var now: int
    ghost var times: seq<int>
    ghost var codes: seq<nat>

    ghost function State(): Primary
      reads this
    {
      Primary(workers, forks, live, connected, timers, stopping, signalled, delayMs, lastExitAt, workerExitCode,
              exit, now, times, codes)
    }

    constructor (workers: nat, now: int)
      ensures State() == Begin(workers, now) && Valid(State())
    {
      this.workers, this.now := workers, now;
      forks, live, connected, timers, stopping, signalled := 0, {}, {}, 0, false, {};
      delayMs, lastExitAt, workerExitCode, exit, times, codes := 0, None, 0, None, [], [];
      new;
      ghost var start := State();
      for i := 0 to workers
        invariant State() == Forks(start, i)
      {
        ForkWorker();
      }
      BeginValid(workers, now);
    }

    method ForkWorker()
      modifies `forks, `live, `connected
      ensures State() == Fork(old(State()))
    {
      live, connected := live + {forks}, connected + {forks};
      forks := forks + 1;
    }

    method CheckDrained()
      modifies `exit
      ensures State() == ExitWhenDrained(old(State()))
    {
      if live + connected == {} {
        exit := Some(workerExitCode);
      }
    }

    /** The SIGTERM handler, also called when a source closed. */
    method OnSigterm()
      modifies `stopping, `signalled, `exit
      ensures State() == Stop(old(State()))
    {
      stopping := true;
      var rest := live + connected;
      while rest != {}
        invariant stopping && exit == old(exit) && rest <= live + connected
        invariant signalled + rest == old(signalled) + (live + connected)
      {
        var w :| w in rest;
        signalled := signalled + {w};
        rest := rest - {w};
      }
      CheckDrained();
    }

    method NextReforkDelay() returns (delay: nat)
      modifies `delayMs, `lastExitAt, `times
      ensures State() == NextDelay(old(State())) && delay == delayMs
    {
      delayMs := if lastExitAt.None? || now - lastExitAt.value >= HEALTHY_MS then INITIAL_MS
                 else Min(delayMs * 2, MAX_MS);
      lastExitAt := Some(now);
      times := times + [now];
      delay := delayMs;
    }

    /** A worker's code counts once draining. */
    method CountCode(code: nat)
      modifies `workerExitCode, `codes
      ensures State() == old(State()).(exitCode := Max(old(workerExitCode), code), codes := old(codes) + [code])
    {
      workerExitCode := Max(workerExitCode, code);
      codes := codes + [code];
    }

    method CloseSource()
      modifies `workerExitCode, `codes
      ensures State() == old(State()).(exitCode := SOURCE_CLOSED, codes := old(codes) + [SOURCE_CLOSED])
    {
      workerExitCode := SOURCE_CLOSED;
      codes := codes + [SOURCE_CLOSED];
    }

    /** A replacement is due after the next delay. */
    method ScheduleFork()
      modifies `delayMs, `lastExitAt, `times, `timers
      ensures State() == NextDelay(old(State())).(timers := old(timers) + 1)
    {
      var _ := NextReforkDelay();
      timers := timers + 1;
    }

    /** The exit event. */
    method OnExit(worker: nat, code: Option<nat>)
      requires Valid(State()) && exit.None?
      modifies this
      ensures State() == ExitedSpec(old(State()), worker, code) && Valid(State())
    {
      ExitedKeeps(State(), worker, code);
      hide Valid, ExitWhenDrained, Stop, NextDelay, Max;
      if worker !in live {
        return;
      }
      live := live - {worker};
      if stopping {
        CountCode(if code.Some? then code.value else 1);
        CheckDrained();
      } else if code == Some(SOURCE_CLOSED) {
        CloseSource();
        OnSigterm();
      } else {
        ScheduleFork();
      }
    }

    /** The disconnect event. */
    method OnDisconnect(worker: nat)
      requires Valid(State()) && exit.None?
      modifies this
      ensures State() == Step(old(State()), Disconnected(worker)) && Valid(State())
    {
      StepKeeps(State(), Disconnected(worker));
      hide Valid;
      if worker in connected {
        connected := connected - {worker};
        if stopping {
          CheckDrained();
        }
      }
    }

    /** A refork timer. */
    method OnTimer()
      requires Valid(State()) && exit.None?
      modifies this
      ensures State() == Step(old(State()), TimerFired) && Valid(State())
    {
      StepKeeps(State(), TimerFired);
      hide Valid;
      if timers > 0 {
        timers := timers - 1;
        if !stopping {
          ForkWorker();
        }
      }
    }
  }
}
