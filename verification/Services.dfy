/** Guest services: started once, gated on their readiness, restarted with a growing delay,
    and stopped on shutdown. Each lock-held region is one step; a service is known by its
    place in the list, which is sorted by name. */
module Services {
  import opened Common

  type Name = nat
  /** One spawned process of a service, with the slot its exit status goes to. */
  type Run = nat
  /** Milliseconds, of a clock or of a wait. */
  type Millis = nat

  const RESTART_FIRST: Millis := 1000
  const RESTART_MAX: Millis := 60_000
  const RESTART_RESET: Millis := 60_000

  datatype Restart = No | Always
  datatype Reason = Exited(status: int) | NotReady | NotStarted
  datatype State = Starting | Ready | Restarting | Failed(reason: Reason) | Stopped

  datatype Spec = Spec(restart: Restart, readyTimeout: Millis, stopTimeout: Millis)

  datatype Service = Service(
    spec: Spec, state: State, run: Option<Run>,
    gateUntil: Millis, everReady: bool, started: Millis, delay: Millis)

  datatype Registry = Registry(services: seq<Service>, begun: bool, shuttingDown: bool)

  const Boot: Registry := Registry([], false, false)

  predicate Active(s: State) { s.Starting? || s.Ready? }

  // ---------------------------------------------------------------------
  // Delays
  // ---------------------------------------------------------------------

  function NextDelay(last: Millis, ran: Millis): (d: Millis)
  {
    if ran >= RESTART_RESET || last == 0 then RESTART_FIRST
    else if last * 2 <= RESTART_MAX then last * 2 else RESTART_MAX
  }

  function Pow2(k: nat): (r: nat) { if k == 0 then 1 else 2 * Pow2(k - 1) }

  /** The delay before the next restart, after runs of these lengths. */
  ghost function DelayAfter(rans: seq<Millis>): (d: Millis)
  {
    if rans == [] then 0 else NextDelay(DelayAfter(rans[..|rans| - 1]), rans[|rans| - 1])
  }

  /** Delays double from a second to a minute; the latest healthy run starts them over. */
  lemma {:induction false} DelaysDouble(rans: seq<Millis>, healthy: nat)
    requires healthy < |rans|
    requires healthy == 0 || rans[healthy] >= RESTART_RESET
    requires forall i :: healthy < i < |rans| ==> rans[i] < RESTART_RESET
    ensures DelayAfter(rans) ==
            (var d := RESTART_FIRST * Pow2(|rans| - 1 - healthy); if d <= RESTART_MAX then d else RESTART_MAX)
    decreases |rans|
  {
    var n := |rans| - 1;
    if n == healthy {
      if healthy == 0 { assert rans[..0] == []; }
    } else {
      DelaysDouble(rans[..n], healthy);
      DelayIsPositive(rans[..n]);
    }
  }

  lemma {:induction false} DelayIsPositive(rans: seq<Millis>)
    requires rans != []
    ensures RESTART_FIRST <= DelayAfter(rans) <= RESTART_MAX
  {
    if |rans| > 1 { DelayIsPositive(rans[..|rans| - 1]); } else { assert rans[..0] == []; }
  }

  // ---------------------------------------------------------------------
  // The lock-held regions
  // ---------------------------------------------------------------------

  /** A stopped service stays stopped, and only a starting one becomes ready. */
  function Moved(s: Service, to: State): (r: Service)
  {
    if s.state.Stopped? || (to.Ready? && !s.state.Starting?) then s
    else s.(state := to, everReady := s.everReady || to.Ready?)
  }

  function SetState(reg: Registry, name: Name, to: State): (r: Registry)
  {
    if name < |reg.services| then reg.(services := reg.services[name := Moved(reg.services[name], to)]) else reg
  }

  /** What an exit leads to: nothing, a failure, or a restart after the delay. */
  datatype AfterExit = Nothing | Fails | RestartIn(delay: Millis)

  function RecordExit(reg: Registry, name: Name, status: int, now: Millis): (r: (Registry, AfterExit))
  {
    if reg.shuttingDown || name >= |reg.services| || !Active(reg.services[name].state) then (reg, Nothing)
    else
      var s := reg.services[name];
      if s.spec.restart.Always? then
        var delay := NextDelay(s.delay, if now >= s.started then now - s.started else 0);
        (reg.(services := reg.services[name := s.(state := Restarting, delay := delay)]), RestartIn(delay))
      else
        (reg.(services := reg.services[name := s.(state := Failed(Exited(status)))]), Fails)
  }

  datatype Respawned = Idle | Runs | RetryIn(delay: Millis)

  /** Starts a restarting service again; `spawned` is the process, when there is one. */
  function Respawn(reg: Registry, name: Name, spawned: Option<Run>, now: Millis): (r: (Registry, Respawned))
  {
    if reg.shuttingDown || name >= |reg.services| || !reg.services[name].state.Restarting? then (reg, Idle)
    else
      var s := reg.services[name];
      match spawned
      case Some(run) =>
        (reg.(services := reg.services[name := s.(run := Some(run), state := Starting, started := now)]), Runs)
      case None =>
        var delay := NextDelay(s.delay, 0);
        (reg.(services := reg.services[name := s.(delay := delay)]), RetryIn(delay))
  }

  function Begun(spec: Spec, spawned: Option<Run>, now: Millis): (s: Service)
  {
    var s := Service(spec, Starting, spawned, now + spec.readyTimeout, false, now, 0);
    if spawned.Some? then s
    else if spec.restart.Always? then s.(state := Restarting, delay := RESTART_FIRST)
    else s.(state := Failed(NotStarted))
  }

  function AllBegun(specs: seq<Spec>, spawned: seq<Option<Run>>, now: Millis): (r: seq<Service>)
    requires |spawned| == |specs|
  {
    seq(|specs|, i requires 0 <= i < |specs| => Begun(specs[i], spawned[i], now))
  }

  datatype StartAnswer = Started(n: nat) | Refused

  /** The registry, behind its lock. */
  class Supervisor {
    var services: seq<Service>
    var begun: bool
    var shuttingDown: bool

    ghost function View(): (r: Registry)
      reads this
    {
      Registry(services, begun, shuttingDown)
    }

    constructor ()
      ensures View() == Boot
    {
      services, begun, shuttingDown := [], false, false;
    }

    method Set(name: Name, to: State)
      modifies this
      ensures View() == SetState(old(View()), name, to)
    {
      if name < |services| {
        var s := services[name];
        if s.state.Stopped? || (to.Ready? && !s.state.Starting?) {
          return;
        }
        if to.Ready? {
          s := s.(everReady := true);
        }
        services := services[name := s.(state := to)];
      }
    }

    method Record(name: Name, status: int, now: Millis) returns (next: AfterExit)
      modifies this
      ensures (View(), next) == RecordExit(old(View()), name, status, now)
    {
      if shuttingDown {
        return Nothing;
      }
      if name >= |services| || !(services[name].state.Starting? || services[name].state.Ready?) {
        return Nothing;
      }
      var s := services[name];
      if s.spec.restart == Always {
        var delay := NextDelay(s.delay, if now >= s.started then now - s.started else 0);
        services := services[name := s.(state := Restarting, delay := delay)];
        return RestartIn(delay);
      }
      services := services[name := s.(state := Failed(Exited(status)))];
      return Fails;
    }

    method Restart(name: Name, spawned: Option<Run>, now: Millis) returns (result: Respawned)
      modifies this
      ensures (View(), result) == Respawn(old(View()), name, spawned, now)
    {
      if shuttingDown {
        return Idle;
      }
      if name >= |services| || services[name].state != Restarting {
        return Idle;
      }
      var s := services[name];
      if spawned.Some? {
        services := services[name := s.(run := spawned, state := Starting, started := now)];
        return Runs;
      }
      var delay := NextDelay(s.delay, 0);
      services := services[name := s.(delay := delay)];
      return RetryIn(delay);
    }

    /** Only the first call starts anything; a later one is refused, unless there was nothing. */
    method StartAll(specs: seq<Spec>, spawned: seq<Option<Run>>, now: Millis) returns (answer: StartAnswer)
      requires |spawned| == |specs| && (!begun ==> services == [])
      modifies this
      ensures begun
      ensures shuttingDown == old(shuttingDown)
      ensures services == if old(begun) || shuttingDown then old(services) else AllBegun(specs, spawned, now)
      ensures answer == if old(begun) && old(services) != [] then Refused
                        else if old(begun) || shuttingDown then Started(0)
                        else Started(Spawned(spawned))
    {
      if begun && services == [] {
        return Started(0);
      }
      if begun {
        return Refused;
      }
      begun := true;
      if shuttingDown {
        return Started(0);
      }
      var watches := 0;
      var i := 0;
      assert spawned[..0] == [];
      while i < |specs|
        invariant 0 <= i <= |specs|
        invariant begun && shuttingDown == old(shuttingDown)
        invariant services == AllBegun(specs, spawned, now)[..i]
        invariant watches == Spawned(spawned[..i])
      {
        var spec := specs[i];
        var svc := Service(spec, Starting, None, now + spec.readyTimeout, false, now, 0);
        match spawned[i] {
          case Some(run) =>
            svc := svc.(run := Some(run));
            watches := watches + 1;
          case None =>
            if spec.restart == Always {
              svc := svc.(state := Restarting, delay := RESTART_FIRST);
            } else {
              svc := svc.(state := Failed(NotStarted));
            }
        }
        services := services + [svc];
        assert spawned[..i + 1][..i] == spawned[..i];
        i := i + 1;
      }
      assert spawned[..i] == spawned;
      return Started(watches);
    }

    /** From here on nothing is spawned; what runs is to be stopped. */
    method BeginShutdown() returns (ts: seq<Target>)
      modifies this
      ensures View() == old(View()).(shuttingDown := true) && ts == TargetsOf(services)
    {
      shuttingDown := true;
      ts := [];
      var i := 0;
      while i < |services|
        invariant 0 <= i <= |services| && View() == old(View()).(shuttingDown := true)
        invariant ts == TargetsOf(services[..i])
      {
        var s := services[i];
        assert services[..i + 1][..i] == services[..i];
        if (s.state.Starting? || s.state.Ready?) && s.run.Some? {
          ts := ts + [Target(i, s.run.value, s.spec.stopTimeout)];
        }
        i := i + 1;
      }
      assert services[..i] == services;
    }

    method SetStopped(names: seq<Name>)
      modifies this
      ensures View() == AllStopped(old(View()), names)
    {
      var i := 0;
      while i < |names|
        invariant 0 <= i <= |names| && View() == AllStopped(old(View()), names[..i])
      {
        assert names[..i + 1][..i] == names[..i];
        Set(names[i], Stopped);
        i := i + 1;
      }
      assert names[..i] == names;
    }

    /** A whole shutdown, when nothing else happens to the registry meanwhile: every service
        that runs is stopped and named once, and no other changes. */
    method ShutDown(p: Passes) returns (stopped: seq<Name>, killed: seq<Name>, signals: seq<Signal>)
      requires p.Cover(TargetsOf(services))
      modifies this
      ensures shuttingDown && begun == old(begun) && |services| == |old(services)|
      ensures Told(TargetsOf(old(services)), p, stopped, killed)
      ensures Signalled(TargetsOf(old(services)), p, signals)
      ensures forall i :: 0 <= i < |services| ==>
                services[i] == if Running(old(services)[i]) then old(services)[i].(state := Stopped)
                               else old(services)[i]
    {
      hide Told, Signalled, TargetsOf, AllStopped, Running;
      var ts := BeginShutdown();
      ghost var begunReg := View();
      TargetsRun(services);
      stopped, killed, signals := Stop(ts, p);
      SetStopped(stopped + killed);
      StoppedAre(begunReg, stopped + killed);
      ToldOfAll(ts, p, stopped, killed);
    }
  }

  predicate Running(s: Service)
  {
    Active(s.state) && s.run.Some?
  }

  /** What a shutdown stops, in the order of the services. */
  function TargetsOf(services: seq<Service>): (ts: seq<Target>)
  {
    if services == [] then [] else
      var n := |services| - 1;
      var s := services[n];
      TargetsOf(services[..n]) + if Running(s) then [Target(n, s.run.value, s.spec.stopTimeout)] else []
  }

  lemma {:induction false} TargetsRun(services: seq<Service>)
    ensures Distinct(TargetsOf(services))
    ensures forall n: Name :: n in Names(TargetsOf(services)) <==> n < |services| && Running(services[n])
    ensures forall t :: t in TargetsOf(services) ==>
              && t.name < |services| && Some(t.run) == services[t.name].run
              && t.timeout == services[t.name].spec.stopTimeout
  {
    if services != [] {
      var n := |services| - 1;
      TargetsRun(services[..n]);
      var before, ts := TargetsOf(services[..n]), TargetsOf(services);
      forall i | 0 <= i < |before| ensures before[i].name < n && ts[i] == before[i] {
        assert before[i] in before;
      }
      if Running(services[n]) {
        assert Names(ts) == Names(before) + [n];
      } else {
        assert ts == before;
      }
    }
  }

  function AllStopped(reg: Registry, names: seq<Name>): (r: Registry)
  {
    if names == [] then reg
    else SetState(AllStopped(reg, names[..|names| - 1]), names[|names| - 1], Stopped)
  }

  lemma {:induction false} StoppedAre(reg: Registry, names: seq<Name>)
    ensures var r := AllStopped(reg, names);
            && r.begun == reg.begun && r.shuttingDown == reg.shuttingDown && |r.services| == |reg.services|
            && forall i :: 0 <= i < |r.services| ==>
                 r.services[i] == if i in names then reg.services[i].(state := Stopped) else reg.services[i]
  {
    if names != [] {
      var n := |names| - 1;
      StoppedAre(reg, names[..n]);
      assert names == names[..n] + [names[n]];
    }
  }

  lemma ToldOfAll(ts: seq<Target>, p: Passes, stopped: seq<Name>, killed: seq<Name>)
    requires |p.elapsed| == |p.exited| && Told(ts, p, stopped, killed)
    ensures forall n :: n in stopped + killed <==> n in Names(ts)
  {
    forall n | n in Names(ts) ensures n in stopped + killed {
      var i :| 0 <= i < |ts| && Names(ts)[i] == n;
      assert ts[i] in ts;
    }
  }

  function Spawned(spawned: seq<Option<Run>>): (n: nat)
  {
    if spawned == [] then 0 else
      Spawned(spawned[..|spawned| - 1]) + if spawned[|spawned| - 1].Some? then 1 else 0
  }

  /** The number of processes, counted by their places. */
  lemma {:induction false} SpawnedCounts(spawned: seq<Option<Run>>)
    ensures Spawned(spawned) == |set i | 0 <= i < |spawned| && spawned[i].Some?|
  {
    if spawned != [] {
      var n := |spawned| - 1;
      SpawnedCounts(spawned[..n]);
      var less := set i | 0 <= i < n && spawned[..n][i].Some?;
      assert (set i | 0 <= i < |spawned| && spawned[i].Some?) == less + if spawned[n].Some? then {n} else {};
    }
  }

  // ---------------------------------------------------------------------
  // Interleavings
  // ---------------------------------------------------------------------

  /** A thread that watches one run until it is ready; `verdict` is what it has made up its
      mind to set, from a look at the run before it takes the lock. */
  datatype Watcher = Watcher(name: Name, run: Run, verdict: Option<State>)

  datatype World = World(
    reg: Registry,
    clock: Millis,
    // When the restarts that wait out their delay are due, for each service
    timers: seq<seq<Millis>>,
    watchers: seq<Watcher>,
    // Runs whose exit is not recorded, and the service of each; a shutdown records none
    live: map<Run, Name>,
    exited: set<Run>,
    used: set<Run>,
    // Services a shutdown has taken for its targets
    targets: set<Name>)

  const Start: World := World(Boot, 0, [], [], map[], {}, {}, {})

  datatype Step =
    | StartAll(specs: seq<Spec>, spawned: seq<Option<Run>>, now: Millis)
    | ProcessExits(run: Run)
    | ExitRecorded(run: Run, status: int, now: Millis)
    | TimerFires(name: Name, which: nat, again: Option<Run>, now: Millis)
    | WatcherLooks(i: nat, verdict: State)
    | WatcherSets(i: nat)
    | WatcherGivesUp(i: nat)
    | Shutdown
    | TargetStopped(name: Name)

  ghost predicate Fresh(spawned: seq<Option<Run>>, used: set<Run>)
  {
    && (forall i :: 0 <= i < |spawned| && spawned[i].Some? ==> spawned[i].value !in used)
    && (forall i, j :: 0 <= i < j < |spawned| && spawned[i].Some? && spawned[j].Some? ==>
          spawned[i].value != spawned[j].value)
  }

  /** What a watcher may decide: ready, or, when the timeout passes without it, what that
      means for the service. */
  ghost predicate MayDecide(restart: Restart, verdict: State)
  {
    verdict == Ready || (restart.No? && verdict == Failed(NotReady))
  }

  ghost predicate Enabled(w: World, step: Step)
  {
    match step
    case StartAll(specs, spawned, now) => |spawned| == |specs| && Fresh(spawned, w.used) && w.clock <= now
    case ProcessExits(run) => run in w.live && run !in w.exited
    case ExitRecorded(run, _, now) => run in w.live && run in w.exited && w.clock <= now
    case TimerFires(name, which, spawned, now) =>
      && w.clock <= now && name < |w.timers| && which < |w.timers[name]| && w.timers[name][which] <= now
      && (spawned.Some? ==> spawned.value !in w.used)
    case WatcherLooks(i, verdict) =>
      && i < |w.watchers| && w.watchers[i].verdict.None? && w.watchers[i].run !in w.exited
      && w.watchers[i].name < |w.reg.services|
      && MayDecide(w.reg.services[w.watchers[i].name].spec.restart, verdict)
    case WatcherSets(i) => i < |w.watchers| && w.watchers[i].verdict.Some?
    case WatcherGivesUp(i) => i < |w.watchers| && w.watchers[i].run in w.exited
    case Shutdown => true
    case TargetStopped(name) => name in w.targets
  }

  ghost function NewRuns(spawned: seq<Option<Run>>): (r: map<Run, Name>)
  {
    if spawned == [] then map[] else
      var n := |spawned| - 1;
      match spawned[n]
      case Some(run) => NewRuns(spawned[..n])[run := n]
      case None => NewRuns(spawned[..n])
  }

  ghost function NewWatchers(spawned: seq<Option<Run>>): (r: seq<Watcher>)
  {
    if spawned == [] then [] else
      var n := |spawned| - 1;
      match spawned[n]
      case Some(run) => NewWatchers(spawned[..n]) + [Watcher(n, run, None)]
      case None => NewWatchers(spawned[..n])
  }

  ghost function Dropped<T>(s: seq<T>, i: nat): (r: seq<T>)
    requires i < |s|
  {
    s[..i] + s[i + 1..]
  }

  ghost function Apply(w: World, step: Step): (r: World)
    requires Enabled(w, step)
  {
    match step
    case StartAll(specs, spawned, now) =>
      if w.reg.begun then w.(clock := now)
      else if w.reg.shuttingDown then w.(reg := w.reg.(begun := true), clock := now)
      else
        var services := AllBegun(specs, spawned, now);
        w.(reg := Registry(services, true, false), clock := now,
           timers := seq(|specs|, i requires 0 <= i < |specs| =>
               if services[i].state.Restarting? then [now + RESTART_FIRST] else []),
           watchers := w.watchers + NewWatchers(spawned),
           live := NewRuns(spawned), used := w.used + NewRuns(spawned).Keys)
    case ProcessExits(run) =>
      w.(exited := w.exited + {run})
    case ExitRecorded(run, status, now) =>
      var name := w.live[run];
      var (reg, next) := RecordExit(w.reg, name, status, now);
      w.(reg := reg, clock := now, live := if w.reg.shuttingDown then w.live else w.live - {run},
         timers := if next.RestartIn? && name < |w.timers|
                   then w.timers[name := w.timers[name] + [now + next.delay]] else w.timers)
    case TimerFires(name, which, spawned, now) =>
      var (reg, result) := Respawn(w.reg, name, spawned, now);
      var left := Dropped(w.timers[name], which);
      if result.Idle? then w.(timers := w.timers[name := left], clock := now)
      else if result.RetryIn? then
        w.(reg := reg, timers := w.timers[name := left + [now + result.delay]], clock := now)
      else
        w.(reg := reg, timers := w.timers[name := left], clock := now,
           watchers := w.watchers + [Watcher(name, spawned.value, None)],
           live := w.live[spawned.value := name], used := w.used + {spawned.value})
    case WatcherLooks(i, verdict) =>
      w.(watchers := w.watchers[i := w.watchers[i].(verdict := Some(verdict))])
    case WatcherSets(i) =>
      w.(reg := SetState(w.reg, w.watchers[i].name, w.watchers[i].verdict.value),
         watchers := Dropped(w.watchers, i))
    case WatcherGivesUp(i) =>
      w.(watchers := Dropped(w.watchers, i))
    case Shutdown =>
      w.(reg := w.reg.(shuttingDown := true), targets := w.targets + Targets(w.reg))
    case TargetStopped(name) =>
      w.(reg := SetState(w.reg, name, Stopped))
  }

  /** What a shutdown stops: what is starting or ready and has a process. */
  ghost function Targets(reg: Registry): (r: set<Name>)
  {
    set i | 0 <= i < |reg.services| && Running(reg.services[i])
  }

  ghost predicate IsRun(states: seq<World>, steps: seq<Step>)
  {
    && |states| == |steps| + 1
    && states[0] == Start
    && forall k :: 0 <= k < |steps| ==>
         Enabled(states[k], steps[k]) && states[k + 1] == Apply(states[k], steps[k])
  }

  // ---------------------------------------------------------------------
  // What every step keeps
  // ---------------------------------------------------------------------

  ghost predicate ServiceInv(s: Service, timers: seq<Millis>, shuttingDown: bool)
  {
    && (s.spec.restart.Always? ==> !s.state.Failed?)
    && (s.spec.restart.No? ==> !s.state.Restarting?)
    && (s.state.Ready? ==> s.everReady)
    && (s.state.Stopped? ==> shuttingDown)
    && (s.delay == 0 || RESTART_FIRST <= s.delay <= RESTART_MAX)
    && (s.state.Restarting? ==> s.delay != 0)
    && |timers| <= 1
    && (timers != [] ==> s.state.Restarting?)
    && (s.state.Restarting? && !shuttingDown ==> timers != [])
    && (Active(s.state) ==> s.run.Some?)
  }

  ghost predicate RegistryInv(w: World)
  {
    && |w.timers| == |w.reg.services|
    && (!w.reg.begun ==> w.reg.services == [])
    && (forall i :: 0 <= i < |w.reg.services| ==> ServiceInv(w.reg.services[i], w.timers[i], w.reg.shuttingDown))
    && (forall n :: n in w.targets ==>
          w.reg.shuttingDown && n < |w.reg.services| && !w.reg.services[n].state.Restarting?)
  }

  /** The states of a service whose process may still run. */
  predicate MayRun(s: State)
  {
    Active(s) || s.Stopped? || s == Failed(NotReady)
  }

  /** A run whose exit is not recorded is its service's present one, and that service does not
      wait to restart; every other run has exited. */
  ghost predicate RunsInv(w: World)
  {
    && (forall r :: r in w.live ==>
          && r in w.used
          && w.live[r] < |w.reg.services|
          && w.reg.services[w.live[r]].run == Some(r)
          && MayRun(w.reg.services[w.live[r]].state))
    && (forall r :: r in w.used && r !in w.live ==> r in w.exited)
    && (forall r :: r in w.exited ==> r in w.used)
    && (forall i :: 0 <= i < |w.reg.services| && w.reg.services[i].run.Some? ==> w.reg.services[i].run.value in w.used)
    && (forall i :: 0 <= i < |w.reg.services| && Active(w.reg.services[i].state) ==>
          var run := w.reg.services[i].run; run.Some? && run.value in w.live && w.live[run.value] == i)
  }

  ghost predicate WatchersInv(w: World)
  {
    forall i :: 0 <= i < |w.watchers| ==>
      var v := w.watchers[i];
      && v.run in w.used && v.name < |w.reg.services|
      && (v.run in w.live ==> w.live[v.run] == v.name)
      && (v.verdict.Some? ==> MayDecide(w.reg.services[v.name].spec.restart, v.verdict.value))
  }

  ghost predicate Inv(w: World)
  {
    RegistryInv(w) && RunsInv(w) && WatchersInv(w)
  }

  lemma NewRunsAreSpawned(spawned: seq<Option<Run>>)
    ensures forall r :: r in NewRuns(spawned) ==>
              NewRuns(spawned)[r] < |spawned| && spawned[NewRuns(spawned)[r]] == Some(r)
    ensures forall i :: 0 <= i < |spawned| && spawned[i].Some? ==> spawned[i].value in NewRuns(spawned)
    ensures forall i :: 0 <= i < |NewWatchers(spawned)| ==>
              var v := NewWatchers(spawned)[i];
              v.name < |spawned| && spawned[v.name] == Some(v.run) && v.verdict.None?
  {
    if spawned != [] {
      NewRunsAreSpawned(spawned[..|spawned| - 1]);
    }
  }

  /** Changing one service, and its timer, keeps the registry when it keeps that service. */
  lemma OneChanged(w: World, t: World, name: Name)
    requires RegistryInv(w)
    requires |t.reg.services| == |w.reg.services| && |t.timers| == |w.timers|
    requires t.reg.begun == w.reg.begun && t.reg.shuttingDown == w.reg.shuttingDown && t.targets == w.targets
    requires forall i :: 0 <= i < |w.reg.services| && i != name ==>
               t.reg.services[i] == w.reg.services[i] && t.timers[i] == w.timers[i]
    requires name < |w.reg.services| ==>
               && ServiceInv(t.reg.services[name], t.timers[name], w.reg.shuttingDown)
               && (name in w.targets ==> !t.reg.services[name].state.Restarting?)
    ensures RegistryInv(t)
  {
  }

  lemma NextDelayInRange(last: Millis, ran: Millis)
    requires last == 0 || RESTART_FIRST <= last <= RESTART_MAX
    ensures RESTART_FIRST <= NextDelay(last, ran) <= RESTART_MAX
  {
  }

  lemma RegistryKept(w: World, step: Step)
    requires Inv(w) && Enabled(w, step)
    ensures RegistryInv(Apply(w, step))
  {
    match step {
      case StartAll(_, _, _) =>
        hide RunsInv, WatchersInv, NewRuns, NewWatchers;
      case ExitRecorded(_, _, _) => RegistryAfterExit(w, step);
      case TimerFires(_, _, _, _) => RegistryAfterTimer(w, step);
      case WatcherSets(_) => RegistryAfterSet(w, step);
      case TargetStopped(_) => RegistryAfterSet(w, step);
      case _ =>
        hide RunsInv, WatchersInv;
    }
  }

  lemma RegistryAfterExit(w: World, step: Step)
    requires Inv(w) && Enabled(w, step) && step.ExitRecorded?
    ensures RegistryInv(Apply(w, step))
  {
    var name := w.live[step.run];
    var s := w.reg.services[name];
    assert ServiceInv(s, w.timers[name], w.reg.shuttingDown);
    NextDelayInRange(s.delay, if step.now >= s.started then step.now - s.started else 0);
    hide NextDelay, RunsInv, WatchersInv, RegistryInv;
    OneChanged(w, Apply(w, step), name);
  }

  lemma RegistryAfterTimer(w: World, step: Step)
    requires Inv(w) && Enabled(w, step) && step.TimerFires?
    ensures RegistryInv(Apply(w, step))
  {
    var name := step.name;
    var s := w.reg.services[name];
    assert ServiceInv(s, w.timers[name], w.reg.shuttingDown);
    assert name !in w.targets;
    NextDelayInRange(s.delay, 0);
    hide NextDelay, RunsInv, WatchersInv, RegistryInv;
    OneChanged(w, Apply(w, step), name);
  }

  lemma RegistryAfterSet(w: World, step: Step)
    requires Inv(w) && Enabled(w, step) && (step.WatcherSets? || step.TargetStopped?)
    ensures RegistryInv(Apply(w, step))
  {
    var name := if step.WatcherSets? then w.watchers[step.i].name else step.name;
    if name < |w.reg.services| {
      assert ServiceInv(w.reg.services[name], w.timers[name], w.reg.shuttingDown);
    }
    OneChanged(w, Apply(w, step), name);
  }

  lemma RunsKept(w: World, step: Step)
    requires Inv(w) && Enabled(w, step)
    ensures RunsInv(Apply(w, step))
  {
    match step {
      case StartAll(specs, spawned, now) => RunsAfterStart(w, step);
      case ExitRecorded(_, _, _) => RunsAfterExit(w, step);
      case TimerFires(_, _, _, _) => RunsAfterTimer(w, step);
      case WatcherSets(_) => RunsAfterSet(w, step);
      case TargetStopped(_) => RunsAfterSet(w, step);
      case _ => RunsAfterOther(w, step);
    }
  }

  lemma RunsAfterStart(w: World, step: Step)
    requires Inv(w) && Enabled(w, step) && step.StartAll?
    ensures RunsInv(Apply(w, step))
  {
    NewRunsAreSpawned(step.spawned);
    hide NewRuns, NewWatchers, WatchersInv, ServiceInv;
  }

  /** A run whose exit is recorded leaves, and its service is not starting or ready any more. */
  lemma RunLeaves(w: World, t: World, name: Name, run: Run)
    requires RunsInv(w) && run in w.live && w.live[run] == name && run in w.exited
    requires t.live == w.live - {run} && t.exited == w.exited && t.used == w.used
    requires |t.reg.services| == |w.reg.services|
    requires forall i :: 0 <= i < |w.reg.services| && i != name ==> t.reg.services[i] == w.reg.services[i]
    requires name < |w.reg.services| ==>
               !Active(t.reg.services[name].state) && t.reg.services[name].run == w.reg.services[name].run
    ensures RunsInv(t)
  {
    forall r | r in t.live ensures t.live[r] != name {
      assert w.reg.services[w.live[r]].run == Some(r);
    }
  }

  lemma RunsAfterExit(w: World, step: Step)
    requires Inv(w) && Enabled(w, step) && step.ExitRecorded?
    ensures RunsInv(Apply(w, step))
  {
    hide WatchersInv, RegistryInv, NextDelay;
    if !w.reg.shuttingDown {
      hide RunsInv;
      RunLeaves(w, Apply(w, step), w.live[step.run], step.run);
    }
  }

  lemma RunsAfterTimer(w: World, step: Step)
    requires Inv(w) && Enabled(w, step) && step.TimerFires?
    ensures RunsInv(Apply(w, step))
  {
    hide WatchersInv, ServiceInv, NextDelay, Dropped;
    if Respawn(w.reg, step.name, step.again, step.now).1.Runs? {
      var t, name := Apply(w, step), step.name;
      forall i | 0 <= i < |t.reg.services| && i != name ensures t.reg.services[i] == w.reg.services[i] {
      }
      forall r | r in w.live ensures r in t.live && t.live[r] == w.live[r] != name {
      }
    }
  }

  lemma RunsAfterSet(w: World, step: Step)
    requires Inv(w) && Enabled(w, step) && (step.WatcherSets? || step.TargetStopped?)
    ensures RunsInv(Apply(w, step))
  {
    hide ServiceInv, RegistryInv, Dropped;
    var t := Apply(w, step);
    forall i | 0 <= i < |t.reg.services|
      ensures t.reg.services[i].run == w.reg.services[i].run
      ensures Active(t.reg.services[i].state) ==> Active(w.reg.services[i].state)
      ensures MayRun(w.reg.services[i].state) ==> MayRun(t.reg.services[i].state)
    {
    }
  }

  lemma RunsAfterOther(w: World, step: Step)
    requires Inv(w) && Enabled(w, step)
    requires step.ProcessExits? || step.WatcherLooks? || step.WatcherGivesUp? || step.Shutdown?
    ensures RunsInv(Apply(w, step))
  {
    hide ServiceInv, RegistryInv, WatchersInv, Dropped, Targets;
  }

  lemma WatchersAfterStart(w: World, step: Step)
    requires Inv(w) && Enabled(w, step) && step.StartAll?
    ensures WatchersInv(Apply(w, step))
  {
    hide ServiceInv, NextDelay, NewRuns, NewWatchers;
    NewRunsAreSpawned(step.spawned);
  }

  lemma WatchersAfterRestart(w: World, step: Step)
    requires Inv(w) && Enabled(w, step) && (step.ExitRecorded? || step.TimerFires?)
    ensures WatchersInv(Apply(w, step))
  {
    hide ServiceInv, NextDelay;
  }

  lemma WatchersKept(w: World, step: Step)
    requires Inv(w) && Enabled(w, step)
    ensures WatchersInv(Apply(w, step))
  {
    if step.StartAll? {
      WatchersAfterStart(w, step);
    } else if step.ExitRecorded? || step.TimerFires? {
      WatchersAfterRestart(w, step);
    } else {
      hide ServiceInv, NextDelay, NewRuns, NewWatchers, AllBegun, RecordExit, Respawn;
    }
  }

  lemma Kept(w: World, step: Step)
    requires Inv(w) && Enabled(w, step)
    ensures Inv(Apply(w, step))
  {
    hide RegistryInv, RunsInv, WatchersInv, Apply, Enabled;
    RegistryKept(w, step);
    RunsKept(w, step);
    WatchersKept(w, step);
  }

  lemma {:induction false} EveryRunKeeps(states: seq<World>, steps: seq<Step>, k: nat)
    requires IsRun(states, steps) && k <= |steps|
    ensures Inv(states[k])
  {
    if k == 0 {
    } else {
      hide Inv, Apply, Enabled;
      EveryRunKeeps(states, steps, k - 1);
      Kept(states[k - 1], steps[k - 1]);
    }
  }

  // ---------------------------------------------------------------------
  // Every run
  // ---------------------------------------------------------------------

  /** In every run: a service that restarts never fails and one that does not never waits to
      restart; one that waits does so for a second to a minute; one that is ready has been
      ready; none is stopped but by a shutdown. */
  lemma StatesFitThePolicy(states: seq<World>, steps: seq<Step>, k: nat, i: Name)
    requires IsRun(states, steps) && k <= |steps| && i < |states[k].reg.services|
    ensures var s := states[k].reg.services[i];
            && (s.spec.restart.Always? ==> !s.state.Failed?)
            && (s.spec.restart.No? ==> !s.state.Restarting?)
            && (s.state.Restarting? ==> RESTART_FIRST <= s.delay <= RESTART_MAX)
            && (s.state.Ready? ==> s.everReady)
            && (s.state.Stopped? ==> states[k].reg.shuttingDown)
  {
    EveryRunKeeps(states, steps, k);
    var s := states[k].reg.services[i];
    assert ServiceInv(s, states[k].timers[i], states[k].reg.shuttingDown);
  }

  /** A restart of the service comes due, and the shutdown under way drops it. */
  ghost predicate Dismissed(w: World, step: Step, i: Name)
  {
    step.TimerFires? && step.name == i && w.reg.shuttingDown
  }

  /** In every run, a service that waits to restart has one restart to come and no other service
      has any; the exception is a service whose restart came due after a shutdown had begun,
      which goes on waiting for nothing. */
  lemma RestartIsPending(states: seq<World>, steps: seq<Step>, k: nat, i: Name)
    requires IsRun(states, steps) && k <= |steps| && i < |states[k].reg.services|
    ensures |states[k].timers| == |states[k].reg.services| && |states[k].timers[i]| <= 1
    ensures !states[k].reg.services[i].state.Restarting? ==> states[k].timers[i] == []
    ensures states[k].reg.services[i].state.Restarting? ==>
              (states[k].timers[i] == [] <==> exists m :: 0 <= m < k && Dismissed(states[m], steps[m], i))
  {
    hide Apply, Enabled, Dismissed;
    EveryRunKeeps(states, steps, k);
    assert ServiceInv(states[k].reg.services[i], states[k].timers[i], states[k].reg.shuttingDown);
    if states[k].reg.services[i].state.Restarting? {
      if states[k].timers[i] == [] {
        var m := WhenDismissed(states, steps, k, i);
      }
      forall m | 0 <= m < k && Dismissed(states[m], steps[m], i) ensures states[k].timers[i] == [] {
        NoneAfterDismissal(states, steps, m, k, i);
      }
    }
  }

  lemma LosesItsTimer(w: World, step: Step, i: Name)
    requires Inv(w) && Enabled(w, step)
    requires var t := Apply(w, step);
             && i < |t.reg.services| && i < |t.timers|
             && t.reg.services[i].state.Restarting? && |t.timers[i]| == 0
    ensures Dismissed(w, step, i) ||
            (i < |w.reg.services| && i < |w.timers| && w.reg.services[i].state.Restarting? && w.timers[i] == [])
  {
    hide RunsInv, NextDelay, NewRuns, NewWatchers;
    if i < |w.reg.services| {
      assert ServiceInv(w.reg.services[i], w.timers[i], w.reg.shuttingDown);
    }
  }

  lemma {:induction false} WhenDismissed(states: seq<World>, steps: seq<Step>, k: nat, i: Name) returns (m: nat)
    requires IsRun(states, steps) && k <= |steps| && i < |states[k].reg.services| && i < |states[k].timers|
    requires states[k].reg.services[i].state.Restarting? && states[k].timers[i] == []
    ensures m < k && Dismissed(states[m], steps[m], i)
    decreases k
  {
    hide Apply, Enabled, Dismissed, Inv;
    EveryRunKeeps(states, steps, k - 1);
    LosesItsTimer(states[k - 1], steps[k - 1], i);
    if Dismissed(states[k - 1], steps[k - 1], i) {
      m := k - 1;
    } else {
      m := WhenDismissed(states, steps, k - 1, i);
    }
  }

  lemma DropsIt(w: World, step: Step, i: Name)
    requires Inv(w) && Enabled(w, step) && Dismissed(w, step, i)
    ensures var t := Apply(w, step); t.reg.shuttingDown && i < |t.timers| && t.timers[i] == []
  {
    assert ServiceInv(w.reg.services[i], w.timers[i], w.reg.shuttingDown);
  }

  lemma NoneAdded(w: World, step: Step, i: Name)
    requires Inv(w) && Enabled(w, step) && w.reg.shuttingDown && i < |w.timers| && w.timers[i] == []
    ensures var t := Apply(w, step); t.reg.shuttingDown && i < |t.timers| && t.timers[i] == []
  {
    hide RunsInv, WatchersInv, ServiceInv;
  }

  lemma {:induction false} NoneAfterDismissal(states: seq<World>, steps: seq<Step>, m: nat, k: nat, i: Name)
    requires IsRun(states, steps) && m < k <= |steps| && Dismissed(states[m], steps[m], i)
    ensures states[k].reg.shuttingDown && i < |states[k].timers| && states[k].timers[i] == []
    decreases k
  {
    hide Apply, Enabled, Dismissed, Inv;
    EveryRunKeeps(states, steps, k - 1);
    if k == m + 1 {
      DropsIt(states[m], steps[m], i);
    } else {
      NoneAfterDismissal(states, steps, m, k - 1, i);
      NoneAdded(states[k - 1], steps[k - 1], i);
    }
  }

  /** The exception happens: a service that could not start, and a shutdown before its retry. */
  lemma ShutdownDropsARestart() returns (states: seq<World>, steps: seq<Step>)
    ensures IsRun(states, steps)
    ensures var w := states[|steps|];
            |w.reg.services| == 1 && w.reg.services[0].state == Restarting && w.timers == [[]]
  {
    var s0, s1, s2 := StartAll([Spec(Always, 0, 0)], [None], 0), Shutdown, TimerFires(0, 0, None, RESTART_FIRST);
    var w1 := Apply(Start, s0);
    assert w1.timers == [[RESTART_FIRST]];
    var w2 := Apply(w1, s1);
    var w3 := Apply(w2, s2);
    assert w3.timers == [[]];
    states, steps := [Start, w1, w2, w3], [s0, s1, s2];
  }

  // ---------------------------------------------------------------------
  // Delays in every run
  // ---------------------------------------------------------------------

  /** When a step that looks at the clock is taken. */
  function NowOf(step: Step): (now: Millis)
  {
    match step
    case StartAll(_, _, now) => now
    case ExitRecorded(_, _, now) => now
    case TimerFires(_, _, _, now) => now
    case _ => 0
  }

  ghost predicate IsWaiting(w: World, i: Name)
  {
    i < |w.reg.services| && w.reg.services[i].state.Restarting?
  }

  /** This step has the service wait to restart: it did not wait before, or its restart came and
      it could not start. */
  ghost predicate Begins(w: World, step: Step, i: Name)
    requires Enabled(w, step)
  {
    && IsWaiting(Apply(w, step), i)
    && (!IsWaiting(w, i) || (step.TimerFires? && step.name == i && !w.reg.shuttingDown))
  }

  ghost function DelayOf(w: World, i: Name): (d: Millis)
  {
    if i < |w.reg.services| then w.reg.services[i].delay else 0
  }

  /** The service restarts no earlier than `due`: it waits for that, or the time has come. */
  ghost predicate NotBefore(w: World, i: Name, due: Millis)
  {
    due <= w.clock ||
    (&& i < |w.reg.services| && i < |w.timers| && w.reg.services[i].state.Restarting?
     && |w.timers[i]| == 1 && due <= w.timers[i][0])
  }

  /** A wait begins with a restart to come after its delay, and a restart to come is that of a
      wait that begins or one that goes on. */
  ghost predicate WaitsRightly(w: World, step: Step, i: Name)
    requires Enabled(w, step)
  {
    var t := Apply(w, step);
    && (Begins(w, step, i) ==>
          && (step.StartAll? || step.ExitRecorded? || step.TimerFires?)
          && i < |t.timers| && t.timers[i] == [NowOf(step) + DelayOf(t, i)])
    && (i < |t.timers| && |t.timers[i]| > 0 && !Begins(w, step, i) ==>
          i < |w.timers| && t.timers[i] == w.timers[i] && DelayOf(t, i) == DelayOf(w, i))
  }

  lemma WaitBeginsAtStart(w: World, step: Step, i: Name)
    requires Inv(w) && Enabled(w, step) && step.StartAll?
    ensures WaitsRightly(w, step, i)
  {
    hide RunsInv, WatchersInv, NewRuns, NewWatchers, ServiceInv;
  }

  lemma WaitBeginsAtExit(w: World, step: Step, i: Name)
    requires Inv(w) && Enabled(w, step) && step.ExitRecorded?
    ensures WaitsRightly(w, step, i)
  {
    hide RunsInv, WatchersInv, NextDelay;
    if i < |w.reg.services| {
      assert ServiceInv(w.reg.services[i], w.timers[i], w.reg.shuttingDown);
    }
  }

  lemma WaitBeginsAtTimer(w: World, step: Step, i: Name)
    requires Inv(w) && Enabled(w, step) && step.TimerFires?
    ensures WaitsRightly(w, step, i)
  {
    hide RunsInv, WatchersInv, NextDelay;
    if i < |w.reg.services| {
      assert ServiceInv(w.reg.services[i], w.timers[i], w.reg.shuttingDown);
    }
  }

  lemma WaitBeginsAtNone(w: World, step: Step, i: Name)
    requires Inv(w) && Enabled(w, step) && !step.StartAll? && !step.ExitRecorded? && !step.TimerFires?
    ensures WaitsRightly(w, step, i)
  {
    hide RunsInv, Dropped, Targets;
    if i < |w.reg.services| {
      assert ServiceInv(w.reg.services[i], w.timers[i], w.reg.shuttingDown);
    }
  }

  lemma WaitBegins(w: World, step: Step, i: Name)
    requires Inv(w) && Enabled(w, step)
    ensures WaitsRightly(w, step, i)
  {
    hide Inv, Enabled, Apply, WaitsRightly;
    if step.StartAll? {
      WaitBeginsAtStart(w, step, i);
    } else if step.ExitRecorded? {
      WaitBeginsAtExit(w, step, i);
    } else if step.TimerFires? {
      WaitBeginsAtTimer(w, step, i);
    } else {
      WaitBeginsAtNone(w, step, i);
    }
  }

  lemma WaitGoesOn(w: World, step: Step, i: Name, due: Millis)
    requires Inv(w) && Enabled(w, step) && NotBefore(w, i, due)
    ensures NotBefore(Apply(w, step), i, due)
    ensures step.TimerFires? && step.name == i ==> due <= step.now
  {
    hide RunsInv, NextDelay, NewRuns, NewWatchers;
    if i < |w.reg.services| {
      assert ServiceInv(w.reg.services[i], w.timers[i], w.reg.shuttingDown);
    }
  }

  lemma {:induction false} WaitsOn(states: seq<World>, steps: seq<Step>, m: nat, k: nat, i: Name)
    requires IsRun(states, steps) && m < k <= |steps| && Begins(states[m], steps[m], i)
    ensures NotBefore(states[k], i, NowOf(steps[m]) + DelayOf(states[m + 1], i))
    decreases k
  {
    EveryRunKeeps(states, steps, k - 1);
    if k == m + 1 {
      WaitBegins(states[m], steps[m], i);
      hide Apply, Enabled, Inv;
    } else {
      hide Apply, Enabled, Inv, NotBefore, Begins;
      WaitsOn(states, steps, m, k - 1, i);
      WaitGoesOn(states[k - 1], steps[k - 1], i, NowOf(steps[m]) + DelayOf(states[m + 1], i));
    }
  }

  /** In every run, no restart of a service comes before the delay it was to wait has passed. */
  lemma NoRestartBeforeItsDelay(states: seq<World>, steps: seq<Step>, m: nat, k: nat, i: Name)
    requires IsRun(states, steps) && m < k < |steps| && Begins(states[m], steps[m], i)
    requires steps[k].TimerFires? && steps[k].name == i
    ensures NowOf(steps[m]) + DelayOf(states[m + 1], i) <= steps[k].now
  {
    hide Apply, Enabled, Inv, NotBefore, Begins;
    EveryRunKeeps(states, steps, k);
    WaitsOn(states, steps, m, k, i);
    WaitGoesOn(states[k], steps[k], i, NowOf(steps[m]) + DelayOf(states[m + 1], i));
  }

  /** And in every run a restart that is to come is due exactly when its delay has passed. */
  lemma {:induction false} RestartIsDueAfterItsDelay(states: seq<World>, steps: seq<Step>, k: nat, i: Name)
    returns (m: nat)
    requires IsRun(states, steps) && k <= |steps| && i < |states[k].timers| && |states[k].timers[i]| > 0
    ensures m < k && Begins(states[m], steps[m], i)
    ensures DelayOf(states[k], i) == DelayOf(states[m + 1], i)
    ensures states[k].timers[i] == [NowOf(steps[m]) + DelayOf(states[k], i)]
    decreases k
  {
    hide Apply, Enabled, Inv, Begins, DelayOf;
    EveryRunKeeps(states, steps, k - 1);
    WaitBegins(states[k - 1], steps[k - 1], i);
    if Begins(states[k - 1], steps[k - 1], i) {
      m := k - 1;
    } else {
      m := RestartIsDueAfterItsDelay(states, steps, k - 1, i);
    }
  }

  // ---------------------------------------------------------------------
  // How long each run was
  // ---------------------------------------------------------------------

  /** This step spawns the run. */
  ghost predicate Spawns(w: World, step: Step, run: Run)
  {
    match step
    case StartAll(_, spawned, _) => !w.reg.begun && !w.reg.shuttingDown && Some(run) in spawned
    case TimerFires(name, _, again, _) => again == Some(run) && !w.reg.shuttingDown && IsWaiting(w, name)
    case _ => false
  }

  /** When the run was spawned, if it was before step `k`. */
  ghost function SpawnedAt(states: seq<World>, steps: seq<Step>, k: nat, run: Run): (at: Option<Millis>)
    requires k <= |steps| < |states|
  {
    if k == 0 then None
    else if Spawns(states[k - 1], steps[k - 1], run) then Some(NowOf(steps[k - 1]))
    else SpawnedAt(states, steps, k - 1, run)
  }

  /** After a step, an active service is one just spawned, or was active before with the same run. */
  ghost predicate SpawnedOrSame(w: World, step: Step, t: World, i: Name)
    requires i < |t.reg.services|
  {
    var s := t.reg.services[i];
    && s.run.Some?
    && if Spawns(w, step, s.run.value) then s.started == NowOf(step)
       else && i < |w.reg.services| && Active(w.reg.services[i].state)
            && w.reg.services[i].run == s.run && w.reg.services[i].started == s.started
  }

  /** A run already there is not spawned again. */
  lemma NotSpawnedTwice(w: World, step: Step, i: Name)
    requires Inv(w) && Enabled(w, step) && i < |w.reg.services| && Active(w.reg.services[i].state)
    ensures w.reg.services[i].run.Some? && !Spawns(w, step, w.reg.services[i].run.value)
  {
    hide RegistryInv, WatchersInv;
  }

  lemma StartedByStart(w: World, step: Step, i: Name)
    requires Inv(w) && Enabled(w, step) && step.StartAll?
    requires var t := Apply(w, step); i < |t.reg.services| && Active(t.reg.services[i].state)
    ensures SpawnedOrSame(w, step, Apply(w, step), i)
  {
    hide RunsInv, WatchersInv, NewRuns, NewWatchers, ServiceInv;
    if i < |w.reg.services| && Active(w.reg.services[i].state) {
      NotSpawnedTwice(w, step, i);
    }
    if i < |step.spawned| && step.spawned[i].Some? {
      assert step.spawned[i] in step.spawned;
    }
  }

  lemma StartedByTimer(w: World, step: Step, i: Name)
    requires Inv(w) && Enabled(w, step) && step.TimerFires?
    requires var t := Apply(w, step); i < |t.reg.services| && Active(t.reg.services[i].state)
    ensures SpawnedOrSame(w, step, Apply(w, step), i)
  {
    hide RunsInv, WatchersInv, ServiceInv, NextDelay, Dropped;
    if i < |w.reg.services| && Active(w.reg.services[i].state) {
      NotSpawnedTwice(w, step, i);
    }
  }

  lemma StartedByOther(w: World, step: Step, i: Name)
    requires Inv(w) && Enabled(w, step) && !step.StartAll? && !step.TimerFires?
    requires var t := Apply(w, step); i < |t.reg.services| && Active(t.reg.services[i].state)
    ensures SpawnedOrSame(w, step, Apply(w, step), i)
  {
    hide ServiceInv, NextDelay, Dropped, Targets;
  }

  lemma StartedStep(w: World, step: Step, i: Name)
    requires Inv(w) && Enabled(w, step)
    requires var t := Apply(w, step); i < |t.reg.services| && Active(t.reg.services[i].state)
    ensures SpawnedOrSame(w, step, Apply(w, step), i)
  {
    hide Inv, Enabled, Apply, SpawnedOrSame;
    if step.StartAll? {
      StartedByStart(w, step, i);
    } else if step.TimerFires? {
      StartedByTimer(w, step, i);
    } else {
      StartedByOther(w, step, i);
    }
  }

  /** In every run, a service that is starting or ready says when its present run was spawned. */
  lemma {:induction false} StartedWhenSpawned(states: seq<World>, steps: seq<Step>, k: nat, i: Name)
    requires IsRun(states, steps) && k <= |steps|
    requires i < |states[k].reg.services| && Active(states[k].reg.services[i].state)
    ensures var s := states[k].reg.services[i];
            s.run.Some? && SpawnedAt(states, steps, k, s.run.value) == Some(s.started)
  {
    if k > 0 {
      hide Apply, Enabled, Inv, Spawns;
      EveryRunKeeps(states, steps, k - 1);
      StartedStep(states[k - 1], steps[k - 1], i);
      if !Spawns(states[k - 1], steps[k - 1], states[k].reg.services[i].run.value) {
        StartedWhenSpawned(states, steps, k - 1, i);
      }
    }
  }

  /** How long the service ran before this step had it wait, from the step that spawned the run to
      the step that recorded its exit; nothing for a start that failed. */
  ghost function Ran(states: seq<World>, steps: seq<Step>, k: nat, i: Name): (r: seq<Millis>)
    requires IsRun(states, steps) && k < |steps|
  {
    if !Begins(states[k], steps[k], i) then []
    else match steps[k]
      case ExitRecorded(run, _, now) =>
        (match SpawnedAt(states, steps, k, run)
         case Some(at) => [if at <= now then now - at else 0]
         case None => [0])
      case _ => [0]
  }

  /** The lengths of the runs that ended in a wait. */
  ghost function RunLengths(states: seq<World>, steps: seq<Step>, k: nat, i: Name): (r: seq<Millis>)
    requires IsRun(states, steps) && k <= |steps|
  {
    if k == 0 then [] else RunLengths(states, steps, k - 1, i) + Ran(states, steps, k - 1, i)
  }

  /** A wait sets the next delay, and nothing else does. */
  lemma DelayGoesOn(w: World, step: Step, i: Name)
    requires Inv(w) && Enabled(w, step)
    ensures !Begins(w, step, i) ==> DelayOf(Apply(w, step), i) == DelayOf(w, i)
    ensures Begins(w, step, i) && !step.ExitRecorded? ==>
              DelayOf(Apply(w, step), i) == NextDelay(DelayOf(w, i), 0)
    ensures Begins(w, step, i) && step.ExitRecorded? ==>
              && i < |w.reg.services| && Active(w.reg.services[i].state) && w.reg.services[i].run == Some(step.run)
              && var at := w.reg.services[i].started;
                 DelayOf(Apply(w, step), i) == NextDelay(DelayOf(w, i), if at <= step.now then step.now - at else 0)
  {
    if step.ExitRecorded? {
      DelayAfterExit(w, step, i);
    } else {
      hide NewRuns, NewWatchers, RunsInv;
      if i < |w.reg.services| {
        assert ServiceInv(w.reg.services[i], w.timers[i], w.reg.shuttingDown);
      }
    }
  }

  lemma DelayAfterExit(w: World, step: Step, i: Name)
    requires Inv(w) && Enabled(w, step) && step.ExitRecorded?
    ensures !Begins(w, step, i) ==> DelayOf(Apply(w, step), i) == DelayOf(w, i)
    ensures Begins(w, step, i) ==>
              && i < |w.reg.services| && Active(w.reg.services[i].state) && w.reg.services[i].run == Some(step.run)
              && var at := w.reg.services[i].started;
                 DelayOf(Apply(w, step), i) == NextDelay(DelayOf(w, i), if at <= step.now then step.now - at else 0)
  {
    hide WatchersInv, NextDelay, ServiceInv;
  }

  lemma DelayGoesOnInRun(states: seq<World>, steps: seq<Step>, k: nat, i: Name)
    requires IsRun(states, steps) && k < |steps|
    ensures var ran := Ran(states, steps, k, i);
            && |ran| <= 1
            && DelayOf(states[k + 1], i) ==
               if ran == [] then DelayOf(states[k], i) else NextDelay(DelayOf(states[k], i), ran[0])
  {
    hide Apply, Enabled, Inv, Begins, NextDelay, SpawnedAt;
    EveryRunKeeps(states, steps, k);
    DelayGoesOn(states[k], steps[k], i);
    if Begins(states[k], steps[k], i) && steps[k].ExitRecorded? {
      StartedWhenSpawned(states, steps, k, i);
    }
  }

  /** In every run, a service's delay is what the lengths of its runs make it. */
  lemma {:induction false} DelayFollowsTheRuns(states: seq<World>, steps: seq<Step>, k: nat, i: Name)
    requires IsRun(states, steps) && k <= |steps|
    ensures DelayOf(states[k], i) == DelayAfter(RunLengths(states, steps, k, i))
  {
    if k > 0 {
      hide Apply, Enabled, Inv, Ran, NextDelay, DelayOf, DelayAfter;
      DelayFollowsTheRuns(states, steps, k - 1, i);
      DelayGoesOnInRun(states, steps, k - 1, i);
      DelayAfterOneMore(RunLengths(states, steps, k - 1, i), Ran(states, steps, k - 1, i));
    }
  }

  lemma DelayAfterOneMore(rans: seq<Millis>, ran: seq<Millis>)
    requires |ran| <= 1
    ensures DelayAfter(rans + ran) == if ran == [] then DelayAfter(rans) else NextDelay(DelayAfter(rans), ran[0])
  {
    if ran == [] {
      assert rans + ran == rans;
    } else {
      assert (rans + ran)[..|rans|] == rans && (rans + ran)[|rans|] == ran[0];
    }
  }

  /** So it doubles with every run since the latest healthy one, from a second to a minute. */
  lemma DelayDoublesInEveryRun(states: seq<World>, steps: seq<Step>, k: nat, i: Name, healthy: nat)
    requires IsRun(states, steps) && k <= |steps| && i < |states[k].reg.services|
    requires var rans := RunLengths(states, steps, k, i);
             && healthy < |rans| && (healthy == 0 || rans[healthy] >= RESTART_RESET)
             && forall n :: healthy < n < |rans| ==> rans[n] < RESTART_RESET
    ensures var d := RESTART_FIRST * Pow2(|RunLengths(states, steps, k, i)| - 1 - healthy);
            states[k].reg.services[i].delay == if d <= RESTART_MAX then d else RESTART_MAX
  {
    hide IsRun, RunLengths, DelayAfter, Pow2;
    DelayFollowsTheRuns(states, steps, k, i);
    DelaysDouble(RunLengths(states, steps, k, i), healthy);
  }

  lemma StoppedStays(w: World, step: Step, i: Name)
    requires Inv(w) && Enabled(w, step) && i < |w.reg.services| && w.reg.services[i].state.Stopped?
    ensures var t := Apply(w, step); i < |t.reg.services| && t.reg.services[i].state.Stopped?
  {
    hide RunsInv, WatchersInv, ServiceInv;
  }

  lemma {:induction false} StoppedIsTerminal(states: seq<World>, steps: seq<Step>, k: nat, m: nat, i: Name)
    requires IsRun(states, steps) && k <= m <= |steps|
    requires i < |states[k].reg.services| && states[k].reg.services[i].state.Stopped?
    ensures i < |states[m].reg.services| && states[m].reg.services[i].state.Stopped?
    decreases m
  {
    hide Inv, Apply, Enabled;
    if k < m {
      StoppedIsTerminal(states, steps, k, m - 1, i);
      EveryRunKeeps(states, steps, m - 1);
      StoppedStays(states[m - 1], steps[m - 1], i);
    }
  }

  lemma ShutdownStays(w: World, step: Step)
    requires Enabled(w, step) && w.reg.shuttingDown
    ensures var t := Apply(w, step); t.reg.shuttingDown && t.used == w.used
  {
  }

  /** Once a shutdown has begun it stays begun, and no process is spawned any more. */
  lemma {:induction false} NothingIsSpawnedAfterShutdown(states: seq<World>, steps: seq<Step>, k: nat, m: nat)
    requires IsRun(states, steps) && k <= m <= |steps| && states[k].reg.shuttingDown
    ensures states[m].reg.shuttingDown && states[m].used == states[k].used
    decreases m
  {
    hide Apply, Enabled;
    if k < m {
      NothingIsSpawnedAfterShutdown(states, steps, k, m - 1);
      ShutdownStays(states[m - 1], steps[m - 1]);
    }
  }

  /** In every run, a shutdown takes a process whose exit is not recorded for a target exactly
      unless its service was given up as not ready, or is stopped by a shutdown before. */
  lemma LeftRunningExactlyWhenGivenUp(states: seq<World>, steps: seq<Step>, k: nat, run: Run)
    requires IsRun(states, steps) && k < |steps| && steps[k].Shutdown? && run in states[k].live
    ensures var w := states[k];
            && w.live[run] < |w.reg.services| && w.reg.services[w.live[run]].run == Some(run)
            && (w.live[run] !in Targets(w.reg) <==>
                var state := w.reg.services[w.live[run]].state; state == Failed(NotReady) || state == Stopped)
            && states[k + 1].targets == w.targets + Targets(w.reg)
  {
    EveryRunKeeps(states, steps, k);
  }

  /** That happens: a process that was too slow to get ready still runs after the shutdown. */
  lemma GivenUpServiceIsLeftRunning() returns (states: seq<World>, steps: seq<Step>)
    ensures IsRun(states, steps) && steps != [] && steps[|steps| - 1].Shutdown?
    ensures var w := states[|steps|]; 0 in w.live && 0 !in w.exited && w.reg.shuttingDown && w.targets == {}
  {
    hide NewRuns, NewWatchers, AllBegun;
    var spec := Spec(No, 0, 0);
    var s0, s1, s2 := StartAll([spec], [Some(0)], 0), WatcherLooks(0, Failed(NotReady)), WatcherSets(0);
    var w1 := OneServiceStarts(spec);
    var w2 := Apply(w1, s1);
    var w3 := Apply(w2, s2);
    var w4 := Apply(w3, Shutdown);
    assert Targets(w3.reg) == {};
    states, steps := [Start, w1, w2, w3, w4], [s0, s1, s2, Shutdown];
  }

  /** While the run a watcher looks at has not exited, it is its service's present run. */
  lemma WatcherJudgesItsOwnRun(states: seq<World>, steps: seq<Step>, k: nat, i: nat)
    requires IsRun(states, steps) && k <= |steps| && i < |states[k].watchers|
    requires states[k].watchers[i].run !in states[k].exited
    ensures var v := states[k].watchers[i];
            v.name < |states[k].reg.services| && states[k].reg.services[v.name].run == Some(v.run)
  {
    EveryRunKeeps(states, steps, k);
  }

  /** A watcher keeps watching until its run exits or it has set what it decided. */
  lemma WatcherKeepsWatching(states: seq<World>, steps: seq<Step>, k: nat, i: nat)
    requires IsRun(states, steps) && k < |steps| && i < |states[k].watchers|
    requires states[k].watchers[i].run !in states[k].exited && steps[k] != WatcherSets(i)
    ensures IsWatched(states[k + 1].watchers, states[k].watchers[i].name, states[k].watchers[i].run)
  {
    var w, t := states[k], states[k + 1];
    assert Enabled(w, steps[k]) && t == Apply(w, steps[k]);
    hide IsRun, RecordExit, Respawn, AllBegun, NewRuns, NewWatchers;
    var j := if (steps[k].WatcherSets? || steps[k].WatcherGivesUp?) && steps[k].i < i then i - 1 else i;
    assert t.watchers[j].name == w.watchers[i].name && t.watchers[j].run == w.watchers[i].run;
  }

  predicate IsWatched(watchers: seq<Watcher>, name: Name, run: Run)
  {
    exists j :: 0 <= j < |watchers| && watchers[j].name == name && watchers[j].run == run
  }

  /** The time of the world is that of the last step that looked at the clock. */
  lemma ClockIsNow(states: seq<World>, steps: seq<Step>, k: nat)
    requires IsRun(states, steps) && k < |steps|
    ensures states[k].clock <= states[k + 1].clock
    ensures steps[k].StartAll? || steps[k].ExitRecorded? || steps[k].TimerFires? ==>
              states[k + 1].clock == NowOf(steps[k])
  {
    assert Enabled(states[k], steps[k]);
    hide IsRun, RecordExit, AllBegun, NewRuns, NewWatchers, NextDelay;
  }

  /** In every run, a watcher that makes a service ready has watched its present run exactly when
      the exit of the run it watched is not recorded yet. */
  lemma ReadyIsForTheWatchedRun(states: seq<World>, steps: seq<Step>, k: nat, i: nat)
    requires IsRun(states, steps) && k < |steps| && steps[k] == WatcherSets(i) && i < |states[k].watchers|
    requires states[k].watchers[i].verdict == Some(Ready) && states[k + 1].reg != states[k].reg
    ensures var v := states[k].watchers[i];
            && v.name < |states[k].reg.services|
            && states[k + 1].reg.services[v.name].state == Ready
            && (states[k + 1].reg.services[v.name].run == Some(v.run) <==> v.run in states[k].live)
  {
    EveryRunKeeps(states, steps, k);
    TakesEffect(states[k], i);
  }

  lemma TakesEffect(w: World, i: nat)
    requires Inv(w) && Enabled(w, WatcherSets(i)) && w.watchers[i].verdict == Some(Ready)
    requires Apply(w, WatcherSets(i)).reg != w.reg
    ensures var v, reg := w.watchers[i], Apply(w, WatcherSets(i)).reg;
            && v.name < |w.reg.services| && |reg.services| == |w.reg.services|
            && reg.services[v.name].state == Ready && (reg.services[v.name].run == Some(v.run) <==> v.run in w.live)
  {
    hide ServiceInv;
    var v := w.watchers[i];
    var s := w.reg.services[v.name];
    assert s.state.Starting? || SetState(w.reg, v.name, Ready) == w.reg by {
      assert w.reg.services[v.name := s] == w.reg.services;
    }
  }

  /** Once it is recorded, the verdict can fall on a later run: one that no watcher looked at is
      ready. */
  lemma StaleVerdictFallsOnALaterRun() returns (states: seq<World>, steps: seq<Step>)
    ensures IsRun(states, steps)
    ensures var w := states[|steps|];
            && |w.reg.services| == 1 && w.reg.services[0].state == Ready && w.reg.services[0].run == Some(1)
            && w.watchers == [Watcher(0, 1, None)]
  {
    hide NewRuns, NewWatchers, AllBegun, RecordExit, Respawn;
    var spec := Spec(Always, 0, 0);
    var s0 := StartAll([spec], [Some(0)], 0);
    var w1 := OneServiceStarts(spec);
    var s1 := WatcherLooks(0, Ready);
    var w2 := Apply(w1, s1);
    var s2 := ProcessExits(0);
    var w3 := Apply(w2, s2);
    var w4, w5 := OneServiceRestarts(w3);
    var w6 := LateVerdict(w5);
    states := [Start, w1, w2, w3, w4, w5, w6];
    steps := [s0, s1, s2, ExitRecorded(0, 0, 0), TimerFires(0, 0, Some(1), RESTART_FIRST), WatcherSets(0)];
  }

  lemma LateVerdict(w: World) returns (u: World)
    requires w.watchers == [Watcher(0, 0, Some(Ready)), Watcher(0, 1, None)]
    requires |w.reg.services| == 1 && w.reg.services[0].state == Starting && w.reg.services[0].run == Some(1)
    ensures Enabled(w, WatcherSets(0)) && u == Apply(w, WatcherSets(0))
    ensures |u.reg.services| == 1 && u.reg.services[0].state == Ready && u.reg.services[0].run == Some(1)
    ensures u.watchers == [Watcher(0, 1, None)]
  {
    u := Apply(w, WatcherSets(0));
  }

  lemma OneServiceRestarts(w: World) returns (u: World, v: World)
    requires w.clock == 0 && w.timers == [[]] && w.live == map[0 := 0] && 0 in w.exited && w.used == {0}
    requires !w.reg.shuttingDown && |w.reg.services| == 1
    requires var s := w.reg.services[0];
             s.spec.restart.Always? && s.state == Starting && s.run == Some(0) && s.delay == 0
    ensures Enabled(w, ExitRecorded(0, 0, 0)) && u == Apply(w, ExitRecorded(0, 0, 0))
    ensures var step := TimerFires(0, 0, Some(1), RESTART_FIRST); Enabled(u, step) && v == Apply(u, step)
    ensures v.watchers == w.watchers + [Watcher(0, 1, None)]
    ensures |v.reg.services| == 1 && v.reg.services[0].state == Starting && v.reg.services[0].run == Some(1)
  {
    u := Apply(w, ExitRecorded(0, 0, 0));
    assert w.timers[0] + [RESTART_FIRST] == [RESTART_FIRST];
    assert u.timers == [[RESTART_FIRST]] && u.reg.services[0].state == Restarting;
    v := Apply(u, TimerFires(0, 0, Some(1), RESTART_FIRST));
  }

  lemma OneServiceStarts(spec: Spec) returns (w: World)
    ensures Enabled(Start, StartAll([spec], [Some(0)], 0)) && w == Apply(Start, StartAll([spec], [Some(0)], 0))
    ensures w.clock == 0 && w.timers == [[]] && w.watchers == [Watcher(0, 0, None)] && w.live == map[0 := 0]
    ensures w.exited == {} && w.used == {0} && |w.reg.services| == 1 && !w.reg.shuttingDown
    ensures var s := w.reg.services[0]; s.spec == spec && s.state == Starting && s.run == Some(0) && s.delay == 0
  {
    w := Apply(Start, StartAll([spec], [Some(0)], 0));
    assert NewWatchers([Some(0)]) == NewWatchers([]) + [Watcher(0, 0, None)];
    assert NewRuns([Some(0)]) == map[0 := 0] by { assert [Some(0)][..0] == []; }
  }

  // ---------------------------------------------------------------------
  // The gate for commands
  // ---------------------------------------------------------------------

  predicate Holds(s: Service, now: Millis)
  {
    match s.spec.restart
    case No => s.state.Starting?
    case Always => !s.everReady && now < s.gateUntil && (s.state.Starting? || s.state.Restarting?)
  }

  datatype Gate = Waits | Goes | ShuttingDown | FailedBy(name: Name)

  function FirstFailed(services: seq<Service>, from: nat): (r: Option<Name>)
    requires from <= |services|
    decreases |services| - from
  {
    if from == |services| then None
    else if services[from].state.Failed? && services[from].spec.restart.No? then Some(from)
    else FirstFailed(services, from + 1)
  }

  function Decision(reg: Registry, now: Millis): (g: Gate)
  {
    if reg.shuttingDown then ShuttingDown
    else if !reg.begun || exists i :: 0 <= i < |reg.services| && Holds(reg.services[i], now) then Waits
    else match FirstFailed(reg.services, 0)
      case None => Goes
      case Some(name) => FailedBy(name)
  }

  /** A command looks at the registry at each wake-up until it need not wait; `seen` is the
      registry under its lock and the time, at each of them. */
  method WaitReady(seen: seq<(Registry, Millis)>) returns (answer: Gate, looks: nat)
    ensures looks <= |seen|
    ensures forall k :: 0 <= k < looks ==> Decision(seen[k].0, seen[k].1) == Waits
    ensures if looks == |seen| then answer == Waits
            else answer == Decision(seen[looks].0, seen[looks].1) != Waits
  {
    looks := 0;
    while looks < |seen|
      invariant looks <= |seen|
      invariant forall k :: 0 <= k < looks ==> Decision(seen[k].0, seen[k].1) == Waits
    {
      var (reg, now) := seen[looks];
      if reg.shuttingDown {
        return ShuttingDown, looks;
      }
      var any := AnyHolds(reg.services, now);
      if !(!reg.begun || any) {
        var failed := FindFailed(reg.services);
        answer := if failed.None? then Goes else FailedBy(failed.value);
        return;
      }
      looks := looks + 1;
    }
    answer := Waits;
  }

  method AnyHolds(services: seq<Service>, now: Millis) returns (any: bool)
    ensures any <==> exists i :: 0 <= i < |services| && Holds(services[i], now)
  {
    var i := 0;
    while i < |services|
      invariant 0 <= i <= |services|
      invariant forall j :: 0 <= j < i ==> !Holds(services[j], now)
    {
      if Holds(services[i], now) {
        return true;
      }
      i := i + 1;
    }
    return false;
  }

  method FindFailed(services: seq<Service>) returns (failed: Option<Name>)
    ensures failed == FirstFailed(services, 0)
  {
    var i := 0;
    while i < |services|
      invariant 0 <= i <= |services|
      invariant FirstFailed(services, 0) == FirstFailed(services, i)
    {
      if services[i].state.Failed? && services[i].spec.restart.No? {
        return Some(i);
      }
      i := i + 1;
    }
    return None;
  }

  lemma {:induction false} FirstFailedIsFirst(services: seq<Service>, from: nat)
    requires from <= |services|
    ensures match FirstFailed(services, from)
            case None =>
              forall i :: from <= i < |services| ==> !(services[i].state.Failed? && services[i].spec.restart.No?)
            case Some(n) =>
              && from <= n < |services| && services[n].state.Failed? && services[n].spec.restart.No?
              && forall i :: from <= i < n ==> !(services[i].state.Failed? && services[i].spec.restart.No?)
    decreases |services| - from
  {
    if from < |services| { FirstFailedIsFirst(services, from + 1); }
  }

  /** The step that started the services, if one of the first `k` did. */
  ghost function StartStep(states: seq<World>, steps: seq<Step>, k: nat): (m: Option<nat>)
    requires k <= |steps| < |states|
    ensures m.Some? ==> m.value < k && steps[m.value].StartAll?
  {
    if k == 0 then None
    else if steps[k - 1].StartAll? && !states[k - 1].reg.begun && !states[k - 1].reg.shuttingDown then Some(k - 1)
    else StartStep(states, steps, k - 1)
  }

  /** Service `i` is one of those this step started, with its gate from then on. */
  ghost predicate StartedBy(step: Step, reg: Registry, i: Name)
    requires i < |reg.services|
  {
    && step.StartAll? && |step.specs| == |reg.services|
    && reg.services[i].spec == step.specs[i]
    && reg.services[i].gateUntil == step.now + step.specs[i].readyTimeout
  }

  lemma StartedByStep(w: World, step: Step, i: Name)
    requires Inv(w) && Enabled(w, step)
    requires i < |Apply(w, step).reg.services|
    ensures var t := Apply(w, step).reg;
            if step.StartAll? && !w.reg.begun && !w.reg.shuttingDown then StartedBy(step, t, i)
            else && |t.services| == |w.reg.services|
                 && t.services[i].spec == w.reg.services[i].spec
                 && t.services[i].gateUntil == w.reg.services[i].gateUntil
  {
    hide RunsInv, WatchersInv, ServiceInv, NewRuns, NewWatchers, NextDelay;
  }

  /** In every run, the services are those of the step that started them, each with its gate open
      its ready timeout after. */
  lemma {:induction false} GateOpensAfterTheTimeout(states: seq<World>, steps: seq<Step>, k: nat, i: Name)
    requires IsRun(states, steps) && k <= |steps| && i < |states[k].reg.services|
    ensures StartStep(states, steps, k).Some? && StartedBy(steps[StartStep(states, steps, k).value], states[k].reg, i)
  {
    if k > 0 {
      hide Apply, Enabled, Inv;
      EveryRunKeeps(states, steps, k - 1);
      StartedByStep(states[k - 1], steps[k - 1], i);
      if StartStep(states, steps, k) != Some(k - 1) {
        GateOpensAfterTheTimeout(states, steps, k - 1, i);
      }
    }
  }

  ghost predicate IsReady(w: World, i: Name)
  {
    i < |w.reg.services| && w.reg.services[i].state.Ready?
  }

  ghost predicate WasReady(states: seq<World>, k: nat, i: Name)
    requires k < |states|
  {
    exists m :: 0 <= m <= k && IsReady(states[m], i)
  }

  lemma OneMoreState(states: seq<World>, k: nat, i: Name)
    requires 0 < k < |states|
    ensures WasReady(states, k, i) <==> WasReady(states, k - 1, i) || IsReady(states[k], i)
  {
    hide IsReady;
  }

  lemma ReadyStep(w: World, step: Step, i: Name)
    requires Inv(w) && Enabled(w, step) && i < |Apply(w, step).reg.services|
    ensures var t := Apply(w, step);
            t.reg.services[i].everReady <==>
            IsReady(t, i) || (i < |w.reg.services| && w.reg.services[i].everReady)
  {
    hide RunsInv, NewRuns, NewWatchers, NextDelay;
    if i < |w.reg.services| {
      assert ServiceInv(w.reg.services[i], w.timers[i], w.reg.shuttingDown);
    }
  }

  lemma ServicesStay(w: World, step: Step, i: Name)
    requires Inv(w) && Enabled(w, step) && i < |w.reg.services|
    ensures i < |Apply(w, step).reg.services|
  {
    hide RunsInv, WatchersInv, ServiceInv, NewRuns, NewWatchers, NextDelay;
  }

  /** In every run, a service counts as having been ready exactly when it was. */
  lemma {:induction false} EverReadyIsHistory(states: seq<World>, steps: seq<Step>, k: nat, i: Name)
    requires IsRun(states, steps) && k <= |steps|
    ensures i < |states[k].reg.services| ==> (states[k].reg.services[i].everReady <==> WasReady(states, k, i))
    ensures i >= |states[k].reg.services| ==> !WasReady(states, k, i)
  {
    if k == 0 {
      hide Apply, Enabled;
    } else {
      hide Apply, Enabled, Inv, WasReady;
      EveryRunKeeps(states, steps, k - 1);
      EverReadyIsHistory(states, steps, k - 1, i);
      OneMoreState(states, k, i);
      if i < |states[k].reg.services| {
        ReadyStep(states[k - 1], steps[k - 1], i);
      } else if i < |states[k - 1].reg.services| {
        ServicesStay(states[k - 1], steps[k - 1], i);
      }
    }
  }

  /** By the history: a service that does not restart is ready, or one that does has been, or its
      ready timeout has passed since the services started. */
  ghost predicate LetsThrough(states: seq<World>, steps: seq<Step>, k: nat, i: Name, now: Millis)
    requires k <= |steps| < |states| && i < |states[k].reg.services|
  {
    var s := states[k].reg.services[i];
    match s.spec.restart
    case No => s.state.Ready?
    case Always =>
      WasReady(states, k, i) ||
      (match StartStep(states, steps, k)
       case Some(m) => steps[m].now + s.spec.readyTimeout <= now
       case None => false)
  }

  /** It has failed for good. */
  predicate GaveOut(s: Service)
  {
    s.state.Failed? && s.spec.restart.No?
  }

  /** Past its holding: let through, or failed for good. */
  lemma HoldsByHistory(states: seq<World>, steps: seq<Step>, k: nat, i: Name, now: Millis)
    requires IsRun(states, steps) && k <= |steps| && i < |states[k].reg.services| && !states[k].reg.shuttingDown
    ensures var s := states[k].reg.services[i];
            && (Holds(s, now) <==> !LetsThrough(states, steps, k, i, now) && !GaveOut(s))
            && !(LetsThrough(states, steps, k, i, now) && GaveOut(s))
  {
    hide Apply, Enabled, StartStep, WasReady;
    EveryRunKeeps(states, steps, k);
    GateOpensAfterTheTimeout(states, steps, k, i);
    EverReadyIsHistory(states, steps, k, i);
    assert ServiceInv(states[k].reg.services[i], states[k].timers[i], states[k].reg.shuttingDown);
  }

  /** In every reachable state a command goes ahead exactly when the services have begun, no
      shutdown has, every service that does not restart is ready, and every one that does
      has been ready or had its ready timeout. It fails, naming the first service that failed for
      good, exactly when some did and every other is let through. */
  lemma GoesExactlyWhenReady(states: seq<World>, steps: seq<Step>, k: nat, now: Millis)
    requires IsRun(states, steps) && k <= |steps|
    ensures var reg := states[k].reg;
            && (Decision(reg, now) == ShuttingDown <==> reg.shuttingDown)
            && (Decision(reg, now) == Goes <==>
                && reg.begun && !reg.shuttingDown
                && forall i :: 0 <= i < |reg.services| ==> LetsThrough(states, steps, k, i, now))
            && (forall n: Name :: Decision(reg, now) == FailedBy(n) <==>
                && reg.begun && !reg.shuttingDown && n < |reg.services| && GaveOut(reg.services[n])
                && (forall i :: 0 <= i < n ==> !GaveOut(reg.services[i]))
                && forall i :: 0 <= i < |reg.services| ==>
                     GaveOut(reg.services[i]) || LetsThrough(states, steps, k, i, now))
  {
    var reg := states[k].reg;
    FirstFailedIsFirst(reg.services, 0);
    hide IsRun, Holds, LetsThrough, FirstFailed;
    forall i | 0 <= i < |reg.services| && !reg.shuttingDown
      ensures Holds(reg.services[i], now) <==> !LetsThrough(states, steps, k, i, now) && !GaveOut(reg.services[i])
      ensures !(LetsThrough(states, steps, k, i, now) && GaveOut(reg.services[i]))
    {
      HoldsByHistory(states, steps, k, i, now);
    }
  }

  /** This step records that the service's run exited with `status`. */
  ghost predicate ExitsWith(w: World, step: Step, i: Name, status: int)
  {
    && step.ExitRecorded? && step.status == status && step.run in w.live && w.live[step.run] == i
    && i < |w.reg.services| && Active(w.reg.services[i].state)
  }

  lemma FailedStep(w: World, step: Step, i: Name, status: int)
    requires Inv(w) && Enabled(w, step) && i < |Apply(w, step).reg.services|
    ensures Apply(w, step).reg.services[i].state == Failed(Exited(status)) ==>
              ExitsWith(w, step, i, status) ||
              (i < |w.reg.services| && w.reg.services[i].state == Failed(Exited(status)))
  {
    hide RegistryInv, NewRuns, NewWatchers, NextDelay, Dropped;
  }

  /** In every run, the status a service failed with is the one its exit was recorded with. */
  lemma {:induction false} FailureTellsTheStatus(states: seq<World>, steps: seq<Step>, k: nat, i: Name, status: int)
    returns (m: nat)
    requires IsRun(states, steps) && k <= |steps| && i < |states[k].reg.services|
    requires states[k].reg.services[i].state == Failed(Exited(status))
    ensures m < k && ExitsWith(states[m], steps[m], i, status)
    decreases k
  {
    hide Apply, Enabled, Inv, ExitsWith;
    EveryRunKeeps(states, steps, k - 1);
    FailedStep(states[k - 1], steps[k - 1], i, status);
    if ExitsWith(states[k - 1], steps[k - 1], i, status) {
      m := k - 1;
    } else {
      m := FailureTellsTheStatus(states, steps, k - 1, i, status);
    }
  }

  /** And an exit is recorded so: the service fails with its status, or waits to restart. */
  lemma ExitIsTold(states: seq<World>, steps: seq<Step>, k: nat, i: Name, status: int)
    requires IsRun(states, steps) && k < |steps| && ExitsWith(states[k], steps[k], i, status)
    requires !states[k].reg.shuttingDown
    ensures i < |states[k + 1].reg.services|
    ensures var s := states[k + 1].reg.services[i];
            s.state == if s.spec.restart.Always? then Restarting else Failed(Exited(status))
  {
    hide NextDelay;
  }

  // ---------------------------------------------------------------------
  // Stopping
  // ---------------------------------------------------------------------

  datatype Target = Target(name: Name, run: Run, timeout: Millis)

  datatype Signal = Terminate(run: Run) | KillGroup(run: Run) | Kill(run: Run)

  /** What the passes of the stopping loop find: the time since the start, at least 50 ms
      more each pass, and the runs that have exited by then. */
  datatype Passes = Passes(elapsed: seq<Millis>, exited: seq<set<Run>>) {
    /** The passes go on until the time is past every timeout. */
    ghost predicate Cover(ts: seq<Target>)
    {
      && |elapsed| == |exited| && |elapsed| > 0
      && (forall k :: 0 < k < |elapsed| ==> elapsed[k - 1] + 50 <= elapsed[k])
      && (forall t :: t in ts ==> t.timeout <= elapsed[|elapsed| - 1])
    }
  }

  /** From pass `k` on, the target is seen to have exited before its timeout has passed. */
  ghost predicate ExitsInTime(t: Target, p: Passes, k: nat)
    requires |p.elapsed| == |p.exited| && k <= |p.elapsed|
    decreases |p.elapsed| - k
  {
    k < |p.elapsed| &&
    (t.run in p.exited[k] || (p.elapsed[k] < t.timeout && ExitsInTime(t, p, k + 1)))
  }

  function Names(ts: seq<Target>): (r: seq<Name>)
    ensures |r| == |ts| && forall i :: 0 <= i < |ts| ==> r[i] == ts[i].name
  {
    seq(|ts|, i requires 0 <= i < |ts| => ts[i].name)
  }

  predicate Sorted(s: seq<nat>)
  {
    forall i, j :: 0 <= i < j < |s| ==> s[i] <= s[j]
  }

  function Insert(x: nat, s: seq<nat>): (r: seq<nat>)
  {
    if s == [] || x <= s[0] then [x] + s else [s[0]] + Insert(x, s[1..])
  }

  function Sort(s: seq<nat>): (r: seq<nat>)
  {
    if s == [] then [] else Insert(s[0], Sort(s[1..]))
  }

  lemma {:induction false} InsertSorts(x: nat, s: seq<nat>)
    requires Sorted(s)
    ensures Sorted(Insert(x, s)) && |Insert(x, s)| == |s| + 1
    ensures forall y :: y in Insert(x, s) <==> y == x || y in s
  {
    if s != [] && x > s[0] {
      var rest := Insert(x, s[1..]);
      assert s == [s[0]] + s[1..];
      InsertSorts(x, s[1..]);
      hide Insert;
      forall i | 0 <= i < |rest| ensures s[0] <= rest[i] {
        assert rest[i] in rest;
      }
    }
  }

  lemma {:induction false} SortSorts(s: seq<nat>)
    ensures Sorted(Sort(s)) && |Sort(s)| == |s|
    ensures forall y :: y in Sort(s) <==> y in s
  {
    if s != [] {
      assert s == [s[0]] + s[1..];
      SortSorts(s[1..]);
      InsertSorts(s[0], Sort(s[1..]));
    }
  }

  /** No name twice, as in a registry. */
  ghost predicate Distinct(ts: seq<Target>)
  {
    forall i, j :: 0 <= i < j < |ts| ==> ts[i].name != ts[j].name
  }

  ghost predicate Apart(a: seq<Target>, b: seq<Target>)
  {
    forall i, j :: 0 <= i < |a| && 0 <= j < |b| ==> a[i].name != b[j].name
  }

  /** `ts` shared out between two lists, nothing lost and nothing twice. */
  ghost predicate Shared(ts: seq<Target>, a: seq<Target>, b: seq<Target>)
  {
    && (forall t :: t in ts <==> t in a || t in b)
    && |a| + |b| == |ts|
    && Distinct(a) && Distinct(b) && Apart(a, b)
  }

  /** And among three. */
  ghost predicate Parted(ts: seq<Target>, a: seq<Target>, b: seq<Target>, c: seq<Target>)
  {
    && (forall t :: t in ts <==> t in a || t in b || t in c)
    && |a| + |b| + |c| == |ts|
    && Distinct(a) && Distinct(b) && Distinct(c)
    && Apart(a, b) && Apart(a, c) && Apart(b, c)
  }

  /** The targets that meet `out`, or do not, in order. */
  function Filtered(ts: seq<Target>, out: Target -> bool, want: bool): (r: seq<Target>)
  {
    if ts == [] then [] else
      Filtered(ts[..|ts| - 1], out, want) + if out(ts[|ts| - 1]) == want then [ts[|ts| - 1]] else []
  }

  /** The targets that meet `out` leave the list. */
  method Retain(ts: seq<Target>, out: Target -> bool) returns (gone: seq<Target>, left: seq<Target>)
    requires Distinct(ts)
    ensures gone == Filtered(ts, out, true) && left == Filtered(ts, out, false)
    ensures Shared(ts, gone, left)
    ensures forall t :: t in gone ==> out(t)
    ensures forall t :: t in left ==> !out(t)
  {
    hide Shared, Filtered;
    gone, left := [], [];
    var i := 0;
    NoneShared(ts, out);
    while i < |ts|
      invariant 0 <= i <= |ts|
      invariant gone == Filtered(ts[..i], out, true) && left == Filtered(ts[..i], out, false)
      invariant Shared(ts[..i], gone, left)
      invariant forall t :: t in gone ==> out(t)
      invariant forall t :: t in left ==> !out(t)
    {
      SharedMore(ts, i, gone, left);
      FilteredMore(ts, i, out);
      if out(ts[i]) {
        gone := gone + [ts[i]];
      } else {
        left := left + [ts[i]];
      }
      i := i + 1;
    }
    assert ts[..i] == ts;
  }

  lemma NoneShared(ts: seq<Target>, out: Target -> bool)
    ensures Shared(ts[..0], [], []) && Filtered(ts[..0], out, true) == Filtered(ts[..0], out, false) == []
  {
  }

  lemma FilteredMore(ts: seq<Target>, i: nat, out: Target -> bool)
    requires i < |ts|
    ensures forall want: bool :: Filtered(ts[..i + 1], out, want) ==
              Filtered(ts[..i], out, want) + if out(ts[i]) == want then [ts[i]] else []
  {
    assert ts[..i + 1][..i] == ts[..i];
  }

  lemma SharedMore(ts: seq<Target>, i: nat, a: seq<Target>, b: seq<Target>)
    requires i < |ts| && Distinct(ts) && Shared(ts[..i], a, b)
    ensures Shared(ts[..i + 1], a + [ts[i]], b) && Shared(ts[..i + 1], a, b + [ts[i]])
  {
    assert ts[..i + 1] == ts[..i] + [ts[i]];
    forall k | 0 <= k < |a| ensures a[k].name != ts[i].name {
      assert a[k] in ts[..i];
    }
    forall k | 0 <= k < |b| ensures b[k].name != ts[i].name {
      assert b[k] in ts[..i];
    }
  }

  lemma ApartAdds(a: seq<Target>, x: seq<Target>, b: seq<Target>)
    requires Apart(a, b) && Apart(x, b)
    ensures Apart(a + x, b) && Apart(b, a + x)
  {
  }

  lemma ApartSub(a: seq<Target>, b: seq<Target>, c: seq<Target>)
    requires Apart(a, c) && forall t :: t in b ==> t in c
    ensures Apart(a, b) && Apart(b, a)
  {
    forall i, j | 0 <= i < |a| && 0 <= j < |b| ensures a[i].name != b[j].name { assert b[j] in c; }
  }

  lemma DistinctAdds(a: seq<Target>, x: seq<Target>)
    requires Distinct(a) && Distinct(x) && Apart(a, x)
    ensures Distinct(a + x)
  {
  }

  lemma PartedMembers(ts: seq<Target>, a: seq<Target>, b: seq<Target>, c: seq<Target>,
                      x: seq<Target>, rest: seq<Target>, y: seq<Target>, z: seq<Target>)
    requires Parted(ts, a, b, c) && Shared(c, x, rest) && Shared(rest, y, z)
    ensures forall t :: t in ts <==> t in a + x || t in b + y || t in z
    ensures |a + x| + |b + y| + |z| == |ts|
    ensures forall t :: t in x || t in y || t in z ==> t in c
    ensures forall t :: t in y || t in z ==> t in rest
  {
    hide Distinct, Apart;
  }

  /** A pass over the rest moves some of it to the one side and some to the other. */
  lemma PartedAgain(ts: seq<Target>, a: seq<Target>, b: seq<Target>, c: seq<Target>,
                    x: seq<Target>, rest: seq<Target>, y: seq<Target>, z: seq<Target>)
    requires Parted(ts, a, b, c) && Shared(c, x, rest) && Shared(rest, y, z)
    ensures Parted(ts, a + x, b + y, z)
  {
    PartedMembers(ts, a, b, c, x, rest, y, z);
    hide Distinct, Apart;
    ApartSub(a, x, c);
    ApartSub(a, y, c);
    ApartSub(a, z, c);
    ApartSub(b, x, c);
    ApartSub(b, y, c);
    ApartSub(b, z, c);
    ApartSub(x, y, rest);
    ApartSub(x, z, rest);
    DistinctAdds(a, x);
    DistinctAdds(b, y);
    ApartAdds(a, x, z);
    ApartAdds(b, y, z);
    ApartAdds(a, x, y);
    ApartAdds(x, a, b);
    ApartSub(b, a, a);
    ApartAdds(b, y, a + x);
  }

  method TerminateAll(ts: seq<Target>) returns (signals: seq<Signal>)
    ensures signals == Terminations(ts)
  {
    signals := [];
    var i := 0;
    while i < |ts|
      invariant 0 <= i <= |ts| && signals == Terminations(ts[..i])
    {
      assert ts[..i + 1][..i] == ts[..i];
      signals := signals + [Terminate(ts[i].run)];
      i := i + 1;
    }
    assert ts[..i] == ts;
  }

  method KillAll(ts: seq<Target>) returns (signals: seq<Signal>)
    ensures signals == Kills(ts)
  {
    signals := [];
    var i := 0;
    while i < |ts|
      invariant 0 <= i <= |ts| && signals == Kills(ts[..i])
    {
      assert ts[..i + 1][..i] == ts[..i];
      signals := signals + [KillGroup(ts[i].run), Kill(ts[i].run)];
      i := i + 1;
    }
    assert ts[..i] == ts;
  }

  function Terminations(ts: seq<Target>): (r: seq<Signal>)
  {
    if ts == [] then [] else Terminations(ts[..|ts| - 1]) + [Terminate(ts[|ts| - 1].run)]
  }

  function Kills(ts: seq<Target>): (r: seq<Signal>)
  {
    if ts == [] then [] else
      Kills(ts[..|ts| - 1]) + [KillGroup(ts[|ts| - 1].run), Kill(ts[|ts| - 1].run)]
  }

  lemma {:induction false} KillsAdd(a: seq<Target>, b: seq<Target>)
    ensures Kills(a + b) == Kills(a) + Kills(b)
    decreases |b|
  {
    if b == [] {
      assert a + b == a;
    } else {
      KillsAdd(a, b[..|b| - 1]);
      assert (a + b)[..|a + b| - 1] == a + b[..|b| - 1];
    }
  }

  /** Every target is in exactly one of two lists, on the side that its exit or its timeout
      puts it. */
  ghost predicate Settled(ts: seq<Target>, inTime: seq<Target>, late: seq<Target>, p: Passes)
    requires |p.elapsed| == |p.exited|
  {
    && Shared(ts, inTime, late)
    && (forall t :: t in inTime ==> ExitsInTime(t, p, 0))
    && (forall t :: t in late ==> !ExitsInTime(t, p, 0))
  }

  /** The names of `ts`, each once, in order. */
  ghost predicate Lists(names: seq<Name>, ts: seq<Target>)
  {
    Sorted(names) && |names| == |ts| && forall n :: n in names <==> n in Names(ts)
  }

  /** Where a target stands when pass `k` begins. */
  ghost predicate Undecided(pending: seq<Target>, p: Passes, k: nat)
    requires |p.elapsed| == |p.exited| && k <= |p.elapsed|
  {
    forall t :: t in pending ==> ExitsInTime(t, p, 0) == ExitsInTime(t, p, k)
  }

  /** How far stopping has come before pass `k`. */
  ghost predicate Underway(ts: seq<Target>, ended: seq<Target>, overdue: seq<Target>, pending: seq<Target>,
                           p: Passes, k: nat)
    requires |p.elapsed| == |p.exited|
  {
    && k <= |p.elapsed| && (k == |p.elapsed| ==> pending == [])
    && Parted(ts, ended, overdue, pending)
    && Undecided(pending, p, k)
    && (forall t :: t in ended ==> ExitsInTime(t, p, 0))
    && (forall t :: t in overdue ==> !ExitsInTime(t, p, 0))
  }

  /** One pass: what has exited leaves first, then what is past its timeout. */
  method Pass(ghost ts: seq<Target>, ghost ended: seq<Target>, ghost overdue: seq<Target>, pending: seq<Target>,
              p: Passes, k: nat)
    returns (gone: seq<Target>, expired: seq<Target>, left: seq<Target>)
    requires p.Cover(ts) && Underway(ts, ended, overdue, pending, p, k) && pending != []
    ensures Underway(ts, ended + gone, overdue + expired, left, p, k + 1)
  {
    var alive;
    gone, alive := Retain(pending, (t: Target) => t.run in p.exited[k]);
    expired, left := Retain(alive, (t: Target) => t.timeout <= p.elapsed[k]);
    hide Distinct, Apart;
    PassSettles(ts, pending, gone, alive, expired, left, p, k);
    PartedAgain(ts, ended, overdue, pending, gone, alive, expired, left);
  }

  /** Every target was asked to stop, in order, and then exactly the late ones were killed. */
  ghost predicate Signalled(ts: seq<Target>, p: Passes, signals: seq<Signal>)
    requires |p.elapsed| == |p.exited|
  {
    exists inTime, late :: Settled(ts, inTime, late, p) && SignalsAre(ts, late, signals)
  }

  /** Each target gets a request to stop, in order; then each late one a kill of its process group
      and one of itself, and nothing else is sent. */
  ghost predicate SignalsAre(ts: seq<Target>, late: seq<Target>, signals: seq<Signal>)
  {
    && |signals| == |ts| + 2 * |late|
    && (forall i :: 0 <= i < |ts| ==> signals[i] == Terminate(ts[i].run))
    && (forall i :: 0 <= i < |late| ==>
          && signals[|ts| + 2 * i] == KillGroup(late[i].run)
          && signals[|ts| + 2 * i + 1] == Kill(late[i].run))
  }

  lemma {:induction false} TerminationsAre(ts: seq<Target>)
    ensures |Terminations(ts)| == |ts| && forall i :: 0 <= i < |ts| ==> Terminations(ts)[i] == Terminate(ts[i].run)
  {
    if ts != [] {
      TerminationsAre(ts[..|ts| - 1]);
    }
  }

  lemma {:induction false} KillsAre(ts: seq<Target>)
    ensures |Kills(ts)| == 2 * |ts|
    ensures forall i :: 0 <= i < |ts| ==>
              Kills(ts)[2 * i] == KillGroup(ts[i].run) && Kills(ts)[2 * i + 1] == Kill(ts[i].run)
  {
    if ts != [] {
      var n := |ts| - 1;
      KillsAre(ts[..n]);
      assert forall i :: 0 <= i < n ==> ts[..n][i] == ts[i];
    }
  }

  /** The two lists are in order and disjoint, and a target is named by the one or the other as
      it exits in time or not. */
  ghost predicate Told(ts: seq<Target>, p: Passes, stopped: seq<Name>, killed: seq<Name>)
    requires |p.elapsed| == |p.exited|
  {
    && Sorted(stopped) && Sorted(killed) && |stopped| + |killed| == |ts|
    && (forall n :: n in stopped ==> n !in killed)
    && (forall n :: n in stopped + killed ==> n in Names(ts))
    && (forall t :: t in ts ==> (t.name in stopped <==> ExitsInTime(t, p, 0)))
    && (forall t :: t in ts ==> (t.name in killed <==> !ExitsInTime(t, p, 0)))
  }

  /** Asks every target to stop, kills each that has not by its timeout, and names them. */
  method Stop(ts: seq<Target>, p: Passes) returns (stopped: seq<Name>, killed: seq<Name>, signals: seq<Signal>)
    requires Distinct(ts) && p.Cover(ts)
    ensures Told(ts, p, stopped, killed)
    ensures Signalled(ts, p, signals)
  {
    hide Told, Signalled;
    var ended, overdue;
    ended, overdue, signals := Wait(ts, p);
    stopped, killed := Sort(Names(ended)), Sort(Names(overdue));
    SortSorts(Names(ended));
    SortSorts(Names(overdue));
    StoppedOrKilled(ts, ended, overdue, p, stopped, killed);
    assert Signalled(ts, p, signals) by { SignalledSo(ts, ended, overdue, p, signals); }
  }

  lemma SignalledSo(ts: seq<Target>, inTime: seq<Target>, late: seq<Target>, p: Passes, signals: seq<Signal>)
    requires |p.elapsed| == |p.exited| && Settled(ts, inTime, late, p)
    requires signals == Terminations(ts) + Kills(late)
    ensures Signalled(ts, p, signals)
  {
    TerminationsAre(ts);
    KillsAre(late);
    assert SignalsAre(ts, late, signals);
  }

  /** Signals the targets and waits for them, pass by pass. */
  method Wait(ts: seq<Target>, p: Passes)
    returns (ended: seq<Target>, overdue: seq<Target>, signals: seq<Signal>)
    requires Distinct(ts) && p.Cover(ts)
    ensures Settled(ts, ended, overdue, p) && signals == Terminations(ts) + Kills(overdue)
  {
    signals := TerminateAll(ts);
    var pending := ts;
    ended, overdue := [], [];
    assert Terminations(ts) + Kills([]) == signals;
    assert Underway(ts, ended, overdue, pending, p, 0);
    hide Terminations, Kills, Underway;
    var k := 0;
    while pending != []
      invariant Underway(ts, ended, overdue, pending, p, k) && k <= |p.elapsed|
      invariant signals == Terminations(ts) + Kills(overdue)
      decreases |p.elapsed| - k
    {
      BeforeTheEnd(ts, ended, overdue, pending, p, k);
      var gone, expired, left := Pass(ts, ended, overdue, pending, p, k);
      var kills := KillAll(expired);
      KillsAdd(overdue, expired);
      assert signals + kills == Terminations(ts) + (Kills(overdue) + kills);
      signals := signals + kills;
      ended, overdue, pending := ended + gone, overdue + expired, left;
      k := k + 1;
    }
    SettledAtTheEnd(ts, ended, overdue, p, k);
  }

  lemma BeforeTheEnd(ts: seq<Target>, ended: seq<Target>, overdue: seq<Target>, pending: seq<Target>, p: Passes, k: nat)
    requires p.Cover(ts) && Underway(ts, ended, overdue, pending, p, k) && pending != []
    ensures k < |p.elapsed|
  {
  }

  lemma SettledAtTheEnd(ts: seq<Target>, ended: seq<Target>, overdue: seq<Target>, p: Passes, k: nat)
    requires p.Cover(ts) && Underway(ts, ended, overdue, [], p, k)
    ensures Settled(ts, ended, overdue, p)
  {
  }

  /** What a pass takes out it takes out rightly, and the last pass leaves nothing. */
  lemma PassSettles(ts: seq<Target>, pending: seq<Target>, gone: seq<Target>, alive: seq<Target>,
                    expired: seq<Target>, left: seq<Target>, p: Passes, k: nat)
    requires p.Cover(ts) && k < |p.elapsed| && Undecided(pending, p, k)
    requires forall t :: t in pending ==> t in ts
    requires Shared(pending, gone, alive) && Shared(alive, expired, left)
    requires forall t :: t in gone ==> t.run in p.exited[k]
    requires forall t :: t in alive ==> t.run !in p.exited[k]
    requires forall t :: t in expired ==> t.timeout <= p.elapsed[k]
    requires forall t :: t in left ==> !(t.timeout <= p.elapsed[k])
    ensures forall t :: t in gone ==> ExitsInTime(t, p, 0)
    ensures forall t :: t in expired ==> !ExitsInTime(t, p, 0)
    ensures Undecided(left, p, k + 1)
    ensures k + 1 == |p.elapsed| ==> left == []
  {
    forall t | t in left ensures t in alive && t in pending && t in ts {
    }
    assert left != [] ==> left[0] in left;
  }

  lemma NamedAmong(some: seq<Target>, all: seq<Target>, n: Name)
    requires forall t :: t in some ==> t in all
    ensures n in Names(some) ==> n in Names(all)
  {
    if n in Names(some) {
      var i :| 0 <= i < |some| && Names(some)[i] == n;
      assert some[i] in all;
      var j :| 0 <= j < |all| && all[j] == some[i];
      assert Names(all)[j] == n;
    }
  }

  /** The two lists of names are disjoint, and together they name every target. */
  lemma StoppedOrKilled(ts: seq<Target>, inTime: seq<Target>, late: seq<Target>, p: Passes,
                        stopped: seq<Name>, killed: seq<Name>)
    requires |p.elapsed| == |p.exited| && Distinct(ts) && Settled(ts, inTime, late, p)
    requires Lists(stopped, inTime) && Lists(killed, late)
    ensures Told(ts, p, stopped, killed)
  {
    forall n | n in stopped + killed ensures n in Names(ts) {
      assert n in Names(inTime) || n in Names(late);
      NamedAmong(inTime, ts, n);
      NamedAmong(late, ts, n);
    }
    forall n | n in stopped ensures n !in killed {
      var i :| 0 <= i < |inTime| && Names(inTime)[i] == n;
      assert inTime[i] in inTime;
      forall j | 0 <= j < |late| ensures Names(late)[j] != n {
        assert late[j] in late;
      }
    }
    forall t | t in ts ensures t.name in stopped <==> ExitsInTime(t, p, 0) {
      if t in inTime { var i :| 0 <= i < |inTime| && inTime[i] == t; assert Names(inTime)[i] == t.name; }
      if t in late { var i :| 0 <= i < |late| && late[i] == t; assert Names(late)[i] == t.name; }
    }
    forall t | t in ts ensures t.name in killed <==> !ExitsInTime(t, p, 0) {
      if t in late { var i :| 0 <= i < |late| && late[i] == t; assert Names(late)[i] == t.name; }
      if t in inTime { var i :| 0 <= i < |inTime| && inTime[i] == t; assert Names(inTime)[i] == t.name; }
    }
  }
}
