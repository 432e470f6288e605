/** Every child the guest starts, against the kernel's process table. A child is registered
    in the critical section that starts it and unregistered in the one that reaps it, so a
    pid used again never takes over an earlier child's registration. */
module Children {
  import opened Common

  type Pid = nat
  type Serial = nat
  type Status = int
  /** A process itself: never used again, unlike its pid. */
  type Proc = nat
  /** A callback that can be called once, told apart from every other. */
  type OnExit = nat

  /** A process not yet reaped. `ours` when PID 1 is its parent, so that it can wait for it. */
  datatype Process = Process(who: Proc, ours: bool, exit: Option<Status>)

  datatype Entry = Entry(serial: Serial, onExit: OnExit)
  datatype Watch = Watch(pid: Pid, serial: Serial)
  datatype Call = Call(onExit: OnExit, status: Status)

  // ---------------------------------------------------------------------
  // The registry, one critical section at a time
  // ---------------------------------------------------------------------

  predicate Exited(table: map<Pid, Process>, pid: Pid)
  {
    pid in table && table[pid].ours && table[pid].exit.Some?
  }

  ghost predicate NoneExited(table: map<Pid, Process>)
  {
    forall pid :: !Exited(table, pid)
  }

  /** The kernel's process table, as `waitpid` with WNOHANG sees it. */
  class Kernel {
    var table: map<Pid, Process>

    constructor (table: map<Pid, Process>)
      ensures this.table == table
    {
      this.table := table;
    }

    method WaitPid(pid: Pid) returns (status: Option<Status>)
      modifies this
      ensures status.Some? <==> Exited(old(table), pid)
      ensures status.Some? ==> status == old(table)[pid].exit && table == old(table) - {pid}
      ensures status.None? ==> table == old(table)
    {
      if Exited(table, pid) {
        status := table[pid].exit;
        table := table - {pid};
      } else {
        status := None;
      }
    }

    /** Any exited child, in an order of the kernel's own. */
    method WaitAny() returns (reaped: Option<(Pid, Status)>)
      modifies this
      ensures reaped.None? ==> table == old(table) && NoneExited(table)
      ensures reaped.Some? ==>
                && Exited(old(table), reaped.value.0)
                && old(table)[reaped.value.0].exit == Some(reaped.value.1)
                && table == old(table) - {reaped.value.0}
    {
      if pid :| pid in table && Exited(table, pid) {
        reaped := Some((pid, table[pid].exit.value));
        table := table - {pid};
      } else {
        assert forall pid :: Exited(table, pid) ==> pid in table;
        reaped := None;
      }
    }
  }

  /** What a pass that reaps `pids` leaves registered, and the calls it owes. */
  function StillWatched(children: map<Pid, Entry>, pids: set<Pid>): (r: map<Pid, Entry>)
  {
    children - pids
  }

  /** `c` calls back for the exit of the registered process at `pid`. */
  ghost predicate OwedFor(c: Call, children: map<Pid, Entry>, table: map<Pid, Process>, pids: set<Pid>, pid: Pid)
  {
    pid in pids && pid in children && Exited(table, pid) && c == Call(children[pid].onExit, table[pid].exit.value)
  }

  ghost predicate IsOwed(c: Call, children: map<Pid, Entry>, table: map<Pid, Process>, pids: set<Pid>)
  {
    exists pid :: OwedFor(c, children, table, pids, pid)
  }

  ghost predicate Owed(done: seq<Call>, children: map<Pid, Entry>, table: map<Pid, Process>, pids: set<Pid>)
  {
    && (forall pid :: pid in pids ==> Exited(table, pid))
    && |done| == |pids * children.Keys|
    && (forall c :: c in done ==> IsOwed(c, children, table, pids))
    && forall pid :: pid in pids && pid in children ==>
         Exited(table, pid) && Call(children[pid].onExit, table[pid].exit.value) in done
  }

  lemma FewerLeft(table: map<Pid, Process>, pid: Pid)
    requires Exited(table, pid)
    ensures |table - {pid}| < |table|
  {
    assert (table - {pid}).Keys == table.Keys - {pid};
  }

  lemma ExitedBefore(table: map<Pid, Process>, reaped: set<Pid>, pid: Pid)
    requires Exited(table - reaped, pid)
    ensures pid in table && pid !in reaped && Exited(table, pid) && (table - reaped)[pid] == table[pid]
    ensures table - reaped - {pid} == table - (reaped + {pid})
  {
  }

  ghost predicate AllExited(table: map<Pid, Process>, pids: set<Pid>)
  {
    forall pid :: pid in pids ==> Exited(table, pid)
  }

  lemma NoneYet(table: map<Pid, Process>)
    ensures AllExited(table, {})
  {
  }

  /** What `WaitAny` answered, with the processes in `reaped` dealt with before. */
  ghost predicate Got(table: map<Pid, Process>, reaped: set<Pid>, left: map<Pid, Process>,
                      got: Option<(Pid, Status)>)
  {
    && AllExited(table, reaped)
    && match got
       case None => NoneExited(left) && left == table - reaped
       case Some((pid, status)) =>
         pid !in reaped && Exited(table, pid) && table[pid].exit == Some(status) && left == table - (reaped + {pid})
  }

  lemma GotNext(table: map<Pid, Process>, reaped: set<Pid>, before: map<Pid, Process>, left: map<Pid, Process>,
                got: Option<(Pid, Status)>)
    requires before == table - reaped && AllExited(table, reaped)
    requires got.None? ==> left == before && NoneExited(left)
    requires got.Some? ==>
               && Exited(before, got.value.0) && before[got.value.0].exit == Some(got.value.1)
               && left == before - {got.value.0}
    ensures Got(table, reaped, left, got) && (got.Some? ==> |left| < |before|)
  {
    if got.Some? {
      FewerLeft(before, got.value.0);
      ExitedBefore(table, reaped, got.value.0);
    }
  }

  lemma GotOne(table: map<Pid, Process>, reaped: set<Pid>, left: map<Pid, Process>, pid: Pid, status: Status)
    requires Got(table, reaped, left, Some((pid, status)))
    ensures pid !in reaped && Exited(table, pid) && pid in table && table[pid].exit == Some(status)
    ensures left == table - (reaped + {pid}) && AllExited(table, reaped + {pid})
  {
  }

  lemma GotAll(table: map<Pid, Process>, reaped: set<Pid>, left: map<Pid, Process>)
    requires Got(table, reaped, left, None)
    ensures NoneExited(left) && left == table - reaped && forall pid :: pid in reaped <==> Exited(table, pid)
  {
    ReapedAreExited(table, reaped);
  }

  lemma ReapedAreExited(table: map<Pid, Process>, reaped: set<Pid>)
    requires NoneExited(table - reaped) && forall pid :: pid in reaped ==> Exited(table, pid)
    ensures forall pid :: pid in reaped <==> Exited(table, pid)
  {
    forall pid | Exited(table, pid) ensures pid in reaped {
      assert !Exited(table - reaped, pid);
    }
  }

  lemma OneFewerWatched(children: map<Pid, Entry>, pids: set<Pid>, pid: Pid)
    ensures StillWatched(children, {}) == children
    ensures pid in StillWatched(children, pids) <==> pid in children && pid !in pids
    ensures pid in StillWatched(children, pids) ==> StillWatched(children, pids)[pid] == children[pid]
    ensures StillWatched(children, pids) - {pid} == StillWatched(children, pids + {pid})
    ensures pid !in StillWatched(children, pids) ==>
              StillWatched(children, pids) == StillWatched(children, pids + {pid})
  {
  }

  lemma NothingOwed(children: map<Pid, Entry>, table: map<Pid, Process>)
    ensures Owed([], children, table, {})
  {
    assert {} * children.Keys == {};
  }

  /** Reaping a registered process owes its callback. */
  lemma OneMoreOwed(done: seq<Call>, children: map<Pid, Entry>, table: map<Pid, Process>, pids: set<Pid>, pid: Pid)
    requires Owed(done, children, table, pids) && pid !in pids && Exited(table, pid) && pid in children
    ensures Owed(done + [Call(children[pid].onExit, table[pid].exit.value)], children, table, pids + {pid})
  {
    hide Exited, IsOwed;
    var more := pids + {pid};
    forall c | c in done ensures IsOwed(c, children, table, more) {
      StillOwed(c, children, table, pids, pid);
    }
    OwedNow(children, table, more, pid);
    assert more * children.Keys == pids * children.Keys + {pid};
  }

  lemma OrphanOwesNothing(done: seq<Call>, children: map<Pid, Entry>, table: map<Pid, Process>,
                          pids: set<Pid>, pid: Pid)
    requires Owed(done, children, table, pids) && Exited(table, pid) && pid !in children
    ensures Owed(done, children, table, pids + {pid})
  {
    hide IsOwed;
    var more := pids + {pid};
    forall c | c in done ensures IsOwed(c, children, table, more) {
      StillOwed(c, children, table, pids, pid);
    }
    forall p | p in more && p in children
      ensures p in pids && Exited(table, p) && Call(children[p].onExit, table[p].exit.value) in done
    {
    }
    SameWatched(pids, children.Keys, pid);
  }

  lemma SameWatched(pids: set<Pid>, keys: set<Pid>, pid: Pid)
    requires pid !in keys
    ensures (pids + {pid}) * keys == pids * keys
  {
  }

  lemma StillOwed(c: Call, children: map<Pid, Entry>, table: map<Pid, Process>, pids: set<Pid>, pid: Pid)
    requires IsOwed(c, children, table, pids)
    ensures IsOwed(c, children, table, pids + {pid})
  {
    var p :| OwedFor(c, children, table, pids, p);
    assert OwedFor(c, children, table, pids + {pid}, p);
  }

  lemma OwedNow(children: map<Pid, Entry>, table: map<Pid, Process>, pids: set<Pid>, pid: Pid)
    requires pid in pids && pid in children && Exited(table, pid)
    ensures IsOwed(Call(children[pid].onExit, table[pid].exit.value), children, table, pids)
  {
    assert OwedFor(Call(children[pid].onExit, table[pid].exit.value), children, table, pids, pid);
  }

  /** The registry. A ghost `w` is the world its lock is taken in: what a critical section does
      is what the steps of the lock holder do to it. */
  class Watched {
    var serial: Serial
    var children: map<Pid, Entry>

    constructor ()
      ensures serial == Boot.serial && children == Boot.children
    {
      serial, children := 0, map[];
    }

    method Insert(ghost w: World, pid: Pid, onExit: OnExit) returns (watch: Watch)
      requires w.serial == serial && w.children == children
      requires w.lock.Started? && w.lock.pid == pid && w.lock.onExit == onExit
      modifies this
      ensures var v := Apply(w, Step.Insert); v.serial == serial && v.children == children
      ensures serial == old(serial) + 1
      ensures children == old(children)[pid := Entry(serial, onExit)]
      ensures watch == Watch(pid, serial)
    {
      serial := serial + 1;
      children := children[pid := Entry(serial, onExit)];
      watch := Watch(pid, serial);
    }

    /** Whether a signal for `watch` is sent at all: only while its registration stands. */
    method MaySignal(ghost w: World, watch: Watch) returns (send: bool)
      requires w.children == children && w.lock.Free?
      ensures Apply(w, LockSignal(watch)) == w.(lock := Signalling(watch, send))
      ensures send <==> watch.pid in children && children[watch.pid].serial == watch.serial
    {
      send := watch.pid in children && children[watch.pid].serial == watch.serial;
    }

    /** Unregisters what was reaped; a registered process adds the call it is owed. */
    method Remove(pid: Pid, status: Status, done: seq<Call>) returns (more: seq<Call>)
      modifies this`children
      ensures children == old(children) - {pid} && more == DoneAfter(old(children), done, pid, status)
    {
      more := done;
      if pid in children {
        more := done + [Call(children[pid].onExit, status)];
        children := children - {pid};
      }
    }

    /** Reaps the registered children that have exited, and no other process. */
    method ReapWatched(ghost w: World, kernel: Kernel)
      returns (done: seq<Call>, ghost reaped: set<Pid>, ghost steps: seq<Step>, ghost v: World)
      requires w.serial == serial && w.children == children && w.table == kernel.table && w.lock.Free?
      modifies this`children, kernel
      ensures v.serial == serial && v.children == children && v.table == kernel.table
      ensures ReapedBy(w, steps, v, done)
      ensures reaped == (set pid | pid in old(children) && Exited(old(kernel.table), pid))
      ensures kernel.table == old(kernel.table) - reaped
      ensures children == StillWatched(old(children), reaped)
      ensures Owed(done, old(children), old(kernel.table), reaped)
    {
      hide Passing, ReapedBy, Owed, StillWatched, DoneAfter;
      ghost var was, table := children, kernel.table;
      var rest := children.Keys;
      done, reaped := [], {};
      steps, v := StartPass(w);
      while rest != {}
        invariant rest <= was.Keys && serial == w.serial
        invariant forall pid :: pid in reaped <==> pid in was && pid !in rest && Exited(table, pid)
        invariant kernel.table == table - reaped
        invariant Passing(w, steps, v, was, table, reaped, children, done)
        decreases rest
      {
        var pid :| pid in rest;
        rest := rest - {pid};
        var status := kernel.WaitPid(pid);
        if status.Some? {
          ExitedBefore(table, reaped, pid);
          steps, v := PassOneMore(w, steps, v, was, table, reaped, children, done, pid);
          done := Remove(pid, status.value, done);
          reaped := reaped + {pid};
        }
      }
      steps, v := EndPass(w, steps, v, was, table, reaped, children, done);
    }

    /** Deals with one that was reaped, and asks for the next. */
    method RemoveAndWait(ghost w: World, kernel: Kernel, ghost before: seq<Step>, ghost u: World,
                         ghost was: map<Pid, Entry>, ghost table: map<Pid, Process>, ghost reaped: set<Pid>,
                         pid: Pid, status: Status, done: seq<Call>)
      returns (next: Option<(Pid, Status)>, more: seq<Call>, ghost steps: seq<Step>, ghost v: World)
      requires Passing(w, before, u, was, table, reaped, children, done)
      requires Got(table, reaped, kernel.table, Some((pid, status)))
      modifies this`children, kernel
      ensures Passing(w, steps, v, was, table, reaped + {pid}, children, more)
      ensures Got(table, reaped + {pid}, kernel.table, next)
      ensures if next.Some? then |kernel.table| < |old(kernel.table)| else kernel.table == old(kernel.table)
    {
      hide *;
      GotOne(table, reaped, kernel.table, pid, status);
      steps, v := PassOneMore(w, before, u, was, table, reaped, children, done, pid);
      more := Remove(pid, status, done);
      ghost var left := kernel.table;
      next := kernel.WaitAny();
      GotNext(table, reaped + {pid}, left, kernel.table, next);
    }

    /** Reaps every exited child, the registered ones and the orphans PID 1 adopted. */
    method ReapAll(ghost w: World, kernel: Kernel)
      returns (done: seq<Call>, ghost reaped: set<Pid>, ghost steps: seq<Step>, ghost v: World)
      requires w.serial == serial && w.children == children && w.table == kernel.table && w.lock.Free?
      modifies this`children, kernel
      ensures v.serial == serial && v.children == children && v.table == kernel.table
      ensures ReapedBy(w, steps, v, done)
      ensures NoneExited(kernel.table)
      ensures forall pid :: pid in reaped <==> Exited(old(kernel.table), pid)
      ensures kernel.table == old(kernel.table) - reaped
      ensures children == StillWatched(old(children), reaped)
      ensures Owed(done, old(children), old(kernel.table), reaped)
    {
      hide *;
      ghost var was, table := children, kernel.table;
      done, reaped := [], {};
      steps, v := StartPass(w);
      var got := kernel.WaitAny();
      NoneYet(table);
      GotNext(table, {}, table, kernel.table, got);
      while got.Some?
        invariant serial == w.serial && Got(table, reaped, kernel.table, got)
        invariant Passing(w, steps, v, was, table, reaped, children, done)
        decreases |kernel.table|, got.Some?
      {
        ghost var pid := got.value.0;
        got, done, steps, v := RemoveAndWait(w, kernel, steps, v, was, table, reaped, got.value.0, got.value.1, done);
        reaped := reaped + {pid};
      }
      GotAll(table, reaped, kernel.table);
      steps, v := EndPass(w, steps, v, was, table, reaped, children, done);
    }
  }

  // ---------------------------------------------------------------------
  // Interleavings: the lock holder moves in small steps, the kernel at any time
  // ---------------------------------------------------------------------

  datatype Holder =
    | Free
    | Starting(onExit: OnExit)
    | Started(onExit: OnExit, pid: Pid, who: Proc)
    | Reaping(done: seq<Call>)
    /** `waitpid` has reaped `pid`, its registration not yet removed. */
    | Reaped(done: seq<Call>, pid: Pid, status: Status)
    | Signalling(watch: Watch, send: bool)

  datatype Registration = Registration(who: Proc, onExit: OnExit)

  datatype World = World(
    table: map<Pid, Process>,
    serial: Serial,
    children: map<Pid, Entry>,
    lock: Holder,
    owed: seq<Call>,
    called: seq<Call>,
    // History: processes made, how each exited, what each registration is for, the
    // callbacks given, and which process each signal reached.
    made: nat,
    exits: map<Proc, Status>,
    registered: map<Serial, Registration>,
    given: set<OnExit>,
    signals: seq<(Watch, Proc)>)

  datatype Step =
    // The kernel and the guest's other processes
    | ForeignFork(pid: Pid)
    | Adopt(pid: Pid)
    | Exit(pid: Pid, status: Status)
    | ForeignReap(pid: Pid)
    // start, spawn_with and spawn
    | LockStart(onExit: OnExit)
    | StartFails
    | Fork(pid: Pid)
    | NoPidfd
    | Insert
    // reap_watched and reap_all
    | LockReap
    | Wait(pid: Pid)
    | Remove
    | UnlockReap
    | Fire(i: nat)
    // signal
    | LockSignal(watch: Watch)
    | Kill

  const Boot: World :=
    World(map[], 0, map[], Free, [], [], 0, map[], map[], {}, [])

  ghost predicate Enabled(w: World, step: Step)
  {
    match step
    case ForeignFork(pid) => pid !in w.table
    case Adopt(pid) => pid in w.table && !w.table[pid].ours
    case Exit(pid, _) => pid in w.table && w.table[pid].exit.None?
    case ForeignReap(pid) => pid in w.table && !w.table[pid].ours && w.table[pid].exit.Some?
    // A boxed callback is moved into the call, so it is never given twice.
    case LockStart(onExit) => w.lock.Free? && onExit !in w.given
    case StartFails => w.lock.Starting?
    // The kernel gives out a pid no unreaped process holds.
    case Fork(pid) => w.lock.Starting? && pid !in w.table
    // Without a pidfd the child is killed and waited for, under the same lock.
    case NoPidfd => w.lock.Started? && Exited(w.table, w.lock.pid)
    case Insert => w.lock.Started?
    case LockReap => w.lock.Free?
    case Wait(pid) => w.lock.Reaping? && Exited(w.table, pid)
    case Remove => w.lock.Reaped?
    case UnlockReap => w.lock.Reaping?
    case Fire(i) => i < |w.owed|
    case LockSignal(_) => w.lock.Free?
    case Kill => w.lock.Signalling?
  }

  ghost function Apply(w: World, step: Step): (r: World)
    requires Enabled(w, step)
  {
    match step
    case ForeignFork(pid) =>
      w.(table := w.table[pid := Process(w.made, false, None)], made := w.made + 1)
    case Adopt(pid) =>
      w.(table := w.table[pid := w.table[pid].(ours := true)])
    case Exit(pid, status) =>
      w.(table := w.table[pid := w.table[pid].(exit := Some(status))],
         exits := w.exits[w.table[pid].who := status])
    case ForeignReap(pid) =>
      w.(table := w.table - {pid})
    case LockStart(onExit) =>
      w.(lock := Starting(onExit), given := w.given + {onExit})
    case StartFails =>
      w.(lock := Free)
    case Fork(pid) =>
      w.(table := w.table[pid := Process(w.made, true, None)], made := w.made + 1,
         lock := Started(w.lock.onExit, pid, w.made))
    case NoPidfd =>
      w.(table := w.table - {w.lock.pid}, lock := Free)
    case Insert =>
      var serial := w.serial + 1;
      w.(serial := serial, children := w.children[w.lock.pid := Entry(serial, w.lock.onExit)],
         registered := w.registered[serial := Registration(w.lock.who, w.lock.onExit)],
         lock := Free)
    case LockReap =>
      w.(lock := Reaping([]))
    case Wait(pid) =>
      w.(table := w.table - {pid}, lock := Reaped(w.lock.done, pid, w.table[pid].exit.value))
    case Remove =>
      var pid := w.lock.pid;
      if pid in w.children then
        w.(children := w.children - {pid},
           lock := Reaping(w.lock.done + [Call(w.children[pid].onExit, w.lock.status)]))
      else
        w.(lock := Reaping(w.lock.done))
    case UnlockReap =>
      w.(lock := Free, owed := w.owed + w.lock.done)
    case Fire(i) =>
      w.(owed := w.owed[..i] + w.owed[i + 1..], called := w.called + [w.owed[i]])
    case LockSignal(watch) =>
      w.(lock := Signalling(watch,
           watch.pid in w.children && w.children[watch.pid].serial == watch.serial))
    case Kill =>
      // A process that has exited keeps its pid until it is reaped; a signal to a pid
      // nothing holds reaches nothing.
      if w.lock.send && w.lock.watch.pid in w.table then
        w.(lock := Free, signals := w.signals + [(w.lock.watch, w.table[w.lock.watch.pid].who)])
      else
        w.(lock := Free)
  }

  ghost predicate Run(states: seq<World>, steps: seq<Step>)
  {
    && |states| == |steps| + 1
    && states[0] == Boot
    && forall k :: 0 <= k < |steps| ==>
         Enabled(states[k], steps[k]) && states[k + 1] == Apply(states[k], steps[k])
  }

  /** Where these steps lead, when each is enabled in its turn. */
  ghost function After(w: World, steps: seq<Step>): (v: Option<World>)
  {
    if steps == [] then Some(w) else
      match After(w, steps[..|steps| - 1])
      case None => None
      case Some(u) => if Enabled(u, steps[|steps| - 1]) then Some(Apply(u, steps[|steps| - 1])) else None
  }

  lemma AfterOneMore(w: World, steps: seq<Step>, step: Step)
    ensures After(w, steps).Some? && Enabled(After(w, steps).value, step) ==>
              After(w, steps + [step]) == Some(Apply(After(w, steps).value, step))
  {
    assert (steps + [step])[..|steps|] == steps;
  }

  /** Steps of reaping alone, which the lock holder takes between taking and leaving the lock,
      lead to `v`, where the calls in `done` are owed as well. */
  ghost predicate ReapedBy(w: World, steps: seq<Step>, v: World, done: seq<Call>)
  {
    && |steps| >= 2 && steps[0] == LockReap && steps[|steps| - 1] == UnlockReap
    && (forall i :: 0 < i < |steps| - 1 ==> steps[i].Wait? || steps[i].Remove?)
    && After(w, steps) == Some(v) && v.lock.Free? && v.owed == w.owed + done
  }

  ghost predicate Holding(w: World, steps: seq<Step>, u: World, table: map<Pid, Process>,
                          children: map<Pid, Entry>, done: seq<Call>)
  {
    && |steps| >= 1 && steps[0] == LockReap
    && (forall i :: 0 < i < |steps| ==> steps[i].Wait? || steps[i].Remove?)
    && After(w, steps) == Some(u) && u.lock == Reaping(done) && u.owed == w.owed && u.serial == w.serial
    && u.table == table && u.children == children
  }

  lemma StartHolding(w: World) returns (steps: seq<Step>, u: World)
    requires w.lock.Free?
    ensures Holding(w, steps, u, w.table, w.children, [])
  {
    assert After(w, []) == Some(w);
    AfterOneMore(w, [], LockReap);
    assert [] + [LockReap] == [LockReap];
    steps, u := [LockReap], Apply(w, LockReap);
  }

  /** What `Wait` and `Remove` make of the calls to come. */
  ghost function DoneAfter(children: map<Pid, Entry>, done: seq<Call>, pid: Pid, status: Status): (r: seq<Call>)
  {
    if pid in children then done + [Call(children[pid].onExit, status)] else done
  }

  lemma HoldOneMore(w: World, before: seq<Step>, t: World, table: map<Pid, Process>,
                    children: map<Pid, Entry>, done: seq<Call>, pid: Pid)
    returns (steps: seq<Step>, u: World)
    requires Holding(w, before, t, table, children, done) && Exited(table, pid)
    ensures Holding(w, steps, u, table - {pid}, children - {pid},
                    DoneAfter(children, done, pid, table[pid].exit.value))
  {
    hide After;
    AfterOneMore(w, before, Wait(pid));
    AfterOneMore(w, before + [Wait(pid)], Remove);
    steps := before + [Wait(pid)] + [Remove];
    u := Apply(Apply(t, Wait(pid)), Remove);
    assert pid !in children ==> children - {pid} == children;
  }

  lemma EndHolding(w: World, before: seq<Step>, t: World, table: map<Pid, Process>,
                   children: map<Pid, Entry>, done: seq<Call>)
    returns (steps: seq<Step>, v: World)
    requires Holding(w, before, t, table, children, done)
    ensures ReapedBy(w, steps, v, done) && v.table == table && v.children == children && v.serial == w.serial
  {
    hide After;
    AfterOneMore(w, before, UnlockReap);
    steps, v := before + [UnlockReap], Apply(t, UnlockReap);
  }

  /** A pass that has reaped `reaped` of the processes in `table`: the calls it owes, what is
      still registered, and the steps it has taken. */
  ghost predicate Passing(w: World, steps: seq<Step>, u: World, was: map<Pid, Entry>, table: map<Pid, Process>,
                          reaped: set<Pid>, children: map<Pid, Entry>, done: seq<Call>)
  {
    && Owed(done, was, table, reaped) && children == StillWatched(was, reaped)
    && Holding(w, steps, u, table - reaped, children, done)
  }

  lemma StartPass(w: World) returns (steps: seq<Step>, u: World)
    requires w.lock.Free?
    ensures Passing(w, steps, u, w.children, w.table, {}, w.children, []) && w.table - {} == w.table
  {
    hide Owed, StillWatched, Holding;
    NothingOwed(w.children, w.table);
    OneFewerWatched(w.children, {}, 0);
    steps, u := StartHolding(w);
    assert w.table - {} == w.table;
  }

  /** Reaping one more process: a registered one owes its call, an orphan nothing. */
  lemma PassOneMore(w: World, before: seq<Step>, t: World, was: map<Pid, Entry>, table: map<Pid, Process>,
                    reaped: set<Pid>, children: map<Pid, Entry>, done: seq<Call>, pid: Pid)
    returns (steps: seq<Step>, u: World)
    requires Passing(w, before, t, was, table, reaped, children, done) && Exited(table, pid) && pid !in reaped
    ensures Passing(w, steps, u, was, table, reaped + {pid}, children - {pid},
                    DoneAfter(children, done, pid, table[pid].exit.value))
  {
    hide Owed, StillWatched, Holding;
    OneFewerWatched(was, reaped, pid);
    steps, u := HoldOneMore(w, before, t, table - reaped, children, done, pid);
    assert table - reaped - {pid} == table - (reaped + {pid});
    if pid in children {
      OneMoreOwed(done, was, table, reaped, pid);
    } else {
      OrphanOwesNothing(done, was, table, reaped, pid);
      assert children - {pid} == children;
    }
  }

  lemma EndPass(w: World, before: seq<Step>, t: World, was: map<Pid, Entry>, table: map<Pid, Process>,
                reaped: set<Pid>, children: map<Pid, Entry>, done: seq<Call>)
    returns (steps: seq<Step>, v: World)
    requires Passing(w, before, t, was, table, reaped, children, done)
    ensures ReapedBy(w, steps, v, done) && v.table == table - reaped
    ensures v.children == children == StillWatched(was, reaped) && v.serial == w.serial
    ensures Owed(done, was, table, reaped)
  {
    hide Owed, StillWatched, Holding, ReapedBy;
    steps, v := EndHolding(w, before, t, table - reaped, children, done);
  }

  // ---------------------------------------------------------------------
  // What every step keeps
  // ---------------------------------------------------------------------

  /** Processes are told apart, and the history of exits agrees with the table. */
  ghost predicate KernelInv(table: map<Pid, Process>, made: nat, exits: map<Proc, Status>)
  {
    && (forall p :: p in table ==> table[p].who < made)
    && (forall p, q :: p in table && q in table && p != q ==> table[p].who != table[q].who)
    && (forall p :: p in table ==>
          match table[p].exit
          case None => table[p].who !in exits
          case Some(s) => table[p].who in exits && exits[table[p].who] == s)
    && (forall who :: who in exits ==> who < made)
  }

  ghost predicate Gone(table: map<Pid, Process>, who: Proc)
  {
    forall p :: p in table ==> table[p].who != who
  }

  /** Serials are given out in order, and no callback is registered twice. */
  ghost predicate SerialsInv(serial: Serial, registered: map<Serial, Registration>, made: nat, given: set<OnExit>)
  {
    && (forall s :: s in registered <==> 1 <= s <= serial)
    && (forall s :: s in registered ==> registered[s].who < made && registered[s].onExit in given)
    && (forall s, u :: s in registered && u in registered && s != u ==> registered[s].onExit != registered[u].onExit)
  }

  /** Entry `e` at `pid` is for the unreaped process it was made for. */
  ghost predicate Names(e: Entry, pid: Pid, registered: map<Serial, Registration>, table: map<Pid, Process>)
  {
    && e.serial in registered && registered[e.serial].onExit == e.onExit
    && pid in table && table[pid].ours && table[pid].who == registered[e.serial].who
  }

  /** A process that is reaped and had exited with `status`. */
  ghost predicate Buried(who: Proc, status: Status, table: map<Pid, Process>, exits: map<Proc, Status>)
  {
    Gone(table, who) && who in exits && exits[who] == status
  }

  /** Entry `e` is for the process just reaped, whose status the lock holder carries. */
  ghost predicate NamedReaped(e: Entry, status: Status, w: World)
  {
    && e.serial in w.registered && w.registered[e.serial].onExit == e.onExit
    && Buried(w.registered[e.serial].who, status, w.table, w.exits)
  }

  /** Where the entry at `p` belongs. */
  ghost predicate EntryInv(w: World, p: Pid)
    requires p in w.children
  {
    if w.lock.Reaped? && w.lock.pid == p then NamedReaped(w.children[p], w.lock.status, w)
    else Names(w.children[p], p, w.registered, w.table)
  }

  ghost predicate EntriesInv(w: World)
  {
    && (forall p, q :: p in w.children && q in w.children && p != q ==> w.children[p].serial != w.children[q].serial)
    && (forall p :: p in w.children ==> EntryInv(w, p))
  }

  ghost predicate Unregistered(f: OnExit, w: World)
  {
    f in w.given && forall s :: s in w.registered ==> w.registered[s].onExit != f
  }

  ghost predicate LockInv(w: World)
  {
    match w.lock
    case Starting(f) => Unregistered(f, w)
    case Started(f, pid, who) =>
      && Unregistered(f, w)
      && pid !in w.children
      && pid in w.table && w.table[pid].ours && w.table[pid].who == who
    case Signalling(watch, send) =>
      send <==> watch.pid in w.children && w.children[watch.pid].serial == watch.serial
    case _ => true
  }

  /** The calls owed or made so far. */
  ghost function Calls(w: World): (cs: seq<Call>)
  {
    w.called + w.owed + if w.lock.Reaping? || w.lock.Reaped? then w.lock.done else []
  }

  /** Some entry stands for registration `s`. */
  ghost predicate Standing(children: map<Pid, Entry>, s: Serial)
  {
    exists p :: p in children && children[p].serial == s
  }

  ghost function CallsFor(cs: seq<Call>, f: OnExit): (n: nat)
  {
    if cs == [] then 0 else
      CallsFor(cs[..|cs| - 1], f) + if cs[|cs| - 1].onExit == f then 1 else 0
  }

  /** A call is for a registration no longer held, of a process reaped with that status. */
  ghost predicate Rightful(w: World, c: Call)
  {
    exists s :: RightfulFor(w, c, s)
  }

  ghost predicate RightfulFor(w: World, c: Call, s: Serial)
  {
    && s in w.registered && w.registered[s].onExit == c.onExit
    && !Standing(w.children, s)
    && Buried(w.registered[s].who, c.status, w.table, w.exits)
  }

  ghost predicate CallsInv(w: World)
  {
    && (forall c :: c in Calls(w) ==> Rightful(w, c))
    && (forall s :: s in w.registered ==>
          CallsFor(Calls(w), w.registered[s].onExit) == if Standing(w.children, s) then 0 else 1)
  }

  ghost predicate SignalsInv(signals: seq<(Watch, Proc)>, registered: map<Serial, Registration>)
  {
    forall i :: 0 <= i < |signals| ==>
      signals[i].0.serial in registered && registered[signals[i].0.serial].who == signals[i].1
  }

  ghost predicate Inv(w: World)
  {
    && KernelInv(w.table, w.made, w.exits)
    && SerialsInv(w.serial, w.registered, w.made, w.given)
    && EntriesInv(w)
    && LockInv(w)
    && CallsInv(w)
    && SignalsInv(w.signals, w.registered)
  }

  // The process table

  lemma TableGrows(table: map<Pid, Process>, made: nat, exits: map<Proc, Status>, pid: Pid, ours: bool)
    requires KernelInv(table, made, exits) && pid !in table
    ensures KernelInv(table[pid := Process(made, ours, None)], made + 1, exits)
  {
  }

  lemma TableExit(table: map<Pid, Process>, made: nat, exits: map<Proc, Status>, pid: Pid, status: Status)
    requires KernelInv(table, made, exits) && pid in table && table[pid].exit.None?
    ensures KernelInv(table[pid := table[pid].(exit := Some(status))], made, exits[table[pid].who := status])
  {
  }

  lemma TableReap(table: map<Pid, Process>, made: nat, exits: map<Proc, Status>, pid: Pid)
    requires KernelInv(table, made, exits) && pid in table
    ensures KernelInv(table - {pid}, made, exits)
    ensures Gone(table - {pid}, table[pid].who)
  {
  }

  lemma KernelKept(w: World, step: Step)
    requires KernelInv(w.table, w.made, w.exits) && Enabled(w, step)
    ensures var t := Apply(w, step); KernelInv(t.table, t.made, t.exits)
  {
    match step {
      case ForeignFork(pid) => TableGrows(w.table, w.made, w.exits, pid, false);
      case Fork(pid) => TableGrows(w.table, w.made, w.exits, pid, true);
      case Exit(pid, status) => TableExit(w.table, w.made, w.exits, pid, status);
      case ForeignReap(pid) => TableReap(w.table, w.made, w.exits, pid);
      case NoPidfd => TableReap(w.table, w.made, w.exits, w.lock.pid);
      case Wait(pid) => TableReap(w.table, w.made, w.exits, pid);
      case _ =>
    }
  }

  /** Once a process is reaped, nothing that happens later is taken for it. */
  lemma BuriedKept(w: World, step: Step, who: Proc, status: Status)
    requires Enabled(w, step) && who < w.made && Buried(who, status, w.table, w.exits)
    ensures var t := Apply(w, step); Buried(who, status, t.table, t.exits)
  {
  }

  // The registry

  lemma SerialsKept(w: World, step: Step)
    requires KernelInv(w.table, w.made, w.exits) && LockInv(w) && Enabled(w, step)
    requires SerialsInv(w.serial, w.registered, w.made, w.given)
    ensures var t := Apply(w, step); SerialsInv(t.serial, t.registered, t.made, t.given)
  {
    hide KernelInv;
    if step.Insert? {
      SerialsGrow(w);
    } else {
      SerialsStand(w, step);
    }
  }

  lemma SerialsGrow(w: World)
    requires KernelInv(w.table, w.made, w.exits) && LockInv(w) && Enabled(w, Insert)
    requires SerialsInv(w.serial, w.registered, w.made, w.given)
    ensures var t := Apply(w, Insert); SerialsInv(t.serial, t.registered, t.made, t.given)
  {
  }

  lemma SerialsStand(w: World, step: Step)
    requires Enabled(w, step) && !step.Insert? && SerialsInv(w.serial, w.registered, w.made, w.given)
    ensures var t := Apply(w, step); SerialsInv(t.serial, t.registered, t.made, t.given)
  {
    var t := Apply(w, step);
    assert (t.serial, t.registered) == (w.serial, w.registered) && w.made <= t.made && w.given <= t.given;
  }

  lemma EntriesKept(w: World, step: Step)
    requires Inv(w) && Enabled(w, step)
    ensures EntriesInv(Apply(w, step))
  {
    hide CallsInv, SignalsInv, KernelInv, Names, NamedReaped;
    var t := Apply(w, step);
    forall p | p in t.children ensures EntryInv(t, p) {
      if p in w.children {
        EntryKept(w, step, p);
      } else {
        NewEntry(w, step, p);
      }
    }
    EntriesApart(w, step);
  }

  lemma EntriesApart(w: World, step: Step)
    requires Inv(w) && Enabled(w, step)
    ensures var c := Apply(w, step).children;
            forall p, q :: p in c && q in c && p != q ==> c[p].serial != c[q].serial
  {
    hide CallsInv, SignalsInv, KernelInv, NamedReaped;
    assert forall p :: p in w.children ==> w.children[p].serial in w.registered by { EntriesRegistered(w); }
  }

  lemma EntriesRegistered(w: World)
    requires EntriesInv(w)
    ensures forall p :: p in w.children ==> w.children[p].serial in w.registered
  {
  }

  lemma NewEntry(w: World, step: Step, p: Pid)
    requires Inv(w) && Enabled(w, step) && p in Apply(w, step).children && p !in w.children
    ensures EntryInv(Apply(w, step), p)
  {
    hide CallsInv, SignalsInv, KernelInv, EntriesInv, SerialsInv;
  }

  /** What an entry that stays says stays true, whatever else happens. */
  lemma EntryKept(w: World, step: Step, p: Pid)
    requires Inv(w) && Enabled(w, step) && p in w.children
    ensures var t := Apply(w, step);
            p in t.children ==> t.children[p] == w.children[p] && EntryInv(t, p)
  {
    hide CallsInv, SignalsInv, Apply;
    if w.lock.Reaped? && w.lock.pid == p {
      ReapedEntryKept(w, step, p);
    } else if step.LockReap? || step.Wait? || step.Remove? || step.UnlockReap? || step.Fire? {
      EntryKeptByReap(w, step, p);
    } else {
      EntryKeptByOthers(w, step, p);
    }
  }

  lemma ReapedEntryKept(w: World, step: Step, p: Pid)
    requires Inv(w) && Enabled(w, step) && p in w.children && w.lock.Reaped? && w.lock.pid == p
    ensures var t := Apply(w, step);
            p in t.children ==> t.children[p] == w.children[p] && EntryInv(t, p)
  {
    hide CallsInv, SignalsInv, KernelInv;
    assert EntryInv(w, p);
    BuriedKept(w, step, w.registered[w.children[p].serial].who, w.lock.status);
  }

  lemma EntryKeptByReap(w: World, step: Step, p: Pid)
    requires Inv(w) && Enabled(w, step) && p in w.children && !(w.lock.Reaped? && w.lock.pid == p)
    requires step.LockReap? || step.Wait? || step.Remove? || step.UnlockReap? || step.Fire?
    ensures var t := Apply(w, step);
            p in t.children ==> t.children[p] == w.children[p] && EntryInv(t, p)
  {
    hide CallsInv, SignalsInv, SerialsInv;
    assert EntryInv(w, p);
    if step.Wait? {
      TableReap(w.table, w.made, w.exits, step.pid);
    }
  }

  lemma EntryKeptByOthers(w: World, step: Step, p: Pid)
    requires Inv(w) && Enabled(w, step) && p in w.children && !(w.lock.Reaped? && w.lock.pid == p)
    requires !(step.LockReap? || step.Wait? || step.Remove? || step.UnlockReap? || step.Fire?)
    ensures var t := Apply(w, step);
            p in t.children ==> t.children[p] == w.children[p] && EntryInv(t, p)
  {
    hide CallsInv, SignalsInv, KernelInv;
    assert EntryInv(w, p);
  }

  lemma LockKept(w: World, step: Step)
    requires Inv(w) && Enabled(w, step)
    ensures LockInv(Apply(w, step))
  {
    hide CallsInv, SignalsInv, KernelInv, SerialsInv;
    if w.lock.Free? || step.Fork? {
      LockTaken(w, step);
    } else {
      hide EntriesInv;
    }
  }

  /** A pid the kernel gives out is not registered: what is registered is not reaped. */
  lemma LockTaken(w: World, step: Step)
    requires Inv(w) && Enabled(w, step) && (w.lock.Free? || step.Fork?)
    ensures LockInv(Apply(w, step))
  {
    hide CallsInv, SignalsInv, KernelInv;
    assert forall p :: p in w.children ==> EntryInv(w, p);
  }

  lemma SignalsKept(w: World, step: Step)
    requires Inv(w) && Enabled(w, step)
    ensures var t := Apply(w, step); SignalsInv(t.signals, t.registered)
  {
    hide CallsInv, KernelInv;
    if step.Kill? {
      hide SerialsInv;
      assert w.lock.watch.pid in w.children ==> EntryInv(w, w.lock.watch.pid);
    } else {
      hide EntriesInv, LockInv;
    }
  }

  // The calls

  lemma {:induction false} CallsAdd(a: seq<Call>, b: seq<Call>, f: OnExit)
    ensures CallsFor(a + b, f) == CallsFor(a, f) + CallsFor(b, f)
    decreases |b|
  {
    if b == [] {
      assert a + b == a;
    } else {
      CallsAdd(a, b[..|b| - 1], f);
      assert (a + b)[..|a + b| - 1] == a + b[..|b| - 1];
    }
  }

  lemma {:induction false} CallsForNone(cs: seq<Call>, f: OnExit)
    requires forall c :: c in cs ==> c.onExit != f
    ensures CallsFor(cs, f) == 0
  {
    if cs != [] {
      CallsForNone(cs[..|cs| - 1], f);
    }
  }

  /** The call the step adds, if any: that of the entry it removes. */
  ghost function Added(w: World, step: Step): (cs: seq<Call>)
  {
    if step.Remove? && w.lock.Reaped? && w.lock.pid in w.children
    then [Call(w.children[w.lock.pid].onExit, w.lock.status)] else []
  }

  lemma FireMoves(w: World, i: nat, f: OnExit)
    requires i < |w.owed|
    ensures var t := Apply(w, Fire(i));
            && CallsFor(Calls(t), f) == CallsFor(Calls(w), f)
            && forall c :: c in Calls(t) ==> c in Calls(w)
  {
    hide CallsFor;
    var a, c, b := w.owed[..i], [w.owed[i]], w.owed[i + 1..];
    var rest := if w.lock.Reaping? || w.lock.Reaped? then w.lock.done else [];
    assert w.owed == a + c + b;
    CallsAdd(w.called + w.owed, rest, f);
    CallsAdd(w.called, w.owed, f);
    CallsAdd(a + c, b, f);
    CallsAdd(a, c, f);
    CallsAdd(w.called + c + (a + b), rest, f);
    CallsAdd(w.called + c, a + b, f);
    CallsAdd(w.called, c, f);
    CallsAdd(a, b, f);
  }

  /** Only the removal of an entry adds a call; every other step keeps them or moves one. */
  lemma CallsMove(w: World, step: Step, f: OnExit)
    requires Enabled(w, step)
    ensures var t := Apply(w, step);
            && CallsFor(Calls(t), f) == CallsFor(Calls(w), f) + CallsFor(Added(w, step), f)
            && forall c :: c in Calls(t) ==> (c in Calls(w) || c in Added(w, step))
  {
    var t := Apply(w, step);
    match step {
      case Fire(i) =>
        FireMoves(w, i, f);
      case _ =>
        assert Calls(t) == Calls(w) + Added(w, step);
        CallsAdd(Calls(w), Added(w, step), f);
    }
  }

  lemma StandingKept(w: World, step: Step, s: Serial)
    requires Inv(w) && Enabled(w, step) && s in w.registered
    ensures Standing(Apply(w, step).children, s) <==>
            Standing(w.children, s) &&
            !(step.Remove? && w.lock.pid in w.children && w.children[w.lock.pid].serial == s)
  {
    hide CallsInv, SignalsInv, KernelInv, SerialsInv, EntriesInv, LockInv;
    if step.Insert? {
      StandingByInsert(w, s);
    } else if step.Remove? {
      StandingByRemove(w, s);
    }
  }

  lemma StandingByInsert(w: World, s: Serial)
    requires Inv(w) && Enabled(w, Insert) && s in w.registered
    ensures Standing(Apply(w, Insert).children, s) <==> Standing(w.children, s)
  {
    hide CallsInv, SignalsInv, KernelInv, EntriesInv;
    var t := Apply(w, Insert);
    if Standing(w.children, s) {
      var p :| p in w.children && w.children[p].serial == s;
      assert t.children[p].serial == s;
    }
    if Standing(t.children, s) {
      var p :| p in t.children && t.children[p].serial == s;
      assert p in w.children && w.children[p].serial == s;
    }
  }

  lemma StandingByRemove(w: World, s: Serial)
    requires Inv(w) && Enabled(w, Remove) && s in w.registered
    ensures Standing(Apply(w, Remove).children, s) <==>
            Standing(w.children, s) && !(w.lock.pid in w.children && w.children[w.lock.pid].serial == s)
  {
    hide CallsInv, SignalsInv, KernelInv, SerialsInv, LockInv, Names, NamedReaped;
    var t := Apply(w, Remove);
    if Standing(w.children, s) {
      var p :| p in w.children && w.children[p].serial == s;
      if p in t.children { assert t.children[p].serial == s; }
    }
    if Standing(t.children, s) {
      var p :| p in t.children && t.children[p].serial == s;
      assert p in w.children && w.children[p].serial == s;
    }
  }

  lemma RightfulKept(w: World, step: Step, c: Call)
    requires Inv(w) && Enabled(w, step) && Rightful(w, c)
    ensures Rightful(Apply(w, step), c)
  {
    var t := Apply(w, step);
    var s :| RightfulFor(w, c, s);
    StandingKept(w, step, s);
    BuriedKept(w, step, w.registered[s].who, c.status);
    assert RightfulFor(t, c, s);
  }

  lemma RemovedIsRightful(w: World, c: Call)
    requires Inv(w) && w.lock.Reaped? && w.lock.pid in w.children
    requires c == Call(w.children[w.lock.pid].onExit, w.lock.status)
    ensures Rightful(Apply(w, Remove), c)
  {
    var t, e := Apply(w, Remove), w.children[w.lock.pid];
    StandingKept(w, Remove, e.serial);
    assert NamedReaped(e, w.lock.status, w);
    assert RightfulFor(t, c, e.serial);
  }

  lemma NewRegistrationIsUncalled(w: World)
    requires Inv(w) && w.lock.Started?
    ensures CallsFor(Calls(w), w.lock.onExit) == 0
  {
    forall c | c in Calls(w) ensures c.onExit != w.lock.onExit {
      var s :| RightfulFor(w, c, s);
    }
    CallsForNone(Calls(w), w.lock.onExit);
  }

  lemma CallsKept(w: World, step: Step)
    requires Inv(w) && Enabled(w, step)
    ensures CallsInv(Apply(w, step))
  {
    var t := Apply(w, step);
    forall c | c in Calls(t) ensures Rightful(t, c) {
      CallsMove(w, step, 0);
      if c in Calls(w) { RightfulKept(w, step, c); } else { RemovedIsRightful(w, c); }
    }
    forall s | s in t.registered
      ensures CallsFor(Calls(t), t.registered[s].onExit) == if Standing(t.children, s) then 0 else 1
    {
      CallsMove(w, step, t.registered[s].onExit);
      if s in w.registered {
        CountKept(w, step, s);
      } else {
        NewRegistrationIsUncalled(w);
        assert t.children[w.lock.pid].serial == s;
      }
    }
  }

  lemma CountKept(w: World, step: Step, s: Serial)
    requires Inv(w) && Enabled(w, step) && s in w.registered
    ensures var t := Apply(w, step);
            && s in t.registered && t.registered[s] == w.registered[s]
            && CallsFor(Calls(t), w.registered[s].onExit) == if Standing(t.children, s) then 0 else 1
  {
    var f := w.registered[s].onExit;
    CallsMove(w, step, f);
    StandingKept(w, step, s);
    if step.Remove? && w.lock.pid in w.children {
      var e := w.children[w.lock.pid];
      assert NamedReaped(e, w.lock.status, w);
      assert Added(w, step)[..0] == [];
      if e.serial == s { assert Standing(w.children, s); }
    }
  }

  // ---------------------------------------------------------------------
  // Every run
  // ---------------------------------------------------------------------

  lemma Kept(w: World, step: Step)
    requires Inv(w) && Enabled(w, step)
    ensures Inv(Apply(w, step))
  {
    hide KernelInv, SerialsInv, EntriesInv, LockInv, CallsInv, SignalsInv, Apply, Enabled;
    KernelKept(w, step);
    SerialsKept(w, step);
    EntriesKept(w, step);
    LockKept(w, step);
    CallsKept(w, step);
    SignalsKept(w, step);
  }

  lemma {:induction false} EveryRunKeeps(states: seq<World>, steps: seq<Step>, k: nat)
    requires Run(states, steps) && k <= |steps|
    ensures Inv(states[k])
  {
    if k == 0 {
    } else {
      hide Inv, Apply, Enabled;
      EveryRunKeeps(states, steps, k - 1);
      Kept(states[k - 1], steps[k - 1]);
    }
  }

  /** Each registration names the very process it was made for, still unreaped: the one
      exception is the pid a lock holder has just reaped and not yet removed. */
  lemma EntriesNameTheirProcess(states: seq<World>, steps: seq<Step>, k: nat, pid: Pid)
    requires Run(states, steps) && k <= |steps|
    requires pid in states[k].children
    requires !(states[k].lock.Reaped? && states[k].lock.pid == pid)
    ensures var w := states[k];
            && w.children[pid].serial in w.registered
            && pid in w.table
            && w.table[pid].who == w.registered[w.children[pid].serial].who
  {
    EveryRunKeeps(states, steps, k);
  }

  /** Registering a child never overwrites another registration. */
  lemma InsertOverwritesNothing(states: seq<World>, steps: seq<Step>, k: nat)
    requires Run(states, steps) && k < |steps| && steps[k].Insert?
    ensures states[k].lock.pid !in states[k].children
  {
    EveryRunKeeps(states, steps, k);
  }

  /** A signal reaches the process its watch was registered for, or nothing: never a later
      process that got the same pid. */
  lemma SignalsReachTheirOwn(states: seq<World>, steps: seq<Step>, k: nat, i: nat)
    requires Run(states, steps) && k <= |steps| && i < |states[k].signals|
    ensures var (watch, who) := states[k].signals[i];
            watch.serial in states[k].registered && states[k].registered[watch.serial].who == who
  {
    EveryRunKeeps(states, steps, k);
  }

  /** And it does reach that process as long as the registration stands, exited or not. */
  lemma SignalsReachWhileRegistered(states: seq<World>, steps: seq<Step>, k: nat)
    requires Run(states, steps) && k < |steps| && steps[k].Kill?
    ensures states[k].lock.Signalling? && states[k + 1].lock.Free?
    ensures var w, watch := states[k], states[k].lock.watch;
            if watch.pid in w.children && w.children[watch.pid].serial == watch.serial
            then && watch.serial in w.registered
                 && states[k + 1].signals == w.signals + [(watch, w.registered[watch.serial].who)]
            else states[k + 1].signals == w.signals
  {
    EveryRunKeeps(states, steps, k);
    var w := states[k];
    assert Enabled(w, steps[k]);
    hide CallsInv, SerialsInv, KernelInv;
    var watch := w.lock.watch;
    if watch.pid in w.children {
      assert EntryInv(w, watch.pid);
    }
  }

  /** A child that could not be watched is not left behind: it is gone, and nothing is registered. */
  lemma UnwatchedChildIsGone(states: seq<World>, steps: seq<Step>, k: nat)
    requires Run(states, steps) && k < |steps| && steps[k].NoPidfd?
    ensures states[k].lock.Started? && states[k + 1].lock.Free?
    ensures Gone(states[k + 1].table, states[k].lock.who) && states[k + 1].children == states[k].children
    ensures states[k].lock.pid !in states[k + 1].children
  {
    EveryRunKeeps(states, steps, k);
    assert Enabled(states[k], steps[k]);
    hide CallsInv, SerialsInv, EntriesInv;
  }

  /** No callback is called twice, and each call carries the status its own process exited
      with, after that process is reaped. */
  lemma CallsCarryTheirOwnStatus(states: seq<World>, steps: seq<Step>, k: nat, c: Call)
    requires Run(states, steps) && k <= |steps| && c in states[k].called
    ensures CallsFor(states[k].called, c.onExit) == 1
    ensures exists s :: RightfulFor(states[k], c, s)
  {
    var w := states[k];
    EveryRunKeeps(states, steps, k);
    assert c in Calls(w);
    var s :| RightfulFor(w, c, s);
    var rest := if w.lock.Reaping? || w.lock.Reaped? then w.lock.done else [];
    CallsAdd(w.called + w.owed, rest, c.onExit);
    CallsAdd(w.called, w.owed, c.onExit);
    CallsForSome(w.called, c);
  }

  lemma {:induction false} CallsForSome(cs: seq<Call>, c: Call)
    requires c in cs
    ensures CallsFor(cs, c.onExit) >= 1
  {
    if cs[|cs| - 1] != c {
      CallsForSome(cs[..|cs| - 1], c);
    }
  }

  /** Nothing is lost: a registration stands, or its one call is owed, or it was made. */
  lemma EveryRegistrationIsAccountedFor(states: seq<World>, steps: seq<Step>, k: nat, s: Serial)
    requires Run(states, steps) && k <= |steps| && s in states[k].registered
    ensures CallsFor(Calls(states[k]), states[k].registered[s].onExit) +
            (if Standing(states[k].children, s) then 1 else 0) == 1
  {
    EveryRunKeeps(states, steps, k);
  }
}
