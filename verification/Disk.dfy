/** The disk seal: the root is frozen under a lease that a matching thaw or the watchdog
    ends. `ops` is the kernel's record of the freezes and thaws that took effect. */
module Disk {
  import opened Common

  type Id = nat
  type Millis = nat

  datatype Op = Freeze | Thaw

  /** The lease: deadlines are in milliseconds of a monotonic clock. */
  datatype Lease = Lease(id: Id, deadline: Millis, expired: bool)

  datatype State = State(lease: Option<Lease>, busy: bool, ops: seq<Op>, off: bool)

  const Booted: State := State(None, false, [], false)

  /** The root is frozen when the last thing done to it was a freeze. */
  predicate Frozen(s: State)
  {
    s.ops != [] && s.ops[|s.ops| - 1] == Freeze
  }

  const MIN_LEASE: Millis := 1000
  const MAX_LEASE: Millis := 300_000

  /** How the system calls of a seal turn out, in order, and the time after the freeze. */
  datatype SealCalls = SealCalls(
    opens: bool, writable: bool, synced: bool, trimmed: bool, parsed: bool,
    freezes: bool, verified: bool, thaws: bool, now: Millis)

  datatype Answer = Sealed | Thawed | Expired | Trimmed | Failed(reason: string)

  datatype Request =
    | Seal(id: Id, lease: Millis, calls: SealCalls)
    | ThawIt(id: Id, now: Millis, thaws: bool)
    | Trim(works: bool)
    /** One pass of the watchdog; `thaws` is whether its thaw would succeed. */
    | Watch(now: Millis, thaws: bool)

  // ---------------------------------------------------------------------
  // The disk, one critical section at a time
  // ---------------------------------------------------------------------

  /** Everything up to the freeze goes well. */
  predicate Freezes(c: SealCalls)
  {
    c.opens && c.writable && c.synced && c.trimmed && c.parsed && c.freezes
  }

  function Next(s: State, r: Request): (t: (State, Answer))
  {
    match r
    case Seal(id, lease, c) =>
      if !(MIN_LEASE <= lease <= MAX_LEASE) then (s, Failed("seal lease must be 1000 to 300000 ms"))
      else if s.busy then (s, Failed("root seal is active"))
      else if !Freezes(c) then (s, Failed("io"))
      else if c.verified then
        (s.(lease := Some(Lease(id, c.now + lease, false)), busy := true, ops := s.ops + [Freeze]), Sealed)
      else if c.thaws then (s.(ops := s.ops + [Freeze, Thaw]), Failed("not verified"))
      // A root that can be neither used nor thawed: the guest is powered off.
      else (s.(ops := s.ops + [Freeze], off := true), Failed("not verified"))
    case ThawIt(id, now, thaws) =>
      if s.lease.None? then (s, Failed("no seal to thaw"))
      else if s.lease.value.id != id then (s, Failed("seal id does not match"))
      else
        var lease := s.lease.value;
        if !lease.expired && !thaws then (s, Failed("io"))
        else
          (s.(lease := None, busy := false, ops := if lease.expired then s.ops else s.ops + [Thaw]),
           if lease.expired || now >= lease.deadline then Expired else Thawed)
    case Trim(works) =>
      (s, if s.busy then Failed("root seal is active") else if works then Trimmed else Failed("io"))
    case Watch(now, thaws) =>
      if s.lease.Some? && !s.lease.value.expired && now >= s.lease.value.deadline && thaws then
        (s.(lease := Some(s.lease.value.(expired := true)), busy := false, ops := s.ops + [Thaw]), Expired)
      else (s, Failed(""))
  }

  class Disk {
    var lease: Option<Lease>
    var busy: bool
    var off: bool
    ghost var ops: seq<Op>

    ghost function View(): (s: State)
      reads this
    {
      State(lease, busy, ops, off)
    }

    constructor ()
      ensures View() == Booted
    {
      lease, busy, off, ops := None, false, false, [];
    }

    method Seal(id: Id, leaseMs: Millis, calls: SealCalls) returns (answer: Answer)
      modifies this
      ensures (View(), answer) == Next(old(View()), Request.Seal(id, leaseMs, calls))
    {
      if leaseMs < MIN_LEASE || leaseMs > MAX_LEASE {
        return Failed("seal lease must be 1000 to 300000 ms");
      }
      if busy {
        return Failed("root seal is active");
      }
      busy := true;
      assert ops + [] == ops;
      answer := SealRoot(id, leaseMs, calls);
      if answer.Failed? {
        busy := false;
      }
    }

    /** The part of a seal that ends at its first failure. */
    method SealRoot(id: Id, leaseMs: Millis, calls: SealCalls) returns (answer: Answer)
      modifies this`lease, this`off, this`ops
      ensures answer == if !Freezes(calls) then Failed("io")
                        else if calls.verified then Sealed else Failed("not verified")
      ensures lease == if answer == Sealed then Some(Lease(id, calls.now + leaseMs, false)) else old(lease)
      ensures ops == old(ops) + if !Freezes(calls) then []
                                else if calls.verified || !calls.thaws then [Freeze] else [Freeze, Op.Thaw]
      ensures off == (old(off) || (Freezes(calls) && !calls.verified && !calls.thaws))
    {
      if !calls.opens { return Failed("io"); }
      if !calls.writable { return Failed("io"); }
      if !calls.synced { return Failed("io"); }
      if !calls.trimmed { return Failed("io"); }
      if !calls.parsed { return Failed("io"); }
      if !calls.freezes { return Failed("io"); }
      ops := ops + [Freeze];
      if !calls.verified {
        if calls.thaws {
          ops := ops + [Op.Thaw];
        } else {
          off := true;
        }
        return Failed("not verified");
      }
      lease := Some(Lease(id, calls.now + leaseMs, false));
      return Sealed;
    }

    method Thaw(id: Id, now: Millis, thaws: bool) returns (answer: Answer)
      modifies this
      ensures (View(), answer) == Next(old(View()), ThawIt(id, now, thaws))
    {
      if lease.None? {
        return Failed("no seal to thaw");
      }
      if lease.value.id != id {
        return Failed("seal id does not match");
      }
      var expired := lease.value.expired || now >= lease.value.deadline;
      if !lease.value.expired {
        if !thaws {
          return Failed("io");
        }
        ops := ops + [Op.Thaw];
      }
      lease := None;
      busy := false;
      return if expired then Expired else Thawed;
    }

    method TrimRoot(works: bool) returns (answer: Answer)
      ensures (View(), answer) == Next(View(), Trim(works))
    {
      if busy {
        return Failed("root seal is active");
      }
      return if works then Trimmed else Failed("io");
    }

    method WatchdogPass(now: Millis, thaws: bool)
      modifies this
      ensures View() == Next(old(View()), Watch(now, thaws)).0
    {
      if lease.Some? {
        if !lease.value.expired && now >= lease.value.deadline && thaws {
          lease := Some(lease.value.(expired := true));
          busy := false;
          ops := ops + [Op.Thaw];
        }
      }
    }
  }

  // ---------------------------------------------------------------------
  // Runs
  // ---------------------------------------------------------------------

  /** The state after the first `k` requests. A guest that is off answers nothing more. */
  ghost function After(rs: seq<Request>, k: nat): (s: State)
    requires k <= |rs|
  {
    if k == 0 then Booted
    else if After(rs, k - 1).off then After(rs, k - 1)
    else Next(After(rs, k - 1), rs[k - 1]).0
  }

  /** Request `k` is carried out and answered with `answer`. */
  ghost predicate Answers(rs: seq<Request>, k: nat, answer: Answer)
    requires k < |rs|
  {
    !After(rs, k).off && Next(After(rs, k), rs[k]).1 == answer
  }

  ghost predicate SealedAt(rs: seq<Request>, i: nat)
  {
    i < |rs| && rs[i].Seal? && Answers(rs, i, Sealed)
  }

  /** Between critical sections the root is frozen exactly while a lease stands unexpired,
      and the busy flag says so. */
  ghost predicate Consistent(s: State)
  {
    !s.off ==>
      && (Frozen(s) <==> s.lease.Some? && !s.lease.value.expired)
      && (s.busy <==> Frozen(s))
  }

  lemma {:induction false} FrozenExactlyWhileLeased(rs: seq<Request>, k: nat)
    requires k <= |rs|
    ensures Consistent(After(rs, k))
  {
    hide Next, Consistent;
    if k == 0 {
      BootedIsConsistent();
    } else {
      FrozenExactlyWhileLeased(rs, k - 1);
      if !After(rs, k - 1).off { NextIsConsistent(After(rs, k - 1), rs[k - 1]); }
    }
  }

  lemma BootedIsConsistent()
    ensures Consistent(Booted)
  {
  }

  lemma NextIsConsistent(s: State, r: Request)
    requires Consistent(s) && !s.off
    ensures Consistent(Next(s, r).0)
  {
  }

  /** The lease that stands is that of a seal, and the last freeze is the one it made. */
  ghost predicate LeasedBy(rs: seq<Request>, i: nat, k: nat)
    requires k <= |rs|
  {
    && i < k && SealedAt(rs, i)
    && var s := After(rs, k);
       && s.lease.Some?
       && s.lease.value.id == rs[i].id
       && s.lease.value.deadline == rs[i].calls.now + rs[i].lease
       && (!s.lease.value.expired ==> s.ops == After(rs, i + 1).ops)
       && (forall j: nat :: i < j < k ==> !SealedAt(rs, j))
  }

  /** A request that is no successful seal leaves no lease but the one before, and leaves an
      unexpired one frozen as it was. */
  lemma LeaseCarriesOver(s: State, r: Request)
    requires Consistent(s) && !s.off
    ensures var (t, answer) := Next(s, r);
            t.lease.Some? && !(r.Seal? && answer == Sealed) ==>
              && s.lease.Some? && s.lease.value.id == t.lease.value.id
              && s.lease.value.deadline == t.lease.value.deadline
              && (!t.lease.value.expired ==> !s.lease.value.expired && t.ops == s.ops)
  {
  }

  lemma {:induction false} LeaseHasASeal(rs: seq<Request>, k: nat) returns (i: nat)
    requires k <= |rs| && After(rs, k).lease.Some?
    ensures LeasedBy(rs, i, k)
  {
    var before := After(rs, k - 1);
    if SealedAt(rs, k - 1) {
      i := k - 1;
    } else {
      FrozenExactlyWhileLeased(rs, k - 1);
      if !before.off { LeaseCarriesOver(before, rs[k - 1]); }
      hide Next;
      i := LeaseHasASeal(rs, k - 1);
    }
  }

  /** A thaw answered `Thawed` proves the past: the root was frozen by a seal with that id,
      within its lease, and between that answer and this thaw nothing froze or thawed it. */
  lemma ThawedProvesUnbrokenFreeze(rs: seq<Request>, k: nat) returns (i: nat)
    requires k < |rs| && rs[k].ThawIt? && Answers(rs, k, Thawed)
    ensures i < k && SealedAt(rs, i) && rs[i].id == rs[k].id
    ensures rs[k].now < rs[i].calls.now + rs[i].lease
    ensures forall j: nat :: i < j <= k ==> Frozen(After(rs, j)) && After(rs, j).ops == After(rs, i + 1).ops
    ensures After(rs, k + 1).ops == After(rs, i + 1).ops + [Thaw]
  {
    i := LeaseHasASeal(rs, k);
    FrozenExactlyWhileLeased(rs, i + 1);
    forall j: nat | i < j <= k ensures After(rs, j).ops == After(rs, i + 1).ops {
      OpsBetween(rs, i + 1, j, k);
    }
  }

  /** The record of freezes and thaws only grows. */
  lemma {:induction false} OpsGrow(rs: seq<Request>, i: nat, k: nat)
    requires i <= k <= |rs|
    ensures After(rs, i).ops <= After(rs, k).ops
    decreases k
  {
    hide Next;
    if i < k {
      OpsGrow(rs, i, k - 1);
      NextGrows(After(rs, k - 1), rs[k - 1]);
    }
  }

  lemma NextGrows(s: State, r: Request)
    ensures s.ops <= Next(s, r).0.ops
  {
  }

  lemma OpsBetween(rs: seq<Request>, i: nat, j: nat, k: nat)
    requires i <= j <= k <= |rs| && After(rs, i).ops == After(rs, k).ops
    ensures After(rs, j).ops == After(rs, i).ops
  {
    OpsGrow(rs, i, j);
    OpsGrow(rs, j, k);
  }

  ghost predicate DistinctSeals(rs: seq<Request>)
  {
    forall i: nat, j: nat :: i < j < |rs| && rs[i].Seal? && rs[j].Seal? ==> rs[i].id != rs[j].id
  }

  /** When no id is used twice, it is the very seal the thaw names. */
  lemma ThawedIsForThatSeal(rs: seq<Request>, i: nat, k: nat)
    requires DistinctSeals(rs)
    requires k < |rs| && rs[k].ThawIt? && Answers(rs, k, Thawed)
    requires i < |rs| && rs[i].Seal? && rs[i].id == rs[k].id
    ensures i < k && SealedAt(rs, i)
    ensures rs[k].now < rs[i].calls.now + rs[i].lease
    ensures forall j: nat :: i < j <= k ==> Frozen(After(rs, j))
    ensures After(rs, k + 1).ops == After(rs, i + 1).ops + [Thaw]
  {
    var m := ThawedProvesUnbrokenFreeze(rs, k);
    if m < i { assert false; }
    if i < m { assert false; }
  }

  /** A stale thaw never releases a later seal: after a seal with another id, a thaw for an
      earlier one changes nothing. */
  lemma StaleThawReleasesNothing(rs: seq<Request>, i: nat, k: nat)
    requires i < k < |rs| && SealedAt(rs, i) && rs[k].ThawIt? && rs[i].id != rs[k].id
    requires forall j: nat :: i < j < k ==> !SealedAt(rs, j)
    ensures After(rs, k + 1) == After(rs, k)
  {
    if After(rs, k).lease.Some? {
      var m := LeaseHasASeal(rs, k);
      if m < i { assert false; }
    }
  }

  /** Exactly when a thaw is answered `Thawed`. */
  lemma ThawedExactlyWhen(rs: seq<Request>, k: nat)
    requires k < |rs| && rs[k].ThawIt? && !After(rs, k).off
    ensures Answers(rs, k, Thawed) <==>
            && Frozen(After(rs, k)) && rs[k].thaws
            && After(rs, k).lease.Some?
            && After(rs, k).lease.value.id == rs[k].id
            && rs[k].now < After(rs, k).lease.value.deadline
  {
    FrozenExactlyWhileLeased(rs, k);
  }

  /** Exactly when a seal is answered `Sealed`: its lease is in range, the root is not frozen, and
      the freeze and its verification succeed. The root is then frozen under that lease. */
  lemma SealedExactlyWhen(rs: seq<Request>, k: nat)
    requires k < |rs| && rs[k].Seal? && !After(rs, k).off
    ensures Answers(rs, k, Sealed) <==>
            && MIN_LEASE <= rs[k].lease <= MAX_LEASE && !Frozen(After(rs, k))
            && Freezes(rs[k].calls) && rs[k].calls.verified
    ensures Answers(rs, k, Sealed) ==>
            && Frozen(After(rs, k + 1))
            && After(rs, k + 1).lease == Some(Lease(rs[k].id, rs[k].calls.now + rs[k].lease, false))
  {
    FrozenExactlyWhileLeased(rs, k);
  }

  /** A seal that fails leaves the root as it was, thawed again if it was frozen in between; it
      ends the guest exactly when it froze the root, could not verify it and could not thaw it. */
  lemma FailedSealUndoes(rs: seq<Request>, k: nat)
    requires k < |rs| && rs[k].Seal? && !After(rs, k).off && !Answers(rs, k, Sealed)
    ensures var s, t := After(rs, k), After(rs, k + 1);
            && (t.off <==> && MIN_LEASE <= rs[k].lease <= MAX_LEASE && !Frozen(s) && Freezes(rs[k].calls)
                           && !rs[k].calls.verified && !rs[k].calls.thaws)
            && (!t.off ==> (Frozen(t) <==> Frozen(s)) && t.lease == s.lease)
            && t.ops == s.ops + (if t.off then [Freeze]
                                 else if MIN_LEASE <= rs[k].lease <= MAX_LEASE && !Frozen(s) && Freezes(rs[k].calls)
                                 then [Freeze, Thaw] else [])
    ensures Answers(rs, k, Failed(
              if !(MIN_LEASE <= rs[k].lease <= MAX_LEASE) then "seal lease must be 1000 to 300000 ms"
              else if Frozen(After(rs, k)) then "root seal is active"
              else if !Freezes(rs[k].calls) then "io" else "not verified"))
  {
    FrozenExactlyWhileLeased(rs, k);
  }

  /** Exactly when a trim is carried out: the root is not frozen. It changes nothing here. */
  lemma TrimmedExactlyWhen(rs: seq<Request>, k: nat)
    requires k < |rs| && rs[k].Trim? && !After(rs, k).off
    ensures Answers(rs, k, Trimmed) <==> !Frozen(After(rs, k)) && rs[k].works
    ensures After(rs, k + 1) == After(rs, k)
  {
    FrozenExactlyWhileLeased(rs, k);
  }

  /** Exactly when a thaw is answered `Expired`: it names the lease, and the watchdog ended that
      or its deadline has passed. The lease is then gone and the root not frozen. */
  lemma ExpiredExactlyWhen(rs: seq<Request>, k: nat)
    requires k < |rs| && rs[k].ThawIt? && !After(rs, k).off
    ensures Answers(rs, k, Expired) <==>
            && After(rs, k).lease.Some? && After(rs, k).lease.value.id == rs[k].id
            && if Frozen(After(rs, k)) then rs[k].thaws && After(rs, k).lease.value.deadline <= rs[k].now else true
    ensures Answers(rs, k, Expired) || Answers(rs, k, Thawed) ==>
            After(rs, k + 1).lease == None && !Frozen(After(rs, k + 1))
    ensures !Answers(rs, k, Expired) && !Answers(rs, k, Thawed) ==>
            && After(rs, k + 1) == After(rs, k)
            && Answers(rs, k, Failed(
                 if After(rs, k).lease.None? then "no seal to thaw"
                 else if After(rs, k).lease.value.id != rs[k].id then "seal id does not match" else "io"))
  {
    FrozenExactlyWhileLeased(rs, k);
  }

  /** The watchdog thaws no root before its deadline, and the first pass after it that can. */
  lemma WatchdogThawsExactlyOverdue(rs: seq<Request>, k: nat)
    requires k < |rs| && rs[k].Watch? && !After(rs, k).off
    ensures Frozen(After(rs, k)) && !Frozen(After(rs, k + 1)) <==>
            && Frozen(After(rs, k)) && rs[k].thaws
            && After(rs, k).lease.Some? && After(rs, k).lease.value.deadline <= rs[k].now
  {
    FrozenExactlyWhileLeased(rs, k);
  }
}
