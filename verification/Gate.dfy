/** Which new connections the guest may open, decided on each SYN: ports refused outright,
    and a pace for the rest kept by two buckets and a bounded memory of destinations. */
module Gate {
  import opened Common
  import opened Pacing
  import Record = EgressLog

  type Port = Record.Port
  type Destination = Record.Destination

  /** How long a destination counts as reached. */
  const DESTINATION_MEMORY: real := 600.0
  /** Destinations remembered at once. */
  const DESTINATIONS_KEPT: nat := 4096
  const REPORT_EVERY: real := 10.0

  datatype Verdict = Open | Refuse | Wait

  datatype ConnectionRate = ConnectionRate(connections: Rate, destinations: Rate)

  // ---------------------------------------------------------------------
  // The destinations reached lately, most recently used first
  // ---------------------------------------------------------------------

  datatype Entry = Entry(dst: Destination, at: real)
  type Cache = seq<Entry>

  function Lookup(c: Cache, dst: Destination): (r: Option<real>)
  {
    if c == [] then None else if c[0].dst == dst then Some(c[0].at) else Lookup(c[1..], dst)
  }

  function Without(c: Cache, dst: Destination): (r: Cache)
  {
    if c == [] then [] else
      (if c[0].dst == dst then [] else [c[0]]) + Without(c[1..], dst)
  }

  /** A lookup makes the entry the most recent one. */
  function Used(c: Cache, dst: Destination): (r: Cache)
  {
    match Lookup(c, dst)
    case Some(at) => [Entry(dst, at)] + Without(c, dst)
    case None => c
  }

  /** A new entry pushes the least recently used one out of a full cache. */
  function Put(c: Cache, dst: Destination, now: real): (r: Cache)
  {
    var rest := Without(c, dst);
    [Entry(dst, now)] + if |rest| < DESTINATIONS_KEPT then rest else rest[..DESTINATIONS_KEPT - 1]
  }

  // ---------------------------------------------------------------------
  // One decision
  // ---------------------------------------------------------------------

  datatype Paced = Paced(connections: Level, destinations: Level, reached: Cache)

  function Elapsed(since: real, now: real): (r: real) { if now >= since then now - since else 0.0 }

  predicate IsNew(p: Paced, dst: Destination, now: real)
  {
    match Lookup(p.reached, dst)
    case None => true
    case Some(at) => Elapsed(at, now) >= DESTINATION_MEMORY
  }

  function Decided(rate: ConnectionRate, p: Paced, dst: Destination, now: real): (r: (Paced, Verdict))
  {
    var isNew := IsNew(p, dst, now);
    var c := Refilled(rate.connections, p.connections, now);
    var d := Refilled(rate.destinations, p.destinations, now);
    var reached := Used(p.reached, dst);
    if c.tokens < 1.0 || (isNew && d.tokens < 1.0) then
      (Paced(c, d, reached), Wait)
    else
      (Paced(c.(tokens := c.tokens - 1.0),
             if isNew then d.(tokens := d.tokens - 1.0) else d,
             Put(reached, dst, now)),
       Open)
  }

  // ---------------------------------------------------------------------
  // The gate
  // ---------------------------------------------------------------------

  class Gate {
    const denyPorts: set<Port>
    const rate: Option<ConnectionRate>
    const connections: TokenBucket?
    const destinations: TokenBucket?
    var reached: Cache
    const log: Record.EgressLog?
    var nextReport: real

    ghost predicate Valid()
      reads this
    {
      && (rate.Some? <==> connections != null)
      && (rate.Some? <==> destinations != null)
      && (rate.Some? ==>
            && connections.rate == rate.value.connections
            && destinations.rate == rate.value.destinations
            && connections != destinations)
    }

    ghost function View(): (p: Paced)
      requires Valid() && rate.Some?
      reads this, connections, destinations
    {
      Paced(connections.View(), destinations.View(), reached)
    }

    constructor (denyPorts: set<Port>, rate: Option<ConnectionRate>, log: Record.EgressLog?, now: real)
      ensures Valid() && this.denyPorts == denyPorts && this.rate == rate && this.log == log
      ensures rate.Some? ==> fresh(connections) && fresh(destinations) && View() == Initial(rate.value, now)
      ensures nextReport == now + REPORT_EVERY
    {
      this.denyPorts := denyPorts;
      this.rate := rate;
      this.log := log;
      if rate.Some? {
        connections := new TokenBucket(rate.value.connections, now);
        destinations := new TokenBucket(rate.value.destinations, now);
      } else {
        connections, destinations := null, null;
      }
      reached := [];
      nextReport := now + REPORT_EVERY;
    }

    method Decide(dst: Destination, now: real) returns (verdict: Verdict)
      requires Valid()
      modifies this`reached, connections, destinations
      ensures Valid()
      ensures verdict == Refuse <==> dst.1 in denyPorts
      ensures verdict == Refuse && rate.Some? ==> View() == old(View())
      ensures dst.1 !in denyPorts && rate.None? ==> verdict == Open
      ensures dst.1 !in denyPorts && rate.Some? ==>
                (View(), verdict) == Decided(rate.value, old(View()), dst, now)
    {
      if dst.1 in denyPorts {
        return Refuse;
      }
      if rate.None? {
        return Open;
      }
      var at := Lookup(reached, dst);
      var isNew := at.None? || Elapsed(at.value, now) >= DESTINATION_MEMORY;
      reached := Used(reached, dst);
      connections.Refill(now);
      destinations.Refill(now);
      var c := connections.Has();
      var d := destinations.Has();
      if !c || (isNew && !d) {
        return Wait;
      }
      connections.Take();
      if isNew {
        destinations.Take();
      }
      reached := Put(reached, dst, now);
      return Open;
    }

    /** Decides, and counts a SYN turned away in the record. */
    method Admit(dst: Destination, now: real) returns (verdict: Verdict)
      requires Valid()
      modifies this`reached, connections, destinations, log
      ensures Valid()
      ensures verdict == Refuse <==> dst.1 in denyPorts
      ensures verdict == Refuse && rate.Some? ==> View() == old(View())
      ensures dst.1 !in denyPorts && rate.None? ==> verdict == Open
      ensures dst.1 !in denyPorts && rate.Some? ==>
                (View(), verdict) == Decided(rate.value, old(View()), dst, now)
      ensures log != null ==>
                match verdict
                case Open => log.View() == old(log.View())
                case Refuse => Record.Next(old(log.View()), Record.Refused(dst.1), log.View())
                case Wait => Record.Next(old(log.View()), Record.Held, log.View())
    {
      verdict := Decide(dst, now);
      if log != null {
        match verdict {
          case Open =>
          case Refuse => log.Refused(dst.1);
          case Wait => log.Held();
        }
      }
    }

    /** Takes the counts for a report once the interval has passed. */
    method Report(now: real) returns (due: bool)
      modifies this`nextReport, log
      ensures due <==> log != null && IsDue(old(nextReport), now)
      ensures nextReport == if due then now + REPORT_EVERY else old(nextReport)
      ensures log != null ==>
                if due then Record.Next(old(log.View()), Record.Report, log.View())
                else log.View() == old(log.View())
    {
      if log == null || now < nextReport {
        return false;
      }
      var line := log.TakeReport();
      nextReport := now + REPORT_EVERY;
      return true;
    }
  }

  predicate IsDue(next: real, now: real) { now >= next }

  function Initial(rate: ConnectionRate, now: real): (p: Paced)
  {
    Paced(Full(rate.connections, now), Full(rate.destinations, now), [])
  }

  // ---------------------------------------------------------------------
  // Runs of SYNs
  // ---------------------------------------------------------------------

  datatype Syn = Syn(dst: Destination, now: real)

  /** What is counted: every open, the ones that cost a token of `destinations`, the ones to
      a fresh destination. */
  datatype Kind = Every | Costly | Fresh

  /** A paced gate, when it was made, and the SYNs it was shown. */
  datatype Trial = Trial(deny: set<Port>, rate: ConnectionRate, start: real, syns: seq<Syn>) {

    ghost predicate Ordered()
    {
      && (forall i :: 0 <= i < |syns| ==> start <= syns[i].now)
      && (forall i, j :: 0 <= i <= j < |syns| ==> syns[i].now <= syns[j].now)
    }

    ghost predicate Denied(k: nat)
      requires k < |syns|
    {
      syns[k].dst.1 in deny
    }

    /** The gate before SYN `k`. */
    ghost function At(k: nat): (p: Paced)
      requires k <= |syns|
    {
      if k == 0 then Initial(rate, start)
      else if Denied(k - 1) then At(k - 1)
      else Decided(rate, At(k - 1), syns[k - 1].dst, syns[k - 1].now).0
    }

    ghost function VerdictOn(k: nat): (v: Verdict)
      requires k < |syns|
    {
      if Denied(k) then Refuse else Decided(rate, At(k), syns[k].dst, syns[k].now).1
    }

    ghost predicate Opens(k: nat)
      requires k < |syns|
    {
      VerdictOn(k) == Open
    }

    /** SYN `k` opens and costs a token of `destinations`. */
    ghost predicate Charged(k: nat)
      requires k < |syns|
    {
      Opens(k) && IsNew(At(k), syns[k].dst, syns[k].now)
    }

    /** SYN `k` opens a destination that no SYN opened in the time before: by the whole
        history of verdicts, not by what the gate remembers. */
    ghost predicate FreshOpen(k: nat)
      requires k < |syns|
    {
      Opens(k) &&
      forall j: nat :: j < k && Opens(j) && syns[j].dst == syns[k].dst ==>
        syns[k].now - syns[j].now >= DESTINATION_MEMORY
    }

    ghost function Count(which: Kind, from: real, to: real, k: nat): (n: nat)
      requires k <= |syns|
    {
      if k == 0 then 0 else
        Count(which, from, to, k - 1) +
        if from <= syns[k - 1].now <= to && Counts(which, k - 1) then 1 else 0
    }

    ghost predicate Counts(which: Kind, k: nat)
      requires k < |syns|
    {
      match which
      case Every => Opens(k)
      case Costly => Charged(k)
      case Fresh => FreshOpen(k)
    }

    ghost function OpensIn(from: real, to: real, k: nat): (n: nat) requires k <= |syns| { Count(Every, from, to, k) }
    ghost function ChargedIn(from: real, to: real, k: nat): (n: nat) requires k <= |syns| { Count(Costly, from, to, k) }
    ghost function FreshIn(from: real, to: real, k: nat): (n: nat) requires k <= |syns| { Count(Fresh, from, to, k) }

    /** The draws the first `k` SYNs made on the bucket of `which`. */
    ghost function Draws(which: Kind, k: nat): (ds: seq<Draw>)
      requires k <= |syns|
    {
      if k == 0 then []
      else if Denied(k - 1) then Draws(which, k - 1)
      else Draws(which, k - 1) + [Draw(syns[k - 1].now, if Counts(which, k - 1) then 1.0 else 0.0)]
    }

    ghost function RateOf(which: Kind): (r: Rate) { if which.Every? then rate.connections else rate.destinations }
    ghost function LevelOf(which: Kind, p: Paced): (l: Level) { if which.Every? then p.connections else p.destinations }
  }

  lemma {:induction false} DrawsAreOrdered(t: Trial, which: Kind, k: nat)
    requires t.Ordered() && k <= |t.syns|
    ensures Ordered(t.start, t.Draws(which, k))
    ensures forall i :: 0 <= i < |t.Draws(which, k)| ==> k > 0 && t.Draws(which, k)[i].now <= t.syns[k - 1].now
  {
    hide Decided, Trial.At, Trial.VerdictOn, Trial.Counts;
    if k > 0 { DrawsAreOrdered(t, which, k - 1); }
  }

  /** A decision draws one token or none from each bucket, never into debt. */
  lemma DecisionDraws(rate: ConnectionRate, p: Paced, dst: Destination, now: real)
    requires p.connections.at <= now && p.destinations.at <= now
    requires p.connections.tokens >= 0.0 && p.destinations.tokens >= 0.0
    ensures var (q, v) := Decided(rate, p, dst, now);
            && q.connections == Drawn(rate.connections, p.connections, now, if v == Open then 1.0 else 0.0)
            && q.destinations == Drawn(rate.destinations, p.destinations, now,
                                       if v == Open && IsNew(p, dst, now) then 1.0 else 0.0)
            && q.connections.tokens >= 0.0 && q.destinations.tokens >= 0.0
  {
    FillGrows(rate.connections, 0.0, now - p.connections.at);
    FillGrows(rate.destinations, 0.0, now - p.destinations.at);
  }

  lemma {:induction false} NeverInDebt(t: Trial, k: nat)
    requires t.Ordered() && k <= |t.syns|
    ensures var p := t.At(k);
            && p.connections.tokens >= 0.0 && p.destinations.tokens >= 0.0
            && (forall i :: k <= i < |t.syns| ==>
                  p.connections.at <= t.syns[i].now && p.destinations.at <= t.syns[i].now)
  {
    hide Decided;
    if k > 0 {
      NeverInDebt(t, k - 1);
      DecisionDraws(t.rate, t.At(k - 1), t.syns[k - 1].dst, t.syns[k - 1].now);
    }
  }

  /** Each bucket of the gate is where its draws put it, and no draw takes it below zero. */
  lemma {:induction false} BucketFollowsDraws(t: Trial, which: Kind, k: nat)
    requires t.Ordered() && k <= |t.syns| && !which.Fresh?
    ensures var ds, l := t.Draws(which, k), Full(t.RateOf(which), t.start);
            && t.LevelOf(which, t.At(k)) == LevelAt(t.RateOf(which), l, ds, |ds|)
            && forall m: nat :: m <= |ds| ==> LevelAt(t.RateOf(which), l, ds, m).tokens >= 0.0
  {
    hide Decided;
    if k == 0 {
    } else {
      BucketFollowsDraws(t, which, k - 1);
      NeverInDebt(t, k - 1);
      NeverInDebt(t, k);
      if !t.Denied(k - 1) {
        DecisionDraws(t.rate, t.At(k - 1), t.syns[k - 1].dst, t.syns[k - 1].now);
        LevelsExtend(t.RateOf(which), Full(t.RateOf(which), t.start), t.Draws(which, k - 1),
                     t.Draws(which, k)[|t.Draws(which, k - 1)|]);
      }
    }
  }

  lemma LevelsExtend(rate: Rate, l: Level, ds: seq<Draw>, d: Draw)
    ensures forall m: nat :: m <= |ds| ==> LevelAt(rate, l, ds + [d], m) == LevelAt(rate, l, ds, m)
    ensures LevelAt(rate, l, ds + [d], |ds| + 1) == Drawn(rate, LevelAt(rate, l, ds, |ds|), d.now, d.n)
  {
    forall m: nat | m <= |ds| ensures LevelAt(rate, l, ds + [d], m) == LevelAt(rate, l, ds, m) {
      PrefixOnly(rate, l, ds, ds + [d], 0.0, 0.0, m);
    }
  }

  lemma {:induction false} CountIsSum(t: Trial, which: Kind, from: real, to: real, k: nat)
    requires k <= |t.syns|
    ensures t.Count(which, from, to, k) as real == SumIn(t.Draws(which, k), from, to, |t.Draws(which, k)|)
  {
    hide Decided, Trial.At, Trial.VerdictOn, Trial.Counts;
    if k > 0 {
      CountIsSum(t, which, from, to, k - 1);
      var ds, es := t.Draws(which, k - 1), t.Draws(which, k);
      if t.Denied(k - 1) {
        DeniedCountsForNothing(t, which, k - 1);
      } else {
        PrefixOnly(t.RateOf(which), Level(0.0, 0.0), ds, es, from, to, |ds|);
      }
    }
  }

  lemma DeniedCountsForNothing(t: Trial, which: Kind, k: nat)
    requires k < |t.syns| && t.Denied(k)
    ensures !t.Counts(which, k)
  {
    hide Decided, Trial.At;
  }

  lemma CountIsBounded(t: Trial, which: Kind, from: real, to: real)
    requires t.Ordered() && from <= to && !which.Fresh?
    ensures t.Count(which, from, to, |t.syns|) as real <= t.RateOf(which).Cap() + t.RateOf(which).Fill(to - from)
  {
    var k := |t.syns|;
    CountIsSum(t, which, from, to, k);
    DrawsAreOrdered(t, which, k);
    BucketFollowsDraws(t, which, k);
    WindowBound(t.RateOf(which), t.start, t.Draws(which, k), from, to, |t.Draws(which, k)|);
  }

  /** In any window of time, no more connections open than the burst and what the rate
      allows over the window. */
  lemma OpensAreBounded(t: Trial, from: real, to: real)
    requires t.Ordered() && from <= to
    ensures t.OpensIn(from, to, |t.syns|) as real
              <= t.rate.connections.Cap() + t.rate.connections.Fill(to - from)
  {
    CountIsBounded(t, Every, from, to);
  }

  // ---------------------------------------------------------------------
  // The memory against the whole history
  // ---------------------------------------------------------------------

  ghost predicate Remembered(t: Trial, k: nat, e: Entry)
    requires k <= |t.syns|
  {
    exists j: nat :: j < k && t.Opens(j) && t.syns[j] == Syn(e.dst, e.at)
  }

  lemma {:induction false} WithoutKeeps(c: Cache, dst: Destination)
    ensures forall e :: e in Without(c, dst) <==> e in c && e.dst != dst
    ensures |Without(c, dst)| <= |c|
  {
    if c != [] {
      WithoutKeeps(c[1..], dst);
      assert c == [c[0]] + c[1..];
    }
  }

  lemma {:induction false} LookupFinds(c: Cache, dst: Destination)
    ensures match Lookup(c, dst)
            case Some(at) => Entry(dst, at) in c
            case None => forall e :: e in c ==> e.dst != dst
  {
    if c != [] {
      LookupFinds(c[1..], dst);
      assert c == [c[0]] + c[1..];
    }
  }

  lemma DecisionRemembers(rate: ConnectionRate, p: Paced, dst: Destination, now: real)
    ensures var (q, v) := Decided(rate, p, dst, now);
            forall e :: e in q.reached ==> e in p.reached || (v == Open && e == Entry(dst, now))
  {
    LookupFinds(p.reached, dst);
    WithoutKeeps(p.reached, dst);
    WithoutKeeps(Used(p.reached, dst), dst);
  }

  /** Every entry the gate remembers is a connection that did open then. */
  lemma {:induction false} MemoryIsHistory(t: Trial, k: nat)
    requires k <= |t.syns|
    ensures forall e :: e in t.At(k).reached ==> Remembered(t, k, e)
  {
    hide Decided, Trial.VerdictOn;
    if k > 0 {
      MemoryIsHistory(t, k - 1);
      OneMoreRemembered(t, k - 1);
      hide Trial.At;
      forall e | e in t.At(k).reached ensures Remembered(t, k, e) {
        if e in t.At(k - 1).reached {
          var j: nat :| j < k - 1 && t.Opens(j) && t.syns[j] == Syn(e.dst, e.at);
        } else {
          assert t.Opens(k - 1) && t.syns[k - 1] == Syn(e.dst, e.at);
        }
      }
    }
  }

  lemma OneMoreRemembered(t: Trial, k: nat)
    requires k < |t.syns|
    ensures forall e :: e in t.At(k + 1).reached ==>
              e in t.At(k).reached || (t.Opens(k) && t.syns[k] == Syn(e.dst, e.at))
  {
    hide Decided;
    DecisionRemembers(t.rate, t.At(k), t.syns[k].dst, t.syns[k].now);
  }

  /** A destination fresh by the whole history is always charged: forgetting one early can
      only cost a token more. */
  lemma FreshIsCharged(t: Trial, k: nat)
    requires t.Ordered() && k < |t.syns| && t.FreshOpen(k)
    ensures t.Charged(k)
  {
    MemoryIsHistory(t, k);
    var c, syn := t.At(k).reached, t.syns[k];
    LookupFinds(c, syn.dst);
    match Lookup(c, syn.dst) {
      case None =>
      case Some(at) =>
        assert Remembered(t, k, Entry(syn.dst, at));
        var j: nat :| j < k && t.Opens(j) && t.syns[j] == Syn(syn.dst, at);
    }
  }

  lemma {:induction false} FreshCountsLess(t: Trial, from: real, to: real, k: nat)
    requires t.Ordered() && k <= |t.syns|
    ensures t.FreshIn(from, to, k) <= t.ChargedIn(from, to, k)
  {
    hide Decided, Trial.At, Trial.VerdictOn, Trial.FreshOpen, Trial.Charged;
    if k > 0 {
      FreshCountsLess(t, from, to, k - 1);
      if t.FreshOpen(k - 1) { FreshIsCharged(t, k - 1); }
    }
  }

  /** In any window, destinations not opened in the ten minutes before open no faster than
      the destinations rate, whatever the memory has evicted. */
  lemma FreshDestinationsAreBounded(t: Trial, from: real, to: real)
    requires t.Ordered() && from <= to
    ensures t.FreshIn(from, to, |t.syns|) as real
              <= t.rate.destinations.Cap() + t.rate.destinations.Fill(to - from)
  {
    FreshCountsLess(t, from, to, |t.syns|);
    CountIsBounded(t, Costly, from, to);
  }

  // ---------------------------------------------------------------------
  // What is remembered, and what is forgotten
  // ---------------------------------------------------------------------

  /** SYN `k` opens its destination, or finds it remembered: a lookup counts as a use. */
  ghost predicate Touches(t: Trial, k: nat)
    requires k < |t.syns|
  {
    !t.Denied(k) && (t.Opens(k) || Lookup(t.At(k).reached, t.syns[k].dst).Some?)
  }

  ghost function Others(ds: seq<Destination>, d: Destination): (r: seq<Destination>)
  {
    if ds == [] then [] else (if ds[0] == d then [] else [ds[0]]) + Others(ds[1..], d)
  }

  /** Every destination ever used, the latest first. */
  ghost function Recent(t: Trial, k: nat): (r: seq<Destination>)
    requires k <= |t.syns|
  {
    if k == 0 then []
    else if Touches(t, k - 1) then [t.syns[k - 1].dst] + Others(Recent(t, k - 1), t.syns[k - 1].dst)
    else Recent(t, k - 1)
  }

  /** When the destination last opened, before SYN `k`. */
  ghost function LatestOpen(t: Trial, k: nat, d: Destination): (at: Option<real>)
    requires k <= |t.syns|
  {
    if k == 0 then None
    else if t.Opens(k - 1) && t.syns[k - 1].dst == d then Some(t.syns[k - 1].now)
    else LatestOpen(t, k - 1, d)
  }

  /** The other destinations used since this one last was. */
  ghost function Since(t: Trial, k: nat, d: Destination): (r: set<Destination>)
    requires k <= |t.syns|
  {
    if k == 0 then {}
    else if !Touches(t, k - 1) then Since(t, k - 1, d)
    else if t.syns[k - 1].dst == d then {}
    else Since(t, k - 1, d) + {t.syns[k - 1].dst}
  }

  ghost function Dsts(c: Cache): (r: seq<Destination>)
  {
    seq(|c|, i requires 0 <= i < |c| => c[i].dst)
  }

  ghost predicate Distinct(ds: seq<Destination>)
  {
    forall i, j :: 0 <= i < j < |ds| ==> ds[i] != ds[j]
  }

  ghost function First(ds: seq<Destination>): (r: seq<Destination>)
  {
    if |ds| <= DESTINATIONS_KEPT then ds else ds[..DESTINATIONS_KEPT]
  }

  lemma {:induction false} OthersAre(ds: seq<Destination>, d: Destination)
    requires Distinct(ds)
    ensures Distinct(Others(ds, d)) && forall x :: x in Others(ds, d) <==> x in ds && x != d
    ensures d !in ds ==> Others(ds, d) == ds
    ensures d in ds ==> |Others(ds, d)| == |ds| - 1
  {
    if ds != [] {
      OthersAre(ds[1..], d);
      assert ds == [ds[0]] + ds[1..];
      var rest := Others(ds[1..], d);
      forall i | 0 <= i < |rest| ensures rest[i] != ds[0] { assert rest[i] in rest; }
    }
  }

  lemma {:induction false} OthersAdd(a: seq<Destination>, b: seq<Destination>, d: Destination)
    ensures Others(a + b, d) == Others(a, d) + Others(b, d)
  {
    if a == [] {
      assert a + b == b;
    } else {
      OthersAdd(a[1..], b, d);
      assert (a + b)[1..] == a[1..] + b && (a + b)[0] == a[0];
      var first := if a[0] == d then [] else [a[0]];
      assert first + (Others(a[1..], d) + Others(b, d)) == (first + Others(a[1..], d)) + Others(b, d);
    }
  }

  lemma {:induction false} WithoutDsts(c: Cache, d: Destination)
    ensures Dsts(Without(c, d)) == Others(Dsts(c), d)
  {
    if c != [] {
      WithoutDsts(c[1..], d);
      assert Dsts(c)[1..] == Dsts(c[1..]);
    }
  }

  lemma {:induction false} WithoutNone(c: Cache, d: Destination)
    requires forall e :: e in c ==> e.dst != d
    ensures Without(c, d) == c
  {
    if c != [] {
      assert c[0] in c;
      WithoutNone(c[1..], d);
    }
  }

  lemma UsedThenWithout(c: Cache, d: Destination)
    ensures Without(Used(c, d), d) == Without(c, d)
  {
    if Lookup(c, d).Some? {
      WithoutKeeps(c, d);
      WithoutNone(Without(c, d), d);
      var e := Entry(d, Lookup(c, d).value);
      assert ([e] + Without(c, d))[1..] == Without(c, d);
    }
  }

  lemma InDsts(c: Cache, d: Destination)
    ensures Lookup(c, d).Some? <==> d in Dsts(c)
  {
    LookupFinds(c, d);
    if Lookup(c, d).Some? {
      var i :| 0 <= i < |c| && c[i] == Entry(d, Lookup(c, d).value);
      assert Dsts(c)[i] == d;
    } else {
      forall i | 0 <= i < |c| ensures Dsts(c)[i] != d { assert c[i] in c; }
    }
  }

  /** The first of a list with `d` moved to its front, when `d` is among the first. */
  lemma FrontMoves(ds: seq<Destination>, d: Destination)
    requires Distinct(ds) && d in First(ds)
    ensures [d] + Others(First(ds), d) == First([d] + Others(ds, d))
  {
    var a, b := First(ds), ds[|First(ds)|..];
    assert ds == a + b;
    OthersAdd(a, b, d);
    OthersAre(a, d);
    OthersAre(ds, d);
  }

  /** And when it is not: it pushes the last of a full list out. */
  lemma FrontPushes(ds: seq<Destination>, d: Destination)
    requires Distinct(ds) && d !in First(ds)
    ensures [d] + (if |First(ds)| < DESTINATIONS_KEPT then First(ds) else First(ds)[..DESTINATIONS_KEPT - 1])
         == First([d] + Others(ds, d))
  {
    var a, b := First(ds), ds[|First(ds)|..];
    assert ds == a + b;
    OthersAdd(a, b, d);
    OthersAre(a, d);
    assert |a| < DESTINATIONS_KEPT ==> b == [];
  }

  /** The memory is the first of the destinations used, each with its latest open. */
  ghost predicate IsMemory(t: Trial, k: nat, c: Cache)
    requires k <= |t.syns|
  {
    && Distinct(Recent(t, k)) && Dsts(c) == First(Recent(t, k))
    && forall e :: e in c ==> LatestOpen(t, k, e.dst) == Some(e.at)
  }

  lemma CacheMoves(c: Cache, dst: Destination, now: real, ds: seq<Destination>)
    requires Distinct(ds) && Dsts(c) == First(ds) && Lookup(c, dst).Some?
    ensures Dsts(Used(c, dst)) == First([dst] + Others(ds, dst))
    ensures Dsts(Put(Used(c, dst), dst, now)) == First([dst] + Others(ds, dst))
  {
    hide Others, First, Distinct;
    InDsts(c, dst);
    WithoutDsts(c, dst);
    UsedThenWithout(c, dst);
    FrontMoves(ds, dst);
    ShorterWithout(Dsts(c), ds, dst);
    DstsOfOneMore(Entry(dst, now), Without(c, dst));
    DstsOfOneMore(Entry(dst, Lookup(c, dst).value), Without(c, dst));
  }

  lemma CachePushes(c: Cache, dst: Destination, now: real, ds: seq<Destination>)
    requires Distinct(ds) && Dsts(c) == First(ds) && Lookup(c, dst).None?
    ensures Used(c, dst) == c && Dsts(Put(c, dst, now)) == First([dst] + Others(ds, dst))
  {
    hide Others, First, Distinct;
    InDsts(c, dst);
    LookupFinds(c, dst);
    WithoutNone(c, dst);
    FrontPushes(ds, dst);
    var kept := if |c| < DESTINATIONS_KEPT then c else c[..DESTINATIONS_KEPT - 1];
    DstsOfOneMore(Entry(dst, now), kept);
    assert |c| >= DESTINATIONS_KEPT ==> Dsts(kept) == Dsts(c)[..DESTINATIONS_KEPT - 1];
  }

  lemma DstsOfOneMore(e: Entry, c: Cache)
    ensures Dsts([e] + c) == [e.dst] + Dsts(c)
  {
  }

  /** What a decision makes of the memory's destinations. */
  lemma DecisionMoves(rate: ConnectionRate, p: Paced, dst: Destination, now: real, ds: seq<Destination>)
    requires Distinct(ds) && Dsts(p.reached) == First(ds)
    ensures var (q, v) := Decided(rate, p, dst, now);
            && v != Refuse
            && (v == Open || Lookup(p.reached, dst).Some? ==> Dsts(q.reached) == First([dst] + Others(ds, dst)))
            && (v != Open && Lookup(p.reached, dst).None? ==> q.reached == p.reached)
  {
    hide Refilled, Others, First, Distinct, Dsts, Used, Put, Lookup, IsNew;
    if Lookup(p.reached, dst).Some? {
      CacheMoves(p.reached, dst, now, ds);
    } else {
      CachePushes(p.reached, dst, now, ds);
    }
  }

  lemma ShorterWithout(a: seq<Destination>, ds: seq<Destination>, d: Destination)
    requires Distinct(ds) && a == First(ds) && d in a
    ensures |Others(a, d)| < DESTINATIONS_KEPT
  {
    OthersAre(a, d);
  }

  /** The times a decision leaves in the memory. */
  lemma DecisionTimes(rate: ConnectionRate, p: Paced, dst: Destination, now: real)
    ensures var (q, v) := Decided(rate, p, dst, now);
            forall e :: e in q.reached ==> if v == Open && e.dst == dst then e.at == now else e in p.reached
  {
    LookupFinds(p.reached, dst);
    WithoutKeeps(p.reached, dst);
    WithoutKeeps(Used(p.reached, dst), dst);
  }

  lemma {:induction false} MemoryIsTheMostRecent(t: Trial, k: nat)
    requires k <= |t.syns|
    ensures IsMemory(t, k, t.At(k).reached)
  {
    hide Decided, First, Others, Trial.VerdictOn;
    if k == 0 {
      assert First([]) == [] by { NoneFirst(); }
      assert Dsts([]) == [];
    } else {
      MemoryIsTheMostRecent(t, k - 1);
      OneMoreUsed(t, k - 1);
    }
  }

  lemma NoneFirst()
    ensures First([]) == []
  {
  }

  lemma OneMoreUsed(t: Trial, k: nat)
    requires k < |t.syns| && IsMemory(t, k, t.At(k).reached)
    ensures IsMemory(t, k + 1, t.At(k + 1).reached)
  {
    hide Decided, First, Others;
    var p, syn, ds := t.At(k), t.syns[k], Recent(t, k);
    if !t.Denied(k) {
      DecisionMoves(t.rate, p, syn.dst, syn.now, ds);
      DecisionTimes(t.rate, p, syn.dst, syn.now);
      FrontIsDistinct(ds, syn.dst);
    }
  }

  lemma FrontIsDistinct(ds: seq<Destination>, d: Destination)
    requires Distinct(ds)
    ensures Distinct([d] + Others(ds, d))
    ensures forall x :: x in [d] + Others(ds, d) <==> x == d || x in ds
  {
    OthersAre(ds, d);
    var rest := Others(ds, d);
    forall i | 0 <= i < |rest| ensures rest[i] != d { assert rest[i] in rest; }
  }

  ghost function SetOf(ds: seq<Destination>): (r: set<Destination>)
  {
    set i | 0 <= i < |ds| :: ds[i]
  }

  lemma {:induction false} SetOfCount(ds: seq<Destination>)
    requires Distinct(ds)
    ensures |SetOf(ds)| == |ds|
  {
    if ds != [] {
      SetOfCount(ds[1..]);
      assert SetOf(ds) == {ds[0]} + SetOf(ds[1..]);
      assert ds[0] !in SetOf(ds[1..]);
    }
  }

  /** What is in front of `d` in `ds`. */
  ghost function Before(ds: seq<Destination>, d: Destination): (r: seq<Destination>)
  {
    if ds == [] || ds[0] == d then [] else [ds[0]] + Before(ds[1..], d)
  }

  lemma {:induction false} BeforeIs(ds: seq<Destination>, d: Destination)
    ensures Before(ds, d) <= ds && d !in Before(ds, d)
    ensures d in ds <==> |Before(ds, d)| < |ds|
    ensures d in ds ==> ds[|Before(ds, d)|] == d
  {
    if ds != [] && ds[0] != d {
      BeforeIs(ds[1..], d);
      assert ds == [ds[0]] + ds[1..];
    }
  }

  /** Moving another destination to the front puts it before `d` and nothing else. */
  lemma {:induction false} BeforeAfterMove(ds: seq<Destination>, x: Destination, d: Destination)
    requires x != d
    ensures forall y :: y in Before(Others(ds, x), d) <==> y in Before(ds, d) && y != x
  {
    if ds != [] {
      BeforeAfterMove(ds[1..], x, d);
      BeforeFront(ds[0], ds[1..], d);
      BeforeFront(ds[0], Others(ds[1..], x), d);
      assert ds == [ds[0]] + ds[1..];
      assert ds[0] == x ==> Others(ds, x) == [] + Others(ds[1..], x) == Others(ds[1..], x);
    }
  }

  lemma {:induction false} SinceIsBefore(t: Trial, k: nat, d: Destination)
    requires k <= |t.syns|
    ensures forall y :: y in Since(t, k, d) <==> y in Before(Recent(t, k), d)
  {
    hide Touches, Others, Before;
    if k == 0 {
      BeforeIs([], d);
    } else {
      SinceIsBefore(t, k - 1, d);
      if Touches(t, k - 1) {
        var x, ds := t.syns[k - 1].dst, Recent(t, k - 1);
        BeforeFront(x, Others(ds, x), d);
        if x != d {
          BeforeAfterMove(ds, x, d);
        }
      }
    }
  }

  lemma BeforeFront(x: Destination, rest: seq<Destination>, d: Destination)
    ensures Before([x] + rest, d) == if x == d then [] else [x] + Before(rest, d)
  {
    assert ([x] + rest)[1..] == rest;
  }

  /** The first of the destinations used holds `d` exactly when it was used and fewer others
      were since than the memory keeps. */
  lemma AmongTheFirst(t: Trial, k: nat, d: Destination)
    requires k <= |t.syns| && Distinct(Recent(t, k))
    ensures d in First(Recent(t, k)) <==> d in Recent(t, k) && |Since(t, k, d)| < DESTINATIONS_KEPT
  {
    hide Recent, Since, Before;
    var ds := Recent(t, k);
    var before := Before(ds, d);
    BeforeIs(ds, d);
    SinceIsBefore(t, k, d);
    assert before == ds[..|before|];
    assert Distinct(before);
    SetOfCount(before);
    assert SetOf(before) == Since(t, k, d);
    if d in ds && |before| < DESTINATIONS_KEPT {
      assert First(ds)[|before|] == d;
    }
    if d in First(ds) {
      var i :| 0 <= i < |First(ds)| && First(ds)[i] == d;
      assert ds[i] == d && i == |before|;
    }
  }

  lemma {:induction false} UsedIsOpened(t: Trial, k: nat, d: Destination)
    requires k <= |t.syns|
    ensures d in Recent(t, k) <==> LatestOpen(t, k, d).Some?
  {
    hide Decided, Others, Trial.VerdictOn;
    if k > 0 {
      UsedIsOpened(t, k - 1, d);
      MemoryIsTheMostRecent(t, k - 1);
      var x, c := t.syns[k - 1].dst, t.At(k - 1).reached;
      FrontIsDistinct(Recent(t, k - 1), x);
      LookupFinds(c, x);
      assert t.Opens(k - 1) ==> !t.Denied(k - 1) by { OpenIsNotDenied(t, k - 1); }
    }
  }

  lemma OpenIsNotDenied(t: Trial, k: nat)
    requires k < |t.syns|
    ensures t.Opens(k) ==> !t.Denied(k)
  {
  }

  /** In every run of SYNs, a destination is remembered exactly when it opened and fewer others
      than the memory keeps were opened, or found again, since it last was; and it is remembered
      at its latest open. */
  lemma MemoryIsComplete(t: Trial, k: nat, d: Destination)
    requires k <= |t.syns|
    ensures Lookup(t.At(k).reached, d) ==
            if |Since(t, k, d)| < DESTINATIONS_KEPT then LatestOpen(t, k, d) else None
  {
    hide Decided, First, Trial.At, Recent, Since, LatestOpen;
    var c := t.At(k).reached;
    MemoryIsTheMostRecent(t, k);
    AmongTheFirst(t, k, d);
    UsedIsOpened(t, k, d);
    InDsts(c, d);
    LookupFinds(c, d);
  }

  lemma {:induction false} LatestOpenIsLatest(t: Trial, k: nat, d: Destination)
    requires t.Ordered() && k <= |t.syns|
    ensures match LatestOpen(t, k, d)
            case None => forall j: nat :: j < k && t.syns[j].dst == d ==> !t.Opens(j)
            case Some(at) =>
              && (exists j: nat :: j < k && t.Opens(j) && t.syns[j] == Syn(d, at))
              && (forall j: nat :: j < k && t.Opens(j) && t.syns[j].dst == d ==> t.syns[j].now <= at)
  {
    hide Decided, Trial.At, Trial.VerdictOn, Trial.Opens;
    if k > 0 {
      LatestOpenIsLatest(t, k - 1, d);
      if t.Opens(k - 1) && t.syns[k - 1].dst == d {
        assert t.syns[k - 1] == Syn(d, t.syns[k - 1].now);
      }
    }
  }

  /** The destination of SYN `k` did not open in the time before, or as many others were used
      since it last was as the memory keeps. */
  ghost predicate NewByHistory(t: Trial, k: nat)
    requires k < |t.syns|
  {
    || |Since(t, k, t.syns[k].dst)| >= DESTINATIONS_KEPT
    || forall j: nat :: j < k && t.Opens(j) && t.syns[j].dst == t.syns[k].dst ==>
         t.syns[k].now - t.syns[j].now >= DESTINATION_MEMORY
  }

  lemma NewExactlyByHistory(t: Trial, k: nat)
    requires t.Ordered() && k < |t.syns|
    ensures IsNew(t.At(k), t.syns[k].dst, t.syns[k].now) <==> NewByHistory(t, k)
  {
    hide Decided, Trial.At, Trial.VerdictOn, LatestOpen, Since;
    MemoryIsComplete(t, k, t.syns[k].dst);
    LatestOpenIsLatest(t, k, t.syns[k].dst);
  }

  /** A SYN that opens costs a token of `destinations` exactly when its destination is fresh by
      the whole history, or as many others were used since it last was as the memory keeps. */
  lemma ChargedExactlyWhenFresh(t: Trial, k: nat)
    requires t.Ordered() && k < |t.syns| && t.Opens(k)
    ensures t.Charged(k) <==> t.FreshOpen(k) || |Since(t, k, t.syns[k].dst)| >= DESTINATIONS_KEPT
  {
    hide Decided, Trial.At, Trial.VerdictOn, Since;
    NewExactlyByHistory(t, k);
  }

  // ---------------------------------------------------------------------
  // When a SYN is held back
  // ---------------------------------------------------------------------

  /** Opening SYN `k` would put the window from `from` over what its bucket allows. */
  ghost predicate WouldBeOver(t: Trial, which: Kind, k: nat, from: real)
    requires k < |t.syns|
  {
    from <= t.syns[k].now &&
    t.Count(which, from, t.syns[k].now, k) as real + 1.0 >
      t.RateOf(which).Cap() + t.RateOf(which).Fill(t.syns[k].now - from)
  }

  /** The draws before SYN `k`, then a look at the bucket that takes nothing. */
  ghost function Probe(t: Trial, which: Kind, k: nat): (ds: seq<Draw>)
    requires k < |t.syns|
  {
    t.Draws(which, k) + [Draw(t.syns[k].now, 0.0)]
  }

  lemma ProbeIsOrdered(t: Trial, which: Kind, k: nat)
    requires t.Ordered() && k < |t.syns|
    ensures Ordered(t.start, Probe(t, which, k))
  {
    DrawsAreOrdered(t, which, k);
  }

  lemma ProbeCounts(t: Trial, which: Kind, k: nat, from: real)
    requires t.Ordered() && k < |t.syns|
    ensures WindowOver(t.RateOf(which), Probe(t, which, k), from, |Probe(t, which, k)|, 1.0)
            <==> WouldBeOver(t, which, k, from)
  {
    var ds, es, now := t.Draws(which, k), Probe(t, which, k), t.syns[k].now;
    PrefixOnly(t.RateOf(which), Level(0.0, 0.0), ds, es, from, now, |ds|);
    CountIsSum(t, which, from, now, k);
  }

  lemma ShortOfAToken(t: Trial, which: Kind, k: nat)
    requires t.Ordered() && k < |t.syns| && !which.Fresh?
    ensures Refilled(t.RateOf(which), t.LevelOf(which, t.At(k)), t.syns[k].now).tokens < 1.0
            <==> exists from :: WouldBeOver(t, which, k, from)
  {
    var rate, es := t.RateOf(which), Probe(t, which, k);
    BucketFollowsDraws(t, which, k);
    LevelsExtend(rate, Full(rate, t.start), t.Draws(which, k), es[|es| - 1]);
    ProbeIsOrdered(t, which, k);
    ShortExactlyWhenOver(rate, t.start, es, |es|, 1.0);
    if from :| WindowOver(rate, es, from, |es|, 1.0) {
      ProbeCounts(t, which, k, from);
    }
    if from :| WouldBeOver(t, which, k, from) {
      ProbeCounts(t, which, k, from);
    }
  }

  /** A SYN is refused exactly when its port is denied, and held back exactly when opening
      it would put some window over the connections rate, or over the destinations rate
      when its destination is new by the history. */
  lemma HeldBackExactlyWhenOver(t: Trial, k: nat)
    requires t.Ordered() && k < |t.syns|
    ensures t.VerdictOn(k) == Refuse <==> t.Denied(k)
    ensures t.VerdictOn(k) == Wait <==>
            !t.Denied(k) &&
            ((exists from :: WouldBeOver(t, Every, k, from)) ||
             (NewByHistory(t, k) && exists from :: WouldBeOver(t, Costly, k, from)))
  {
    ShortOfAToken(t, Every, k);
    ShortOfAToken(t, Costly, k);
    NewExactlyByHistory(t, k);
    hide Since, Trial.At, IsNew;
  }
}
