/** The bytes the guest sends out, in all and at a pace. */
module Egress {
  import opened Common
  import opened Pacing

  /** How far the pace lets the guest run ahead before bytes are held back. */
  const EGRESS_SLACK: real := 0.01
  /** The byte counter is 64 bits wide and wraps. */
  const COUNTER_MODULUS: nat := 0x1_0000_0000_0000_0000

  class Egress {
    var bytes: nat
    const pace: TokenBucket?

    constructor (rate: Option<Rate>, now: real)
      ensures bytes == 0
      ensures pace != null <==> rate.Some? && rate.value.perSecond > 0
      ensures pace != null ==> fresh(pace) && pace.rate == rate.value && pace.View() == Full(rate.value, now)
    {
      bytes := 0;
      if rate.Some? && rate.value.perSecond > 0 {
        pace := new TokenBucket(rate.value, now);
      } else {
        pace := null;
      }
    }

    /** Spends `n` bytes of the pace, and answers how long to hold them back. */
    method Spend(n: nat, now: real) returns (wait: Option<real>)
      requires pace != null ==> pace.rate.perSecond > 0
      modifies pace
      ensures pace == null ==> wait == None
      ensures pace != null ==>
                && pace.View() == Drawn(pace.rate, old(pace.View()), now, n as real)
                && wait == Hold(pace.rate, pace.View(), EGRESS_SLACK)
    {
      if pace == null {
        wait := None;
      } else {
        wait := pace.Owe(n as real, now, EGRESS_SLACK);
      }
    }

    method Sent(n: nat)
      modifies this`bytes
      ensures bytes == (old(bytes) + n) % COUNTER_MODULUS
    {
      bytes := (bytes + n) % COUNTER_MODULUS;
    }
  }

  // ---------------------------------------------------------------------
  // Runs: each draw is one payload, released at its spend time plus its hold
  // ---------------------------------------------------------------------

  ghost function HeldFor(rate: Rate, start: real, ds: seq<Draw>, k: nat): (r: Option<real>)
    requires rate.perSecond > 0 && k < |ds|
  {
    Hold(rate, LevelAt(rate, Full(rate, start), ds, k + 1), EGRESS_SLACK)
  }

  ghost function ReleaseTime(rate: Rate, start: real, ds: seq<Draw>, k: nat): (r: real)
    requires rate.perSecond > 0 && k < |ds|
  {
    match HeldFor(rate, start, ds, k)
    case Some(delay) => ds[k].now + delay
    case None => ds[k].now
  }

  /** Payload `i` leaves at `lefts[i]`: at the first poll once it is due. */
  ghost predicate Leave(rate: Rate, start: real, ds: seq<Draw>, lefts: seq<real>)
    requires rate.perSecond > 0
  {
    |lefts| == |ds| && forall i :: 0 <= i < |ds| ==> ReleaseTime(rate, start, ds, i) <= lefts[i]
  }

  /** And at most `late` after that. */
  ghost predicate LeaveBy(rate: Rate, start: real, ds: seq<Draw>, lefts: seq<real>, late: real)
    requires rate.perSecond > 0 && |lefts| == |ds|
  {
    forall i :: 0 <= i < |ds| ==> lefts[i] <= ReleaseTime(rate, start, ds, i) + late
  }

  /** The bytes, among the first `k` payloads, that leave between `from` and `to`. */
  ghost function LeftIn(ds: seq<Draw>, lefts: seq<real>, from: real, to: real, k: nat): (r: real)
    requires k <= |ds| == |lefts|
  {
    if k == 0 then 0.0 else
      LeftIn(ds, lefts, from, to, k - 1) + if from <= lefts[k - 1] <= to then ds[k - 1].n else 0.0
  }

  /** The bytes, among the first `k` payloads, that are due between `from` and `to`. */
  ghost function Released(rate: Rate, start: real, ds: seq<Draw>, from: real, to: real, k: nat): (r: real)
    requires rate.perSecond > 0 && k <= |ds|
  {
    if k == 0 then 0.0 else
      Released(rate, start, ds, from, to, k - 1) +
      (if from <= ReleaseTime(rate, start, ds, k - 1) <= to then ds[k - 1].n else 0.0)
  }

  lemma Debt(rate: Rate, start: real, ds: seq<Draw>, k: nat)
    requires rate.perSecond > 0 && k < |ds|
    ensures var now := LevelAt(rate, Full(rate, start), ds, k + 1);
            && now.at == ds[k].now
            && match HeldFor(rate, start, ds, k)
               case Some(delay) => -now.tokens == rate.Fill(delay) && delay > EGRESS_SLACK
               case None => -now.tokens <= rate.Fill(EGRESS_SLACK)
  {
    var now := LevelAt(rate, Full(rate, start), ds, k + 1);
    var r := rate.perSecond as real;
    var owed := -now.tokens / r;
    assert r * owed == -now.tokens;
    if owed <= EGRESS_SLACK {
      FillGrows(rate, owed, EGRESS_SLACK);
    }
  }

  /** A payload gone by `to` leaves a debt that the time up to `to`, with the slack, pays back. */
  lemma DebtIsPaid(rate: Rate, start: real, ds: seq<Draw>, k: nat, to: real)
    requires rate.perSecond > 0 && k < |ds|
    requires ReleaseTime(rate, start, ds, k) <= to
    ensures ds[k].now <= to
    ensures -LevelAt(rate, Full(rate, start), ds, k + 1).tokens
              <= rate.Fill(to - ds[k].now) + rate.Fill(EGRESS_SLACK)
  {
    Debt(rate, start, ds, k);
    FillGrows(rate, 0.0, EGRESS_SLACK);
    match HeldFor(rate, start, ds, k) {
      case Some(delay) => FillGrows(rate, delay, to - ds[k].now);
      case None => FillGrows(rate, 0.0, to - ds[k].now);
    }
  }

  /** Payloads leaving in a window lie between a first and a last one that do. */
  lemma {:induction false} ReleasedSpan(rate: Rate, start: real, ds: seq<Draw>, from: real, to: real, k: nat)
    returns (i: nat, m: nat)
    requires rate.perSecond > 0 && Ordered(start, ds) && k <= |ds|
    ensures i <= m <= k
    ensures i == m ==> Released(rate, start, ds, from, to, k) == 0.0
    ensures i < m ==>
              && from <= ReleaseTime(rate, start, ds, i) <= to
              && from <= ReleaseTime(rate, start, ds, m - 1) <= to
              && Released(rate, start, ds, from, to, k) <= Sum(ds, i, m)
  {
    if k == 0 {
      i, m := 0, 0;
    } else {
      i, m := ReleasedSpan(rate, start, ds, from, to, k - 1);
      if from <= ReleaseTime(rate, start, ds, k - 1) <= to {
        if i == m { i := k - 1; m := k - 1; }
        SumSplits(ds, i, m, k - 1);
        SumNonNegative(start, ds, m, k - 1);
        m := k;
      }
    }
  }

  /** What leaves in a window was due in one that opens earlier by the latest poll. */
  lemma {:induction false} LeftWasDue(rate: Rate, start: real, ds: seq<Draw>, lefts: seq<real>,
                                      from: real, to: real, open: real, k: nat)
    requires rate.perSecond > 0 && Ordered(start, ds) && Leave(rate, start, ds, lefts) && k <= |ds|
    requires forall i :: 0 <= i < |ds| && from <= lefts[i] ==> open <= ReleaseTime(rate, start, ds, i)
    ensures LeftIn(ds, lefts, from, to, k) <= Released(rate, start, ds, open, to, k)
  {
    hide ReleaseTime;
    if k > 0 {
      LeftWasDue(rate, start, ds, lefts, from, to, open, k - 1);
    }
  }

  lemma DueAfterStart(rate: Rate, start: real, ds: seq<Draw>, k: nat)
    requires rate.perSecond > 0 && Ordered(start, ds) && k < |ds|
    ensures start <= ReleaseTime(rate, start, ds, k)
  {
    Debt(rate, start, ds, k);
  }

  /** By any time `to`, no more has left than the burst, what the pace allows since the
      start, and the slack: however deep in debt the bucket went, in whatever order the holds
      ran out, and however late each payload was polled. */
  lemma ReleasedSinceStart(rate: Rate, start: real, ds: seq<Draw>, lefts: seq<real>, to: real)
    requires rate.perSecond > 0 && Ordered(start, ds) && start <= to && Leave(rate, start, ds, lefts)
    ensures LeftIn(ds, lefts, start, to, |ds|) <= rate.Cap() + rate.Fill(to - start) + rate.Fill(EGRESS_SLACK)
  {
    hide ReleaseTime;
    DueSinceStart(rate, start, ds, to);
    forall i | 0 <= i < |ds| ensures start <= ReleaseTime(rate, start, ds, i) {
      DueAfterStart(rate, start, ds, i);
    }
    LeftWasDue(rate, start, ds, lefts, start, to, start, |ds|);
  }

  lemma DueSinceStart(rate: Rate, start: real, ds: seq<Draw>, to: real)
    requires rate.perSecond > 0 && Ordered(start, ds) && start <= to
    ensures Released(rate, start, ds, start, to, |ds|)
              <= rate.Cap() + rate.Fill(to - start) + rate.Fill(EGRESS_SLACK)
  {
    var l := Full(rate, start);
    var i, m := ReleasedSpan(rate, start, ds, start, to, |ds|);
    FillGrows(rate, 0.0, to - start);
    FillGrows(rate, 0.0, EGRESS_SLACK);
    if i < m {
      SinceLevel(rate, l, ds, 0, m);
      SumSplits(ds, 0, i, m);
      SumNonNegative(start, ds, 0, i);
      DebtIsPaid(rate, start, ds, m - 1, to);
      FillSplits(rate, start, ds[m - 1].now, to);
    }
  }

  /** In any window at all, no more leaves than the pace allows over the window and the time a
      payload waits for its poll, the slack, and one burst or one payload, whichever is larger. */
  lemma ReleasedInWindow(rate: Rate, start: real, ds: seq<Draw>, lefts: seq<real>, late: real,
                         from: real, to: real, largest: real)
    requires rate.perSecond > 0 && Ordered(start, ds) && from <= to && 0.0 <= late
    requires Leave(rate, start, ds, lefts) && LeaveBy(rate, start, ds, lefts, late)
    requires rate.Cap() <= largest && forall i :: 0 <= i < |ds| ==> ds[i].n <= largest
    ensures LeftIn(ds, lefts, from, to, |ds|) <= largest + rate.Fill(to - from + late) + rate.Fill(EGRESS_SLACK)
  {
    hide ReleaseTime;
    DueInWindow(rate, start, ds, from - late, to, largest);
    LeftWasDue(rate, start, ds, lefts, from, to, from - late, |ds|);
    assert to - (from - late) == to - from + late;
  }

  lemma DueInWindow(rate: Rate, start: real, ds: seq<Draw>, from: real, to: real, largest: real)
    requires rate.perSecond > 0 && Ordered(start, ds) && from <= to
    requires rate.Cap() <= largest && forall i :: 0 <= i < |ds| ==> ds[i].n <= largest
    ensures Released(rate, start, ds, from, to, |ds|)
              <= largest + rate.Fill(to - from) + rate.Fill(EGRESS_SLACK)
  {
    var l := Full(rate, start);
    var i, m := ReleasedSpan(rate, start, ds, from, to, |ds|);
    FillGrows(rate, 0.0, to - from);
    FillGrows(rate, 0.0, EGRESS_SLACK);
    if i < m {
      DebtIsPaid(rate, start, ds, m - 1, to);
      Debt(rate, start, ds, i);
      match HeldFor(rate, start, ds, i) {
        case Some(delay) =>
          SinceLevel(rate, l, ds, i + 1, m);
          SumSplits(ds, i, i + 1, m);
          assert Sum(ds, i, i + 1) == Sum(ds, i, i) + ds[i].n;
          FillGrows(rate, from - ds[i].now, delay);
          FillSplits(rate, ds[i].now, from, ds[m - 1].now);
          FillSplits(rate, from, ds[m - 1].now, to);
        case None =>
          SinceDraw(rate, l, ds, i, m);
          FillSplits(rate, ds[i].now, ds[m - 1].now, to);
          FillGrows(rate, to - ds[i].now, to - from);
      }
    }
  }

  /** Payloads `i` to `k` are more than the burst and the time between them allow by `slack`. */
  ghost predicate Over(rate: Rate, ds: seq<Draw>, i: nat, k: nat, slack: real)
  {
    i <= k < |ds| &&
    Sum(ds, i, k + 1) > rate.Cap() + rate.Fill(ds[k].now - ds[i].now) + rate.Fill(slack)
  }

  /** A payload is held back exactly when it ends a window over the pace by more than the slack. */
  lemma HeldExactlyWhenOver(rate: Rate, start: real, ds: seq<Draw>, k: nat)
    requires rate.perSecond > 0 && Ordered(start, ds) && k < |ds|
    ensures HeldFor(rate, start, ds, k).Some? <==> exists i: nat :: Over(rate, ds, i, k, EGRESS_SLACK)
  {
    hide Sum, LevelAt;
    if HeldFor(rate, start, ds, k).Some? {
      var i := HeldIsOver(rate, start, ds, k);
    } else {
      forall i: nat ensures !Over(rate, ds, i, k, EGRESS_SLACK) {
        NotHeldIsNotOver(rate, start, ds, k, i);
      }
    }
  }

  lemma HeldIsOver(rate: Rate, start: real, ds: seq<Draw>, k: nat) returns (i: nat)
    requires rate.perSecond > 0 && Ordered(start, ds) && k < |ds| && HeldFor(rate, start, ds, k).Some?
    ensures Over(rate, ds, i, k, EGRESS_SLACK)
  {
    Debt(rate, start, ds, k);
    i := SomeWindowIsSaturated(rate, start, ds, k + 1);
    var delay := HeldFor(rate, start, ds, k).value;
    FillSplits(rate, 0.0, EGRESS_SLACK, delay);
    assert rate.perSecond as real * (delay - EGRESS_SLACK) > 0.0;
  }

  lemma NotHeldIsNotOver(rate: Rate, start: real, ds: seq<Draw>, k: nat, i: nat)
    requires rate.perSecond > 0 && Ordered(start, ds) && k < |ds| && HeldFor(rate, start, ds, k).None?
    ensures !Over(rate, ds, i, k, EGRESS_SLACK)
  {
    Debt(rate, start, ds, k);
    if i <= k {
      SinceDraw(rate, Full(rate, start), ds, i, k + 1);
    }
  }

  /** A hold ends the moment the pace allows: the payload completes a window that is used
      up exactly when it leaves. */
  lemma HeldNoLongerThanNeeded(rate: Rate, start: real, ds: seq<Draw>, k: nat) returns (i: nat)
    requires rate.perSecond > 0 && Ordered(start, ds) && k < |ds|
    requires HeldFor(rate, start, ds, k).Some?
    ensures i <= k
    ensures Sum(ds, i, k + 1) == rate.Cap() + rate.Fill(ReleaseTime(rate, start, ds, k) - ds[i].now)
  {
    Debt(rate, start, ds, k);
    i := SomeWindowIsSaturated(rate, start, ds, k + 1);
    FillSplits(rate, ds[i].now, ds[k].now, ReleaseTime(rate, start, ds, k));
  }
}
