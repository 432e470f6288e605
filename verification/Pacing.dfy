/** Token buckets: what they hold, how a draw changes it, and the windows they bound.
    Times are seconds and tokens are reals; a draw is one lock-held refill-and-spend. */
module Pacing {
  import opened Common

  /** `burst` at once, refilled at `perSecond`. */
  datatype Rate = Rate(perSecond: nat, burst: nat) {
    function Fill(elapsed: real): (r: real) { perSecond as real * elapsed }
    function Cap(): (r: real) { burst as real }
  }

  /** What a bucket holds, and when it was last topped up. Negative tokens are a debt. */
  datatype Level = Level(tokens: real, at: real)

  function Least(a: real, b: real): (r: real) { if a <= b then a else b }

  /** The clock difference saturates at zero, but the time always moves to `now`. */
  function Refilled(rate: Rate, l: Level, now: real): (r: Level)
  {
    var elapsed := if now >= l.at then now - l.at else 0.0;
    Level(Least(l.tokens + rate.Fill(elapsed), rate.Cap()), now)
  }

  function Drawn(rate: Rate, l: Level, now: real, n: real): (r: Level)
  {
    var full := Refilled(rate, l, now);
    full.(tokens := full.tokens - n)
  }

  function Full(rate: Rate, now: real): (r: Level) { Level(rate.Cap(), now) }

  // ---------------------------------------------------------------------
  // Runs of draws
  // ---------------------------------------------------------------------

  datatype Draw = Draw(now: real, n: real)

  /** The clock never runs backwards, and nothing is put back. */
  ghost predicate Ordered(start: real, ds: seq<Draw>)
  {
    && (forall i :: 0 <= i < |ds| ==> start <= ds[i].now && 0.0 <= ds[i].n)
    && (forall i, j :: 0 <= i <= j < |ds| ==> ds[i].now <= ds[j].now)
  }

  /** The level after the first `k` draws of `ds`. */
  ghost function LevelAt(rate: Rate, l: Level, ds: seq<Draw>, k: nat): (r: Level)
    requires k <= |ds|
  {
    if k == 0 then l else
      Drawn(rate, LevelAt(rate, l, ds, k - 1), ds[k - 1].now, ds[k - 1].n)
  }

  /** What draws `i` up to `j` took together. */
  ghost function Sum(ds: seq<Draw>, i: nat, j: nat): (r: real)
    requires j <= |ds|
  {
    if j <= i then 0.0 else Sum(ds, i, j - 1) + ds[j - 1].n
  }

  lemma FillSplits(rate: Rate, a: real, b: real, c: real)
    ensures rate.Fill(c - a) == rate.Fill(b - a) + rate.Fill(c - b)
  {
    assert c - a == (b - a) + (c - b);
  }

  lemma FillGrows(rate: Rate, a: real, b: real)
    requires a <= b
    ensures rate.Fill(a) <= rate.Fill(b)
  {
    FillSplits(rate, 0.0, a, b);
    assert rate.perSecond as real >= 0.0 && b - a >= 0.0;
    assert rate.Fill(b - a) >= 0.0;
  }

  lemma LevelTime(rate: Rate, l: Level, ds: seq<Draw>, k: nat)
    requires 0 < k <= |ds|
    ensures LevelAt(rate, l, ds, k).at == ds[k - 1].now
  {
  }

  lemma {:induction false} SumSplits(ds: seq<Draw>, i: nat, m: nat, j: nat)
    requires i <= m <= j <= |ds|
    ensures Sum(ds, i, j) == Sum(ds, i, m) + Sum(ds, m, j)
    decreases j
  {
    if m < j { SumSplits(ds, i, m, j - 1); }
  }

  lemma {:induction false} SumNonNegative(start: real, ds: seq<Draw>, i: nat, j: nat)
    requires Ordered(start, ds) && j <= |ds|
    ensures 0.0 <= Sum(ds, i, j)
  {
    if i < j { SumNonNegative(start, ds, i, j - 1); }
  }

  /** Between two points of a run, no more is taken than was there and has come in since. */
  lemma {:induction false} SinceLevel(rate: Rate, l: Level, ds: seq<Draw>, i: nat, k: nat)
    requires Ordered(l.at, ds) && i <= k <= |ds|
    ensures var was, now := LevelAt(rate, l, ds, i), LevelAt(rate, l, ds, k);
            now.tokens + Sum(ds, i, k) <= was.tokens + rate.Fill(now.at - was.at)
    decreases k
  {
    if i == k {
      assert rate.Fill(0.0) == 0.0;
    } else {
      SinceLevel(rate, l, ds, i, k - 1);
      var was, before := LevelAt(rate, l, ds, i), LevelAt(rate, l, ds, k - 1);
      FillSplits(rate, was.at, before.at, ds[k - 1].now);
    }
  }

  /** In the window that opens with draw `i`, no more is taken than the burst and
      what has come in since. */
  lemma {:induction false} SinceDraw(rate: Rate, l: Level, ds: seq<Draw>, i: nat, k: nat)
    requires Ordered(l.at, ds) && i < k <= |ds|
    ensures var now := LevelAt(rate, l, ds, k);
            now.tokens + Sum(ds, i, k) <= rate.Cap() + rate.Fill(now.at - ds[i].now)
    decreases k
  {
    if k == i + 1 {
      assert Sum(ds, i, i) == 0.0;
      assert rate.Fill(0.0) == 0.0;
    } else {
      SinceDraw(rate, l, ds, i, k - 1);
      LevelTime(rate, l, ds, k - 1);
      FillSplits(rate, ds[i].now, ds[k - 2].now, ds[k - 1].now);
    }
  }

  /** The window that opens with draw `i` is used up to its last token. */
  ghost predicate Saturated(rate: Rate, l: Level, ds: seq<Draw>, i: nat, k: nat)
    requires k <= |ds|
  {
    i < k &&
    LevelAt(rate, l, ds, k).tokens + Sum(ds, i, k) ==
      rate.Cap() + rate.Fill(LevelAt(rate, l, ds, k).at - ds[i].now)
  }

  /** A bucket that starts full holds exactly what the tightest window leaves: some
      window is saturated, so the bounds above cannot be improved. */
  lemma {:induction false} SomeWindowIsSaturated(rate: Rate, start: real, ds: seq<Draw>, k: nat)
    returns (i: nat)
    requires Ordered(start, ds) && 0 < k <= |ds|
    ensures Saturated(rate, Full(rate, start), ds, i, k)
  {
    var l := Full(rate, start);
    var before := LevelAt(rate, l, ds, k - 1);
    var d := ds[k - 1];
    if k > 1 { LevelTime(rate, l, ds, k - 1); }
    assert rate.Fill(0.0) == 0.0;
    if rate.Cap() <= before.tokens + rate.Fill(d.now - before.at) {
      i := k - 1;
      assert Sum(ds, i, i) == 0.0;
    } else {
      if k == 1 {
        FillGrows(rate, 0.0, d.now - before.at);
        assert false;
      }
      i := SomeWindowIsSaturated(rate, start, ds, k - 1);
      FillSplits(rate, ds[i].now, before.at, d.now);
    }
  }

  // ---------------------------------------------------------------------
  // Windows of time
  // ---------------------------------------------------------------------

  /** What the first `k` draws took between `from` and `to`. */
  ghost function SumIn(ds: seq<Draw>, from: real, to: real, k: nat): (r: real)
    requires k <= |ds|
  {
    if k == 0 then 0.0 else
      SumIn(ds, from, to, k - 1) + if from <= ds[k - 1].now <= to then ds[k - 1].n else 0.0
  }

  lemma {:induction false} SumInBefore(start: real, ds: seq<Draw>, from: real, to: real, k: nat)
    requires Ordered(start, ds) && k <= |ds|
    requires k > 0 ==> ds[k - 1].now < from
    ensures SumIn(ds, from, to, k) == 0.0
  {
    if k > 1 { SumInBefore(start, ds, from, to, k - 1); }
  }

  /** A window that reaches up to the last draw is a run of draws. */
  lemma {:induction false} SumInIsSum(start: real, ds: seq<Draw>, from: real, k: nat) returns (i: nat)
    requires Ordered(start, ds) && 0 < k <= |ds| && from <= ds[k - 1].now
    ensures i < k && from <= ds[i].now
    ensures forall to :: ds[k - 1].now <= to ==> SumIn(ds, from, to, k) == Sum(ds, i, k)
  {
    if k > 1 && from <= ds[k - 2].now {
      i := SumInIsSum(start, ds, from, k - 1);
    } else {
      i := k - 1;
      assert Sum(ds, i, i) == 0.0;
      forall to | ds[k - 1].now <= to ensures SumIn(ds, from, to, k) == Sum(ds, i, k) {
        SumInBefore(start, ds, from, to, k - 1);
      }
    }
  }

  /** A bucket that is never drawn into debt lets through, in any window, no more than the
      burst and what comes in over the window. */
  lemma {:induction false} WindowBound(rate: Rate, start: real, ds: seq<Draw>, from: real, to: real, k: nat)
    requires Ordered(start, ds) && k <= |ds| && from <= to
    requires forall m: nat :: m <= k ==> LevelAt(rate, Full(rate, start), ds, m).tokens >= 0.0
    ensures SumIn(ds, from, to, k) <= rate.Cap() + rate.Fill(to - from)
  {
    FillGrows(rate, 0.0, to - from);
    if k == 0 {
    } else if ds[k - 1].now < from {
      SumInBefore(start, ds, from, to, k);
    } else if to < ds[k - 1].now {
      WindowBound(rate, start, ds, from, to, k - 1);
    } else {
      var i := SumInIsSum(start, ds, from, k);
      SinceDraw(rate, Full(rate, start), ds, i, k);
      LevelTime(rate, Full(rate, start), ds, k);
      assert SumIn(ds, from, to, k) == Sum(ds, i, k);
      FillGrows(rate, ds[k - 1].now - ds[i].now, to - from);
    }
  }

  /** One more token at the time of the last draw would put the window from `from` over. */
  ghost predicate WindowOver(rate: Rate, ds: seq<Draw>, from: real, k: nat, more: real)
    requires 0 < k <= |ds|
  {
    from <= ds[k - 1].now &&
    SumIn(ds, from, ds[k - 1].now, k) + more > rate.Cap() + rate.Fill(ds[k - 1].now - from)
  }

  /** A bucket lacks `more` tokens exactly when taking them would put some window over. */
  lemma ShortExactlyWhenOver(rate: Rate, start: real, ds: seq<Draw>, k: nat, more: real)
    requires Ordered(start, ds) && 0 < k <= |ds|
    ensures LevelAt(rate, Full(rate, start), ds, k).tokens < more
            <==> exists from :: WindowOver(rate, ds, from, k, more)
  {
    var l := Full(rate, start);
    LevelTime(rate, l, ds, k);
    if LevelAt(rate, l, ds, k).tokens < more {
      var i := SomeWindowIsSaturated(rate, start, ds, k);
      var from := ds[i].now;
      SumInCovers(start, ds, from, ds[k - 1].now, i, k);
      assert WindowOver(rate, ds, from, k, more);
    } else {
      forall from | from <= ds[k - 1].now ensures !WindowOver(rate, ds, from, k, more) {
        var i := SumInIsSum(start, ds, from, k);
        assert SumIn(ds, from, ds[k - 1].now, k) == Sum(ds, i, k);
        SinceDraw(rate, l, ds, i, k);
        FillGrows(rate, ds[k - 1].now - ds[i].now, ds[k - 1].now - from);
      }
    }
  }

  /** Draws within the window count towards it. */
  lemma {:induction false} SumInCovers(start: real, ds: seq<Draw>, from: real, to: real, i: nat, k: nat)
    requires Ordered(start, ds) && i <= k <= |ds|
    requires forall m :: i <= m < k ==> from <= ds[m].now <= to
    ensures Sum(ds, i, k) <= SumIn(ds, from, to, k)
    decreases k
  {
    if i < k {
      SumInCovers(start, ds, from, to, i, k - 1);
    } else {
      SumInNonNegative(start, ds, from, to, k);
    }
  }

  lemma {:induction false} SumInNonNegative(start: real, ds: seq<Draw>, from: real, to: real, k: nat)
    requires Ordered(start, ds) && k <= |ds|
    ensures 0.0 <= SumIn(ds, from, to, k)
  {
    if k > 0 { SumInNonNegative(start, ds, from, to, k - 1); }
  }

  /** What comes after the first `k` draws does not change them. */
  lemma {:induction false} PrefixOnly(rate: Rate, l: Level, ds: seq<Draw>, es: seq<Draw>, from: real, to: real, k: nat)
    requires k <= |ds| && ds <= es
    ensures LevelAt(rate, l, ds, k) == LevelAt(rate, l, es, k)
    ensures SumIn(ds, from, to, k) == SumIn(es, from, to, k)
  {
    if k > 0 { PrefixOnly(rate, l, ds, es, from, to, k - 1); }
  }

  // ---------------------------------------------------------------------
  // The bucket
  // ---------------------------------------------------------------------

  class TokenBucket {
    const rate: Rate
    var tokens: real
    var at: real

    ghost function View(): (l: Level)
      reads this
    {
      Level(tokens, at)
    }

    constructor (rate: Rate, now: real)
      ensures this.rate == rate && View() == Full(rate, now)
    {
      this.rate := rate;
      this.tokens := rate.burst as real;
      this.at := now;
    }

    method Refill(now: real)
      modifies this
      ensures View() == Refilled(rate, old(View()), now)
    {
      var elapsed := if now >= at then now - at else 0.0;
      var more := tokens + rate.perSecond as real * elapsed;
      tokens := if more <= rate.burst as real then more else rate.burst as real;
      at := now;
    }

    method Has() returns (has: bool)
      ensures has <==> View().tokens >= 1.0
    {
      has := tokens >= 1.0;
    }

    method Take()
      modifies this
      ensures View() == old(View()).(tokens := old(View()).tokens - 1.0)
    {
      tokens := tokens - 1.0;
    }

    /** Takes `n` even past empty. Answers the time until the debt is paid back, when
        that is more than `slack`. */
    method Owe(n: real, now: real, slack: real) returns (wait: Option<real>)
      requires rate.perSecond > 0
      modifies this
      ensures View() == Drawn(rate, old(View()), now, n)
      ensures wait == Hold(rate, View(), slack)
    {
      Refill(now);
      tokens := tokens - n;
      var owed := -tokens / rate.perSecond as real;
      wait := if owed > slack then Some(owed) else None;
    }
  }

  /** The hold a level asks for. */
  function Hold(rate: Rate, l: Level, slack: real): (r: Option<real>)
    requires rate.perSecond > 0
  {
    var owed := -l.tokens / rate.perSecond as real;
    if owed > slack then Some(owed) else None
  }
}
