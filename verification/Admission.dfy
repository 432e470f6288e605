/** The gate and the record together: what was turned away is what the record says, and
    reports of it are spaced. */
module Admission {

  import opened Common
  import opened Gate
  import Record = EgressLog

  predicate IsTurn(step: Record.Step)
  {
    step.Held? || step.Refused?
  }

  /** The steps of a record that count a SYN turned away. */
  ghost function TurnsIn(steps: seq<Record.Step>): (r: seq<Record.Step>)
  {
    if steps == [] then []
    else TurnsIn(steps[..|steps| - 1]) + (if IsTurn(steps[|steps| - 1]) then [steps[|steps| - 1]] else [])
  }

  /** Any gate, with or without a pace, when it was made, and the SYNs it was shown. */
  datatype Session = Session(deny: set<Port>, rate: Option<ConnectionRate>, start: real, syns: seq<Syn>) {

    ghost function VerdictOn(k: nat): (v: Verdict)
      requires k < |syns|
      ensures v == Refuse <==> syns[k].dst.1 in deny
      ensures rate.None? ==> v != Wait
    {
      match rate
      case None => if syns[k].dst.1 in deny then Refuse else Open
      case Some(paced) => Trial(deny, paced, start, syns).VerdictOn(k)
    }
  }

  /** What admitting the first `k` SYNs asks of the record. */
  ghost function Turned(t: Session, k: nat): (r: seq<Record.Step>)
    requires k <= |t.syns|
  {
    if k == 0 then []
    else
      Turned(t, k - 1) +
      match t.VerdictOn(k - 1)
      case Open => []
      case Refuse => [Record.Refused(t.syns[k - 1].dst.1)]
      case Wait => [Record.Held]
  }

  ghost function Waits(t: Session, k: nat): (n: nat)
    requires k <= |t.syns|
  {
    if k == 0 then 0 else Waits(t, k - 1) + if t.VerdictOn(k - 1) == Wait then 1 else 0
  }

  ghost function Refusals(t: Session, port: Record.Port, k: nat): (n: nat)
    requires k <= |t.syns|
  {
    if k == 0 then 0
    else Refusals(t, port, k - 1) + if t.VerdictOn(k - 1) == Refuse && t.syns[k - 1].dst.1 == port then 1 else 0
  }

  lemma OneMoreStep(steps: seq<Record.Step>, step: Record.Step, port: Record.Port)
    ensures Record.HeldSteps(steps + [step]) == Record.HeldSteps(steps) + if step.Held? then 1 else 0
    ensures Record.RefusedSteps(steps + [step], port)
         == Record.RefusedSteps(steps, port) + if step.Refused? && step.port == port then 1 else 0
  {
    assert (steps + [step])[..|steps|] == steps;
  }

  /** Only the turns count. */
  lemma {:induction false} TurnsCount(steps: seq<Record.Step>, port: Record.Port)
    ensures Record.HeldSteps(TurnsIn(steps)) == Record.HeldSteps(steps)
    ensures Record.RefusedSteps(TurnsIn(steps), port) == Record.RefusedSteps(steps, port)
  {
    if steps != [] {
      var less, last := steps[..|steps| - 1], steps[|steps| - 1];
      TurnsCount(less, port);
      OneMoreStep(TurnsIn(less), last, port);
      assert TurnsIn(less) + [] == TurnsIn(less);
    }
  }

  lemma {:induction false} VerdictsCount(t: Session, k: nat, port: Record.Port)
    requires k <= |t.syns|
    ensures Record.HeldSteps(Turned(t, k)) == Waits(t, k)
    ensures Record.RefusedSteps(Turned(t, k), port) == Refusals(t, port, k)
  {
    hide Decided, Session.VerdictOn, Record.HeldSteps, Record.RefusedSteps;
    if k == 0 {
      NoSteps(port);
    } else {
      VerdictsCount(t, k - 1, port);
      OneMoreStep(Turned(t, k - 1), Record.Held, port);
      OneMoreStep(Turned(t, k - 1), Record.Refused(t.syns[k - 1].dst.1), port);
      assert Turned(t, k - 1) + [] == Turned(t, k - 1);
    }
  }

  lemma NoSteps(port: Record.Port)
    ensures Record.HeldSteps([]) == 0 && Record.RefusedSteps([], port) == 0
  {
  }

  /** However opens, ends, reports and writes interleave with the SYNs a gate is shown, the counts
      over all lines with those still pending are its `Wait` and `Refuse` verdicts. */
  lemma VerdictsAreOnRecord(t: Session, states: seq<Record.Log>, steps: seq<Record.Step>, port: Record.Port)
    requires Record.Run(states, steps) && Record.EndsFollowOpens(steps)
    requires TurnsIn(steps) == Turned(t, |t.syns|)
    ensures var s := states[|steps|];
            && s.held + Record.HeldIn(s.inFlight) + Record.HeldIn(s.lines) == Waits(t, |t.syns|)
            && Record.CountOf(s.refused, port) + Record.RefusedIn(s.inFlight, port) + Record.RefusedIn(s.lines, port)
               == Refusals(t, port, |t.syns|)
  {
    Record.TurnedAwayIsConserved(states, steps, port);
    TurnsCount(steps, port);
    VerdictsCount(t, |t.syns|, port);
  }

  // ---------------------------------------------------------------------
  // Reports
  // ---------------------------------------------------------------------

  /** When the next report may go out, before the call at `nows[k]`. */
  ghost function NextReport(start: real, nows: seq<real>, k: nat): (r: real)
    requires k <= |nows|
  {
    if k == 0 then start + REPORT_EVERY
    else if IsDue(NextReport(start, nows, k - 1), nows[k - 1]) then nows[k - 1] + REPORT_EVERY
    else NextReport(start, nows, k - 1)
  }

  ghost predicate Reports(start: real, nows: seq<real>, k: nat)
    requires k < |nows|
  {
    IsDue(NextReport(start, nows, k), nows[k])
  }

  lemma {:induction false} NextReportIsLater(start: real, nows: seq<real>, i: nat, j: nat)
    requires i < j <= |nows| && Reports(start, nows, i)
    ensures NextReport(start, nows, j) >= nows[i] + REPORT_EVERY
  {
    if i + 1 < j {
      NextReportIsLater(start, nows, i, j - 1);
    }
  }

  /** Two reports are at least the interval apart, and none comes in the first. */
  lemma ReportsAreSpaced(start: real, nows: seq<real>, i: nat, j: nat)
    requires i < j < |nows| && Reports(start, nows, i) && Reports(start, nows, j)
    ensures nows[j] - nows[i] >= REPORT_EVERY
    ensures nows[i] - start >= REPORT_EVERY
  {
    NextReportIsLater(start, nows, i, j);
    FirstReport(start, nows, i);
  }

  /** And a report goes out as soon as that allows: exactly when the interval has passed since the
      gate was made and since every report before. */
  lemma {:induction false} ReportsExactlyWhenDue(start: real, nows: seq<real>, k: nat)
    requires k < |nows|
    ensures Reports(start, nows, k) <==>
            && nows[k] >= start + REPORT_EVERY
            && forall i: nat :: i < k && Reports(start, nows, i) ==> nows[k] >= nows[i] + REPORT_EVERY
  {
    forall i: nat | i < k && Reports(start, nows, i) ensures NextReport(start, nows, k) >= nows[i] + REPORT_EVERY {
      NextReportIsLater(start, nows, i, k);
    }
    FirstReport(start, nows, k);
    LatestReport(start, nows, k);
  }

  /** The next report waits for the start or for some report. */
  lemma {:induction false} LatestReport(start: real, nows: seq<real>, k: nat)
    requires k <= |nows|
    ensures NextReport(start, nows, k) == start + REPORT_EVERY ||
            exists i: nat :: i < k && Reports(start, nows, i) && NextReport(start, nows, k) == nows[i] + REPORT_EVERY
  {
    if k > 0 {
      LatestReport(start, nows, k - 1);
      if Reports(start, nows, k - 1) {
        assert NextReport(start, nows, k) == nows[k - 1] + REPORT_EVERY;
      }
    }
  }

  lemma {:induction false} FirstReport(start: real, nows: seq<real>, k: nat)
    requires k <= |nows|
    ensures NextReport(start, nows, k) >= start + REPORT_EVERY
  {
    if k > 0 {
      FirstReport(start, nows, k - 1);
    }
  }
}
