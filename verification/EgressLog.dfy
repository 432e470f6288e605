/** The record of what a guest opened: one line per connection, and lines that count the
    SYNs turned away. A lock-held region takes records out of the state; the lines it
    leaves are written afterwards, so any number of them can be in flight. */
module EgressLog {

  type Id = nat
  type Port = nat
  /** IPv4 address and port. */
  type Destination = (nat, Port)

  datatype End = Ended(ok: bool) | StillOpen

  /** A line of the record. A connection line carries the id it was opened under, so that
      lines can be told apart; the text of the line does not. */
  datatype Line =
    | Connection(id: Id, dst: Destination, end: End)
    | TurnedAway(held: nat, refused: map<Port, nat>)

  datatype Log = Log(
    next: Id,
    open: map<Id, Destination>,
    held: nat,
    refused: map<Port, nat>,
    inFlight: seq<Line>,
    lines: seq<Line>)

  const Empty: Log := Log(0, map[], 0, map[], [], [])

  /** The lock-held regions of the log, and the write of one line. */
  datatype Step =
    | Open(dst: Destination)
    | End(id: Id, ok: bool)
    | Refused(port: Port)
    | Held
    | Report
    | Close
    | Write(i: nat)

  function CountOf(refused: map<Port, nat>, port: Port): (n: nat)
  {
    if port in refused then refused[port] else 0
  }

  /** A line for the SYNs turned away, when there were some. */
  function TurnedAwayLines(held: nat, refused: map<Port, nat>): (r: seq<Line>)
  {
    if held == 0 && refused == map[] then [] else [TurnedAway(held, refused)]
  }

  ghost predicate ListsEach(ids: seq<Id>, open: map<Id, Destination>)
  {
    && (forall id :: id in ids <==> id in open)
    && (forall i, j :: 0 <= i < j < |ids| ==> ids[i] != ids[j])
  }

  function StillOpenLines(ids: seq<Id>, open: map<Id, Destination>): (r: seq<Line>)
    requires forall id :: id in ids ==> id in open
  {
    seq(|ids|, i requires 0 <= i < |ids| => Connection(ids[i], open[ids[i]], StillOpen))
  }

  /** The order `close` drains the table in is the table's own. */
  ghost predicate Next(s: Log, step: Step, t: Log)
  {
    match step
    case Open(dst) =>
      t == s.(next := s.next + 1, open := s.open[s.next := dst])
    case End(id, ok) =>
      if id in s.open then
        t == s.(open := s.open - {id}, inFlight := s.inFlight + [Connection(id, s.open[id], Ended(ok))])
      else t == s
    case Refused(port) =>
      t == s.(refused := s.refused[port := CountOf(s.refused, port) + 1])
    case Held =>
      t == s.(held := s.held + 1)
    case Report =>
      t == s.(held := 0, refused := map[], inFlight := s.inFlight + TurnedAwayLines(s.held, s.refused))
    case Close =>
      exists ids: seq<Id> :: ListsEach(ids, s.open) &&
        t == Closed(s, ids)
    case Write(i) =>
      && i < |s.inFlight|
      && t == s.(inFlight := s.inFlight[..i] + s.inFlight[i + 1..], lines := s.lines + [s.inFlight[i]])
  }

  ghost function Closed(s: Log, ids: seq<Id>): (t: Log)
    requires ListsEach(ids, s.open)
  {
    s.(open := map[], held := 0, refused := map[],
       inFlight := s.inFlight + StillOpenLines(ids, s.open) + TurnedAwayLines(s.held, s.refused))
  }

  // ---------------------------------------------------------------------
  // The log
  // ---------------------------------------------------------------------

  class EgressLog {
    var next: Id
    var open: map<Id, Destination>
    var held: nat
    var refused: map<Port, nat>
    var lines: seq<Line>
    /** Lines other threads have taken out and not yet written. */
    ghost var inFlight: seq<Line>

    ghost function View(): (s: Log)
      reads this
    {
      Log(next, open, held, refused, inFlight, lines)
    }

    constructor ()
      ensures View() == Empty
    {
      next, open, held, refused, lines, inFlight := 0, map[], 0, map[], [], [];
    }

    method Open(dst: Destination) returns (id: Id)
      modifies this
      ensures id == old(next) && Next(old(View()), Step.Open(dst), View())
    {
      id := next;
      next := next + 1;
      open := open[id := dst];
    }

    /** Takes the record out under the lock, then writes its line. */
    method Ended(id: Id, ok: bool)
      modifies this
      ensures if id in old(open)
              then exists mid :: Next(old(View()), End(id, ok), mid) && Next(mid, Write(|old(inFlight)|), View())
              else Next(old(View()), End(id, ok), View())
    {
      if id in open {
        var line := Connection(id, open[id], End.Ended(ok));
        open := open - {id};
        inFlight := inFlight + [line];
        ghost var mid := View();
        assert Next(old(View()), End(id, ok), mid);
        lines := lines + [line];
        inFlight := inFlight[..|inFlight| - 1] + inFlight[|inFlight|..];
        assert Next(mid, Write(|old(inFlight)|), View());
      }
    }

    method Refused(port: Port)
      modifies this
      ensures Next(old(View()), Step.Refused(port), View())
    {
      refused := refused[port := CountOf(refused, port) + 1];
    }

    method Held()
      modifies this
      ensures Next(old(View()), Step.Held, View())
    {
      held := held + 1;
    }

    /** Takes the counts under the lock; the caller writes the line. */
    method TakeReport() returns (report: seq<Line>)
      modifies this
      ensures Next(old(View()), Report, View())
      ensures inFlight == old(inFlight) + report
    {
      report := TurnedAwayLines(held, refused);
      held, refused := 0, map[];
      inFlight := inFlight + report;
    }

    /** Drains the open connections and the counts under the lock. */
    method TakeAll() returns (taken: seq<Line>)
      modifies this
      ensures Next(old(View()), Close, View())
      ensures inFlight == old(inFlight) + taken
    {
      ghost var before := View();
      var ids := Listed(open);
      taken := StillOpenLines(ids, open) + TurnedAwayLines(held, refused);
      open, held, refused := map[], 0, map[];
      inFlight := inFlight + taken;
      assert View() == Closed(before, ids);
    }
  }

  /** The ids of a table, in the order it is drained. */
  method Listed(open: map<Id, Destination>) returns (ids: seq<Id>)
    ensures ListsEach(ids, open)
  {
    var rest := open.Keys;
    ids := [];
    while rest != {}
      invariant forall id :: id in open <==> id in ids || id in rest
      invariant forall id :: id in ids ==> id !in rest
      invariant forall i, j :: 0 <= i < j < |ids| ==> ids[i] != ids[j]
      decreases rest
    {
      var id :| id in rest;
      rest := rest - {id};
      ids := ids + [id];
    }
  }

  // ---------------------------------------------------------------------
  // Runs
  // ---------------------------------------------------------------------

  ghost predicate Run(states: seq<Log>, steps: seq<Step>)
  {
    && |states| == |steps| + 1
    && states[0] == Empty
    && forall k :: 0 <= k < |steps| ==> Next(states[k], steps[k], states[k + 1])
  }

  /** How many connections the steps opened: they got the ids below this. */
  ghost function Opened(steps: seq<Step>): (n: nat)
  {
    if steps == [] then 0 else
      var before := steps[..|steps| - 1];
      Opened(before) + if steps[|steps| - 1].Open? then 1 else 0
  }

  /** Ids below this were opened before the last `close`. */
  ghost function ClosedBelow(steps: seq<Step>): (n: nat)
  {
    if steps == [] then 0 else
      var before := steps[..|steps| - 1];
      if steps[|steps| - 1].Close? then Opened(before) else ClosedBelow(before)
  }

  /** A handle is dropped after it was made: an `End` names an id already given out. */
  ghost predicate EndsFollowOpens(steps: seq<Step>)
  {
    forall k :: 0 <= k < |steps| && steps[k].End? ==> steps[k].id < Opened(steps[..k])
  }

  ghost predicate HasEnded(steps: seq<Step>, id: Id)
  {
    exists k :: 0 <= k < |steps| && steps[k].End? && steps[k].id == id
  }

  ghost function HeldSteps(steps: seq<Step>): (n: nat)
  {
    if steps == [] then 0 else
      HeldSteps(steps[..|steps| - 1]) + if steps[|steps| - 1].Held? then 1 else 0
  }

  ghost function RefusedSteps(steps: seq<Step>, port: Port): (n: nat)
  {
    if steps == [] then 0 else
      RefusedSteps(steps[..|steps| - 1], port) +
      if steps[|steps| - 1].Refused? && steps[|steps| - 1].port == port then 1 else 0
  }

  ghost function LinesOf(ls: seq<Line>, id: Id): (n: nat)
  {
    if ls == [] then 0 else
      LinesOf(ls[..|ls| - 1], id) + if ls[|ls| - 1].Connection? && ls[|ls| - 1].id == id then 1 else 0
  }

  ghost function HeldIn(ls: seq<Line>): (n: nat)
  {
    if ls == [] then 0 else
      HeldIn(ls[..|ls| - 1]) + if ls[|ls| - 1].TurnedAway? then ls[|ls| - 1].held else 0
  }

  ghost function RefusedIn(ls: seq<Line>, port: Port): (n: nat)
  {
    if ls == [] then 0 else
      RefusedIn(ls[..|ls| - 1], port) +
      if ls[|ls| - 1].TurnedAway? then CountOf(ls[|ls| - 1].refused, port) else 0
  }

  lemma {:induction false} CountsAdd(a: seq<Line>, b: seq<Line>, id: Id, port: Port)
    ensures LinesOf(a + b, id) == LinesOf(a, id) + LinesOf(b, id)
    ensures HeldIn(a + b) == HeldIn(a) + HeldIn(b)
    ensures RefusedIn(a + b, port) == RefusedIn(a, port) + RefusedIn(b, port)
    decreases |b|
  {
    if b == [] {
      assert a + b == a;
    } else {
      var last := |b| - 1;
      CountsAdd(a, b[..last], id, port);
      assert (a + b)[..|a + b| - 1] == a + b[..last];
    }
  }

  /** Writing a line moves it, and every count with it, from the one place to the other. */
  lemma WriteMoves(s: Log, i: nat, t: Log, id: Id, port: Port)
    requires Next(s, Write(i), t)
    ensures LinesOf(t.inFlight + t.lines, id) == LinesOf(s.inFlight + s.lines, id)
    ensures HeldIn(t.inFlight + t.lines) == HeldIn(s.inFlight + s.lines)
    ensures RefusedIn(t.inFlight + t.lines, port) == RefusedIn(s.inFlight + s.lines, port)
  {
    hide LinesOf, HeldIn, RefusedIn;
    var a, l, b := s.inFlight[..i], [s.inFlight[i]], s.inFlight[i + 1..];
    assert s.inFlight == a + l + b;
    CountsAdd(a, l, id, port);
    CountsAdd(a + l, b, id, port);
    CountsAdd(a + l + b, s.lines, id, port);
    CountsAdd(a, b, id, port);
    CountsAdd(a + b, s.lines + l, id, port);
    CountsAdd(s.lines, l, id, port);
  }

  lemma {:induction false} StillOpenCounts(ids: seq<Id>, open: map<Id, Destination>, id: Id, port: Port)
    requires forall k :: k in ids ==> k in open
    requires forall i, j :: 0 <= i < j < |ids| ==> ids[i] != ids[j]
    ensures LinesOf(StillOpenLines(ids, open), id) == if id in ids then 1 else 0
    ensures HeldIn(StillOpenLines(ids, open)) == 0
    ensures RefusedIn(StillOpenLines(ids, open), port) == 0
  {
    if ids == [] {
    } else {
      var last := |ids| - 1;
      var ls := StillOpenLines(ids, open);
      StillOpenCounts(ids[..last], open, id, port);
      assert ls[..last] == StillOpenLines(ids[..last], open);
      assert ids == ids[..last] + [ids[last]];
    }
  }

  lemma TurnedAwayCounts(held: nat, refused: map<Port, nat>, id: Id, port: Port)
    ensures LinesOf(TurnedAwayLines(held, refused), id) == 0
    ensures HeldIn(TurnedAwayLines(held, refused)) == held
    ensures RefusedIn(TurnedAwayLines(held, refused), port) == CountOf(refused, port)
  {
    var ls := TurnedAwayLines(held, refused);
    if ls != [] {
      assert ls[..0] == [];
    }
  }

  /** Each id given out is in exactly one place: the table, a line in flight, a written line. */
  ghost predicate InOnePlace(s: Log, id: Id)
  {
    (if id in s.open then 1 else 0) + LinesOf(s.inFlight + s.lines, id) == if id < s.next then 1 else 0
  }

  /** The effect of one step on where an id is and on what has been counted. */
  lemma StepMoves(s: Log, step: Step, t: Log, id: Id, port: Port)
    requires Next(s, step, t)
    requires InOnePlace(s, id)
    ensures InOnePlace(t, id)
    ensures t.held + HeldIn(t.inFlight + t.lines) ==
            s.held + HeldIn(s.inFlight + s.lines) + if step.Held? then 1 else 0
    ensures CountOf(t.refused, port) + RefusedIn(t.inFlight + t.lines, port) ==
            CountOf(s.refused, port) + RefusedIn(s.inFlight + s.lines, port) +
            if step.Refused? && step.port == port then 1 else 0
  {
    hide LinesOf, HeldIn, RefusedIn, StillOpenLines, TurnedAwayLines;
    match step {
      case Open(_) =>
      case Refused(_) =>
      case Held =>
      case Write(i) => WriteMoves(s, i, t, id, port);
      case End(k, ok) =>
        if k in s.open {
          Inserted(s, [Connection(k, s.open[k], Ended(ok))], t, id, port);
          OneLine(k, s.open[k], Ended(ok), id, port);
        }
      case Report =>
        TurnedAwayCounts(s.held, s.refused, id, port);
        Inserted(s, TurnedAwayLines(s.held, s.refused), t, id, port);
      case Close =>
        var ids: seq<Id> :| ListsEach(ids, s.open) && t == Closed(s, ids);
        var a, b := StillOpenLines(ids, s.open), TurnedAwayLines(s.held, s.refused);
        StillOpenCounts(ids, s.open, id, port);
        TurnedAwayCounts(s.held, s.refused, id, port);
        CountsAdd(a, b, id, port);
        assert s.inFlight + (a + b) == s.inFlight + a + b;
        Inserted(s, a + b, t, id, port);
    }
  }

  lemma OneLine(k: Id, dst: Destination, end: End, id: Id, port: Port)
    ensures LinesOf([Connection(k, dst, end)], id) == if k == id then 1 else 0
    ensures HeldIn([Connection(k, dst, end)]) == 0
    ensures RefusedIn([Connection(k, dst, end)], port) == 0
  {
    var l := [Connection(k, dst, end)];
    assert l[..0] == [];
  }

  lemma Inserted(s: Log, more: seq<Line>, t: Log, id: Id, port: Port)
    requires t.inFlight == s.inFlight + more && t.lines == s.lines
    ensures LinesOf(t.inFlight + t.lines, id) == LinesOf(s.inFlight + s.lines, id) + LinesOf(more, id)
    ensures HeldIn(t.inFlight + t.lines) == HeldIn(s.inFlight + s.lines) + HeldIn(more)
    ensures RefusedIn(t.inFlight + t.lines, port) == RefusedIn(s.inFlight + s.lines, port) + RefusedIn(more, port)
  {
    CountsAdd(s.inFlight, more, id, port);
    CountsAdd(s.inFlight + more, s.lines, id, port);
    CountsAdd(s.inFlight, s.lines, id, port);
  }

  ghost predicate Accounted(s: Log, steps: seq<Step>, id: Id, port: Port)
  {
    && s.next == Opened(steps)
    && InOnePlace(s, id)
    && (id in s.open <==> id < Opened(steps) && !HasEnded(steps, id) && ClosedBelow(steps) <= id)
    && s.held + HeldIn(s.inFlight + s.lines) == HeldSteps(steps)
    && CountOf(s.refused, port) + RefusedIn(s.inFlight + s.lines, port) == RefusedSteps(steps, port)
  }

  lemma RunBefore(states: seq<Log>, steps: seq<Step>)
    requires Run(states, steps) && EndsFollowOpens(steps) && steps != []
    ensures var n := |steps| - 1;
            Run(states[..n + 1], steps[..n]) && EndsFollowOpens(steps[..n]) && states[..n + 1][n] == states[n]
  {
    var n := |steps| - 1;
    var before := steps[..n];
    forall k | 0 <= k < n && before[k].End? ensures before[k].id < Opened(before[..k]) {
      assert before[..k] == steps[..k];
    }
  }

  ghost predicate TableAgrees(s: Log, steps: seq<Step>, id: Id)
  {
    && s.next == Opened(steps)
    && (id in s.open <==> id < Opened(steps) && !HasEnded(steps, id) && ClosedBelow(steps) <= id)
  }

  /** The table holds exactly the connections opened and neither ended nor closed since. */
  lemma TableStep(s: Log, steps: seq<Step>, t: Log, id: Id)
    requires steps != [] && EndsFollowOpens(steps[..|steps| - 1])
    requires Next(s, steps[|steps| - 1], t)
    requires TableAgrees(s, steps[..|steps| - 1], id)
    ensures TableAgrees(t, steps, id)
  {
    var before, last := steps[..|steps| - 1], steps[|steps| - 1];
    EndedGrows(steps, id);
    if HasEnded(before, id) { EndedIds(before, id); }
    ClosedBelowOpened(before);
    match last {
      case Close =>
        var ids: seq<Id> :| ListsEach(ids, s.open) && t == Closed(s, ids);
      case _ =>
    }
  }

  lemma {:induction false} EveryRunAccounts(states: seq<Log>, steps: seq<Step>, id: Id, port: Port)
    requires Run(states, steps) && EndsFollowOpens(steps)
    ensures Accounted(states[|steps|], steps, id, port)
    decreases |steps|
  {
    if steps == [] {
    } else {
      var n := |steps| - 1;
      RunBefore(states, steps);
      EveryRunAccounts(states[..n + 1], steps[..n], id, port);
      StepMoves(states[n], steps[n], states[n + 1], id, port);
      assert TableAgrees(states[n], steps[..n], id);
      TableStep(states[n], steps, states[n + 1], id);
    }
  }

  lemma EndedGrows(steps: seq<Step>, id: Id)
    requires steps != []
    ensures var last := steps[|steps| - 1];
            HasEnded(steps, id) <==> HasEnded(steps[..|steps| - 1], id) || (last.End? && last.id == id)
  {
    var n := |steps| - 1;
    if HasEnded(steps[..n], id) {
      var k :| 0 <= k < n && steps[..n][k].End? && steps[..n][k].id == id;
      assert steps[k].End? && steps[k].id == id;
    }
    if HasEnded(steps, id) {
      var k :| 0 <= k < |steps| && steps[k].End? && steps[k].id == id;
      if k < n { assert steps[..n][k].End? && steps[..n][k].id == id; }
    }
  }

  lemma EndedIds(steps: seq<Step>, id: Id)
    requires EndsFollowOpens(steps) && HasEnded(steps, id)
    ensures id < Opened(steps)
  {
    var k :| 0 <= k < |steps| && steps[k].End? && steps[k].id == id;
    OpenedGrows(steps, k);
  }

  lemma {:induction false} OpenedGrows(steps: seq<Step>, k: nat)
    requires k <= |steps|
    ensures Opened(steps[..k]) <= Opened(steps)
    decreases |steps|
  {
    if k < |steps| {
      assert steps[..|steps| - 1][..k] == steps[..k];
      OpenedGrows(steps[..|steps| - 1], k);
    } else {
      assert steps[..k] == steps;
    }
  }

  lemma {:induction false} ClosedBelowOpened(steps: seq<Step>)
    ensures ClosedBelow(steps) <= Opened(steps)
  {
    if steps != [] { ClosedBelowOpened(steps[..|steps| - 1]); }
  }

  /** In every interleaving, once nothing is in flight, an opened connection has exactly
      one line when it has ended or `close` ran after it opened, and none otherwise. */
  lemma WrittenExactlyOnce(states: seq<Log>, steps: seq<Step>, id: Id)
    requires Run(states, steps) && EndsFollowOpens(steps)
    requires states[|steps|].inFlight == []
    ensures LinesOf(states[|steps|].lines, id) ==
            if id < Opened(steps) && (HasEnded(steps, id) || id < ClosedBelow(steps)) then 1 else 0
  {
    EveryRunAccounts(states, steps, id, 0);
    var s := states[|steps|];
    assert s.inFlight + s.lines == s.lines;
  }

  /** And never more than one, whatever is still in flight. */
  lemma WrittenAtMostOnce(states: seq<Log>, steps: seq<Step>, id: Id)
    requires Run(states, steps) && EndsFollowOpens(steps)
    ensures LinesOf(states[|steps|].lines, id) <= 1
  {
    EveryRunAccounts(states, steps, id, 0);
    CountsAdd(states[|steps|].inFlight, states[|steps|].lines, id, 0);
  }

  /** No SYN turned away is counted twice or lost: the counts over all lines, with those
      not yet reported, are the SYNs held and refused. */
  lemma TurnedAwayIsConserved(states: seq<Log>, steps: seq<Step>, port: Port)
    requires Run(states, steps) && EndsFollowOpens(steps)
    ensures var s := states[|steps|];
            && s.held + HeldIn(s.inFlight) + HeldIn(s.lines) == HeldSteps(steps)
            && CountOf(s.refused, port) + RefusedIn(s.inFlight, port) + RefusedIn(s.lines, port)
               == RefusedSteps(steps, port)
  {
    EveryRunAccounts(states, steps, 0, port);
    CountsAdd(states[|steps|].inFlight, states[|steps|].lines, 0, port);
  }

  // What the lines say

  ghost predicate OpenedAs(steps: seq<Step>, id: Id, dst: Destination)
  {
    exists k :: 0 <= k < |steps| && steps[k] == Open(dst) && Opened(steps[..k]) == id
  }

  /** A line names the destination its connection was opened to, and how it ended: the
      result its handle was dropped with, or open, when a `close` came first. */
  ghost predicate Truthful(steps: seq<Step>, line: Line)
  {
    line.Connection? ==>
      && OpenedAs(steps, line.id, line.dst)
      && match line.end
         case Ended(ok) => End(line.id, ok) in steps
         case StillOpen => line.id < ClosedBelow(steps)
  }

  ghost predicate AllTruthful(s: Log, steps: seq<Step>)
  {
    && (forall id :: id in s.open ==> OpenedAs(steps, id, s.open[id]))
    && (forall i :: 0 <= i < |s.inFlight| ==> Truthful(steps, s.inFlight[i]))
    && (forall i :: 0 <= i < |s.lines| ==> Truthful(steps, s.lines[i]))
  }

  lemma TruthLasts(steps: seq<Step>, line: Line)
    requires steps != [] && Truthful(steps[..|steps| - 1], line)
    ensures Truthful(steps, line)
  {
    if line.Connection? {
      OpenedAsLasts(steps, line.id, line.dst);
      var n := |steps| - 1;
      ClosedBelowOpened(steps[..n]);
    }
  }

  lemma OpenedAsLasts(steps: seq<Step>, id: Id, dst: Destination)
    requires steps != [] && OpenedAs(steps[..|steps| - 1], id, dst)
    ensures OpenedAs(steps, id, dst)
  {
    var n := |steps| - 1;
    var k :| 0 <= k < n && steps[..n][k] == Open(dst) && Opened(steps[..n][..k]) == id;
    assert steps[..n][..k] == steps[..k] && steps[k] == Open(dst);
  }

  lemma TruthKept(s: Log, steps: seq<Step>)
    requires steps != [] && AllTruthful(s, steps[..|steps| - 1])
    ensures AllTruthful(s, steps)
  {
    forall id | id in s.open ensures OpenedAs(steps, id, s.open[id]) { OpenedAsLasts(steps, id, s.open[id]); }
    forall i | 0 <= i < |s.inFlight| ensures Truthful(steps, s.inFlight[i]) { TruthLasts(steps, s.inFlight[i]); }
    forall i | 0 <= i < |s.lines| ensures Truthful(steps, s.lines[i]) { TruthLasts(steps, s.lines[i]); }
  }

  /** What one step takes out of the table it turns into a truthful line. */
  lemma TruthStep(s: Log, steps: seq<Step>, t: Log)
    requires steps != [] && AllTruthful(s, steps)
    requires s.next == Opened(steps[..|steps| - 1]) && forall id :: id in s.open ==> id < s.next
    requires Next(s, steps[|steps| - 1], t)
    ensures AllTruthful(t, steps)
  {
    hide ClosedBelow, StillOpenLines, ListsEach;
    var n := |steps| - 1;
    match steps[n] {
      case Open(dst) =>
        assert OpenedAs(steps, s.next, dst);
      case End(id, ok) =>
        if id in s.open {
          assert Truthful(steps, Connection(id, s.open[id], Ended(ok)));
        }
      case Close => TruthOfClose(s, steps, t);
      case _ =>
    }
  }

  lemma TruthOfClose(s: Log, steps: seq<Step>, t: Log)
    requires steps != [] && AllTruthful(s, steps) && steps[|steps| - 1].Close?
    requires s.next == Opened(steps[..|steps| - 1]) && forall id :: id in s.open ==> id < s.next
    requires Next(s, Close, t)
    ensures AllTruthful(t, steps)
  {
    hide OpenedAs, Opened;
    var ids: seq<Id> :| ListsEach(ids, s.open) && t == Closed(s, ids);
    assert ClosedBelow(steps) == s.next;
    var a := StillOpenLines(ids, s.open);
    forall i | 0 <= i < |a| ensures Truthful(steps, a[i]) {
      assert ids[i] in s.open;
    }
  }

  lemma {:induction false} LinesAreTruthful(states: seq<Log>, steps: seq<Step>)
    requires Run(states, steps) && EndsFollowOpens(steps)
    ensures AllTruthful(states[|steps|], steps)
    decreases |steps|
  {
    if steps == [] {
    } else {
      var n := |steps| - 1;
      RunBefore(states, steps);
      LinesAreTruthful(states[..n + 1], steps[..n]);
      EveryRunAccounts(states[..n + 1], steps[..n], 0, 0);
      forall id | id in states[n].open ensures id < states[n].next {
        EveryRunAccounts(states[..n + 1], steps[..n], id, 0);
      }
      TruthKept(states[n], steps);
      TruthStep(states[n], steps, states[n + 1]);
    }
  }
}
