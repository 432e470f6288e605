/** Every connection of a guest on one egress pace: whatever payloads arrive and however the
    connections are polled, what leaves keeps to the pace. */
module Outflow {
  import opened Common
  import opened Pacing
  import Egress
  import Stream

  /** What was spent on the pace, in order: each draw with the connection and the payload it is
      for, and when that payload left; and the draws of each connection. */
  datatype Book = Book(
    ds: seq<Draw>, whose: seq<(nat, nat)>, gone: seq<Option<real>>, mine: seq<seq<nat>>)

  datatype State = State(start: real, clock: real, level: Level, conns: seq<Stream.Reading>, book: Book)

  datatype Step =
    | Connect
    | Poll(c: nat, room: nat, now: real)
    /** A payload arrives, the guest is done, or bytes are put in front. */
    | Other(c: nat, step: Stream.ReadStep)

  function Booked(b: Book, c: nat, now: real, n: nat): (r: Book)
    requires c < |b.mine|
  {
    Book(b.ds + [Draw(now, n as real)], b.whose + [(c, |b.mine[c]|)], b.gone + [None],
         b.mine[c := b.mine[c] + [|b.ds|]])
  }

  function Departed(b: Book, c: nat, i: nat, now: real): (r: Book)
  {
    if c < |b.mine| && i < |b.mine[c]| && b.mine[c][i] < |b.gone|
    then b.(gone := b.gone[b.mine[c][i] := Some(now)]) else b
  }

  /** What spending the next payload of a connection would answer. */
  function Answer(rate: Rate, level: Level, w: Stream.Reading, now: real): (delay: Option<real>)
    requires rate.perSecond > 0
  {
    if w.reader.rx.inbox == [] then None
    else Hold(rate, Drawn(rate, level, now, |w.reader.rx.inbox[0]| as real), Egress.EGRESS_SLACK)
  }

  /** The book after a poll that turned `w` into `v`. */
  function Kept(b: Book, c: nat, w: Stream.Reading, v: Stream.Reading, now: real): (r: Book)
    requires c < |b.mine|
  {
    var spent := if |w.taken| < |v.taken| then Booked(b, c, now, v.taken[|w.taken|].n) else b;
    if |w.left| < |v.left| then Departed(spent, c, |w.left|, now) else spent
  }

  ghost predicate Next(rate: Rate, s: State, step: Step, t: State)
    requires rate.perSecond > 0
  {
    match step
    case Connect =>
      t == s.(conns := s.conns + [Stream.Unused(s.clock)], book := s.book.(mine := s.book.mine + [[]]))
    case Poll(c, room, now) =>
      && c < |s.conns| == |t.conns| && c < |s.book.mine| && s.clock <= now
      && var w, v := s.conns[c], t.conns[c];
         && Stream.Reads(w, Stream.Poll(room, now, Answer(rate, s.level, w, now)), v)
         && t == State(s.start, now,
                       if |w.taken| < |v.taken| then Drawn(rate, s.level, now, v.taken[|w.taken|].n as real)
                       else s.level,
                       s.conns[c := v], Kept(s.book, c, w, v, now))
    case Other(c, other) =>
      && c < |s.conns| == |t.conns| && !other.Poll? && Stream.Reads(s.conns[c], other, t.conns[c])
      && t == s.(conns := s.conns[c := t.conns[c]])
  }

  function Boot(rate: Rate, start: real): (s: State)
  {
    State(start, start, Full(rate, start), [], Book([], [], [], []))
  }

  ghost predicate Run(rate: Rate, states: seq<State>, steps: seq<Step>)
    requires rate.perSecond > 0
  {
    && |states| == |steps| + 1 && states[0] == Boot(rate, states[0].start)
    && forall k :: 0 <= k < |steps| ==> Next(rate, states[k], steps[k], states[k + 1])
  }

  // ---------------------------------------------------------------------
  // What every step keeps
  // ---------------------------------------------------------------------

  ghost function Takens(conns: seq<Stream.Reading>): (r: seq<seq<Stream.Spend>>)
  {
    seq(|conns|, c requires 0 <= c < |conns| => conns[c].taken)
  }

  ghost function Lefts(conns: seq<Stream.Reading>): (r: seq<seq<real>>)
  {
    seq(|conns|, c requires 0 <= c < |conns| => conns[c].left)
  }

  /** Payload `i` of connection `c` is the draw the book says, with its delay and its leaving. */
  ghost predicate Entered(rate: Rate, start: real, b: Book, ts: seq<seq<Stream.Spend>>, ls: seq<seq<real>>,
                          c: nat, i: nat)
    requires rate.perSecond > 0 && c < |ts| == |ls| == |b.mine| && i < |ts[c]| == |b.mine[c]|
    requires |b.whose| == |b.gone| == |b.ds|
  {
    var j := b.mine[c][i];
    && j < |b.ds| && b.whose[j] == (c, i)
    && b.ds[j] == Draw(ts[c][i].at, ts[c][i].n as real)
    && ts[c][i].delay == Egress.HeldFor(rate, start, b.ds, j)
    && b.gone[j] == if i < |ls[c]| then Some(ls[c][i]) else None
  }

  ghost predicate Owned(b: Book, j: nat)
    requires j < |b.whose|
  {
    var (c, i) := b.whose[j]; c < |b.mine| && i < |b.mine[c]| && b.mine[c][i] == j
  }

  ghost predicate BookInv(rate: Rate, start: real, b: Book, ts: seq<seq<Stream.Spend>>, ls: seq<seq<real>>)
    requires rate.perSecond > 0
  {
    && |b.mine| == |ts| == |ls| && |b.whose| == |b.gone| == |b.ds|
    && (forall c :: 0 <= c < |ts| ==> |b.mine[c]| == |ts[c]| && |ls[c]| <= |ts[c]|)
    && (forall c, i :: 0 <= c < |ts| && 0 <= i < |ts[c]| ==> Entered(rate, start, b, ts, ls, c, i))
    && (forall j :: 0 <= j < |b.ds| ==> Owned(b, j))
  }

  lemma HeldForIsPrefix(rate: Rate, start: real, ds: seq<Draw>, d: Draw, j: nat)
    requires rate.perSecond > 0 && j < |ds|
    ensures Egress.HeldFor(rate, start, ds + [d], j) == Egress.HeldFor(rate, start, ds, j)
  {
    PrefixOnly(rate, Full(rate, start), ds, ds + [d], 0.0, 0.0, j + 1);
  }

  /** A payload is spent and its draw entered. */
  lemma BookedKeeps(rate: Rate, start: real, b: Book, ts: seq<seq<Stream.Spend>>, ls: seq<seq<real>>,
                    c: nat, s: Stream.Spend)
    requires rate.perSecond > 0 && BookInv(rate, start, b, ts, ls) && c < |ts| && |ls[c]| == |ts[c]|
    requires s.delay == Egress.HeldFor(rate, start, b.ds + [Draw(s.at, s.n as real)], |b.ds|)
    ensures BookInv(rate, start, Booked(b, c, s.at, s.n), ts[c := ts[c] + [s]], ls)
  {
    hide Egress.HeldFor;
    var t, more, d := Booked(b, c, s.at, s.n), ts[c := ts[c] + [s]], Draw(s.at, s.n as real);
    forall e, i | 0 <= e < |more| && 0 <= i < |more[e]| ensures Entered(rate, start, t, more, ls, e, i) {
      if !(e == c && i == |ts[c]|) {
        assert Entered(rate, start, b, ts, ls, e, i);
        HeldForIsPrefix(rate, start, b.ds, d, b.mine[e][i]);
      }
    }
    assert t.mine[c] == b.mine[c] + [|b.ds|] && t.whose[|b.ds|] == (c, |b.mine[c]|);
    forall j | 0 <= j < |t.ds| ensures Owned(t, j) {
      if j < |b.ds| {
        assert Owned(b, j) && t.whose[j] == b.whose[j];
      }
    }
  }

  /** A payload leaves, and the book says when. */
  lemma DepartedKeeps(rate: Rate, start: real, b: Book, ts: seq<seq<Stream.Spend>>, ls: seq<seq<real>>,
                      c: nat, now: real)
    requires rate.perSecond > 0 && BookInv(rate, start, b, ts, ls) && c < |ts| && |ls[c]| < |ts[c]|
    ensures var j := b.mine[c][|ls[c]|]; j < |b.gone| && b.gone[j] == None && b.ds[j].n == ts[c][|ls[c]|].n as real
    ensures BookInv(rate, start, Departed(b, c, |ls[c]|, now), ts, ls[c := ls[c] + [now]])
  {
    hide Egress.HeldFor;
    var i0 := |ls[c]|;
    assert Entered(rate, start, b, ts, ls, c, i0);
    var t, more := Departed(b, c, i0, now), ls[c := ls[c] + [now]];
    forall e, i | 0 <= e < |ts| && 0 <= i < |ts[e]| ensures Entered(rate, start, t, ts, more, e, i) {
      assert Entered(rate, start, b, ts, ls, e, i);
      assert (e, i) != (c, i0) ==> b.mine[e][i] != b.mine[c][i0];
    }
    forall j | 0 <= j < |t.ds| ensures Owned(t, j) {
      assert Owned(b, j);
    }
  }

  ghost predicate DrawsInv(rate: Rate, s: State)
  {
    && s.start <= s.clock && Ordered(s.start, s.book.ds)
    && (forall j :: 0 <= j < |s.book.ds| ==> s.book.ds[j].now <= s.clock)
    && s.level == LevelAt(rate, Full(rate, s.start), s.book.ds, |s.book.ds|)
  }

  ghost predicate ConnsInv(s: State)
  {
    forall c :: 0 <= c < |s.conns| ==>
      Stream.Timed(s.conns[c]) && Stream.Faithful(s.conns[c]) && s.conns[c].clock <= s.clock
  }

  ghost predicate Inv(rate: Rate, s: State)
    requires rate.perSecond > 0
  {
    && DrawsInv(rate, s) && ConnsInv(s)
    && BookInv(rate, s.start, s.book, Takens(s.conns), Lefts(s.conns))
    && OutAll(s.book, |s.book.ds|) == Total(s.conns, |s.conns|) as real
  }

  /** The bytes of the draws that left. */
  ghost function OutAll(b: Book, k: nat): (r: real)
  {
    if k == 0 || k > |b.ds| || k > |b.gone| then 0.0
    else OutAll(b, k - 1) + if b.gone[k - 1].Some? then b.ds[k - 1].n else 0.0
  }

  /** The bytes all connections let go. */
  ghost function Total(conns: seq<Stream.Reading>, k: nat): (r: nat)
    requires k <= |conns|
  {
    if k == 0 then 0 else Total(conns, k - 1) + Stream.Sum(conns[k - 1].reader.rx.consumed)
  }

  lemma {:induction false} OutAllBooked(b: Book, c: nat, now: real, n: nat, k: nat)
    requires c < |b.mine| && |b.gone| == |b.ds| && k <= |b.ds|
    ensures OutAll(Booked(b, c, now, n), k) == OutAll(b, k)
  {
    if k > 0 {
      OutAllBooked(b, c, now, n, k - 1);
    }
  }

  lemma {:induction false} OutAllDeparted(b: Book, c: nat, i: nat, now: real, k: nat)
    requires |b.gone| == |b.ds| && k <= |b.ds| && c < |b.mine| && i < |b.mine[c]| && b.mine[c][i] < |b.ds|
    requires b.gone[b.mine[c][i]].None?
    ensures var j := b.mine[c][i];
            OutAll(Departed(b, c, i, now), k) == OutAll(b, k) + if j < k then b.ds[j].n else 0.0
  {
    if k > 0 {
      OutAllDeparted(b, c, i, now, k - 1);
    }
  }

  lemma {:induction false} TotalOfOneChanged(conns: seq<Stream.Reading>, c: nat, v: Stream.Reading, k: nat)
    requires c < |conns| && k <= |conns|
    ensures Total(conns[c := v], k) + (if c < k then Stream.Sum(conns[c].reader.rx.consumed) else 0) ==
            Total(conns, k) + if c < k then Stream.Sum(v.reader.rx.consumed) else 0
  {
    if k > 0 {
      TotalOfOneChanged(conns, c, v, k - 1);
    }
  }

  lemma {:induction false} TotalOfMore(conns: seq<Stream.Reading>, v: Stream.Reading, k: nat)
    requires k <= |conns|
    ensures Total(conns + [v], k) == Total(conns, k)
  {
    if k > 0 {
      TotalOfMore(conns, v, k - 1);
    }
  }

  lemma OneChanged(conns: seq<Stream.Reading>, c: nat, v: Stream.Reading)
    requires c < |conns|
    ensures Takens(conns[c := v]) == Takens(conns)[c := v.taken]
    ensures Lefts(conns[c := v]) == Lefts(conns)[c := v.left]
  {
  }

  /** What a poll lets go is counted once. */
  lemma CountedOnce(conns: seq<Stream.Reading>, c: nat, v: Stream.Reading)
    requires c < |conns|
    ensures v.reader.rx.consumed == conns[c].reader.rx.consumed ==>
              Total(conns[c := v], |conns|) == Total(conns, |conns|)
    ensures forall n: nat :: v.reader.rx.consumed == conns[c].reader.rx.consumed + [n] ==>
              Total(conns[c := v], |conns|) == Total(conns, |conns|) + n
  {
    TotalOfOneChanged(conns, c, v, |conns|);
    forall n: nat | v.reader.rx.consumed == conns[c].reader.rx.consumed + [n]
      ensures Total(conns[c := v], |conns|) == Total(conns, |conns|) + n
    {
      Stream.SumOneMore(conns[c].reader.rx.consumed, n);
    }
  }

  lemma DrawAdded(rate: Rate, s: State, now: real, n: nat)
    requires DrawsInv(rate, s) && s.clock <= now
    ensures DrawsInv(rate, s.(clock := now))
    ensures var d := Draw(now, n as real);
            && Drawn(rate, s.level, now, n as real) ==
               LevelAt(rate, Full(rate, s.start), s.book.ds + [d], |s.book.ds| + 1)
            && Ordered(s.start, s.book.ds + [d])
  {
    var d := Draw(now, n as real);
    PrefixOnly(rate, Full(rate, s.start), s.book.ds, s.book.ds + [d], 0.0, 0.0, |s.book.ds|);
    hide Drawn;
    assert LevelAt(rate, Full(rate, s.start), s.book.ds + [d], |s.book.ds| + 1)
        == Drawn(rate, LevelAt(rate, Full(rate, s.start), s.book.ds + [d], |s.book.ds|), now, n as real);
  }

  /** A poll that takes a payload enters its draw. */
  lemma TakingKeeps(rate: Rate, s: State, c: nat, now: real, v: Stream.Reading)
    requires rate.perSecond > 0 && Inv(rate, s) && c < |s.conns| && s.clock <= now
    requires var w := s.conns[c];
             && |w.left| == |w.taken| && w.reader.rx.inbox != []
             && v.taken == w.taken + [Stream.Spend(|w.reader.rx.inbox[0]|, now, Answer(rate, s.level, w, now))]
    ensures var n := |s.conns[c].reader.rx.inbox[0]|;
            var b := Booked(s.book, c, now, n);
            && BookInv(rate, s.start, b, Takens(s.conns)[c := v.taken], Lefts(s.conns))
            && OutAll(b, |b.ds|) == OutAll(s.book, |s.book.ds|)
            && DrawsInv(rate, State(s.start, now, Drawn(rate, s.level, now, n as real), s.conns, b))
  {
    var w := s.conns[c];
    var n := |w.reader.rx.inbox[0]|;
    DrawAdded(rate, s, now, n);
    OutAllBooked(s.book, c, now, n, |s.book.ds|);
    hide ConnsInv, BookInv, LevelAt, Drawn;
    BookedKeeps(rate, s.start, s.book, Takens(s.conns), Lefts(s.conns), c,
                Stream.Spend(n, now, Answer(rate, s.level, w, now)));
  }

  /** A poll that lets a payload go says when. */
  lemma LeavingKeeps(rate: Rate, start: real, b: Book, ts: seq<seq<Stream.Spend>>, ls: seq<seq<real>>,
                     c: nat, now: real)
    requires rate.perSecond > 0 && BookInv(rate, start, b, ts, ls) && c < |ts| && |ls[c]| < |ts[c]|
    ensures var t := Departed(b, c, |ls[c]|, now);
            && BookInv(rate, start, t, ts, ls[c := ls[c] + [now]]) && t.ds == b.ds
            && OutAll(t, |t.ds|) == OutAll(b, |b.ds|) + ts[c][|ls[c]|].n as real
  {
    DepartedKeeps(rate, start, b, ts, ls, c, now);
    hide Entered, Owned;
    OutAllDeparted(b, c, |ls[c]|, now, |b.ds|);
  }

  /** What a poll does to a connection: nothing, let go what it holds, take a payload, or take
      one and let it go at once. */
  ghost predicate Polled(rate: Rate, s: State, c: nat, now: real, v: Stream.Reading)
    requires rate.perSecond > 0 && c < |s.conns|
  {
    var w := s.conns[c];
    var had, more := w.reader.rx.consumed, v.reader.rx.consumed;
    if |w.taken| == |v.taken| then
      && v.taken == w.taken
      && if v.left == w.left then more == had
         else |w.left| < |w.taken| && v.left == w.left + [now] && more == had + [w.taken[|w.left|].n]
    else
      && |w.left| == |w.taken| && w.reader.rx.inbox != []
      && v.taken == w.taken + [Stream.Spend(|w.reader.rx.inbox[0]|, now, Answer(rate, s.level, w, now))]
      && if v.left == w.left then more == had
         else v.left == w.left + [now] && more == had + [|w.reader.rx.inbox[0]|]
  }

  lemma PollIsPolled(rate: Rate, s: State, step: Step, t: State)
    requires rate.perSecond > 0 && ConnsInv(s) && Next(rate, s, step, t) && step.Poll?
    ensures Polled(rate, s, step.c, step.now, t.conns[step.c])
  {
    hide Kept, Answer, Drawn;
    var w, v := s.conns[step.c], t.conns[step.c];
    var rs := Stream.Poll(step.room, step.now, Answer(rate, s.level, w, step.now));
    Stream.PollTurns(w, rs, v);
    Stream.LeavingIsConsumed(w, rs, v);
    hide Stream.Reads, Stream.Faithful;
  }

  /** The book and the bytes after a poll. */
  lemma PollKeepsTheBook(rate: Rate, s: State, c: nat, now: real, v: Stream.Reading)
    requires rate.perSecond > 0 && Inv(rate, s) && c < |s.conns| && s.clock <= now && Polled(rate, s, c, now, v)
    ensures |s.book.mine| == |s.conns|
    ensures var b, conns := Kept(s.book, c, s.conns[c], v, now), s.conns[c := v];
            BookInv(rate, s.start, b, Takens(conns), Lefts(conns)) && OutAll(b, |b.ds|) == Total(conns, |conns|) as real
  {
    hide DrawsInv, ConnsInv, LevelAt, Drawn, Answer, Total, OutAll, Booked, Departed, Takens, Lefts, Entered, Owned;
    var w := s.conns[c];
    var ts, ls := Takens(s.conns), Lefts(s.conns);
    TakensAt(s.conns, c);
    OneChanged(s.conns, c, v);
    CountedOnce(s.conns, c, v);
    assert ts[c := w.taken] == ts && ls[c := w.left] == ls;
    hide BookInv;
    if |w.taken| < |v.taken| {
      TakingKeeps(rate, s, c, now, v);
      if v.left != w.left {
        LeavingKeeps(rate, s.start, Booked(s.book, c, now, v.taken[|w.taken|].n), ts[c := v.taken], ls, c, now);
      }
    } else if v.left != w.left {
      LeavingKeeps(rate, s.start, s.book, ts, ls, c, now);
    }
  }

  lemma PollKeepsTheDraws(rate: Rate, s: State, step: Step, t: State)
    requires rate.perSecond > 0 && Inv(rate, s) && Next(rate, s, step, t) && step.Poll?
    requires Polled(rate, s, step.c, step.now, t.conns[step.c])
    ensures DrawsInv(rate, t)
  {
    hide Stream.Reads, BookInv, ConnsInv, Answer, LevelAt, Drawn, Ordered, OutAll, Total;
    var w, v := s.conns[step.c], t.conns[step.c];
    DrawAdded(rate, s, step.now, 0);
    if |w.taken| < |v.taken| {
      DrawAdded(rate, s, step.now, v.taken[|w.taken|].n);
    }
  }

  lemma ConnsKept(rate: Rate, s: State, step: Step, t: State)
    requires rate.perSecond > 0 && Inv(rate, s) && Next(rate, s, step, t)
    ensures ConnsInv(t)
  {
    hide Kept, Answer, Drawn, BookInv, OutAll, Total, Stream.Timed, Stream.Faithful, Stream.Reads;
    match step
    case Connect => UnusedIsTimed(s.clock);
    case Poll(c, room, now) =>
      var rs := Stream.Poll(room, now, Answer(rate, s.level, s.conns[c], now));
      Stream.ReadStepIsTimed(s.conns[c], rs, t.conns[c]);
      Stream.ReadStepKeeps(s.conns[c], rs, t.conns[c]);
    case Other(c, other) =>
      Stream.ReadStepIsTimed(s.conns[c], other, t.conns[c]);
      Stream.ReadStepKeeps(s.conns[c], other, t.conns[c]);
  }

  lemma UnusedIsTimed(clock: real)
    ensures var w := Stream.Unused(clock); Stream.Timed(w) && Stream.Faithful(w)
  {
    assert Stream.Lengths([]) == [] && Stream.Sum([]) == 0;
  }

  lemma OtherKeeps(rate: Rate, s: State, step: Step, t: State)
    requires rate.perSecond > 0 && Inv(rate, s) && Next(rate, s, step, t) && !step.Poll?
    ensures BookInv(rate, t.start, t.book, Takens(t.conns), Lefts(t.conns)) && DrawsInv(rate, t)
    ensures OutAll(t.book, |t.book.ds|) == Total(t.conns, |t.conns|) as real
  {
    hide LevelAt, Drawn, Stream.Timed, Stream.Faithful, Egress.HeldFor;
    match step
    case Connect =>
      ConnectKeeps(rate, s.start, s.book, Takens(s.conns), Lefts(s.conns));
      SameOut(s.book, s.book.(mine := s.book.mine + [[]]), |s.book.ds|);
      TotalOfMore(s.conns, Stream.Unused(s.clock), |s.conns|);
      assert Takens(t.conns) == Takens(s.conns) + [[]] && Lefts(t.conns) == Lefts(s.conns) + [[]];
    case Other(c, other) =>
      var w, v := s.conns[c], t.conns[c];
      assert v.taken == w.taken && v.left == w.left && v.reader.rx.consumed == w.reader.rx.consumed;
      OneChanged(s.conns, c, v);
      CountedOnce(s.conns, c, v);
      assert Takens(s.conns)[c := w.taken] == Takens(s.conns) && Lefts(s.conns)[c := w.left] == Lefts(s.conns);
  }

  lemma ConnectKeeps(rate: Rate, start: real, b: Book, ts: seq<seq<Stream.Spend>>, ls: seq<seq<real>>)
    requires rate.perSecond > 0 && BookInv(rate, start, b, ts, ls)
    ensures BookInv(rate, start, b.(mine := b.mine + [[]]), ts + [[]], ls + [[]])
  {
    hide Egress.HeldFor;
    var t := b.(mine := b.mine + [[]]);
    forall c, i | 0 <= c < |ts + [[]]| && 0 <= i < |(ts + [[]])[c]|
      ensures Entered(rate, start, t, ts + [[]], ls + [[]], c, i)
    {
      assert Entered(rate, start, b, ts, ls, c, i);
    }
    forall j | 0 <= j < |t.ds| ensures Owned(t, j) {
      assert Owned(b, j);
    }
  }

  lemma {:induction false} SameOut(a: Book, b: Book, k: nat)
    requires a.ds == b.ds && a.gone == b.gone
    ensures OutAll(a, k) == OutAll(b, k)
  {
    if k > 0 {
      SameOut(a, b, k - 1);
    }
  }

  lemma StepKeeps(rate: Rate, s: State, step: Step, t: State)
    requires rate.perSecond > 0 && Inv(rate, s) && Next(rate, s, step, t)
    ensures Inv(rate, t)
  {
    ConnsKept(rate, s, step, t);
    if step.Poll? {
      PollIsPolled(rate, s, step, t);
      PollKeepsTheDraws(rate, s, step, t);
      PollKeepsTheBook(rate, s, step.c, step.now, t.conns[step.c]);
    } else {
      OtherKeeps(rate, s, step, t);
    }
  }

  lemma {:induction false} EveryRunKeeps(rate: Rate, states: seq<State>, steps: seq<Step>, k: nat)
    requires rate.perSecond > 0 && Run(rate, states, steps) && k <= |steps|
    ensures Inv(rate, states[k])
  {
    if k > 0 {
      hide Inv, Next;
      EveryRunKeeps(rate, states, steps, k - 1);
      StepKeeps(rate, states[k - 1], steps[k - 1], states[k]);
    }
  }

  // ---------------------------------------------------------------------
  // The pace is kept
  // ---------------------------------------------------------------------

  /** The bytes of the draws that left by `to`. */
  ghost function OutBy(b: Book, to: real, k: nat): (r: real)
    requires |b.gone| == |b.ds| && k <= |b.ds|
  {
    if k == 0 then 0.0
    else OutBy(b, to, k - 1) + if b.gone[k - 1].Some? && b.gone[k - 1].value <= to then b.ds[k - 1].n else 0.0
  }

  /** When each draw left; one that has not yet does so after `to`. */
  ghost function LeavingTimes(rate: Rate, start: real, b: Book, to: real): (r: seq<real>)
    requires rate.perSecond > 0 && |b.gone| == |b.ds|
  {
    seq(|b.ds|, j requires 0 <= j < |b.ds| =>
      if b.gone[j].Some? then b.gone[j].value
      else var due := Egress.ReleaseTime(rate, start, b.ds, j); if due <= to then to + 1.0 else due)
  }

  /** No draw leaves before it is due. */
  lemma DrawsLeaveWhenDue(rate: Rate, s: State, j: nat)
    requires rate.perSecond > 0 && Inv(rate, s) && j < |s.book.ds| && s.book.gone[j].Some?
    ensures Egress.ReleaseTime(rate, s.start, s.book.ds, j) <= s.book.gone[j].value <= s.clock
  {
    hide LevelAt, OutAll, Total;
    var (c, i) := s.book.whose[j];
    assert Owned(s.book, j);
    assert Entered(rate, s.start, s.book, Takens(s.conns), Lefts(s.conns), c, i);
    assert Stream.Timed(s.conns[c]);
    Egress.Debt(rate, s.start, s.book.ds, j);
  }

  lemma {:induction false} OutByIsLeftIn(b: Book, lefts: seq<real>, start: real, to: real, k: nat)
    requires |b.gone| == |b.ds| == |lefts| && k <= |b.ds|
    requires forall j :: 0 <= j < |b.ds| ==> 0.0 <= b.ds[j].n
    requires forall j :: 0 <= j < |b.ds| && b.gone[j].Some? ==> start <= lefts[j] == b.gone[j].value
    ensures OutBy(b, to, k) <= Egress.LeftIn(b.ds, lefts, start, to, k)
  {
    if k > 0 {
      OutByIsLeftIn(b, lefts, start, to, k - 1);
    }
  }

  lemma {:induction false} OutByNowIsAll(b: Book, clock: real, k: nat)
    requires |b.gone| == |b.ds| && k <= |b.ds|
    requires forall j :: 0 <= j < |b.ds| && b.gone[j].Some? ==> b.gone[j].value <= clock
    ensures OutBy(b, clock, k) == OutAll(b, k)
  {
    if k > 0 {
      OutByNowIsAll(b, clock, k - 1);
    }
  }

  /** In every run, whatever arrives and however the connections are polled, the draws leave as
      the pace has them leave; so by any time no more bytes have left than the burst, what the
      pace allows since the start, and the slack. By now all that left is what the connections
      let go. */
  lemma ThePaceIsKept(rate: Rate, states: seq<State>, steps: seq<Step>, k: nat, to: real)
    requires rate.perSecond > 0 && Run(rate, states, steps) && k <= |steps| && states[k].start <= to
    ensures var s := states[k];
            && |s.book.gone| == |s.book.ds| && Ordered(s.start, s.book.ds)
            && Egress.Leave(rate, s.start, s.book.ds, LeavingTimes(rate, s.start, s.book, to))
            && OutBy(s.book, to, |s.book.ds|)
               <= rate.Cap() + rate.Fill(to - s.start) + rate.Fill(Egress.EGRESS_SLACK)
            && OutBy(s.book, s.clock, |s.book.ds|) == Total(s.conns, |s.conns|) as real
  {
    EveryRunKeeps(rate, states, steps, k);
    var s := states[k];
    hide Run, LevelAt, OutAll, Total, Egress.ReleaseTime;
    var lefts := LeavingTimes(rate, s.start, s.book, to);
    forall j | 0 <= j < |s.book.ds|
      ensures Egress.ReleaseTime(rate, s.start, s.book.ds, j) <= lefts[j]
      ensures s.book.gone[j].Some? ==> s.start <= s.book.gone[j].value <= s.clock
    {
      Egress.DueAfterStart(rate, s.start, s.book.ds, j);
      if s.book.gone[j].Some? {
        DrawsLeaveWhenDue(rate, s, j);
      }
    }
    Egress.ReleasedSinceStart(rate, s.start, s.book.ds, lefts, to);
    OutByIsLeftIn(s.book, lefts, s.start, to, |s.book.ds|);
    OutByNowIsAll(s.book, s.clock, |s.book.ds|);
  }

  lemma TakensAt(conns: seq<Stream.Reading>, c: nat)
    requires c < |conns|
    ensures |Takens(conns)| == |Lefts(conns)| == |conns|
    ensures Takens(conns)[c] == conns[c].taken && Lefts(conns)[c] == conns[c].left
  {
  }
}
