/** One process spawned over JSON-RPC: the main loop accepts stdin for it within a backlog, an
    input thread writes it to the guest and answers, and a reader turns the guest's frames
    into events. Each step is one atomic operation of one of the three threads. */
module Stdio {

  import opened Common

  const STDIN_BACKLOG: nat := 4 * 1024 * 1024
  const FILE_CHUNK: nat := 256 * 1024

  /** Input requests are numbered as they come. */
  type Req = nat

  datatype Why = Rejected | BacklogFull | HasExited | WasKilled | StdinClosed | WriteFailed
  datatype Outcome = Ok | Err(why: Why)
  datatype Reply = Reply(req: Req, outcome: Outcome)

  /** An input request: whether it wants a reply, and its data. */
  datatype Ask = Ask(asks: bool, data: Bytes)

  datatype Msg = Stdin(data: Bytes, req: Req) | Kill

  /** A frame written to the guest. */
  datatype Wire = Input(chunk: Bytes) | KillFrame

  datatype Event = Output(stderr: bool, data: Bytes) | Exit(code: int)

  /** Where the main loop is within a request for the process. */
  datatype Main = Idle | Checked(data: Bytes, req: Req) | Added(data: Bytes, req: Req) | Killing

  datatype Thread = NotRunning | Waiting | Took(data: Bytes, req: Req) | Subtracted(data: Bytes, req: Req) | Over

  /** `Abandoned` when the connection could not be cloned. */
  datatype Phase = Opening | Running | Ended | Abandoned

  datatype Process = Process(
    backlog: int,
    killed: bool,
    queue: seq<Msg>,
    receiving: bool,
    handle: bool,
    main: Main,
    input: Thread,
    closed: Option<Why>,
    phase: Phase,
    asked: seq<Ask>,
    settled: set<Req>,
    replies: seq<Reply>,
    wire: seq<Wire>,
    events: seq<Event>,
    written: seq<Msg>,
    partial: Bytes,
    lost: seq<Msg>,
    behind: bool)

  const Spawned := Process(0, false, [], true, true, Idle, NotRunning, None, Opening,
                           [], {}, [], [], [], [], [], [], false)

  /** A notification gets no reply. */
  function Answered(p: Process, req: Req, outcome: Outcome): (q: Process)
    ensures q == p.(settled := q.settled, replies := q.replies)
  {
    p.(settled := p.settled + {req},
       replies := if req < |p.asked| && p.asked[req].asks then p.replies + [Reply(req, outcome)] else p.replies)
  }

  function Frames(chunks: seq<Bytes>): (r: seq<Wire>)
  {
    seq(|chunks|, i requires 0 <= i < |chunks| => Input(chunks[i]))
  }

  /** Writes data in chunks; the chunk `failAt` is the first that cannot be written. */
  function Forwarded(p: Process, data: Bytes, req: Req, failAt: nat): (q: Process)
  {
    var chunks := Chunks(data, FILE_CHUNK);
    if failAt < |chunks| then
      Answered(p.(wire := p.wire + Frames(chunks[..failAt]), partial := Concat(chunks[..failAt]),
                  closed := Some(StdinClosed), input := Waiting), req, Err(WriteFailed))
    else
      Answered(p.(wire := p.wire + Frames(chunks), written := p.written + [Stdin(data, req)], input := Waiting),
               req, Ok)
  }

  /** What the input thread does with stdin once it has left the backlog. */
  function Handled(p: Process, data: Bytes, req: Req, failAt: nat): (q: Process)
    ensures q == p.(settled := q.settled, replies := q.replies, wire := q.wire, partial := q.partial,
                    closed := q.closed, written := q.written, input := Waiting)
    ensures q.settled == p.settled + {req}
    ensures q.written == p.written || q.written == p.written + [Stdin(data, req)]
  {
    var closed := if p.killed then Some(WasKilled) else p.closed;
    if closed.Some? then Answered(p.(closed := closed, input := Waiting), req, Err(closed.value))
    else Forwarded(p, data, req, failAt)
  }

  /** What the input thread does with a message: a kill is passed on unless stdin is closed. */
  function Taken(p: Process, m: Msg, killWritten: bool): (q: Process)
    ensures q == p.(input := q.input, wire := q.wire, closed := q.closed)
    ensures q.input == if m.Stdin? then Took(m.data, m.req) else p.input
  {
    match m
    case Stdin(data, req) => p.(input := Took(data, req))
    case Kill => p.(wire := if p.closed.None? && killWritten then p.wire + [KillFrame] else p.wire,
                    closed := Some(WasKilled))
  }

  /** A frame of the guest; the code of an exit frame may not parse. */
  datatype GuestFrame =
    | Stdout(data: Bytes)
    | Stderr(data: Bytes)
    | Exited(code: Option<int>)
    | Error(data: Bytes)
    | Other

  /** What the reader makes of a frame, or of the end of the connection. */
  function Heard(p: Process, frame: Option<GuestFrame>): (q: Process)
    ensures q == p.(events := q.events, phase := q.phase) && (q.phase == p.phase || q.phase.Ended?)
  {
    match frame
    case Some(Stdout(data)) => p.(events := p.events + [Output(false, data)])
    case Some(Stderr(data)) => p.(events := p.events + [Output(true, data)])
    case Some(Exited(code)) =>
      p.(phase := Ended, events := p.events + [Exit(if code.Some? then code.value else 0)])
    case Some(Error(data)) => p.(phase := Ended, events := p.events + [Output(true, data), Exit(1)])
    case Some(Other) => p.(phase := Ended, events := p.events + [Exit(1)])
    case None => p.(phase := Ended, events := p.events + [Exit(1)])
  }

  /** Queues input; when nobody reads the queue any more it is taken back. */
  function Sent(p: Process, data: Bytes, req: Req): (q: Process)
    ensures q == p.(queue := q.queue, main := Idle, backlog := q.backlog, settled := q.settled, replies := q.replies)
  {
    if p.receiving then p.(queue := p.queue + [Stdin(data, req)], main := Idle)
    else Answered(p.(backlog := p.backlog - |data|, main := Idle), req, Err(HasExited))
  }

  lemma ForwardedWaits(p: Process, data: Bytes, req: Req, failAt: nat)
    ensures Forwarded(p.(input := Waiting), data, req, failAt) == Forwarded(p, data, req, failAt)
  {
    hide Chunks, Concat, Frames;
  }

  datatype Step =
    | Reject(asks: bool)
    | Check(data: Bytes, asks: bool)
    | Add
    | Send
    | KillSwap
    | KillSend
    | Forget
    | Open
    | OpenFails
    | CloneFails
    | Take(killWritten: bool)
    | Subtract
    | Handle(failAt: nat)
    | Finish
    | Read(frame: Option<GuestFrame>)

  /** Stdin that the input thread has yet to look at. */
  predicate StdinWaits(p: Process)
  {
    p.input.Took? || p.input.Subtracted? || exists i :: 0 <= i < |p.queue| && p.queue[i].Stdin?
  }

  predicate Enabled(s: Process, step: Step)
  {
    match step
    case Reject(_) => s.main.Idle?
    case Check(_, _) => s.main.Idle? && s.handle
    case Add => s.main.Checked?
    case Send => s.main.Added?
    case KillSwap => s.main.Idle? && s.handle
    case KillSend => s.main.Killing?
    case Forget => s.main.Idle?
    case Open => s.phase.Opening?
    case OpenFails => s.phase.Opening?
    case CloneFails => s.phase.Opening?
    case Take(_) => s.input.Waiting? && s.queue != []
    case Subtract => s.input.Took?
    case Handle(_) => s.input.Subtracted?
    case Finish => s.input.Waiting? && s.queue == [] && !s.handle
    case Read(_) => s.phase.Running?
  }

  function Apply(s: Process, step: Step): (t: Process)
    requires Enabled(s, step)
  {
    match step
    case Reject(asks) => Answered(s.(asked := s.asked + [Ask(asks, [])]), |s.asked|, Err(Rejected))
    case Check(data, asks) =>
      var p := s.(asked := s.asked + [Ask(asks, data)]);
      if s.backlog + |data| > STDIN_BACKLOG then Answered(p, |s.asked|, Err(BacklogFull))
      else p.(main := Checked(data, |s.asked|))
    case Add => s.(backlog := s.backlog + |s.main.data|, main := Added(s.main.data, s.main.req))
    case Send => Sent(s, s.main.data, s.main.req)
    case KillSwap => if s.killed then s else s.(killed := true, behind := StdinWaits(s), main := Killing)
    case KillSend => s.(queue := if s.receiving then s.queue + [Kill] else s.queue, main := Idle)
    case Forget => s.(handle := false)
    case Open => s.(phase := Running, input := Waiting)
    case OpenFails =>
      s.(phase := Ended, events := s.events + [Exit(1)], receiving := false, lost := s.queue, queue := [])
    case CloneFails => s.(phase := Abandoned, receiving := false, lost := s.queue, queue := [])
    case Take(killWritten) => Taken(s.(queue := s.queue[1..]), s.queue[0], killWritten)
    case Subtract => s.(backlog := s.backlog - |s.input.data|, input := Subtracted(s.input.data, s.input.req))
    case Handle(failAt) => Handled(s, s.input.data, s.input.req, failAt)
    case Finish => s.(input := Over, receiving := false)
    case Read(frame) => Heard(s, frame)
  }

  predicate Next(s: Process, step: Step, t: Process)
  {
    Enabled(s, step) && t == Apply(s, step)
  }

  // ---------------------------------------------------------------------
  // The process, one atomic operation at a time
  // ---------------------------------------------------------------------

  class Session {
    var backlog: int
    var killed: bool
    var queue: seq<Msg>
    var receiving: bool
    var handle: bool
    var main: Main
    var input: Thread
    var closed: Option<Why>
    var phase: Phase
    var asked: seq<Ask>
    var replies: seq<Reply>
    var wire: seq<Wire>
    var events: seq<Event>
    ghost var settled: set<Req>
    ghost var written: seq<Msg>
    ghost var partial: Bytes
    ghost var lost: seq<Msg>
    ghost var behind: bool

    ghost function View(): (p: Process)
      reads this
    {
      Process(backlog, killed, queue, receiving, handle, main, input, closed, phase, asked, settled, replies, wire,
              events, written, partial, lost, behind)
    }

    constructor ()
      ensures View() == Spawned
    {
      backlog, killed, queue, receiving, handle, main := 0, false, [], true, true, Idle;
      input, closed, phase, asked, replies, wire, events := NotRunning, None, Opening, [], [], [], [];
      settled, written, partial, lost, behind := {}, [], [], [], false;
    }

    /** A request with an id is answered, a notification is not. */
    method Answer(req: Req, outcome: Outcome)
      requires req < |asked|
      modifies `replies, `settled
      ensures View() == Answered(old(View()), req, outcome)
    {
      settled := settled + {req};
      if asked[req].asks {
        replies := replies + [Reply(req, outcome)];
      }
    }

    /** An input request: turned away when the backlog would pass its limit. */
    method CheckInput(data: Bytes, asks: bool)
      requires Enabled(View(), Check(data, asks))
      modifies `asked, `main, `replies, `settled
      ensures View() == Apply(old(View()), Check(data, asks))
    {
      var req := |asked|;
      asked := asked + [Ask(asks, data)];
      if backlog + |data| > STDIN_BACKLOG {
        Answer(req, Err(BacklogFull));
      } else {
        main := Checked(data, req);
      }
    }

    method AddInput()
      requires Enabled(View(), Add)
      modifies `backlog, `main
      ensures View() == Apply(old(View()), Add)
    {
      backlog := backlog + |main.data|;
      main := Added(main.data, main.req);
    }

    /** Queues the input; when nobody reads the queue any more, takes it back and says so. */
    method SendInput()
      requires Enabled(View(), Send) && main.req < |asked|
      modifies `queue, `backlog, `main, `replies, `settled
      ensures View() == Sent(old(View()), old(main).data, old(main).req)
    {
      var data, req := main.data, main.req;
      main := Idle;
      if receiving {
        queue := queue + [Stdin(data, req)];
      } else {
        backlog := backlog - |data|;
        Answer(req, Err(HasExited));
      }
    }

    method SwapKilled()
      requires Enabled(View(), KillSwap)
      modifies `killed, `behind, `main
      ensures View() == Apply(old(View()), KillSwap)
    {
      if !killed {
        behind := StdinWaits(View());
        killed := true;
        main := Killing;
      }
    }

    method SendKill()
      requires Enabled(View(), KillSend)
      modifies `queue, `main
      ensures View() == Apply(old(View()), KillSend)
    {
      if receiving {
        queue := queue + [Kill];
      }
      main := Idle;
    }

    /** The input thread takes a message; `killWritten` says whether a kill could be written. */
    method TakeMessage(killWritten: bool)
      requires Enabled(View(), Take(killWritten))
      modifies `queue, `input, `wire, `closed
      ensures View() == Taken(old(View()).(queue := old(queue)[1..]), old(queue)[0], killWritten)
    {
      var m := queue[0];
      queue := queue[1..];
      match m
      case Stdin(data, req) => input := Took(data, req);
      case Kill => PassKillOn(killWritten);
    }

    method PassKillOn(killWritten: bool)
      modifies `wire, `closed
      ensures View() == Taken(old(View()), Kill, killWritten)
    {
      if closed.None? && killWritten {
        wire := wire + [KillFrame];
      }
      closed := Some(WasKilled);
    }

    method SubtractInput()
      requires Enabled(View(), Subtract)
      modifies `backlog, `input
      ensures View() == Apply(old(View()), Subtract)
    {
      backlog := backlog - |input.data|;
      input := Subtracted(input.data, input.req);
    }

    /** Writes chunks in order until one fails. */
    method WriteChunks(chunks: seq<Bytes>, failAt: nat) returns (ok: bool)
      modifies `wire
      ensures ok <==> failAt >= |chunks|
      ensures wire == old(wire) + Frames(if ok then chunks else chunks[..failAt])
    {
      ghost var before := wire;
      for i := 0 to |chunks|
        invariant i <= failAt && wire == before + Frames(chunks[..i])
      {
        if i == failAt {
          return false;
        }
        wire := wire + [Input(chunks[i])];
        assert Frames(chunks[..i + 1]) == Frames(chunks[..i]) + [Input(chunks[i])];
      }
      assert chunks[..|chunks|] == chunks;
      return true;
    }

    /** What the input thread does with stdin it has taken off the backlog. */
    method HandleInput(failAt: nat)
      requires Enabled(View(), Handle(failAt)) && input.req < |asked|
      modifies `closed, `input, `wire, `partial, `written, `replies, `settled
      ensures View() == Handled(old(View()), old(input).data, old(input).req, failAt)
    {
      hide Forwarded;
      var data, req := input.data, input.req;
      input := Waiting;
      assert Forwarded(View(), data, req, failAt) == Forwarded(old(View()), data, req, failAt)
        by { ForwardedWaits(old(View()), data, req, failAt); }
      if killed {
        closed := Some(WasKilled);
      }
      if closed.Some? {
        Answer(req, Err(closed.value));
      } else {
        Forward(data, req, failAt);
      }
    }

    method Forward(data: Bytes, req: Req, failAt: nat)
      requires req < |asked| && input.Waiting?
      modifies `closed, `wire, `partial, `written, `replies, `settled
      ensures View() == Forwarded(old(View()), data, req, failAt)
    {
      hide Chunks, Concat, Frames;
      var chunks := Chunks(data, FILE_CHUNK);
      var ok := WriteChunks(chunks, failAt);
      if ok {
        written := written + [Stdin(data, req)];
        Answer(req, Ok);
      } else {
        partial := Concat(chunks[..failAt]);
        closed := Some(StdinClosed);
        Answer(req, Err(WriteFailed));
      }
    }

    /** One frame from the guest, or the end of the connection, as the reader meets it. */
    method ReadFrame(frame: Option<GuestFrame>)
      requires Enabled(View(), Read(frame))
      modifies `events, `phase
      ensures View() == Heard(old(View()), frame)
    {
      match frame
      case Some(Stdout(data)) => events := events + [Output(false, data)];
      case Some(Stderr(data)) => events := events + [Output(true, data)];
      case Some(Exited(code)) =>
        events := events + [Exit(if code.Some? then code.value else 0)];
        phase := Ended;
      case Some(Error(data)) =>
        events := events + [Output(true, data)];
        events := events + [Exit(1)];
        phase := Ended;
        assert events == old(events) + [Output(true, data), Exit(1)];
      case _ =>
        events := events + [Exit(1)];
        phase := Ended;
    }
  }

  /** Steps of the main loop that move input, and steps of the input thread. */
  predicate ByMain(step: Step)
  {
    step.Reject? || step.Check? || step.Add? || step.Send? || step.KillSend?
  }

  predicate ByInput(step: Step)
  {
    step.Take? || step.Subtract? || step.Handle?
  }

  /** Steps of the thread that opens the connection and reads from it. */
  predicate BySpawn(step: Step)
  {
    step.Open? || step.OpenFails? || step.CloneFails? || step.Read?
  }

  // ---------------------------------------------------------------------
  // The backlog
  // ---------------------------------------------------------------------

  function Load(queue: seq<Msg>): (r: nat)
  {
    if queue == [] then 0
    else Load(queue[..|queue| - 1]) + (if queue[|queue| - 1].Stdin? then |queue[|queue| - 1].data| else 0)
  }

  function InHand(p: Process): (r: nat)
  {
    (if p.main.Added? then |p.main.data| else 0) + (if p.input.Took? then |p.input.data| else 0)
  }

  /** The counter is the bytes queued, in hand, or dropped with a queue nobody reads. */
  ghost predicate Bounded(p: Process)
  {
    && p.backlog == Load(p.queue) + Load(p.lost) + InHand(p)
    && p.backlog <= STDIN_BACKLOG
    && (p.main.Checked? ==> p.backlog + |p.main.data| <= STDIN_BACKLOG)
    && (p.phase.Opening? ==> p.lost == [] && p.input.NotRunning?)
  }

  lemma LoadOneMore(queue: seq<Msg>, m: Msg)
    ensures Load(queue + [m]) == Load(queue) + (if m.Stdin? then |m.data| else 0)
  {
    assert (queue + [m])[..|queue|] == queue;
  }

  lemma {:induction false} LoadOneLess(queue: seq<Msg>)
    requires queue != []
    ensures Load(queue) == Load(queue[1..]) + (if queue[0].Stdin? then |queue[0].data| else 0)
  {
    var last := |queue| - 1;
    if last == 0 {
      assert queue[..0] == [] && queue[1..] == [];
    } else {
      LoadOneLess(queue[..last]);
      assert queue[..last][1..] == queue[1..][..last - 1];
    }
  }

  lemma BoundedByMain(s: Process, step: Step, t: Process)
    requires Bounded(s) && Next(s, step, t) && ByMain(step)
    ensures Bounded(t)
  {
    hide Load, Answered;
    if step.Send? {
      BoundedBySending(s, t);
    } else if step.KillSend? {
      LoadOneMore(s.queue, Kill);
    }
  }

  lemma BoundedBySending(s: Process, t: Process)
    requires Bounded(s) && Enabled(s, Send) && t == Sent(s, s.main.data, s.main.req)
    ensures Bounded(t)
  {
    hide Load, Answered;
    LoadOneMore(s.queue, Stdin(s.main.data, s.main.req));
  }

  lemma BoundedByInput(s: Process, step: Step, t: Process)
    requires Bounded(s) && Next(s, step, t) && ByInput(step)
    ensures Bounded(t)
  {
    hide Load, Handled, Taken;
    if step.Take? {
      LoadOneLess(s.queue);
    }
  }

  lemma BoundedByOthers(s: Process, step: Step, t: Process)
    requires Bounded(s) && Next(s, step, t) && !ByMain(step) && !ByInput(step)
    ensures Bounded(t)
  {
    hide Load, StdinWaits;
    NoLoad();
  }

  lemma NoLoad()
    ensures Load([]) == 0
  {
  }

  // ---------------------------------------------------------------------
  // Requests and replies
  // ---------------------------------------------------------------------

  function Reqs(msgs: seq<Msg>): (r: seq<Req>)
  {
    if msgs == [] then []
    else Reqs(msgs[..|msgs| - 1]) + (if msgs[|msgs| - 1].Stdin? then [msgs[|msgs| - 1].req] else [])
  }

  function OfMain(p: Process): (r: seq<Req>)
  {
    if p.main.Checked? || p.main.Added? then [p.main.req] else []
  }

  function OfInput(p: Process): (r: seq<Req>)
  {
    if p.input.Took? || p.input.Subtracted? then [p.input.req] else []
  }

  /** The requests not settled: dropped, with the input thread, queued, or with the main loop. */
  function InFlight(p: Process): (r: seq<Req>)
  {
    Reqs(p.lost) + (OfInput(p) + (Reqs(p.queue) + OfMain(p)))
  }

  ghost predicate Increasing(rs: seq<Req>)
  {
    forall i, j :: 0 <= i < j < |rs| ==> rs[i] < rs[j]
  }

  /** Requests are written and wait in the order they came, and are settled exactly when they
      no longer wait. */
  ghost predicate Ledger(written: seq<Req>, flight: seq<Req>, n: nat, settled: set<Req>)
  {
    && Increasing(written + flight)
    && (forall r: Req :: r in written + flight ==> r < n)
    && (forall r: Req :: r in settled <==> r < n && r !in flight)
  }

  ghost predicate Tracked(p: Process)
  {
    && Ledger(Reqs(p.written), InFlight(p), |p.asked|, p.settled)
    && (p.phase.Opening? ==> p.lost == [] && p.input.NotRunning? && p.receiving)
    && (!p.input.NotRunning? ==> p.lost == [])
  }

  lemma LedgerTurnsAway(w: seq<Req>, flight: seq<Req>, n: nat, settled: set<Req>)
    requires Ledger(w, flight, n, settled)
    ensures Ledger(w, flight, n + 1, settled + {n}) && n !in settled
  {
    assert n in flight ==> n in w + flight;
  }

  lemma LedgerTakesOn(w: seq<Req>, flight: seq<Req>, n: nat, settled: set<Req>)
    requires Ledger(w, flight, n, settled)
    ensures Ledger(w, flight + [n], n + 1, settled)
  {
    var line := w + flight;
    assert w + (flight + [n]) == line + [n];
    forall i | 0 <= i < |line| ensures line[i] < n {
      assert line[i] in line;
    }
  }

  lemma LedgerGivesUp(w: seq<Req>, a: seq<Req>, req: Req, b: seq<Req>, n: nat, settled: set<Req>)
    requires Ledger(w, a + [req] + b, n, settled)
    ensures Ledger(w, a + b, n, settled + {req}) && req !in settled && req < n
  {
    var before, after := w + (a + [req] + b), w + (a + b);
    var at := |w| + |a|;
    assert before[at] == req && before[..at] == after[..at] && before[at + 1..] == after[at..];
    forall i | 0 <= i < |after| ensures after[i] == before[if i < at then i else i + 1] {
    }
    assert req in a + [req] + b && req in before;
    forall r | r in a + b ensures r != req && r in a + [req] + b {
      var i :| 0 <= i < |a + b| && (a + b)[i] == r;
      assert after[|w| + i] == r;
    }
    forall r | r in after ensures r in before {
    }
    forall r | r in a + [req] + b && r != req ensures r in a + b {
      assert r in a || r in b;
    }
  }

  lemma LedgerWrites(w: seq<Req>, req: Req, b: seq<Req>, n: nat, settled: set<Req>)
    requires Ledger(w, [req] + b, n, settled)
    ensures Ledger(w + [req], b, n, settled + {req}) && req !in settled && req < n
  {
    var line := w + ([req] + b);
    assert line == (w + [req]) + b;
    assert line[|w|] == req;
    assert req in [req] + b;
    forall r | r in b ensures r != req && r in [req] + b {
      var i :| 0 <= i < |b| && b[i] == r;
      assert line[|w| + 1 + i] == r;
    }
    forall r | r in [req] + b && r != req ensures r in b {
    }
    assert req in line;
  }

  lemma ReqsOneMore(msgs: seq<Msg>, m: Msg)
    ensures Reqs(msgs + [m]) == Reqs(msgs) + (if m.Stdin? then [m.req] else [])
  {
    assert (msgs + [m])[..|msgs|] == msgs;
  }

  lemma {:induction false} ReqsOneLess(msgs: seq<Msg>)
    requires msgs != []
    ensures Reqs(msgs) == (if msgs[0].Stdin? then [msgs[0].req] else []) + Reqs(msgs[1..])
  {
    var last := |msgs| - 1;
    if last == 0 {
      assert msgs[..0] == [] && msgs[1..] == [];
    } else {
      ReqsOneLess(msgs[..last]);
      assert msgs[..last][1..] == msgs[1..][..last - 1];
    }
  }

  lemma TrackedByAsking(s: Process, step: Step, t: Process)
    requires Tracked(s) && Next(s, step, t) && (step.Reject? || step.Check?)
    ensures Tracked(t)
  {
    hide Reqs, Ledger;
    var w, flight, n := Reqs(s.written), InFlight(s), |s.asked|;
    LedgerTurnsAway(w, flight, n, s.settled);
    LedgerTakesOn(w, flight, n, s.settled);
    assert OfMain(s) == [];
    assert flight + [n] == Reqs(s.lost) + (OfInput(s) + (Reqs(s.queue) + [n]));
  }

  lemma TrackedByMain(s: Process, step: Step, t: Process)
    requires Tracked(s) && Next(s, step, t) && (step.Add? || step.Send? || step.KillSend?)
    ensures Tracked(t)
  {
    hide Reqs, Ledger;
    var w, flight, n := Reqs(s.written), InFlight(s), |s.asked|;
    if step.KillSend? {
      ReqsOneMore(s.queue, Kill);
    } else if step.Send? && s.receiving {
      ReqsOneMore(s.queue, Stdin(s.main.data, s.main.req));
    } else if step.Send? {
      var a := Reqs(s.lost) + (OfInput(s) + (Reqs(s.queue) + []));
      assert flight == a + [s.main.req] + [];
      LedgerGivesUp(w, a, s.main.req, [], n, s.settled);
      assert InFlight(t) == a + [];
    }
    assert (step.Send? && !s.receiving) || InFlight(t) == flight;
  }

  lemma TrackedByInput(s: Process, step: Step, t: Process)
    requires Tracked(s) && Next(s, step, t) && ByInput(step)
    ensures Tracked(t)
  {
    hide Reqs, Ledger, Handled, Taken;
    if step.Take? {
      ReqsOneLess(s.queue);
      assert InFlight(t) == InFlight(s);
    } else if step.Handle? {
      TrackedByHandling(s, t);
    }
  }

  lemma TrackedByHandling(s: Process, t: Process)
    requires Tracked(s) && s.input.Subtracted? && t.settled == s.settled + {s.input.req} && t.input.Waiting?
    requires t.queue == s.queue && t.lost == s.lost && t.main == s.main && t.asked == s.asked && t.phase == s.phase
    requires t.written == s.written || t.written == s.written + [Stdin(s.input.data, s.input.req)]
    ensures Tracked(t)
  {
    hide Reqs, Ledger;
    NoReqs();
    var w, n, req, b := Reqs(s.written), |s.asked|, s.input.req, Reqs(s.queue) + OfMain(s);
    assert InFlight(s) == [] + [req] + b == [req] + b;
    assert InFlight(t) == [] + b == b;
    LedgerGivesUp(w, [], req, b, n, s.settled);
    LedgerWrites(w, req, b, n, s.settled);
    ReqsOneMore(s.written, Stdin(s.input.data, req));
  }

  lemma TrackedByOthers(s: Process, step: Step, t: Process)
    requires Tracked(s) && Next(s, step, t) && !ByMain(step) && !ByInput(step)
    ensures Tracked(t)
  {
    hide Reqs, Ledger, StdinWaits;
    NoReqs();
    assert InFlight(t) == InFlight(s);
  }

  lemma NoReqs()
    ensures Reqs([]) == []
  {
  }

  ghost predicate HasReply(replies: seq<Reply>, r: Req)
  {
    exists i :: 0 <= i < |replies| && replies[i].req == r
  }

  /** Each settled request that asks has one reply, and it is Ok exactly when all its data was
      written. */
  ghost predicate Replying(asked: seq<Ask>, settled: set<Req>, replies: seq<Reply>, written: seq<Req>)
  {
    && (forall r :: r in settled ==> r < |asked|)
    && (forall r :: r in written ==> r in settled)
    && (forall i :: 0 <= i < |replies| ==> replies[i].req in settled && asked[replies[i].req].asks)
    && (forall i, j :: 0 <= i < j < |replies| ==> replies[i].req != replies[j].req)
    && (forall r :: r in settled && asked[r].asks ==> HasReply(replies, r))
    && (forall i :: 0 <= i < |replies| ==> (replies[i].outcome.Ok? <==> replies[i].req in written))
  }

  lemma AskedMore(asked: seq<Ask>, settled: set<Req>, replies: seq<Reply>, written: seq<Req>, ask: Ask)
    requires Replying(asked, settled, replies, written)
    ensures Replying(asked + [ask], settled, replies, written)
  {
  }

  lemma AnswerKeeps(p: Process, req: Req, outcome: Outcome, written: seq<Req>, more: seq<Req>)
    requires Replying(p.asked, p.settled, p.replies, written) && req < |p.asked| && req !in p.settled
    requires more == if outcome.Ok? then written + [req] else written
    ensures var q := Answered(p, req, outcome); Replying(q.asked, q.settled, q.replies, more)
  {
    var q := Answered(p, req, outcome);
    forall r | r in q.settled && q.asked[r].asks ensures HasReply(q.replies, r) {
      if r == req {
        assert q.replies[|p.replies|].req == r;
      } else {
        var i :| 0 <= i < |p.replies| && p.replies[i].req == r;
        assert q.replies[i].req == r;
      }
    }
  }

  ghost predicate Replied(p: Process)
  {
    Replying(p.asked, p.settled, p.replies, Reqs(p.written))
  }

  lemma RepliedByAsking(s: Process, step: Step, t: Process)
    requires Replied(s) && Tracked(s) && Next(s, step, t) && (step.Reject? || step.Check?)
    ensures Replied(t)
  {
    hide Replying, Reqs, Increasing, Answered, InFlight;
    var w := Reqs(s.written);
    var ask := Ask(step.asks, if step.Check? then step.data else []);
    var p := s.(asked := s.asked + [ask]);
    AskedMore(s.asked, s.settled, s.replies, w, ask);
    AnswerKeeps(p, |s.asked|, Err(if step.Reject? then Rejected else BacklogFull), w, w);
  }

  lemma RepliedBySending(s: Process, step: Step, t: Process)
    requires Replied(s) && Tracked(s) && Next(s, step, t) && step.Send?
    ensures Replied(t)
  {
    FlightIsOpen(s);
    hide Tracked, Replying, Reqs, Answered;
    var w := Reqs(s.written);
    AnswerKeeps(s.(backlog := s.backlog - |s.main.data|, main := Idle), s.main.req, Err(HasExited), w, w);
  }

  lemma RepliedKept(s: Process, step: Step, t: Process)
    requires Replied(s) && Tracked(s) && Next(s, step, t)
    ensures Replied(t)
  {
    hide Replying, Reqs, Handled, Taken, StdinWaits, Answered, Tracked;
    if step.Reject? || step.Check? {
      RepliedByAsking(s, step, t);
    } else if step.Send? {
      RepliedBySending(s, step, t);
    } else if step.Handle? {
      FlightIsOpen(s);
      HandleReplies(s, step.failAt);
    }
  }

  lemma FlightIsOpen(s: Process)
    requires Tracked(s)
    ensures s.main.Checked? || s.main.Added? ==> s.main.req < |s.asked| && s.main.req !in s.settled
    ensures s.input.Took? || s.input.Subtracted? ==> s.input.req < |s.asked| && s.input.req !in s.settled
  {
    forall r | r in OfMain(s) || r in OfInput(s)
      ensures r in InFlight(s) && r in Reqs(s.written) + InFlight(s)
    {
    }
    assert s.main.Checked? || s.main.Added? ==> s.main.req in OfMain(s);
    assert s.input.Took? || s.input.Subtracted? ==> s.input.req in OfInput(s);
  }

  lemma HandleReplies(s: Process, failAt: nat)
    requires Replied(s) && s.input.Subtracted? && s.input.req < |s.asked| && s.input.req !in s.settled
    ensures Replied(Handled(s, s.input.data, s.input.req, failAt))
  {
    hide Replying, Reqs, Chunks, Concat, Frames, Answered;
    var w, req, data := Reqs(s.written), s.input.req, s.input.data;
    ReqsOneMore(s.written, Stdin(data, req));
    var chunks := Chunks(data, FILE_CHUNK);
    var closed := if s.killed then Some(WasKilled) else s.closed;
    if closed.Some? {
      AnswerKeeps(s.(closed := closed, input := Waiting), req, Err(closed.value), w, w);
    } else if failAt < |chunks| {
      AnswerKeeps(s.(wire := s.wire + Frames(chunks[..failAt]), partial := Concat(chunks[..failAt]),
                     closed := Some(StdinClosed), input := Waiting), req, Err(WriteFailed), w, w);
    } else {
      AnswerKeeps(s.(wire := s.wire + Frames(chunks), written := s.written + [Stdin(data, req)], input := Waiting),
                  req, Ok, w, w + [req]);
    }
  }

  // ---------------------------------------------------------------------
  // What is written to the guest
  // ---------------------------------------------------------------------

  function StdinOf(wire: seq<Wire>): (r: Bytes)
  {
    if wire == [] then []
    else StdinOf(wire[..|wire| - 1]) + (if wire[|wire| - 1].Input? then wire[|wire| - 1].chunk else [])
  }

  function BytesOf(msgs: seq<Msg>): (r: Bytes)
  {
    if msgs == [] then []
    else BytesOf(msgs[..|msgs| - 1]) + (if msgs[|msgs| - 1].Stdin? then msgs[|msgs| - 1].data else [])
  }

  /** What the guest has been given is the data answered Ok, in order, and perhaps the start of
      what failed; a kill comes last. */
  ghost predicate Carried(p: Process)
  {
    && StdinOf(p.wire) == BytesOf(p.written) + p.partial
    && (p.closed.None? ==> p.partial == [])
    && (forall i :: 0 <= i < |p.wire| && p.wire[i].KillFrame? ==> i == |p.wire| - 1 && p.closed.Some?)
  }

  lemma {:induction false} StdinOfFrames(wire: seq<Wire>, chunks: seq<Bytes>)
    ensures StdinOf(wire + Frames(chunks)) == StdinOf(wire) + Concat(chunks)
  {
    if chunks == [] {
      assert wire + Frames(chunks) == wire;
    } else {
      var last := |chunks| - 1;
      var less := chunks[..last];
      StdinOfFrames(wire, less);
      ConcatOneMore(less, chunks[last]);
      assert chunks == less + [chunks[last]];
      var all := wire + Frames(chunks);
      assert all == (wire + Frames(less)) + [Input(chunks[last])];
      assert all[..|all| - 1] == wire + Frames(less);
    }
  }

  lemma StdinOfOneMore(wire: seq<Wire>, f: Wire)
    ensures StdinOf(wire + [f]) == StdinOf(wire) + (if f.Input? then f.chunk else [])
  {
    assert (wire + [f])[..|wire|] == wire;
  }

  lemma BytesOfOneMore(msgs: seq<Msg>, m: Msg)
    ensures BytesOf(msgs + [m]) == BytesOf(msgs) + (if m.Stdin? then m.data else [])
  {
    assert (msgs + [m])[..|msgs|] == msgs;
  }

  lemma ForwardCarries(p: Process, data: Bytes, req: Req, failAt: nat)
    requires Carried(p) && p.closed.None?
    ensures Carried(Forwarded(p, data, req, failAt))
  {
    hide StdinOf, BytesOf, Chunks, Concat, Answered;
    var chunks := Chunks(data, FILE_CHUNK);
    ChunksMakeUpTheData(data, FILE_CHUNK);
    var q := Forwarded(p, data, req, failAt);
    if failAt < |chunks| {
      StdinOfFrames(p.wire, chunks[..failAt]);
      assert BytesOf(p.written) + [] == BytesOf(p.written);
    } else {
      StdinOfFrames(p.wire, chunks);
      BytesOfOneMore(p.written, Stdin(data, req));
      assert BytesOf(q.written) + [] == BytesOf(q.written) && StdinOf(p.wire) == BytesOf(p.written);
    }
  }

  lemma CarriedKept(s: Process, step: Step, t: Process)
    requires Carried(s) && Next(s, step, t)
    ensures Carried(t)
  {
    hide StdinOf, BytesOf, Forwarded, Answered, StdinWaits;
    if step.Handle? {
      if s.closed.None? {
        ForwardCarries(s, s.input.data, s.input.req, step.failAt);
      }
    } else if step.Take? {
      StdinOfOneMore(s.wire, KillFrame);
      assert StdinOf(s.wire) + [] == StdinOf(s.wire);
    } else {
      hide Carried;
      WireStays(s, step, t);
      StillCarried(s, t);
    }
  }

  lemma WireStays(s: Process, step: Step, t: Process)
    requires Next(s, step, t) && !step.Handle? && !step.Take?
    ensures (t.wire, t.written, t.partial, t.closed) == (s.wire, s.written, s.partial, s.closed)
  {
    hide Answered, StdinWaits, Sent, Heard;
  }

  lemma StillCarried(s: Process, t: Process)
    requires Carried(s) && t.wire == s.wire && t.written == s.written && t.partial == s.partial && t.closed == s.closed
    ensures Carried(t)
  {
  }

  /** A kill asked for while stdin waits is not passed on: the stdin it finds first closes the
      way. */
  ghost predicate Overtaken(p: Process)
  {
    && (!p.killed ==> (forall i :: 0 <= i < |p.queue| ==> p.queue[i].Stdin?) && KillFrame !in p.wire)
    && (p.behind ==> && p.killed && KillFrame !in p.wire
                     && (p.closed.Some? || p.input.Took? || p.input.Subtracted?
                         || (p.queue != [] && p.queue[0].Stdin?) || (p.input.NotRunning? && !p.phase.Opening?)))
    && (p.main.Killing? ==> p.killed)
    && (p.phase.Opening? ==> p.input.NotRunning?)
  }

  lemma FramesAreInput(wire: seq<Wire>, chunks: seq<Bytes>)
    ensures KillFrame in wire + Frames(chunks) ==> KillFrame in wire
  {
  }

  lemma OvertakenByHandling(s: Process, failAt: nat)
    requires Overtaken(s) && s.input.Subtracted?
    ensures Overtaken(Handled(s, s.input.data, s.input.req, failAt))
  {
    hide Chunks, Concat, Answered, Frames;
    var chunks := Chunks(s.input.data, FILE_CHUNK);
    FramesAreInput(s.wire, chunks);
    if failAt < |chunks| {
      FramesAreInput(s.wire, chunks[..failAt]);
    }
  }

  lemma OvertakenKept(s: Process, step: Step, t: Process)
    requires Overtaken(s) && Next(s, step, t)
    ensures Overtaken(t)
  {
    hide Handled, Answered, Heard;
    if step.Handle? {
      OvertakenByHandling(s, step.failAt);
    }
  }

  // ---------------------------------------------------------------------
  // What the client hears
  // ---------------------------------------------------------------------

  /** The exit comes last, once the process has ended. */
  ghost predicate Reported(p: Process)
  {
    && (forall i :: 0 <= i < |p.events| && p.events[i].Exit? ==> i == |p.events| - 1 && p.phase.Ended?)
    && (p.phase.Ended? ==> p.events != [] && p.events[|p.events| - 1].Exit?)
  }

  lemma ReportedByReading(s: Process, frame: Option<GuestFrame>)
    requires Reported(s) && s.phase.Running?
    ensures Reported(Heard(s, frame))
  {
  }

  lemma ReportedBySpawn(s: Process, step: Step, t: Process)
    requires Reported(s) && Next(s, step, t) && BySpawn(step)
    ensures Reported(t)
  {
    hide Heard;
    if step.Read? {
      ReportedByReading(s, step.frame);
    }
  }

  lemma ReportedKept(s: Process, step: Step, t: Process)
    requires Reported(s) && Next(s, step, t)
    ensures Reported(t)
  {
    hide Handled, Answered, Taken, StdinWaits, Reported;
    if BySpawn(step) {
      ReportedBySpawn(s, step, t);
    } else {
      EventsStay(s, step, t);
      StillReported(s, t);
    }
  }

  lemma EventsStay(s: Process, step: Step, t: Process)
    requires Next(s, step, t) && !BySpawn(step)
    ensures (t.events, t.phase) == (s.events, s.phase)
  {
    hide Handled, Answered, Taken, StdinWaits, Sent;
  }

  lemma StillReported(s: Process, t: Process)
    requires Reported(s) && t.events == s.events && t.phase == s.phase
    ensures Reported(t)
  {
  }

  /** The data on its way is the data that was sent. */
  ghost predicate Genuine(asked: seq<Ask>, msgs: seq<Msg>)
  {
    forall i :: 0 <= i < |msgs| && msgs[i].Stdin? ==> msgs[i].req < |asked| && asked[msgs[i].req].data == msgs[i].data
  }

  ghost predicate Unaltered(p: Process)
  {
    && Genuine(p.asked, p.queue) && Genuine(p.asked, p.written)
    && (p.main.Checked? || p.main.Added? ==> Genuine(p.asked, [Stdin(p.main.data, p.main.req)]))
    && (p.input.Took? || p.input.Subtracted? ==> Genuine(p.asked, [Stdin(p.input.data, p.input.req)]))
  }

  lemma GenuineMore(asked: seq<Ask>, ask: Ask, msgs: seq<Msg>)
    requires Genuine(asked, msgs)
    ensures Genuine(asked + [ask], msgs)
  {
  }

  lemma UnalteredByAsking(s: Process, step: Step, t: Process)
    requires Unaltered(s) && Next(s, step, t) && (step.Reject? || step.Check?)
    ensures Unaltered(t)
  {
    hide Genuine, Answered;
    var ask := t.asked[|s.asked|];
    assert t.asked == s.asked + [ask];
    GenuineMore(s.asked, ask, s.queue);
    GenuineMore(s.asked, ask, s.written);
    if s.input.Took? || s.input.Subtracted? {
      GenuineMore(s.asked, ask, [Stdin(s.input.data, s.input.req)]);
    }
    NewIsGenuine(s.asked, ask);
  }

  lemma NewIsGenuine(asked: seq<Ask>, ask: Ask)
    ensures Genuine(asked + [ask], [Stdin(ask.data, |asked|)])
  {
  }

  lemma GenuineOneMore(asked: seq<Ask>, msgs: seq<Msg>, m: Msg)
    requires Genuine(asked, msgs) && (m.Stdin? ==> Genuine(asked, [m]))
    ensures Genuine(asked, msgs + [m])
  {
    assert [m][0] == m;
  }

  lemma GenuineRest(asked: seq<Ask>, msgs: seq<Msg>)
    requires Genuine(asked, msgs) && msgs != []
    ensures Genuine(asked, msgs[1..]) && (msgs[0].Stdin? ==> Genuine(asked, [msgs[0]]))
  {
  }

  lemma UnalteredKept(s: Process, step: Step, t: Process)
    requires Unaltered(s) && Next(s, step, t)
    ensures Unaltered(t)
  {
    hide Genuine, Answered, Chunks, Concat, Frames, StdinWaits;
    match step
    case Reject(_) => UnalteredByAsking(s, step, t);
    case Check(_, _) => UnalteredByAsking(s, step, t);
    case Send => GenuineOneMore(s.asked, s.queue, Stdin(s.main.data, s.main.req));
    case KillSend => GenuineOneMore(s.asked, s.queue, Kill);
    case Take(_) => GenuineRest(s.asked, s.queue);
    case Handle(_) => GenuineOneMore(s.asked, s.written, Stdin(s.input.data, s.input.req));
    case OpenFails => NoneIsGenuine(s.asked);
    case CloneFails => NoneIsGenuine(s.asked);
    case _ =>
  }

  lemma NoneIsGenuine(asked: seq<Ask>)
    ensures Genuine(asked, [])
  {
  }

  // ---------------------------------------------------------------------
  // Whole runs
  // ---------------------------------------------------------------------

  ghost predicate Inv(p: Process)
  {
    Bounded(p) && Tracked(p) && Replied(p) && Carried(p) && Overtaken(p) && Reported(p) && Unaltered(p)
  }

  lemma StepKeeps(s: Process, step: Step, t: Process)
    requires Inv(s) && Next(s, step, t)
    ensures Inv(t)
  {
    hide Next, Bounded, Tracked, Replied, Carried, Overtaken, Reported, Unaltered;
    if ByMain(step) {
      BoundedByMain(s, step, t);
      if step.Reject? || step.Check? {
        TrackedByAsking(s, step, t);
      } else {
        TrackedByMain(s, step, t);
      }
    } else if ByInput(step) {
      BoundedByInput(s, step, t);
      TrackedByInput(s, step, t);
    } else {
      BoundedByOthers(s, step, t);
      TrackedByOthers(s, step, t);
    }
    RepliedKept(s, step, t);
    CarriedKept(s, step, t);
    OvertakenKept(s, step, t);
    ReportedKept(s, step, t);
    UnalteredKept(s, step, t);
  }

  ghost predicate Run(ps: seq<Process>, steps: seq<Step>)
  {
    && |ps| == |steps| + 1 && ps[0] == Spawned
    && forall k :: 0 <= k < |steps| ==> Next(ps[k], steps[k], ps[k + 1])
  }

  lemma SpawnedIsSound()
    ensures Inv(Spawned)
  {
    assert InFlight(Spawned) == [] && Reqs([]) + [] == [];
    assert Ledger([], [], 0, {});
  }

  lemma {:induction false} EveryRunKeeps(ps: seq<Process>, steps: seq<Step>, k: nat)
    requires Run(ps, steps) && k <= |steps|
    ensures Inv(ps[k])
  {
    hide Next, Inv;
    if k == 0 {
      SpawnedIsSound();
    } else {
      EveryRunKeeps(ps, steps, k - 1);
      StepKeeps(ps[k - 1], steps[k - 1], ps[k]);
    }
  }

  /** The counter covers the stdin that is queued and never passes the limit. */
  lemma BacklogIsBounded(ps: seq<Process>, steps: seq<Step>, k: nat)
    requires Run(ps, steps) && k <= |steps|
    ensures Load(ps[k].queue) <= ps[k].backlog <= STDIN_BACKLOG
  {
    EveryRunKeeps(ps, steps, k);
  }

  /** No request is answered twice, and none that does not ask. */
  lemma AtMostOneReply(ps: seq<Process>, steps: seq<Step>, k: nat, i: nat, j: nat)
    requires Run(ps, steps) && k <= |steps| && i < |ps[k].replies| && j < |ps[k].replies|
    ensures ps[k].replies[i].req == ps[k].replies[j].req ==> i == j
    ensures ps[k].replies[i].req < |ps[k].asked| && ps[k].asked[ps[k].replies[i].req].asks
  {
    hide Next, Bounded, Tracked, Carried, Overtaken, Reported, Unaltered, Reqs;
    EveryRunKeeps(ps, steps, k);
  }

  /** A request that asks is answered exactly when it is no longer on its way or dropped. */
  lemma AnsweredExactlyWhenSettled(ps: seq<Process>, steps: seq<Step>, k: nat, r: Req)
    requires Run(ps, steps) && k <= |steps| && r < |ps[k].asked| && ps[k].asked[r].asks
    ensures HasReply(ps[k].replies, r) <==> r !in InFlight(ps[k])
  {
    hide Next, Bounded, Carried, Overtaken, Reported, Unaltered, Reqs;
    EveryRunKeeps(ps, steps, k);
  }

  /** Once the connection opened and the input thread has drained its queue, every request that
      asks has its one reply. */
  lemma ExactlyOneReplyOnceDrained(ps: seq<Process>, steps: seq<Step>, k: nat, r: Req)
    requires Run(ps, steps) && k <= |steps| && r < |ps[k].asked| && ps[k].asked[r].asks
    requires (ps[k].input.Waiting? || ps[k].input.Over?) && ps[k].queue == [] && ps[k].main.Idle?
    ensures HasReply(ps[k].replies, r)
  {
    AnsweredExactlyWhenSettled(ps, steps, k, r);
    EveryRunKeeps(ps, steps, k);
  }

  /** When the connection did not open, the requests without a reply are those that were
      queued before it failed. */
  lemma UnansweredExactlyWhenDropped(ps: seq<Process>, steps: seq<Step>, k: nat, r: Req)
    requires Run(ps, steps) && k <= |steps| && r < |ps[k].asked| && ps[k].asked[r].asks
    requires ps[k].input.NotRunning? && ps[k].queue == [] && ps[k].main.Idle?
    ensures HasReply(ps[k].replies, r) <==> r !in Reqs(ps[k].lost)
  {
    AnsweredExactlyWhenSettled(ps, steps, k, r);
    assert InFlight(ps[k]) == Reqs(ps[k].lost);
  }

  /** Input queued before a connection that fails to open is never answered. */
  lemma QueuedInputCanGoUnanswered(data: Bytes) returns (ps: seq<Process>, steps: seq<Step>)
    requires |data| <= STDIN_BACKLOG
    ensures Run(ps, steps) && |ps| == 5
    ensures ps[4].asked == [Ask(true, data)] && ps[4].replies == [] && ps[4].main.Idle? && ps[4].phase.Ended?
  {
    var p1 := Spawned.(asked := [Ask(true, data)], main := Checked(data, 0));
    var p2 := p1.(backlog := |data|, main := Added(data, 0));
    var p3 := p2.(queue := [Stdin(data, 0)], main := Idle);
    var p4 := p3.(phase := Ended, events := [Exit(1)], receiving := false, lost := p3.queue, queue := []);
    ps, steps := [Spawned, p1, p2, p3, p4], [Check(data, true), Add, Send, OpenFails];
    assert Next(Spawned, Check(data, true), p1);
    assert Next(p3, OpenFails, p4);
  }

  /** The stdin written to the guest is the data of the requests answered Ok, in the order they
      came, followed by at most a part of one that failed. */
  lemma StdinArrivesInOrder(ps: seq<Process>, steps: seq<Step>, k: nat)
    requires Run(ps, steps) && k <= |steps|
    ensures StdinOf(ps[k].wire) == BytesOf(ps[k].written) + ps[k].partial
    ensures ps[k].closed.None? ==> ps[k].partial == []
    ensures Increasing(Reqs(ps[k].written)) && Genuine(ps[k].asked, ps[k].written)
    ensures forall i :: 0 <= i < |ps[k].replies| ==>
              (ps[k].replies[i].outcome.Ok? <==> ps[k].replies[i].req in Reqs(ps[k].written))
  {
    hide Next, Bounded, Overtaken, Reported, Reqs, StdinOf, BytesOf, InFlight;
    EveryRunKeeps(ps, steps, k);
    IncreasingFront(Reqs(ps[k].written), InFlight(ps[k]));
  }

  lemma IncreasingFront(a: seq<Req>, b: seq<Req>)
    requires Increasing(a + b)
    ensures Increasing(a)
  {
    forall i, j | 0 <= i < j < |a| ensures a[i] < a[j] {
      assert (a + b)[i] == a[i] && (a + b)[j] == a[j];
    }
  }

  /** The guest is told to kill at most once, and gets no stdin after that. */
  lemma KillComesLast(ps: seq<Process>, steps: seq<Step>, k: nat, i: nat)
    requires Run(ps, steps) && k <= |steps| && i < |ps[k].wire| && ps[k].wire[i].KillFrame?
    ensures i + 1 == |ps[k].wire| && ps[k].killed && !ps[k].behind
  {
    hide Next, Bounded, Tracked, Replied, Reported, Unaltered, StdinOf, BytesOf;
    EveryRunKeeps(ps, steps, k);
    assert KillFrame in ps[k].wire;
  }

  /** There is at most one exit, no output comes after it, and a process that ended has one. */
  lemma ExitComesLast(ps: seq<Process>, steps: seq<Step>, k: nat)
    requires Run(ps, steps) && k <= |steps|
    ensures forall i :: 0 <= i < |ps[k].events| && ps[k].events[i].Exit? ==> i + 1 == |ps[k].events|
    ensures (exists i :: 0 <= i < |ps[k].events| && ps[k].events[i].Exit?) <==> ps[k].phase.Ended?
  {
    hide Next, Bounded, Tracked, Replied, Carried, Overtaken, Unaltered;
    EveryRunKeeps(ps, steps, k);
    var p := ps[k];
    if p.phase.Ended? {
      assert p.events[|p.events| - 1].Exit?;
    }
  }

  // ---------------------------------------------------------------------
  // What each event and each reply tells
  // ---------------------------------------------------------------------

  /** The output among the events: which stream, and its bytes. */
  function OutputsIn(events: seq<Event>): (r: seq<(bool, Bytes)>)
  {
    if events == [] then [] else
      OutputsIn(events[..|events| - 1]) +
      match events[|events| - 1]
      case Output(stderr, data) => [(stderr, data)]
      case Exit(_) => []
  }

  function CodesIn(events: seq<Event>): (r: seq<int>)
  {
    if events == [] then [] else
      CodesIn(events[..|events| - 1]) +
      match events[|events| - 1]
      case Output(_, _) => []
      case Exit(code) => [code]
  }

  /** The output the guest sends with a frame; an error message is for stderr. */
  function OutputOf(step: Step): (r: seq<(bool, Bytes)>)
  {
    match step
    case Read(Some(Stdout(data))) => [(false, data)]
    case Read(Some(Stderr(data))) => [(true, data)]
    case Read(Some(Error(data))) => [(true, data)]
    case _ => []
  }

  /** The exit code this step brings: that of the exit frame, 0 when it does not parse; 1 when the
      process ends in any other way. */
  function CodeOf(step: Step): (r: seq<int>)
  {
    match step
    case Read(Some(Exited(Some(code)))) => [code]
    case Read(Some(Exited(None))) => [0]
    case Read(Some(Stdout(_))) => []
    case Read(Some(Stderr(_))) => []
    case Read(_) => [1]
    case OpenFails => [1]
    case _ => []
  }

  function OutputsOf(steps: seq<Step>, k: nat): (r: seq<(bool, Bytes)>)
    requires k <= |steps|
  {
    if k == 0 then [] else OutputsOf(steps, k - 1) + OutputOf(steps[k - 1])
  }

  function CodesOf(steps: seq<Step>, k: nat): (r: seq<int>)
    requires k <= |steps|
  {
    if k == 0 then [] else CodesOf(steps, k - 1) + CodeOf(steps[k - 1])
  }

  lemma OneMoreEvent(events: seq<Event>, e: Event)
    ensures OutputsIn(events + [e]) == OutputsIn(events) + if e.Output? then [(e.stderr, e.data)] else []
    ensures CodesIn(events + [e]) == CodesIn(events) + if e.Exit? then [e.code] else []
  {
    assert (events + [e])[..|events|] == events;
  }

  function EventsFor(frame: Option<GuestFrame>): (r: seq<Event>)
  {
    match frame
    case Some(Stdout(data)) => [Output(false, data)]
    case Some(Stderr(data)) => [Output(true, data)]
    case Some(Exited(code)) => [Exit(if code.Some? then code.value else 0)]
    case Some(Error(data)) => [Output(true, data), Exit(1)]
    case _ => [Exit(1)]
  }

  lemma HeardAdds(s: Process, frame: Option<GuestFrame>)
    ensures Heard(s, frame).events == s.events + EventsFor(frame)
  {
  }

  lemma EventsForTell(events: seq<Event>, frame: Option<GuestFrame>)
    ensures OutputsIn(events + EventsFor(frame)) == OutputsIn(events) + OutputOf(Read(frame))
    ensures CodesIn(events + EventsFor(frame)) == CodesIn(events) + CodeOf(Read(frame))
  {
    hide OutputsIn, CodesIn;
    match frame {
      case Some(Error(data)) =>
        OneMoreEvent(events, Output(true, data));
        OneMoreEvent(events + [Output(true, data)], Exit(1));
        assert events + EventsFor(frame) == events + [Output(true, data)] + [Exit(1)];
      case _ => OneMoreEvent(events, EventsFor(frame)[0]);
    }
  }

  lemma StepTells(s: Process, step: Step, t: Process)
    requires Next(s, step, t)
    ensures OutputsIn(t.events) == OutputsIn(s.events) + OutputOf(step)
    ensures CodesIn(t.events) == CodesIn(s.events) + CodeOf(step)
  {
    hide OutputsIn, CodesIn, Heard, EventsFor, StdinWaits;
    if step.Read? {
      HeardAdds(s, step.frame);
      EventsForTell(s.events, step.frame);
    } else if step.OpenFails? {
      OneMoreEvent(s.events, Exit(1));
    } else if !BySpawn(step) {
      EventsStay(s, step, t);
    }
  }

  /** In every run, the output events are the output frames in order, each on its stream with its
      bytes, and the exit codes those of how the process ended. */
  lemma {:induction false} EventsTellTheFrames(ps: seq<Process>, steps: seq<Step>, k: nat)
    requires Run(ps, steps) && k <= |steps|
    ensures OutputsIn(ps[k].events) == OutputsOf(steps, k)
    ensures CodesIn(ps[k].events) == CodesOf(steps, k)
  {
    hide Next, OutputsIn, CodesIn, OutputOf, CodeOf;
    if k == 0 {
      NothingTold();
    } else {
      EventsTellTheFrames(ps, steps, k - 1);
      StepTells(ps[k - 1], steps[k - 1], ps[k]);
    }
  }

  lemma NothingTold()
    ensures OutputsIn([]) == [] && CodesIn([]) == []
  {
  }

  /** This step fails to write stdin. */
  ghost predicate WriteFails(p: Process, step: Step)
  {
    && step.Handle? && p.input.Subtracted? && !p.killed && p.closed.None?
    && step.failAt < |Chunks(p.input.data, FILE_CHUNK)|
  }

  /** This step closes the way to the process's stdin: a write fails, or a kill is met. */
  ghost predicate Closes(p: Process, step: Step)
  {
    || WriteFails(p, step)
    || (step.Handle? && p.killed)
    || (step.Take? && p.queue != [] && p.queue[0].Kill?)
  }

  /** Without a kill, only a write that failed closes stdin. */
  ghost predicate ClosedRightly(p: Process)
  {
    && (!p.killed ==> p.closed == None || p.closed == Some(StdinClosed))
    && (!p.killed ==> !p.main.Killing? && Kill !in p.queue)
  }

  lemma ClosedStep(s: Process, step: Step, t: Process)
    requires ClosedRightly(s) && Next(s, step, t)
    ensures ClosedRightly(t) && (t.closed.Some? <==> s.closed.Some? || Closes(s, step))
  {
    if step.Take? {
      assert s.queue == [s.queue[0]] + s.queue[1..];
    } else if step.Handle? {
      hide Chunks, Concat, Frames, Answered;
    } else {
      WireStays(s, step, t);
      MainKills(s, step, t);
      hide Next;
    }
  }

  lemma MainKills(s: Process, step: Step, t: Process)
    requires Next(s, step, t) && !step.Handle? && !step.Take?
    ensures s.killed ==> t.killed
    ensures !t.killed && !s.main.Killing? && Kill !in s.queue ==> !t.main.Killing? && Kill !in t.queue
  {
    hide Answered, StdinWaits, Heard;
  }

  /** Stdin is closed exactly once a write failed or a kill was met. */
  lemma {:induction false} ClosedExactlyWhen(ps: seq<Process>, steps: seq<Step>, k: nat)
    requires Run(ps, steps) && k <= |steps|
    ensures ClosedRightly(ps[k])
    ensures ps[k].closed.Some? <==> exists j :: 0 <= j < k && Closes(ps[j], steps[j])
  {
    if k > 0 {
      hide Next, Closes, ClosedRightly;
      ClosedExactlyWhen(ps, steps, k - 1);
      ClosedStep(ps[k - 1], steps[k - 1], ps[k]);
    } else {
      hide Next;
    }
  }

  /** Why a request is answered at a step, and how. */
  ghost predicate AnsweredAt(ps: seq<Process>, steps: seq<Step>, m: nat, reply: Reply)
    requires m < |steps| < |ps|
  {
    var p := ps[m];
    match steps[m]
    case Reject(_) => reply == Reply(|p.asked|, Err(Rejected))
    case Check(data, _) => p.backlog + |data| > STDIN_BACKLOG && reply == Reply(|p.asked|, Err(BacklogFull))
    case Send => p.main.Added? && !p.receiving && reply == Reply(p.main.req, Err(HasExited))
    case Handle(failAt) =>
      && p.input.Subtracted? && reply.req == p.input.req
      && reply.outcome == (if p.killed then Err(WasKilled)
                           else if exists j :: 0 <= j < m && Closes(ps[j], steps[j]) then Err(StdinClosed)
                           else if failAt < |Chunks(p.input.data, FILE_CHUNK)| then Err(WriteFailed)
                           else Ok)
    case _ => false
  }

  /** One reply more, or none. */
  ghost predicate OneReply(before: seq<Reply>, after: seq<Reply>, reply: Reply)
  {
    after == before || after == before + [reply]
  }

  lemma HandleAdds(s: Process, step: Step, t: Process)
    requires Next(s, step, t) && step.Handle?
    ensures OneReply(s.replies, t.replies, Reply(s.input.req,
              if s.killed then Err(WasKilled)
              else if s.closed.Some? then Err(s.closed.value)
              else if step.failAt < |Chunks(s.input.data, FILE_CHUNK)| then Err(WriteFailed)
              else Ok))
  {
    hide Chunks, Concat, Frames;
  }

  lemma OtherReplies(s: Process, step: Step, t: Process)
    requires Next(s, step, t) && !step.Handle?
    ensures match step
            case Reject(_) => OneReply(s.replies, t.replies, Reply(|s.asked|, Err(Rejected)))
            case Check(data, _) =>
              if s.backlog + |data| > STDIN_BACKLOG
              then OneReply(s.replies, t.replies, Reply(|s.asked|, Err(BacklogFull))) else t.replies == s.replies
            case Send =>
              if s.receiving then t.replies == s.replies
              else OneReply(s.replies, t.replies, Reply(s.main.req, Err(HasExited)))
            case _ => t.replies == s.replies
  {
    hide Heard, StdinWaits, Taken;
  }

  /** The reply a step adds, if any. */
  lemma ReplyStep(ps: seq<Process>, steps: seq<Step>, m: nat)
    requires Run(ps, steps) && m < |steps|
    ensures ps[m + 1].replies == ps[m].replies ||
            (&& |ps[m + 1].replies| == |ps[m].replies| + 1 && ps[m].replies < ps[m + 1].replies
             && AnsweredAt(ps, steps, m, ps[m + 1].replies[|ps[m].replies|]))
  {
    ClosedExactlyWhen(ps, steps, m);
    var s, step, t := ps[m], steps[m], ps[m + 1];
    assert Next(s, step, t);
    assert Enabled(s, step);
    hide Next, Run, Closes, Chunks;
    if step.Handle? {
      HandleAdds(s, step, t);
    } else {
      OtherReplies(s, step, t);
    }
  }

  /** In every run, each reply tells what became of its request. */
  lemma {:induction false} RepliesTellWhy(ps: seq<Process>, steps: seq<Step>, k: nat, i: nat) returns (m: nat)
    requires Run(ps, steps) && k <= |steps| && i < |ps[k].replies|
    ensures m < k && AnsweredAt(ps, steps, m, ps[k].replies[i])
    decreases k
  {
    hide Next, AnsweredAt;
    ReplyStep(ps, steps, k - 1);
    if i < |ps[k - 1].replies| {
      m := RepliesTellWhy(ps, steps, k - 1, i);
    } else {
      m := k - 1;
    }
  }

  /** This step passes a kill on to the guest. */
  ghost predicate PassesKillOn(ps: seq<Process>, steps: seq<Step>, m: nat)
    requires m < |steps| < |ps|
  {
    && steps[m] == Take(true) && ps[m].queue != [] && ps[m].queue[0].Kill?
    && !exists j :: 0 <= j < m && Closes(ps[j], steps[j])
  }

  lemma KillFrameStep(ps: seq<Process>, steps: seq<Step>, m: nat)
    requires Run(ps, steps) && m < |steps|
    ensures KillFrame in ps[m + 1].wire <==> KillFrame in ps[m].wire || PassesKillOn(ps, steps, m)
  {
    ClosedExactlyWhen(ps, steps, m);
    assert Next(ps[m], steps[m], ps[m + 1]);
    var s, step, t := ps[m], steps[m], ps[m + 1];
    hide Run, Closes;
    if step.Handle? {
      hide Chunks, Concat, Frames;
      FramesAreInput(s.wire, Chunks(s.input.data, FILE_CHUNK));
      if step.failAt < |Chunks(s.input.data, FILE_CHUNK)| {
        FramesAreInput(s.wire, Chunks(s.input.data, FILE_CHUNK)[..step.failAt]);
      }
    } else if !step.Take? {
      WireStays(s, step, t);
    }
  }

  /** In every run, the guest is told to kill exactly when the input thread met a kill that could
      be written, and no write had failed and no stdin or kill been met after the kill before. */
  lemma {:induction false} KillIsPassedOnExactlyWhen(ps: seq<Process>, steps: seq<Step>, k: nat)
    requires Run(ps, steps) && k <= |steps|
    ensures KillFrame in ps[k].wire <==> exists m :: 0 <= m < k && PassesKillOn(ps, steps, m)
  {
    if k > 0 {
      hide Next, PassesKillOn;
      KillIsPassedOnExactlyWhen(ps, steps, k - 1);
      KillFrameStep(ps, steps, k - 1);
    } else {
      hide Next;
    }
  }

  /** A kill that was asked for is on its way, or was met, as long as the input thread listens. */
  ghost predicate KillOnItsWay(p: Process)
  {
    p.killed && p.receiving ==> p.main.Killing? || Kill in p.queue || p.closed == Some(WasKilled)
  }

  lemma KillStaysOnItsWay(s: Process, step: Step, t: Process)
    requires KillOnItsWay(s) && Next(s, step, t)
    ensures KillOnItsWay(t)
  {
    hide Chunks, Concat, Frames, StdinWaits;
    if step.Take? {
      assert s.queue == [s.queue[0]] + s.queue[1..];
    }
  }

  /** Once a kill was asked for and the input thread has drained its queue, it takes no more. */
  lemma {:induction false} KillIsHeeded(ps: seq<Process>, steps: seq<Step>, k: nat)
    requires Run(ps, steps) && k <= |steps|
    ensures KillOnItsWay(ps[k])
    ensures ps[k].killed && ps[k].receiving && ps[k].main.Idle? && ps[k].queue == [] ==>
              ps[k].closed == Some(WasKilled)
  {
    if k > 0 {
      hide Next;
      KillIsHeeded(ps, steps, k - 1);
      KillStaysOnItsWay(ps[k - 1], steps[k - 1], ps[k]);
    } else {
      hide Next;
    }
  }

  /** The input thread listens while the connection opens and until it has drained its queue and the
      main loop has let go of the process; it runs whenever the connection is open. */
  ghost predicate Listening(p: Process)
  {
    && (p.receiving <==> p.phase.Opening? || p.input.Waiting? || p.input.Took? || p.input.Subtracted?)
    && (p.input.Over? ==> p.queue == [] && !p.handle)
    && (p.phase.Opening? ==> p.input.NotRunning?)
    && (p.phase.Running? ==> !p.input.NotRunning?)
  }

  lemma ListeningKept(s: Process, step: Step, t: Process)
    requires Listening(s) && Next(s, step, t)
    ensures Listening(t)
    ensures !s.handle ==> !t.handle
    ensures step.Send? || step.KillSend? ==> t.main.Idle?
    ensures step.Forget? ==> !t.handle
  {
    hide Answered, StdinWaits, Chunks, Concat, Frames;
  }

  lemma {:induction false} InputThreadListens(ps: seq<Process>, steps: seq<Step>, k: nat)
    requires Run(ps, steps) && k <= |steps|
    ensures Listening(ps[k])
    ensures k > 0 && (steps[k - 1].Send? || steps[k - 1].KillSend?) ==> ps[k].main.Idle?
  {
    if k > 0 {
      hide Next, Listening;
      InputThreadListens(ps, steps, k - 1);
      ListeningKept(ps[k - 1], steps[k - 1], ps[k]);
    } else {
      hide Next;
    }
  }

  /** Once the main loop has let go of the process, it takes no request for it any more. */
  lemma {:induction false} ForgottenGetsNoMore(ps: seq<Process>, steps: seq<Step>, m: nat, k: nat)
    requires Run(ps, steps) && m < k <= |steps| && steps[m].Forget?
    ensures !ps[k].handle
    ensures k < |steps| ==> !steps[k].Check? && !steps[k].KillSwap?
    decreases k
  {
    hide Next, Listening;
    InputThreadListens(ps, steps, k - 1);
    ListeningKept(ps[k - 1], steps[k - 1], ps[k]);
    if k > m + 1 {
      ForgottenGetsNoMore(ps, steps, m, k - 1);
    }
    if k < |steps| {
      NeedsTheHandle(ps[k], steps[k], ps[k + 1]);
    }
  }

  lemma NeedsTheHandle(s: Process, step: Step, t: Process)
    requires Next(s, step, t)
    ensures step.Check? || step.KillSwap? ==> s.handle
  {
    hide Apply;
  }
}
