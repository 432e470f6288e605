/** One proxied connection as a byte stream: what the guest sent comes out of a channel of
    payloads, held back to keep the egress pace; what is written goes toward the guest
    against a budget of permits. */
module Stream {

  import opened Common
  import Egress

  datatype Polled<+T> = Ready(value: T) | Pending

  function Lengths(payloads: seq<Bytes>): (r: seq<nat>)
  {
    seq(|payloads|, i requires 0 <= i < |payloads| => |payloads[i]|)
  }

  // ---------------------------------------------------------------------
  // Payloads from the guest
  // ---------------------------------------------------------------------

  /** A payload kept back until a time. */
  datatype Held = Held(data: Bytes, until: real)

  /** The receiving end, with a record of what was spent on the pace and what was given back
      to the stack. `up` and `bytes` are the counters of the connection and of all egress. */
  datatype Rx = Rx(
    inbox: seq<Bytes>,
    closed: bool,
    held: Option<Held>,
    up: nat,
    bytes: nat,
    spent: seq<nat>,
    consumed: seq<nat>)

  function Counted(counter: nat, n: nat): (r: nat)
  {
    (counter + n) % Egress.COUNTER_MODULUS
  }

  function Release(rx: Rx, data: Bytes): (r: Rx)
  {
    rx.(held := None, up := Counted(rx.up, |data|), bytes := Counted(rx.bytes, |data|),
        consumed := rx.consumed + [|data|])
  }

  /** Takes the next payload. `delay` is what spending it on the pace would answer. */
  function Recv(rx: Rx, now: real, delay: Option<real>): (r: (Rx, Polled<Option<Bytes>>))
  {
    if rx.held.Some? then
      if now < rx.held.value.until then (rx, Pending)
      else (Release(rx, rx.held.value.data), Ready(Some(rx.held.value.data)))
    else if rx.inbox == [] then (rx, if rx.closed then Ready(None) else Pending)
    else
      var data := rx.inbox[0];
      var taken := rx.(inbox := rx.inbox[1..], spent := rx.spent + [|data|]);
      if delay.Some? && now < now + delay.value then
        (taken.(held := Some(Held(data, now + delay.value))), Pending)
      else (Release(taken, data), Ready(Some(data)))
  }

  class GuestRx {
    var inbox: seq<Bytes>
    var closed: bool
    var held: Option<Held>
    var up: nat
    var bytes: nat
    ghost var spent: seq<nat>
    var consumed: seq<nat>

    ghost function View(): (rx: Rx)
      reads this
    {
      Rx(inbox, closed, held, up, bytes, spent, consumed)
    }

    constructor ()
      ensures View() == Rx([], false, None, 0, 0, [], [])
    {
      inbox, closed, held, up, bytes, spent, consumed := [], false, None, 0, 0, [], [];
    }

    method Release(data: Bytes)
      modifies `up, `bytes, `consumed
      ensures View() == Rx(inbox, closed, held, Counted(old(up), |data|), Counted(old(bytes), |data|),
                           spent, old(consumed) + [|data|])
    {
      up := Counted(up, |data|);
      bytes := Counted(bytes, |data|);
      consumed := consumed + [|data|];
    }

    method PollRecv(now: real, delay: Option<real>) returns (r: Polled<Option<Bytes>>)
      modifies this
      ensures (View(), r) == Recv(old(View()), now, delay)
    {
      var data, until;
      if held.Some? {
        data, until := held.value.data, held.value.until;
        held := None;
      } else {
        if inbox == [] {
          return if closed then Ready(None) else Pending;
        }
        data := inbox[0];
        inbox := inbox[1..];
        spent := spent + [|data|];
        if delay.None? {
          Release(data);
          return Ready(Some(data));
        }
        until := now + delay.value;
      }
      if now < until {
        held := Some(Held(data, until));
        return Pending;
      }
      Release(data);
      return Ready(Some(data));
    }
  }

  // ---------------------------------------------------------------------
  // Reading
  // ---------------------------------------------------------------------

  datatype Reader = Reader(rx: Rx, buf: Bytes, pos: nat)
  {
    ghost predicate Valid() { pos <= |buf| }

    function Unread(): (r: Bytes)
      requires Valid()
    {
      buf[pos..]
    }

    /** Every byte that is still to be read, in order. */
    function Remaining(): (r: Bytes)
      requires Valid()
    {
      Unread() + Coming()
    }

    function Coming(): (r: Bytes)
    {
      (if rx.held.Some? then rx.held.value.data else []) + Concat(rx.inbox)
    }
  }

  function Prepended(s: Reader, data: Bytes): (t: Reader)
    requires s.Valid()
  {
    s.(buf := data + s.Unread(), pos := 0)
  }

  /** Reads at most `room` bytes; nothing read is the end. */
  function Read(s: Reader, room: nat, now: real, delay: Option<real>): (r: (Reader, Polled<Bytes>))
    requires s.Valid()
  {
    if s.pos < |s.buf| then
      var n := Min(|s.Unread()|, room);
      (if s.pos + n == |s.buf| then s.(buf := [], pos := 0) else s.(pos := s.pos + n), Ready(s.Unread()[..n]))
    else
      var (rx, polled) := Recv(s.rx, now, delay);
      match polled
      case Pending => (s.(rx := rx), Pending)
      case Ready(None) => (s.(rx := rx), Ready([]))
      case Ready(Some(data)) =>
        var n := Min(|data|, room);
        (if n < |data| then Reader(rx, data, n) else s.(rx := rx), Ready(data[..n]))
  }

  class ChannelReader {
    const rx: GuestRx
    var buf: Bytes
    var pos: nat

    ghost function View(): (s: Reader)
      reads this, rx
    {
      Reader(rx.View(), buf, pos)
    }

    constructor (rx: GuestRx)
      ensures this.rx == rx && buf == [] && pos == 0
    {
      this.rx, buf, pos := rx, [], 0;
    }

    method Prepend(data: Bytes)
      requires View().Valid()
      modifies this
      ensures View() == Prepended(old(View()), data)
    {
      if pos < |buf| {
        buf := data + buf[pos..];
      } else {
        buf := data;
      }
      pos := 0;
      assert buf == data + old(View()).Unread();
    }

    method PollRead(room: nat, now: real, delay: Option<real>) returns (r: Polled<Bytes>)
      requires View().Valid()
      modifies this, rx
      ensures View().Valid() && (View(), r) == Read(old(View()), room, now, delay)
    {
      if pos < |buf| {
        var available := buf[pos..];
        var n := Min(|available|, room);
        pos := pos + n;
        if pos >= |buf| {
          buf, pos := [], 0;
        }
        return Ready(available[..n]);
      }
      var polled := rx.PollRecv(now, delay);
      match polled
      case Ready(Some(data)) =>
        var n := Min(|data|, room);
        if n < |data| {
          buf, pos := data, n;
        }
        return Ready(data[..n]);
      case Ready(None) => return Ready([]);
      case Pending => return Pending;
    }
  }

  /** Taking a payload out loses and repeats nothing. */
  lemma RecvKeepsBytes(s: Reader, now: real, delay: Option<real>)
    ensures var (rx, r) := Recv(s.rx, now, delay);
            match r
            case Ready(Some(data)) => data + s.(rx := rx).Coming() == s.Coming()
            case Ready(None) => rx == s.rx && s.rx.closed && s.Coming() == []
            case Pending => s.(rx := rx).Coming() == s.Coming()
  {
  }

  /** A read takes the front of what remains, as much of it as one piece has. */
  lemma ReadTakesTheFront(s: Reader, room: nat, now: real, delay: Option<real>)
    requires s.Valid()
    ensures var (t, r) := Read(s, room, now, delay);
            && t.Valid()
            && match r
               case Ready(out) => |out| <= room && out + t.Remaining() == s.Remaining()
               case Pending => t.Remaining() == s.Remaining()
  {
    hide Concat, Recv, Reader.Coming;
    if s.pos < |s.buf| {
      var n := Min(|s.Unread()|, room);
      var t := Read(s, room, now, delay).0;
      assert t.Unread() == s.Unread()[n..];
      SameComing(s, t);
      Split(s.Unread(), n, s.Coming());
    } else {
      assert s.Unread() == [];
      ReadReceived(s, room, now, delay);
    }
  }

  lemma Split(a: Bytes, n: nat, b: Bytes)
    requires n <= |a|
    ensures a[..n] + (a[n..] + b) == a + b
  {
  }

  lemma ReadReceived(s: Reader, room: nat, now: real, delay: Option<real>)
    requires s.Valid() && s.pos == |s.buf|
    ensures var (t, r) := Read(s, room, now, delay);
            && t.Valid()
            && match r
               case Ready(out) => |out| <= room && out + t.Remaining() == s.Remaining()
               case Pending => t.Remaining() == s.Remaining()
  {
    RecvKeepsBytes(s, now, delay);
    hide Recv, Reader.Coming;
    assert s.Remaining() == s.Coming();
    match Recv(s.rx, now, delay).1
    case Pending =>
    case Ready(None) =>
    case Ready(Some(data)) =>
      var t := Read(s, room, now, delay).0;
      var n := Min(|data|, room);
      assert t.Coming() == s.(rx := t.rx).Coming() by { SameComing(t, s.(rx := t.rx)); }
      Split(data, n, t.Coming());
      assert t.Unread() == data[n..];
  }

  lemma SameComing(s: Reader, t: Reader)
    requires s.rx == t.rx
    ensures s.Coming() == t.Coming()
  {
  }

  ghost predicate NoEmptyPayload(rx: Rx)
  {
    (forall i :: 0 <= i < |rx.inbox| ==> rx.inbox[i] != []) && (rx.held.Some? ==> rx.held.value.data != [])
  }

  /** A read that finds room and gives nothing means the end: all was read and the guest is
      done. The stack hands on no empty payload. */
  lemma EmptyReadIsTheEnd(s: Reader, room: nat, now: real, delay: Option<real>)
    requires s.Valid() && NoEmptyPayload(s.rx) && room > 0
    ensures Read(s, room, now, delay).1 == Ready([]) <==> s.Remaining() == [] && s.rx.closed
  {
    if s.rx.inbox != [] {
      assert s.rx.inbox[0] != [];
      assert |Concat(s.rx.inbox)| > 0;
    }
  }

  // ---------------------------------------------------------------------
  // Runs of a reader
  // ---------------------------------------------------------------------

  datatype ReadStep =
    | Arrive(data: Bytes)
    | Close
    | Prepend(data: Bytes)
    | Poll(room: nat, now: real, delay: Option<real>)

  /** A payload spent on the pace: its length, when, and the delay that was answered. */
  datatype Spend = Spend(n: nat, at: real, delay: Option<real>)

  /** A reader, the payloads that arrived, what it was given to read and what it read; and when
      each payload was spent on the pace, and when it left. */
  datatype Reading = Reading(
    reader: Reader, arrived: seq<Bytes>, promised: Bytes, delivered: Bytes,
    clock: real, taken: seq<Spend>, left: seq<real>)

  function Unused(clock: real): (w: Reading)
  {
    Reading(Reader(Rx([], false, None, 0, 0, [], []), [], 0), [], [], [], clock, [], [])
  }

  /** What a poll that turned `a` into `b` has spent. */
  function SpentNow(a: Rx, b: Rx, now: real, delay: Option<real>): (r: seq<Spend>)
  {
    if |a.spent| < |b.spent| then [Spend(b.spent[|a.spent|], now, delay)] else []
  }

  function LeftNow(a: Rx, b: Rx, now: real): (r: seq<real>)
  {
    if |a.consumed| < |b.consumed| then [now] else []
  }

  ghost predicate Reads(w: Reading, step: ReadStep, v: Reading)
  {
    w.reader.Valid() && |w.delivered| <= |w.promised| &&
    match step
    case Arrive(data) =>
      && !w.reader.rx.closed
      && v == w.(reader := w.reader.(rx := w.reader.rx.(inbox := w.reader.rx.inbox + [data])),
                 arrived := w.arrived + [data], promised := w.promised + data)
    case Close =>
      v == w.(reader := w.reader.(rx := w.reader.rx.(closed := true)))
    case Prepend(data) =>
      v == w.(reader := Prepended(w.reader, data),
              promised := w.delivered + data + w.promised[|w.delivered|..])
    case Poll(room, now, delay) =>
      var (t, r) := Read(w.reader, room, now, delay);
      && w.clock <= now
      && v == w.(reader := t, delivered := w.delivered + (if r.Ready? then r.value else []), clock := now,
                 taken := w.taken + SpentNow(w.reader.rx, t.rx, now, delay),
                 left := w.left + LeftNow(w.reader.rx, t.rx, now))
  }

  function Sum(ns: seq<nat>): (r: nat)
  {
    if ns == [] then 0 else Sum(ns[..|ns| - 1]) + ns[|ns| - 1]
  }

  function Sizes(held: Option<Held>): (r: seq<nat>)
  {
    if held.Some? then [|held.value.data|] else []
  }

  /** Each payload is spent once when it is taken, and counted and given back once when it is
      released. */
  ghost predicate Accounted(rx: Rx, arrived: seq<Bytes>)
  {
    && Lengths(arrived) == rx.spent + Lengths(rx.inbox)
    && rx.spent == rx.consumed + Sizes(rx.held)
    && rx.up == rx.bytes == Sum(rx.consumed) % Egress.COUNTER_MODULUS
  }

  ghost predicate Faithful(w: Reading)
  {
    && w.reader.Valid() && w.delivered + w.reader.Remaining() == w.promised
    && Accounted(w.reader.rx, w.arrived)
  }

  lemma SumOneMore(ns: seq<nat>, n: nat)
    ensures Sum(ns + [n]) == Sum(ns) + n
  {
    assert (ns + [n])[..|ns|] == ns;
  }

  lemma CountedTwice(a: nat, n: nat)
    ensures Counted(a % Egress.COUNTER_MODULUS, n) == (a + n) % Egress.COUNTER_MODULUS
  {
  }

  lemma ReleaseAccounts(rx: Rx, data: Bytes)
    requires rx.up == rx.bytes == Sum(rx.consumed) % Egress.COUNTER_MODULUS
    ensures var t := Release(rx, data); t.up == t.bytes == Sum(t.consumed) % Egress.COUNTER_MODULUS
  {
    SumOneMore(rx.consumed, |data|);
    CountedTwice(Sum(rx.consumed), |data|);
  }

  lemma RecvAccounts(rx: Rx, arrived: seq<Bytes>, now: real, delay: Option<real>)
    requires Accounted(rx, arrived)
    ensures Accounted(Recv(rx, now, delay).0, arrived)
  {
    hide Sum, Counted;
    if rx.held.Some? {
      ReleaseAccounts(rx, rx.held.value.data);
    } else if rx.inbox != [] {
      var data := rx.inbox[0];
      var taken := rx.(inbox := rx.inbox[1..], spent := rx.spent + [|data|]);
      assert Lengths(rx.inbox) == [|data|] + Lengths(rx.inbox[1..]);
      assert rx.spent + ([|data|] + Lengths(rx.inbox[1..])) == taken.spent + Lengths(taken.inbox);
      ReleaseAccounts(taken, data);
      assert rx.spent + [] == rx.spent;
    }
  }

  lemma {:induction false} PollKeeps(w: Reading, step: ReadStep, v: Reading)
    requires Faithful(w) && Reads(w, step, v) && step.Poll?
    ensures Faithful(v)
  {
    hide Recv, Reader.Remaining, Accounted;
    ReadTakesTheFront(w.reader, step.room, step.now, step.delay);
    RecvAccounts(w.reader.rx, w.arrived, step.now, step.delay);
    var (t, r) := Read(w.reader, step.room, step.now, step.delay);
    if r.Ready? {
      assert w.delivered + (r.value + t.Remaining()) == (w.delivered + r.value) + t.Remaining();
    } else {
      assert w.delivered + [] == w.delivered;
    }
  }

  lemma ArriveKeeps(w: Reading, step: ReadStep, v: Reading)
    requires Faithful(w) && Reads(w, step, v) && step.Arrive?
    ensures Faithful(v)
  {
    hide Concat, Sum;
    var rx := w.reader.rx;
    ConcatOneMore(rx.inbox, step.data);
    assert Lengths(rx.inbox + [step.data]) == Lengths(rx.inbox) + [|step.data|];
    assert Lengths(w.arrived + [step.data]) == Lengths(w.arrived) + [|step.data|];
    assert v.reader.Remaining() == w.reader.Remaining() + step.data;
  }

  lemma ReadStepKeeps(w: Reading, step: ReadStep, v: Reading)
    requires Faithful(w) && Reads(w, step, v)
    ensures Faithful(v)
  {
    match step
    case Arrive(_) => ArriveKeeps(w, step, v);
    case Poll(_, _, _) => PollKeeps(w, step, v);
    case Close =>
    case Prepend(data) =>
      assert w.promised[|w.delivered|..] == w.reader.Remaining();
      assert v.reader.Remaining() == data + w.reader.Remaining();
      assert v.promised == w.delivered + v.reader.Remaining();
  }

  ghost predicate ReadRun(ws: seq<Reading>, steps: seq<ReadStep>)
  {
    && |ws| == |steps| + 1 && ws[0] == Unused(ws[0].clock)
    && forall k :: 0 <= k < |steps| ==> Reads(ws[k], steps[k], ws[k + 1])
  }

  /** However it is polled, a stream delivers what it was given in order, nothing lost and
      nothing repeated, and every payload is spent, counted and given back once. */
  lemma {:induction false} EveryByteOnceInOrder(ws: seq<Reading>, steps: seq<ReadStep>, k: nat)
    requires ReadRun(ws, steps) && k <= |steps|
    ensures Faithful(ws[k]) && ws[k].delivered <= ws[k].promised
  {
    if k == 0 {
      assert Lengths([]) == [] && Sum([]) == 0;
    } else {
      hide Faithful, Reads;
      EveryByteOnceInOrder(ws, steps, k - 1);
      ReadStepKeeps(ws[k - 1], steps[k - 1], ws[k]);
      PrefixOfPromised(ws[k]);
    }
  }

  lemma PrefixOfPromised(w: Reading)
    requires Faithful(w)
    ensures w.delivered <= w.promised
  {
  }

  /** What is given to read is the bytes put in front, then the payloads as they arrived. */
  lemma {:induction false} PromisedInOrder(ws: seq<Reading>, steps: seq<ReadStep>, k: nat)
    requires ReadRun(ws, steps) && 0 < k <= |steps| && steps[0].Prepend?
    requires forall i :: 0 < i < k ==> !steps[i].Prepend?
    ensures ws[k].promised == steps[0].data + Concat(ws[k].arrived)
  {
    hide Read, Prepended;
    assert Reads(ws[k - 1], steps[k - 1], ws[k]);
    if k == 1 {
      assert [] + steps[0].data + [] == steps[0].data;
    } else {
      PromisedInOrder(ws, steps, k - 1);
      if steps[k - 1].Arrive? {
        ConcatOneMore(ws[k - 1].arrived, steps[k - 1].data);
        assert ws[k].promised == steps[0].data + (Concat(ws[k - 1].arrived) + steps[k - 1].data);
      }
    }
  }

  ghost predicate NoneEmpty(payloads: seq<Bytes>)
  {
    forall i :: 0 <= i < |payloads| ==> payloads[i] != []
  }

  /** What waits at the channel is the last of what arrived. */
  lemma WaitingArrived(rx: Rx, arrived: seq<Bytes>)
    requires Accounted(rx, arrived) && NoneEmpty(arrived)
    ensures NoEmptyPayload(rx)
  {
    var taken := |rx.spent|;
    forall i | 0 <= i < |rx.inbox| ensures rx.inbox[i] != [] {
      assert Lengths(arrived)[taken + i] == Lengths(rx.inbox)[i];
    }
    if rx.held.Some? {
      assert Lengths(arrived)[taken - 1] == |rx.held.value.data|;
    }
  }

  /** The stack hands on no empty payload, so a read gives nothing exactly once everything was
      delivered and the guest is done. */
  lemma EndExactlyWhenDone(ws: seq<Reading>, steps: seq<ReadStep>, k: nat, room: nat, now: real, delay: Option<real>)
    requires ReadRun(ws, steps) && k <= |steps| && NoneEmpty(ws[k].arrived) && room > 0
    ensures ws[k].reader.Valid()
    ensures Read(ws[k].reader, room, now, delay).1 == Ready([]) <==>
              ws[k].delivered == ws[k].promised && ws[k].reader.rx.closed
  {
    EveryByteOnceInOrder(ws, steps, k);
    var w := ws[k];
    WaitingArrived(w.reader.rx, w.arrived);
    EmptyReadIsTheEnd(w.reader, room, now, delay);
    assert |w.promised| == |w.delivered| + |w.reader.Remaining()|;
  }

  // ---------------------------------------------------------------------
  // When payloads leave
  // ---------------------------------------------------------------------

  predicate IsHeld(s: Spend)
  {
    s.delay.Some? && s.delay.value > 0.0
  }

  function Due(s: Spend): (at: real)
  {
    if IsHeld(s) then s.at + s.delay.value else s.at
  }

  /** Payloads leave in order, none before it is due, and one that is not held back leaves at
      the poll that takes it. At most one has been taken and has not left. */
  ghost predicate Punctual(taken: seq<Spend>, left: seq<real>, clock: real)
  {
    && |left| <= |taken| <= |left| + 1
    && (forall i :: 0 <= i < |taken| ==> taken[i].at <= clock)
    && (forall i :: 0 <= i < |left| ==>
          Due(taken[i]) <= left[i] <= clock && (IsHeld(taken[i]) || left[i] == taken[i].at))
    && (|left| < |taken| ==> IsHeld(taken[|left|]))
  }

  ghost predicate Timed(w: Reading)
  {
    var rx := w.reader.rx;
    && Punctual(w.taken, w.left, w.clock)
    && |w.taken| == |rx.spent| && (forall i :: 0 <= i < |w.taken| ==> w.taken[i].n == rx.spent[i])
    && |w.left| == |rx.consumed|
    && (rx.held.Some? <==> |w.left| < |w.taken|)
    && (rx.held.Some? ==> rx.held.value.until == Due(w.taken[|w.left|]))
  }

  /** What one poll of the channel does: it lets the payload it holds go exactly when that is
      due; holding none it takes the next, and lets it go unless it is to be held. */
  ghost predicate Turns(w: Reading, now: real, delay: Option<real>, v: Reading)
  {
    if |w.left| < |w.taken| then
      v.taken == w.taken && v.left == if Due(w.taken[|w.left|]) <= now then w.left + [now] else w.left
    else if w.reader.rx.inbox == [] then
      v.taken == w.taken && v.left == w.left
    else
      var s := Spend(|w.reader.rx.inbox[0]|, now, delay);
      v.taken == w.taken + [s] && v.left == if IsHeld(s) then w.left else w.left + [now]
  }

  lemma PollTurns(w: Reading, step: ReadStep, v: Reading)
    requires Timed(w) && Reads(w, step, v) && step.Poll?
    ensures if w.reader.Unread() == [] then Turns(w, step.now, step.delay, v)
            else v.taken == w.taken && v.left == w.left
  {
    hide Punctual, Counted;
    assert w.reader.Unread() == [] <==> w.reader.pos == |w.reader.buf|;
    assert w.taken + [] == w.taken && w.left + [] == w.left;
  }

  lemma TurnsArePunctual(w: Reading, now: real, delay: Option<real>, v: Reading)
    requires Punctual(w.taken, w.left, w.clock) && w.clock <= now && Turns(w, now, delay, v)
    ensures Punctual(v.taken, v.left, now)
  {
  }

  lemma PollIsTimed(w: Reading, step: ReadStep, v: Reading)
    requires Timed(w) && Reads(w, step, v) && step.Poll?
    ensures Timed(v)
  {
    PollTurns(w, step, v);
    if w.reader.Unread() == [] {
      TurnsArePunctual(w, step.now, step.delay, v);
    }
    hide Punctual, Turns, Counted;
    PollKeepsCounts(w, step, v);
  }

  lemma PollKeepsCounts(w: Reading, step: ReadStep, v: Reading)
    requires Timed(w) && Reads(w, step, v) && step.Poll?
    ensures var rx := v.reader.rx;
            && |v.taken| == |rx.spent| && (forall i :: 0 <= i < |v.taken| ==> v.taken[i].n == rx.spent[i])
            && |v.left| == |rx.consumed|
            && (rx.held.Some? <==> |v.left| < |v.taken|)
            && (rx.held.Some? ==> rx.held.value.until == Due(v.taken[|v.left|]))
  {
    hide Counted;
  }

  lemma ReadStepIsTimed(w: Reading, step: ReadStep, v: Reading)
    requires Timed(w) && Reads(w, step, v)
    ensures Timed(v) && v.clock == if step.Poll? then step.now else w.clock
  {
    if step.Poll? {
      PollIsTimed(w, step, v);
    }
  }

  /** What leaves is what was given back. */
  lemma LeavingIsConsumed(w: Reading, step: ReadStep, v: Reading)
    requires Timed(w) && Faithful(w) && Reads(w, step, v)
    ensures |w.left| <= |w.taken| && |w.left| <= |v.left| && w.taken <= v.taken
    ensures v.reader.rx.consumed ==
            if |w.left| < |v.left| && |w.left| < |v.taken|
            then w.reader.rx.consumed + [v.taken[|w.left|].n] else w.reader.rx.consumed
  {
    hide Sum, Counted, Concat;
    if step.Poll? {
      PollTurns(w, step, v);
      var rx := w.reader.rx;
      if rx.held.Some? {
        assert rx.spent[|w.left|] == (rx.consumed + Sizes(rx.held))[|w.left|];
      }
    }
  }

  lemma {:induction false} EveryRunIsTimed(ws: seq<Reading>, steps: seq<ReadStep>, k: nat)
    requires ReadRun(ws, steps) && k <= |steps|
    ensures Timed(ws[k])
  {
    if k > 0 {
      hide Timed, Reads;
      EveryRunIsTimed(ws, steps, k - 1);
      ReadStepIsTimed(ws[k - 1], steps[k - 1], ws[k]);
    }
  }

  /** However a stream is polled, no payload leaves before the time its spend was answered, one
      that was answered none leaves at its own poll, and one that is due leaves at the first poll
      that finds nothing buffered. */
  lemma PayloadsLeaveWhenDue(ws: seq<Reading>, steps: seq<ReadStep>, k: nat)
    requires ReadRun(ws, steps) && k <= |steps|
    ensures Punctual(ws[k].taken, ws[k].left, ws[k].clock)
    ensures |ws[k].left| == |ws[k].reader.rx.consumed|
    ensures forall i :: 0 <= i < |ws[k].left| ==> ws[k].taken[i].n == ws[k].reader.rx.consumed[i]
    ensures k < |steps| && steps[k].Poll? ==>
              ws[k].reader.Valid() &&
              if ws[k].reader.Unread() == [] then Turns(ws[k], steps[k].now, steps[k].delay, ws[k + 1])
              else ws[k + 1].taken == ws[k].taken && ws[k + 1].left == ws[k].left
  {
    EveryRunIsTimed(ws, steps, k);
    EveryByteOnceInOrder(ws, steps, k);
    var rx := ws[k].reader.rx;
    assert forall i :: 0 <= i < |rx.consumed| ==> rx.spent[i] == (rx.consumed + Sizes(rx.held))[i];
    if k < |steps| && steps[k].Poll? {
      assert Reads(ws[k], steps[k], ws[k + 1]);
      PollTurns(ws[k], steps[k], ws[k + 1]);
    }
  }

  // ---------------------------------------------------------------------
  // Writing
  // ---------------------------------------------------------------------

  const SEND_CHUNK: nat := 64 * 1024
  const TO_GUEST_BUDGET: nat := 128 * 1024

  /** Permits being acquired: a waiting acquire keeps what it got so far. */
  datatype Acquire = Acquire(want: nat, got: nat)

  /** The sending end while the stack is alive: free permits, the acquire under way, and the
      bytes enqueued that the stack has not moved on. `down` is the connection's counter. */
  datatype Tx = Tx(free: nat, acquire: Option<Acquire>, queue: Bytes, down: nat, open: bool)

  const Fresh := Tx(TO_GUEST_BUDGET, None, [], 0, true)

  datatype Written = Wrote(n: nat) | Broken

  /** Free permits go to the acquire under way first. */
  function Granted(tx: Tx, n: nat): (r: Tx)
  {
    if tx.acquire.None? then tx.(free := tx.free + n)
    else
      var a := tx.acquire.value;
      var more := if a.got < a.want then Min(n, a.want - a.got) else 0;
      tx.(free := tx.free + n - more, acquire := Some(a.(got := a.got + more)))
  }

  function Enqueued(tx: Tx, data: Bytes): (r: Tx)
  {
    tx.(queue := tx.queue + data, down := Counted(tx.down, |data|))
  }

  /** Starts an acquire when none is under way. */
  function Acquiring(tx: Tx, len: nat): (r: Tx)
    ensures r.acquire.Some?
  {
    if tx.acquire.Some? then tx
    else
      var want := Min(len, SEND_CHUNK);
      var got := Min(tx.free, want);
      tx.(free := tx.free - got, acquire := Some(Acquire(want, got)))
  }

  /** One poll of a write: what was accepted is the front of `buf`. */
  function Write(tx: Tx, buf: Bytes): (r: (Tx, Polled<Written>))
  {
    if buf == [] then (tx, Ready(Wrote(0)))
    else if !tx.open then (tx.(acquire := None), Ready(Broken))
    else
      var t := Acquiring(tx, |buf|);
      var a := t.acquire.value;
      if a.got < a.want then (t, Pending)
      else
        var n := Min(a.want, |buf|);
        (Enqueued(t.(acquire := None, free := t.free + (a.want - n)), buf[..n]), Ready(Wrote(n)))
  }

  class ChannelWriter {
    var free: nat
    var acquire: Option<Acquire>
    var queue: Bytes
    var down: nat
    var open: bool

    ghost function View(): (tx: Tx)
      reads this
    {
      Tx(free, acquire, queue, down, open)
    }

    constructor ()
      ensures View() == Fresh
    {
      free, acquire, queue, down, open := TO_GUEST_BUDGET, None, [], 0, true;
    }

    method Enqueue(chunk: Bytes)
      modifies `queue, `down
      ensures View() == Enqueued(old(View()), chunk)
    {
      queue := queue + chunk;
      down := Counted(down, |chunk|);
    }

    method PollWrite(buf: Bytes) returns (r: Polled<Written>)
      modifies this
      ensures (View(), r) == Write(old(View()), buf)
    {
      if buf == [] {
        return Ready(Wrote(0));
      }
      if !open {
        acquire := None;
        return Ready(Broken);
      }
      if acquire.None? {
        var want := Min(|buf|, SEND_CHUNK);
        var got := Min(free, want);
        free := free - got;
        acquire := Some(Acquire(want, got));
      }
      var a := acquire.value;
      if a.got < a.want {
        return Pending;
      }
      acquire := None;
      var n := Min(a.want, |buf|);
      if a.want > n {
        free := free + (a.want - n);
      }
      Enqueue(buf[..n]);
      return Ready(Wrote(n));
    }

    /** Acquires a permit for each of `want` bytes. While it waits the stack moves on at most
        `moves[0]` bytes, then at most `moves[1]`, and so on; `moved` is what it moved, in `k`
        goes. */
    method Await(want: nat, moves: seq<nat>) returns (moved: Bytes, k: nat)
      requires Balanced(View()) && open && acquire.None? && 0 < want <= SEND_CHUNK
      modifies this
      ensures Balanced(View()) && open && acquire.Some? && acquire.value.want == want
      ensures moved + queue == old(queue) && down == old(down)
      ensures k <= |moves| && (k > 0 ==> old(free) + Sum(moves[..k - 1]) < want)
      ensures acquire.value.got == want <==> want <= old(free) + Sum(moves)
    {
      hide Sum, Waiting, Granted, Balanced;
      WaitBegins(View(), want, moves);
      var got := Min(free, want);
      free, acquire := free - got, Some(Acquire(want, got));
      moved, k := [], 0;
      while acquire.value.got < acquire.value.want && k < |moves|
        invariant k <= |moves| && acquire.Some? && acquire.value.want == want
        invariant Waiting(old(View()), View(), want, moved)
        invariant |moved| == Min(Sum(moves[..k]), |old(queue)|)
        invariant k > 0 ==> old(free) + Sum(moves[..k - 1]) < want
        decreases |moves| - k
      {
        var n := Min(moves[k], |queue|);
        WaitGoesOn(old(View()), View(), want, moves, k, moved);
        var more := Moved(n);
        moved, k := moved + more, k + 1;
      }
      WaitEnds(old(View()), View(), want, moves, k, moved);
    }

    /** Sends one chunk once it has a permit for every byte. When the stack has moved on what
        `moves` has it move, it closes the connection, or nothing more happens yet. */
    method SendChunk(chunk: Bytes, moves: seq<nat>, closes: bool)
      returns (r: Polled<Written>, moved: Bytes, k: nat)
      requires Balanced(View()) && open && acquire.None? && 0 < |chunk| <= SEND_CHUNK
      requires down < Egress.COUNTER_MODULUS
      modifies this
      ensures Balanced(View()) && Ended(View(), r, |chunk|, closes)
      ensures Sent(old(View()), View(), moved, chunk, if r == Ready(Wrote(|chunk|)) then |chunk| else 0)
      ensures r == Ready(Wrote(|chunk|)) <==> |chunk| <= old(free) + Sum(moves)
      ensures k <= |moves| && (k > 0 ==> old(free) + Sum(moves[..k - 1]) < |chunk|)
    {
      hide Sum;
      moved, k := Await(|chunk|, moves);
      if acquire.value.got < acquire.value.want {
        assert chunk[..0] == [];
        if closes {
          open, acquire := false, None;
          return Ready(Broken), moved, k;
        }
        return Pending, moved, k;
      }
      acquire := None;
      assert moved + (queue + chunk) == (moved + queue) + chunk && chunk[..|chunk|] == chunk;
      Enqueue(chunk);
      return Ready(Wrote(|chunk|)), moved, k;
    }

    /** Sends all of `data`, chunk by chunk, each waiting for its permits as `moves` and `closes`
        have it. */
    method Send(data: Bytes, moves: seq<nat>, closes: bool) returns (r: Polled<Written>, moved: Bytes, sent: nat)
      requires Balanced(View()) && open && acquire.None? && down < Egress.COUNTER_MODULUS
      modifies this
      ensures Balanced(View()) && Ended(View(), r, |data|, closes)
      ensures sent <= |data| && Sent(old(View()), View(), moved, data, sent)
      ensures r == Ready(Wrote(|data|)) <==> sent == |data|
    {
      hide Sum, Balanced;
      moved, sent := [], 0;
      var k := 0;
      assert Sent(View(), View(), [], data, 0) by { assert data[..0] == []; }
      while sent < |data|
        invariant 0 <= sent <= |data| && 0 <= k <= |moves| && Balanced(View()) && open && acquire.None?
        invariant Sent(old(View()), View(), moved, data, sent)
        decreases |data| - sent
      {
        hide Sent;
        var n := Min(|data| - sent, SEND_CHUNK);
        ghost var tx := View();
        var more, used;
        assert down < Egress.COUNTER_MODULUS by { StaysCounted(old(View()), View(), moved, data, sent); }
        r, more, used := SendChunk(data[sent..sent + n], moves[k..], closes);
        var m := if r == Ready(Wrote(n)) then n else 0;
        SentOn(old(View()), tx, View(), moved, more, data, sent, n, m);
        moved, sent, k := moved + more, sent + m, k + used;
        if m == 0 {
          return;
        }
      }
      r := Ready(Wrote(|data|));
    }

    /** The stack moves bytes on and gives their permits back. */
    method Moved(n: nat) returns (data: Bytes)
      requires n <= |queue|
      modifies this
      ensures data == old(queue)[..n]
      ensures View() == Granted(old(View()).(queue := old(queue)[n..]), n)
    {
      data := queue[..n];
      queue := queue[n..];
      if acquire.None? {
        free := free + n;
      } else {
        var a := acquire.value;
        var more := if a.got < a.want then Min(n, a.want - a.got) else 0;
        acquire := Some(a.(got := a.got + more));
        free := free + (n - more);
      }
    }
  }

  /** The acquire under way has got every permit there was, and those of the bytes moved on. */
  ghost predicate Waiting(tx: Tx, t: Tx, want: nat, moved: Bytes)
  {
    && t.open && t.acquire.Some? && t.acquire.value.want == want && Balanced(t)
    && moved + t.queue == tx.queue && t.down == tx.down
    && t.acquire.value.got == Min(want, tx.free + |moved|)
  }

  lemma WaitBegins(tx: Tx, want: nat, moves: seq<nat>)
    requires Balanced(tx) && tx.open && tx.acquire.None? && 0 < want <= SEND_CHUNK
    ensures Waiting(tx, Acquiring(tx, want), want, []) && Sum(moves[..0]) == 0
  {
  }

  lemma WaitGoesOn(tx: Tx, t: Tx, want: nat, moves: seq<nat>, k: nat, moved: Bytes)
    requires Waiting(tx, t, want, moved) && k < |moves| && t.acquire.value.got < want
    requires |moved| == Min(Sum(moves[..k]), |tx.queue|)
    ensures var n := Min(moves[k], |t.queue|);
            var u, more := Granted(t.(queue := t.queue[n..]), n), moved + t.queue[..n];
            && u.acquire.Some? && u.acquire.value.want == want
            && Waiting(tx, u, want, more) && |more| == Min(Sum(moves[..k + 1]), |tx.queue|)
    ensures tx.free + Sum(moves[..k]) < want
  {
    var n := Min(moves[k], |t.queue|);
    GrantBalances(t, n);
    SumToNext(moves, k);
    hide Sum, Balanced;
    assert moved + t.queue[..n] + t.queue[n..] == moved + t.queue;
    FullWhenDrained(tx, t, want, moved);
  }

  /** A queue that is all moved on leaves a permit for every byte. */
  lemma FullWhenDrained(tx: Tx, t: Tx, want: nat, moved: Bytes)
    requires Waiting(tx, t, want, moved) && t.acquire.value.got < want
    ensures |moved| < |tx.queue|
  {
  }

  lemma WaitEnds(tx: Tx, t: Tx, want: nat, moves: seq<nat>, k: nat, moved: Bytes)
    requires Waiting(tx, t, want, moved) && k <= |moves| && |moved| == Min(Sum(moves[..k]), |tx.queue|)
    requires t.acquire.value.got < want ==> k == |moves|
    ensures Balanced(t) && t.open && t.acquire.Some? && t.acquire.value.want == want
    ensures moved + t.queue == tx.queue && t.down == tx.down
    ensures t.acquire.value.got == want <==> want <= tx.free + Sum(moves)
  {
    hide Sum;
    SumFront(moves, k);
    if t.acquire.value.got < want {
      assert moves[..k] == moves;
    }
  }

  /** Sending `n` bytes of `data`: they follow what was queued, less what was moved on, and are
      counted. */
  ghost predicate Sent(tx: Tx, t: Tx, moved: Bytes, data: Bytes, n: nat)
    requires n <= |data|
  {
    moved + t.queue == tx.queue + data[..n] && t.down == Counted(tx.down, n)
  }

  /** How sending ends: all `n` bytes are written, or the connection closed, or it still waits. */
  ghost predicate Ended(t: Tx, r: Polled<Written>, n: nat, closes: bool)
  {
    match r
    case Ready(Wrote(m)) => m == n && t.open && t.acquire.None?
    case Ready(Broken) => closes && !t.open
    case Pending => !closes && t.open && t.acquire.Some?
  }

  lemma SentOn(tx: Tx, u: Tx, t: Tx, moved: Bytes, more: Bytes, data: Bytes, sent: nat, n: nat, m: nat)
    requires m <= n && sent + n <= |data|
    requires Sent(tx, u, moved, data, sent) && Sent(u, t, more, data[sent..sent + n], m)
    ensures Sent(tx, t, moved + more, data, sent + m)
  {
    var chunk := data[sent..sent + n];
    assert data[..sent] + chunk[..m] == data[..sent + m];
    assert (moved + more) + t.queue == moved + (more + t.queue);
    assert moved + (u.queue + chunk[..m]) == (moved + u.queue) + chunk[..m];
    assert (tx.queue + data[..sent]) + chunk[..m] == tx.queue + (data[..sent] + chunk[..m]);
    CountedOn(tx.down, sent, m);
  }

  lemma StaysCounted(tx: Tx, t: Tx, moved: Bytes, data: Bytes, n: nat)
    requires n <= |data| && Sent(tx, t, moved, data, n)
    ensures t.down < Egress.COUNTER_MODULUS
  {
  }

  lemma CountedOn(a: nat, n: nat, m: nat)
    ensures Counted(Counted(a, n), m) == Counted(a, n + m)
  {
  }

  lemma SumToNext(ns: seq<nat>, k: nat)
    requires k < |ns|
    ensures Sum(ns[..k + 1]) == Sum(ns[..k]) + ns[k]
  {
    assert ns[..k + 1][..k] == ns[..k];
  }

  lemma {:induction false} SumFront(ns: seq<nat>, k: nat)
    requires k <= |ns|
    ensures Sum(ns[..k]) <= Sum(ns)
    decreases |ns|
  {
    if k < |ns| {
      SumFront(ns[..|ns| - 1], k);
      assert ns[..|ns| - 1][..k] == ns[..k];
    } else {
      assert ns[..k] == ns;
    }
  }

  // ---------------------------------------------------------------------
  // Runs of a writer
  // ---------------------------------------------------------------------

  datatype WriteStep =
    | PollWrite(buf: Bytes)
    /** A `send` asks for the permits of its next chunk, and has them or is refused. */
    | AskToSend(chunk: Bytes)
    | SendAsked
    /** A write or a send that waits is dropped, and its permits given back. */
    | GiveUp
    | Move(n: nat)
    | Shut

  /** A writer, the chunk a `send` waits to send, the bytes accepted and those the stack has
      moved on. */
  datatype Writing = Writing(tx: Tx, asked: Option<Bytes>, accepted: Bytes, moved: Bytes)

  ghost predicate Writes(w: Writing, step: WriteStep, v: Writing)
  {
    match step
    case PollWrite(buf) =>
      var (t, r) := Write(w.tx, buf);
      && w.asked.None?
      && v == w.(tx := t, accepted := w.accepted + (if r.Ready? && r.value.Wrote? then Front(buf, r.value.n) else []))
    case AskToSend(chunk) =>
      && w.asked.None? && w.tx.acquire.None? && 0 < |chunk| <= SEND_CHUNK
      && v == w.(tx := Acquiring(w.tx, |chunk|), asked := Some(chunk))
    case SendAsked =>
      && w.asked.Some? && w.tx.acquire.Some? && (w.tx.open ==> w.tx.acquire.value.got == |w.asked.value|)
      && v == if !w.tx.open then w.(tx := w.tx.(acquire := None), asked := None)
              else w.(tx := Enqueued(w.tx.(acquire := None), w.asked.value), asked := None,
                      accepted := w.accepted + w.asked.value)
    case GiveUp =>
      v == w.(tx := w.tx.(acquire := None, free := w.tx.free + Got(w.tx)), asked := None)
    case Move(n) =>
      && w.tx.open && n <= |w.tx.queue|
      && v == w.(tx := Granted(w.tx.(queue := w.tx.queue[n..]), n), moved := w.moved + w.tx.queue[..n])
    case Shut => v == w.(tx := w.tx.(open := false))
  }

  function Front(buf: Bytes, n: nat): (r: Bytes)
  {
    if n <= |buf| then buf[..n] else buf
  }

  function Got(tx: Tx): (r: nat)
  {
    if tx.acquire.Some? then tx.acquire.value.got else 0
  }

  /** Every permit is free, with the acquire under way, or with a byte on its way to the guest. */
  ghost predicate Balanced(tx: Tx)
  {
    && (tx.open ==> tx.free + Got(tx) + |tx.queue| == TO_GUEST_BUDGET)
    && (tx.acquire.Some? ==>
          var a := tx.acquire.value;
          0 < a.want <= SEND_CHUNK && a.got <= a.want && (a.got < a.want ==> tx.free == 0))
  }

  ghost predicate Conveyed(w: Writing)
  {
    && Balanced(w.tx) && w.moved + w.tx.queue == w.accepted
    && (w.asked.Some? ==> w.tx.acquire.Some? && w.tx.acquire.value.want == |w.asked.value|)
    && w.tx.down == |w.accepted| % Egress.COUNTER_MODULUS
  }

  lemma WriteBalances(tx: Tx, buf: Bytes)
    requires Balanced(tx)
    ensures Balanced(Write(tx, buf).0)
  {
  }

  lemma GrantBalances(tx: Tx, n: nat)
    requires Balanced(tx) && tx.open && n <= |tx.queue|
    ensures Balanced(Granted(tx.(queue := tx.queue[n..]), n))
  {
  }

  lemma EnqueueConveys(w: Writing, tx: Tx, data: Bytes)
    requires Conveyed(w) && tx.queue == w.tx.queue && tx.down == w.tx.down
    ensures var t := Enqueued(tx, data);
            && w.moved + t.queue == w.accepted + data
            && t.down == |w.accepted + data| % Egress.COUNTER_MODULUS
  {
    assert w.moved + (tx.queue + data) == (w.moved + tx.queue) + data;
    CountedTwice(|w.accepted|, |data|);
  }

  lemma PollWriteKeeps(w: Writing, step: WriteStep, v: Writing)
    requires Conveyed(w) && Writes(w, step, v) && step.PollWrite?
    ensures Conveyed(v)
  {
    var buf := step.buf;
    WriteBalances(w.tx, buf);
    var (t, r) := Write(w.tx, buf);
    if r.Ready? && r.value.Wrote? && buf != [] {
      var a := Acquiring(w.tx, |buf|);
      EnqueueConveys(w, a.(acquire := None, free := t.free), Front(buf, r.value.n));
    } else {
      assert v.accepted == w.accepted;
    }
  }

  lemma MoveKeeps(w: Writing, step: WriteStep, v: Writing)
    requires Conveyed(w) && Writes(w, step, v) && step.Move?
    ensures Conveyed(v)
  {
    var n := step.n;
    GrantBalances(w.tx, n);
    assert w.tx.queue == w.tx.queue[..n] + w.tx.queue[n..];
    assert w.moved + w.tx.queue[..n] + w.tx.queue[n..] == w.moved + w.tx.queue;
  }

  lemma WriteStepKeeps(w: Writing, step: WriteStep, v: Writing)
    requires Conveyed(w) && Writes(w, step, v)
    ensures Conveyed(v)
  {
    match step
    case PollWrite(_) => PollWriteKeeps(w, step, v);
    case Move(_) => MoveKeeps(w, step, v);
    case SendAsked =>
      if w.tx.open {
        EnqueueConveys(w, w.tx.(acquire := None), w.asked.value);
      }
    case AskToSend(_) =>
    case GiveUp =>
    case Shut =>
  }

  ghost predicate WriteRun(ws: seq<Writing>, steps: seq<WriteStep>)
  {
    && |ws| == |steps| + 1 && ws[0] == Writing(Fresh, None, [], [])
    && forall k :: 0 <= k < |steps| ==> Writes(ws[k], steps[k], ws[k + 1])
  }

  /** Through any pending polls and retries, permits are neither lost nor made up, no more than
      the budget is ever on its way, and what was accepted reaches the stack in order. */
  lemma {:induction false} EveryPermitIsAccountedFor(ws: seq<Writing>, steps: seq<WriteStep>, k: nat)
    requires WriteRun(ws, steps) && k <= |steps|
    ensures Conveyed(ws[k])
    ensures ws[k].tx.open ==> |ws[k].tx.queue| <= TO_GUEST_BUDGET
  {
    if k > 0 {
      hide Writes;
      EveryPermitIsAccountedFor(ws, steps, k - 1);
      WriteStepKeeps(ws[k - 1], steps[k - 1], ws[k]);
    }
  }

  /** A write waits only while bytes toward the guest are queued, and when it does not wait it
      takes a first piece of what it is offered; a send has all its permits once none are. */
  lemma WritesAreTakenOnceTheQueueDrains(ws: seq<Writing>, steps: seq<WriteStep>, k: nat, buf: Bytes)
    requires WriteRun(ws, steps) && k <= |steps|
    ensures var (t, r) := Write(ws[k].tx, buf);
            && (buf == [] ==> r == Ready(Wrote(0)) && t == ws[k].tx)
            && (buf != [] && !ws[k].tx.open ==> r == Ready(Broken) && t.queue == ws[k].tx.queue)
            && (buf != [] && ws[k].tx.open && ws[k].tx.queue == [] ==> r.Ready?)
            && (buf != [] && ws[k].tx.open && r.Ready? ==>
                             && r.value.Wrote? && 0 < r.value.n <= Min(|buf|, SEND_CHUNK)
                             && t.queue == ws[k].tx.queue + buf[..r.value.n])
    ensures ws[k].asked.Some? && ws[k].tx.open && ws[k].tx.queue == [] ==>
              ws[k].tx.acquire.Some? && ws[k].tx.acquire.value.got == |ws[k].asked.value|
  {
    EveryPermitIsAccountedFor(ws, steps, k);
  }
}
