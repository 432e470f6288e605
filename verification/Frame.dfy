/** Binary frames, `[u32 BE length][u8 type][payload]`: their printer, the blocking reader,
    and the incremental parser with the loop that feeds it. */
module Frame {
  import opened Common

  datatype Frame = Frame(kind: byte, payload: seq<byte>)

  /** The largest frame, its type byte included. */
  const MAX_FRAME: nat := 0x10_0000
  const STDIN: byte := 0x01
  const RESIZE: byte := 0x04
  const U32: nat := 0x1_0000_0000

  function Be32(n: nat): (r: seq<byte>)
    requires n < U32
    ensures |r| == 4
  {
    [(n / 0x100_0000) as byte, (n / 0x1_0000 % 0x100) as byte, (n / 0x100 % 0x100) as byte, (n % 0x100) as byte]
  }

  function FromBe32(a: byte, b: byte, c: byte, d: byte): (n: nat)
    ensures n < U32
  {
    a as nat * 0x100_0000 + b as nat * 0x1_0000 + c as nat * 0x100 + d as nat
  }

  lemma Be32RoundTrip(n: nat)
    requires n < U32
    ensures var r := Be32(n); FromBe32(r[0], r[1], r[2], r[3]) == n
  {
    var m := n / 0x100;
    var l := m / 0x100;
    assert n == m * 0x100 + n % 0x100 && m == l * 0x100 + m % 0x100 && l == l / 0x100 * 0x100 + l % 0x100;
    assert n / 0x1_0000 == l && n / 0x100_0000 == l / 0x100;
  }

  lemma FromBe32RoundTrip(a: byte, b: byte, c: byte, d: byte)
    ensures Be32(FromBe32(a, b, c, d)) == [a, b, c, d]
  {
    var x, y, z, w := a as nat, b as nat, c as nat, d as nat;
    var n := FromBe32(a, b, c, d);
    assert n % 0x100 == w && n / 0x100 == x * 0x1_0000 + y * 0x100 + z;
    assert n / 0x1_0000 == x * 0x100 + y;
    assert n / 0x100_0000 == x;
  }

  // ---------------------------------------------------------------------
  // The printer
  // ---------------------------------------------------------------------

  /** The length field is 32 bits: it is cut off past four gigabytes. */
  function Encode(f: Frame): (r: seq<byte>)
    ensures |r| == 5 + |f.payload|
  {
    Be32((1 + |f.payload|) % U32) + [f.kind] + f.payload
  }

  function EncodeAll(fs: seq<Frame>): (r: seq<byte>)
  {
    if fs == [] then [] else Encode(fs[0]) + EncodeAll(fs[1..])
  }

  predicate Fits(f: Frame)
  {
    1 + |f.payload| <= MAX_FRAME
  }

  // ---------------------------------------------------------------------
  // The incremental parser
  // ---------------------------------------------------------------------

  /** The type, where the payload starts, and the length in all of a frame at the front. */
  function TryParse(buf: seq<byte>): (r: Option<(byte, nat, nat)>)
  {
    if |buf| < 5 then None else
      var len := FromBe32(buf[0], buf[1], buf[2], buf[3]);
      if len == 0 || len > MAX_FRAME || |buf| < 4 + len then None
      else Some((buf[4], 5, 4 + len))
  }

  /** Whatever is parsed is the encoding of what it is parsed to, and nothing but a complete
      encoding is parsed. */
  lemma ParsedExactlyWhenEncoded(buf: seq<byte>)
    ensures match TryParse(buf)
            case Some((kind, at, total)) =>
              && at == 5 <= total <= |buf|
              && Fits(Frame(kind, buf[at..total]))
              && buf[..total] == Encode(Frame(kind, buf[at..total]))
            case None => forall f, rest :: Fits(f) ==> buf != Encode(f) + rest
  {
    hide Be32, FromBe32, Encode;
    match TryParse(buf) {
      case Some((kind, at, total)) => ParsedIsEncoded(buf);
      case None =>
        forall f, rest | Fits(f) ensures buf != Encode(f) + rest {
          if buf == Encode(f) + rest { EncodedParses(f, rest); }
        }
    }
  }

  lemma ParsedIsEncoded(buf: seq<byte>)
    requires TryParse(buf).Some?
    ensures var (kind, at, total) := TryParse(buf).value;
            && at == 5 <= total <= |buf|
            && Fits(Frame(kind, buf[at..total]))
            && buf[..total] == Encode(Frame(kind, buf[at..total]))
  {
    hide Be32, FromBe32;
    var (kind, at, total) := TryParse(buf).value;
    FromBe32RoundTrip(buf[0], buf[1], buf[2], buf[3]);
    assert buf[..4] == [buf[0], buf[1], buf[2], buf[3]];
    assert buf[..total] == buf[..4] + [buf[4]] + buf[5..total];
  }

  lemma EncodedParses(f: Frame, rest: seq<byte>)
    requires Fits(f)
    ensures TryParse(Encode(f) + rest) == Some((f.kind, 5, |Encode(f)|))
    ensures (Encode(f) + rest)[5..|Encode(f)|] == f.payload
  {
    hide Be32, FromBe32;
    var n := 1 + |f.payload|;
    var head, e := Be32(n), Encode(f) + rest;
    Be32RoundTrip(n);
    assert n % U32 == n;
    assert e == head + ([f.kind] + f.payload + rest);
    assert e[0] == head[0] && e[1] == head[1] && e[2] == head[2] && e[3] == head[3] && e[4] == f.kind;
    assert e[5..|Encode(f)|] == f.payload;
  }

  /** Everything complete at the front of a buffer, and what is left of it. */
  function Drained(buf: seq<byte>): (r: (seq<Frame>, seq<byte>))
    decreases |buf|
  {
    match TryParse(buf)
    case None => ([], buf)
    case Some((kind, at, total)) =>
      if 5 <= total <= |buf| then
        var (fs, rest) := Drained(buf[total..]);
        ([Frame(kind, buf[at..total])] + fs, rest)
      else ([], buf)
  }

  /** Parsing what has arrived so far changes nothing about what is parsed in the end. */
  lemma {:induction false} DrainedInTwo(buf: seq<byte>, more: seq<byte>)
    ensures var (fs, rest) := Drained(buf);
            Drained(buf + more) == (fs + Drained(rest + more).0, Drained(rest + more).1)
    decreases |buf|
  {
    hide Drained, FromBe32;
    match TryParse(buf) {
      case None =>
        DrainNone(buf);
        assert [] + Drained(buf + more).0 == Drained(buf + more).0;
      case Some((kind, at, total)) =>
        DrainOne(buf, kind, at, total);
        DrainOne(buf + more, kind, at, total);
        DrainedInTwo(buf[total..], more);
        assert (buf + more)[total..] == buf[total..] + more;
        assert (buf + more)[at..total] == buf[at..total];
        var f := Frame(kind, buf[at..total]);
        var (fs, rest) := Drained(buf[total..]);
        assert [f] + (fs + Drained(rest + more).0) == [f] + fs + Drained(rest + more).0;
    }
  }

  /** What a terminal does with a frame: bytes for the program, or a new window size. */
  datatype Effect = Input(data: seq<byte>) | Winsize(rows: nat, cols: nat)

  function ParseResize(payload: seq<byte>): (r: Option<(nat, nat)>)
  {
    if |payload| < 4 then None
    else Some((payload[0] as nat * 0x100 + payload[1] as nat, payload[2] as nat * 0x100 + payload[3] as nat))
  }

  /** The payload the host sends for a window size. */
  function ResizePayload(rows: nat, cols: nat): (r: seq<byte>)
    requires rows < 0x1_0000 && cols < 0x1_0000
  {
    [(rows / 0x100) as byte, (rows % 0x100) as byte, (cols / 0x100) as byte, (cols % 0x100) as byte]
  }

  /** A window size is read back as it was sent, and nothing else reads as it. */
  lemma ResizeRoundTrip(payload: seq<byte>, rows: nat, cols: nat)
    requires rows < 0x1_0000 && cols < 0x1_0000
    ensures ParseResize(payload) == Some((rows, cols)) <==> |payload| >= 4 && payload[..4] == ResizePayload(rows, cols)
  {
    if |payload| >= 4 {
      var p := payload;
      Digits(p[0], p[1], rows);
      Digits(p[2], p[3], cols);
      if payload[..4] == ResizePayload(rows, cols) {
        assert p[0] == payload[..4][0] && p[1] == payload[..4][1] && p[2] == payload[..4][2] && p[3] == payload[..4][3];
      }
    }
  }

  lemma Digits(a: byte, b: byte, n: nat)
    requires n < 0x1_0000
    ensures a as nat * 0x100 + b as nat == n <==> a == (n / 0x100) as byte && b == (n % 0x100) as byte
  {
  }

  /** What a terminal does with each frame it can be sent. */
  lemma EffectsAre(data: seq<byte>, rows: nat, cols: nat, f: Frame)
    requires rows < 0x1_0000 && cols < 0x1_0000
    ensures EffectOf(Frame(STDIN, data)) == [Input(data)]
    ensures EffectOf(Frame(RESIZE, ResizePayload(rows, cols))) == [Winsize(rows, cols)]
    ensures EffectOf(f) != [] ==> f.kind == STDIN || (f.kind == RESIZE && |f.payload| >= 4)
  {
    var payload := ResizePayload(rows, cols);
    assert payload[..4] == payload;
    ResizeRoundTrip(payload, rows, cols);
  }

  function EffectOf(f: Frame): (r: seq<Effect>)
  {
    if f.kind == STDIN then [Input(f.payload)]
    else if f.kind == RESIZE then
      match ParseResize(f.payload)
      case Some((rows, cols)) => [Winsize(rows, cols)]
      case None => []
    else []
  }

  function EffectsOf(fs: seq<Frame>): (r: seq<Effect>)
  {
    if fs == [] then [] else EffectsOf(fs[..|fs| - 1]) + EffectOf(fs[|fs| - 1])
  }

  /** What a frame has for the program. */
  function InputOf(f: Frame): (data: seq<byte>)
  {
    if f.kind == STDIN then f.payload else []
  }

  function InputsOf(fs: seq<Frame>): (data: seq<byte>)
  {
    if fs == [] then [] else InputsOf(fs[..|fs| - 1]) + InputOf(fs[|fs| - 1])
  }

  /** How much of it one write gets in; the write is not tried again. */
  function TypedOf(f: Frame, room: nat): (data: seq<byte>)
  {
    var all := InputOf(f);
    if |all| <= room then all else all[..room]
  }

  /** What the program is given of the frames, when the terminal has room for `room(i)` bytes at
      the write for frame `i`. */
  function Typed(fs: seq<Frame>, room: nat -> nat): (data: seq<byte>)
  {
    if fs == [] then [] else Typed(fs[..|fs| - 1], room) + TypedOf(fs[|fs| - 1], room(|fs| - 1))
  }

  /** Nothing typed is lost exactly when the terminal had room at every write. */
  lemma {:induction false} TypedWhole(fs: seq<Frame>, room: nat -> nat)
    ensures |Typed(fs, room)| <= |InputsOf(fs)|
    ensures Typed(fs, room) == InputsOf(fs) <==> forall i: nat :: i < |fs| ==> |InputOf(fs[i])| <= room(i)
  {
    if fs != [] {
      var n := |fs| - 1;
      var less := fs[..n];
      TypedWhole(less, room);
      hide InputOf;
      if Typed(fs, room) == InputsOf(fs) {
        assert |Typed(less, room)| + |TypedOf(fs[n], room(n))| == |InputsOf(less)| + |InputOf(fs[n])|;
        assert Typed(less, room) == Typed(fs, room)[..|InputsOf(less)|];
        assert InputsOf(less) == InputsOf(fs)[..|InputsOf(less)|];
        forall i: nat | i < |fs| ensures |InputOf(fs[i])| <= room(i) {
          assert i < n ==> fs[i] == less[i];
        }
      }
      if forall i: nat :: i < |fs| ==> |InputOf(fs[i])| <= room(i) {
        forall i: nat | i < n ensures |InputOf(less[i])| <= room(i) {
          assert less[i] == fs[i];
        }
      }
    }
  }

  /** A payload that does not fit is cut off. */
  lemma ShortRoomLosesInput(payload: seq<byte>, room: nat -> nat)
    requires room(0) < |payload|
    ensures var fs := [Frame(STDIN, payload)];
            InputsOf(fs) == payload && Typed(fs, room) == payload[..room(0)] != payload
  {
    var f := Frame(STDIN, payload);
    assert [f][..0] == [];
    assert InputsOf([f]) == InputsOf([]) + InputOf(f);
    assert Typed([f], room) == Typed([], room) + TypedOf(f, room(0));
    assert |payload[..room(0)]| < |payload|;
  }

  /** The buffer of a terminal session, and what its program was given. */
  class Terminal {
    var buf: seq<byte>
    var effects: seq<Effect>
    var typed: seq<byte>

    constructor ()
      ensures buf == [] && effects == [] && typed == []
    {
      buf, effects, typed := [], [], [];
    }

    /** Appends what was read, then handles and drops every complete frame. */
    method Feed(chunk: seq<byte>, room: nat -> nat) returns (handled: seq<Frame>)
      modifies this
      ensures (handled, buf) == Drained(old(buf) + chunk)
      ensures effects == old(effects) + EffectsOf(handled)
      ensures typed == old(typed) + Typed(handled, room)
    {
      hide TryParse, Drained, EffectOf, EffectsOf, Typed, TypedOf;
      buf := buf + chunk;
      handled := [];
      ghost var whole := buf;
      ghost var before := effects;
      var parsed := TryParse(buf);
      assert handled + Drained(buf).0 == Drained(buf).0;
      assert before + EffectsOf([]) == before by { NoEffects(); }
      assert typed + Typed([], room) == typed by { NothingTyped(room); }
      while parsed.Some?
        invariant parsed == TryParse(buf)
        invariant Drained(whole) == (handled + Drained(buf).0, Drained(buf).1)
        invariant effects == before + EffectsOf(handled)
        invariant typed == old(typed) + Typed(handled, room)
        decreases |buf|
      {
        var (kind, at, total) := parsed.value;
        DrainOne(buf, kind, at, total);
        var f := Frame(kind, buf[at..total]);
        EffectsOfOneMore(handled, f);
        effects := effects + EffectOf(f);
        TypedOneMore(handled, f, room);
        typed := typed + TypedOf(f, room(|handled|));
        ghost var rest := Drained(buf[total..]).0;
        assert handled + [f] + rest == handled + ([f] + rest);
        handled := handled + [f];
        buf := buf[total..];
        parsed := TryParse(buf);
      }
      DrainNone(buf);
      assert handled + [] == handled;
    }
  }

  lemma NothingTyped(room: nat -> nat)
    ensures Typed([], room) == []
  {
  }

  lemma TypedOneMore(fs: seq<Frame>, f: Frame, room: nat -> nat)
    ensures Typed(fs + [f], room) == Typed(fs, room) + TypedOf(f, room(|fs|))
  {
    assert (fs + [f])[..|fs|] == fs;
  }

  lemma NoEffects()
    ensures EffectsOf([]) == []
  {
  }

  lemma EffectsOfOneMore(fs: seq<Frame>, f: Frame)
    ensures EffectsOf(fs + [f]) == EffectsOf(fs) + EffectOf(f)
  {
    assert (fs + [f])[..|fs|] == fs;
  }

  lemma DrainNone(buf: seq<byte>)
    requires TryParse(buf).None?
    ensures Drained(buf) == ([], buf)
  {
  }

  lemma DrainOne(buf: seq<byte>, kind: byte, at: nat, total: nat)
    requires TryParse(buf) == Some((kind, at, total))
    ensures at == 5 <= total <= |buf|
    ensures Drained(buf) == ([Frame(kind, buf[at..total])] + Drained(buf[total..]).0, Drained(buf[total..]).1)
  {
    hide FromBe32;
  }

  /** Feeding the chunks one after the other. */
  ghost function FedAll(buf: seq<byte>, chunks: seq<seq<byte>>): (r: (seq<Frame>, seq<byte>))
    decreases |chunks|
  {
    if chunks == [] then ([], buf) else
      var (fs, rest) := Drained(buf + chunks[0]);
      var (gs, left) := FedAll(rest, chunks[1..]);
      (fs + gs, left)
  }

  /** However a stream of bytes is cut up, well formed or not, the frames handled and the
      bytes left over are those of the stream as a whole. */
  lemma {:induction false} CuttingChangesNothing(buf: seq<byte>, chunks: seq<seq<byte>>)
    requires TryParse(buf).None?
    ensures FedAll(buf, chunks) == Drained(buf + Concat(chunks))
    decreases |chunks|
  {
    hide Drained, TryParse;
    if chunks == [] {
      assert buf + Concat(chunks) == buf;
      DrainNone(buf);
    } else {
      var first, tail := buf + chunks[0], Concat(chunks[1..]);
      var rest := Drained(first).1;
      DrainedIsDry(first);
      CuttingChangesNothing(rest, chunks[1..]);
      DrainedInTwo(first, tail);
      assert buf + (chunks[0] + tail) == first + tail;
    }
  }

  lemma {:induction false} DrainedIsDry(buf: seq<byte>)
    ensures TryParse(Drained(buf).1).None?
    decreases |buf|
  {
    ParsedExactlyWhenEncoded(buf);
    match TryParse(buf) {
      case None =>
      case Some((kind, at, total)) => DrainedIsDry(buf[total..]);
    }
  }

  lemma {:induction false} EncodedDrains(fs: seq<Frame>)
    requires forall i :: 0 <= i < |fs| ==> Fits(fs[i])
    ensures Drained(EncodeAll(fs)) == (fs, [])
  {
    if fs != [] {
      var rest := EncodeAll(fs[1..]);
      EncodedParses(fs[0], rest);
      assert (Encode(fs[0]) + rest)[|Encode(fs[0])|..] == rest;
      EncodedDrains(fs[1..]);
      assert [fs[0]] + fs[1..] == fs;
    }
  }

  /** For every list of frames within the limit and every chunking of their encodings, the
      loop yields exactly those frames, in order, and leaves its buffer empty. */
  lemma FramesSurviveAnyChunking(fs: seq<Frame>, chunks: seq<seq<byte>>)
    requires forall i :: 0 <= i < |fs| ==> Fits(fs[i])
    requires Concat(chunks) == EncodeAll(fs)
    ensures FedAll([], chunks) == (fs, [])
  {
    CuttingChangesNothing([], chunks);
    assert [] + Concat(chunks) == Concat(chunks);
    EncodedDrains(fs);
  }

  /** What is drained is what the bytes encode, and the rest is left as it was. */
  lemma {:induction false} DrainedIsEncoded(buf: seq<byte>)
    ensures var (fs, rest) := Drained(buf);
            (forall i :: 0 <= i < |fs| ==> Fits(fs[i])) && buf == EncodeAll(fs) + rest
    decreases |buf|
  {
    hide TryParse, Encode, Fits, Drained, EncodeAll;
    match TryParse(buf) {
      case None =>
        DrainNone(buf);
        NoneEncoded();
        assert [] + buf == buf;
      case Some((kind, at, total)) =>
        DrainOne(buf, kind, at, total);
        ParsedExactlyWhenEncoded(buf);
        DrainedIsEncoded(buf[total..]);
        var (more, rest) := Drained(buf[total..]);
        OneMoreEncoded(Frame(kind, buf[at..total]), more, rest);
        assert buf == buf[..total] + buf[total..];
    }
  }

  lemma NoneEncoded()
    ensures EncodeAll([]) == []
  {
  }

  lemma OneMoreEncoded(f: Frame, more: seq<Frame>, rest: seq<byte>)
    ensures EncodeAll([f] + more) + rest == Encode(f) + (EncodeAll(more) + rest)
  {
    hide Encode;
    assert ([f] + more)[1..] == more;
  }

  /** Frames written to a file descriptor in one call each, of which `ns[i]` bytes get through:
      a call that writes less is not repeated. */
  function WrittenToFd(fs: seq<Frame>, ns: seq<nat>): (r: seq<byte>)
    requires |ns| == |fs| && forall i :: 0 <= i < |fs| ==> ns[i] <= |Encode(fs[i])|
  {
    if fs == [] then [] else Encode(fs[0])[..ns[0]] + WrittenToFd(fs[1..], ns[1..])
  }

  lemma {:induction false} WrittenLength(fs: seq<Frame>, ns: seq<nat>)
    requires |ns| == |fs| && forall i :: 0 <= i < |fs| ==> ns[i] <= |Encode(fs[i])|
    ensures |WrittenToFd(fs, ns)| <= |EncodeAll(fs)|
    ensures WrittenToFd(fs, ns) == EncodeAll(fs) <==> forall i :: 0 <= i < |fs| ==> ns[i] == |Encode(fs[i])|
    ensures |WrittenToFd(fs, ns)| == |EncodeAll(fs)| ==> WrittenToFd(fs, ns) == EncodeAll(fs)
  {
    hide Encode;
    if fs != [] {
      var first := Encode(fs[0]);
      WrittenLength(fs[1..], ns[1..]);
      assert first[..|first|] == first;
      assert forall i :: 0 <= i < |fs[1..]| ==> fs[1..][i] == fs[i + 1] && ns[1..][i] == ns[i + 1];
      if ns[0] == |first| && forall i :: 0 <= i < |fs[1..]| ==> ns[1..][i] == |Encode(fs[1..][i])| {
        forall i | 0 <= i < |fs| ensures ns[i] == |Encode(fs[i])| {
          if i > 0 { assert ns[1..][i - 1] == |Encode(fs[1..][i - 1])|; }
        }
      }
    }
  }

  /** The other side sees exactly the frames written exactly when no call wrote less. */
  lemma FramesArriveExactlyWhenWritesAreWhole(fs: seq<Frame>, ns: seq<nat>)
    requires |ns| == |fs| && forall i :: 0 <= i < |fs| ==> ns[i] <= |Encode(fs[i])|
    requires forall i :: 0 <= i < |fs| ==> Fits(fs[i])
    ensures Drained(WrittenToFd(fs, ns)) == (fs, []) <==> forall i :: 0 <= i < |fs| ==> ns[i] == |Encode(fs[i])|
  {
    hide Drained, Encode, Fits, WrittenToFd;
    WrittenLength(fs, ns);
    EncodedDrains(fs);
    DrainedIsEncoded(WrittenToFd(fs, ns));
    assert EncodeAll(fs) + [] == EncodeAll(fs);
  }

  /** A frame whose last byte is not written does not arrive. */
  lemma ShortWriteLosesTheFrame(f: Frame)
    requires Fits(f)
    ensures |Encode(f)| >= 5
    ensures Drained(WrittenToFd([f], [|Encode(f)| - 1])) == ([], Encode(f)[..|Encode(f)| - 1])
  {
    EncodedParses(f, []);
    assert Encode(f) + [] == Encode(f);
    hide Encode, FromBe32, Drained;
    var ns := [|Encode(f)| - 1];
    var sent := Encode(f)[..ns[0]];
    assert WrittenToFd([f], ns) == sent + [] == sent by { assert [f][1..] == []; }
    assert forall i :: 0 <= i < 4 ==> sent[i] == Encode(f)[i];
    DrainNone(sent);
  }

  // ---------------------------------------------------------------------
  // The blocking reader
  // ---------------------------------------------------------------------

  /** What reading a frame comes to: one, the end of the stream, or an error. */
  datatype Read = Got(frame: Frame) | End | OutOfRange(len: nat) | CutShort

  class Source {
    var rest: seq<byte>

    constructor (rest: seq<byte>)
      ensures this.rest == rest
    {
      this.rest := rest;
    }

    /** All of `n` bytes, or none and the stream is used up. */
    method ReadExact(n: nat) returns (got: Option<seq<byte>>)
      modifies this
      ensures |old(rest)| >= n ==> got == Some(old(rest)[..n]) && rest == old(rest)[n..]
      ensures |old(rest)| < n ==> got == None && rest == []
    {
      if |rest| >= n {
        got := Some(rest[..n]);
        rest := rest[n..];
      } else {
        got := None;
        rest := [];
      }
    }

    /** A stream that ends inside the length field counts as a clean end. */
    method ReadFrame() returns (r: Read)
      modifies this
      ensures (r, rest) == ReadFrom(old(rest))
    {
      var len := ReadExact(4);
      if len.None? {
        return End;
      }
      var n := FromBe32(len.value[0], len.value[1], len.value[2], len.value[3]);
      if n == 0 || n > MAX_FRAME {
        return OutOfRange(n);
      }
      var kind := ReadExact(1);
      if kind.None? {
        return CutShort;
      }
      if n - 1 > 0 {
        ghost var all := old(rest);
        var payload := ReadExact(n - 1);
        if payload.None? {
          return CutShort;
        }
        assert all[4..][1..][..n - 1] == all[5..4 + n];
        assert all[4..][1..][n - 1..] == all[4 + n..];
        return Got(Frame(kind.value[0], payload.value));
      }
      assert old(rest)[5..5] == [];
      return Got(Frame(kind.value[0], []));
    }
  }

  function ReadFrom(s: seq<byte>): (r: (Read, seq<byte>))
  {
    if |s| < 4 then (End, []) else
      var n := FromBe32(s[0], s[1], s[2], s[3]);
      if n == 0 || n > MAX_FRAME then (OutOfRange(n), s[4..])
      else if |s| < 4 + n then (CutShort, [])
      else (Got(Frame(s[4], s[5..4 + n])), s[4 + n..])
  }

  /** Reading frames until one does not come. */
  ghost function ReadAll(s: seq<byte>): (r: (seq<Frame>, Read))
    decreases |s|
  {
    match ReadFrom(s)
    case (Got(f), rest) =>
      if |rest| < |s| then
        var (fs, last) := ReadAll(rest);
        ([f] + fs, last)
      else ([], End)
    case (last, _) => ([], last)
  }

  /** A length field that no frame has. */
  predicate BadLength(s: seq<byte>)
  {
    |s| >= 4 && (var n := FromBe32(s[0], s[1], s[2], s[3]); n == 0 || n > MAX_FRAME)
  }

  /** On every stream the two parsers see the same frames. What the loop is left with says how
      the reader ends: cleanly with less than a length field, by a length out of range, or cut
      short. */
  lemma {:induction false} ParsersAgree(s: seq<byte>)
    ensures ReadAll(s).0 == Drained(s).0
    ensures ReadAll(s).1 == End <==> |Drained(s).1| < 4
    ensures ReadAll(s).1.OutOfRange? <==> BadLength(Drained(s).1)
    ensures !ReadAll(s).1.Got?
    decreases |s|
  {
    ParsedExactlyWhenEncoded(s);
    match TryParse(s) {
      case None =>
      case Some((kind, at, total)) => ParsersAgree(s[total..]);
    }
  }

  /** Where the reader fails for a length out of range, the loop is stuck: whatever chunks come
      after, it yields no frame and keeps every byte. */
  lemma BadLengthStalls(s: seq<byte>, chunks: seq<seq<byte>>)
    requires ReadAll(s).1.OutOfRange?
    ensures FedAll(Drained(s).1, chunks) == ([], Drained(s).1 + Concat(chunks))
  {
    ParsersAgree(s);
    var rest := Drained(s).1;
    hide Drained, ReadAll, FromBe32;
    assert TryParse(rest).None? && TryParse(rest + Concat(chunks)).None?;
    CuttingChangesNothing(rest, chunks);
    DrainNone(rest + Concat(chunks));
  }

  /** Repeated reads of the encodings give the frames back, then a clean end. */
  lemma FramesSurviveReading(fs: seq<Frame>)
    requires forall i :: 0 <= i < |fs| ==> Fits(fs[i])
    ensures ReadAll(EncodeAll(fs)) == (fs, End)
  {
    EncodedDrains(fs);
    ParsersAgree(EncodeAll(fs));
  }
}
