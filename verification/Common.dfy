/** Types every component shares. */
module Common {

  datatype Option<+T> = None | Some(value: T)

  newtype byte = b: int | 0 <= b < 256

  function Min(a: nat, b: nat): nat { if a < b then a else b }

  type Bytes = seq<byte>

  function Concat(pieces: seq<Bytes>): (r: Bytes)
  {
    if pieces == [] then [] else pieces[0] + Concat(pieces[1..])
  }

  lemma {:induction false} ConcatOneMore(pieces: seq<Bytes>, data: Bytes)
    ensures Concat(pieces + [data]) == Concat(pieces) + data
  {
    if pieces == [] {
      assert Concat([data]) == data + Concat([data][1..]);
    } else {
      ConcatOneMore(pieces[1..], data);
      assert (pieces + [data])[1..] == pieces[1..] + [data];
    }
  }

  /** Data cut into pieces of `size`, the last of which may be shorter. */
  function Chunks(data: Bytes, size: nat): (r: seq<Bytes>)
    requires size > 0
    decreases |data|
  {
    if data == [] then []
    else if |data| <= size then [data]
    else [data[..size]] + Chunks(data[size..], size)
  }

  /** The pieces make up the data; none is empty or too long. */
  lemma {:induction false} ChunksMakeUpTheData(data: Bytes, size: nat)
    requires size > 0
    ensures Concat(Chunks(data, size)) == data
    ensures forall i :: 0 <= i < |Chunks(data, size)| ==> 0 < |Chunks(data, size)[i]| <= size
    decreases |data|
  {
    if data != [] && |data| <= size {
      assert Concat([data]) == data + Concat([data][1..]);
    } else if data != [] {
      ChunksMakeUpTheData(data[size..], size);
      assert Chunks(data, size)[1..] == Chunks(data[size..], size);
    }
  }
}
