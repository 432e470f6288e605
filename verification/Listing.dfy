/** Directory listings sent to the host. A streamed listing goes out in frames that each stay
    under the frame limit; one that is not streamed goes out whole or not at all. An entry
    stands for its JSON text. */
module Listing {

  import Frame

  import opened Common

  type Entry = string

  /** The size at which a streamed listing sends what it holds. */
  const LISTING_BYTES: nat := 768 * 1024
  /** What a listing in one frame can take, its wrapper aside. */
  const WHOLE_LISTING_BYTES: nat := Frame.MAX_FRAME - 64

  /** One answer: some entries, and whether more follow. */
  datatype Response = Response(entries: seq<Entry>, more: bool)

  // ---------------------------------------------------------------------
  // The text of an answer
  // ---------------------------------------------------------------------

  function Commas(entries: seq<Entry>): (r: string)
  {
    if entries == [] then ""
    else if |entries| == 1 then entries[0]
    else Commas(entries[..|entries| - 1]) + "," + entries[|entries| - 1]
  }

  function Json(r: Response): (text: string)
  {
    "{\"entries\":[" + Commas(r.entries) + "]" + (if r.more then ",\"more\":true" else "") + "}"
  }

  /** The frame takes its type byte too. */
  predicate Fits(r: Response)
  {
    1 + |Json(r)| <= Frame.MAX_FRAME
  }

  /** What an entry is counted as: its text and a comma. */
  function Size(e: Entry): nat
  {
    |e| + 1
  }

  function Sizes(entries: seq<Entry>): nat
  {
    if entries == [] then 0 else Sizes(entries[..|entries| - 1]) + Size(entries[|entries| - 1])
  }

  lemma {:induction false} SizeOfText(entries: seq<Entry>)
    ensures |Commas(entries)| == if entries == [] then 0 else Sizes(entries) - 1
  {
    if |entries| == 1 {
      assert Sizes(entries[..0]) == 0;
    } else if entries != [] {
      SizeOfText(entries[..|entries| - 1]);
    }
  }

  /** The wrapper adds at most 26 bytes to the sizes of the entries. */
  lemma SizeOfFrame(r: Response)
    ensures |Json(r)| == (if r.more then 26 else 14) + (if r.entries == [] then 0 else Sizes(r.entries) - 1)
  {
    SizeOfText(r.entries);
    assert |"{\"entries\":["| == 12 && |",\"more\":true"| == 12;
  }

  // ---------------------------------------------------------------------
  // How entries are packed
  // ---------------------------------------------------------------------

  /** What was sent with more to follow, and what is held. */
  datatype Packing = Packing(full: seq<seq<Entry>>, held: seq<Entry>)

  /** Whether an entry has to wait for the next frame. */
  predicate Overflows(held: seq<Entry>, e: Entry, limit: nat)
  {
    Sizes(held) + Size(e) > limit && held != []
  }

  function Packed(p: Packing, e: Entry, limit: nat): (q: Packing)
  {
    if Overflows(p.held, e, limit) then Packing(p.full + [p.held], [e]) else p.(held := p.held + [e])
  }

  function Pack(entries: seq<Entry>, limit: nat): (p: Packing)
  {
    if entries == [] then Packing([], [])
    else Packed(Pack(entries[..|entries| - 1], limit), entries[|entries| - 1], limit)
  }

  function Sent(full: seq<seq<Entry>>): (r: seq<Response>)
  {
    seq(|full|, i requires 0 <= i < |full| => Response(full[i], true))
  }

  function Responses(p: Packing): (r: seq<Response>)
  {
    Sent(p.full) + [Response(p.held, false)]
  }

  function Entries(rs: seq<Response>): (r: seq<Entry>)
  {
    if rs == [] then [] else Entries(rs[..|rs| - 1]) + rs[|rs| - 1].entries
  }

  // ---------------------------------------------------------------------
  // The listing
  // ---------------------------------------------------------------------

  class Listing {
    var entries: seq<Entry>
    var bytes: nat
    const frameBytes: nat
    const stream: bool
    /** What the host was sent. */
    var sent: seq<Response>

    ghost predicate Holds(p: Packing)
      reads this
    {
      && entries == p.held && bytes == Sizes(entries)
      && sent == Sent(p.full)
      && (!stream ==> p.full == [])
    }

    constructor (frameBytes: nat, stream: bool)
      ensures Holds(Packing([], [])) && this.frameBytes == frameBytes && this.stream == stream
    {
      entries, bytes, sent := [], 0, [];
      this.frameBytes, this.stream := frameBytes, stream;
    }

    /** False when an unstreamed listing grows too big. */
    method Push(e: Entry, ghost p: Packing) returns (ok: bool)
      requires Holds(p)
      modifies this
      ensures ok <==> stream || !Overflows(p.held, e, frameBytes)
      ensures if ok then Holds(Packed(p, e, frameBytes)) else Holds(p)
    {
      var size := Size(e);
      if bytes + size > frameBytes && entries != [] {
        if !stream {
          return false;
        }
        sent := sent + [Response(entries, true)];
        entries, bytes := [], 0;
      }
      bytes := bytes + size;
      entries := entries + [e];
      return true;
    }

    method Finish(ghost p: Packing)
      requires Holds(p)
      modifies this
      ensures sent == Responses(p)
    {
      sent := sent + [Response(entries, false)];
    }
  }

  /** Lists entries as they are found; None, with nothing sent, is the answer for too many. */
  method List(entries: seq<Entry>, stream: bool) returns (sent: Option<seq<Response>>)
    ensures stream ==> sent == Some(Responses(Pack(entries, LISTING_BYTES)))
    ensures !stream ==> sent == (if |entries| > 1 && Sizes(entries) > WHOLE_LISTING_BYTES
                                 then None else Some([Response(entries, false)]))
  {
    hide Pack, Packed, Sizes, Overflows, Responses, Sent;
    var listing := new Listing(if stream then LISTING_BYTES else WHOLE_LISTING_BYTES, stream);
    ghost var limit, p := listing.frameBytes, Packing([], []);
    NothingPacked(limit);
    for i := 0 to |entries|
      invariant fresh(listing) && p == Pack(entries[..i], limit) && listing.Holds(p)
    {
      var ok := listing.Push(entries[i], p);
      if !ok {
        TooMany(entries, i, limit);
        return None;
      }
      PackOneMore(entries, i, limit);
      p := Packed(p, entries[i], limit);
    }
    assert entries[..|entries|] == entries;
    listing.Finish(p);
    if p.full == [] {
      OnePacking(entries, limit);
    }
    return Some(listing.sent);
  }

  lemma NothingPacked(limit: nat)
    ensures Pack([], limit) == Packing([], [])
  {
  }

  lemma PackOneMore(entries: seq<Entry>, i: nat, limit: nat)
    requires i < |entries|
    ensures Pack(entries[..i + 1], limit) == Packed(Pack(entries[..i], limit), entries[i], limit)
  {
    assert entries[..i + 1][..i] == entries[..i];
  }

  /** A packing in one piece is all the entries, and they are not too many. */
  lemma OnePacking(entries: seq<Entry>, limit: nat)
    requires Pack(entries, limit).full == []
    ensures Pack(entries, limit).held == entries && Small(entries, limit)
    ensures Responses(Pack(entries, limit)) == [Response(entries, false)]
  {
    StreamHoldsTheEntries(entries, limit);
    SharedFramesAreSmall(entries, limit);
    var p := Pack(entries, limit);
    assert Responses(p) == [Response(p.held, false)];
    assert Entries([]) == [] && Responses(p)[..0] == [];
  }

  lemma TooMany(entries: seq<Entry>, i: nat, limit: nat)
    requires i < |entries| && Pack(entries[..i], limit).full == []
    requires Overflows(Pack(entries[..i], limit).held, entries[i], limit)
    ensures |entries| > 1 && Sizes(entries) > limit
  {
    OnePacking(entries[..i], limit);
    assert entries[..i + 1][..i] == entries[..i];
    PrefixIsSmaller(entries, i + 1);
  }

  lemma {:induction false} PrefixIsSmaller(entries: seq<Entry>, n: nat)
    requires n <= |entries|
    ensures Sizes(entries[..n]) <= Sizes(entries)
  {
    if n == |entries| {
      assert entries[..n] == entries;
    } else {
      var less := entries[..|entries| - 1];
      PrefixIsSmaller(less, n);
      assert less[..n] == entries[..n];
    }
  }

  // ---------------------------------------------------------------------
  // What the host gets
  // ---------------------------------------------------------------------

  lemma EntriesOfOneMore(rs: seq<Response>, r: Response)
    ensures Entries(rs + [r]) == Entries(rs) + r.entries
  {
    assert (rs + [r])[..|rs|] == rs;
  }

  /** The frames of a streamed listing hold the entries in order, none lost or repeated. */
  lemma StreamHoldsTheEntries(entries: seq<Entry>, limit: nat)
    ensures Entries(Responses(Pack(entries, limit))) == entries
  {
    hide Pack, Sent, Entries;
    var p := Pack(entries, limit);
    EntriesOfOneMore(Sent(p.full), Response(p.held, false));
    PackHoldsTheEntries(entries, limit);
  }

  lemma {:induction false} PackHoldsTheEntries(entries: seq<Entry>, limit: nat)
    ensures var p := Pack(entries, limit); Entries(Sent(p.full)) + p.held == entries
  {
    hide Packed, Sent;
    if entries == [] {
      NoneSent();
    } else {
      var n := |entries| - 1;
      PackHoldsTheEntries(entries[..n], limit);
      hide Entries;
      KeptByOneMore(Pack(entries[..n], limit), entries[n], limit);
      assert entries == entries[..n] + [entries[n]];
    }
  }

  lemma NoneSent()
    ensures Sent([]) == []
  {
  }

  lemma KeptByOneMore(q: Packing, e: Entry, limit: nat)
    ensures var p := Packed(q, e, limit);
            Entries(Sent(p.full)) + p.held == Entries(Sent(q.full)) + q.held + [e]
  {
    if Overflows(q.held, e, limit) {
      assert Sent(q.full + [q.held]) == Sent(q.full) + [Response(q.held, true)];
      EntriesOfOneMore(Sent(q.full), Response(q.held, true));
    }
  }

  /** More follows every frame but the last. */
  lemma MoreOnAllButTheLast(entries: seq<Entry>, limit: nat, i: nat)
    requires i < |Responses(Pack(entries, limit))|
    ensures Responses(Pack(entries, limit))[i].more <==> i + 1 < |Responses(Pack(entries, limit))|
  {
  }

  /** A frame that holds several entries holds no more than the limit, and none is empty but
      the only one of an empty listing. */
  lemma {:induction false} SharedFramesAreSmall(entries: seq<Entry>, limit: nat)
    ensures var p := Pack(entries, limit);
            && (forall i :: 0 <= i < |p.full| ==> p.full[i] != [] && Small(p.full[i], limit))
            && Small(p.held, limit) && (p.held == [] <==> entries == [])
  {
    if entries != [] {
      SharedFramesAreSmall(entries[..|entries| - 1], limit);
      var q := Pack(entries[..|entries| - 1], limit);
      var e := entries[|entries| - 1];
      assert (q.held + [e])[..|q.held|] == q.held;
    }
  }

  predicate Small(held: seq<Entry>, limit: nat)
  {
    |held| > 1 ==> Sizes(held) <= limit
  }

  /** An entry over the limit travels alone. */
  lemma {:induction false} BigEntriesTravelAlone(entries: seq<Entry>, limit: nat, i: nat)
    requires i < |entries| && Size(entries[i]) > limit
    ensures var p := Pack(entries, limit);
            if i + 1 == |entries| then p.held == [entries[i]] else [entries[i]] in p.full
  {
    var less := entries[..|entries| - 1];
    SharedFramesAreSmall(less, limit);
    if i + 1 < |entries| {
      BigEntriesTravelAlone(less, limit, i);
      if i + 1 == |less| {
        assert Sizes([entries[i]]) == Sizes([entries[i]][..0]) + Size(entries[i]);
      }
    }
  }

  lemma EntryFitsAlone(e: Entry, more: bool)
    ensures Fits(Response([e], more)) <==> |e| + (if more then 27 else 15) <= Frame.MAX_FRAME
  {
    SizeOfFrame(Response([e], more));
    assert Sizes([e]) == Sizes([e][..0]) + Size(e);
  }

  /** A frame other than one entry alone is well under the frame limit. */
  lemma SharedFrameFits(held: seq<Entry>, more: bool)
    requires Small(held, LISTING_BYTES) && |held| != 1
    ensures Fits(Response(held, more))
  {
    SizeOfFrame(Response(held, more));
  }

  predicate AllFit(rs: seq<Response>)
  {
    forall i :: 0 <= i < |rs| ==> Fits(rs[i])
  }

  /** Each entry, in the frame it would have to itself. */
  function Alone(entries: seq<Entry>): (r: seq<Response>)
  {
    seq(|entries|, i requires 0 <= i < |entries| => Response([entries[i]], i + 1 < |entries|))
  }

  /** Where an entry that has a frame to itself came from. */
  lemma {:induction false} SingleComesFrom(entries: seq<Entry>, limit: nat, j: nat) returns (i: nat)
    requires var p := Pack(entries, limit); if j < |p.full| then |p.full[j]| == 1 else |p.held| == 1
    ensures i < |entries|
    ensures var p := Pack(entries, limit);
            if j < |p.full| then i + 1 < |entries| && p.full[j] == [entries[i]]
            else i + 1 == |entries| && p.held == [entries[i]]
  {
    var less, e := entries[..|entries| - 1], entries[|entries| - 1];
    var p, q := Pack(entries, limit), Pack(less, limit);
    if j < |q.full| {
      i := SingleComesFrom(less, limit, j);
    } else if j < |p.full| {
      i := SingleComesFrom(less, limit, j);
    } else {
      i := |less|;
    }
  }

  /** Every frame of a streamed listing fits exactly when each entry fits in one by itself. */
  lemma FramesFitExactlyWhenEntriesDo(entries: seq<Entry>)
    ensures AllFit(Responses(Pack(entries, LISTING_BYTES))) <==> AllFit(Alone(entries))
  {
    hide Fits, Pack, Sizes, Small;
    var p := Pack(entries, LISTING_BYTES);
    var rs := Responses(p);
    SharedFramesAreSmall(entries, LISTING_BYTES);
    if AllFit(Alone(entries)) {
      forall j | 0 <= j < |rs| ensures Fits(rs[j]) {
        if |rs[j].entries| == 1 {
          var i := SingleComesFrom(entries, LISTING_BYTES, j);
          assert rs[j] == Alone(entries)[i];
        } else {
          SharedFrameFits(rs[j].entries, rs[j].more);
        }
      }
    }
    if AllFit(rs) {
      forall i | 0 <= i < |entries| ensures Fits(Alone(entries)[i]) {
        EntryFitsAlone(entries[i], i + 1 < |entries|);
        if Size(entries[i]) > LISTING_BYTES {
          BigEntriesTravelAlone(entries, LISTING_BYTES, i);
          if i + 1 < |entries| {
            var j :| 0 <= j < |p.full| && p.full[j] == [entries[i]];
            assert rs[j] == Alone(entries)[i];
          } else {
            assert rs[|p.full|] == Alone(entries)[i];
          }
        }
      }
    }
  }

  /** A listing in one frame fits when it is not a single entry that does not. */
  lemma WholeListingFits(entries: seq<Entry>)
    requires |entries| > 1 ==> Sizes(entries) <= WHOLE_LISTING_BYTES
    ensures Fits(Response(entries, false)) <==> (|entries| == 1 ==> |entries[0]| + 15 <= Frame.MAX_FRAME)
  {
    SizeOfFrame(Response(entries, false));
    if |entries| == 1 {
      assert entries == [entries[0]];
      EntryFitsAlone(entries[0], false);
    }
  }

  /** Entries are put off only when they would not fit: each full frame and the entry after it
      pass the limit together. */
  lemma {:induction false} FramesAreFilled(entries: seq<Entry>, limit: nat, j: nat)
    requires j < |Pack(entries, limit).full|
    ensures var rs := Responses(Pack(entries, limit));
            rs[j + 1].entries != [] && Overflows(rs[j].entries, rs[j + 1].entries[0], limit)
  {
    hide Sizes;
    var less, e := entries[..|entries| - 1], entries[|entries| - 1];
    var p, q := Pack(entries, limit), Pack(less, limit);
    SharedFramesAreSmall(less, limit);
    if j < |q.full| {
      FramesAreFilled(less, limit, j);
    }
  }
}
