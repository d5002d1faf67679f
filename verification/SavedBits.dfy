/** Saving the done bitmaps of all pieces and loading them into a fresh split. */
module SavedBits {
  import opened Bits
  import opened Blocks
  import opened Pieces

  /** The bytes of an entry as decoded from the control file, or text that does not decode. */
  datatype Payload = Bytes(bytes: seq<byte>) | Undecodable

  datatype Entry = Entry(index: int, payload: Payload)

  /** The part of a piece that saving and loading looks at. */
  datatype PieceBits = PieceBits(bytes: seq<byte>, n: nat, status: PieceStatus)
  {
    predicate WF() {
      n > 0 && |bytes| == ByteCount(n)
    }

    function Done(): set<nat>
      requires WF()
    {
      Members(bytes, n)
    }

    /** SetBitfield and the completion check after it. */
    function Load(saved: seq<byte>): PieceBits
      requires WF()
    {
      var loaded := if |saved| == |bytes| then this.(bytes := saved) else this;
      if loaded.Done() == AllBlocks(n) then loaded.(status := Complete) else loaded
    }
  }

  predicate AllZero(bytes: seq<byte>) {
    forall k :: 0 <= k < |bytes| ==> bytes[k] == 0
  }

  predicate AllWF(pieces: seq<PieceBits>) {
    forall k :: 0 <= k < |pieces| ==> pieces[k].WF()
  }

  /** One entry for each piece among the first i that has a non-zero byte. */
  function Serialized(pieces: seq<PieceBits>, i: nat): seq<Entry>
    requires i <= |pieces|
  {
    if i == 0 then []
    else Serialized(pieces, i - 1)
         + if AllZero(pieces[i - 1].bytes) then [] else [Entry(i - 1, Bytes(pieces[i - 1].bytes))]
  }

  function LoadEntry(pieces: seq<PieceBits>, e: Entry): (r: seq<PieceBits>)
    requires AllWF(pieces)
    ensures AllWF(r) && |r| == |pieces|
  {
    if !(0 <= e.index < |pieces|) || e.payload.Undecodable? then pieces
    else pieces[e.index := pieces[e.index].Load(e.payload.bytes)]
  }

  /** The effect of loading the first i entries in order. */
  function Loaded(pieces: seq<PieceBits>, entries: seq<Entry>, i: nat): (r: seq<PieceBits>)
    requires AllWF(pieces) && i <= |entries|
    ensures AllWF(r) && |r| == |pieces|
  {
    if i == 0 then pieces else LoadEntry(Loaded(pieces, entries, i - 1), entries[i - 1])
  }

  lemma LoadedPrefix(pieces: seq<PieceBits>, entries: seq<Entry>, more: seq<Entry>, i: nat)
    requires AllWF(pieces) && i <= |entries|
    ensures Loaded(pieces, entries + more, i) == Loaded(pieces, entries, i)
  {
  }

  lemma LoadedStep(pieces: seq<PieceBits>, entries: seq<Entry>, e: Entry)
    requires AllWF(pieces)
    ensures Loaded(pieces, entries + [e], |entries| + 1) == LoadEntry(Loaded(pieces, entries, |entries|), e)
  {
    LoadedPrefix(pieces, entries, [e], |entries|);
  }

  ghost predicate SameShape(a: seq<PieceBits>, b: seq<PieceBits>) {
    AllWF(a) && AllWF(b) && |a| == |b| && forall k :: 0 <= k < |a| ==> a[k].n == b[k].n
  }

  /** What a piece saved as `saved` looks like once restored: its bits, and Complete exactly when they are all set. */
  function Restored(saved: PieceBits): PieceBits
    requires saved.WF()
  {
    saved.(status := if saved.Done() == AllBlocks(saved.n) then Complete else Idle)
  }

  /** A blank piece either is the restored form of an all-zero save, or becomes it by loading the bytes. */
  lemma BlankPiece(p: PieceBits, blank: PieceBits)
    requires p.WF() && blank.WF() && p.n == blank.n && blank.status == Idle && AllZero(blank.bytes)
    ensures if AllZero(p.bytes) then blank == Restored(p) else blank.Load(p.bytes) == Restored(p)
  {
    if AllZero(p.bytes) {
      ZeroBytesHaveNoMembers(p.bytes, p.n);
      assert 0 in AllBlocks(p.n);
      assert p.bytes == blank.bytes;
    }
  }

  /** After the first i entries, the first i pieces have reached their goal and the others are untouched. */
  lemma {:induction false} RestoredPrefix(saved: seq<PieceBits>, blank: seq<PieceBits>, goal: seq<PieceBits>, i: nat)
    requires SameShape(saved, blank) && |goal| == |saved| && i <= |saved|
    requires forall k :: 0 <= k < |saved| ==> Reaches(blank[k], saved[k].bytes, goal[k])
    ensures Loaded(blank, Serialized(saved, i), |Serialized(saved, i)|) == goal[..i] + blank[i..]
    decreases i
  {
    if i > 0 {
      RestoredPrefix(saved, blank, goal, i - 1);
      RestoredStep(saved, blank, goal, i - 1);
    } else {
      NothingRestored(saved, blank, goal);
    }
  }

  lemma NothingRestored(saved: seq<PieceBits>, blank: seq<PieceBits>, goal: seq<PieceBits>)
    requires AllWF(blank)
    ensures Loaded(blank, Serialized(saved, 0), |Serialized(saved, 0)|) == goal[..0] + blank[0..]
  {
  }

  lemma RestoredStep(saved: seq<PieceBits>, blank: seq<PieceBits>, goal: seq<PieceBits>, k: nat)
    requires SameShape(saved, blank) && |goal| == |saved| && k < |saved| && Reaches(blank[k], saved[k].bytes, goal[k])
    requires Loaded(blank, Serialized(saved, k), |Serialized(saved, k)|) == goal[..k] + blank[k..]
    ensures Loaded(blank, Serialized(saved, k + 1), |Serialized(saved, k + 1)|) == goal[..k + 1] + blank[k + 1..]
  {
    OneMoreGoal(goal, blank, k);
    var before := Serialized(saved, k);
    if AllZero(saved[k].bytes) {
      assert Serialized(saved, k + 1) == before;
    } else {
      var e := Entry(k, Bytes(saved[k].bytes));
      assert Serialized(saved, k + 1) == before + [e];
      LoadedStep(blank, before, e);
    }
  }

  lemma OneMoreGoal(goal: seq<PieceBits>, blank: seq<PieceBits>, k: nat)
    requires k < |goal| == |blank|
    ensures goal[..k + 1] + blank[k + 1..] == (goal[..k] + blank[k..])[k := goal[k]]
  {
  }

  /** Writing (or, for zero bytes, leaving out) the saved bytes turns the blank piece into the goal. */
  predicate Reaches(blank: PieceBits, bytes: seq<byte>, goal: PieceBits)
    requires blank.WF()
  {
    goal == if AllZero(bytes) then blank else blank.Load(bytes)
  }

  function AllRestored(saved: seq<PieceBits>): seq<PieceBits>
    requires AllWF(saved)
  {
    seq(|saved|, k requires 0 <= k < |saved| => Restored(saved[k]))
  }

  /** Loading what was serialized into a fresh split of the same shape brings back every bit of every piece,
      including the pieces that were left out for being all zero, and completes exactly the full pieces. */
  lemma RestoreAfterSerialize(saved: seq<PieceBits>, blank: seq<PieceBits>)
    requires SameShape(saved, blank)
    requires forall k :: 0 <= k < |blank| ==> blank[k].status == Idle && AllZero(blank[k].bytes)
    ensures var entries := Serialized(saved, |saved|);
            Loaded(blank, entries, |entries|) == AllRestored(saved)
  {
    forall k | 0 <= k < |saved|
      ensures Reaches(blank[k], saved[k].bytes, AllRestored(saved)[k])
    {
      BlankPiece(saved[k], blank[k]);
    }
    RestoredPrefix(saved, blank, AllRestored(saved), |saved|);
  }

  // ----- what is written, and what any entries do -----

  /** The control file holds one entry for each piece with a bit set, in the order of the pieces, with all its bytes. */
  lemma {:induction false} SerializedExactly(pieces: seq<PieceBits>, i: nat)
    requires i <= |pieces|
    ensures var entries := Serialized(pieces, i);
            && (forall a, b :: 0 <= a < b < |entries| ==> entries[a].index < entries[b].index)
            && (forall e :: e in entries ==>
                  0 <= e.index < i && !AllZero(pieces[e.index].bytes) && e.payload == Bytes(pieces[e.index].bytes))
            && forall k :: 0 <= k < i && !AllZero(pieces[k].bytes) ==> Entry(k, Bytes(pieces[k].bytes)) in entries
    decreases i
  {
    if i > 0 {
      SerializedExactly(pieces, i - 1);
      var before := Serialized(pieces, i - 1);
      forall a | 0 <= a < |before|
        ensures before[a].index < i - 1
      {
        assert before[a] in before;
      }
    }
  }

  /** The entry brings bytes for piece k that fit. */
  predicate Fits(e: Entry, pieces: seq<PieceBits>, k: nat)
    requires k < |pieces|
  {
    e.index == k && e.payload.Bytes? && |e.payload.bytes| == |pieces[k].bytes|
  }

  lemma EntryLoads(pieces: seq<PieceBits>, e: Entry, k: nat)
    requires AllWF(pieces) && k < |pieces|
    ensures var p := LoadEntry(pieces, e)[k];
            && p.bytes == (if Fits(e, pieces, k) then e.payload.bytes else pieces[k].bytes)
            && p.n == pieces[k].n && (p.status == pieces[k].status || (p.status == Complete && p.Done() == AllBlocks(p.n)))
            && (Fits(e, pieces, k) && p.Done() == AllBlocks(p.n) ==> p.status == Complete)
  {
  }

  /** Whatever the entries are: each piece gets the bytes of the last entry for it that decodes to the right number of
      bytes, and keeps its own when there is none; a piece that was given all its bits is complete. */
  lemma {:induction false} LastEntryWins(pieces: seq<PieceBits>, entries: seq<Entry>, i: nat, k: nat)
    requires AllWF(pieces) && i <= |entries| && k < |pieces|
    ensures var p := Loaded(pieces, entries, i)[k];
            && p.n == pieces[k].n && |p.bytes| == |pieces[k].bytes|
            && (forall j :: LastFitting(pieces, entries, i, k, j) ==>
                  p.bytes == entries[j].payload.bytes && (p.Done() == AllBlocks(p.n) ==> p.status == Complete))
            && ((forall j :: 0 <= j < i ==> !Fits(entries[j], pieces, k)) ==> p.bytes == pieces[k].bytes)
    decreases i
  {
    if i > 0 {
      LastEntryWins(pieces, entries, i - 1, k);
      EntryLoads(Loaded(pieces, entries, i - 1), entries[i - 1], k);
      forall j | LastFitting(pieces, entries, i, k, j) && j < i - 1
        ensures LastFitting(pieces, entries, i - 1, k, j)
      {
      }
    }
  }

  /** Of the first i entries, j is the last that brings bytes for piece k. */
  predicate LastFitting(pieces: seq<PieceBits>, entries: seq<Entry>, i: nat, k: nat, j: int)
    requires i <= |entries| && k < |pieces|
  {
    0 <= j < i && Fits(entries[j], pieces, k) && forall l :: j < l < i ==> !Fits(entries[l], pieces, k)
  }
}
