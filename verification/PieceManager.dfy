/** The piece manager: hands out pieces, lets workers steal, adds up progress, saves and restores. */
module PieceManagement {
  import opened Bits
  import opened Blocks
  import opened Pieces
  import opened Selection
  import opened SavedBits
  import Split

  /** Completed bytes of the first k pieces. */
  function CompletedBytesOf(views: seq<PieceView>, k: nat): nat
    requires k <= |views|
    requires forall i :: 0 <= i < |views| ==> views[i].blockLength > 0
  {
    if k == 0 then 0 else CompletedBytesOf(views, k - 1) + views[k - 1].CompletedLength()
  }

  /** Progress never exceeds the bytes covered so far and reaches them only when every piece is full. */
  lemma {:induction false} TotalWithinFile(views: seq<PieceView>, k: nat)
    requires k <= |views|
    requires forall i :: 0 <= i < |views| ==> views[i].blockLength > 0
    requires forall i :: 0 <= i < |views| ==> views[i].WF() && views[i].length > 0
    requires |views| > 0 ==> views[0].start == 0
    requires forall i :: 0 < i < |views| ==> views[i].start == views[i - 1].start + views[i - 1].length
    ensures var covered := if k == 0 then 0 else views[k - 1].start + views[k - 1].length;
            && CompletedBytesOf(views, k) <= covered
            && (CompletedBytesOf(views, k) == covered <==> forall i :: 0 <= i < k ==> views[i].Full())
  {
    if k > 0 {
      TotalWithinFile(views, k - 1);
      var v := views[k - 1];
      CompletedBytes(v.done, v.length, v.blockLength);
    }
  }

  ghost function BitsOf(p: Piece): PieceBits
    reads p, p.blocks, p.blocks.bitfield
  {
    PieceBits(p.blocks.bitfield[..], p.blocks.numBlocks, p.status)
  }

  /** The random number picks one of the idle pieces: it says how many of them come before piece r. */
  predicate Drawn(views: seq<PieceView>, dice: nat, r: int) {
    && 0 <= r < |views| && IdlesBefore(views, |views|) > 0
    && IdlesBefore(views, r) == dice % IdlesBefore(views, |views|)
  }

  lemma DrawsIdle(views: seq<PieceView>, dice: nat, idle: seq<int>)
    requires idle == IdleIndices(views, |views|)
    ensures if idle == [] then MayPick(Random, views, -1)
            else 0 <= dice % |idle| < |idle| && var r := idle[dice % |idle|]; Drawn(views, dice, r) && MayPick(Random, views, r)
  {
    IdleIndicesCount(views, |views|);
    if idle != [] {
      assert IsIdle(views, idle[0]);
    }
  }

  class PieceManager {
    const pieces: seq<Piece>
    const fileSize: int
    const selector: Selector
    var cuidSeq: int
    ghost const Objects: set<object>  // every object of every piece

    /** The pieces are pairwise separate and live in Objects; a fact about constants only. */
    ghost predicate Linked() {
      && Split.Separate(pieces)
      && this !in Objects
      && forall i :: 0 <= i < |pieces| ==>
           pieces[i].Repr() <= Objects && pieces[i].index == i && pieces[i].blocks.blockLength > 0
    }

    ghost predicate Valid()
      reads this, Objects
    {
      Linked() && forall i :: 0 <= i < |pieces| ==> pieces[i].Valid()
    }

    ghost function View(): (views: seq<PieceView>)
      requires Linked()
      reads Objects
      ensures |views| == |pieces|
      ensures forall i :: 0 <= i < |pieces| ==> views[i] == pieces[i].View()
    {
      seq(|pieces|, i requires 0 <= i < |pieces| && Linked() reads Objects => pieces[i].View())
    }

    ghost function PieceBitmaps(): (bits: seq<PieceBits>)
      requires Linked()
      reads Objects
      ensures |bits| == |pieces|
      ensures forall i :: 0 <= i < |pieces| ==> bits[i] == BitsOf(pieces[i])
    {
      seq(|pieces|, i requires 0 <= i < |pieces| && Linked() reads Objects => BitsOf(pieces[i]))
    }

    constructor (pieces: seq<Piece>, fileSize: int, selector: Selector, ghost objects: set<object>)
      requires Split.Separate(pieces)
      requires forall i :: 0 <= i < |pieces| ==> pieces[i].Repr() <= objects
      requires forall i :: 0 <= i < |pieces| ==> pieces[i].Valid() && pieces[i].index == i
      ensures Valid()
      ensures this.pieces == pieces && this.fileSize == fileSize && this.selector == selector
      ensures cuidSeq == 0 && Objects == objects
    {
      this.pieces := pieces;
      this.fileSize := fileSize;
      this.selector := selector;
      cuidSeq := 0;
      Objects := objects;
    }

    method NextCUID() returns (cuid: int)
      modifies `cuidSeq
      ensures cuid == cuidSeq == old(cuidSeq) + 1
    {
      cuidSeq := cuidSeq + 1;
      cuid := cuidSeq;
    }

    /** Marks piece idx as being downloaded by cuid. */
    method Activate(idx: nat, cuid: int)
      requires Valid() && idx < |pieces|
      modifies pieces[idx]
      ensures Valid()
      ensures View() == old(View())[idx := Activated(old(View())[idx], cuid)]
    {
      pieces[idx].status := Active;
      pieces[idx].ownerCUID := cuid;
    }

    /** Hands out an idle piece by its index, or -1. `dice` stands for the random number generator. */
    method GetPieceForDownload(cuid: int, dice: nat) returns (r: int)
      requires Valid()
      modifies Objects
      ensures Valid()
      ensures MayPick(selector, old(View()), r)
      ensures r == -1 <==>
                forall j :: IsIdle(old(View()), j) ==> selector == Geom && |pieces| % 2 == 0 && j == 0
      ensures r != -1 ==> RightPick(selector, old(View()), r)
      ensures r != -1 && selector == Random ==> Drawn(old(View()), dice, r)
      ensures View() == if r == -1 then old(View()) else old(View())[r := old(View())[r].(status := Active, owner := cuid)]
    {
      r := Pick(dice);
      if r != -1 {
        Activate(r, cuid);
      }
    }

    /** The piece that the selector names. */
    method Pick(dice: nat) returns (r: int)
      requires Valid()
      ensures MayPick(selector, View(), r)
      ensures r == -1 <==> forall j :: IsIdle(View(), j) ==> selector == Geom && |pieces| % 2 == 0 && j == 0
      ensures r != -1 ==> RightPick(selector, View(), r)
      ensures r != -1 && selector == Random ==> Drawn(View(), dice, r)
    {
      match selector {
        case Geom => r := PickGeom();
        case Random => r := PickRandom(dice);
        case InOrder => r := PickInOrder();
      }
      NothingPickedIff(selector, View());
      if r != -1 {
        PickIsRight(selector, View(), r);
      }
    }

    method PickInOrder() returns (r: int)
      requires Valid()
      ensures r == FirstIdle(View(), 0)
    {
      ghost var views := View();
      for i := 0 to |pieces|
        invariant FirstIdle(views, 0) == FirstIdle(views, i)
      {
        if pieces[i].status == Idle {
          return i;
        }
      }
      return -1;
    }

    method PickGeom() returns (r: int)
      requires Valid()
      ensures r == FirstGeomIdle(View(), 0)
    {
      ghost var views := View();
      var total := |pieces|;
      for i := 0 to total
        invariant FirstGeomIdle(views, 0) == FirstGeomIdle(views, i)
      {
        var idx := GeomIndex(total, i);
        if idx >= 0 && idx < total && pieces[idx].status == Idle {
          return idx;
        }
      }
      return -1;
    }

    method PickRandom(dice: nat) returns (r: int)
      requires Valid()
      ensures MayPick(Random, View(), r)
      ensures r != -1 ==> Drawn(View(), dice, r)
    {
      ghost var views := View();
      var idle: seq<int> := [];
      for i := 0 to |pieces|
        invariant idle == IdleIndices(views, i)
      {
        if pieces[i].status == Idle {
          idle := idle + [i];
        }
      }
      DrawsIdle(views, dice, idle);
      if |idle| == 0 {
        return -1;
      }
      r := idle[dice % |idle|];
    }

    /** The first range that can be stolen from another worker's piece, with the victim's index; -1, -1, -1 if none. */
    method TryStealPiece(cuid: int, minStealSize: int) returns (start: int, end: int, victim: int)
      requires Valid()
      modifies Objects
      ensures Valid()
      ensures var t := StealScan(old(View()), cuid, minStealSize, 0);
              && View() == t.pieces
              && victim == t.victim
              && match t.range
                 case NoRange => start == -1 && end == -1
                 case Range(o, l) => start == o && end == o + l - 1
    {
      ghost var views := View();
      ghost var goal := StealScan(views, cuid, minStealSize, 0);
      var i := 0;
      while i < |pieces|
        invariant 0 <= i <= |pieces| && Valid() && views == View()
        invariant goal == StealScan(views, cuid, minStealSize, i)
      {
        StealScanStep(views, cuid, minStealSize, i);
        var offset, length := Probe(i, cuid, minStealSize);
        views := View();
        if offset >= 0 && length >= minStealSize {
          return offset, offset + length - 1, i;
        }
        i := i + 1;
      }
      return -1, -1, -1;
    }

    /** Tries one piece: only an active piece of another worker is asked for a range. */
    method Probe(i: nat, cuid: int, minSize: int) returns (offset: int, length: int)
      requires Valid() && i < |pieces|
      modifies Objects
      ensures Valid()
      ensures View() == Probed(old(View()), i, cuid, minSize)
      ensures RangeOf(offset, length) == ProbeRange(old(View())[i], cuid, minSize)
      ensures offset >= 0 ==> length >= minSize
    {
      offset, length := -1, 0;
      if pieces[i].status == Active && pieces[i].ownerCUID != cuid {
        offset, length := StealFrom(i, minSize);
      }
    }

    method StealFrom(i: nat, minSize: int) returns (offset: int, length: int)
      requires Valid() && i < |pieces|
      modifies Objects
      ensures Valid()
      ensures View() == old(View())[i := old(View())[i].AfterSteal(minSize)]
      ensures RangeOf(offset, length) == old(View())[i].Steal(minSize)
      ensures offset >= 0 ==> length >= minSize
    {
      ghost var views := View();
      offset, length := pieces[i].StealableRange(minSize);
      forall k | 0 <= k < |pieces| && k != i
        ensures View()[k] == views[k]
      {
        assert pieces[k].Repr() !! pieces[i].Repr();
      }
    }

    method CompletePiece(idx: int)
      requires Valid()
      modifies Objects
      ensures Valid()
      ensures View() == if 0 <= idx < |pieces| then old(View())[idx := old(View())[idx].(status := Complete)]
                        else old(View())
    {
      if idx >= 0 && idx < |pieces| {
        pieces[idx].status := Complete;
      }
    }

    method AllComplete() returns (r: bool)
      requires Valid()
      ensures r <==> AllFull(View())
    {
      ghost var views := View();
      r := true;
      for i := 0 to |pieces|
        invariant r && AllFull(views[..i])
      {
        r := PieceIsComplete(i);
        AllFullStep(views, i);
        if !r {
          return;
        }
      }
      assert views[..|views|] == views;
    }

    method PieceIsComplete(i: nat) returns (r: bool)
      requires Valid() && i < |pieces|
      ensures r <==> View()[i].Full()
    {
      r := pieces[i].IsComplete();
    }

    method TotalCompletedLength() returns (total: nat)
      requires Valid()
      ensures total == CompletedBytesOf(View(), |pieces|)
    {
      total := 0;
      ghost var views := View();
      for i := 0 to |pieces|
        invariant total == CompletedBytesOf(views, i)
      {
        var len := pieces[i].CompletedLength();
        assert len == views[i].CompletedLength();
        total := total + len;
      }
    }

    /** The last byte to request lies in the file and not before the end of the piece; when another worker has
        begun the next piece, it is the end of this one. */
    method GetEndOffset(pieceIndex: nat) returns (end: int)
      requires Valid() && pieceIndex < |pieces|
      ensures end == EndOffset(View(), pieceIndex, fileSize)
      ensures var v := View()[pieceIndex];
              v.start + v.length <= fileSize ==> v.start + v.length - 1 <= end < fileSize
      ensures pieceIndex + 1 < |pieces| && View()[pieceIndex + 1].status == Active ==>
                end == View()[pieceIndex].start + View()[pieceIndex].length - 1
    {
      var nextIdx := pieceIndex + 1;
      if nextIdx < |pieces| && pieces[nextIdx].status == Active {
        return pieces[pieceIndex].start + pieces[pieceIndex].length - 1;
      }
      return fileSize - 1;
    }
  
    method SerializePieceBitfields() returns (entries: seq<Entry>)
      requires Valid()
      ensures entries == Serialized(PieceBitmaps(), |pieces|)
    {
      entries := [];
      ghost var bits := PieceBitmaps();
      for i := 0 to |pieces|
        invariant entries == Serialized(bits, i)
      {
        var bf := pieces[i].blocks.GetBitfield();
        var hasCompleted := HasNonZero(bf);
        if hasCompleted {
          entries := entries + [Entry(pieces[i].index, Bytes(bf))];
        }
      }
    }

    method RestorePieceBitfields(entries: seq<Entry>)
      requires Valid()
      modifies Objects
      ensures Valid() && AllWF(old(PieceBitmaps()))
      ensures PieceBitmaps() == Loaded(old(PieceBitmaps()), entries, |entries|)
      ensures OnlyDoneDiffers(old(View()), View())
    {
      BitmapsAreWF();
      ghost var bits := PieceBitmaps();
      var i := 0;
      while i < |entries|
        invariant 0 <= i <= |entries| && Valid() && AllWF(bits)
        invariant PieceBitmaps() == Loaded(bits, entries, i)
        invariant OnlyDoneDiffers(old(View()), View())
      {
        RestoreEntry(entries[i]);
        i := i + 1;
      }
    }

    method RestoreEntry(entry: Entry)
      requires Valid()
      modifies Objects
      ensures Valid() && AllWF(old(PieceBitmaps()))
      ensures PieceBitmaps() == LoadEntry(old(PieceBitmaps()), entry) && OnlyDoneDiffers(old(View()), View())
    {
      BitmapsAreWF();
      if 0 <= entry.index < |pieces| && entry.payload.Bytes? {
        RestorePiece(entry.index, entry.payload.bytes);
      }
    }

    lemma BitmapsAreWF()
      requires Valid()
      ensures AllWF(PieceBitmaps())
    {
    }

    method RestorePiece(idx: nat, bf: seq<byte>)
      requires Valid() && idx < |pieces|
      modifies Objects
      ensures Valid() && AllWF(old(PieceBitmaps()))
      ensures PieceBitmaps() == old(PieceBitmaps())[idx := old(PieceBitmaps())[idx].Load(bf)]
      ensures OnlyDoneDiffers(old(View()), View())
    {
      LoadBits(pieces[idx], bf);
    }
  }

  /** Geometry, use bits and owners are the same. */
  ghost predicate OnlyDoneDiffers(before: seq<PieceView>, after: seq<PieceView>) {
    |before| == |after| &&
    forall i :: 0 <= i < |before| ==> after[i] == before[i].(done := after[i].done, status := after[i].status)
  }

  method LoadBits(p: Piece, bf: seq<byte>)
    requires p.Valid()
    modifies p, p.blocks, p.blocks.bitfield
    ensures p.Valid() && old(BitsOf(p)).WF()
    ensures BitsOf(p) == old(BitsOf(p)).Load(bf)
    ensures p.View() == old(p.View()).(done := p.blocks.Done, status := p.status)
  {
    p.blocks.SetBitfield(bf);
    var all := p.blocks.IsAllBitSet();
    if all {
      p.status := Complete;
    }
  }

  method HasNonZero(bf: seq<byte>) returns (r: bool)
    ensures r <==> !AllZero(bf)
  {
    for i := 0 to |bf|
      invariant AllZero(bf[..i])
    {
      if bf[i] != 0 {
        return true;
      }
    }
    return false;
  }
}
