/** What the progress counter counts: the bytes of the file that lie in blocks marked done. */
module ProgressBytes {
  import opened Blocks
  import opened Pieces
  import opened PieceManagement

  /** The offsets of the piece whose block is done. */
  function DoneBytes(v: PieceView): set<int>
    requires v.blockLength > 0
  {
    set x | v.start <= x < v.start + v.length && v.IndexOf(x) in v.done
  }

  /** Those in its first k blocks. */
  function DoneBelow(v: PieceView, k: nat): set<int>
    requires v.blockLength > 0
  {
    set x | x in DoneBytes(v) && v.IndexOf(x) < k
  }

  function Interval(lo: int, hi: int): (r: set<int>)
    requires lo <= hi
    ensures (forall x :: x in r <==> lo <= x < hi) && |r| == hi - lo
    decreases hi - lo
  {
    if lo == hi then {} else Interval(lo, hi - 1) + {hi - 1}
  }

  /** A byte lies in a block exactly when that is its index. */
  lemma InBlockIff(v: PieceView, b: nat, x: int)
    requires v.blockLength > 0 && v.length > 0 && b < v.N()
    ensures v.BlockStart(b) <= x < v.BlockEnd(b) <==> v.start <= x < v.start + v.length && v.IndexOf(x) == b
  {
    BlockBounds(v, b);
    if v.start <= x < v.start + v.length {
      IndexOfContains(v, x);
      var i := v.IndexOf(x);
      if i < b {
        BlocksDisjoint(v, i, b);
      } else if b < i {
        BlocksDisjoint(v, b, i);
      }
    }
  }

  lemma OneMoreBlockOfBytes(v: PieceView, k: nat)
    requires v.WF() && v.length > 0 && k < v.N()
    ensures v.BlockStart(k) <= v.BlockEnd(k)
    ensures DoneBelow(v, k + 1) == DoneBelow(v, k) + if k in v.done then Interval(v.BlockStart(k), v.BlockEnd(k)) else {}
    ensures DoneBelow(v, k) !! Interval(v.BlockStart(k), v.BlockEnd(k))
  {
    BlockBounds(v, k);
    forall x
      ensures x in Interval(v.BlockStart(k), v.BlockEnd(k)) <==>
                v.start <= x < v.start + v.length && v.IndexOf(x) == k
    {
      InBlockIff(v, k, x);
    }
  }

  lemma {:induction false} DoneBelowSize(v: PieceView, k: nat)
    requires v.WF() && v.length > 0 && k <= v.N()
    ensures |DoneBelow(v, k)| == BytesIn(v.done, v.N(), v.blockLength, v.length, k)
    decreases k
  {
    if k == 0 {
      forall x | x in DoneBytes(v)
        ensures v.IndexOf(x) >= 0
      {
        IndexOfContains(v, x);
      }
      assert DoneBelow(v, 0) == {};
    } else {
      DoneBelowSize(v, k - 1);
      OneMoreBlockOfBytes(v, k - 1);
      BlockBounds(v, k - 1);
    }
  }

  /** CompletedLength of a piece is the number of its bytes in done blocks. */
  lemma CompletedIsDoneBytes(v: PieceView)
    requires v.WF() && v.length > 0
    ensures |DoneBytes(v)| == v.CompletedLength()
  {
    DoneBelowSize(v, v.N());
    forall x | x in DoneBytes(v)
      ensures v.IndexOf(x) < v.N()
    {
      IndexOfContains(v, x);
    }
    assert DoneBelow(v, v.N()) == DoneBytes(v);
  }

  /** The pieces follow each other from the start of the file, none empty. */
  ghost predicate InLine(views: seq<PieceView>) {
    && (forall i :: 0 <= i < |views| ==> views[i].WF() && views[i].length > 0)
    && (|views| > 0 ==> views[0].start == 0)
    && forall i :: 0 < i < |views| ==> views[i].start == views[i - 1].start + views[i - 1].length
  }

  /** The offsets of the file that lie in a done block of one of the first k pieces. */
  function DoneOffsets(views: seq<PieceView>, k: nat): (r: set<int>)
    requires k <= |views| && forall i :: 0 <= i < |views| ==> views[i].blockLength > 0
    ensures forall x :: x in r <==> exists p :: 0 <= p < k && x in DoneBytes(views[p])
  {
    if k == 0 then {} else DoneOffsets(views, k - 1) + DoneBytes(views[k - 1])
  }

  /** The progress that is shown is the number of bytes of the file in blocks marked done. */
  lemma {:induction false} TotalIsDoneOffsets(views: seq<PieceView>, k: nat)
    requires InLine(views) && k <= |views|
    ensures CompletedBytesOf(views, k) == |DoneOffsets(views, k)|
    ensures forall x :: x in DoneOffsets(views, k) ==> k > 0 && 0 <= x < views[k - 1].start + views[k - 1].length
    decreases k
  {
    if k > 0 {
      TotalIsDoneOffsets(views, k - 1);
      CompletedIsDoneBytes(views[k - 1]);
      LaterBytes(views, k - 1);
    }
  }

  lemma LaterBytes(views: seq<PieceView>, k: nat)
    requires InLine(views) && k < |views|
    requires forall x :: x in DoneOffsets(views, k) ==> k > 0 && 0 <= x < views[k - 1].start + views[k - 1].length
    ensures DoneOffsets(views, k) !! DoneBytes(views[k])
  {
  }
}
