/** Which piece a worker is handed, and which range it may steal: the manager's decisions on plain values. */
module Selection {
  import opened Pieces

  datatype Selector = InOrder | Geom | Random

  /** The i-th index the geom scan looks at: the middle, then one above, one below, and so on outwards. */
  function GeomIndex(total: nat, i: nat): int {
    if i % 2 == 0 then total / 2 - i / 2 else total / 2 + (i + 1) / 2
  }

  /** The scan for geom looks at this index at all. */
  ghost predicate GeomVisits(total: nat, j: int) {
    exists i: nat :: i < total && GeomIndex(total, i) == j
  }

  /** The geom scan visits every piece of an odd number of pieces, and all but piece 0 of an even number. */
  lemma GeomVisitsIff(total: nat, j: nat)
    requires j < total
    ensures GeomVisits(total, j) <==> total % 2 == 1 || j != 0
  {
    var mid := total / 2;
    if j <= mid {
      var i := 2 * (mid - j);
      assert GeomIndex(total, i) == j;
    } else {
      var i := 2 * (j - mid) - 1;
      assert GeomIndex(total, i) == j;
    }
  }

  predicate IsIdle(pieces: seq<PieceView>, j: int) {
    0 <= j < |pieces| && pieces[j].status == Idle
  }

  /** The first idle piece in file order from i on, or -1. */
  function FirstIdle(pieces: seq<PieceView>, i: nat): (r: int)
    requires i <= |pieces|
    ensures r == -1 <==> forall j :: i <= j < |pieces| ==> !IsIdle(pieces, j)
    ensures r != -1 ==> i <= r && IsIdle(pieces, r) && forall j :: i <= j < r ==> !IsIdle(pieces, j)
    decreases |pieces| - i
  {
    if i == |pieces| then -1 else if IsIdle(pieces, i) then i else FirstIdle(pieces, i + 1)
  }

  /** The first idle piece in geom order from step i on, or -1. */
  function FirstGeomIdle(pieces: seq<PieceView>, i: nat): (r: int)
    requires i <= |pieces|
    ensures r == -1 <==> forall k: nat :: i <= k < |pieces| ==> !IsIdle(pieces, GeomIndex(|pieces|, k))
    ensures r != -1 ==> IsIdle(pieces, r) && exists k: nat :: i <= k < |pieces| && GeomIndex(|pieces|, k) == r
    decreases |pieces| - i
  {
    if i == |pieces| then -1
    else if IsIdle(pieces, GeomIndex(|pieces|, i)) then GeomIndex(|pieces|, i)
    else FirstGeomIdle(pieces, i + 1)
  }

  /** How far an index is from the middle of the pieces. */
  function FromMiddle(total: nat, j: int): nat {
    if j < total / 2 then total / 2 - j else j - total / 2
  }

  /** Index r comes before j in geom order: it is nearer to the middle, or as near and above it. */
  predicate Nearer(total: nat, r: int, j: int) {
    FromMiddle(total, r) < FromMiddle(total, j) || (FromMiddle(total, r) == FromMiddle(total, j) && r >= j)
  }

  /** The geom scan goes outwards. */
  lemma GeomGoesOutwards(total: nat, i: nat, k: nat)
    requires i <= k
    ensures Nearer(total, GeomIndex(total, i), GeomIndex(total, k))
  {
  }

  lemma {:induction false} FirstGeomIsNearest(pieces: seq<PieceView>, i: nat, k: nat)
    requires i <= k < |pieces| && IsIdle(pieces, GeomIndex(|pieces|, k))
    ensures Nearer(|pieces|, FirstGeomIdle(pieces, i), GeomIndex(|pieces|, k))
    decreases |pieces| - i
  {
    if IsIdle(pieces, GeomIndex(|pieces|, i)) {
      GeomGoesOutwards(|pieces|, i, k);
    } else {
      FirstGeomIsNearest(pieces, i + 1, k);
    }
  }

  /** How many of the first k pieces are idle. */
  function IdlesBefore(pieces: seq<PieceView>, k: nat): nat
    requires k <= |pieces|
  {
    if k == 0 then 0 else IdlesBefore(pieces, k - 1) + if pieces[k - 1].status == Idle then 1 else 0
  }

  /** The idle ones among the first k pieces, in order. */
  function IdleIndices(pieces: seq<PieceView>, k: nat): seq<int>
    requires k <= |pieces|
  {
    if k == 0 then [] else IdleIndices(pieces, k - 1) + if pieces[k - 1].status == Idle then [k - 1] else []
  }

  /** The list holds idle pieces, each with as many idle ones before it as its place says. */
  ghost predicate CountedIdles(pieces: seq<PieceView>, idle: seq<int>) {
    forall m :: 0 <= m < |idle| ==> IsIdle(pieces, idle[m]) && IdlesBefore(pieces, idle[m]) == m
  }

  lemma OneMoreIdle(pieces: seq<PieceView>, idle: seq<int>, k: nat)
    requires CountedIdles(pieces, idle) && IsIdle(pieces, k) && IdlesBefore(pieces, k) == |idle|
    ensures CountedIdles(pieces, idle + [k])
  {
    forall m | 0 <= m <= |idle|
      ensures IsIdle(pieces, (idle + [k])[m]) && IdlesBefore(pieces, (idle + [k])[m]) == m
    {
      assert (idle + [k])[m] == if m < |idle| then idle[m] else k;
    }
  }

  lemma {:induction false} IdleIndicesCount(pieces: seq<PieceView>, k: nat)
    requires k <= |pieces|
    ensures var idle := IdleIndices(pieces, k);
            && |idle| == IdlesBefore(pieces, k) && CountedIdles(pieces, idle)
            && (idle == [] ==> forall j :: 0 <= j < k ==> !IsIdle(pieces, j))
  {
    if k > 0 {
      IdleIndicesCount(pieces, k - 1);
      if pieces[k - 1].status == Idle {
        OneMoreIdle(pieces, IdleIndices(pieces, k - 1), k - 1);
      }
    }
  }

  /** The piece a selector may hand out, -1 for none. */
  ghost predicate MayPick(selector: Selector, pieces: seq<PieceView>, r: int) {
    match selector
    case InOrder => r == FirstIdle(pieces, 0)
    case Geom => r == FirstGeomIdle(pieces, 0)
    case Random => if FirstIdle(pieces, 0) == -1 then r == -1 else IsIdle(pieces, r)
  }

  /** A selector hands out nothing exactly when no piece is idle, except that geom over an even number of
      pieces never looks at piece 0. */
  lemma NothingPickedIff(selector: Selector, pieces: seq<PieceView>)
    ensures MayPick(selector, pieces, -1) <==>
              forall j :: IsIdle(pieces, j) ==> selector == Geom && |pieces| % 2 == 0 && j == 0
  {
    if selector == Geom {
      forall j | IsIdle(pieces, j)
        ensures GeomVisits(|pieces|, j) <==> |pieces| % 2 == 1 || j != 0
      {
        GeomVisitsIff(|pieces|, j);
      }
      if MayPick(selector, pieces, -1) {
        assert forall k: nat :: k < |pieces| ==> !IsIdle(pieces, GeomIndex(|pieces|, k));
      } else {
        var k: nat :| k < |pieces| && IsIdle(pieces, GeomIndex(|pieces|, k));
        assert GeomVisits(|pieces|, GeomIndex(|pieces|, k));
      }
    }
  }

  /** Over an even number of pieces geom never hands out piece 0. */
  lemma GeomNeverPicksZero(pieces: seq<PieceView>)
    requires |pieces| % 2 == 0
    ensures !MayPick(Geom, pieces, 0)
  {
    if MayPick(Geom, pieces, 0) {
      var k: nat :| k < |pieces| && GeomIndex(|pieces|, k) == 0;
      assert GeomVisits(|pieces|, 0);
      GeomVisitsIff(|pieces|, 0);
    }
  }

  /** Which piece is handed out, by the statuses alone: in order, the first idle one; with geom, of the idle ones that its
      scan looks at, the nearest to the middle, and of two equally near ones the one above it; at random, any idle one. */
  ghost predicate RightPick(selector: Selector, pieces: seq<PieceView>, r: int) {
    && IsIdle(pieces, r)
    && (selector == InOrder ==> forall j :: 0 <= j < r ==> !IsIdle(pieces, j))
    && (selector == Geom ==>
          && (|pieces| % 2 == 1 || r != 0)
          && forall j :: IsIdle(pieces, j) && (|pieces| % 2 == 1 || j != 0) ==> Nearer(|pieces|, r, j))
  }

  lemma PickIsRight(selector: Selector, pieces: seq<PieceView>, r: int)
    requires MayPick(selector, pieces, r) && r != -1
    ensures RightPick(selector, pieces, r)
  {
    if selector == Geom {
      if |pieces| % 2 == 0 {
        GeomNeverPicksZero(pieces);
      }
      forall j | IsIdle(pieces, j) && (|pieces| % 2 == 1 || j != 0)
        ensures Nearer(|pieces|, r, j)
      {
        GeomVisitsIff(|pieces|, j);
        var k: nat :| k < |pieces| && GeomIndex(|pieces|, k) == j;
        FirstGeomIsNearest(pieces, 0, k);
      }
    }
  }

  /** And such a piece is handed out: for the two selectors that do not draw, no other can be. */
  lemma RightPickIff(selector: Selector, pieces: seq<PieceView>, r: int)
    requires r != -1
    ensures MayPick(selector, pieces, r) <==> RightPick(selector, pieces, r)
  {
    if MayPick(selector, pieces, r) {
      PickIsRight(selector, pieces, r);
    }
    if RightPick(selector, pieces, r) {
      NothingPickedIff(selector, pieces);
      SomethingElse(selector, pieces, r);
    }
  }

  lemma SomethingElse(selector: Selector, pieces: seq<PieceView>, r: int)
    requires RightPick(selector, pieces, r) && !MayPick(selector, pieces, -1)
    ensures MayPick(selector, pieces, r)
  {
    if selector != Random {
      var p := if selector == InOrder then FirstIdle(pieces, 0) else FirstGeomIdle(pieces, 0);
      PickIsRight(selector, pieces, p);
    }
  }

  /** The last byte that a request for blocks of piece p may ask for: the end of the piece when the next one is taken,
      else the end of the file. */
  function EndOffset(pieces: seq<PieceView>, p: nat, fileSize: int): int
    requires p < |pieces|
  {
    if p + 1 < |pieces| && pieces[p + 1].status == Active then pieces[p].start + pieces[p].length - 1 else fileSize - 1
  }

  function Activated(v: PieceView, cuid: int): PieceView {
    v.(status := Active, owner := cuid)
  }

  predicate Victim(v: PieceView, cuid: int) {
    v.status == Active && v.owner != cuid
  }

  datatype Theft = Theft(pieces: seq<PieceView>, victim: int, range: Range)

  /** The thief's scan from piece i on: the first victim that yields a range. Victims tried in vain have
      still had use bits released. */
  function StealScan(pieces: seq<PieceView>, cuid: int, minSize: int, i: nat): Theft
    requires i <= |pieces|
    requires forall k :: 0 <= k < |pieces| ==> pieces[k].blockLength > 0
    decreases |pieces| - i
  {
    if i == |pieces| then Theft(pieces, -1, NoRange)
    else if !Victim(pieces[i], cuid) then StealScan(pieces, cuid, minSize, i + 1)
    else
      var after := pieces[i := pieces[i].AfterSteal(minSize)];
      if pieces[i].Steal(minSize).Range? then Theft(after, i, pieces[i].Steal(minSize))
      else StealScan(after, cuid, minSize, i + 1)
  }

  /** The pieces after the thief tried piece i, and the range it got. */
  function Probed(pieces: seq<PieceView>, i: nat, cuid: int, minSize: int): seq<PieceView>
    requires i < |pieces| && pieces[i].blockLength > 0
  {
    if Victim(pieces[i], cuid) then pieces[i := pieces[i].AfterSteal(minSize)] else pieces
  }

  function ProbeRange(v: PieceView, cuid: int, minSize: int): Range
    requires v.blockLength > 0
  {
    if Victim(v, cuid) then v.Steal(minSize) else NoRange
  }

  lemma StealScanStep(pieces: seq<PieceView>, cuid: int, minSize: int, i: nat)
    requires i < |pieces|
    requires forall k :: 0 <= k < |pieces| ==> pieces[k].blockLength > 0
    ensures var after, range := Probed(pieces, i, cuid, minSize), ProbeRange(pieces[i], cuid, minSize);
            && (forall k :: 0 <= k < |after| ==> after[k].blockLength > 0) && |after| == |pieces|
            && StealScan(pieces, cuid, minSize, i)
               == if range.Range? then Theft(after, i, range) else StealScan(after, cuid, minSize, i + 1)
  {
  }

  /** What a scan from piece i on can have done. */
  ghost predicate FairTheft(pieces: seq<PieceView>, t: Theft, cuid: int, minSize: int, i: nat)
    requires i <= |pieces|
    requires forall k :: 0 <= k < |pieces| ==> pieces[k].blockLength > 0
  {
    && Tried(pieces, t, cuid, minSize, i)
    && (t.victim == -1 <==> t.range == NoRange)
    && (t.victim != -1 ==>
          && i <= t.victim < |pieces| && Victim(pieces[t.victim], cuid)
          && t.range == pieces[t.victim].Steal(minSize))
    && (forall k :: i <= k < |pieces| && Victim(pieces[k], cuid) && pieces[k].Steal(minSize).Range? ==>
          0 <= t.victim <= k)
  }

  /** The victims from piece i on, up to the one that yields, have been tried; no other piece has changed. */
  ghost predicate Tried(pieces: seq<PieceView>, t: Theft, cuid: int, minSize: int, i: nat)
    requires forall k :: 0 <= k < |pieces| ==> pieces[k].blockLength > 0
  {
    && |t.pieces| == |pieces|
    && forall k :: 0 <= k < |pieces| ==>
         t.pieces[k] == if i <= k && (t.victim == -1 || k <= t.victim) && Victim(pieces[k], cuid)
                        then pieces[k].AfterSteal(minSize) else pieces[k]
  }

  lemma StillFair(pieces: seq<PieceView>, t: Theft, cuid: int, minSize: int, i: nat)
    requires i < |pieces|
    requires forall k :: 0 <= k < |pieces| ==> pieces[k].blockLength > 0
    requires Victim(pieces[i], cuid) && pieces[i].Steal(minSize) == NoRange
    requires FairTheft(pieces[i := pieces[i].AfterSteal(minSize)], t, cuid, minSize, i + 1)
    ensures FairTheft(pieces, t, cuid, minSize, i)
  {
    var after := pieces[i := pieces[i].AfterSteal(minSize)];
    assert forall k :: i < k < |pieces| ==> after[k] == pieces[k];
  }

  lemma HitIsFair(pieces: seq<PieceView>, cuid: int, minSize: int, i: nat)
    requires i < |pieces|
    requires forall k :: 0 <= k < |pieces| ==> pieces[k].blockLength > 0
    requires Victim(pieces[i], cuid) && pieces[i].Steal(minSize).Range?
    ensures FairTheft(pieces, Theft(pieces[i := pieces[i].AfterSteal(minSize)], i, pieces[i].Steal(minSize)), cuid, minSize, i)
  {
  }

  lemma SkipIsFair(pieces: seq<PieceView>, t: Theft, cuid: int, minSize: int, i: nat)
    requires i < |pieces|
    requires forall k :: 0 <= k < |pieces| ==> pieces[k].blockLength > 0
    requires !Victim(pieces[i], cuid) && FairTheft(pieces, t, cuid, minSize, i + 1)
    ensures FairTheft(pieces, t, cuid, minSize, i)
  {
  }

  /** A theft takes from a single active piece of another worker, the first that yields a range. The victims before it
      have been tried in vain, with what that does to their use bits; nothing else of any piece changes. */
  lemma {:induction false} TheftIsFair(pieces: seq<PieceView>, cuid: int, minSize: int, i: nat)
    requires i <= |pieces|
    requires forall k :: 0 <= k < |pieces| ==> pieces[k].blockLength > 0
    ensures FairTheft(pieces, StealScan(pieces, cuid, minSize, i), cuid, minSize, i)
    decreases |pieces| - i
  {
    if i < |pieces| {
      var t := StealScan(pieces, cuid, minSize, i);
      if !Victim(pieces[i], cuid) {
        TheftIsFair(pieces, cuid, minSize, i + 1);
        SkipIsFair(pieces, t, cuid, minSize, i);
      } else if pieces[i].Steal(minSize) == NoRange {
        TheftIsFair(pieces[i := pieces[i].AfterSteal(minSize)], cuid, minSize, i + 1);
        StillFair(pieces, t, cuid, minSize, i);
      } else {
        HitIsFair(pieces, cuid, minSize, i);
      }
    }
  }
}
