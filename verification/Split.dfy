/** Cutting a file into pieces. */
module Split {
  import opened Arithmetic
  import opened Blocks
  import opened Pieces

  /** The download settings the split reads. */
  datatype Config = Config(minChunk: nat, maxChunk: nat, defaultChunk: nat, maxConnections: int)

  function Clamped(cfg: Config): nat {
    var atLeastMin := if cfg.defaultChunk < cfg.minChunk then cfg.minChunk else cfg.defaultChunk;
    if atLeastMin > cfg.maxChunk then cfg.maxChunk else atLeastMin
  }

  /** Pieces needed for the file at a given piece size. */
  function PieceCount(fileSize: nat, pieceSize: nat): nat
    requires pieceSize > 0
  {
    fileSize / pieceSize + if fileSize % pieceSize != 0 then 1 else 0
  }

  /** Whether the piece size is cut down so that every connection can get a piece. */
  predicate Adjusts(fileSize: nat, cfg: Config)
    requires Clamped(cfg) > 0
  {
    && cfg.maxConnections > 0
    && PieceCount(fileSize, Clamped(cfg)) < cfg.maxConnections
    && Clamped(cfg) > cfg.minChunk
    && fileSize / cfg.maxConnections >= cfg.minChunk
  }

  function PieceSize(fileSize: nat, cfg: Config): nat
    requires Clamped(cfg) > 0
  {
    if Adjusts(fileSize, cfg) then fileSize / cfg.maxConnections else Clamped(cfg)
  }

  function Fresh(start: nat, length: nat): PieceView {
    PieceView(start, length, DEFAULT_BLOCK_LENGTH, {}, {}, Idle, 0)
  }

  /** Consecutive non-empty fresh pieces that cover [0, upTo). */
  ghost predicate Tiles(views: seq<PieceView>, upTo: nat)
  {
    && (forall i :: 0 <= i < |views| ==>
          && views[i] == Fresh(views[i].start, views[i].length)
          && views[i].length > 0)
    && (|views| > 0 ==> views[0].start == 0)
    && (forall i :: 0 < i < |views| ==> views[i].start == views[i - 1].start + views[i - 1].length)
    && upTo == if |views| == 0 then 0 else views[|views| - 1].start + views[|views| - 1].length
  }

  /** The pieces of a tiling follow each other without overlap. */
  lemma {:induction false} PiecesInOrder(views: seq<PieceView>, upTo: nat, i: nat, j: nat)
    requires Tiles(views, upTo) && i < j < |views|
    ensures views[i].start + views[i].length <= views[j].start
    decreases j
  {
    if i < j - 1 {
      PiecesInOrder(views, upTo, i, j - 1);
    }
  }

  lemma TilesPrefix(views: seq<PieceView>, upTo: nat)
    requires Tiles(views, upTo) && |views| > 1
    ensures Tiles(views[..|views| - 1], views[|views| - 1].start)
  {
  }

  /** Every file offset lies in exactly one piece of a tiling. */
  lemma {:induction false} OffsetInOnePiece(views: seq<PieceView>, upTo: nat, offset: nat)
    requires Tiles(views, upTo)
    ensures offset < upTo <==> exists i :: 0 <= i < |views| && views[i].start <= offset < views[i].start + views[i].length
    ensures forall i, j :: 0 <= i < j < |views| ==> views[i].start + views[i].length <= views[j].start
    decreases |views|
  {
    forall i, j | 0 <= i < j < |views|
      ensures views[i].start + views[i].length <= views[j].start
    {
      PiecesInOrder(views, upTo, i, j);
    }
    if offset < upTo {
      OffsetCovered(views, upTo, offset);
    }
  }

  lemma {:induction false} OffsetCovered(views: seq<PieceView>, upTo: nat, offset: nat)
    requires Tiles(views, upTo) && offset < upTo
    ensures exists i :: 0 <= i < |views| && views[i].start <= offset < views[i].start + views[i].length
    decreases |views|
  {
    var k := |views| - 1;
    if views[k].start <= offset {
      assert views[k].start <= offset < views[k].start + views[k].length;
    } else {
      TilesPrefix(views, upTo);
      OffsetCovered(views[..k], views[k].start, offset);
      var i :| 0 <= i < k && views[..k][i].start <= offset < views[..k][i].start + views[..k][i].length;
      assert views[i].start <= offset < views[i].start + views[i].length;
    }
  }

  lemma CountBounds(fileSize: nat, pieceSize: nat)
    requires pieceSize > 0
    ensures fileSize <= PieceCount(fileSize, pieceSize) * pieceSize
    ensures fileSize > 0 ==> PieceCount(fileSize, pieceSize) > 0
    ensures forall i: nat :: i < PieceCount(fileSize, pieceSize) ==> Product(i, pieceSize) < fileSize
  {
    var whole := fileSize / pieceSize;
    assert fileSize == whole * pieceSize + fileSize % pieceSize;
    forall i: nat | i < PieceCount(fileSize, pieceSize)
      ensures Product(i, pieceSize) < fileSize
    {
      if i < whole {
        MulMonotone(i + 1, whole, pieceSize);
      }
    }
  }

  function Product(a: nat, b: nat): nat {
    MulMonotone(0, a, b);
    a * b
  }

  /** The adjustment only ever shrinks pieces, keeps them inside the configured bounds, and yields at
      least one piece for each connection. */
  lemma PieceSizeBounds(fileSize: nat, cfg: Config)
    requires fileSize > 0 && 1 <= cfg.minChunk <= cfg.maxChunk
    ensures cfg.minChunk <= PieceSize(fileSize, cfg) <= Clamped(cfg) <= cfg.maxChunk
    ensures Adjusts(fileSize, cfg) ==> PieceSize(fileSize, cfg) < Clamped(cfg)
    ensures Adjusts(fileSize, cfg) ==> PieceCount(fileSize, PieceSize(fileSize, cfg)) >= cfg.maxConnections
  {
    if Adjusts(fileSize, cfg) {
      var size, conns := Clamped(cfg), cfg.maxConnections;
      var adjusted := fileSize / conns;
      CountBounds(fileSize, size);
      assert fileSize == adjusted * conns + fileSize % conns;
      MulMonotone(PieceCount(fileSize, size), conns - 1, size);
      DivBelow(fileSize, size, conns);
      DivGivesBack(fileSize, conns, adjusted);
    }
  }

  lemma DivBelow(a: nat, size: nat, c: nat)
    requires c > 0 && size > 0 && a <= (c - 1) * size
    ensures a / c < size
  {
    assert (c - 1) * size < c * size;
    QuotientBelow(a, c, size);
  }

  lemma QuotientBelow(a: nat, c: nat, m: nat)
    requires c > 0 && a < c * m
    ensures a / c < m
  {
    assert a == a / c * c + a % c;
    if a / c >= m {
      MulMonotone(m, a / c, c);
    }
  }

  lemma DivGivesBack(a: nat, c: nat, q: nat)
    requires c > 0 && q > 0 && q * c <= a
    ensures a / q >= c
  {
    assert a == a / q * q + a % q;
    if a / q < c {
      MulMonotone(a / q + 1, c, q);
    }
  }

  /** The piece size starts from the default, brought into its bounds. */
  lemma ClampedIsNearest(cfg: Config)
    requires cfg.minChunk <= cfg.maxChunk
    ensures cfg.minChunk <= Clamped(cfg) <= cfg.maxChunk
    ensures cfg.minChunk <= cfg.defaultChunk <= cfg.maxChunk ==> Clamped(cfg) == cfg.defaultChunk
    ensures cfg.defaultChunk < cfg.minChunk ==> Clamped(cfg) == cfg.minChunk
    ensures cfg.defaultChunk > cfg.maxChunk ==> Clamped(cfg) == cfg.maxChunk
  {
  }

  /** Each connection gets a piece if and only if that size gives enough pieces already, or it is not the smallest allowed
      and pieces of the smallest would be enough. The size changes only when it has to, and then to an even share. */
  lemma EveryoneServedIff(fileSize: nat, cfg: Config)
    requires fileSize > 0 && 1 <= cfg.minChunk <= cfg.maxChunk && cfg.maxConnections > 0
    ensures var size := PieceSize(fileSize, cfg);
            && (PieceCount(fileSize, size) >= cfg.maxConnections <==>
                  PieceCount(fileSize, Clamped(cfg)) >= cfg.maxConnections
                  || (Clamped(cfg) > cfg.minChunk && fileSize >= cfg.minChunk * cfg.maxConnections))
            && (PieceCount(fileSize, Clamped(cfg)) >= cfg.maxConnections ==> size == Clamped(cfg))
            && (size != Clamped(cfg) ==> size * cfg.maxConnections <= fileSize < (size + 1) * cfg.maxConnections)
  {
    PieceSizeBounds(fileSize, cfg);
    ShareAtLeast(fileSize, cfg.maxConnections, cfg.minChunk);
  }

  lemma ShareAtLeast(fileSize: nat, conns: nat, least: nat)
    requires conns > 0
    ensures fileSize / conns >= least <==> fileSize >= least * conns
    ensures fileSize / conns * conns <= fileSize < (fileSize / conns + 1) * conns
  {
    var share := fileSize / conns;
    assert fileSize == share * conns + fileSize % conns;
    if share >= least {
      MulMonotone(least, share, conns);
    } else {
      MulMonotone(share + 1, least, conns);
    }
  }

  /** The settings DownloadConfig.Validate accepts. */
  predicate Accepted(cfg: Config) {
    cfg.minChunk <= cfg.defaultChunk <= cfg.maxChunk && 1 <= cfg.maxConnections <= 64
  }

  /** The divisions of the split have a zero divisor. */
  predicate DividesByZero(fileSize: int, cfg: Config) {
    fileSize > 0 && (Clamped(cfg) == 0 || PieceSize(fileSize, cfg) == 0)
  }

  /** Accepted settings make the split crash exactly for a zero default size, or for a zero minimum size and
      a file with fewer bytes than connections. */
  lemma AcceptedSplitCrashesIff(fileSize: int, cfg: Config)
    requires Accepted(cfg)
    ensures DividesByZero(fileSize, cfg) <==>
              fileSize > 0 && (cfg.defaultChunk == 0 || (cfg.minChunk == 0 && fileSize < cfg.maxConnections))
  {
    if fileSize > 0 && cfg.defaultChunk > 0 {
      FewerThanConnections(fileSize, cfg.maxConnections);
      CountAtMostSize(fileSize, cfg.defaultChunk);
    }
  }

  lemma FewerThanConnections(fileSize: nat, conns: nat)
    requires conns > 0
    ensures fileSize / conns == 0 <==> fileSize < conns
  {
    assert fileSize == fileSize / conns * conns + fileSize % conns;
    if fileSize / conns >= 1 {
      MulMonotone(1, fileSize / conns, conns);
    }
  }

  lemma CountAtMostSize(fileSize: nat, size: nat)
    requires size > 0
    ensures PieceCount(fileSize, size) <= fileSize
  {
    var whole := fileSize / size;
    assert fileSize == whole * size + fileSize % size;
    MulMonotone(1, size, whole);
  }

  /** No two pieces share an object. */
  ghost predicate Separate(pieces: seq<Piece>) {
    forall i, j :: 0 <= i < j < |pieces| ==> pieces[i].Repr() !! pieces[j].Repr()
  }

  lemma SeparateAppend(pieces: seq<Piece>, objects: set<object>, p: Piece)
    requires Separate(pieces) && p.Repr() !! objects
    requires forall i :: 0 <= i < |pieces| ==> pieces[i].Repr() <= objects
    ensures Separate(pieces + [p])
    ensures forall i :: 0 <= i <= |pieces| ==> (pieces + [p])[i].Repr() <= objects + p.Repr()
  {
  }

  /** Piece p is valid, has number i, and reads as v. */
  ghost predicate IsPiece(p: Piece, i: int, v: PieceView)
    reads p.Repr()
  {
    p.Valid() && p.index == i && p.View() == v
  }

  // ----- the pieces a split makes -----

  /** Piece i of the split: [i * pieceSize, (i + 1) * pieceSize), cut off at the end of the file. */
  function PieceAt(fileSize: nat, pieceSize: nat, i: nat): (v: PieceView)
    requires pieceSize > 0 && Product(i, pieceSize) < fileSize
  {
    var start := Product(i, pieceSize);
    Fresh(start, if start + pieceSize > fileSize then fileSize - start else pieceSize)
  }

  function Layout(fileSize: nat, pieceSize: nat): (views: seq<PieceView>)
    requires pieceSize > 0
    ensures |views| == PieceCount(fileSize, pieceSize)
  {
    CountBounds(fileSize, pieceSize);
    seq(PieceCount(fileSize, pieceSize), i requires 0 <= i < PieceCount(fileSize, pieceSize) => PieceAt(fileSize, pieceSize, i))
  }

  /** The pieces tile the file; all but the last have exactly the piece size, and the last is no longer. */
  lemma LayoutTiles(fileSize: nat, pieceSize: nat)
    requires fileSize > 0 && pieceSize > 0
    ensures var views := Layout(fileSize, pieceSize);
            && |views| > 0 && Tiles(views, fileSize)
            && (forall i :: 0 <= i < |views| - 1 ==> views[i].length == pieceSize)
            && views[|views| - 1].length <= pieceSize
  {
    CountBounds(fileSize, pieceSize);
    var views := Layout(fileSize, pieceSize);
    var last := |views| - 1;
    forall i | 0 <= i < last
      ensures views[i].length == pieceSize && views[i + 1].start == views[i].start + pieceSize
    {
      ProductStep(i, pieceSize);
    }
    ProductStep(last, pieceSize);
    forall i | 0 < i < |views|
      ensures views[i].start == views[i - 1].start + views[i - 1].length
    {
      assert views[i - 1 + 1].start == views[i - 1].start + pieceSize;
    }
  }

  lemma ProductStep(i: nat, m: nat)
    ensures Product(i + 1, m) == Product(i, m) + m
  {
  }

  /** The first |pieces| pieces of the split, on objects of their own. */
  ghost predicate Cut(pieces: seq<Piece>, fileSize: nat, pieceSize: nat, objects: set<object>)
    requires pieceSize > 0 && |pieces| <= PieceCount(fileSize, pieceSize)
    requires forall k :: 0 <= k < |pieces| ==> pieces[k].Repr() <= objects
    reads objects
  {
    Separate(pieces) && forall k :: 0 <= k < |pieces| ==> IsPiece(pieces[k], k, Layout(fileSize, pieceSize)[k])
  }

  method CutPieces(fileSize: nat, pieceSize: nat, numPieces: nat) returns (pieces: seq<Piece>)
    requires fileSize > 0 && pieceSize > 0 && numPieces == PieceCount(fileSize, pieceSize)
    ensures |pieces| == numPieces && Separate(pieces)
    ensures forall i :: 0 <= i < |pieces| ==>
              IsPiece(pieces[i], i, Layout(fileSize, pieceSize)[i]) && fresh(pieces[i].Repr())
  {
    CountBounds(fileSize, pieceSize);
    pieces := [];
    ghost var objects: set<object> := {};
    var i := 0;
    while i < numPieces
      invariant 0 <= i <= numPieces && |pieces| == i
      invariant forall k :: 0 <= k < i ==> pieces[k].Repr() <= objects
      invariant fresh(objects) && Cut(pieces, fileSize, pieceSize, objects)
    {
      pieces, objects := AddPiece(pieces, fileSize, pieceSize, objects);
      i := i + 1;
    }
  }

  /** One round of the loop. */
  method AddPiece(before: seq<Piece>, fileSize: nat, pieceSize: nat, ghost objects0: set<object>)
      returns (pieces: seq<Piece>, ghost objects: set<object>)
    requires pieceSize > 0 && |before| < PieceCount(fileSize, pieceSize) && Product(|before|, pieceSize) < fileSize
    requires forall k :: 0 <= k < |before| ==> before[k].Repr() <= objects0
    requires Cut(before, fileSize, pieceSize, objects0)
    ensures |pieces| == |before| + 1 && forall k :: 0 <= k < |pieces| ==> pieces[k].Repr() <= objects
    ensures Cut(pieces, fileSize, pieceSize, objects) && fresh(objects - objects0)
  {
    var start := Product(|before|, pieceSize);
    var length := pieceSize;
    if start + length > fileSize {
      length := fileSize - start;
    }
    var p := new Piece(|before|, start, length, DEFAULT_BLOCK_LENGTH);
    SeparateAppend(before, objects0, p);
    pieces, objects := before + [p], objects0 + p.Repr();
  }

  /** The split. An empty (or unknown) size gives one empty piece. */
  method SplitFileIntoPieces(fileSize: int, cfg: Config) returns (pieces: seq<Piece>, ghost views: seq<PieceView>)
    requires !DividesByZero(fileSize, cfg)
    ensures |views| == |pieces| && Separate(pieces)
    ensures forall i :: 0 <= i < |pieces| ==> IsPiece(pieces[i], i, views[i]) && fresh(pieces[i].Repr())
    ensures fileSize <= 0 ==> views == [Fresh(0, 0)]
    ensures fileSize > 0 ==>
              && views == Layout(fileSize, PieceSize(fileSize, cfg))
              && Tiles(views, fileSize)
              && (forall i :: 0 <= i < |pieces| - 1 ==> pieces[i].length == PieceSize(fileSize, cfg))
              && 0 < pieces[|pieces| - 1].length <= PieceSize(fileSize, cfg)
  {
    if fileSize <= 0 {
      var p := new Piece(0, 0, 0, DEFAULT_BLOCK_LENGTH);
      return [p], [Fresh(0, 0)];
    }
    var pieceSize := cfg.defaultChunk;
    if pieceSize < cfg.minChunk {
      pieceSize := cfg.minChunk;
    }
    if pieceSize > cfg.maxChunk {
      pieceSize := cfg.maxChunk;
    }
    var numPieces := PieceCount(fileSize, pieceSize);
    if cfg.maxConnections > 0 && numPieces < cfg.maxConnections && pieceSize > cfg.minChunk {
      var adjustedSize := fileSize / cfg.maxConnections;
      if adjustedSize >= cfg.minChunk {
        pieceSize := adjustedSize;
        numPieces := PieceCount(fileSize, pieceSize);
      }
    }
    pieces := CutPieces(fileSize, pieceSize, numPieces);
    views := Layout(fileSize, pieceSize);
    LayoutTiles(fileSize, pieceSize);
    assert forall i :: 0 <= i < |pieces| ==> pieces[i].View() == views[i];
  }
}
