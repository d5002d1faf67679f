/** A piece of the file: what its operations do to its block sets, and the class that does it in place. */
module Pieces {
  import opened Arithmetic
  import opened Blocks
  import opened Collections
  import opened BitfieldManager

  datatype PieceStatus = Idle | Active | Complete

  /** A byte range of the file, or none (Go's -1, 0). */
  datatype Range = NoRange | Range(offset: int, length: int)

  /** How the two Go results read as a range. */
  function RangeOf(offset: int, length: int): Range {
    if offset < 0 then NoRange else Range(offset, length)
  }

  /** Everything a piece's lock protects, together with the piece's place in the file. */
  datatype PieceView = PieceView(start: nat, length: nat, blockLength: nat,
                                 done: set<nat>, inUse: set<nat>, status: PieceStatus, owner: int)
  {
    function N(): nat
      requires blockLength > 0
    {
      BlockCount(length, blockLength)
    }

    ghost predicate WF() {
      blockLength > 0 && done <= AllBlocks(N()) && inUse <= AllBlocks(N())
    }

    ghost predicate Full()
      requires blockLength > 0
    {
      done == AllBlocks(N())
    }

    function BlockStart(b: nat): nat {
      start + b * blockLength
    }

    function BlockEnd(b: nat): nat
      requires blockLength > 0
    {
      start + b * blockLength + BlockLen(N(), blockLength, length, b)
    }

    function CompletedLength(): nat
      requires blockLength > 0
    {
      BytesIn(done, N(), blockLength, length, N())
    }

    /** NextUnusedBlock: claim the first block nobody has or fetches. */
    function NextBlock(): int
      requires blockLength > 0
    {
      FirstFree(done, inUse, N(), 0)
    }

    function Claim(): PieceView
      requires blockLength > 0
    {
      if NextBlock() < 0 then this else this.(inUse := inUse + {NextBlock()})
    }

    function Cancel(b: int): PieceView {
      this.(inUse := inUse - {b})
    }

    function CompleteBlock(b: int): PieceView
      requires blockLength > 0
    {
      var done' := if 0 <= b < N() then done + {b} else done;
      this.(done := done', inUse := inUse - {b}, status := if done' == AllBlocks(N()) then Complete else status)
    }

    /** The block a file offset falls into, clamped to the last block. */
    function IndexOf(offset: int): int
      requires blockLength > 0
    {
      var idx := TruncDiv(offset - start, blockLength);
      if idx >= N() then N() - 1 else idx
    }

    /** Where a thief starts: half of the missing blocks after the first missing one. */
    function StealStart(): int
      requires blockLength > 0
    {
      FirstFree(done, {}, N(), 0) + |AllBlocks(N()) - done| / 2
    }

    /** A steal is attempted when enough bytes are missing; only then are use bits released. */
    function StealAttempted(minSize: int): bool
      requires blockLength > 0
    {
      length - CompletedLength() >= minSize && FirstFree(done, {}, N(), 0) >= 0
    }

    function Steal(minSize: int): Range
      requires blockLength > 0
    {
      if !StealAttempted(minSize) then NoRange else TailFrom(StealStart(), minSize)
    }

    /** The piece from block b to its end, when that is at least minSize bytes. */
    function TailFrom(b: int, minSize: int): Range {
      var len := length - b * blockLength;
      if len < 0 || len < minSize then NoRange else Range(start + b * blockLength, len)
    }

    function AfterSteal(minSize: int): PieceView
      requires blockLength > 0
    {
      if !StealAttempted(minSize) then this
      else this.(inUse := Released(done, inUse, StealStart(), N()))
    }
  }

  ghost predicate AllFull(views: seq<PieceView>)
    requires forall i :: 0 <= i < |views| ==> views[i].blockLength > 0
  {
    forall i :: 0 <= i < |views| ==> views[i].Full()
  }

  lemma AllFullStep(views: seq<PieceView>, i: nat)
    requires i < |views| && forall k :: 0 <= k < |views| ==> views[k].blockLength > 0
    ensures AllFull(views[..i + 1]) <==> AllFull(views[..i]) && views[i].Full()
    ensures !views[i].Full() ==> !AllFull(views)
  {
    assert views[..i + 1] == views[..i] + [views[i]];
  }

  /** The use bits left when the missing blocks in [from, to) are released. */
  function Released(done: set<nat>, inUse: set<nat>, from: int, to: int): set<nat> {
    set b | b in inUse && (b in done || !(from <= b < to))
  }

  lemma BlockBounds(v: PieceView, b: nat)
    requires v.blockLength > 0 && v.length > 0 && b < v.N()
    ensures v.start <= v.BlockStart(b) < v.BlockEnd(b) <= v.start + v.length
    ensures b + 1 < v.N() ==> v.BlockEnd(b) == v.BlockStart(b + 1)
    ensures b + 1 == v.N() ==> v.BlockEnd(b) == v.start + v.length
  {
    BlockRange(v.length, v.blockLength, b);
    MulMonotone(0, b, v.blockLength);
    if b + 1 < v.N() {
      BlockRange(v.length, v.blockLength, b + 1);
    }
  }

  /** BlockIndexForOffset finds the one block whose bytes contain the offset. */
  lemma IndexOfContains(v: PieceView, offset: int)
    requires v.blockLength > 0 && v.length > 0
    requires v.start <= offset < v.start + v.length
    ensures var b := v.IndexOf(offset); 0 <= b < v.N() && v.BlockStart(b) <= offset < v.BlockEnd(b)
  {
    var rel := offset - v.start;
    var q := rel / v.blockLength;
    assert rel == q * v.blockLength + rel % v.blockLength;
    if q >= v.N() {
      BlockRange(v.length, v.blockLength, v.N() - 1);
      MulMonotone(v.N(), q, v.blockLength);
      LastBlockReachesEnd(v.length, v.blockLength);
      assert false;
    }
    BlockRange(v.length, v.blockLength, q);
  }

  lemma LastBlockReachesEnd(length: nat, blockLength: nat)
    requires blockLength > 0
    ensures length <= BlockCount(length, blockLength) * blockLength
  {
    assert length == length / blockLength * blockLength + length % blockLength;
    MulMonotone(length / blockLength, BlockCount(length, blockLength), blockLength);
  }

  /** Different blocks of a piece never share a byte. */
  lemma BlocksDisjoint(v: PieceView, a: nat, b: nat)
    requires v.blockLength > 0 && v.length > 0 && a < b < v.N()
    ensures v.BlockEnd(a) <= v.BlockStart(b)
  {
    BlockBounds(v, a);
    MulMonotone(a + 1, b, v.blockLength);
  }

  /** An offset behind the piece counts as in its last block; one before it by whole blocks before the first. */
  lemma IndexOfOutside(v: PieceView, offset: int)
    requires v.blockLength > 0 && v.length > 0 && (offset < v.start || offset >= v.start + v.length)
    ensures offset >= v.start + v.length ==> v.IndexOf(offset) == v.N() - 1
    ensures offset < v.start ==>
              var k := -v.IndexOf(offset); k >= 0 && k * v.blockLength <= v.start - offset < (k + 1) * v.blockLength
  {
    if offset < v.start {
      IndexBefore(v, offset, v.start - offset);
    } else {
      IndexBehind(v, offset, offset - v.start);
    }
  }

  lemma IndexBefore(v: PieceView, offset: int, missing: nat)
    requires v.blockLength > 0 && missing > 0 && offset == v.start - missing
    ensures var k := -v.IndexOf(offset); k >= 0 && k * v.blockLength <= missing < (k + 1) * v.blockLength
  {
    QuotientBounds(missing, v.blockLength);
    TruncDivNegative(offset - v.start, v.blockLength);
    IndexNotPositive(v, offset);
  }

  lemma IndexNotPositive(v: PieceView, offset: int)
    requires v.blockLength > 0 && TruncDiv(offset - v.start, v.blockLength) <= 0
    ensures v.IndexOf(offset) == TruncDiv(offset - v.start, v.blockLength)
  {
  }

  lemma IndexBehind(v: PieceView, offset: int, rel: nat)
    requires v.blockLength > 0 && v.length > 0 && rel >= v.length && offset == v.start + rel
    ensures v.IndexOf(offset) == v.N() - 1
  {
    ManyBlocks(v, rel / v.blockLength, rel);
  }

  lemma ManyBlocks(v: PieceView, q: nat, rel: nat)
    requires v.blockLength > 0 && v.length > 0 && rel >= v.length && q == rel / v.blockLength
    ensures q >= v.N() - 1
  {
    QuotientBounds(rel, v.blockLength);
    BlockRange(v.length, v.blockLength, v.N() - 1);
    if q < v.N() - 1 {
      MulMonotone(q + 1, v.N() - 1, v.blockLength);
    }
  }

  lemma IndexOfBlockStart(v: PieceView, b: nat)
    requires v.blockLength > 0 && v.length > 0 && b < v.N()
    ensures v.IndexOf(v.BlockStart(b)) == b
  {
    BlockBounds(v, b);
    var i := v.IndexOf(v.BlockStart(b));
    IndexOfContains(v, v.BlockStart(b));
    if i < b {
      BlocksDisjoint(v, i, b);
    } else if b < i {
      BlocksDisjoint(v, b, i);
    }
  }

  /** The thief starts inside the piece, and leaves its victim at most half of the missing blocks. */
  lemma StealStartBounds(v: PieceView)
    requires v.WF() && !v.Full()
    ensures FirstFree(v.done, {}, v.N(), 0) >= 0
    ensures 0 <= v.StealStart() < v.N()
    ensures var missing := AllBlocks(v.N()) - v.done;
            |set b | b in missing && b < v.StealStart()| <= |missing| / 2
  {
    var missing := AllBlocks(v.N()) - v.done;
    var first := FirstFree(v.done, {}, v.N(), 0);
    assert AllBlocks(v.N()) == v.done + missing;
    assert missing != {};
    assert missing <= Span(first, v.N());
    SpanSize(first, v.N());
    SubsetSize(missing, Span(first, v.N()));
    var before := set b | b in missing && b < v.StealStart();
    assert before <= Span(first, v.StealStart());
    SpanSize(first, v.StealStart());
    SubsetSize(before, Span(first, v.StealStart()));
  }

  function Span(lo: nat, hi: nat): set<nat> {
    AllBlocks(hi) - AllBlocks(lo)
  }

  lemma SpanSize(lo: nat, hi: nat)
    requires lo <= hi
    ensures |Span(lo, hi)| == hi - lo
  {
    AllBlocksSize(lo);
    AllBlocksSize(hi);
    assert AllBlocks(hi) == AllBlocks(lo) + Span(lo, hi);
  }

  /** What a successful steal is: block-aligned, to the end of the piece, big enough, with no done bit
      touched, and with at least half (rounded up) of what was missing. */
  lemma StealIsFair(v: PieceView, minSize: int)
    requires v.WF() && v.length > 0
    requires v.Steal(minSize).Range?
    ensures var Range(offset, len) := v.Steal(minSize);
            && v.StealStart() < v.N() && offset == v.BlockStart(v.StealStart())
            && offset + len == v.start + v.length
            && len >= minSize && len > 0
    ensures var missing := AllBlocks(v.N()) - v.done;
            |set b | b in missing && b >= v.StealStart()| >= |missing| - |missing| / 2
    ensures v.AfterSteal(minSize).done == v.done
    ensures forall b :: b in AllBlocks(v.N()) - v.done && b >= v.StealStart() ==> b !in v.AfterSteal(minSize).inUse
    ensures forall b :: b in v.inUse && b < v.StealStart() ==> b in v.AfterSteal(minSize).inUse
  {
    var first := FirstFree(v.done, {}, v.N(), 0);
    assert first in AllBlocks(v.N()) && first !in v.done;
    StealStartBounds(v);
    BlockBounds(v, v.StealStart());
    var missing := AllBlocks(v.N()) - v.done;
    SplitAt(missing, v.StealStart());
  }

  lemma SplitAt(s: set<nat>, at: int)
    ensures |s| == |set b | b in s && b < at| + |set b | b in s && b >= at|
  {
    assert s == (set b | b in s && b < at) + (set b | b in s && b >= at);
  }

  /** A steal succeeds exactly when enough of the piece is missing and its tail is long enough; so the
      source's guard against a negative tail length never fires. */
  lemma StealSucceedsIff(v: PieceView, minSize: int)
    requires v.WF() && v.length > 0
    ensures v.Steal(minSize).Range? <==>
            && !v.Full()
            && v.length - v.CompletedLength() >= minSize
            && v.length - v.StealStart() * v.blockLength >= minSize
    ensures !v.Full() ==> v.length - v.StealStart() * v.blockLength > 0
  {
    if !v.Full() {
      StealStartBounds(v);
      BlockBounds(v, v.StealStart());
    }
  }

  /** What a thief's attempt does to the use bits, whether or not it gets a range: the missing blocks from where it starts
      are released, if as many bytes are missing as it wants; nothing else of the piece changes. */
  lemma StealReleases(v: PieceView, minSize: int)
    requires v.WF() && v.length > 0
    ensures var after := v.AfterSteal(minSize);
            && after == v.(inUse := after.inUse)
            && forall b :: b in after.inUse <==>
                 && b in v.inUse
                 && (v.Full() || v.length - v.CompletedLength() < minSize || b in v.done || b < v.StealStart())
  {
    if !v.Full() {
      StealStartBounds(v);
    }
  }

  /** When the missing blocks follow each other, the thief leaves exactly half of them, rounded down. */
  lemma StealHalves(v: PieceView, lo: nat, hi: nat)
    requires v.WF() && lo < hi <= v.N() && AllBlocks(v.N()) - v.done == Span(lo, hi)
    ensures |set b | b in Span(lo, hi) && b < v.StealStart()| == (hi - lo) / 2
  {
    FirstOfSpan(v.done, v.N(), lo, hi);
    SpanSize(lo, hi);
    SpanBelow(lo, hi, v.StealStart());
  }

  lemma SpanBelow(lo: nat, hi: nat, at: nat)
    requires lo <= at <= hi
    ensures |set b | b in Span(lo, hi) && b < at| == at - lo
  {
    SpanSize(lo, at);
    assert (set b | b in Span(lo, hi) && b < at) == Span(lo, at);
  }

  lemma FirstOfSpan(done: set<nat>, n: nat, lo: nat, hi: nat)
    requires lo < hi <= n && AllBlocks(n) - done == Span(lo, hi)
    ensures FirstFree(done, {}, n, 0) == lo
  {
    var first := FirstFree(done, {}, n, 0);
    assert lo in Span(lo, hi);
    assert first >= 0 && first in Span(lo, hi);
  }

  class Piece {
    const index: int
    const start: nat
    const length: nat
    const blocks: BitfieldMan
    var status: PieceStatus
    var ownerCUID: int

    ghost function Repr(): set<object> {
      {this} + blocks.Repr()
    }

    ghost predicate Shaped() {
      && blocks.blockLength > 0
      && blocks.totalLength == length
      && blocks.numBlocks == BlockCount(length, blocks.blockLength)
    }

    ghost predicate Valid()
      reads Repr()
    {
      Shaped() && blocks.Valid()
    }

    ghost function View(): PieceView
      reads this, blocks
    {
      PieceView(start, length, blocks.blockLength, blocks.Done, blocks.InUse, status, ownerCUID)
    }

    constructor (index: int, start: nat, length: nat, blockLength: nat)
      requires blockLength > 0
      ensures Valid() && fresh(Repr())
      ensures this.index == index
      ensures View() == PieceView(start, length, blockLength, {}, {}, Idle, 0)
    {
      var numBlocks := length / blockLength;
      if length % blockLength != 0 {
        numBlocks := numBlocks + 1;
      }
      if numBlocks == 0 {
        numBlocks := 1;
      }
      this.index := index;
      this.start := start;
      this.length := length;
      status := Idle;
      ownerCUID := 0;
      var b := new BitfieldMan(numBlocks, blockLength, length);
      blocks := b;
    }

    method NextUnusedBlock() returns (offset: int, len: nat)
      requires Valid()
      modifies blocks`InUse, blocks.useBitfield
      ensures Valid()
      ensures View() == old(View()).Claim()
      ensures var b := old(View()).NextBlock();
              if b < 0 then offset == -1 && len == 0
              else offset == View().BlockStart(b) && offset + len == View().BlockEnd(b)
    {
      var idx := blocks.FirstMissingUnusedIndex();
      if idx < 0 {
        return -1, 0;
      }
      blocks.SetUseBit(idx);
      len := blocks.BlockLength(idx);
      offset := start + idx * blocks.blockLength;
    }

    method CompleteBlock(blockIndex: int)
      requires Valid()
      modifies this`status, blocks, blocks.bitfield, blocks.useBitfield
      ensures Valid()
      ensures View() == old(View()).CompleteBlock(blockIndex)
    {
      blocks.SetBit(blockIndex);
      blocks.UnsetUseBit(blockIndex);
      var all := blocks.IsAllBitSet();
      if all {
        status := Complete;
      }
    }

    method CancelBlock(blockIndex: int)
      requires Valid()
      modifies blocks`InUse, blocks.useBitfield
      ensures Valid()
      ensures View() == old(View()).Cancel(blockIndex)
    {
      blocks.UnsetUseBit(blockIndex);
    }

    method IsComplete() returns (r: bool)
      requires Valid()
      ensures r <==> View().Full()
    {
      r := blocks.IsAllBitSet();
    }

    method CompletedLength() returns (r: nat)
      requires Valid()
      ensures r == View().CompletedLength()
    {
      r := blocks.CompletedLength();
    }

    method RemainingLength() returns (r: int)
      requires Valid()
      ensures r == length - View().CompletedLength()
    {
      var completed := CompletedLength();
      r := length - completed;
    }

    /** The thief's release loop: frees the use bit of every missing block from `from` on. */
    method ReleaseMissing(from: nat)
      requires Valid()
      modifies blocks`InUse, blocks.useBitfield
      ensures Valid()
      ensures View() == old(View()).(inUse := Released(View().done, old(View()).inUse, from, View().N()))
    {
      ghost var inUse := blocks.InUse;
      var i := from;
      while i < blocks.numBlocks
        invariant Valid()
        invariant blocks.InUse == Released(blocks.Done, inUse, from, i)
        decreases blocks.numBlocks - i
      {
        var done := blocks.IsBitSet(i);
        if !done {
          blocks.UnsetUseBit(i);
        }
        i := i + 1;
      }
    }

    /** The bytes from block b to the end of the piece, or -1, 0 when they are fewer than minSize. */
    method TailRange(b: nat, minSize: int) returns (offset: int, len: int)
      requires Valid()
      ensures RangeOf(offset, len) == View().TailFrom(b, minSize)
      ensures offset >= 0 ==> len >= minSize
    {
      var skipped := b * blocks.blockLength;
      MulMonotone(0, b, blocks.blockLength);
      offset := start + skipped;
      len := length - skipped;
      if len < 0 || len < minSize {
        offset, len := -1, 0;
      }
    }

    method StealableRange(minSize: int) returns (offset: int, len: int)
      requires Valid()
      modifies blocks`InUse, blocks.useBitfield
      ensures Valid()
      ensures View() == old(View()).AfterSteal(minSize)
      ensures RangeOf(offset, len) == old(View()).Steal(minSize)
      ensures offset >= 0 ==> len >= minSize
    {
      var stealStartBlock := StealStartBlock(minSize);
      if stealStartBlock >= 0 {
        ReleaseMissing(stealStartBlock);
        offset, len := TailRange(stealStartBlock, minSize);
      } else {
        offset, len := -1, 0;
      }
    }

    /** The block to steal from, or -1 when too little is missing. */
    method StealStartBlock(minSize: int) returns (b: int)
      requires Valid()
      ensures b == if View().StealAttempted(minSize) then View().StealStart() else -1
      ensures View().StealAttempted(minSize) ==> b >= 0
    {
      var remaining := blocks.RemainingLength();
      if remaining < minSize {
        return -1;
      }
      var firstMissing := blocks.FirstMissingIndex();
      if firstMissing < 0 {
        return -1;
      }
      var missing := blocks.CountMissing();
      b := firstMissing + missing / 2;
      if b <= firstMissing {
        b := firstMissing;
      }
    }

    method BlockIndexForOffset(offset: int) returns (idx: int)
      requires Valid()
      ensures idx == View().IndexOf(offset)
    {
      var relOffset := offset - start;
      idx := TruncDiv(relOffset, blocks.blockLength);
      if idx >= blocks.numBlocks {
        idx := blocks.numBlocks - 1;
      }
    }
  }
}
