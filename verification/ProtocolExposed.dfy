/** Which configurations let a response to a stolen range end inside a block that is still missing? */
module ProtocolExposed {
  import opened Arithmetic
  import opened Blocks
  import opened Pieces
  import opened Protocol
  import opened ProtocolSafety
  import opened ProtocolThief
  import opened ProtocolEof

  // ----- one piece -----

  /** How many blocks must be missing before a theft is tried: at least as many as hold the bytes of the smallest theft. */
  function LeastMissing(v: PieceView, minSteal: int): (m: nat)
    requires v.blockLength > 0
    ensures 1 <= m <= v.N()
  {
    var needed := if minSteal <= 0 then 1 else BlockCount(minSteal, v.blockLength);
    if needed < v.N() then needed else v.N()
  }

  /** The piece is long enough for a theft even when only so many blocks are missing, the first ones, of which the theft
      takes the second half. */
  predicate Stealable(v: PieceView, minSteal: int)
    requires v.blockLength > 0
  {
    v.length >= 2 && v.length >= minSteal && v.length - LeastMissing(v, minSteal) / 2 * v.blockLength >= minSteal
  }

  /** Missing bytes fit into the missing blocks. */
  lemma {:induction false} BytesAtMost(blocks: set<nat>, n: nat, blockLength: nat, total: nat, k: nat)
    requires blockLength > 0
    ensures BytesIn(blocks, n, blockLength, total, k) <= |blocks * AllBlocks(k)| * blockLength
    decreases k
  {
    if k > 0 {
      BytesAtMost(blocks, n, blockLength, total, k - 1);
      OneMoreBlock(blocks, k - 1);
      MulStep(|blocks * AllBlocks(k - 1)|, blockLength);
    }
  }

  lemma OneMoreBlock(blocks: set<nat>, k: nat)
    ensures |blocks * AllBlocks(k + 1)| == |blocks * AllBlocks(k)| + if k in blocks then 1 else 0
  {
    if k in blocks {
      assert blocks * AllBlocks(k + 1) == blocks * AllBlocks(k) + {k};
    } else {
      assert blocks * AllBlocks(k + 1) == blocks * AllBlocks(k);
    }
  }

  lemma {:induction false} FirstBytes(m: nat, n: nat, blockLength: nat, total: nat, k: nat)
    requires blockLength > 0 && m <= n
    ensures BytesIn(AllBlocks(m), n, blockLength, total, k)
            == BytesIn(AllBlocks(n), n, blockLength, total, if k < m then k else if m < n then m else k)
    decreases k
  {
    if k > 0 {
      FirstBytes(m, n, blockLength, total, k - 1);
    }
  }

  /** Blocks that miss enough bytes are at least so many. */
  lemma EnoughMissing(v: PieceView, minSteal: int, missing: nat)
    requires v.blockLength > 0 && missing >= 1 && minSteal <= missing * v.blockLength
    ensures LeastMissing(v, minSteal) <= missing
  {
    if minSteal > 0 {
      var idx := BlockCount(minSteal, v.blockLength) - 1;
      BlockRange(minSteal, v.blockLength, idx);
      if missing <= idx {
        MulMonotone(missing, idx, v.blockLength);
      }
    }
  }

  /** A piece from which some theft takes anything is long enough. */
  lemma TheftNeeds(v: PieceView, minSteal: int)
    requires v.WF() && v.length >= 2 && v.Steal(minSteal).Range?
    ensures Stealable(v, minSteal)
  {
    var n := v.N();
    var missing := AllBlocks(n) - v.done;
    StealSucceedsIff(v, minSteal);
    CompletedBytes(v.done, v.length, v.blockLength);
    BytesAtMost(missing, n, v.blockLength, v.length, n);
    assert missing * AllBlocks(n) == missing;
    MissingSome(v);
    EnoughMissing(v, minSteal, |missing|);
    MulMonotone(LeastMissing(v, minSteal) / 2, v.StealStart(), v.blockLength);
  }

  lemma MissingSome(v: PieceView)
    requires v.WF() && !v.Full()
    ensures |AllBlocks(v.N()) - v.done| >= 1 && v.StealStart() >= |AllBlocks(v.N()) - v.done| / 2
  {
    var missing := AllBlocks(v.N()) - v.done;
    assert AllBlocks(v.N()) == v.done + missing;
    StealStartBounds(v);
  }

  /** The first blocks that must be missing hold enough bytes. */
  lemma FirstAreEnough(v: PieceView, minSteal: int)
    requires v.blockLength > 0 && v.length > 0 && v.length >= minSteal
    ensures var m, n := LeastMissing(v, minSteal), v.N();
            BytesIn(AllBlocks(m), n, v.blockLength, v.length, n) >= minSteal
  {
    var m, n := LeastMissing(v, minSteal), v.N();
    FirstBytes(m, n, v.blockLength, v.length, n);
    FirstBlocks(v.length, v.blockLength, m);
    if m < n {
      if minSteal > 0 {
        EnoughBlocks(minSteal, v.blockLength);
      } else {
        MulMonotone(0, m, v.blockLength);
      }
    }
  }

  lemma EnoughBlocks(length: nat, blockLength: nat)
    requires blockLength > 0 && length > 0
    ensures BlockCount(length, blockLength) * blockLength >= length
  {
    var idx := BlockCount(length, blockLength) - 1;
    BlockRange(length, blockLength, idx);
    MulStep(idx, blockLength);
  }

  /** The block in the middle of the first ones has two bytes or more. */
  lemma MiddleIsLong(v: PieceView, minSteal: int)
    requires v.blockLength >= 2 && Stealable(v, minSteal)
    ensures var half := LeastMissing(v, minSteal) / 2;
            half < LeastMissing(v, minSteal) && v.BlockStart(half) + 2 <= v.BlockEnd(half)
  {
    var m, n := LeastMissing(v, minSteal), v.N();
    BlockRange(v.length, v.blockLength, m / 2);
    MulStep(m / 2, v.blockLength);
    if m == n && n >= 2 {
      AllMissingIsOne(v, minSteal);
    }
  }

  /** When all blocks must be missing there is only one. */
  lemma AllMissingIsOne(v: PieceView, minSteal: int)
    requires v.blockLength > 0 && Stealable(v, minSteal) && LeastMissing(v, minSteal) == v.N()
    ensures v.N() == 1
  {
    var n, bl := v.N(), v.blockLength;
    if n >= 2 {
      var idx := BlockCount(minSteal, bl) - 1;
      BlockRange(minSteal, bl, idx);
      MulMonotone(n - 1, idx, bl);
      EnoughBlocks(v.length, bl);
      MulMonotone(1, n / 2, bl);
      MulStep(n - 1, bl);
    }
  }

  /** The theft from a piece of which only the first blocks are missing. */
  lemma TheftOfFirst(v: PieceView, minSteal: int)
    requires v.blockLength > 0 && v.length > 0 && Stealable(v, minSteal)
    ensures var m, n := LeastMissing(v, minSteal), v.N();
            var u := v.(done := AllBlocks(n) - AllBlocks(m), inUse := {});
            u.Steal(minSteal) == Range(v.BlockStart(m / 2), v.length - m / 2 * v.blockLength)
  {
    var m, n := LeastMissing(v, minSteal), v.N();
    FirstAreEnough(v, minSteal);
    TheftFromView(v, v.(done := AllBlocks(n) - AllBlocks(m), inUse := {}), minSteal, n, m);
  }

  lemma TheftFromView(v: PieceView, u: PieceView, minSteal: int, n: nat, m: nat)
    requires v.blockLength > 0 && v.length > 0 && n == v.N() && 1 <= m <= n
    requires u == v.(done := AllBlocks(n) - AllBlocks(m), inUse := {})
    requires BytesIn(AllBlocks(m), n, v.blockLength, v.length, n) >= minSteal
    requires v.length - m / 2 * v.blockLength >= minSteal
    ensures u.Steal(minSteal) == Range(v.BlockStart(m / 2), v.length - m / 2 * v.blockLength)
  {
    TheftWithout(u, minSteal, n, m);
  }

  lemma TheftWithout(u: PieceView, minSteal: int, n: nat, m: nat)
    requires u.blockLength > 0 && u.length > 0 && n == u.N() && 1 <= m <= n && u.done == AllBlocks(n) - AllBlocks(m)
    requires BytesIn(AllBlocks(m), n, u.blockLength, u.length, n) >= minSteal
    requires u.length - m / 2 * u.blockLength >= minSteal
    ensures u.Steal(minSteal) == Range(u.BlockStart(m / 2), u.length - m / 2 * u.blockLength)
  {
    FirstMissing(u, n, m);
    EnoughIsMissing(u, minSteal, n, m);
    TheTail(u, minSteal, n, m / 2);
  }

  lemma TheTail(u: PieceView, minSteal: int, n: nat, h: nat)
    requires u.blockLength > 0 && u.length > 0 && n == u.N() && h < n && FirstFree(u.done, {}, n, 0) == 0 && u.StealStart() == h
    requires u.length - u.CompletedLength() >= minSteal && u.length - h * u.blockLength >= minSteal
    ensures u.Steal(minSteal) == Range(u.BlockStart(h), u.length - h * u.blockLength)
  {
    assert u.StealAttempted(minSteal);
    BlockRange(u.length, u.blockLength, h);
  }

  /** Exactly the first m blocks are missing. */
  lemma FirstMissing(u: PieceView, n: nat, m: nat)
    requires u.blockLength > 0 && n == u.N() && 1 <= m <= n && u.done == AllBlocks(n) - AllBlocks(m)
    ensures AllBlocks(n) - u.done == AllBlocks(m) && FirstFree(u.done, {}, n, 0) == 0 && u.StealStart() == m / 2
  {
    assert AllBlocks(n) - u.done == AllBlocks(m);
    assert 0 in AllBlocks(n) && 0 !in u.done;
    AllBlocksSize(m);
    FirstIsFree(u);
  }

  lemma EnoughIsMissing(u: PieceView, minSteal: int, n: nat, m: nat)
    requires u.blockLength > 0 && u.length > 0 && n == u.N() && u.done <= AllBlocks(n) && AllBlocks(n) - u.done == AllBlocks(m)
    requires BytesIn(AllBlocks(m), n, u.blockLength, u.length, n) >= minSteal
    ensures u.length - u.CompletedLength() >= minSteal
  {
    CompletedBytes(u.done, u.length, u.blockLength);
  }

  lemma FirstIsFree(u: PieceView)
    requires u.blockLength > 0 && 0 !in u.done
    ensures FirstFree(u.done, {}, u.N(), 0) == 0
  {
  }

  /** The shortest piece a theft can take anything from: what is left after half of the blocks that hold the smallest
      theft is still as long as that. */
  function ShortestVictim(minSteal: int, blockLength: nat): (r: nat)
    requires blockLength > 0
  {
    var needed := if minSteal <= 0 then 1 else BlockCount(minSteal, blockLength);
    var r := minSteal + needed / 2 * blockLength;
    if r < 2 then 2 else r
  }

  lemma StealableIff(v: PieceView, minSteal: int)
    requires v.blockLength > 0 && v.length > 0
    ensures Stealable(v, minSteal) <==> v.length >= ShortestVictim(minSteal, v.blockLength)
  {
    var needed := if minSteal <= 0 then 1 else BlockCount(minSteal, v.blockLength);
    if needed > v.N() {
      TooShort(v, minSteal);
    }
    MulMonotone(0, LeastMissing(v, minSteal) / 2, v.blockLength);
    MulMonotone(0, needed / 2, v.blockLength);
  }

  lemma TooShort(v: PieceView, minSteal: int)
    requires v.blockLength > 0 && v.length > 0 && minSteal > 0 && BlockCount(minSteal, v.blockLength) > v.N()
    ensures v.length < minSteal
  {
    EnoughBlocks(v.length, v.blockLength);
    BlockRange(minSteal, v.blockLength, v.N());
  }

  // ----- one configuration -----

  /** No theft takes a missing block inside which its response could end. */
  ghost predicate NothingExposed(c: Config)
    requires ConfigOk(c)
  {
    forall p: nat, start: nat, stop: nat, cur: nat ::
      StolenFrom(c, p, start, stop) && start <= cur <= stop && Exposed(c, p, start, stop, cur) ==>
        AtBoundary(c, p, stop, cur)
  }

  /** There are two workers, and one of the pieces handed out is long enough for a theft. */
  ghost predicate TheftsPossible(c: Config)
  {
    && c.workers >= 2
    && exists p :: 0 <= p < |c.layout| && Handed(c, p) && c.layout[p].length >= ShortestVictim(c.minSteal, DEFAULT_BLOCK_LENGTH)
  }

  lemma ExposedNeeds(c: Config, p: nat, start: nat, stop: nat, cur: nat)
    requires ConfigOk(c) && StolenFrom(c, p, start, stop) && start <= cur <= stop
    requires Exposed(c, p, start, stop, cur) && !AtBoundary(c, p, stop, cur)
    ensures TheftsPossible(c)
  {
    var v := c.layout[p];
    GeometryFacts(c, p);
    InsideRange(c, p, start, stop, cur);
    var got :| Yields(c, p, got, start, stop) && v.IndexOf(cur - 1) !in got;
    TheftNeeds(v.(done := got), c.minSteal);
    SameNeed(v, got, c.minSteal);
    StealableIff(v, c.minSteal);
  }

  lemma SameNeed(v: PieceView, got: set<nat>, minSteal: int)
    requires v.blockLength > 0
    ensures Stealable(v.(done := got), minSteal) <==> Stealable(v, minSteal)
  {
  }

  /** The end of the response: one byte into the first block of the range. */
  lemma PossibleExposes(c: Config, p: nat) returns (start: nat, stop: nat, cur: nat)
    requires ConfigOk(c) && c.workers >= 2 && p < |c.layout| && Handed(c, p)
    requires c.layout[p].blockLength > 0 && Stealable(c.layout[p], c.minSteal)
    ensures StolenFrom(c, p, start, stop) && start <= cur <= stop
    ensures Exposed(c, p, start, stop, cur) && !AtBoundary(c, p, stop, cur)
  {
    var v := c.layout[p];
    GeometryFacts(c, p);
    var m := LeastMissing(v, c.minSteal);
    MiddleIsLong(v, c.minSteal);
    FirstYield(c, p);
    start, stop, cur := EndInside(c, p, m, m / 2);
  }

  lemma EndInside(c: Config, p: nat, m: nat, b: nat) returns (start: nat, stop: nat, cur: nat)
    requires ConfigOk(c) && c.workers >= 2 && p < |c.layout| && Handed(c, p) && c.layout[p].blockLength > 0
    requires b < m <= c.layout[p].N() && c.layout[p].BlockStart(b) + 2 <= c.layout[p].BlockEnd(b)
    requires Yields(c, p, AllBlocks(c.layout[p].N()) - AllBlocks(m), c.layout[p].BlockStart(b),
                    c.layout[p].start + c.layout[p].length)
    ensures StolenFrom(c, p, start, stop) && start <= cur <= stop
    ensures Exposed(c, p, start, stop, cur) && !AtBoundary(c, p, stop, cur)
  {
    start, stop := c.layout[p].BlockStart(b), c.layout[p].start + c.layout[p].length;
    cur := start + 1;
    TailIsRange(c, p, b);
    InsideBlock(c, p, b, cur);
    ExposedAt(c, p, AllBlocks(c.layout[p].N()) - AllBlocks(m), start, stop, cur, b);
  }

  lemma ExposedAt(c: Config, p: nat, got: set<nat>, start: nat, stop: nat, cur: nat, b: nat)
    requires p < |c.layout| && c.layout[p].blockLength > 0 && c.workers >= 2 && Handed(c, p)
    requires Yields(c, p, got, start, stop) && c.layout[p].IndexOf(cur - 1) == b && b !in got
    ensures Exposed(c, p, start, stop, cur)
  {
  }

  lemma TailIsRange(c: Config, p: nat, b: nat)
    requires ConfigOk(c) && p < |c.layout| && c.layout[p].blockLength > 0 && b < c.layout[p].N()
    ensures StolenFrom(c, p, c.layout[p].BlockStart(b), c.layout[p].start + c.layout[p].length)
  {
    GeometryFacts(c, p);
    BlockBounds(c.layout[p], b);
    IndexOfBlockStart(c.layout[p], b);
  }

  lemma FirstYield(c: Config, p: nat)
    requires ConfigOk(c) && p < |c.layout| && c.layout[p].blockLength > 0 && Stealable(c.layout[p], c.minSteal)
    ensures var v := c.layout[p];
            var m := LeastMissing(v, c.minSteal);
            var start, stop := v.BlockStart(m / 2), v.start + v.length;
            start <= stop && Yields(c, p, AllBlocks(v.N()) - AllBlocks(m), start, stop)
  {
    var v := c.layout[p];
    GeometryFacts(c, p);
    TheftOfFirst(v, c.minSteal);
    BlockBounds(v, LeastMissing(v, c.minSteal) / 2);
  }

  lemma InsideBlock(c: Config, p: nat, b: nat, cur: nat)
    requires ConfigOk(c) && p < |c.layout| && c.layout[p].blockLength > 0 && b < c.layout[p].N()
    requires cur == c.layout[p].BlockStart(b) + 1 < c.layout[p].BlockEnd(b)
    ensures c.layout[p].IndexOf(cur - 1) == b
    ensures cur < c.layout[p].start + c.layout[p].length && !AtBoundary(c, p, c.layout[p].start + c.layout[p].length, cur)
  {
    GeometryFacts(c, p);
    BlockBounds(c.layout[p], b);
    IndexOfBlockStart(c.layout[p], b);
    TailIsRange(c, p, b);
    BoundaryEndsBlock(c, p, cur - 1, c.layout[p].start + c.layout[p].length, cur);
  }

  /** Some theft can end inside a missing block exactly when there are two workers and a piece that is handed out is
      longer than the smallest theft by half of the blocks such a theft takes up, and has two bytes or more. */
  lemma ExposedIff(c: Config)
    requires ConfigOk(c)
    ensures !NothingExposed(c) <==> TheftsPossible(c)
  {
    if TheftsPossible(c) {
      var p :| 0 <= p < |c.layout| && Handed(c, p) && c.layout[p].length >= ShortestVictim(c.minSteal, DEFAULT_BLOCK_LENGTH);
      GeometryFacts(c, p);
      StealableIff(c.layout[p], c.minSteal);
      var start, stop, cur := PossibleExposes(c, p);
    }
    if !NothingExposed(c) {
      var p: nat, start: nat, stop: nat, cur: nat :|
        StolenFrom(c, p, start, stop) && start <= cur <= stop && Exposed(c, p, start, stop, cur) && !AtBoundary(c, p, stop, cur);
      ExposedNeeds(c, p, start, stop, cur);
    }
  }
}
