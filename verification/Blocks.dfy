/** Block arithmetic of one piece, over plain sets of block indices. */
module Blocks {
  import opened Arithmetic

  /** 256 KB, the size of every block but possibly a piece's last one. */
  const DEFAULT_BLOCK_LENGTH: nat := 256 * 1024

  /** How many blocks cover `length` bytes; an empty piece still gets one block. */
  function BlockCount(length: nat, blockLength: nat): (n: nat)
    requires blockLength > 0
  {
    var whole := length / blockLength;
    var n := if length % blockLength != 0 then whole + 1 else whole;
    if n == 0 then 1 else n
  }

  /** The length of block idx of n: the last block may be shorter. */
  function BlockLen(n: nat, blockLength: nat, total: nat, idx: int): (len: nat)
    requires blockLength > 0
    ensures 0 < len <= blockLength
  {
    if idx == n - 1 && total % blockLength != 0 then total % blockLength else blockLength
  }

  /** Bytes in the blocks of `blocks` below k. */
  function BytesIn(blocks: set<nat>, n: nat, blockLength: nat, total: nat, k: nat): nat
    requires blockLength > 0
  {
    if k == 0 then 0
    else BytesIn(blocks, n, blockLength, total, k - 1)
         + if k - 1 in blocks then BlockLen(n, blockLength, total, k - 1) else 0
  }

  /** All block indices below n. */
  function AllBlocks(n: nat): (s: set<nat>)
    ensures forall i: nat :: i in s <==> i < n
  {
    if n == 0 then {} else AllBlocks(n - 1) + {n - 1}
  }

  lemma AllBlocksSize(n: nat)
    ensures |AllBlocks(n)| == n
  {
    if n > 0 {
      AllBlocksSize(n - 1);
      assert AllBlocks(n) == AllBlocks(n - 1) + {n - 1};
    }
  }

  /** A set of indices below n has n elements exactly when it has every index. */
  lemma FullIffCount(s: set<nat>, n: nat)
    requires forall i :: i in s ==> i < n
    ensures |s| <= n
    ensures |s| == n <==> s == AllBlocks(n)
  {
    AllBlocksSize(n);
    var missing := AllBlocks(n) - s;
    assert AllBlocks(n) == s + missing;
    assert |AllBlocks(n)| == |s| + |missing|;
    if |s| == n {
      assert missing == {};
    }
  }

  lemma MissingStep(done: set<nat>, i: nat)
    ensures |AllBlocks(i + 1) - done| == |AllBlocks(i) - done| + if i in done then 0 else 1
  {
    if i in done {
      assert AllBlocks(i + 1) - done == AllBlocks(i) - done;
    } else {
      assert AllBlocks(i + 1) - done == (AllBlocks(i) - done) + {i};
    }
  }

  /** The first index from i on that lies in neither set, or -1. */
  function FirstFree(done: set<nat>, inUse: set<nat>, n: nat, i: nat): (r: int)
    requires i <= n
    ensures r == -1 <==> forall j :: i <= j < n ==> j in done || j in inUse
    ensures r != -1 ==> i <= r < n && r !in done && r !in inUse
    ensures r != -1 ==> forall j :: i <= j < r ==> j in done || j in inUse
    decreases n - i
  {
    if i == n then -1
    else if i !in done && i !in inUse then i
    else FirstFree(done, inUse, n, i + 1)
  }

  /** Block idx of a non-empty piece covers [idx * blockLength, min((idx + 1) * blockLength, length)). */
  lemma BlockRange(length: nat, blockLength: nat, idx: nat)
    requires blockLength > 0 && length > 0
    requires idx < BlockCount(length, blockLength)
    ensures idx * blockLength < length
    ensures idx * blockLength + BlockLen(BlockCount(length, blockLength), blockLength, length, idx)
            == if idx + 1 == BlockCount(length, blockLength) then length else (idx + 1) * blockLength
    ensures (idx + 1) * blockLength < length <==> idx + 1 < BlockCount(length, blockLength)
  {
    var whole, rest := length / blockLength, length % blockLength;
    assert length == whole * blockLength + rest;
    RangeOfBlock(whole, rest, blockLength, idx);
  }

  lemma RangeOfBlock(whole: nat, rest: nat, m: nat, idx: nat)
    requires rest < m && (idx < whole || (idx == whole && rest > 0))
    ensures idx * m < whole * m + rest && (idx + 1) * m == idx * m + m
    ensures (idx + 1) * m < whole * m + rest <==> idx + 1 < whole || (idx + 1 == whole && rest > 0)
    ensures idx + 1 == whole && rest == 0 ==> (idx + 1) * m == whole * m + rest
  {
    MulMonotone(idx, whole, m);
    if idx < whole {
      MulMonotone(idx + 1, whole, m);
      if idx + 1 < whole {
        MulMonotone(idx + 2, whole, m);
      }
    }
  }

  lemma {:induction false} FirstBlocks(length: nat, blockLength: nat, k: nat)
    requires blockLength > 0 && length > 0
    requires k <= BlockCount(length, blockLength)
    ensures BytesIn(AllBlocks(BlockCount(length, blockLength)), BlockCount(length, blockLength), blockLength, length, k)
            == if k == BlockCount(length, blockLength) then length else k * blockLength
  {
    if k > 0 {
      FirstBlocks(length, blockLength, k - 1);
      BlockRange(length, blockLength, k - 1);
    }
  }

  /** The block lengths of a piece add up to its length, exactly for the non-empty pieces. */
  lemma BlocksTilePiece(length: nat, blockLength: nat)
    requires blockLength > 0
    ensures var n := BlockCount(length, blockLength);
            BytesIn(AllBlocks(n), n, blockLength, length, n) == length <==> length > 0
  {
    var n := BlockCount(length, blockLength);
    if length > 0 {
      FirstBlocks(length, blockLength, n);
    } else {
      assert n == 1;
      assert BytesIn(AllBlocks(1), 1, blockLength, 0, 0) == 0;
      assert BytesIn(AllBlocks(1), 1, blockLength, 0, 1) == blockLength;
    }
  }

  /** Every byte of a block set is completed or missing, never both. */
  lemma {:induction false} DoneAndMissingBytes(done: set<nat>, n: nat, blockLength: nat, total: nat, k: nat)
    requires blockLength > 0 && k <= n
    ensures BytesIn(done, n, blockLength, total, k) + BytesIn(AllBlocks(n) - done, n, blockLength, total, k)
            == BytesIn(AllBlocks(n), n, blockLength, total, k)
    ensures BytesIn(AllBlocks(n) - done, n, blockLength, total, k) == 0 <==> AllBlocks(k) <= done
  {
    if k > 0 {
      DoneAndMissingBytes(done, n, blockLength, total, k - 1);
      assert k - 1 in AllBlocks(n);
      assert AllBlocks(k) == AllBlocks(k - 1) + {k - 1};
    }
  }

  /** For a non-empty piece: completed bytes never exceed the length, and reach it only with every block done. */
  lemma CompletedBytes(done: set<nat>, length: nat, blockLength: nat)
    requires blockLength > 0 && length > 0
    requires done <= AllBlocks(BlockCount(length, blockLength))
    ensures var n := BlockCount(length, blockLength);
            && BytesIn(done, n, blockLength, length, n) <= length
            && BytesIn(done, n, blockLength, length, n) + BytesIn(AllBlocks(n) - done, n, blockLength, length, n) == length
            && (BytesIn(done, n, blockLength, length, n) == length <==> done == AllBlocks(n))
  {
    var n := BlockCount(length, blockLength);
    BlocksTilePiece(length, blockLength);
    DoneAndMissingBytes(done, n, blockLength, length, n);
  }
}
