/** The block bitmaps of one piece, byte-packed and updated in place. */
module BitfieldManager {
  import opened Bits
  import opened Blocks

  class BitfieldMan {
    const numBlocks: nat
    const blockLength: nat
    const totalLength: nat
    const bitfield: array<byte>     // done bits
    const useBitfield: array<byte>  // bits of blocks some worker is fetching
    var completedCount: int

    ghost var Done: set<nat>        // what `bitfield` says, as a set of block indices
    ghost var InUse: set<nat>       // likewise `useBitfield`

    /** The objects the bitmaps live in; fixed for the life of the manager. */
    ghost function Repr(): set<object> {
      {this, bitfield, useBitfield}
    }

    ghost predicate Valid()
      reads Repr()
    {
      && blockLength > 0
      && bitfield.Length == useBitfield.Length == ByteCount(numBlocks)
      && bitfield != useBitfield
      && Done == Members(bitfield[..], numBlocks)
      && InUse == Members(useBitfield[..], numBlocks)
      && completedCount == |Done|
    }

    constructor (numBlocks: nat, blockLength: nat, totalLength: nat)
      requires blockLength > 0
      ensures Valid() && fresh(Repr())
      ensures this.numBlocks == numBlocks && this.blockLength == blockLength && this.totalLength == totalLength
      ensures Done == {} && InUse == {}
    {
      this.numBlocks := numBlocks;
      this.blockLength := blockLength;
      this.totalLength := totalLength;
      bitfield := new byte[ByteCount(numBlocks)](_ => 0);
      useBitfield := new byte[ByteCount(numBlocks)](_ => 0);
      completedCount := 0;
      Done, InUse := {}, {};
      new;
      ZeroBytesHaveNoMembers(bitfield[..], numBlocks);
      ZeroBytesHaveNoMembers(useBitfield[..], numBlocks);
    }

    /** Marks block idx done; an index outside the piece is ignored. */
    method SetBit(idx: int)
      requires Valid()
      modifies this`completedCount, this`Done, bitfield
      ensures Valid()
      ensures Done == if 0 <= idx < numBlocks then old(Done) + {idx} else old(Done)
    {
      if idx < 0 || idx >= numBlocks {
        return;
      }
      ghost var before := bitfield[..];
      UpdateSetsMember(before, numBlocks, idx);
      if !Bit(bitfield[idx / 8], idx % 8) {
        completedCount := completedCount + 1;
      }
      bitfield[idx / 8] := WithBit(bitfield[idx / 8], idx % 8);
      Done := Done + {idx};
      assert bitfield[..] == before[idx / 8 := WithBit(before[idx / 8], idx % 8)];
    }

    /** Takes back the done mark of block idx. */
    method ClearBit(idx: int)
      requires Valid()
      modifies this`completedCount, this`Done, bitfield
      ensures Valid()
      ensures Done == old(Done) - {idx}
    {
      if idx < 0 || idx >= numBlocks {
        return;
      }
      ghost var before := bitfield[..];
      UpdateClearsMember(before, numBlocks, idx);
      if Bit(bitfield[idx / 8], idx % 8) {
        completedCount := completedCount - 1;
      }
      bitfield[idx / 8] := WithoutBit(bitfield[idx / 8], idx % 8);
      Done := Done - {idx};
      assert bitfield[..] == before[idx / 8 := WithoutBit(before[idx / 8], idx % 8)];
    }

    method UnsetUseBit(idx: int)
      requires Valid()
      modifies this`InUse, useBitfield
      ensures Valid()
      ensures InUse == old(InUse) - {idx}
    {
      if idx >= 0 && idx < numBlocks {
        ghost var before := useBitfield[..];
        UpdateClearsMember(before, numBlocks, idx);
        useBitfield[idx / 8] := WithoutBit(useBitfield[idx / 8], idx % 8);
        InUse := InUse - {idx};
        assert useBitfield[..] == before[idx / 8 := WithoutBit(before[idx / 8], idx % 8)];
      }
    }

    method SetUseBit(idx: int)
      requires Valid()
      modifies this`InUse, useBitfield
      ensures Valid()
      ensures InUse == if 0 <= idx < numBlocks then old(InUse) + {idx} else old(InUse)
    {
      if idx >= 0 && idx < numBlocks {
        ghost var before := useBitfield[..];
        UpdateSetsMember(before, numBlocks, idx);
        useBitfield[idx / 8] := WithBit(useBitfield[idx / 8], idx % 8);
        InUse := InUse + {idx};
        assert useBitfield[..] == before[idx / 8 := WithBit(before[idx / 8], idx % 8)];
      }
    }

    method IsBitSet(idx: int) returns (r: bool)
      requires Valid()
      ensures r <==> idx in Done
    {
      if idx < 0 || idx >= numBlocks {
        return false;
      }
      assert BitAt(bitfield[..], idx) == (Bit(bitfield[idx / 8], idx % 8));
      return Bit(bitfield[idx / 8], idx % 8);
    }

    method IsUseBitSet(idx: int) returns (r: bool)
      requires Valid()
      ensures r <==> idx in InUse
    {
      if idx < 0 || idx >= numBlocks {
        return false;
      }
      assert BitAt(useBitfield[..], idx) == (Bit(useBitfield[idx / 8], idx % 8));
      return Bit(useBitfield[idx / 8], idx % 8);
    }

    /** The O(1) answer from the counter is the truth about the bits. */
    method IsAllBitSet() returns (r: bool)
      requires Valid()
      ensures r <==> Done == AllBlocks(numBlocks)
    {
      FullIffCount(Done, numBlocks);
      return completedCount == numBlocks;
    }

    method FirstMissingUnusedIndex() returns (r: int)
      requires Valid()
      ensures r == FirstFree(Done, InUse, numBlocks, 0)
    {
      var i := 0;
      while i < numBlocks
        invariant 0 <= i <= numBlocks
        invariant FirstFree(Done, InUse, numBlocks, 0) == FirstFree(Done, InUse, numBlocks, i)
      {
        var done := IsBitSet(i);
        if !done {
          var used := IsUseBitSet(i);
          if !used {
            return i;
          }
        }
        i := i + 1;
      }
      return -1;
    }

    method FirstMissingIndex() returns (r: int)
      requires Valid()
      ensures r == FirstFree(Done, {}, numBlocks, 0)
    {
      var i := 0;
      while i < numBlocks
        invariant 0 <= i <= numBlocks
        invariant FirstFree(Done, {}, numBlocks, 0) == FirstFree(Done, {}, numBlocks, i)
      {
        var done := IsBitSet(i);
        if !done {
          return i;
        }
        i := i + 1;
      }
      return -1;
    }

    method CountMissing() returns (count: nat)
      requires Valid()
      ensures count == |AllBlocks(numBlocks) - Done|
    {
      count := 0;
      var i := 0;
      while i < numBlocks
        invariant 0 <= i <= numBlocks
        invariant count == |AllBlocks(i) - Done|
      {
        var done := IsBitSet(i);
        MissingStep(Done, i);
        if !done {
          count := count + 1;
        }
        i := i + 1;
      }
    }

    method BlockLength(idx: int) returns (len: nat)
      requires Valid()
      ensures len == BlockLen(numBlocks, blockLength, totalLength, idx)
    {
      if idx == numBlocks - 1 {
        var rem := totalLength % blockLength;
        if rem != 0 {
          return rem;
        }
      }
      return blockLength;
    }

    method CompletedLength() returns (total: nat)
      requires Valid()
      ensures total == BytesIn(Done, numBlocks, blockLength, totalLength, numBlocks)
    {
      total := 0;
      var i := 0;
      while i < numBlocks
        invariant 0 <= i <= numBlocks
        invariant total == BytesIn(Done, numBlocks, blockLength, totalLength, i)
      {
        var done := IsBitSet(i);
        if done {
          var len := BlockLength(i);
          total := total + len;
        }
        i := i + 1;
      }
    }

    method RemainingLength() returns (r: int)
      requires Valid()
      ensures r == totalLength - BytesIn(Done, numBlocks, blockLength, totalLength, numBlocks)
    {
      var completed := CompletedLength();
      return totalLength - completed;
    }

    method GetBitfield() returns (bf: seq<byte>)
      requires Valid()
      ensures bf == bitfield[..]
    {
      bf := bitfield[..];
    }

    /** Loads saved bytes of the right size, padding bits included, and recounts; other sizes are ignored. */
    method SetBitfield(bf: seq<byte>)
      requires Valid()
      modifies this`completedCount, this`Done, bitfield
      ensures Valid()
      ensures bitfield[..] == if |bf| == bitfield.Length then bf else old(bitfield[..])
    {
      if |bf| != bitfield.Length {
        return;
      }
      forall k | 0 <= k < |bf| {
        bitfield[k] := bf[k];
      }
      assert bitfield[..] == bf;
      Done := Members(bf, numBlocks);
      completedCount := 0;
      var i := 0;
      while i < numBlocks
        modifies this`completedCount
        invariant 0 <= i <= numBlocks
        invariant bitfield[..] == bf
        invariant completedCount == |Members(bf, i)|
      {
        MembersStep(bf, i);
        if Bit(bitfield[i / 8], i % 8) {
          completedCount := completedCount + 1;
        }
        i := i + 1;
      }
    }
  }
}
