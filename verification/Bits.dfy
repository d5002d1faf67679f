/** Bytes as bit vectors, and byte-packed bitmaps read as sets of bit indices. */
module Bits {

  type byte = bv8

  /** The byte with only bit k set: Go's `1 << (uint(idx) % 8)`. */
  function Mask(k: nat): byte
    requires k < 8
  {
    (1 as byte) << k
  }

  predicate Bit(b: byte, k: nat)
    requires k < 8
  {
    b & Mask(k) != 0
  }

  /** Go's `b |= 1 << k`. */
  function WithBit(b: byte, k: nat): byte
    requires k < 8
  {
    b | Mask(k)
  }

  /** Go's `b &^= 1 << k`. */
  function WithoutBit(b: byte, k: nat): byte
    requires k < 8
  {
    b & !Mask(k)
  }

  lemma OrSetsOneBit(b: byte, k: nat, j: nat)
    requires k < 8 && j < 8
    ensures Bit(WithBit(b, k), j) == (j == k || Bit(b, j))
  {
    MaskValues(k);
    MaskValues(j);
  }

  lemma AndNotClearsOneBit(b: byte, k: nat, j: nat)
    requires k < 8 && j < 8
    ensures Bit(WithoutBit(b, k), j) == (j != k && Bit(b, j))
  {
    MaskValues(k);
    MaskValues(j);
  }

  lemma MaskValues(k: nat)
    requires k < 8
    ensures Mask(k) == (match k case 0 => 1 case 1 => 2 case 2 => 4 case 3 => 8
                                case 4 => 16 case 5 => 32 case 6 => 64 case _ => 128)
  {
  }

  /** Bytes needed for n bits. */
  function ByteCount(n: nat): nat {
    (n + 7) / 8
  }

  predicate BitAt(bf: seq<byte>, i: nat)
    requires i < 8 * |bf|
  {
    Bit(bf[i / 8], i % 8)
  }

  /** The indices below n whose bit is set. Padding bits at n and above are not seen. */
  function Members(bf: seq<byte>, n: nat): (s: set<nat>)
    requires n <= 8 * |bf|
  {
    set i: nat | i < n && BitAt(bf, i)
  }

  lemma UpdateSetsMember(bf: seq<byte>, n: nat, idx: nat)
    requires idx < n <= 8 * |bf|
    ensures Members(bf[idx / 8 := WithBit(bf[idx / 8], idx % 8)], n) == Members(bf, n) + {idx}
    ensures |Members(bf, n) + {idx}| == |Members(bf, n)| + if Bit(bf[idx / 8], idx % 8) then 0 else 1
  {
    if BitAt(bf, idx) {
      assert Members(bf, n) + {idx} == Members(bf, n);
    }
    var bf' := bf[idx / 8 := WithBit(bf[idx / 8], idx % 8)];
    forall i: nat | i < n
      ensures BitAt(bf', i) == (i == idx || BitAt(bf, i))
    {
      if i / 8 == idx / 8 {
        OrSetsOneBit(bf[idx / 8], idx % 8, i % 8);
      }
    }
  }

  lemma UpdateClearsMember(bf: seq<byte>, n: nat, idx: nat)
    requires idx < n <= 8 * |bf|
    ensures Members(bf[idx / 8 := WithoutBit(bf[idx / 8], idx % 8)], n) == Members(bf, n) - {idx}
    ensures |Members(bf, n) - {idx}| == |Members(bf, n)| - if Bit(bf[idx / 8], idx % 8) then 1 else 0
  {
    if !BitAt(bf, idx) {
      assert Members(bf, n) - {idx} == Members(bf, n);
    }
    var bf' := bf[idx / 8 := WithoutBit(bf[idx / 8], idx % 8)];
    forall i: nat | i < n
      ensures BitAt(bf', i) == (i != idx && BitAt(bf, i))
    {
      if i / 8 == idx / 8 {
        AndNotClearsOneBit(bf[idx / 8], idx % 8, i % 8);
      }
    }
  }

  lemma MembersStep(bf: seq<byte>, i: nat)
    requires i < 8 * |bf|
    ensures |Members(bf, i + 1)| == |Members(bf, i)| + if BitAt(bf, i) then 1 else 0
  {
    var before, after := Members(bf, i), Members(bf, i + 1);
    assert forall j :: j in before <==> j in after && j != i;
    if BitAt(bf, i) {
      assert after == before + {i};
    } else {
      assert after == before;
    }
  }

  lemma ZeroBytesHaveNoMembers(bf: seq<byte>, n: nat)
    requires n <= 8 * |bf|
    requires forall k :: 0 <= k < |bf| ==> bf[k] == 0
    ensures Members(bf, n) == {}
  {
    forall i: nat | i < n
      ensures !BitAt(bf, i)
    {
      assert bf[i / 8] == 0;
    }
  }
}
