/**
 * The bit string of a W3C Bitstring Status List, MSB-first in a byte array
 * (src/insurance/crypto/statuslist.py; section 3 of W3C Bitstring Status List v1.0).
 */
module Bitstrings {
  import opened Wrappers

  const DEFAULT_SIZE_BITS := 131072

  /** 1 << (7 - index % 8) */
  function Mask(index: nat): bv8 { (1 as bv8) << (7 - index % 8) }

  function ByteWithBit(b: bv8, index: nat, value: bool): bv8 {
    if value then b | Mask(index) else b & !Mask(index)
  }

  function GetBit(bytes: seq<bv8>, index: nat): bool
    requires index < 8 * |bytes|
  {
    bytes[index / 8] & Mask(index) != 0
  }

  function SetBit(bytes: seq<bv8>, index: nat, value: bool): (r: seq<bv8>)
    requires index < 8 * |bytes|
    ensures |r| == |bytes|
  {
    bytes[index / 8 := ByteWithBit(bytes[index / 8], index, value)]
  }

  /** The bits, in index order. */
  function Bits(bytes: seq<bv8>): (bits: seq<bool>)
    ensures |bits| == 8 * |bytes| && forall i :: 0 <= i < |bits| ==> bits[i] == GetBit(bytes, i)
  {
    seq(8 * |bytes|, i requires 0 <= i < 8 * |bytes| => GetBit(bytes, i))
  }

  /** One of the eight single-bit masks. */
  predicate SingleBit(m: bv8) {
    m == 0x80 || m == 0x40 || m == 0x20 || m == 0x10 || m == 0x08 || m == 0x04 || m == 0x02 || m == 0x01
  }

  function MaskAt(k: nat): bv8
    requires k < 8
  {
    if k == 0 then 0x80 else if k == 1 then 0x40 else if k == 2 then 0x20 else if k == 3 then 0x10
    else if k == 4 then 0x08 else if k == 5 then 0x04 else if k == 6 then 0x02 else 0x01
  }

  lemma MaskIsMaskAt(index: nat)
    ensures Mask(index) == MaskAt(index % 8)
  {
    var k := index % 8;
    if k == 0 { assert Mask(index) == 1 as bv8 << 7; }
    else if k == 1 { assert Mask(index) == 1 as bv8 << 6; }
    else if k == 2 { assert Mask(index) == 1 as bv8 << 5; }
    else if k == 3 { assert Mask(index) == 1 as bv8 << 4; }
    else if k == 4 { assert Mask(index) == 1 as bv8 << 3; }
    else if k == 5 { assert Mask(index) == 1 as bv8 << 2; }
    else if k == 6 { assert Mask(index) == 1 as bv8 << 1; }
    else { assert Mask(index) == 1 as bv8 << 0; }
  }

  lemma MasksDiffer(i: nat, j: nat)
    requires i % 8 != j % 8
    ensures Mask(i) & Mask(j) == 0
  {
    MaskIsMaskAt(i);
    MaskIsMaskAt(j);
    DistinctMasks(i % 8, j % 8);
  }

  lemma DistinctMasks(a: nat, b: nat)
    requires a < 8 && b < 8 && a != b
    ensures MaskAt(a) & MaskAt(b) == 0
  {
  }

  lemma SetMask(b: bv8, m: bv8)
    requires SingleBit(m)
    ensures (b | m) & m != 0 && (b & !m) & m == 0
  {
  }

  lemma OtherMask(b: bv8, m: bv8, n: bv8)
    requires m & n == 0
    ensures (b | m) & n == b & n && (b & !m) & n == b & n
  {
  }

  /** The byte-array update is exactly the update of one bit of the bit sequence. */
  lemma SetBitSetsOneBit(bytes: seq<bv8>, index: nat, value: bool)
    requires index < 8 * |bytes|
    ensures Bits(SetBit(bytes, index, value)) == Bits(bytes)[index := value]
  {
    var after := SetBit(bytes, index, value);
    forall i | 0 <= i < 8 * |bytes| ensures GetBit(after, i) == if i == index then value else GetBit(bytes, i) {
      if i == index {
        MaskIsMaskAt(index);
        SetMask(bytes[index / 8], Mask(index));
      } else if i / 8 == index / 8 {
        MasksDiffer(index, i);
        OtherMask(bytes[index / 8], Mask(index), Mask(i));
      }
    }
  }

  function ZeroBytes(n: nat): (z: seq<bv8>)
    ensures |z| == n && forall i :: 0 <= i < n ==> z[i] == 0
  {
    seq(n, i => 0)
  }

  lemma ZeroBits(n: nat, i: nat)
    requires i < 8 * n
    ensures !GetBit(ZeroBytes(n), i)
  {
    AndZero(Mask(i));
  }

  lemma AndZero(m: bv8)
    ensures (0 as bv8) & m == 0
  {
  }

  /** The mutable status list. */
  class StatusList {
    const sizeBits: nat
    const bits: array<bv8>

    ghost predicate Valid() { sizeBits > 0 && sizeBits == 8 * bits.Length }

    constructor (sizeBits: nat, data: seq<bv8>)
      requires sizeBits > 0 && sizeBits % 8 == 0 && |data| == sizeBits / 8
      ensures Valid() && fresh(bits) && this.sizeBits == sizeBits && bits[..] == data
    {
      this.sizeBits := sizeBits;
      this.bits := new bv8[|data|](i requires 0 <= i < |data| => data[i]);
    }

    /** StatusList(size_bits, data): refused unless the size is a positive multiple of 8 and the data fits. */
    static method Create(sizeBits: int, data: Option<seq<bv8>>) returns (r: Result<StatusList>)
      ensures r.Ok? <==> sizeBits > 0 && sizeBits % 8 == 0 && (data.Some? ==> |data.value| == sizeBits / 8)
      ensures r.Ok? ==> r.value.Valid() && fresh(r.value) && fresh(r.value.bits) && r.value.sizeBits == sizeBits
      ensures r.Ok? ==> r.value.bits[..] == if data.Some? then data.value else ZeroBytes(sizeBits / 8)
    {
      if sizeBits <= 0 || sizeBits % 8 != 0 { return Err(InvalidSize); }
      if data.Some? && |data.value| != sizeBits / 8 { return Err(InvalidSize); }
      var list := new StatusList(sizeBits, if data.Some? then data.value else ZeroBytes(sizeBits / 8));
      return Ok(list);
    }

    method Get(index: int) returns (r: Result<bool>)
      requires Valid()
      ensures r.Ok? <==> 0 <= index < sizeBits
      ensures r.Ok? ==> r.value == Bits(bits[..])[index]
    {
      if !(0 <= index < sizeBits) { return Err(IndexOutOfRange); }
      return Ok(bits[index / 8] & Mask(index) != 0);
    }

    method Set(index: int, value: bool) returns (r: Result<bool>)
      requires Valid()
      modifies bits
      ensures r.Ok? <==> 0 <= index < sizeBits
      ensures r.Ok? ==> bits[..] == SetBit(old(bits[..]), index, value)
      ensures r.Ok? ==> Bits(bits[..]) == Bits(old(bits[..]))[index := value]
      ensures r.Err? ==> bits[..] == old(bits[..])
    {
      if !(0 <= index < sizeBits) { return Err(IndexOutOfRange); }
      SetBitSetsOneBit(bits[..], index, value);
      Update(index, value);
      return Ok(value);
    }

    method Update(index: nat, value: bool)
      requires index < 8 * bits.Length
      modifies bits
      ensures bits[..] == SetBit(old(bits[..]), index, value)
    {
      if value {
        bits[index / 8] := bits[index / 8] | Mask(index);
      } else {
        bits[index / 8] := bits[index / 8] & !Mask(index);
      }
    }

    method RawBytes() returns (data: seq<bv8>)
      requires Valid()
      ensures data == bits[..] && |data| == sizeBits / 8
    {
      return bits[..];
    }
  }
}
