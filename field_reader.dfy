/**
  * Byte-level reads of the side buffer: the 4-byte-aligned window that
  * BuildLoadInst loads, the copy of the requested bytes out of it, the
  * little-endian reinterpretation of bytes as integer lanes, and the
  * per-lane truncation that the stack-call branches apply.
  */
module FieldReader {

  type Byte = b: nat | b < 256

  function Pow2(n: nat): (r: nat)
    ensures r >= 1
  {
    if n == 0 then 1 else 2 * Pow2(n - 1)
  }

  function Pow256(n: nat): (r: nat)
    ensures r >= 1
  {
    if n == 0 then 1 else 256 * Pow256(n - 1)
  }

  /** The 4-byte-aligned offset at or below `offset`: `(Offset / 4) * 4`. */
  function AlignDown(offset: nat): (aligned: nat)
    ensures aligned % 4 == 0
    ensures aligned <= offset && offset - aligned < 4
  {
    (offset / 4) * 4
  }

  /** The number of bytes loaded from the aligned offset: `Size + (Offset - AlignedOffset)`. */
  function LoadSize(offset: nat, size: nat): (loadSize: nat)
    ensures AlignDown(offset) + loadSize == offset + size
    ensures size <= loadSize < size + 4
  {
    size + (offset - AlignDown(offset))
  }

  /**
    * The bytes the loads and bitcasts emitted by BuildLoadInst produce at run
    * time: a load of LoadSize bytes at the aligned offset, then (when the
    * offset is not aligned) a copy of bytes [Offset, Offset + Size) of that
    * load into a fresh Size-byte vector, one byte per iteration.
    */
  method BuildLoad(mem: seq<Byte>, offset: nat, size: nat) returns (field: seq<Byte>)
    requires offset + size <= |mem|
    ensures field == mem[offset .. offset + size]
  {
    var alignedOffset := AlignDown(offset);
    var loadSize := LoadSize(offset, size);
    var loaded := mem[alignedOffset .. alignedOffset + loadSize];
    if offset == alignedOffset {
      return loaded;
    }
    // The new vector starts undefined; every lane is written below.
    var newVector: seq<Byte> := seq(size, _ => 0);
    var i := offset;
    while i != offset + size
      invariant offset <= i <= offset + size
      invariant |newVector| == size
      invariant forall k :: 0 <= k < i - offset ==> newVector[k] == mem[offset + k]
      decreases offset + size - i
    {
      newVector := newVector[i - offset := loaded[i - alignedOffset]];
      i := i + 1;
    }
    return newVector;
  }

  /** The unsigned integer whose little-endian encoding is `bytes`. */
  function LittleEndian(bytes: seq<Byte>): (n: nat)
    ensures n < Pow256(|bytes|)
  {
    if bytes == [] then 0 else bytes[0] + 256 * LittleEndian(bytes[1..])
  }

  /** `bytes` read as `count` lanes of `elemBytes` bytes each (an LLVM bitcast of <N x i8>): lane i is bytes [i * elemBytes, (i + 1) * elemBytes). */
  function Lanes(bytes: seq<Byte>, count: nat, elemBytes: nat): (lanes: seq<nat>)
    requires |bytes| == count * elemBytes
    ensures |lanes| == count
    ensures forall i :: 0 <= i < count ==> lanes[i] < Pow256(elemBytes)
  {
    seq(count, i requires 0 <= i < count => Lane(bytes, count, elemBytes, i))
  }

  /** Lane i of `Lanes`: bytes [i * elemBytes, (i + 1) * elemBytes) read little-endian. */
  function Lane(bytes: seq<Byte>, count: nat, elemBytes: nat, i: nat): (n: nat)
    requires |bytes| == count * elemBytes && i < count
    ensures n < Pow256(elemBytes)
  {
    MulBound(i, count, elemBytes);
    var lane := bytes[i * elemBytes .. i * elemBytes + elemBytes];
    assert |lane| == elemBytes;
    LittleEndian(lane)
  }

  lemma MulBound(i: nat, count: nat, w: nat)
    requires i < count
    ensures i * w + w <= count * w
  {
    assert count == (count - (i + 1)) + (i + 1);
    assert count * w == (count - (i + 1)) * w + (i + 1) * w;
    assert (i + 1) * w == i * w + w;
  }

  /** A field of `elemBytes` bytes at `offset + i * elemBytes` of a region, read through a load of `count` lanes at `offset`. */
  lemma FieldLane(mem: seq<Byte>, offset: nat, count: nat, elemBytes: nat, i: nat)
    requires offset + count * elemBytes <= |mem|
    requires i < count
    ensures offset + i * elemBytes + elemBytes <= |mem|
    ensures Lanes(mem[offset .. offset + count * elemBytes], count, elemBytes)[i]
         == LittleEndian(mem[offset + i * elemBytes .. offset + i * elemBytes + elemBytes])
  {
    var n := count * elemBytes;
    var a := i * elemBytes;
    assert a + elemBytes <= n by { MulBound(i, count, elemBytes); }
    assert Lanes(mem[offset .. offset + n], count, elemBytes)[i] == LittleEndian(mem[offset .. offset + n][a .. a + elemBytes]);
    SliceOfSlice(mem, offset, n, a, elemBytes);
  }

  lemma SliceOfSlice(mem: seq<Byte>, offset: nat, n: nat, a: nat, w: nat)
    requires offset + n <= |mem| && a + w <= n
    ensures mem[offset .. offset + n][a .. a + w] == mem[offset + a .. offset + a + w]
  {
    var lhs := mem[offset .. offset + n][a .. a + w];
    var rhs := mem[offset + a .. offset + a + w];
    assert |lhs| == w == |rhs|;
    forall k | 0 <= k < w
      ensures lhs[k] == rhs[k]
    {
      assert lhs[k] == mem[offset .. offset + n][a + k] == mem[offset + a + k];
    }
  }

  /** LLVM `trunc` to `bits` bits: the value modulo 2^bits. */
  function Truncate(x: nat, bits: nat): (r: nat)
    ensures r < Pow2(bits)
    ensures x < Pow2(bits) ==> r == x
    ensures exists q: nat :: x == q * Pow2(bits) + r
  {
    var p := Pow2(bits);
    ModBelow(x, p);
    assert x == (x / p) * p + x % p;
    x % p
  }

  lemma ModBelow(x: nat, p: nat)
    requires p >= 1
    ensures x % p < p
    ensures x < p ==> x % p == x
  {
  }

  /** Every lane truncated to `bits` bits. */
  function TruncatedLanes(lanes: seq<nat>, bits: nat): (r: seq<nat>)
    ensures |r| == |lanes|
  {
    seq(|lanes|, i requires 0 <= i < |lanes| => Truncate(lanes[i], bits))
  }

  /**
    * The run-time effect of the stack-call loops that extract each of the
    * three loaded 64-bit lanes, truncate it and insert it in a new vector.
    */
  method TruncateLanes(loaded: seq<nat>, bits: nat) returns (v: seq<nat>)
    requires |loaded| == 3
    ensures |v| == 3
    ensures forall i :: 0 <= i < 3 ==> v[i] < Pow2(bits) && (loaded[i] < Pow2(bits) ==> v[i] == loaded[i])
    ensures v == TruncatedLanes(loaded, bits)
  {
    // The new vector starts undefined; every lane is written below.
    v := [0, 0, 0];
    var i := 0;
    while i != 3
      invariant 0 <= i <= 3
      invariant |v| == 3
      invariant forall k :: 0 <= k < i ==> v[k] == Truncate(loaded[k], bits)
    {
      var elem := loaded[i];
      v := v[i := Truncate(elem, bits)];
      i := i + 1;
    }
  }

  /** The little-endian value of bytes equals its first byte exactly when the other bytes are zero. */
  lemma {:induction false} LittleEndianIsFirstByte(bytes: seq<Byte>)
    requires |bytes| >= 1
    ensures LittleEndian(bytes) == bytes[0] <==> forall k :: 1 <= k < |bytes| ==> bytes[k] == 0
  {
    AllZeroIffZero(bytes[1..]);
    assert forall k :: 1 <= k < |bytes| ==> bytes[k] == bytes[1..][k - 1];
  }

  lemma {:induction false} AllZeroIffZero(bytes: seq<Byte>)
    ensures LittleEndian(bytes) == 0 <==> forall k :: 0 <= k < |bytes| ==> bytes[k] == 0
  {
    if bytes != [] {
      AllZeroIffZero(bytes[1..]);
      assert forall k :: 1 <= k < |bytes| ==> bytes[k] == bytes[1..][k - 1];
    }
  }
}
