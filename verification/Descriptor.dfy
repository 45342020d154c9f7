/** The metadata record one publish carries, its wire layout, and the check a publisher makes on it. */
module Descriptor {
  import opened Machine

  const MAX_RANK := 8
  const WORDS := 18  // 144 bytes, in the 64-bit words the slot copy is made of

  type Words = s: seq<U64> | |s| == WORDS witness [0, 0, 0, 0, 0, 0, 0, 0, 0, 0, 0, 0, 0, 0, 0, 0, 0, 0]
  /** memset of the slot's record. */
  const ZEROS: Words := [0, 0, 0, 0, 0, 0, 0, 0, 0, 0, 0, 0, 0, 0, 0, 0, 0, 0]

  type Dims = s: seq<U32> | |s| == MAX_RANK witness [0, 0, 0, 0, 0, 0, 0, 0]
  type U48 = x: int | 0 <= x < 0x1_0000_0000_0000

  const FENCE_VIA_SIDECAR: U8 := 2

  datatype TensorDescriptor = TensorDescriptor(
    boHandle: U64,
    seqno: U64,
    poolGeneration: U64,
    captureTs: U64,
    publishTs: U64,
    shape: Dims,
    offset: U64,
    size: U64,
    fenceToken: U64,
    rowPitch: U32,
    depthScale: U32,   // the bits of a float
    invalidValue: U32,
    fx: U32, fy: U32, cx: U32, cy: U32,
    refWidth: U32,
    refHeight: U32,
    rank: U8,
    dtype: U8,
    fenceKind: U8,
    sampleUnits: U8,
    captureClock: U8,
    layout: U8,
    reserved: U48
  ) {
    predicate NeedsFence() { fenceKind == FENCE_VIA_SIDECAR }
  }

  /** memset(&staging, 0, sizeof staging). */
  const CLEARED := TensorDescriptor(0, 0, 0, 0, 0, [0, 0, 0, 0, 0, 0, 0, 0], 0, 0, 0, 0, 0, 0, 0, 0, 0, 0,
                                    0, 0, 0, 0, 0, 0, 0, 0, 0)

  // ------------------------------------------------------------------ wire layout

  function Join(lo: U32, hi: U32): (w: U64) { lo + 0x1_0000_0000 * hi }

  function Lo(w: U64): (x: U32) { w % 0x1_0000_0000 }

  function Hi(w: U64): (x: U32) { w / 0x1_0000_0000 }

  function JoinBytes(a: U8, b: U8, c: U8, e: U8): (w: U32) { a + 0x100 * b + 0x1_0000 * c + 0x100_0000 * e }

  function JoinTail(a: U8, b: U8, r: U48): (w: U64) { a + 0x100 * b + 0x1_0000 * r }

  lemma BytesRoundTrip(a: U8, b: U8, c: U8, e: U8)
    ensures var w := JoinBytes(a, b, c, e);
            w % 0x100 == a && w / 0x100 % 0x100 == b && w / 0x1_0000 % 0x100 == c && w / 0x100_0000 == e
  {
    var w := JoinBytes(a, b, c, e);
    assert w / 0x100 == b + 0x100 * c + 0x1_0000 * e;
    assert w / 0x1_0000 == c + 0x100 * e;
  }

  lemma TailRoundTrip(a: U8, b: U8, r: U48)
    ensures var w := JoinTail(a, b, r); w % 0x100 == a && w / 0x100 % 0x100 == b && w / 0x1_0000 == r
  {
    assert JoinTail(a, b, r) / 0x100 == b + 0x100 * r;
  }

  lemma BytesRejoin(w: U32)
    ensures JoinBytes(w % 0x100, w / 0x100 % 0x100, w / 0x1_0000 % 0x100, w / 0x100_0000) == w
  {
    var x, y := w / 0x100, w / 0x1_0000;
    assert x / 0x100 == y && y / 0x100 == w / 0x100_0000;
  }

  lemma TailRejoin(w: U64)
    ensures JoinTail(w % 0x100, w / 0x100 % 0x100, w / 0x1_0000) == w
  {
    var x := w / 0x100;
    assert x / 0x100 == w / 0x1_0000;
  }

  /** The record as the 18 little-endian words at byte offsets 0, 8, .., 136. */
  function Pack(d: TensorDescriptor): (w: Words)
  {
    [d.boHandle, d.seqno, d.poolGeneration, d.captureTs, d.publishTs,
     Join(d.shape[0], d.shape[1]), Join(d.shape[2], d.shape[3]),
     Join(d.shape[4], d.shape[5]), Join(d.shape[6], d.shape[7]),
     d.offset, d.size, d.fenceToken,
     Join(d.rowPitch, d.depthScale), Join(d.invalidValue, d.fx), Join(d.fy, d.cx), Join(d.cy, d.refWidth),
     Join(d.refHeight, JoinBytes(d.rank, d.dtype, d.fenceKind, d.sampleUnits)),
     JoinTail(d.captureClock, d.layout, d.reserved)]
  }

  function Unpack(w: Words): (d: TensorDescriptor)
  {
    var tags := Hi(w[16]);
    TensorDescriptor(
      w[0], w[1], w[2], w[3], w[4],
      [Lo(w[5]), Hi(w[5]), Lo(w[6]), Hi(w[6]), Lo(w[7]), Hi(w[7]), Lo(w[8]), Hi(w[8])],
      w[9], w[10], w[11],
      Lo(w[12]), Hi(w[12]), Lo(w[13]), Hi(w[13]), Lo(w[14]), Hi(w[14]), Lo(w[15]), Hi(w[15]), Lo(w[16]),
      tags % 0x100, tags / 0x100 % 0x100, tags / 0x1_0000 % 0x100, tags / 0x100_0000,
      w[17] % 0x100, w[17] / 0x100 % 0x100, w[17] / 0x1_0000)
  }

  lemma JoinSplit(lo: U32, hi: U32)
    ensures Lo(Join(lo, hi)) == lo && Hi(Join(lo, hi)) == hi
  {
  }

  lemma SplitJoin(w: U64)
    ensures Join(Lo(w), Hi(w)) == w
  {
  }

  lemma ShapeRoundTrip(d: TensorDescriptor)
    ensures Unpack(Pack(d)).shape == d.shape
  {
    JoinSplit(d.shape[0], d.shape[1]);
    JoinSplit(d.shape[2], d.shape[3]);
    JoinSplit(d.shape[4], d.shape[5]);
    JoinSplit(d.shape[6], d.shape[7]);
  }

  lemma ImagingRoundTrip(d: TensorDescriptor)
    ensures var e := Unpack(Pack(d));
            && e.rowPitch == d.rowPitch && e.depthScale == d.depthScale && e.invalidValue == d.invalidValue
            && e.fx == d.fx && e.fy == d.fy && e.cx == d.cx && e.cy == d.cy && e.refWidth == d.refWidth
  {
    JoinSplit(d.rowPitch, d.depthScale);
    JoinSplit(d.invalidValue, d.fx);
    JoinSplit(d.fy, d.cx);
    JoinSplit(d.cy, d.refWidth);
  }

  lemma TagsRoundTrip(d: TensorDescriptor)
    ensures var e := Unpack(Pack(d));
            && e.refHeight == d.refHeight && e.rank == d.rank && e.dtype == d.dtype && e.fenceKind == d.fenceKind
            && e.sampleUnits == d.sampleUnits
            && e.captureClock == d.captureClock && e.layout == d.layout && e.reserved == d.reserved
  {
    JoinSplit(d.refHeight, JoinBytes(d.rank, d.dtype, d.fenceKind, d.sampleUnits));
    BytesRoundTrip(d.rank, d.dtype, d.fenceKind, d.sampleUnits);
    TailRoundTrip(d.captureClock, d.layout, d.reserved);
  }

  /** A reader that gets the words a publisher stored gets its record, every field of it. */
  lemma PackUnpack(d: TensorDescriptor)
    ensures Unpack(Pack(d)) == d
  {
    ShapeRoundTrip(d);
    ImagingRoundTrip(d);
    TagsRoundTrip(d);
  }

  /** No two word images decode to the same record: the layout has no padding. */
  lemma UnpackPack(w: Words)
    ensures Pack(Unpack(w)) == w
  {
    forall i | 0 <= i < WORDS { SplitJoin(w[i]); }
    BytesRejoin(Hi(w[16]));
    TailRejoin(w[17]);
  }

  // The fields a reader needs, straight from the words it copied.

  function BoHandle(w: Words): U64 { w[0] }

  function Seqno(w: Words): U64 { w[1] }

  function Generation(w: Words): U64 { w[2] }

  function PublishTs(w: Words): U64 { w[4] }

  function Offset(w: Words): U64 { w[9] }

  function FenceToken(w: Words): U64 { w[11] }

  predicate NeedsFence(w: Words) { Hi(w[16]) / 0x1_0000 % 0x100 == FENCE_VIA_SIDECAR }

  lemma FieldsOfWords(d: TensorDescriptor)
    ensures var w := Pack(d);
            && BoHandle(w) == d.boHandle && Seqno(w) == d.seqno && Generation(w) == d.poolGeneration
            && PublishTs(w) == d.publishTs && Offset(w) == d.offset && FenceToken(w) == d.fenceToken
            && (NeedsFence(w) <==> d.NeedsFence())
  {
    TagsRoundTrip(d);
  }

  // ------------------------------------------------------------------ validity

  function DtypeSize(t: U8): (n: nat)
    ensures n <= 8
  {
    if t == 0 then 1
    else if 1 <= t <= 4 then 2
    else if t == 5 || t == 7 then 4
    else if t == 6 || t == 8 then 8
    else 0
  }

  datatype Verdict = Valid | TooBig /* EMSGSIZE */ | Malformed /* EINVAL */

  function Used(d: TensorDescriptor): (s: seq<nat>)
    requires 1 <= d.rank <= MAX_RANK
    ensures |s| == d.rank
  {
    d.shape[..d.rank]
  }

  function Rows(d: TensorDescriptor): (n: nat)
    requires 1 <= d.rank <= MAX_RANK
  {
    Product(Used(d)[..d.rank - 1])
  }

  function PackedRow(d: TensorDescriptor): (n: nat)
    requires 1 <= d.rank <= MAX_RANK
  {
    d.shape[d.rank - 1] * DtypeSize(d.dtype)
  }

  function Stride(d: TensorDescriptor): (n: nat)
    requires 1 <= d.rank <= MAX_RANK
  {
    if d.rowPitch != 0 then d.rowPitch else PackedRow(d)
  }

  /** element_count: the loop multiplies in 64 bits, so what it leaves is the residue of the true product. */
  method ElementCount(d: TensorDescriptor) returns (n: U64)
    ensures n == Product(d.shape[..if d.rank < MAX_RANK then d.rank else MAX_RANK]) % TWO_64
  {
    n := 1;
    var i := 0;
    while i < d.rank && i < MAX_RANK
      invariant 0 <= i <= d.rank && i <= MAX_RANK
      invariant n == Product(d.shape[..i]) % TWO_64
    {
      MulMod64(Product(d.shape[..i]), d.shape[i]);
      assert d.shape[..i + 1][..i] == d.shape[..i];
      n := (n * d.shape[i]) % TWO_64;
      i := i + 1;
    }
  }

  /** image_bytes: rows times row stride, again modulo 2^64. */
  method ImageBytes(d: TensorDescriptor) returns (n: U64)
    requires d.rank <= MAX_RANK
    ensures d.rank == 0 ==> n == 0
    ensures d.rank > 0 ==> n == (Rows(d) * Stride(d)) % TWO_64
  {
    if d.rank == 0 { return 0; }
    var rows: U64 := 1;
    var i := 0;
    while i + 1 < d.rank
      invariant 0 <= i < d.rank
      invariant rows == Product(d.shape[..i]) % TWO_64
    {
      MulMod64(Product(d.shape[..i]), d.shape[i]);
      assert d.shape[..i + 1][..i] == d.shape[..i];
      rows := (rows * d.shape[i]) % TWO_64;
      i := i + 1;
    }
    assert Used(d)[..d.rank - 1] == d.shape[..i];
    MulMod64(Rows(d), Stride(d));
    n := (rows * Stride(d)) % TWO_64;
  }

  /** What the publisher demands before it publishes, in unbounded integers except for the one product that wraps. */
  ghost predicate Accepted(d: TensorDescriptor, bufferSize: U64)
  {
    && 1 <= d.rank <= MAX_RANK
    && DtypeSize(d.dtype) > 0
    && d.size > 0
    && d.offset + d.size <= bufferSize
    && (d.rowPitch != 0 ==> PackedRow(d) <= d.rowPitch && (Rows(d) * d.rowPitch) % TWO_64 <= d.size)
  }

  ghost predicate BasicallyMalformed(d: TensorDescriptor)
  {
    d.rank == 0 || d.rank > MAX_RANK || DtypeSize(d.dtype) == 0 || d.size == 0
  }

  /** descriptor_error, in the source's order of tests. */
  method DescriptorError(d: TensorDescriptor, bufferSize: U64) returns (v: Verdict)
    ensures v == Valid <==> Accepted(d, bufferSize)
    ensures v == TooBig <==> !BasicallyMalformed(d) && d.offset + d.size > bufferSize
  {
    if d.rank == 0 || d.rank > MAX_RANK { return Malformed; }
    if DtypeSize(d.dtype) == 0 { return Malformed; }
    if d.size == 0 { return Malformed; }
    if d.offset > bufferSize { return TooBig; }
    if d.size > bufferSize - d.offset { return TooBig; }
    if d.rowPitch != 0 && d.rank >= 1 {
      var packedRow := d.shape[d.rank - 1] * DtypeSize(d.dtype);
      if d.rowPitch < packedRow { return Malformed; }
      var bytes := ImageBytes(d);
      if bytes > d.size { return Malformed; }
    }
    return Valid;
  }

  // ------------------------------------------------------------------ what an accepted descriptor means

  /** `ix` picks one element of the tensor. */
  ghost predicate IsIndex(d: TensorDescriptor, ix: seq<nat>)
    requires 1 <= d.rank <= MAX_RANK
  {
    |ix| == d.rank && forall k :: 0 <= k < d.rank ==> ix[k] < d.shape[k]
  }

  /** Row-major position of `ix` in a box of the given dimensions. */
  function Position(ix: seq<nat>, dims: seq<nat>): (p: nat)
    requires |ix| == |dims|
  {
    if ix == [] then 0
    else Position(ix[..|ix| - 1], dims[..|ix| - 1]) * dims[|ix| - 1] + ix[|ix| - 1]
  }

  lemma {:induction false} PositionBelowProduct(ix: seq<nat>, dims: seq<nat>)
    requires |ix| == |dims|
    requires forall k :: 0 <= k < |ix| ==> ix[k] < dims[k]
    ensures Position(ix, dims) < Product(dims)
  {
    if ix != [] {
      var n := |ix| - 1;
      PositionBelowProduct(ix[..n], dims[..n]);
      var p, q := Position(ix[..n], dims[..n]), Product(dims[..n]);
      assert (p + 1) * dims[n] <= q * dims[n];
      assert (p + 1) * dims[n] == p * dims[n] + dims[n];
    }
  }

  /** The last element of a box sits in its last position. */
  lemma {:induction false} LastPosition(ix: seq<nat>, dims: seq<nat>)
    requires |ix| == |dims|
    requires forall k :: 0 <= k < |ix| ==> ix[k] + 1 == dims[k]
    ensures Position(ix, dims) + 1 == Product(dims)
  {
    if ix != [] {
      var n := |ix| - 1;
      LastPosition(ix[..n], dims[..n]);
      var p := Position(ix[..n], dims[..n]);
      assert (p + 1) * dims[n] == p * dims[n] + dims[n];
    }
  }

  /** First byte of element `ix`, relative to the start of the tensor: its row at the row stride, then along it. */
  function ElementAt(d: TensorDescriptor, ix: seq<nat>): (b: nat)
    requires 1 <= d.rank <= MAX_RANK && |ix| == d.rank
  {
    Position(ix[..d.rank - 1], Used(d)[..d.rank - 1]) * Stride(d) + ix[d.rank - 1] * DtypeSize(d.dtype)
  }

  /** Every byte of every element lies in [offset, offset + size). */
  ghost predicate ElementsInside(d: TensorDescriptor)
    requires 1 <= d.rank <= MAX_RANK
  {
    forall ix: seq<nat> :: IsIndex(d, ix) ==> ElementAt(d, ix) + DtypeSize(d.dtype) <= d.size
  }

  /** One past the last byte of the last element. */
  function Extent(d: TensorDescriptor): (n: int)
    requires 1 <= d.rank <= MAX_RANK
  {
    (Rows(d) - 1) * Stride(d) + PackedRow(d)
  }

  lemma MulAssoc(a: nat, b: nat, c: nat)
    ensures a * (b * c) == (a * b) * c
  {
  }

  lemma ScaleLe(a: nat, b: nat, c: nat)
    requires a <= b
    ensures a * c <= b * c
  {
  }

  lemma ElementBelowExtent(d: TensorDescriptor, ix: seq<nat>)
    requires 1 <= d.rank <= MAX_RANK && IsIndex(d, ix)
    ensures ElementAt(d, ix) + DtypeSize(d.dtype) <= Extent(d)
  {
    var n := d.rank - 1;
    var row := Position(ix[..n], Used(d)[..n]);
    PositionBelowProduct(ix[..n], Used(d)[..n]);
    var e := DtypeSize(d.dtype);
    ScaleLe(row, Rows(d) - 1, Stride(d));
    ScaleLe(ix[n] + 1, d.shape[n], e);
    assert (ix[n] + 1) * e == ix[n] * e + e;
  }

  ghost predicate HasElements(d: TensorDescriptor)
    requires 1 <= d.rank <= MAX_RANK
  {
    forall k :: 0 <= k < d.rank ==> d.shape[k] > 0
  }

  lemma ExtentReached(d: TensorDescriptor) returns (ix: seq<nat>)
    requires 1 <= d.rank <= MAX_RANK && HasElements(d)
    ensures IsIndex(d, ix) && ElementAt(d, ix) + DtypeSize(d.dtype) == Extent(d)
  {
    var n := d.rank - 1;
    ix := seq(d.rank, k requires 0 <= k < d.rank => d.shape[k] - 1);
    LastPosition(ix[..n], Used(d)[..n]);
    var e := DtypeSize(d.dtype);
    assert ix[n] * e + e == (ix[n] + 1) * e;
  }

  /** Exactly which descriptors keep every element inside their window. */
  lemma ElementsInsideIff(d: TensorDescriptor)
    requires 1 <= d.rank <= MAX_RANK
    ensures ElementsInside(d) <==> !HasElements(d) || Extent(d) <= d.size
  {
    if HasElements(d) {
      var last := ExtentReached(d);
      if Extent(d) <= d.size {
        forall ix: seq<nat> | IsIndex(d, ix) ensures ElementAt(d, ix) + DtypeSize(d.dtype) <= d.size {
          ElementBelowExtent(d, ix);
        }
      }
    } else {
      var k: nat :| k < d.rank && d.shape[k] == 0;
      forall ix: seq<nat> ensures !IsIndex(d, ix) {
        assert |ix| == d.rank ==> !(ix[k] < d.shape[k]);
      }
    }
  }

  lemma PitchedRows(rows: nat, pitch: nat, packed: nat, size: nat)
    requires packed <= pitch && rows * pitch < TWO_64 && (rows * pitch) % TWO_64 <= size
    ensures (rows - 1) * pitch + packed <= size
  {
    var footprint := rows * pitch;
    assert (rows - 1) * pitch == footprint - pitch;
  }

  /** An accepted, pitched descriptor whose footprint does not wrap is safe to index with any multi-index. */
  lemma AcceptedPitchedIsSafe(d: TensorDescriptor, bufferSize: U64)
    requires Accepted(d, bufferSize) && d.rowPitch != 0
    requires Rows(d) * d.rowPitch < TWO_64
    ensures ElementsInside(d)
    ensures forall ix: seq<nat> :: IsIndex(d, ix) ==> d.offset + ElementAt(d, ix) + DtypeSize(d.dtype) <= bufferSize
  {
    PitchedRows(Rows(d), d.rowPitch, PackedRow(d), d.size);
    forall ix: seq<nat> | IsIndex(d, ix) ensures ElementAt(d, ix) + DtypeSize(d.dtype) <= d.size {
      ElementBelowExtent(d, ix);
    }
  }

  /** Up to rank 2 the footprint never wraps, so the check is enough by itself. */
  lemma LowRankNeverWraps(d: TensorDescriptor)
    requires 1 <= d.rank <= 2
    ensures Rows(d) * d.rowPitch < TWO_64
  {
    var s := Used(d)[..d.rank - 1];
    if d.rank == 2 {
      assert s[..0] == [];
      assert Product(s) == Product([]) * s[0];
      assert Rows(d) == d.shape[0];
    }
    assert Rows(d) <= TWO_32 - 1;
    ScaleLe(Rows(d), TWO_32 - 1, d.rowPitch);
  }

  lemma ProductOfTwo(a: nat, b: nat)
    ensures Product([a, b]) == a * b
  {
    var s, t: seq<nat> := [a, b], [a];
    assert s[..1] == t && t[..0] == [];
    assert Product(t) == Product([]) * a == a;
    assert Product(s) == Product(t) * b;
  }

  /** 2^33 rows of pitch 2^31 wrap to a footprint of 0: an accepted rank-3 descriptor that indexes far outside its
      window. */
  lemma WrapWitness() returns (d: TensorDescriptor, bufferSize: U64)
    ensures Accepted(d, bufferSize) && d.rowPitch != 0 && d.rank == 3
    ensures !ElementsInside(d)
  {
    bufferSize := 4096;
    d := CLEARED.(rank := 3, dtype := 0, size := 4096, rowPitch := 0x8000_0000,
      shape := [0x2_0000, 0x1_0000, 1, 0, 0, 0, 0, 0]);
    assert Used(d)[..2] == [0x2_0000, 0x1_0000];
    ProductOfTwo(0x2_0000, 0x1_0000);
    assert Rows(d) == 0x2_0000_0000;
    ElementsInsideIff(d);
    assert forall k :: 0 <= k < 3 ==> d.shape[k] > 0;
  }

  /** Without a pitch the shape is never compared with `size`: exactly the descriptors whose packed bytes fit are
      safe. */
  lemma AcceptedPackedIsSafeIff(d: TensorDescriptor, bufferSize: U64)
    requires Accepted(d, bufferSize) && d.rowPitch == 0
    ensures ElementsInside(d) <==> Product(Used(d)) * DtypeSize(d.dtype) <= d.size
  {
    ElementsInsideIff(d);
    var n := d.rank - 1;
    assert Product(Used(d)) == Rows(d) * d.shape[n];
    var e := DtypeSize(d.dtype);
    MulAssoc(Rows(d), d.shape[n], e);
    assert (Rows(d) - 1) * PackedRow(d) + PackedRow(d) == Rows(d) * PackedRow(d);
    if !HasElements(d) {
      var k: nat :| k < d.rank && d.shape[k] == 0;
      ProductZero(Used(d), k);
    }
  }

  lemma PackedWitness() returns (d: TensorDescriptor, bufferSize: U64)
    ensures Accepted(d, bufferSize) && d.rowPitch == 0 && d.rank == 1
    ensures !ElementsInside(d)
  {
    bufferSize := 4096;
    d := CLEARED.(rank := 1, dtype := 0, size := 1, shape := [8192, 0, 0, 0, 0, 0, 0, 0]);
    AcceptedPackedIsSafeIff(d, bufferSize);
    assert Used(d)[..0] == [];
    assert Product(Used(d)) == 8192;
  }
}
