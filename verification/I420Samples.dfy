/** Where the samples of a picture lie: in an I420Buffer, with its strides, and in a packed V4L2 YUV420 frame. */
module I420Samples {
  import opened Alignment
  import opened I420Layout

  datatype Plane = Luma | ChromaU | ChromaV

  function Columns(width: nat, plane: Plane): nat { if plane.Luma? then width else ChromaColumns(width) }
  function Rows(height: nat, plane: Plane): nat { if plane.Luma? then height else ChromaRows(height) }

  predicate IsSample(width: nat, height: nat, plane: Plane, x: nat, y: nat) {
    x < Columns(width, plane) && y < Rows(height, plane)
  }

  function Start(l: Layout, plane: Plane): nat {
    match plane
    case Luma => 0
    case ChromaU => l.yBytes
    case ChromaV => l.yBytes + l.uBytes
  }

  function Stride(l: Layout, plane: Plane): nat {
    match plane
    case Luma => l.strideY
    case ChromaU => l.strideU
    case ChromaV => l.strideV
  }

  /** The byte of a sample, from the start of the allocation. */
  function Offset(l: Layout, plane: Plane, x: nat, y: nat): nat { Start(l, plane) + y * Stride(l, plane) + x }

  /** The layout Create gives to a picture it accepts. */
  ghost predicate Accepted(l: Layout, k: nat) {
    FitsInt(l.width, l.height, Pow2(k)) && l == TrueLayout(l.width, l.height, Pow2(k))
  }

  // ----- distinct samples, distinct bytes -----

  lemma RowMajor(x: nat, y: nat, stride: nat, rows: nat)
    requires x < stride && y < rows
    ensures y * stride + x < stride * rows
  {
    NextMultiple(y, rows, stride);
  }

  lemma RowMajorDiffers(x: nat, y: nat, u: nat, v: nat, stride: nat)
    requires x < stride && u < stride && y * stride + x == v * stride + u
    ensures x == u && y == v
  {
    Quotient(y * stride + x, stride, y);
    Quotient(v * stride + u, stride, v);
  }

  /** The chroma stride covers a chroma row. */
  predicate ChromaCovered(l: Layout) { ChromaColumns(l.width) <= l.strideU }

  lemma StrideCovers(l: Layout, k: nat)
    requires Accepted(l, k)
    ensures l.strideY >= l.width && (l.strideY % 2 == 0 ==> ChromaCovered(l))
    ensures k > 0 ==> l.strideY % 2 == 0
  {
    StrideIsAligned(l.width, k);
    if k > 0 { EvenMultiple(l.strideY, k); }
  }

  function End(l: Layout, plane: Plane): nat {
    match plane
    case Luma => l.yBytes
    case ChromaU => l.yBytes + l.uBytes
    case ChromaV => l.total
  }

  /** A sample lies inside its own plane, and the last plane ends with the allocation. */
  lemma SampleInPlane(l: Layout, k: nat, plane: Plane, x: nat, y: nat)
    requires Accepted(l, k) && ChromaCovered(l) && IsSample(l.width, l.height, plane, x, y)
    ensures Start(l, plane) <= Offset(l, plane, x, y) < End(l, plane) <= l.total
  {
    StrideCovers(l, k);
    RowMajor(x, y, Stride(l, plane), Rows(l.height, plane));
  }

  ghost predicate AllInPlane(l: Layout) {
    forall plane, x: nat, y: nat :: IsSample(l.width, l.height, plane, x, y) ==>
      Start(l, plane) <= Offset(l, plane, x, y) < End(l, plane) <= l.total
  }

  ghost predicate AllInside(l: Layout) {
    forall plane, x: nat, y: nat :: IsSample(l.width, l.height, plane, x, y) ==> Offset(l, plane, x, y) < l.total
  }

  /** Otherwise the last V sample is one byte past the allocation. */
  lemma LastSampleOutside(l: Layout, k: nat)
    requires Accepted(l, k) && !ChromaCovered(l)
    ensures k == 0 && IsSample(l.width, l.height, ChromaV, l.strideV, ChromaRows(l.height) - 1)
    ensures Offset(l, ChromaV, l.strideV, ChromaRows(l.height) - 1) == l.total
  {
    var rows := ChromaRows(l.height);
    StrideCovers(l, k);
    assert (rows - 1) * l.strideV + l.strideV == l.strideV * rows;
    Quotient(l.yBytes + l.uBytes + l.vBytes, 1, l.yBytes + l.uBytes + l.vBytes);
  }

  lemma CoveredExactly(l: Layout, k: nat)
    requires Accepted(l, k)
    ensures ChromaCovered(l) <==> !(k == 0 && l.width % 2 == 1 && l.width > 16)
  {
    StrideCovers(l, k);
    if k == 0 { Quotient(l.width, 1, l.width); }
  }

  /**
  Every sample lies in its own plane and inside the allocation, exactly when it is not the case that the
  alignment is 1 and the width odd and more than 16.
  */
  lemma OffsetInPlane(l: Layout, k: nat)
    requires Accepted(l, k)
    ensures AllInPlane(l) <==> !(k == 0 && l.width % 2 == 1 && l.width > 16)
    ensures AllInside(l) <==> AllInPlane(l)
  {
    CoveredExactly(l, k);
    if ChromaCovered(l) {
      forall plane, x: nat, y: nat | IsSample(l.width, l.height, plane, x, y)
        ensures Start(l, plane) <= Offset(l, plane, x, y) < End(l, plane) <= l.total
      {
        SampleInPlane(l, k, plane, x, y);
      }
    } else {
      LastSampleOutside(l, k);
    }
  }

  ghost predicate Injective(l: Layout) {
    forall plane, x: nat, y: nat, other, u: nat, v: nat ::
      (IsSample(l.width, l.height, plane, x, y) && IsSample(l.width, l.height, other, u, v)
       && Offset(l, plane, x, y) == Offset(l, other, u, v)) ==> plane == other && x == u && y == v
  }

  lemma PlanesDiffer(l: Layout, k: nat, plane: Plane, x: nat, y: nat, other: Plane, u: nat, v: nat)
    requires Accepted(l, k) && ChromaCovered(l)
    requires IsSample(l.width, l.height, plane, x, y) && IsSample(l.width, l.height, other, u, v)
    requires Offset(l, plane, x, y) == Offset(l, other, u, v)
    ensures plane == other
  {
    SampleInPlane(l, k, plane, x, y);
    SampleInPlane(l, k, other, u, v);
  }

  lemma OffsetsDiffer(l: Layout, k: nat, plane: Plane, x: nat, y: nat, other: Plane, u: nat, v: nat)
    requires Accepted(l, k) && ChromaCovered(l)
    requires IsSample(l.width, l.height, plane, x, y) && IsSample(l.width, l.height, other, u, v)
    requires Offset(l, plane, x, y) == Offset(l, other, u, v)
    ensures plane == other && x == u && y == v
  {
    PlanesDiffer(l, k, plane, x, y, other, u, v);
    StrideCovers(l, k);
    RowMajorDiffers(x, y, u, v, Stride(l, plane));
  }

  /** Otherwise the last U sample of the last row is the first V sample. */
  lemma Collision(l: Layout, k: nat)
    requires Accepted(l, k) && !ChromaCovered(l)
    ensures !Injective(l)
  {
    var rows := ChromaRows(l.height);
    assert IsSample(l.width, l.height, ChromaU, l.strideU, rows - 1);
    assert IsSample(l.width, l.height, ChromaV, 0, 0);
    assert (rows - 1) * l.strideU + l.strideU == l.strideU * rows;
    assert Offset(l, ChromaU, l.strideU, rows - 1) == Offset(l, ChromaV, 0, 0);
  }

  /**
  Planes are disjoint and distinct samples have distinct bytes exactly when it is not the case that
  the alignment is 1 and the width odd and more than 16.
  */
  lemma InjectiveExactly(l: Layout, k: nat)
    requires Accepted(l, k)
    ensures Injective(l) <==> !(k == 0 && l.width % 2 == 1 && l.width > 16)
  {
    CoveredExactly(l, k);
    if ChromaCovered(l) {
      forall plane, x: nat, y: nat, other, u: nat, v: nat
        | IsSample(l.width, l.height, plane, x, y) && IsSample(l.width, l.height, other, u, v)
          && Offset(l, plane, x, y) == Offset(l, other, u, v)
        ensures plane == other && x == u && y == v
      {
        OffsetsDiffer(l, k, plane, x, y, other, u, v);
      }
    } else {
      Collision(l, k);
    }
  }

  // ----- ByteSize -----

  /** I420Buffer::ByteSize, in size_t. */
  function ByteSize(l: Layout, bits: nat): nat {
    Add(Add(Mul(l.strideY, l.height, bits), Mul(l.strideU, l.height / 2, bits), bits),
        Mul(l.strideV, l.height / 2, bits), bits)
  }

  lemma ExtraRow(s: nat, height: nat)
    ensures s * ChromaRows(height) == s * (height / 2) + (if height % 2 == 0 then 0 else s)
  {
    assert ChromaRows(height) == height / 2 + height % 2;
    assert s * (height / 2 + height % 2) == s * (height / 2) + s * (height % 2);
  }

  /** It never wraps and never exceeds the allocation; for odd heights it is short by one row of U and one of V. */
  lemma ByteSizeIs(l: Layout, k: nat, bits: nat)
    requires Accepted(l, k) && l.total < Pow2(bits)
    ensures ByteSize(l, bits) == l.total - (if l.height % 2 == 0 then 0 else l.strideU + l.strideV)
  {
    var half, s := l.height / 2, l.strideU;
    ExtraRow(s, l.height);
    MulFits(l.strideY, l.height, bits);
    MulFits(s, half, bits);
    AddFits(l.yBytes, s * half, bits);
    AddFits(l.yBytes + s * half, s * half, bits);
  }

  // ----- packed frames -----

  /** A packed frame has no padding. */
  function PackedStart(width: nat, height: nat, plane: Plane): nat {
    match plane
    case Luma => 0
    case ChromaU => width * height
    case ChromaV => width * height + ChromaColumns(width) * ChromaRows(height)
  }

  function PackedOffset(width: nat, height: nat, plane: Plane, x: nat, y: nat): nat {
    PackedStart(width, height, plane) + y * Columns(width, plane) + x
  }

  function PackedSize(width: nat, height: nat): nat {
    PackedStart(width, height, ChromaV) + ChromaColumns(width) * ChromaRows(height)
  }

  /** A packed frame always fits the allocation. */
  lemma PackedFits(l: Layout, k: nat)
    requires Accepted(l, k) && ChromaCovered(l)
    ensures PackedSize(l.width, l.height) <= l.total
  {
    StrideCovers(l, k);
    Monotone(l.width, l.height, l.strideY, l.height);
    Monotone(ChromaColumns(l.width), ChromaRows(l.height), l.strideU, ChromaRows(l.height));
  }

  lemma PackedInFrame(width: nat, height: nat, plane: Plane, x: nat, y: nat)
    requires IsSample(width, height, plane, x, y)
    ensures PackedOffset(width, height, plane, x, y) < PackedSize(width, height)
  {
    RowMajor(x, y, Columns(width, plane), Rows(height, plane));
  }

  /** Copying the packed bytes puts every sample where the strides expect it. */
  ghost predicate PlacesEverySample(l: Layout) {
    forall plane, x: nat, y: nat :: IsSample(l.width, l.height, plane, x, y) ==>
      PackedOffset(l.width, l.height, plane, x, y) == Offset(l, plane, x, y)
  }

  ghost predicate PlacesLuma(l: Layout) {
    forall x: nat, y: nat :: IsSample(l.width, l.height, Luma, x, y) ==>
      PackedOffset(l.width, l.height, Luma, x, y) == Offset(l, Luma, x, y)
  }

  lemma LumaPlacedExactly(l: Layout, k: nat)
    requires Accepted(l, k)
    ensures PlacesLuma(l) <==> l.strideY == l.width || l.height == 1
  {
    StrideCovers(l, k);
    if l.height > 1 && l.strideY != l.width {
      assert IsSample(l.width, l.height, Luma, 0, 1);
      assert PackedOffset(l.width, l.height, Luma, 0, 1) != Offset(l, Luma, 0, 1);
    }
  }

  /** No stride has padding. */
  predicate Tight(l: Layout) {
    && l.strideY == l.width && l.strideU == l.strideV == ChromaColumns(l.width)
    && l.yBytes == l.width * l.height && l.uBytes == ChromaColumns(l.width) * ChromaRows(l.height)
  }

  lemma PlacedWithoutPadding(l: Layout)
    requires Tight(l)
    ensures PlacesEverySample(l)
  {
    forall plane, x: nat, y: nat | IsSample(l.width, l.height, plane, x, y)
      ensures PackedOffset(l.width, l.height, plane, x, y) == Offset(l, plane, x, y)
    {
      assert PackedStart(l.width, l.height, plane) == Start(l, plane);
      assert Columns(l.width, plane) == Stride(l, plane);
    }
  }

  lemma PaddingMisplaces(l: Layout)
    requires l.width > 0 && l.height > 0 && l.strideY > l.width && l.yBytes == l.strideY * l.height
    ensures !PlacesEverySample(l)
  {
    NextMultiple(l.width, l.strideY, l.height);
    assert IsSample(l.width, l.height, ChromaU, 0, 0);
    assert PackedOffset(l.width, l.height, ChromaU, 0, 0) == l.width * l.height;
  }

  lemma StrideIsWidth(width: nat)
    requires width > 0
    ensures StrideFor(width, 64) >= width && (StrideFor(width, 64) == width <==> width % 64 == 0)
  {
    AlignUpIsLeast(width, 64, width);
    if width % 64 == 0 { AtLeastOne(width, 64); }
  }

  lemma EvenWidth(width: nat)
    requires width % 64 == 0
    ensures width / 2 == ChromaColumns(width)
  {
    assert Pow2(6) == 64;
    EvenMultiple(width, 6);
  }

  lemma TightExactly(l: Layout)
    requires l.strideY == l.width <==> l.width % 64 == 0
    requires l.strideU == l.strideV == l.strideY / 2
    requires l.yBytes == l.strideY * l.height && l.uBytes == l.strideU * ChromaRows(l.height)
    ensures Tight(l) <==> l.width % 64 == 0
  {
    if l.width % 64 == 0 { EvenWidth(l.width); }
  }

  /** With the frame buffer's alignment of 64: every sample lands right exactly for widths that are multiples of 64. */
  lemma PlacedExactly(l: Layout)
    requires Accepted(l, 6)
    ensures PlacesEverySample(l) <==> l.width % 64 == 0
  {
    assert Pow2(6) == 64;
    StrideIsWidth(l.width);
    TightExactly(l);
    if Tight(l) { PlacedWithoutPadding(l); } else { PaddingMisplaces(l); }
  }
}
