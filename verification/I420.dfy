/** I420Buffer::Create up to its allocation: strides, overflow guards and plane sizes; and where each sample lies. */
module I420Layout {
  import opened Alignment

  const INT_MAX := 0x7fff_ffff

  datatype SizeError =
    | InvalidSize | BadAlignment
    | IntOverflow             // signed overflow: undefined in C++
    | OverflowY | OverflowUV | OverflowYU | OverflowYUV
    | BadAlloc
    | BufferOverrun           // a copy past the allocation: undefined in C++

  datatype Result<+T> = Success(value: T) | Failure(error: SizeError)

  datatype Layout = Layout(width: nat, height: nat, strideY: nat, strideU: nat, strideV: nat,
                           yBytes: nat, uBytes: nat, vBytes: nat, total: nat)

  /** size_t arithmetic with SIZE_MAX + 1 == Pow2(bits); every sum and product wraps. */
  function Mul(a: nat, b: nat, bits: nat): nat { a * b % Pow2(bits) }
  function Add(a: nat, b: nat, bits: nat): nat { (a + b) % Pow2(bits) }

  function StrideFor(width: nat, align: nat): nat
    requires align > 0
  {
    Max(AlignUp(width, align), 16)
  }

  function ChromaRows(height: nat): nat { (height + 1) / 2 }
  function ChromaColumns(width: nat): nat { (width + 1) / 2 }

  function Plan(width: int, height: int, align: int, bits: nat): Result<Layout> {
    if width <= 0 || height <= 0 then Failure(InvalidSize)
    else if align <= 0 || BitAnd(align, align - 1) != 0 then Failure(BadAlignment)
    else if width + align > INT_MAX then Failure(IntOverflow)
    else
      var strideY := StrideFor(width, align);
      if strideY > Div(Pow2(bits) - 1, height) then Failure(OverflowY)
      else if height + 1 > INT_MAX then Failure(IntOverflow)
      else if strideY / 2 > Div(Pow2(bits) - 1, ChromaRows(height)) then Failure(OverflowUV)
      else
        PlanPlanes(width, height, strideY,
                   Mul(strideY, height, bits), Mul(strideY / 2, ChromaRows(height), bits), align, bits)
  }

  /** The rest of Create, given the plane sizes. */
  function PlanPlanes(width: nat, height: nat, strideY: nat, y: nat, u: nat, align: nat, bits: nat): Result<Layout>
    requires align > 0
  {
    var sizeMax := Pow2(bits) - 1;
    if y > sizeMax - u then Failure(OverflowYU)
    else if Add(y, u, bits) > sizeMax - u then Failure(OverflowYUV)
    else Success(Layout(width, height, strideY, strideY / 2, strideY / 2, y, u, u,
                        RoundUp(Add(Add(y, u, bits), u, bits), align, bits)))
  }

  function Div(a: nat, b: nat): nat
    requires b > 0
  {
    a / b
  }

  /** The last round-up, without a guard. */
  function RoundUp(raw: nat, align: nat, bits: nat): nat
    requires align > 0
  {
    Mul(Div(Add(raw, align - 1, bits), align), align, bits)
  }

  // ----- the guards are exact -----

  /** The size without wrap-around: one luma plane and two chroma planes. */
  function TrueSize(width: nat, height: nat, align: nat): nat
    requires align > 0
  {
    StrideFor(width, align) * height + 2 * (StrideFor(width, align) / 2 * ChromaRows(height))
  }

  /** What Plan gives where nothing wraps. */
  function TrueLayout(width: nat, height: nat, align: nat): Layout
    requires align > 0
  {
    var strideY := StrideFor(width, align);
    var chroma := strideY / 2 * ChromaRows(height);
    Layout(width, height, strideY, strideY / 2, strideY / 2, strideY * height, chroma, chroma,
           TrueSize(width, height, align))
  }

  predicate FitsInt(width: int, height: int, align: int) {
    && width > 0 && height > 0 && align > 0 && width + align <= INT_MAX && height + 1 <= INT_MAX
  }

  lemma GuardIsExact(a: nat, b: nat, limit: nat)
    requires b > 0
    ensures a > limit / b <==> a * b > limit
  {
    Divided(limit, b);
    NextMultiple(limit / b, a, b);
    if a <= limit / b { Monotone(a, b, limit / b, b); }
  }

  lemma MultipleTimes(s: nat, n: nat, a: nat)
    requires a > 0 && s % a == 0
    ensures s * n % a == 0
  {
    var q := s / a;
    assert s == q * a by { Divided(s, a); }
    assert q * a * n == q * n * a;
    Quotient(s * n, a, q * n);
  }

  lemma MultiplesAdd(s: nat, t: nat, a: nat)
    requires a > 0 && s % a == 0 && t % a == 0
    ensures (s + t) % a == 0
  {
    var p, q := s / a, t / a;
    assert s == p * a by { Divided(s, a); }
    assert t == q * a by { Divided(t, a); }
    assert (p + q) * a == p * a + q * a;
    Quotient(s + t, a, p + q);
  }

  lemma ChromaPlanes(s: nat, rows: nat)
    requires s % 2 == 0
    ensures 2 * (s / 2 * rows) == s * rows
  {
    var half := s / 2;
    assert s == 2 * half;
  }

  lemma PlanesAligned(s: nat, height: nat, rows: nat, k: nat)
    requires s % Pow2(k) == 0
    ensures (s * height + 2 * (s / 2 * rows)) % Pow2(k) == 0
  {
    var a := Pow2(k);
    if k == 0 {
      Quotient(s * height + 2 * (s / 2 * rows), 1, s * height + 2 * (s / 2 * rows));
    } else {
      EvenMultiple(s, k);
      ChromaPlanes(s, rows);
      MultipleTimes(s, height, a);
      MultipleTimes(s, rows, a);
      MultiplesAdd(s * height, s * rows, a);
    }
  }

  /** The raw total is already a multiple of the alignment. */
  lemma TrueSizeAligned(width: nat, height: nat, k: nat)
    requires width > 0
    ensures TrueSize(width, height, Pow2(k)) % Pow2(k) == 0
  {
    StrideIsAligned(width, k);
    PlanesAligned(StrideFor(width, Pow2(k)), height, ChromaRows(height), k);
  }

  lemma EvenMultiple(s: nat, k: nat)
    requires k > 0 && s % Pow2(k) == 0
    ensures s % 2 == 0
  {
    var half, q := Pow2(k - 1), s / Pow2(k);
    assert s == q * (2 * half) by { Divided(s, Pow2(k)); }
    assert q * (2 * half) == 2 * (q * half);
  }

  lemma MultipleBelow(raw: nat, k: nat, bits: nat)
    requires raw % Pow2(k) == 0 && raw < Pow2(bits) && k <= bits
    ensures raw + Pow2(k) <= Pow2(bits)
  {
    var a := Pow2(k);
    Pow2Divides(k, bits);
    Divided(raw, a);
    Divided(Pow2(bits), a);
    NextMultiple(raw / a, Pow2(bits) / a, a);
    NextMultiple(Pow2(bits) / a, raw / a, a);
  }

  lemma MulFits(a: nat, b: nat, bits: nat)
    requires a * b < Pow2(bits)
    ensures Mul(a, b, bits) == a * b
  {
    Quotient(a * b, Pow2(bits), 0);
  }

  lemma AddFits(a: nat, b: nat, bits: nat)
    requires a + b < Pow2(bits)
    ensures Add(a, b, bits) == a + b
  {
    Quotient(a + b, Pow2(bits), 0);
  }

  /** So rounding it up again changes nothing and cannot wrap. */
  lemma RoundUpIsIdle(raw: nat, k: nat, bits: nat)
    requires raw % Pow2(k) == 0 && raw < Pow2(bits) && k <= bits
    ensures RoundUp(raw, Pow2(k), bits) == raw
  {
    var a := Pow2(k);
    var q := Div(raw, a);
    MultipleBelow(raw, k, bits);
    AddFits(raw, a - 1, bits);
    assert raw == q * a by { Divided(raw, a); }
    assert Div(raw + a - 1, a) == q by { Quotient(raw + a - 1, a, q); }
    MulFits(q, a, bits);
  }

  lemma Pow2Divides(k: nat, n: nat)
    requires k <= n
    ensures Pow2(n) % Pow2(k) == 0
  {
    if k == n {
      Quotient(Pow2(n), Pow2(k), 1);
    } else {
      Pow2Divides(k, n - 1);
      MultipleTimes(Pow2(n - 1), 2, Pow2(k));
    }
  }

  /**
  For every width of size_t that holds int: Create gets past its checks exactly when the arguments are
  valid, no int sum overflows and the true size fits; and then no sum or product has wrapped, the
  unguarded last round-up included.
  */
  lemma GuardsAreExact(width: int, height: int, align: int, bits: nat)
    requires Pow2(bits) > INT_MAX
    ensures var plan := Plan(width, height, align, bits);
            && (plan.Success? <==> FitsInt(width, height, align) && PowerOfTwo(align)
                                   && TrueSize(width, height, align) < Pow2(bits))
            && (plan.Success? ==> plan.value == TrueLayout(width, height, align))
  {
    if FitsInt(width, height, align) {
      TestIsExact(align);
      if PowerOfTwo(align) {
        var k: nat :| align == Pow2(k);
        ChecksAreExact(width, height, k, bits);
      }
    }
  }

  lemma PlanesAreExact(width: nat, height: nat, y: nat, u: nat, k: nat, bits: nat)
    requires y < Pow2(bits) && u < Pow2(bits) && (y + u + u) % Pow2(k) == 0 && k <= bits
    ensures var plan := PlanPlanes(width, height, StrideFor(width, Pow2(k)), y, u, Pow2(k), bits);
            && (plan.Success? <==> y + u + u < Pow2(bits))
            && (plan.Success? ==> plan.value.yBytes == y && plan.value.uBytes == u && plan.value.total == y + u + u)
  {
    if y + u < Pow2(bits) {
      Quotient(y + u, Pow2(bits), 0);
      if y + u + u < Pow2(bits) {
        Quotient(y + u + u, Pow2(bits), 0);
        RoundUpIsIdle(y + u + u, k, bits);
      }
    }
  }

  /** Each plane guard fails exactly where that plane's size wraps. */
  lemma PlaneGuards(width: nat, height: nat, k: nat, bits: nat)
    requires Pow2(bits) > INT_MAX && FitsInt(width, height, Pow2(k))
    ensures var strideY := StrideFor(width, Pow2(k));
            var y, u := strideY * height, strideY / 2 * ChromaRows(height);
            Plan(width, height, Pow2(k), bits) ==
            if y >= Pow2(bits) then Failure(OverflowY)
            else if u >= Pow2(bits) then Failure(OverflowUV)
            else PlanPlanes(width, height, strideY, y, u, Pow2(k), bits)
  {
    var strideY := StrideFor(width, Pow2(k));
    TestAcceptsPowers(k);
    GuardIsExact(strideY, height, Pow2(bits) - 1);
    GuardIsExact(strideY / 2, ChromaRows(height), Pow2(bits) - 1);
    if strideY * height < Pow2(bits) && strideY / 2 * ChromaRows(height) < Pow2(bits) {
      MulFits(strideY, height, bits);
      MulFits(strideY / 2, ChromaRows(height), bits);
    }
  }

  /** Plan, with the plane sizes named. */
  lemma SizesAreExact(width: nat, height: nat, k: nat, bits: nat, y: nat, u: nat)
    requires Pow2(bits) > INT_MAX && FitsInt(width, height, Pow2(k))
    requires y == StrideFor(width, Pow2(k)) * height && u == StrideFor(width, Pow2(k)) / 2 * ChromaRows(height)
    ensures Plan(width, height, Pow2(k), bits).Success? <==> y + 2 * u < Pow2(bits)
    ensures y + 2 * u < Pow2(bits) ==>
              var s := StrideFor(width, Pow2(k));
              Plan(width, height, Pow2(k), bits).value == Layout(width, height, s, s / 2, s / 2, y, u, u, y + 2 * u)
  {
    PlaneGuards(width, height, k, bits);
    TrueSizeAligned(width, height, k);
    AlignmentFits(k, bits);
    if y < Pow2(bits) && u < Pow2(bits) {
      PlanesAreExact(width, height, y, u, k, bits);
    }
  }

  lemma AlignmentFits(k: nat, bits: nat)
    requires Pow2(k) <= INT_MAX < Pow2(bits)
    ensures k <= bits
  {
    if k > bits { Pow2Grows(bits, k); }
  }

  lemma ChecksAreExact(width: nat, height: nat, k: nat, bits: nat)
    requires Pow2(bits) > INT_MAX && FitsInt(width, height, Pow2(k))
    ensures var plan := Plan(width, height, Pow2(k), bits);
            && (plan.Success? <==> TrueSize(width, height, Pow2(k)) < Pow2(bits))
            && (plan.Success? ==> plan.value == TrueLayout(width, height, Pow2(k)))
  {
    var strideY := StrideFor(width, Pow2(k));
    SizesAreExact(width, height, k, bits, strideY * height, strideY / 2 * ChromaRows(height));
  }

  /** Which argument is refused: sizes are looked at first, then the alignment, then their sum. */
  lemma ArgumentErrors(width: int, height: int, align: int, bits: nat)
    ensures var plan := Plan(width, height, align, bits);
            && (plan == Failure(InvalidSize) <==> width <= 0 || height <= 0)
            && (plan == Failure(BadAlignment) <==> width > 0 && height > 0 && !PowerOfTwo(align))
            && (width > 0 && height > 0 && PowerOfTwo(align) && width + align > 0x7fff_ffff ==>
                  plan == Failure(IntOverflow))
  {
    if align > 0 {
      TestIsExact(align);
    } else {
      forall k: nat ensures align != Pow2(k) {}
    }
  }

  lemma SumsAreExact(width: nat, height: nat, strideY: nat, y: nat, u: nat, align: nat, bits: nat)
    requires align > 0 && y < Pow2(bits) && u < Pow2(bits)
    ensures var plan := PlanPlanes(width, height, strideY, y, u, align, bits);
            && (plan == Failure(OverflowYU) <==> Pow2(bits) <= y + u)
            && (plan == Failure(OverflowYUV) <==> y + u < Pow2(bits) <= y + 2 * u)
            && (plan.Failure? ==> plan.error.OverflowYU? || plan.error.OverflowYUV?)
  {
    if y + u < Pow2(bits) { AddFits(y, u, bits); }
  }

  /** Which check fails, in terms of the true sizes; the chroma guard can never fail after the luma guard. */
  lemma OverflowsAreExact(width: nat, height: nat, k: nat, bits: nat)
    requires Pow2(bits) > INT_MAX && FitsInt(width, height, Pow2(k))
    ensures var plan := Plan(width, height, Pow2(k), bits);
            var y := StrideFor(width, Pow2(k)) * height;
            var u := StrideFor(width, Pow2(k)) / 2 * ChromaRows(height);
            && (plan == Failure(OverflowY) <==> Pow2(bits) <= y)
            && (plan == Failure(OverflowYU) <==> y < Pow2(bits) <= y + u)
            && (plan == Failure(OverflowYUV) <==> y + u < Pow2(bits) <= y + 2 * u)
            && plan != Failure(OverflowUV)
  {
    var strideY := StrideFor(width, Pow2(k));
    var y, u := strideY * height, strideY / 2 * ChromaRows(height);
    PlaneGuards(width, height, k, bits);
    ChromaIsSmaller(strideY, height);
    if y < Pow2(bits) { SumsAreExact(width, height, strideY, y, u, Pow2(k), bits); }
  }

  lemma ChromaIsSmaller(stride: nat, height: nat)
    requires height > 0
    ensures stride / 2 * ChromaRows(height) <= stride * height
  {
    Monotone(stride / 2, ChromaRows(height), stride, height);
  }

  lemma StrideFitsInt(width: nat, height: nat, k: nat)
    requires FitsInt(width, height, Pow2(k))
    ensures StrideFor(width, Pow2(k)) <= INT_MAX && StrideFor(width, Pow2(k)) * height <= INT_MAX * INT_MAX
  {
    AlignUpIsNext(width, Pow2(k));
    Monotone(StrideFor(width, Pow2(k)), height, INT_MAX, INT_MAX);
  }

  /** With a 64-bit size_t every valid picture of int dimensions fits. */
  lemma SixtyFourBits(width: nat, height: nat, k: nat)
    requires FitsInt(width, height, Pow2(k))
    ensures Plan(width, height, Pow2(k), 64) == Success(TrueLayout(width, height, Pow2(k)))
  {
    PowerValue();
    StrideFitsInt(width, height, k);
    ChromaIsSmaller(StrideFor(width, Pow2(k)), height);
    ChecksAreExact(width, height, k, 64);
  }

  lemma PowerValue()
    ensures Pow2(32) == 0x1_0000_0000 && Pow2(64) == 0x1_0000_0000_0000_0000
  {
    assert Pow2(8) == 256;
    assert Pow2(16) == 0x1_0000 by { Pow2Adds(8, 8); }
    assert Pow2(32) == 0x1_0000_0000 by { Pow2Adds(16, 16); }
    Pow2Adds(32, 32);
  }

  lemma {:induction false} Pow2Adds(m: nat, n: nat)
    ensures Pow2(m + n) == Pow2(m) * Pow2(n)
  {
    if m == 0 {
    } else {
      Pow2Adds(m - 1, n);
      assert 2 * (Pow2(m - 1) * Pow2(n)) == 2 * Pow2(m - 1) * Pow2(n);
    }
  }
}
