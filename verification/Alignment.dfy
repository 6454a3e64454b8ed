/** The two AlignUps of the frame buffers, and the power-of-two test. */
module Alignment {
  function Pow2(k: nat): (r: nat)
    ensures r >= 1
  {
    if k == 0 then 1 else 2 * Pow2(k - 1)
  }

  ghost predicate PowerOfTwo(n: int) { exists k: nat :: n == Pow2(k) }

  /** Bitwise and of two natural numbers. */
  function BitAnd(a: nat, b: nat): nat {
    if a == 0 || b == 0 then 0 else 2 * BitAnd(a / 2, b / 2) + (a % 2) * (b % 2)
  }

  /** Rounding up in int, by dividing and multiplying. */
  function AlignUp(v: nat, a: nat): nat
    requires a > 0
  {
    (v + a - 1) / a * a
  }

  /** Rounding up in a size_t of the given width, by masking: every operation wraps. */
  function MaskAlignUp(v: nat, a: nat, width: nat): nat {
    var modulus := Pow2(width);
    BitAnd((v + a - 1) % modulus, modulus - 1 - (a - 1) % modulus)
  }

  // ----- dividing and multiplying -----

  lemma Monotone(a: nat, b: nat, c: nat, d: nat)
    requires a <= c && b <= d
    ensures a * b <= c * d
  {
    NotNegative(c - a, b);
    NotNegative(c, d - b);
  }

  lemma NotNegative(a: nat, b: nat)
    ensures a * b >= 0
  {
  }

  lemma NextMultiple(p: nat, q: nat, a: nat)
    ensures p < q ==> p * a + a <= q * a
  {
    if p < q {
      Monotone(p + 1, a, q, a);
      assert (p + 1) * a == p * a + a;
    }
  }

  lemma Divided(x: nat, a: nat)
    requires a > 0
    ensures x / a * a <= x < x / a * a + a && x == x / a * a + x % a
  {
  }

  lemma Quotient(x: nat, a: nat, q: nat)
    requires q * a <= x < q * a + a
    ensures x / a == q && x % a == x - q * a
  {
    Divided(x, a);
    NextMultiple(x / a, q, a);
    NextMultiple(q, x / a, a);
  }

  lemma AlignUpIsNext(v: nat, a: nat)
    requires a > 0
    ensures v <= AlignUp(v, a) < v + a && AlignUp(v, a) % a == 0
  {
    Divided(v + a - 1, a);
    Quotient(AlignUp(v, a), a, (v + a - 1) / a);
  }

  lemma AlignUpIsBelow(v: nat, a: nat, p: nat)
    requires a > 0 && v <= p * a
    ensures AlignUp(v, a) <= p * a
  {
    var up := AlignUp(v, a);
    AlignUpIsNext(v, a);
    NextMultiple(p, (v + a - 1) / a, a);
    if (v + a - 1) / a <= p { NextMultiple((v + a - 1) / a, p, a); }
  }

  /** The least multiple of a at or above v. */
  lemma AlignUpIsLeast(v: nat, a: nat, m: nat)
    requires a > 0
    ensures v <= AlignUp(v, a) && AlignUp(v, a) % a == 0
    ensures v <= m && m % a == 0 ==> AlignUp(v, a) <= m
  {
    AlignUpIsNext(v, a);
    if v <= m && m % a == 0 {
      Divided(m, a);
      AlignUpIsBelow(v, a, m / a);
    }
  }

  // ----- masks -----

  lemma {:induction false} MaskOfOnes(x: nat, width: nat)
    requires x < Pow2(width)
    ensures BitAnd(x, Pow2(width) - 1) == x
  {
    if x == 0 {
    } else {
      MaskOfOnes(x / 2, width - 1);
      assert (Pow2(width) - 1) / 2 == Pow2(width - 1) - 1;
    }
  }

  lemma Pow2Grows(k: nat, n: nat)
    requires k <= n
    ensures Pow2(k) <= Pow2(n)
  {
  }

  lemma HalfQuotient(x: nat, half: nat)
    requires half > 0
    ensures 2 * (x / 2 / half * half) == x / (2 * half) * (2 * half)
  {
    var q := x / 2 / half;
    assert q * half <= x / 2 < q * half + half;
    assert q * (2 * half) == 2 * (q * half);
    Quotient(x, 2 * half, q);
  }

  /** Masking with all bits from k up clears the k lowest. */
  lemma {:induction false} MaskClearsLowBits(x: nat, k: nat, width: nat)
    requires x < Pow2(width) && k <= width
    ensures Pow2(k) <= Pow2(width)
    ensures BitAnd(x, Pow2(width) - Pow2(k)) == x / Pow2(k) * Pow2(k)
  {
    Pow2Grows(k, width);
    if k == 0 {
      MaskOfOnes(x, width);
    } else {
      var half, top := Pow2(k - 1), Pow2(width - 1);
      Pow2Grows(k - 1, width - 1);
      assert Pow2(k) == 2 * half && Pow2(width) == 2 * top;
      MaskClearsLowBits(x / 2, k - 1, width - 1);
      AndOfDouble(x, top - half);
      HalfQuotient(x, half);
    }
  }

  lemma AndOfDouble(x: nat, mask: nat)
    ensures BitAnd(x, 2 * mask) == 2 * BitAnd(x / 2, mask)
  {
    assert 2 * mask / 2 == mask && 2 * mask % 2 == 0;
  }

  lemma MaskIs(a: nat, modulus: nat)
    requires 0 < a <= modulus
    ensures modulus - 1 - (a - 1) % modulus == modulus - a
  {
    Quotient(a - 1, modulus, 0);
  }

  /** Where the sum does not wrap, the two AlignUps agree for every power of two. */
  lemma AlignUpsAgree(v: nat, k: nat, width: nat)
    requires k <= width && v + Pow2(k) - 1 < Pow2(width)
    ensures MaskAlignUp(v, Pow2(k), width) == AlignUp(v, Pow2(k))
  {
    var a, modulus := Pow2(k), Pow2(width);
    Pow2Grows(k, width);
    MaskIs(a, modulus);
    Quotient(v + a - 1, modulus, 0);
    MaskClearsLowBits(v + a - 1, k, width);
  }

  lemma MaskedRest(x: nat, k: nat, width: nat)
    requires k <= width && x < Pow2(k)
    ensures Pow2(k) <= Pow2(width) && BitAnd(x, Pow2(width) - Pow2(k)) == 0
  {
    Pow2Grows(k, width);
    MaskClearsLowBits(x, k, width);
    Quotient(x, Pow2(k), 0);
  }

  /** Where the sum wraps, masking gives 0. */
  lemma MaskWrapsToZero(v: nat, k: nat, width: nat)
    requires k <= width && v < Pow2(width) <= v + Pow2(k) - 1
    ensures MaskAlignUp(v, Pow2(k), width) == 0
  {
    var a, modulus := Pow2(k), Pow2(width);
    Pow2Grows(k, width);
    MaskIs(a, modulus);
    Quotient(v + a - 1, modulus, 1);
    MaskedRest(v + a - 1 - modulus, k, width);
  }

  /** For every power of two the two AlignUps agree exactly where the sum does not wrap. */
  lemma AlignUpsAgreeExactly(v: nat, k: nat, width: nat)
    requires k <= width && v < Pow2(width)
    ensures MaskAlignUp(v, Pow2(k), width) == AlignUp(v, Pow2(k)) <==> v + Pow2(k) - 1 < Pow2(width)
  {
    Pow2Grows(k, width);
    AlignUpIsNext(v, Pow2(k));
    if v + Pow2(k) - 1 < Pow2(width) {
      AlignUpsAgree(v, k, width);
    } else {
      MaskWrapsToZero(v, k, width);
    }
  }

  // ----- the power-of-two test -----

  lemma {:induction false} TestAcceptsPowers(k: nat)
    ensures BitAnd(Pow2(k), Pow2(k) - 1) == 0
  {
    if k == 0 {
    } else {
      TestAcceptsPowers(k - 1);
      assert (Pow2(k) - 1) / 2 == Pow2(k - 1) - 1;
    }
  }

  lemma {:induction false} TestRejectsOthers(n: nat) returns (k: nat)
    requires n > 0 && BitAnd(n, n - 1) == 0
    ensures n == Pow2(k)
  {
    if n == 1 {
      k := 0;
    } else if n % 2 == 1 {
      BitAndSelf(n / 2);
      assert false;
    } else {
      assert (n - 1) / 2 == n / 2 - 1;
      k := TestRejectsOthers(n / 2);
      k := k + 1;
    }
  }

  lemma {:induction false} BitAndSelf(n: nat)
    ensures BitAnd(n, n) == n
  {
    if n == 0 {
    } else {
      BitAndSelf(n / 2);
    }
  }

  /** align & (align - 1) is 0 for exactly the powers of two. */
  lemma TestIsExact(n: nat)
    requires n > 0
    ensures BitAnd(n, n - 1) == 0 <==> PowerOfTwo(n)
  {
    if BitAnd(n, n - 1) == 0 {
      var k := TestRejectsOthers(n);
    }
    if PowerOfTwo(n) {
      var k: nat :| n == Pow2(k);
      TestAcceptsPowers(k);
    }
  }

  function Max(a: nat, b: nat): nat { if a < b then b else a }

  lemma SmallPower(k: nat)
    requires Pow2(k) <= 16
    ensures 16 % Pow2(k) == 0
  {
    if k >= 5 { Pow2Grows(5, k); }
    assert k == 0 || k == 1 || k == 2 || k == 3 || k == 4;
  }

  /** The least stride of 16 keeps the stride a multiple of the alignment. */
  lemma StrideIsAligned(v: nat, k: nat)
    requires v > 0
    ensures var stride := Max(AlignUp(v, Pow2(k)), 16);
            stride % Pow2(k) == 0 && stride >= v && stride >= 16
  {
    var a := Pow2(k);
    AlignUpIsNext(v, a);
    if AlignUp(v, a) < 16 {
      AtLeastOne(AlignUp(v, a), a);
      SmallPower(k);
    }
  }

  lemma AtLeastOne(n: nat, a: nat)
    requires n > 0 && a > 0 && n % a == 0
    ensures n >= a
  {
  }
}
