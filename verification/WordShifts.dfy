/** The 32-bit shifts of EX, bit by bit. */
module WordShifts {
  import opened Wrappers
  import opened Bits
  import opened Isa
  import opened Arithmetic

  /** A number and its remainder modulo 2^n have the same n low bits; above those the remainder has none. */
  lemma {:induction false} HighBits(x: nat, n: nat, k: nat)
    requires x < Pow2(n) && n <= k
    ensures Bit(x, k) == 0
  {
    if n == 0 {
      ZeroBits(k);
    } else {
      HighBits(x / 2, n - 1, k - 1);
    }
  }

  /** The sign bit of an n + 1 bit number. */
  lemma {:induction false} TopBit(x: nat, n: nat)
    requires x < 2 * Pow2(n)
    ensures Bit(x, n) == if x >= Pow2(n) then 1 else 0
  {
    if n > 0 {
      TopBit(x / 2, n - 1);
    }
  }

  /** Adding 2^n copies leaves the n low bits, and sets the bits of the copies above. */
  lemma {:induction false} JoinedBits(low: nat, high: nat, n: nat, k: nat)
    requires low < Pow2(n)
    ensures Bit(low + high * Pow2(n), k) == if k < n then Bit(low, k) else Bit(high, k - n)
  {
    if n == 0 {
      assert Pow2(0) == 1;
    } else {
      var p := Pow2(n - 1);
      assert high * Pow2(n) == 2 * (high * p) by { MulAssociates(high, 2, p); }
      assert (low + 2 * (high * p)) / 2 == low / 2 + high * p && (low + 2 * (high * p)) % 2 == low % 2;
      if k > 0 {
        JoinedBits(low / 2, high, n - 1, k - 1);
      }
    }
  }

  lemma OddHalf(p: nat)
    requires p > 0
    ensures (2 * p - 1) % 2 == 1 && (2 * p - 1) / 2 == p - 1
  {
  }

  lemma {:induction false} AllOnesBits(n: nat, k: nat)
    requires k < n
    ensures Bit(Pow2(n) - 1, k) == 1
  {
    var p := Pow2(n - 1);
    assert Pow2(n) == 2 * p;
    hide Pow2;
    OddHalf(p);
    if k > 0 {
      AllOnesBits(n - 1, k - 1);
    }
  }

  /** Sign extension repeats bit 31. */
  lemma SignExtendBits(x: nat, k: nat)
    requires k < 64
    ensures Bit(SignExtend32(x), k) == Bit(x, if k < 31 then k else 31)
  {
    hide Bit, Pow2;
    var low := x % U32;
    Pow2Of32();
    Pow2Of31();
    LowBits(x, 32, if k < 31 then k else 31);
    TopBit(low, 31);
    if low >= SIGN32 {
      assert SignExtend32(x) == low + (U32 - 1) * U32;
      JoinedBits(low, U32 - 1, 32, k);
      if k >= 32 {
        AllOnesBits(32, k - 32);
      }
    } else {
      assert SignExtend32(x) == low;
      if k >= 32 {
        HighBits(low, 32, k);
      }
    }
  }

  lemma SignExtendFits(x: int)
    ensures 0 <= SignExtend32(x) < U64
  {
  }

  lemma Pow2Of31()
    ensures Pow2(31) == SIGN32
  {
    Pow2Of32();
    assert Pow2(32) == 2 * Pow2(31);
  }

  /** SLLIW shifts as SLLI does and repeats bit 31 of that. */
  lemma WordLeftShift(pc: nat, a: nat, b: nat, offset: int, k: nat)
    requires a < U64 && k < 64
    ensures var r := Ex(Slliw, pc, a, b, offset);
            && (r.Some? <==> b < 64)
            && (b < 64 ==>
                  var i := if k < 31 then k else 31;
                  0 <= r.value < U64 && Bit(r.value, k) == if i < b then 0 else Bit(a, i - b))
  {
    hide Bit, Pow2, SignExtend32;
    if b < 64 {
      SignExtendFits(a * Pow2(b));
      MulMonotone(0, a, Pow2(b));
      SignExtendBits(a * Pow2(b), k);
      LeftShiftBits(a, b, if k < 31 then k else 31);
    }
  }

  /**
   * The right shifts of words look at 32 bits of the amount and of the operand. The logical ones bring in zeros and
   * leave the upper half zero, the arithmetic ones bring in bit 31; an amount of 32 or more is undefined.
   */
  lemma WordRightShifts(pc: nat, a: nat, b: nat, offset: int, k: nat)
    requires a < U64 && k < 64
    ensures var l, r, n := Ex(Srlw, pc, a, b, offset), Ex(Sraw, pc, a, b, offset), b % U32;
            && l == Ex(Srliw, pc, a, b, offset) && r == Ex(Sraiw, pc, a, b, offset)
            && (l.Some? <==> n < 32) && (r.Some? <==> n < 32)
            && (n < 32 ==>
                  && 0 <= l.value < U64 && Bit(l.value, k) == (if k + n < 32 then Bit(a, k + n) else 0)
                  && 0 <= r.value < U64 && Bit(r.value, k) == Bit(a, if k + n < 31 then k + n else 31))
  {
    hide Bit, Pow2, Ex, Signed, Wrap;
    var n := b % U32;
    LogicalKinds(pc, a, b, offset);
    ArithmeticKinds(pc, a, b, offset);
    if n < 32 {
      WordLogical(a, n, k);
      WordArithmetic(a, n, k);
    }
  }

  lemma LogicalKinds(pc: nat, a: nat, b: nat, offset: int)
    requires a < U64
    ensures Ex(Srlw, pc, a, b, offset) == Ex(Srliw, pc, a, b, offset) ==
            if b % U32 < 32 then Some(a % U32 / Pow2(b % U32)) else None
  {
    hide Pow2, Wrap, Signed, BitAnd, TruncDiv;
  }

  lemma ArithmeticKinds(pc: nat, a: nat, b: nat, offset: int)
    requires a < U64
    ensures Ex(Sraw, pc, a, b, offset) == Ex(Sraiw, pc, a, b, offset) ==
            if b % U32 < 32 then Some(Wrap(Signed(a % U32, SIGN32) / Pow2(b % U32))) else None
  {
    hide Pow2, Wrap, Signed, BitAnd, TruncDiv;
  }

  lemma WordLogical(a: nat, n: nat, k: nat)
    ensures var v := a % U32 / Pow2(n);
            0 <= v < U32 && Bit(v, k) == if k + n < 32 then Bit(a, k + n) else 0
  {
    hide Bit, Pow2;
    var low := a % U32;
    Pow2Of32();
    RightShiftBits(low, n, k);
    QuotientBelow(low, Pow2(n));
    if k + n < 32 {
      LowBits(a, 32, k + n);
    } else {
      HighBits(low, 32, k + n);
    }
  }

  lemma QuotientBelow(x: nat, d: nat)
    requires d > 0
    ensures 0 <= x / d <= x
  {
    DivNonNegative(x, d);
    var q := x / d;
    assert x == d * q + x % d;
    MulMonotone(1, d, q);
  }

  lemma WordArithmetic(a: nat, n: nat, k: nat)
    requires n < 32 && k < 64
    ensures var v := Wrap(Signed(a % U32, SIGN32) / Pow2(n));
            0 <= v < U64 && Bit(v, k) == Bit(a, if k + n < 31 then k + n else 31)
  {
    hide Bit, Pow2;
    var low, p := a % U32, Pow2(n);
    Pow2Of32();
    Pow2Of31();
    var i := if k + n < 31 then k + n else 31;
    LowBits(a, 32, i);
    LowBits(a, 32, 31);
    TopBit(low, 31);
    if low < SIGN32 {
      QuotientBelow(low, p);
      assert Wrap(low / p) == low / p;
      RightShiftBits(low, n, k);
      if k + n >= 31 {
        HighBits(low, 31, k + n);
      }
    } else {
      // A negative word is its 32 bits with ones above, as many as are shifted in.
      var above := p * U32 - 1;
      assert above == Pow2(n + 32) - 1 by { Pow2Add(n, 32); }
      NegativeQuotient(low, p);
      JoinedBits(low, above, 32, k + n);
      RightShiftBits(low + above * U32, n, k);
      if k + n >= 32 {
        AllOnesBits(n + 32, k + n - 32);
      }
    }
  }

  lemma NegativeQuotient(low: nat, p: nat)
    requires SIGN32 <= low < U32 && p > 0
    ensures p * U32 - 1 >= 0 && Wrap((low - U32) / p) == (low + (p * U32 - 1) * U32) / p
  {
    MulMonotone(1, p, U32);
    var x := low - U32;
    var q := x / p;
    assert x == q * p + x % p;
    assert -U32 <= q < 0 by { FloorFits(x, p, q); NegativeFloor(x, p, q); }
    assert (p * U32 - 1) * U32 == U64 * p - U32 by { MulAssociates(p, U32, U32); MulDistributes(p * U32, -1, U32); }
    assert low + (p * U32 - 1) * U32 == (q + U64) * p + x % p by { MulDistributes(q, U64, p); }
    DivModUnique(low + (p * U32 - 1) * U32, p, q + U64, x % p);
  }

  lemma NegativeFloor(x: int, p: nat, q: int)
    requires -U32 <= x < 0 && p > 0 && q * p <= x < q * p + p
    ensures -U32 <= q < 0
  {
    MulMonotone(1, p, U32);
    if q >= 0 {
      MulMonotone(0, q, p);
    } else if q < -U32 {
      MulMonotone(q + 1, -U32, p);
    }
  }
}
