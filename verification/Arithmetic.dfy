/** What the EX switch computes, in terms that do not repeat it. */
module Arithmetic {
  import opened Wrappers
  import opened Bits
  import opened Isa
  import opened Sequential

  /** What EX makes of two operands for the register; `None` where C++ leaves it undefined. */
  function Ex(k: Kind, pc: nat, a: nat, b: nat, offset: int): Option<int> {
    var r := Execute(k, pc, a, b, offset);
    if r.defined then Some(r.valE) else None
  }

  // Bitwise operations, bit by bit.

  function Bit(x: nat, k: nat): nat { if k == 0 then x % 2 else Bit(x / 2, k - 1) }

  lemma {:induction false} AndBits(x: nat, y: nat, k: nat)
    ensures Bit(BitAnd(x, y), k) == if Bit(x, k) == 1 && Bit(y, k) == 1 then 1 else 0
  {
    if x == 0 || y == 0 {
      ZeroBits(k);
    } else if k == 0 {
      assert BitAnd(x, y) % 2 == (x % 2) * (y % 2);
    } else {
      AndBits(x / 2, y / 2, k - 1);
      assert BitAnd(x, y) / 2 == BitAnd(x / 2, y / 2);
    }
  }

  lemma {:induction false} ZeroBits(k: nat)
    ensures Bit(0, k) == 0
  {
    if k > 0 {
      ZeroBits(k - 1);
    }
  }

  lemma {:induction false} AndIsBounded(x: nat, y: nat)
    ensures BitAnd(x, y) <= x && BitAnd(x, y) <= y
  {
    if x != 0 && y != 0 {
      AndIsBounded(x / 2, y / 2);
    }
  }

  lemma OrHalves(x: nat, y: nat)
    ensures BitOr(x, y) >= 0 && BitOr(x, y) / 2 == BitOr(x / 2, y / 2)
    ensures BitOr(x, y) % 2 == if x % 2 == 1 || y % 2 == 1 then 1 else 0
  {
    AndIsBounded(x, y);
    AndIsBounded(x / 2, y / 2);
  }

  lemma {:induction false} OrBits(x: nat, y: nat, k: nat)
    ensures BitOr(x, y) >= 0 && Bit(BitOr(x, y), k) == if Bit(x, k) == 1 || Bit(y, k) == 1 then 1 else 0
  {
    hide BitOr;
    OrHalves(x, y);
    BitIsZeroOrOne(x, k);
    BitIsZeroOrOne(y, k);
    if k > 0 {
      OrBits(x / 2, y / 2, k - 1);
    }
  }

  lemma {:induction false} BitIsZeroOrOne(x: nat, k: nat)
    ensures Bit(x, k) == 0 || Bit(x, k) == 1
  {
    if k > 0 {
      BitIsZeroOrOne(x / 2, k - 1);
    }
  }

  lemma XorHalves(x: nat, y: nat)
    ensures BitXor(x, y) >= 0 && BitXor(x, y) / 2 == BitXor(x / 2, y / 2)
    ensures BitXor(x, y) % 2 == if x % 2 != y % 2 then 1 else 0
  {
    AndIsBounded(x, y);
    AndIsBounded(x / 2, y / 2);
  }

  lemma {:induction false} XorBits(x: nat, y: nat, k: nat)
    ensures BitXor(x, y) >= 0 && Bit(BitXor(x, y), k) == if Bit(x, k) != Bit(y, k) then 1 else 0
  {
    hide BitXor;
    XorHalves(x, y);
    if k > 0 {
      XorBits(x / 2, y / 2, k - 1);
    }
  }

  lemma XorKinds(pc: nat, a: nat, b: nat, offset: int)
    ensures Ex(Xor, pc, a, b, offset) == Ex(Xori, pc, a, b, offset) == Some(BitXor(a, b))
  {
    hide BitXor, TruncDiv, Pow2, Wrap;
  }

  lemma OrKinds(pc: nat, a: nat, b: nat, offset: int)
    ensures Ex(Or, pc, a, b, offset) == Ex(Ori, pc, a, b, offset) == Some(BitOr(a, b))
  {
    hide BitOr, TruncDiv, Pow2, Wrap;
  }

  lemma AndKinds(pc: nat, a: nat, b: nat, offset: int)
    ensures Ex(And, pc, a, b, offset) == Ex(Andi, pc, a, b, offset) == Some(BitAnd(a, b))
  {
    hide BitAnd, TruncDiv, Pow2, Wrap;
  }

  /** The three bitwise kinds and their immediate forms, bit by bit. */
  lemma LogicIsBitwise(pc: nat, a: nat, b: nat, offset: int, k: nat)
    requires a < U64 && b < U64
    ensures var x, o, n := Ex(Xor, pc, a, b, offset), Ex(Or, pc, a, b, offset), Ex(And, pc, a, b,
            offset);
            && x.Some? && o.Some? && n.Some? && x.value >= 0 && o.value >= 0 && n.value >= 0
            && Bit(x.value, k) == (if Bit(a, k) != Bit(b, k) then 1 else 0)
            && Bit(o.value, k) == (if Bit(a, k) == 1 || Bit(b, k) == 1 then 1 else 0)
            && Bit(n.value, k) == (if Bit(a, k) == 1 && Bit(b, k) == 1 then 1 else 0)
            && x == Ex(Xori, pc, a, b, offset) && o == Ex(Ori, pc, a, b, offset) &&
               n == Ex(Andi, pc, a, b, offset)
  {
    hide BitAnd, BitOr, BitXor, Bit, Ex;
    XorKinds(pc, a, b, offset);
    OrKinds(pc, a, b, offset);
    AndKinds(pc, a, b, offset);
    XorBits(a, b, k);
    OrBits(a, b, k);
    AndBits(a, b, k);
  }

  // Sums and products.

  /** The carry into bit k of x + y + c, as a ripple-carry adder passes it on. */
  function Carry(x: nat, y: nat, c: nat, k: nat): nat {
    if k == 0 then c else Carry(x / 2, y / 2, (x % 2 + y % 2 + c) / 2, k - 1)
  }

  /** It is the majority of the two bits before and of the carry into them. */
  lemma {:induction false} CarryIsMajority(x: nat, y: nat, c: nat, k: nat)
    requires c <= 1
    ensures Carry(x, y, c, k) <= 1
    ensures Carry(x, y, c, k + 1) == if Bit(x, k) + Bit(y, k) + Carry(x, y, c, k) >= 2 then 1 else 0
  {
    if k > 0 {
      CarryIsMajority(x / 2, y / 2, (x % 2 + y % 2 + c) / 2, k - 1);
    } else {
      assert Carry(x, y, c, 1) == Carry(x / 2, y / 2, (x % 2 + y % 2 + c) / 2, 0);
    }
  }

  lemma {:induction false} SumBits(x: nat, y: nat, c: nat, k: nat)
    requires c <= 1
    ensures Bit(x + y + c, k) == (Bit(x, k) + Bit(y, k) + Carry(x, y, c, k)) % 2
  {
    if k > 0 {
      var c' := (x % 2 + y % 2 + c) / 2;
      SumBits(x / 2, y / 2, c', k - 1);
      assert (x + y + c) / 2 == x / 2 + y / 2 + c';
    }
  }

  /** ADD and ADDI add bit by bit with carries, and drop the carry out of bit 63. */
  lemma AddIsBitwise(pc: nat, a: nat, b: nat, offset: int, k: nat)
    requires a < U64 && b < U64 && k < 64
    ensures var s := Ex(Add, pc, a, b, offset);
            && s.Some? && 0 <= s.value < U64 && s == Ex(Addi, pc, a, b, offset)
            && Bit(s.value, k) == (Bit(a, k) + Bit(b, k) + Carry(a, b, 0, k)) % 2
            && Carry(a, b, 0, k + 1) == if Bit(a, k) + Bit(b, k) + Carry(a, b, 0, k) >= 2 then 1 else 0
  {
    hide Bit, Carry, Pow2;
    CarryIsMajority(a, b, 0, k);
    SumBits(a, b, 0, k);
    Pow2Of64();
    LowBits(a + b, 64, k);
  }

  /** MUL adds up: nothing times a is 0, and one more time a is a more. */
  lemma MultiplyAddsUp(pc: nat, a: nat, b: nat, offset: int)
    requires a < U64 && b + 1 < U64
    ensures Ex(Mul, pc, a, 0, offset) == Some(0)
    ensures var p := Ex(Mul, pc, a, b, offset);
            && p.Some? && 0 <= p.value < U64
            && Ex(Mul, pc, a, b + 1, offset) == Ex(Add, pc, p.value, a, offset)
  {
    assert a * (b + 1) == a * b + a;
    WrapFirst(a * b, a);
    hide Wrap;
    assert a * 0 == 0;
    assert Wrap(0) == 0 by { WrapSmall(0); }
  }

  lemma WrapFirst(x: int, y: int)
    ensures Wrap(Wrap(x) + y) == Wrap(x + y)
  {
  }

  lemma WrapSmall(x: nat)
    requires x < U64
    ensures Wrap(x) == x
  {
  }

  lemma SumKinds(pc: nat, a: nat, b: nat, offset: int)
    ensures Ex(Add, pc, a, b, offset) == Ex(Addi, pc, a, b, offset) == Some(Wrap(a + b))
  {
    hide Wrap, TruncDiv, Pow2, BitAnd;
  }

  lemma DifferenceKinds(pc: nat, a: nat, b: nat, offset: int)
    ensures Ex(Sub, pc, a, b, offset) == Some(Wrap(a - b))
    ensures Ex(Subw, pc, a, b, offset) == Some(SignExtend32(a - b))
  {
    hide Wrap, TruncDiv, Pow2, BitAnd, SignExtend32;
  }

  /** Subtraction undoes addition, in both widths. */
  lemma SubtractUndoesAdd(pc: nat, a: nat, b: nat, offset: int)
    requires a < U64 && b < U64
    ensures var s := Ex(Add, pc, a, b, offset);
            && s.Some? && 0 <= s.value < U64 && s == Ex(Addi, pc, a, b, offset)
            && Ex(Sub, pc, s.value, b, offset) == Some(a)
            && Ex(Subw, pc, s.value, b, offset) == Some(SignExtend32(a))
  {
    hide Ex, Wrap, SignExtend32;
    SumKinds(pc, a, b, offset);
    DifferenceKinds(pc, Wrap(a + b), b, offset);
    WrapUndone(a, b);
    LowWordUndone(a, b);
    SameWord(Wrap(a + b) - b, a);
  }

  lemma LowWordUndone(a: nat, b: nat)
    ensures (Wrap(a + b) - b) % U32 == a % U32
  {
    RemainderOfRemainder(a + b, U32, U32);
    var s := Wrap(a + b);
    assert s % U32 == (a + b) % U32;
    hide Wrap;
    assert (s - b) % U32 == a % U32;
  }

  lemma SameWord(x: int, y: int)
    requires x % U32 == y % U32
    ensures SignExtend32(x) == SignExtend32(y)
  {
  }

  lemma WrapUndone(a: nat, b: nat)
    requires a < U64 && b < U64
    ensures Wrap(Wrap(a + b) - b) == a
  {
  }

  lemma WordSumKinds(pc: nat, a: nat, b: nat, offset: int)
    ensures Ex(Addw, pc, a, b, offset) == Ex(Addiw, pc, a, b, offset) == Some(SignExtend32(a + b))
  {
    hide Wrap, TruncDiv, Pow2, BitAnd, SignExtend32;
  }

  /** The 32-bit kinds give the signed 32-bit number congruent to the exact sum or difference. */
  lemma WordsAreSigned(pc: nat, a: nat, b: nat, offset: int)
    requires a < U64 && b < U64
    ensures var s, d := Ex(Addw, pc, a, b, offset), Ex(Subw, pc, a, b, offset);
            && s.Some? && d.Some? && s == Ex(Addiw, pc, a, b, offset)
            && SignedWord(s.value, a + b) && SignedWord(d.value, a - b)
  {
    hide SignedWord, SignExtend32, Ex, Wrap;
    WordSumKinds(pc, a, b, offset);
    DifferenceKinds(pc, a, b, offset);
    ExtendIsSignedWord(a + b);
    ExtendIsSignedWord(a - b);
  }

  predicate SignedWord(v: int, exact: int) {
    0 <= v < U64 && -SIGN32 <= Signed64(v) < SIGN32 && (Signed64(v) - exact) % U32 == 0
  }

  lemma ExtendIsSignedWord(x: int)
    ensures SignedWord(SignExtend32(x), x)
  {
    var low, q := x % U32, x / U32;
    if low >= SIGN32 {
      assert SignExtend32(x) == U64 + low - U32;
      assert Signed64(SignExtend32(x)) - x == -(q + 1) * U32;
      RemainderUnique(-(q + 1) * U32, U32, -(q + 1), 0);
    } else {
      assert Signed64(SignExtend32(x)) - x == -q * U32;
      RemainderUnique(-q * U32, U32, -q, 0);
    }
  }

  // Division.

  lemma {:induction false} TruncDivMeaning(x: int, y: int)
    requires y != 0
    ensures var r := x - TruncDiv(x, y) * y;
            -Abs(y) < r < Abs(y) && (r > 0 ==> x > 0) && (r < 0 ==> x < 0)
  {
    if x >= 0 {
      if y > 0 { QuotientRemainder(x, y); } else { QuotientRemainder(x, -y); }
    } else {
      if y > 0 { QuotientRemainder(-x, y); } else { QuotientRemainder(-x, -y); }
    }
  }

  function Abs(x: int): (r: int)
    ensures r >= 0
  {
    if x >= 0 then x else -x
  }

  lemma QuotientRemainder(x: nat, d: int)
    requires d > 0
    ensures 0 <= x - x / d * d < d && x / -d == -(x / d)
  {
    assert x == x / d * d + x % d;
    NegativeDivisor(x, d);
  }

  lemma NegativeDivisor(x: nat, d: int)
    requires d > 0
    ensures x / -d == -(x / d)
  {
  }

  /**
   * DIV truncates toward zero: the remainder is smaller than the divisor and has the dividend's sign.
   * It is undefined exactly on a zero divisor and on the one quotient that does not fit.
   */
  lemma DivisionTruncates(pc: nat, a: nat, b: nat, offset: int)
    requires a < U64 && b < U64
    ensures var q, x, y := Ex(Div, pc, a, b, offset), Signed64(a), Signed64(b);
            && (q.None? <==> b == 0 || (a == SIGN64 && b == U64 - 1))
            && (q.Some? ==>
                  && 0 <= q.value < U64
                  && var r := x - Signed64(q.value) * y;
                     -Abs(y) < r < Abs(y) && (r > 0 ==> x > 0) && (r < 0 ==> x < 0))
  {
    var x, y := Signed64(a), Signed64(b);
    if y != 0 && !(x == -SIGN64 && y == -1) {
      TruncDivMeaning(x, y);
      QuotientFits(x, y);
      SignedOfWrap(TruncDiv(x, y));
      hide TruncDiv;
    }
  }

  lemma SignedOfWrap(q: int)
    requires -SIGN64 <= q < SIGN64
    ensures Signed64(Wrap(q)) == q
  {
  }

  lemma QuotientFits(x: int, y: int)
    requires -SIGN64 <= x < SIGN64 && y != 0 && !(x == -SIGN64 && y == -1)
    ensures -SIGN64 <= TruncDiv(x, y) < SIGN64
  {
    QuotientRemainder(Abs(x), Abs(y));
    var q := Abs(x) / Abs(y);
    assert 0 <= q by { DivNonNegative(Abs(x), Abs(y)); }
    SmallerQuotient(Abs(x), Abs(y), q);
  }

  lemma SmallerQuotient(x: nat, d: nat, q: nat)
    requires d > 0 && q * d <= x
    ensures q <= x && (d >= 2 ==> 2 * q <= x)
  {
    MulMonotone(1, d, q);
    if d >= 2 {
      MulMonotone(2, d, q);
    }
  }

  // Shifts.

  lemma {:induction false} RightShiftBits(x: nat, n: nat, k: nat)
    ensures x / Pow2(n) >= 0 && Bit(x / Pow2(n), k) == Bit(x, k + n)
  {
    hide Bit;
    if n == 0 {
      assert Pow2(0) == 1;
    } else {
      RightShiftBits(x / 2, n - 1, k);
      DivDiv(x, 2, Pow2(n - 1));
      assert x / Pow2(n) == x / 2 / Pow2(n - 1);
      BitOfHalf(x, k + n);
    }
  }

  lemma BitOfHalf(x: nat, k: nat)
    requires k > 0
    ensures Bit(x, k) == Bit(x / 2, k - 1)
  {
  }

  lemma {:induction false} LeftShiftBits(x: nat, n: nat, k: nat)
    ensures x * Pow2(n) >= 0 && Bit(x * Pow2(n), k) == if k < n then 0 else Bit(x, k - n)
  {
    MulMonotone(0, x, Pow2(n));
    if n > 0 {
      MulMonotone(0, x, Pow2(n - 1));
      assert x * Pow2(n) == 2 * (x * Pow2(n - 1));
      if k > 0 {
        LeftShiftBits(x, n - 1, k - 1);
      }
    }
  }

  lemma {:induction false} LowBits(x: nat, n: nat, k: nat)
    requires k < n
    ensures Bit(x % Pow2(n), k) == Bit(x, k)
  {
    var p := Pow2(n - 1);
    HalfRemainder(x, p);
    if k > 0 {
      LowBits(x / 2, n - 1, k - 1);
    }
  }

  lemma Pow2Of64()
    ensures Pow2(64) == U64
  {
    Pow2Of32();
    Pow2Add(32, 32);
    assert U32 * U32 == U64;
  }

  lemma LeftShiftKinds(pc: nat, a: nat, b: nat, offset: int)
    ensures Ex(Sll, pc, a, b, offset) == Ex(Slli, pc, a, b, offset) ==
            if b < 64 then Some(Wrap(a * Pow2(b))) else None
  {
    hide TruncDiv, Pow2, Wrap, BitAnd;
  }

  lemma RightShiftKinds(pc: nat, a: nat, b: nat, offset: int)
    ensures Ex(Srl, pc, a, b, offset) == Ex(Srli, pc, a, b, offset) == if b < 64 then Some(a / Pow2(b)) else None
  {
    hide TruncDiv, Pow2, Wrap, BitAnd;
  }

  /** Left and logical right shifts, bit by bit; an amount of 64 or more is undefined. */
  lemma ShiftsMoveBits(pc: nat, a: nat, b: nat, offset: int, k: nat)
    requires a < U64 && k < 64
    ensures var l, r := Ex(Sll, pc, a, b, offset), Ex(Srl, pc, a, b, offset);
            && l == Ex(Slli, pc, a, b, offset) && r == Ex(Srli, pc, a, b, offset)
            && (l.Some? <==> b < 64) && (r.Some? <==> b < 64)
            && (b < 64 ==>
                  && 0 <= l.value < U64 && Bit(l.value, k) == (if k < b then 0 else Bit(a, k - b))
                  && 0 <= r.value && Bit(r.value, k) == Bit(a, k + b))
  {
    hide Bit, Pow2, Ex;
    LeftShiftKinds(pc, a, b, offset);
    RightShiftKinds(pc, a, b, offset);
    if b < 64 {
      RightShiftBits(a, b, k);
      LeftShiftBits(a, b, k);
      Pow2Of64();
      LowBits(a * Pow2(b), 64, k);
    }
  }

  /** An arithmetic right shift rounds the quotient by the power of two down. */
  lemma ArithmeticShiftFloors(pc: nat, a: nat, b: nat, offset: int)
    requires a < U64 && b < 64
    ensures var r := Ex(Sra, pc, a, b, offset);
            && r == Ex(Srai, pc, a, b, offset) && r.Some? && 0 <= r.value < U64
            && Signed64(r.value) * Pow2(b) <= Signed64(a) < (Signed64(r.value) + 1) * Pow2(b)
  {
    hide Pow2;
    var x, p := Signed64(a), Pow2(b);
    var q := x / p;
    assert x == q * p + x % p;
    assert -SIGN64 <= q < SIGN64 by { FloorFits(x, p, q); }
    SignedOfWrap(q);
  }

  lemma FloorFits(x: int, p: nat, q: int)
    requires -SIGN64 <= x < SIGN64 && p > 0 && q * p <= x < q * p + p
    ensures -SIGN64 <= q < SIGN64
  {
    MulMonotone(1, p, SIGN64);
    if q >= SIGN64 {
      MulMonotone(SIGN64, q, p);
    } else if q < -SIGN64 {
      MulMonotone(q + 1, -SIGN64, p);
    }
  }

  // Loads.

  lemma {:induction false} FromBytesBound(bytes: seq<byte>)
    ensures FromBytes(bytes) < Pow2(8 * |bytes|)
  {
    if bytes != [] {
      FromBytesBound(bytes[1..]);
      Pow2Add(8, 8 * (|bytes| - 1));
      assert Pow2(8) == 256 by { Pow2Add(4, 4); assert Pow2(4) == 16; }
    }
  }

  /** Every load zero-extends, LB, LH and LW included: a loaded value is never negative. */
  lemma LoadsZeroExtend(a: Arch, i: Decoded)
    requires IsLoad(i.kind)
    ensures 0 <= ValueAt(a, i) < Pow2(8 * MemLen(i.kind))
    ensures i.kind.Lb? ==> ValueAt(a, i) == ValueAt(a, i.(kind := Lbu))
    ensures i.kind.Lh? ==> ValueAt(a, i) == ValueAt(a, i.(kind := Lhu))
  {
    hide FromBytes, Pow2;
    FromBytesBound(ReadBytes(a.mem, AddrAt(a, i), MemLen(i.kind)));
  }
}
