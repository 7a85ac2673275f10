/** Unsigned 32-bit arithmetic: the shifts and masks the simulator splits addresses with. */
module Bits {

  type byte = x: int | 0 <= x < 256

  const U32 := 0x1_0000_0000
  const ALL_ONES := 0xFFFF_FFFF

  function Pow2(n: nat): (p: nat)
    ensures p > 0
  {
    if n == 0 then 1 else 2 * Pow2(n - 1)
  }

  /** Bitwise conjunction of two naturals, least significant bit first. */
  function BitAnd(x: nat, y: nat): nat {
    if x == 0 || y == 0 then 0 else (x % 2) * (y % 2) + 2 * BitAnd(x / 2, y / 2)
  }

  function Not32(x: nat): nat
    requires x < U32
  {
    ALL_ONES - x
  }

  function Shl32(x: nat, n: nat): nat
    requires n < 32
  {
    x * Pow2(n) % U32
  }

  function Shr32(x: nat, n: nat): nat
    requires n < 32
  {
    DivNonNegative(x, Pow2(n));
    x / Pow2(n)
  }

  lemma DivNonNegative(x: nat, d: nat)
    requires d > 0
    ensures 0 <= x / d
  {
    var q := x / d;
    assert x == d * q + x % d;
    assert q <= -1 ==> d * q <= d * -1;
  }

  /** `~(uint32_t(-1) << n)`: the mask selecting the n low bits. */
  function LowMask(n: nat): nat
    requires n < 32
  {
    Not32(Shl32(ALL_ONES, n))
  }

  lemma {:induction false} Pow2Add(a: nat, b: nat)
    ensures Pow2(a + b) == Pow2(a) * Pow2(b)
  {
    if a == 0 {
    } else {
      Pow2Add(a - 1, b);
      assert Pow2(a + b) == 2 * (Pow2(a - 1) * Pow2(b));
    }
  }

  lemma {:induction false} Pow2Monotone(a: nat, b: nat)
    requires a <= b
    ensures Pow2(a) <= Pow2(b)
  {
    if a < b {
      Pow2Monotone(a, b - 1);
    }
  }

  lemma Pow2Of32()
    ensures Pow2(32) == U32
  {
    assert Pow2(8) == 256;
    Pow2Add(8, 8);
    Pow2Add(16, 16);
  }

  lemma MulMonotone(a: int, b: int, c: nat)
    requires a <= b
    ensures a * c <= b * c
  {
    assert (b - a) * c >= 0;
    assert (b - a) * c == b * c - a * c;
  }

  lemma MulAssociates(x: int, y: int, z: int)
    ensures x * y * z == x * (y * z)
  {
  }

  lemma MulDistributes(x: int, y: int, z: int)
    ensures (x + y) * z == x * z + y * z
  {
  }

  lemma DivModUnique(a: nat, b: nat, q: nat, r: nat)
    requires a == q * b + r && r < b
    ensures a / b == q && a % b == r
  {
    var d := q - a / b;
    assert a == (a / b) * b + a % b;
    assert d * b == a % b - r by {
      assert (q - a / b) * b == q * b - (a / b) * b;
    }
    assert d >= 1 ==> d * b >= b;
    assert d <= -1 ==> d * b + b <= 0;
  }

  lemma RemainderUnique(x: int, m: nat, q: int, r: nat)
    requires x == q * m + r && r < m
    ensures x % m == r
  {
    var d := q - x / m;
    assert x == (x / m) * m + x % m;
    assert d * m == x % m - r by {
      assert (q - x / m) * m == q * m - (x / m) * m;
    }
    assert d >= 1 ==> d * m >= m;
    assert d <= -1 ==> d * m + m <= 0;
  }

  /** Reducing modulo a multiple first changes nothing. */
  lemma RemainderOfRemainder(x: int, m: nat, k: nat)
    requires m > 0 && k > 0
    ensures k * m > 0 && x % (k * m) % m == x % m
  {
    var n := k * m;
    var y := x % n;
    assert x == n * (x / n) + y;
    MulAssociates(k, m, x / n);
    MulAssociates(k, x / n, m);
    assert y == m * (y / m) + y % m;
    MulDistributes(k * (x / n), y / m, m);
    RemainderUnique(x, m, k * (x / n) + y / m, y % m);
  }

  lemma DivDiv(a: nat, b: nat, c: nat)
    requires b > 0 && c > 0
    ensures b * c > 0
    ensures a / (b * c) == a / b / c
    ensures a == (a / b / c) * (b * c) + (a / b % c) * b + a % b
  {
    var q, r := a / b, a % b;
    var qq, rr := q / c, q % c;
    QuotientAndRemainder(a, b);
    QuotientAndRemainder(q, c);
    MulDistributes(qq * c, rr, b);
    MulAssociates(qq, c, b);
    MulMonotone(rr, c - 1, b);
    MulDistributes(c, -1, b);
    DivModUnique(a, b * c, qq, rr * b + r);
  }

  lemma QuotientAndRemainder(a: nat, b: nat)
    requires b > 0
    ensures a == a / b * b + a % b && 0 <= a / b && 0 <= a % b < b
  {
    DivNonNegative(a, b);
  }

  lemma LowMaskValue(n: nat)
    requires n < 32
    ensures LowMask(n) == Pow2(n) - 1
  {
    Pow2Of32();
    Pow2Monotone(n, 31);
    var p := Pow2(n);
    assert Pow2(32) == 2 * Pow2(31);
    assert ALL_ONES * p == (p - 1) * U32 + (U32 - p) by {
      assert ALL_ONES * p == U32 * p - p;
    }
    DivModUnique(ALL_ONES * p, U32, p - 1, U32 - p);
  }

  lemma AndOddMask(x: nat, p: nat)
    requires p > 0
    ensures BitAnd(x, 2 * p - 1) == x % 2 + 2 * BitAnd(x / 2, p - 1)
  {
    assert (2 * p - 1) / 2 == p - 1 && (2 * p - 1) % 2 == 1;
  }

  lemma HalfRemainder(x: nat, p: nat)
    requires p > 0
    ensures x % (2 * p) == x % 2 + 2 * (x / 2 % p)
  {
    DivDiv(x, 2, p);
    DivModUnique(x, 2 * p, x / 2 / p, x % 2 + 2 * (x / 2 % p));
  }

  lemma AndBase(x: nat, p: nat)
    requires p > 0 && (x == 0 || p == 1)
    ensures BitAnd(x, p - 1) == x % p
  {
    DivModUnique(x, p, x, 0);
  }

  lemma {:induction false} AndOnes(x: nat, n: nat)
    ensures BitAnd(x, Pow2(n) - 1) == x % Pow2(n)
  {
    hide BitAnd;
    if n == 0 || x == 0 {
      AndBase(x, Pow2(n));
    } else {
      var p := Pow2(n - 1);
      AndOnes(x / 2, n - 1);
      AndOddMask(x, p);
      HalfRemainder(x, p);
    }
  }

  /** Masking with the n low bits is the remainder modulo 2^n. */
  lemma MaskIsRemainder(x: nat, n: nat)
    requires n < 32
    ensures BitAnd(x, LowMask(n)) == x % Pow2(n)
  {
    LowMaskValue(n);
    AndOnes(x, n);
  }
}
