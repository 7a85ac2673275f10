/** The comparisons of EX, which decide branches and set registers, bit by bit. */
module Comparisons {
  import opened Wrappers
  import opened Bits
  import opened Isa
  import opened Arithmetic
  import opened WordShifts

  /** Bit k is the highest of the n low bits in which the two differ, and y has it. */
  predicate Decides(x: nat, y: nat, n: nat, k: nat) {
    k < n && Bit(x, k) == 0 && Bit(y, k) == 1 && forall j :: k < j < n ==> Bit(x, j) == Bit(y, j)
  }

  predicate Below(x: nat, y: nat, n: nat) { exists k :: 0 <= k < n && Decides(x, y, n, k) }

  predicate SameBits(x: nat, y: nat, n: nat) { forall k :: 0 <= k < n ==> Bit(x, k) == Bit(y, k) }

  lemma {:induction false} BitsDetermine(x: nat, y: nat, n: nat)
    requires x < Pow2(n) && y < Pow2(n)
    ensures x == y <==> SameBits(x, y, n)
  {
    if n > 0 {
      BitsDetermine(x / 2, y / 2, n - 1);
      if SameBits(x, y, n) {
        assert Bit(x, 0) == Bit(y, 0);
        forall k | 0 <= k < n - 1 ensures Bit(x / 2, k) == Bit(y / 2, k) {
          assert Bit(x, k + 1) == Bit(y, k + 1);
        }
      }
    }
  }

  /** Of two n-bit numbers the one is below the other exactly if the highest bit in which they differ says so. */
  lemma {:induction false} BelowByBits(x: nat, y: nat, n: nat)
    requires x < Pow2(n) && y < Pow2(n)
    ensures x < y <==> Below(x, y, n)
  {
    if n > 0 {
      BelowByBits(x / 2, y / 2, n - 1);
      BitsDetermine(x / 2, y / 2, n - 1);
      if x < y {
        if x / 2 < y / 2 {
          var k :| 0 <= k < n - 1 && Decides(x / 2, y / 2, n - 1, k);
          HigherDecides(x, y, n, k);
        } else {
          LowestDecides(x, y, n);
        }
      }
      if k :| 0 <= k < n && Decides(x, y, n, k) {
        if k > 0 {
          LowerDecides(x, y, n, k);
        } else {
          RestAgrees(x, y, n);
        }
      }
    }
  }

  lemma HigherDecides(x: nat, y: nat, n: nat, k: nat)
    requires n > 0 && Decides(x / 2, y / 2, n - 1, k)
    ensures Decides(x, y, n, k + 1)
  {
    forall j | k + 1 < j < n ensures Bit(x, j) == Bit(y, j) {
      assert Bit(x / 2, j - 1) == Bit(y / 2, j - 1);
    }
  }

  lemma LowerDecides(x: nat, y: nat, n: nat, k: nat)
    requires 0 < k < n && Decides(x, y, n, k)
    ensures Decides(x / 2, y / 2, n - 1, k - 1)
  {
    forall j | k - 1 < j < n - 1 ensures Bit(x / 2, j) == Bit(y / 2, j) {
      assert Bit(x, j + 1) == Bit(y, j + 1);
    }
  }

  lemma LowestDecides(x: nat, y: nat, n: nat)
    requires n > 0 && x / 2 == y / 2 && x < y
    ensures Decides(x, y, n, 0)
  {
    forall j | 0 < j < n ensures Bit(x, j) == Bit(y, j) {
      BitOfHalf(x, j);
      BitOfHalf(y, j);
    }
  }

  lemma RestAgrees(x: nat, y: nat, n: nat)
    requires n > 0 && Decides(x, y, n, 0)
    ensures SameBits(x / 2, y / 2, n - 1) && x % 2 < y % 2
  {
    forall k | 0 <= k < n - 1 ensures Bit(x / 2, k) == Bit(y / 2, k) {
      assert Bit(x, k + 1) == Bit(y, k + 1);
    }
  }

  /** Two's complement order: by the sign bits if these differ, by all bits otherwise. */
  predicate SignedBelow(x: nat, y: nat) {
    if Bit(x, 63) != Bit(y, 63) then Bit(x, 63) == 1 else Below(x, y, 64)
  }

  lemma SignedByBits(x: nat, y: nat)
    requires x < U64 && y < U64
    ensures Signed64(x) < Signed64(y) <==> SignedBelow(x, y)
  {
    hide Bit, Pow2, Below;
    Pow2Of64();
    assert Pow2(64) == 2 * Pow2(63) by { Pow2Of64Halves(); }
    BelowByBits(x, y, 64);
    TopBit(x, 63);
    TopBit(y, 63);
  }

  lemma Pow2Of64Halves()
    ensures Pow2(64) == 2 * Pow2(63)
  {
  }

  /** The set-less-than kinds give 1 exactly if the first operand is below the second, with or without sign. */
  lemma SetsCompare(pc: nat, a: nat, b: nat, offset: int)
    requires a < U64 && b < U64
    ensures Ex(Sltu, pc, a, b, offset) == Ex(Sltiu, pc, a, b, offset) == Some(if Below(a, b, 64) then 1 else 0)
    ensures Ex(Slt, pc, a, b, offset) == Ex(Slti, pc, a, b, offset) == Some(if SignedBelow(a, b) then 1 else 0)
  {
    hide Below, SignedBelow, Bit, Pow2, Signed64, BitAnd, TruncDiv, Wrap;
    Pow2Of64();
    BelowByBits(a, b, 64);
    SignedByBits(a, b);
  }

  /** When a branch is taken, said of the bits of its operands. */
  predicate Compares(k: Kind, a: nat, b: nat) {
    match k
    case Beq => SameBits(a, b, 64)
    case Bne => !SameBits(a, b, 64)
    case Blt => SignedBelow(a, b)
    case Bge => !SignedBelow(a, b)
    case Bltu => Below(a, b, 64)
    case Bgeu => !Below(a, b, 64)
    case _ => false
  }

  lemma BranchesCompare(k: Kind, a: nat, b: nat)
    requires a < U64 && b < U64
    ensures Taken(k, a, b) <==> Compares(k, a, b)
  {
    hide Below, SignedBelow, SameBits, Pow2, Signed64;
    Pow2Of64();
    BelowByBits(a, b, 64);
    SignedByBits(a, b);
    BitsDetermine(a, b, 64);
  }

  /** BEQ is taken exactly when SUB gives 0. */
  lemma EqualMeansNoDifference(pc: nat, a: nat, b: nat, offset: int)
    requires a < U64 && b < U64
    ensures Taken(Beq, a, b) <==> Ex(Sub, pc, a, b, offset) == Some(0)
  {
  }
}
