/** How a cache level splits a 32-bit address into tag, set index and block offset. */
module Address {
  import opened Bits

  /** `off_bits` and `set_bits` of a level; `tag_bits` is what is left of the 32. */
  datatype Geometry = Geometry(offBits: nat, setBits: nat) {
    predicate Valid() { offBits + setBits < 32 }
    function BlockSize(): (b: nat) ensures b > 0 { Pow2(offBits) }
    function SetNum(): (s: nat) ensures s > 0 { Pow2(setBits) }
    function TagBits(): nat requires Valid() { 32 - offBits - setBits }
  }

  predicate IsAddress(a: int) { 0 <= a < U32 }

  function Offset(g: Geometry, addr: nat): nat
    requires g.Valid()
  {
    BitAnd(addr, LowMask(g.offBits))
  }

  function SetIndex(g: Geometry, addr: nat): nat
    requires g.Valid()
  {
    BitAnd(Shr32(addr, g.offBits), LowMask(g.setBits))
  }

  function Tag(g: Geometry, addr: nat): nat
    requires g.Valid()
  {
    var tag := Shr32(addr, g.offBits + g.setBits);
    if g.TagBits() == 32 then tag else BitAnd(tag, LowMask(g.TagBits()))
  }

  function BlockAddr(g: Geometry, addr: nat): int
    requires g.Valid()
  {
    addr - Offset(g, addr)
  }

  /** `kick_addr`: the address an evicted line is written back to. */
  function KickAddr(g: Geometry, tag: nat, index: nat): nat
    requires g.Valid()
  {
    (Shl32(tag, g.offBits + g.setBits) + Shl32(index, g.offBits)) % U32
  }

  lemma SplitIsDivision(g: Geometry, addr: nat)
    requires g.Valid() && IsAddress(addr)
    ensures Offset(g, addr) == addr % g.BlockSize()
    ensures SetIndex(g, addr) == addr / g.BlockSize() % g.SetNum()
    ensures Tag(g, addr) == addr / g.BlockSize() / g.SetNum()
  {
    MaskIsRemainder(addr, g.offBits);
    MaskIsRemainder(Shr32(addr, g.offBits), g.setBits);
    TagIsQuotient(g, addr);
    Pow2Add(g.offBits, g.setBits);
    DivDiv(addr, g.BlockSize(), g.SetNum());
  }

  lemma TagIsQuotient(g: Geometry, addr: nat)
    requires g.Valid() && IsAddress(addr)
    ensures Tag(g, addr) == addr / Pow2(g.offBits + g.setBits)
  {
    hide BitAnd, Pow2;
    var n := g.offBits + g.setBits;
    var tag := Shr32(addr, n);
    QuotientBound(addr, n);
    if g.TagBits() < 32 {
      MaskIsRemainder(tag, g.TagBits());
      DivModUnique(tag, Pow2(g.TagBits()), 0, tag);
    }
  }

  lemma QuotientBound(addr: nat, n: nat)
    requires IsAddress(addr) && n < 32
    ensures addr / Pow2(n) < Pow2(32 - n)
  {
    hide Pow2;
    Pow2Of32();
    Pow2Add(n, 32 - n);
    QuotientAndRemainder(addr, Pow2(n));
    SmallerFactor(addr / Pow2(n), Pow2(32 - n), Pow2(n));
  }

  lemma SmallerFactor(q: int, r: int, p: nat)
    requires q * p < r * p
    ensures q < r
  {
    if q >= r {
      MulMonotone(r, q, p);
    }
  }

  /** The split loses nothing: the three fields rebuild the address. */
  lemma SplitRebuilds(g: Geometry, addr: nat)
    requires g.Valid() && IsAddress(addr)
    ensures Offset(g, addr) < g.BlockSize() && SetIndex(g, addr) < g.SetNum()
    ensures addr == Tag(g, addr) * (g.BlockSize() * g.SetNum()) + SetIndex(g, addr) * g.BlockSize() + Offset(g, addr)
    ensures 0 <= BlockAddr(g, addr) <= addr
  {
    hide BitAnd, Pow2, Offset, SetIndex, Tag;
    SplitIsDivision(g, addr);
    DivDiv(addr, g.BlockSize(), g.SetNum());
  }

  /** Two addresses share set index and tag exactly when they lie in the same block. */
  lemma SameBlock(g: Geometry, a: nat, b: nat)
    requires g.Valid() && IsAddress(a) && IsAddress(b)
    ensures (SetIndex(g, a) == SetIndex(g, b) && Tag(g, a) == Tag(g, b)) <==> BlockAddr(g, a) == BlockAddr(g, b)
  {
    hide BitAnd, Pow2, Offset, SetIndex, Tag;
    SplitRebuilds(g, a);
    SplitRebuilds(g, b);
    if BlockAddr(g, a) == BlockAddr(g, b) {
      SplitIsDivision(g, a);
      SplitIsDivision(g, b);
      var s := g.BlockSize();
      assert a == s * (a / s) + a % s;
      assert b == s * (b / s) + b % s;
      CancelFactor(s, a / s, b / s);
    }
  }

  lemma CancelFactor(s: nat, x: int, y: int)
    requires s > 0 && s * x == s * y
    ensures x == y
  {
    assert s * (x - y) == 0;
  }

  /** Every byte of a block carries the block's set index and tag. */
  lemma BlockMember(g: Geometry, addr: nat, k: nat)
    requires g.Valid() && IsAddress(addr) && k < g.BlockSize()
    ensures BlockAddr(g, addr) >= 0 && IsAddress(BlockAddr(g, addr) + k)
    ensures var a := BlockAddr(g, addr) + k;
            Offset(g, a) == k && SetIndex(g, a) == SetIndex(g, addr) && Tag(g, a) == Tag(g, addr)
    ensures BlockAddr(g, BlockAddr(g, addr) + k) == BlockAddr(g, addr)
  {
    hide BitAnd, Pow2, Offset, SetIndex, Tag;
    SplitRebuilds(g, addr);
    SplitIsDivision(g, addr);
    var s := g.BlockSize();
    var a := BlockAddr(g, addr) + k;
    assert addr == s * (addr / s) + addr % s;
    BlockEnd(g, addr);
    DivModUnique(a, s, addr / s, k);
    SplitIsDivision(g, a);
  }

  /** A block never runs past the end of the 32-bit address space. */
  lemma BlockEnd(g: Geometry, addr: nat)
    requires g.Valid() && IsAddress(addr)
    ensures BlockAddr(g, addr) + g.BlockSize() <= U32
  {
    hide BitAnd, Pow2, Offset, SetIndex, Tag;
    SplitIsDivision(g, addr);
    QuotientBound(addr, g.offBits);
    Pow2Of32();
    Pow2Add(g.offBits, 32 - g.offBits);
    var s, q := g.BlockSize(), addr / g.BlockSize();
    assert addr == q * s + addr % s;
    MulMonotone(q + 1, Pow2(32 - g.offBits), s);
    assert (q + 1) * s == q * s + s;
  }

  /** The write-back address is the inverse of the split. */
  lemma KickInvertsSplit(g: Geometry, addr: nat)
    requires g.Valid() && IsAddress(addr)
    ensures KickAddr(g, Tag(g, addr), SetIndex(g, addr)) == BlockAddr(g, addr)
  {
    hide BitAnd, Pow2, Offset, SetIndex, Tag, KickAddr, Geometry.BlockSize, Geometry.SetNum;
    SplitRebuilds(g, addr);
    TagBound(g, addr);
    KickValue(g, Tag(g, addr), SetIndex(g, addr));
  }

  /** Conversely, splitting the write-back address gives back the tag and set index. */
  lemma SplitInvertsKick(g: Geometry, tag: nat, index: nat)
    requires g.Valid() && tag < Pow2(g.TagBits()) && index < g.SetNum()
    ensures var a := KickAddr(g, tag, index);
            IsAddress(a) && Offset(g, a) == 0 && SetIndex(g, a) == index && Tag(g, a) == tag && BlockAddr(g, a) == a
  {
    hide BitAnd, Pow2, Offset, SetIndex, Tag, KickAddr;
    var b, s := g.BlockSize(), g.SetNum();
    var a := KickAddr(g, tag, index);
    KickValue(g, tag, index);
    SplitIsDivision(g, a);
    MulDistributes(tag * s, index, b);
    Regrouped(tag, b, s, b * s);
    DivModUnique(a, b, tag * s + index, 0);
    DivModUnique(tag * s + index, s, tag, index);
  }

  lemma KickValue(g: Geometry, tag: nat, index: nat)
    requires g.Valid() && tag < Pow2(g.TagBits()) && index < g.SetNum()
    ensures KickAddr(g, tag, index) == tag * (g.BlockSize() * g.SetNum()) + index * g.BlockSize() < U32
  {
    hide BitAnd, Pow2;
    var b, s := g.BlockSize(), g.SetNum();
    Pow2Add(g.offBits, g.setBits);
    Pow2Add(g.offBits + g.setBits, g.TagBits());
    Pow2Of32();
    KickBound(tag, index, b, s, Pow2(g.TagBits()));
    SmallSum(tag * (b * s), index * b);
  }

  lemma KickBound(tag: nat, index: nat, b: nat, s: nat, t: nat)
    requires tag < t && index < s
    ensures tag * (b * s) >= 0 && index * b >= 0
    ensures tag * (b * s) + index * b + b <= b * s * t
  {
    var n := b * s;
    MulMonotone(tag + 1, t, n);
    MulMonotone(index + 1, s, b);
    MulMonotone(0, tag, n);
    MulMonotone(0, index, b);
    MulDistributes(tag, 1, n);
    MulDistributes(index, 1, b);
  }

  lemma SmallSum(x: nat, y: nat)
    requires x + y < U32
    ensures (x % U32 + y % U32) % U32 == x + y
  {
  }

  /** Whatever tag a line holds, its write-back address is the start of a block. */
  lemma KickIsAligned(g: Geometry, tag: nat, index: nat)
    requires g.Valid()
    ensures IsAddress(KickAddr(g, tag, index)) && Offset(g, KickAddr(g, tag, index)) == 0
  {
    hide BitAnd, Pow2, Offset, SetIndex, Tag, Shl32;
    var b, s, rest := g.BlockSize(), g.SetNum(), Pow2(32 - g.offBits);
    BlocksFillSpace(g);
    ShiftedTag(g, tag);
    ShiftedIndex(g, index);
    AlignedSum(tag * s, index, b, rest);
    SplitIsDivision(g, KickAddr(g, tag, index));
  }

  lemma BlocksFillSpace(g: Geometry)
    requires g.Valid()
    ensures Pow2(32 - g.offBits) * g.BlockSize() == U32
  {
    hide Pow2;
    Pow2Of32();
    Pow2Add(g.offBits, 32 - g.offBits);
  }

  lemma ShiftedTag(g: Geometry, tag: nat)
    requires g.Valid()
    ensures tag * g.SetNum() >= 0 && Shl32(tag, g.offBits + g.setBits) == tag * g.SetNum() * g.BlockSize() % U32
  {
    hide Pow2, Geometry.BlockSize, Geometry.SetNum;
    SplitPower(g);
    Regrouped(tag, g.BlockSize(), g.SetNum(), Pow2(g.offBits + g.setBits));
  }

  lemma SplitPower(g: Geometry)
    requires g.Valid()
    ensures Pow2(g.offBits + g.setBits) == g.BlockSize() * g.SetNum()
  {
    hide Pow2;
    Pow2Add(g.offBits, g.setBits);
  }

  lemma Regrouped(x: nat, y: nat, z: nat, product: nat)
    requires product == y * z
    ensures x * z >= 0 && x * product == x * z * y
  {
    MulMonotone(0, x, z);
    MulAssociates(x, z, y);
  }

  lemma ShiftedIndex(g: Geometry, index: nat)
    requires g.Valid()
    ensures Shl32(index, g.offBits) == index * g.BlockSize() % U32
  {
  }

  lemma AlignedSum(p: nat, q: nat, b: nat, rest: nat)
    requires b > 0 && rest > 0 && rest * b == U32
    ensures p * b >= 0 && q * b >= 0 && (p * b % U32 + q * b % U32) % U32 % b == 0
  {
    MultipleHasNoRemainder(p, b, rest);
    MultipleHasNoRemainder(q, b, rest);
    MulMonotone(0, p, b);
    MulMonotone(0, q, b);
    var x, y := p * b % U32, q * b % U32;
    var z := x / b + y / b;
    QuotientAndRemainder(x, b);
    QuotientAndRemainder(y, b);
    MulDistributes(x / b, y / b, b);
    assert x + y == z * b;
    MultipleHasNoRemainder(z, b, rest);
  }

  lemma MultipleHasNoRemainder(q: int, b: nat, rest: nat)
    requires b > 0 && rest > 0
    ensures rest * b > 0 && q * b % (rest * b) % b == 0
  {
    RemainderOfRemainder(q * b, b, rest);
    RemainderUnique(q * b, b, q, 0);
  }

  lemma TagBound(g: Geometry, addr: nat)
    requires g.Valid() && IsAddress(addr)
    ensures Tag(g, addr) < Pow2(g.TagBits())
  {
    TagIsQuotient(g, addr);
    QuotientBound(addr, g.offBits + g.setBits);
  }

  /** A block of a level with smaller blocks lies inside one block of a level with larger blocks. */
  lemma SmallerBlockNests(g: Geometry, h: Geometry, addr: nat)
    requires g.Valid() && h.Valid() && IsAddress(addr) && g.offBits <= h.offBits
    ensures BlockAddr(g, addr) >= 0
    ensures Offset(h, BlockAddr(g, addr)) + g.BlockSize() <= h.BlockSize()
  {
    hide BitAnd, Pow2, Offset, SetIndex, Tag;
    SplitRebuilds(g, addr);
    SplitIsDivision(g, addr);
    var s, c := g.BlockSize(), Pow2(h.offBits - g.offBits);
    Pow2Add(g.offBits, h.offBits - g.offBits);
    var b := BlockAddr(g, addr);
    assert addr == s * (addr / s) + addr % s;
    SplitIsDivision(h, b);
    MultipleRemainder(addr / s, s, c);
  }

  lemma MultipleRemainder(q: nat, s: nat, c: nat)
    requires s > 0 && c > 0
    ensures s * c > 0 && q * s >= 0
    ensures q * s % (s * c) + s <= s * c
  {
    var x := q * s;
    DivModUnique(x, s, q, 0);
    DivDiv(x, s, c);
    assert x == (q / c) * (s * c) + (q % c) * s;
    assert (q % c) * s + s <= s * c by {
      assert (q % c + 1) * s <= c * s;
    }
    DivModUnique(x, s * c, q / c, (q % c) * s);
  }
}
