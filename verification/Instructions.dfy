/** What assembled instructions, and the usual pairs of them, do to the reference machine. */
module Instructions {
  import opened Wrappers
  import opened Bits
  import opened Hierarchy
  import opened Coherence
  import opened Isa
  import opened PagedMemory
  import opened Pipeline
  import opened Sequential
  import opened Refinement
  import opened Encoding
  import opened Arithmetic
  import opened Comparisons

  /** The instruction is at the program counter. */
  predicate Next(a: Arch, i: Asm) {
    Encoding.Valid(i) && Fetchable(a.mem, a.pc) && Word(a.mem, a.pc) == Assemble(i) && |a.reg| == 32
  }

  /** It is not the jump that the pipeline loses. */
  predicate Kept(a: Arch, i: Asm, lossy: bool) { !(lossy && LostJump(Meaning(i), a.lastLoad)) }

  lemma StepOf(a: Arch, i: Asm, lossy: bool)
    requires Next(a, i) && Kept(a, i, lossy)
    ensures Slot(a, lossy) == Perform(a, Meaning(i), true)
  {
    hide Decode, Assemble, Meaning, Perform, Fetchable, Word, Encoding.Valid;
    DecodeAssembled(i);
    ZeroHasNoMeaning();
  }

  lemma ZeroHasNoMeaning()
    ensures Decode(0) == None
  {
    assert Opcode(0) == 0;
  }

  /** The 64-bit value of a register. */
  function Val(a: Arch, r: nat): nat
    requires r < |a.reg|
  {
    Wrap(a.reg[r])
  }

  function SetReg(reg: seq<int>, rd: nat, v: int): seq<int>
    requires rd < |reg|
  {
    if rd == 0 then reg else reg[rd := v]
  }

  // Register instructions.

  predicate Register(i: Asm) { i.RegReg? || i.RegImm? || i.Shift? }

  /** The second operand: a register or the immediate. */
  function Operand(a: Arch, i: Asm): nat
    requires Register(i) && Encoding.Valid(i) && |a.reg| == 32
  {
    match i
    case RegReg(_, _, _, rs2) => Val(a, rs2)
    case RegImm(_, _, _, imm) => Wrap(imm)
    case Shift(k, _, _, n) => if k.Sraiw? then 0x400 + n else n
    case _ => 0
  }

  lemma WrapTwice(x: int)
    ensures Wrap(Wrap(x)) == Wrap(x)
  {
  }

  lemma RegisterKinds(i: Asm)
    requires Register(i) && Encoding.Valid(i)
    ensures var k := Meaning(i).kind;
            !IsJump(k) && !IsBranch(k) && !IsLoad(k) && !IsStore(k) && !k.Ecall? && !k.Bubble?
  {
  }

  lemma RegisterOperands(a: Arch, i: Asm)
    requires Register(i) && Encoding.Valid(i) && |a.reg| == 32
    ensures Wrap(ValA(a, Meaning(i))) == Val(a, i.rs1) && Wrap(ValB(a, Meaning(i))) == Operand(a, i)
    ensures var m := Meaning(i); m.dest == i.rd && m.offset == 0 && m.kind == i.kind
  {
    hide Wrap;
    if i.RegImm? {
      WrapTwice(i.imm);
    } else if i.Shift? {
      Encoding.WrapSmall(Operand(a, i));
    }
  }

  /**
   * A register instruction puts what EX makes of its operands, in that order, into its destination and goes on to the
   * next word; nothing else changes. MULH and REM put nothing anywhere.
   */
  lemma RegisterStep(a: Arch, i: Asm, lossy: bool)
    requires Next(a, i) && Register(i)
    ensures var b, x := Slot(a, lossy), Ex(i.kind, a.pc, Val(a, i.rs1), Operand(a, i), 0);
            && b.pc == Wrap(a.pc + 4) && b.mem == a.mem && b.out == a.out && b.lastLoad == 0
            && (b.ok <==> a.ok && x.Some?)
            && (x.Some? ==> b.reg == if i.kind.Mulh? || i.kind.Rem? then a.reg else SetReg(a.reg, i.rd, x.value))
  {
    hide Fetchable, Word, Assemble, Meaning, Execute, Wrap, ValA, ValB, Val, Operand, Decode;
    RegisterKinds(i);
    RegisterOperands(a, i);
    StepOf(a, i, lossy);
  }

  // Constants and addresses in two instructions.

  /** The upper twenty bits, as LUI and AUIPC take them, so that a signed remainder of twelve bits is left. */
  function High(c: int): int {
    var h := (c + 0x800) / 0x1000;
    if h == 0x8_0000 then -0x8_0000 else h
  }

  function Low(c: int): int { (c + 0x800) % 0x1000 - 0x800 }

  predicate Word32(c: int) { -SIGN32 <= c < SIGN32 }

  lemma Halves(c: int)
    requires Word32(c)
    ensures -0x8_0000 <= High(c) < 0x8_0000 && Short(Low(c))
    ensures c == High(c) * 0x1000 + Low(c) || (c >= 0x7FFF_F800 && c == High(c) * 0x1000 + Low(c) + U32)
  {
  }

  lemma UpperStep(a: Arch, kind: Kind, rd: nat, imm: int, lossy: bool)
    requires Next(a, Upper(kind, rd, imm))
    ensures var b, x := Slot(a, lossy), Ex(kind, a.pc, Wrap(imm), 0, imm);
            && b.pc == Wrap(a.pc + 4) && b.mem == a.mem && b.out == a.out && b.lastLoad == 0
            && (b.ok <==> a.ok && x.Some?) && (x.Some? ==> b.reg == SetReg(a.reg, rd, x.value))
  {
    hide Fetchable, Word, Assemble, Execute, Wrap, Decode;
    WrapTwice(imm);
    Encoding.WrapSmall(0);
    StepOf(a, Upper(kind, rd, imm), lossy);
  }

  /** The sum that the second instruction makes of the first one's result. */
  lemma SumOfHalves(base: int, c: int)
    requires Word32(c) && c < 0x7FFF_F800
    ensures Wrap(Wrap(base + High(c) * 0x1000) + Wrap(Low(c))) == Wrap(base + c)
  {
    Halves(c);
    WrapBoth(base + High(c) * 0x1000, Low(c));
  }

  lemma WrapBoth(x: int, y: int)
    ensures Wrap(Wrap(x) + Wrap(y)) == Wrap(x + y)
  {
  }

  /** LUI and ADDIW put any signed 32-bit constant into a register; LUI and ADDI do up to 0x7FFFF7FF. */
  lemma ConstantBuilt(a: Arch, rd: nat, c: int, kind: Kind, lossy: bool)
    requires Word32(c) && rd != 0 && (kind.Addiw? || (kind.Addi? && c < 0x7FFF_F800))
    requires Next(a, Upper(Lui, rd, High(c))) && Next(Slot(a, lossy), RegImm(kind, rd, rd, Low(c)))
    ensures var b := Slots(a, lossy, 2);
            && b.reg == a.reg[rd := Wrap(c)] && b.pc == Wrap(Wrap(a.pc + 4) + 4) && b.mem == a.mem
            && (b.ok <==> a.ok)
  {
    hide Fetchable, Word, Assemble, Slot, Wrap, Execute;
    var b, i := Slot(a, lossy), RegImm(kind, rd, rd, Low(c));
    TwoSlots(a, lossy);
    UpperStep(a, Lui, rd, High(c), lossy);
    RegisterStep(b, i, lossy);
    LuiValue(a.pc, Wrap(High(c)), 0, High(c));
    WrapTwice(High(c) * 0x1000);
    ConstantValue(b.pc, c, kind);
  }

  lemma TwoSlots(a: Arch, lossy: bool)
    ensures Slots(a, lossy, 2) == Slot(Slot(a, lossy), lossy)
  {
    hide Slot;
    assert Slots(a, lossy, 0) == a && Slots(a, lossy, 1) == Slot(a, lossy);
  }

  lemma LuiValue(pc: nat, x: nat, y: nat, imm: int)
    ensures Ex(Lui, pc, x, y, imm) == Some(Wrap(imm * 0x1000))
  {
    hide Wrap;
  }

  lemma ConstantValue(pc: nat, c: int, kind: Kind)
    requires Word32(c) && (kind.Addiw? || (kind.Addi? && c < 0x7FFF_F800))
    ensures Ex(kind, pc, Wrap(High(c) * 0x1000), Wrap(Low(c)), 0) == Some(Wrap(c))
  {
    Halves(c);
    if kind.Addi? {
      SumOfHalves(0, c);
      hide Wrap, High, Low;
    } else {
      WordSum(High(c) * 0x1000, Low(c), c);
      hide Wrap, High, Low, SignExtend32;
    }
  }

  lemma WordSum(x: int, y: int, c: int)
    requires Word32(c) && (c == x + y || c == x + y + U32)
    ensures SignExtend32(Wrap(x) + Wrap(y)) == Wrap(c)
  {
    WrapIsCongruent(x);
    WrapIsCongruent(y);
    var s := Wrap(x) + Wrap(y);
    hide Wrap;
    assert s % U32 == c % U32 by { SumCongruent(Wrap(x), x, Wrap(y), y, c); }
    WordOf(s, c);
  }

  lemma SumCongruent(x': int, x: int, y': int, y: int, c: int)
    requires x' % U32 == x % U32 && y' % U32 == y % U32 && (c == x + y || c == x + y + U32)
    ensures (x' + y') % U32 == c % U32
  {
  }

  lemma WrapIsCongruent(x: int)
    ensures Wrap(x) % U32 == x % U32
  {
    RemainderOfRemainder(x, U32, U32);
  }

  lemma WordOf(s: int, c: int)
    requires Word32(c) && s % U32 == c % U32
    ensures SignExtend32(s) == Wrap(c)
  {
    assert Signed(s % U32, SIGN32) == c;
  }

  lemma AuipcValue(pc: nat, x: nat, y: nat, imm: int)
    ensures Ex(Auipc, pc, x, y, imm) == Some(Wrap(pc + imm * 0x1000))
  {
    hide Wrap;
  }

  lemma AddiValue(pc: nat, x: nat, y: nat)
    ensures Ex(Addi, pc, x, y, 0) == Some(Wrap(x + y))
  {
    hide Wrap;
  }

  /** AUIPC and ADDI put the address at a distance into a register. */
  lemma AddressBuilt(a: Arch, rd: nat, d: int, lossy: bool)
    requires Word32(d) && d < 0x7FFF_F800 && rd != 0
    requires Next(a, Upper(Auipc, rd, High(d))) && Next(Slot(a, lossy), RegImm(Addi, rd, rd, Low(d)))
    ensures var b := Slots(a, lossy, 2); b.reg == a.reg[rd := Wrap(a.pc + d)] && (b.ok <==> a.ok)
  {
    hide Fetchable, Word, Assemble, Slot, Wrap, Ex, High, Low;
    var b, i := Slot(a, lossy), RegImm(Addi, rd, rd, Low(d));
    TwoSlots(a, lossy);
    UpperStep(a, Auipc, rd, High(d), lossy);
    RegisterStep(b, i, lossy);
    AuipcValue(a.pc, Wrap(High(d)), 0, High(d));
    WrapTwice(a.pc + High(d) * 0x1000);
    AddiValue(b.pc, Val(b, rd), Wrap(Low(d)));
    SumOfHalves(a.pc, d);
  }

  // Jumps.

  /** JAL goes as far as it says and links the word behind it. */
  lemma JumpStep(a: Arch, rd: nat, d: int, lossy: bool)
    requires Next(a, Jump(rd, d))
    ensures var b := Slot(a, lossy);
            && b.pc == Wrap(a.pc + d) && b.reg == SetReg(a.reg, rd, Wrap(a.pc + 4)) && b.mem == a.mem
            && b.out == a.out && b.lastLoad == 0 && (b.ok <==> a.ok)
  {
    hide Fetchable, Word, Assemble, Wrap, Decode;
    StepOf(a, Jump(rd, d), lossy);
    WrapTwice(d);
    WrapInner(a.pc, d);
    WrapTwice(a.pc + d);
  }

  lemma WrapInner(x: int, y: int)
    ensures Wrap(x + Wrap(y)) == Wrap(x + y)
  {
  }

  /** JALR goes to its base plus its immediate, the lowest bit cleared. */
  lemma JumpRegStep(a: Arch, rd: nat, rs1: nat, d: int, lossy: bool)
    requires Next(a, JumpReg(rd, rs1, d)) && Kept(a, JumpReg(rd, rs1, d), lossy)
    ensures var b, x := Slot(a, lossy), Wrap(Val(a, rs1) + d);
            && b.pc == x - x % 2 && b.reg == SetReg(a.reg, rd, Wrap(a.pc + 4)) && b.mem == a.mem
            && b.out == a.out && b.lastLoad == 0 && (b.ok <==> a.ok)
  {
    hide Fetchable, Word, Assemble, Wrap, Decode;
    StepOf(a, JumpReg(rd, rs1, d), lossy);
    WrapTwice(d);
    var x := Wrap(Val(a, rs1) + d);
    WrapInner(Val(a, rs1), d);
    Encoding.WrapSmall(x - x % 2);
  }

  lemma AlignedNext(pc: nat)
    requires pc % 4 == 0
    ensures Wrap(pc + 4) % 2 == 0
  {
    RemainderOfRemainder(pc + 4, 2, 0x8000_0000_0000_0000);
  }

  lemma AlignedFetch(a: Arch, i: Asm)
    requires Next(a, i)
    ensures a.pc % 4 == 0
  {
    hide Word, Assemble, Encoding.Valid;
  }

  /** A called routine that returns through its link comes back to the word behind the call. */
  lemma ReturnsBehind(a: Arch, b: Arch, link: nat, lossy: bool)
    requires a.pc % 4 == 0 && 0 < link < 32 && b.lastLoad == 0 && Next(b, JumpReg(0, link, 0))
    requires b.reg[link] == Wrap(a.pc + 4)
    ensures var c := Slot(b, lossy); c.pc == Wrap(a.pc + 4) && c.reg == b.reg && (c.ok <==> b.ok)
  {
    hide Fetchable, Word, Assemble, Slot, Wrap;
    JumpRegStep(b, 0, link, 0, lossy);
    WrapTwice(a.pc + 4);
    AlignedNext(a.pc);
  }

  /** Call and return: JAL or JALR with a link, and JALR through that link right at the target. */
  lemma CallReturns(a: Arch, call: Asm, lossy: bool)
    requires (call.Jump? || call.JumpReg?) && call.rd != 0 && Next(a, call) && Kept(a, call, lossy)
    requires Next(Slot(a, lossy), JumpReg(0, call.rd, 0))
    ensures var c := Slots(a, lossy, 2);
            && c.pc == Wrap(a.pc + 4) && c.reg == a.reg[call.rd := Wrap(a.pc + 4)] && c.mem == a.mem && (c.ok <==> a.ok)
  {
    hide Fetchable, Word, Assemble, Slot, Wrap, Kept;
    TwoSlots(a, lossy);
    AlignedFetch(a, call);
    if call.Jump? {
      JumpStep(a, call.rd, call.imm, lossy);
    } else {
      JumpRegStep(a, call.rd, call.rs1, call.imm, lossy);
    }
    var b := Slot(a, lossy);
    assert Kept(b, JumpReg(0, call.rd, 0), lossy) by { QuietIsKept(b, JumpReg(0, call.rd, 0), lossy); }
    JumpRegStep(b, 0, call.rd, 0, lossy);
    ReturnsBehind(a, b, call.rd, lossy);
  }

  lemma QuietIsKept(a: Arch, i: Asm, lossy: bool)
    requires a.lastLoad == 0
    ensures Kept(a, i, lossy)
  {
  }

  /** AUIPC and JALR go to any even distance and link the word behind them. */
  lemma FarJump(a: Arch, rd: nat, link: nat, d: int, lossy: bool)
    requires Word32(d) && d < 0x7FFF_F800 && rd != 0 && d % 2 == 0
    requires Next(a, Upper(Auipc, rd, High(d))) && Next(Slot(a, lossy), JumpReg(link, rd, Low(d)))
    ensures var b := Slots(a, lossy, 2);
            && |b.reg| == 32 && b.pc == Wrap(a.pc + d) && (link != 0 ==> b.reg[link] == Wrap(Wrap(a.pc + 4) + 4))
            && (forall r :: 0 <= r < 32 && r != rd && r != link ==> b.reg[r] == a.reg[r]) && (b.ok <==> a.ok)
  {
    hide Fetchable, Word, Assemble, Slot, Wrap, Ex, High, Low, Kept;
    var b, i := Slot(a, lossy), JumpReg(link, rd, Low(d));
    TwoSlots(a, lossy);
    AlignedFetch(a, Upper(Auipc, rd, High(d)));
    UpperStep(a, Auipc, rd, High(d), lossy);
    QuietIsKept(b, i, lossy);
    JumpRegStep(b, link, rd, Low(d), lossy);
    AuipcValue(a.pc, Wrap(High(d)), 0, High(d));
    WrapTwice(a.pc + High(d) * 0x1000);
    SumOfHalves(a.pc, d);
    WrapInner(Val(b, rd), Low(d));
    EvenSum(a.pc, d);
  }

  lemma EvenSum(pc: nat, d: int)
    requires pc % 4 == 0 && d % 2 == 0
    ensures Wrap(pc + d) % 2 == 0
  {
    RemainderOfRemainder(pc + d, 2, 0x8000_0000_0000_0000);
  }

  // Branches.

  lemma BranchKinds(k: Kind, pc: nat, x: nat, y: nat, d: int)
    requires IsBranch(k)
    ensures !IsJump(k) && !IsLoad(k) && !IsStore(k) && !Writes(k) && !k.Ecall? && !k.Jalr? &&
            Execute(k, pc, x, y, d).defined
  {
  }

  /** A branch goes as far as it says if its operands compare as its name says, and to the next word otherwise. */
  lemma BranchStep(a: Arch, kind: Kind, rs1: nat, rs2: nat, d: int, lossy: bool)
    requires Next(a, Branch(kind, rs1, rs2, d))
    ensures var b := Slot(a, lossy);
            && b.pc == Wrap(a.pc + if Compares(kind, Val(a, rs1), Val(a, rs2)) then d else 4)
            && b.reg == a.reg && b.mem == a.mem && b.out == a.out && b.lastLoad == 0 && (b.ok <==> a.ok)
  {
    hide Fetchable, Word, Assemble, Wrap, Decode, Compares, Taken, Execute, IsBranch, IsJump, IsLoad, IsStore,
         Writes;
    BranchKinds(kind, a.pc, Val(a, rs1), Val(a, rs2), d);
    StepOf(a, Branch(kind, rs1, rs2, d), lossy);
    BranchesCompare(kind, Val(a, rs1), Val(a, rs2));
  }

  // Loads and stores.

  /** How many bytes a load or store moves, as its encoding says. */
  function Width(k: Kind): nat {
    match CodesOf(k)
    case Codes(_, f3, _) => Pow2(f3 % 4)
    case NoCodes => 0
  }

  lemma WidthIsMemLen(k: Kind)
    requires IsLoad(k) || IsStore(k)
    ensures MemLen(k) == Width(k) && 0 < Width(k) <= 8
  {
    hide Width, MemLen;
    if IsLoad(k) {
      LoadWidth(k);
    } else {
      StoreWidth(k);
    }
  }

  lemma SmallPowers()
    ensures Pow2(0) == 1 && Pow2(1) == 2 && Pow2(2) == 4 && Pow2(3) == 8
  {
  }

  lemma LoadWidth(k: Kind)
    requires IsLoad(k)
    ensures MemLen(k) == Width(k) && 0 < Width(k) <= 8
  {
    hide Pow2;
    SmallPowers();
  }

  lemma StoreWidth(k: Kind)
    requires IsStore(k)
    ensures MemLen(k) == Width(k) && 0 < Width(k) <= 8
  {
    hide Pow2;
    SmallPowers();
  }

  /** The address: base plus offset in 32 bits. */
  function Address(a: Arch, rs1: nat, imm: int): nat
    requires rs1 < |a.reg|
  {
    (Val(a, rs1) + imm) % U32
  }

  lemma MemoryOperands(a: Arch, i: Asm)
    requires Encoding.Valid(i) && |a.reg| == 32 && (i.Load? || i.Store?)
    ensures AddrAt(a, Meaning(i)) == Address(a, i.rs1, i.imm)
    ensures ResultAt(a, Meaning(i)).defined && Meaning(i).kind == i.kind
    ensures i.Store? ==> Wrap(ValB(a, Meaning(i))) == Val(a, i.rs2)
  {
    hide Wrap, Pow2;
    var x := Val(a, i.rs1) + i.imm;
    WrapTwice(x);
    WrapIsCongruent(x);
  }

  /** The bytes at an address are those of a number, the lowest first. */
  predicate Spells(mem: map<nat, byte>, addr: nat, n: nat, v: nat) {
    forall i :: 0 <= i < n ==> addr + i in mem && DigitAt(v, i) == mem[addr + i]
  }

  function DigitAt(v: nat, i: nat): int { v / Pow2(8 * i) % 256 }

  lemma BytesSpell(v: nat, n: nat)
    ensures forall i :: 0 <= i < n ==> ToBytes(v, n)[i] == DigitAt(v, i)
  {
    hide Pow2, ToBytes;
    forall i | 0 <= i < n ensures ToBytes(v, n)[i] == DigitAt(v, i) {
      ToBytesAt(v, n, i);
    }
  }

  lemma StoreKinds(k: Kind)
    requires IsStore(k)
    ensures !IsJump(k) && !IsBranch(k) && !IsLoad(k) && !Writes(k) && !k.Ecall? && !k.Jalr?
  {
  }

  lemma LoadKinds(k: Kind)
    requires IsLoad(k)
    ensures !IsJump(k) && !IsBranch(k) && !IsStore(k) && Writes(k) && !k.Ecall? && !k.Jalr?
  {
  }

  /** A store leaves its register's low bytes at base plus offset, and every other byte as it was. */
  lemma StoreStep(a: Arch, kind: Kind, rs1: nat, rs2: nat, imm: int, lossy: bool)
    requires Next(a, Store(kind, rs1, rs2, imm)) && Covers(a.mem, Address(a, rs1, imm), Width(kind))
    ensures var b, addr, n := Slot(a, lossy), Address(a, rs1, imm), Width(kind);
            && Spells(b.mem, addr, n, Val(a, rs2)) && b.mem.Keys == a.mem.Keys
            && (forall x :: x in a.mem && !(addr <= x < addr + n) ==> b.mem[x] == a.mem[x])
            && b.reg == a.reg && b.pc == Wrap(a.pc + 4) && b.out == a.out && b.lastLoad == 0 && (b.ok <==> a.ok)
  {
    hide Fetchable, Word, Assemble, Wrap, Decode, Execute, IsBranch, IsJump, IsLoad, IsStore, Writes, Pow2, Width,
         ToBytes, AddrAt, Address, MemLen, DigitAt, CodesOf;
    var i := Store(kind, rs1, rs2, imm);
    StoreKinds(kind);
    WidthIsMemLen(kind);
    MemoryOperands(a, i);
    StepOf(a, i, lossy);
    BytesSpell(Val(a, rs2), Width(kind));
  }

  /** A load puts the number that the bytes at base plus offset spell into its register. */
  lemma LoadStep(a: Arch, kind: Kind, rd: nat, rs1: nat, imm: int, lossy: bool) returns (v: nat)
    requires Next(a, Load(kind, rd, rs1, imm)) && Covers(a.mem, Address(a, rs1, imm), Width(kind))
    ensures Spells(a.mem, Address(a, rs1, imm), Width(kind), v) && v < Pow2(8 * Width(kind))
    ensures var b := Slot(a, lossy);
            && b.reg == SetReg(a.reg, rd, v) && b.mem == a.mem && b.pc == Wrap(a.pc + 4) && b.out == a.out
            && b.lastLoad == rd && (b.ok <==> a.ok)
  {
    hide Fetchable, Word, Assemble, Wrap, Decode, Execute, IsBranch, IsJump, IsLoad, IsStore, Writes, Pow2, Width,
         ToBytes, FromBytes, AddrAt, Address, MemLen, DigitAt, CodesOf;
    var i := Load(kind, rd, rs1, imm);
    LoadKinds(kind);
    WidthIsMemLen(kind);
    MemoryOperands(a, i);
    StepOf(a, i, lossy);
    var bytes := ReadBytes(a.mem, Address(a, rs1, imm), Width(kind));
    v := FromBytes(bytes);
    FromBytesBound(bytes);
    NumberSpelt(bytes);
  }

  /** The number made of some bytes is spelt by them. */
  lemma {:induction false} BytesBack(bytes: seq<byte>)
    ensures ToBytes(FromBytes(bytes), |bytes|) == bytes
  {
    if bytes != [] {
      BytesBack(bytes[1..]);
      var rest := FromBytes(bytes[1..]);
      assert (bytes[0] + 256 * rest) % 256 == bytes[0] && (bytes[0] + 256 * rest) / 256 == rest;
    }
  }

  lemma NumberSpelt(bytes: seq<byte>)
    ensures forall i :: 0 <= i < |bytes| ==> DigitAt(FromBytes(bytes), i) == bytes[i]
  {
    hide ToBytes, FromBytes, DigitAt;
    BytesBack(bytes);
    BytesSpell(FromBytes(bytes), |bytes|);
  }

  /** What two numbers below 256^n spell alike is one number. */
  lemma {:induction false} SpeltOnce(v: nat, w: nat, n: nat)
    requires v < Pow2(8 * n) && forall i :: 0 <= i < n ==> DigitAt(v, i) == DigitAt(w, i)
    ensures v == w % Pow2(8 * n)
  {
    hide Pow2, DigitAt, ToBytes, FromBytes;
    BytesSpell(v, n);
    BytesSpell(w, n);
    assert ToBytes(v, n) == ToBytes(w, n);
    BytesRoundTrip(v, n);
    BytesRoundTrip(w, n);
    SmallRemainder(v, Pow2(8 * n));
  }

  lemma SmallRemainder(v: nat, p: nat)
    requires v < p
    ensures v % p == v
  {
  }

  /** A store, and behind it a load of the same width through the same base and offset: the low bytes come back. */
  lemma StoredIsLoaded(a: Arch, st: Asm, ld: Asm, lossy: bool)
    requires st.Store? && ld.Load? && Next(a, st) && Next(Slot(a, lossy), ld)
    requires ld.rs1 == st.rs1 && ld.imm == st.imm && Width(ld.kind) == Width(st.kind) && ld.rd != 0
    requires Covers(a.mem, Address(a, st.rs1, st.imm), Width(st.kind))
    ensures var b := Slots(a, lossy, 2);
            && b.reg == a.reg[ld.rd := Val(a, st.rs2) % Pow2(8 * Width(st.kind))] && (b.ok <==> a.ok)
  {
    hide Fetchable, Word, Assemble, Slot, Wrap, Pow2, Width, Address, DigitAt, CodesOf;
    var b, addr, n := Slot(a, lossy), Address(a, st.rs1, st.imm), Width(st.kind);
    TwoSlots(a, lossy);
    StoreStep(a, st.kind, st.rs1, st.rs2, st.imm, lossy);
    SameAddress(a, b, st.rs1, st.imm);
    var v := LoadStep(b, ld.kind, ld.rd, ld.rs1, ld.imm, lossy);
    forall i | 0 <= i < n ensures DigitAt(v, i) == DigitAt(Val(a, st.rs2), i) {
      assert addr + i in b.mem;
    }
    SpeltOnce(v, Val(a, st.rs2), n);
  }

  lemma SameAddress(a: Arch, b: Arch, rs1: nat, imm: int)
    requires rs1 < |a.reg| && b.reg == a.reg
    ensures Address(b, rs1, imm) == Address(a, rs1, imm)
  {
  }

  // Results and calls.

  /** Every step with a destination writes it, but for MULH and REM; no other register ever changes. */
  lemma DestinationWritten(a: Arch)
    requires Performs(a) && |a.reg| == 32
    ensures var i := InstAt(a);
            Step(a).reg == if i.dest > 0 && !i.kind.Mulh? && !i.kind.Rem? then a.reg[i.dest := ValueAt(a, i)] else a.reg
  {
    hide Word, Execute, KindOf, Fetchable, ValueAt;
    StepPerforms(a);
    DestinationKinds(Word(a.mem, a.pc));
  }

  lemma DestinationKinds(w: nat)
    requires Decode(w).Some?
    ensures var i := Decode(w).value;
            && i.dest < 32 && (i.dest > 0 && !i.kind.Mulh? && !i.kind.Rem? ==> Writes(i.kind))
            && (i.kind.Mulh? || i.kind.Rem? ==> !Writes(i.kind))
  {
  }

  /** Byte k behind the address, wrapping at 32 bits. */
  predicate HasAt(mem: map<nat, byte>, addr: nat, k: nat, b: byte) { At(addr, k) in mem && mem[At(addr, k)] == b }

  /** The characters stand at the address, none of them zero, and a zero behind them. */
  predicate Stands(mem: map<nat, byte>, addr: nat, chars: seq<byte>) {
    && (forall i :: 0 <= i < |chars| ==> HasAt(mem, addr, i, chars[i]) && chars[i] != 0)
    && HasAt(mem, addr, |chars|, 0)
  }

  lemma FirstAt(mem: map<nat, byte>, addr: nat, b: byte)
    ensures HasAt(mem, addr, 0, b) <==> addr % U32 in mem && mem[addr % U32] == b
  {
    assert At(addr, 0) == addr % U32;
  }

  lemma NextAt(mem: map<nat, byte>, addr: nat, k: nat, b: byte)
    ensures HasAt(mem, addr + 1, k, b) <==> HasAt(mem, addr, k + 1, b)
  {
    assert At(addr + 1, k) == At(addr, k + 1);
  }

  lemma {:induction false} TextStands(mem: map<nat, byte>, addr: nat, fuel: nat, chars: seq<byte>)
    ensures TextAt(mem, addr, fuel) == Some(chars) <==> |chars| < fuel && Stands(mem, addr, chars)
    decreases fuel
  {
    hide HasAt, Stands;
    if fuel > 0 {
      if chars == [] {
        EmptyStands(mem, addr);
      } else {
        TextStands(mem, addr + 1, fuel - 1, chars[1..]);
        OneFurther(mem, addr, chars);
        assert chars == [chars[0]] + chars[1..];
      }
    }
  }

  lemma EmptyStands(mem: map<nat, byte>, addr: nat)
    ensures Stands(mem, addr, []) <==> addr % U32 in mem && mem[addr % U32] == 0
  {
    hide HasAt;
    FirstAt(mem, addr, 0);
  }

  lemma OneFurther(mem: map<nat, byte>, addr: nat, chars: seq<byte>)
    requires chars != []
    ensures Stands(mem, addr, chars) <==>
            addr % U32 in mem && mem[addr % U32] == chars[0] && chars[0] != 0 && Stands(mem, addr + 1, chars[1..])
  {
    hide HasAt;
    FirstAt(mem, addr, chars[0]);
    var rest := chars[1..];
    NextAt(mem, addr, |rest|, 0);
    if Stands(mem, addr, chars) {
      forall i | 0 <= i < |rest| ensures HasAt(mem, addr + 1, i, rest[i]) && rest[i] != 0 {
        assert HasAt(mem, addr, i + 1, chars[i + 1]);
        NextAt(mem, addr, i, rest[i]);
      }
    }
    if HasAt(mem, addr, 0, chars[0]) && chars[0] != 0 && Stands(mem, addr + 1, rest) {
      forall i | 0 <= i < |chars| ensures HasAt(mem, addr, i, chars[i]) && chars[i] != 0 {
        if i > 0 {
          assert HasAt(mem, addr + 1, i - 1, rest[i - 1]);
          NextAt(mem, addr, i - 1, rest[i - 1]);
        }
      }
    }
  }

  /** What a system call prints: the string at a0, the low byte of a0, or the low word of a0 as a signed number. */
  predicate Prints(a: Arch, o: Output)
    requires |a.reg| == 32
  {
    match o
    case Text(chars) => a.reg[17] == 0 && |chars| < U32 && Stands(a.mem, Val(a, 10), chars)
    case Char(code) => a.reg[17] == 1 && code < 0x100 && (a.reg[10] - code) % 0x100 == 0
    case Number(v) => a.reg[17] == 2 && Word32(v) && (a.reg[10] - v) % U32 == 0
  }

  /** A system call prints what its registers ask for, and ends the process if there is nothing that it could print. */
  lemma CallStep(a: Arch, lossy: bool)
    requires Next(a, Call)
    ensures var b := Slot(a, lossy);
            && b.reg == a.reg && b.mem == a.mem && b.pc == Wrap(a.pc + 4) && b.lastLoad == 0
            && (forall o :: Prints(a, o) ==> b.out == a.out + [o] && (b.ok <==> a.ok))
            && ((forall o :: !Prints(a, o)) ==> !b.ok)
  {
    hide Fetchable, Word, Assemble, Decode, Wrap, SystemCall, Stands, Prints;
    StepOf(a, Call, lossy);
    CallPrints(a);
  }

  lemma CallPrints(a: Arch)
    requires |a.reg| == 32
    ensures forall o :: Prints(a, o) <==> SystemCall(a.mem, a.reg[10], a.reg[17]) == Some(o)
  {
    hide Wrap, Stands;
    forall o ensures Prints(a, o) <==> SystemCall(a.mem, a.reg[10], a.reg[17]) == Some(o) {
      match o {
        case Text(chars) => TextStands(a.mem, Val(a, 10), U32, chars);
        case Char(code) => LowByte(a.reg[10], code);
        case Number(v) => LowWord(a.reg[10], v);
      }
    }
  }

  lemma LowByte(x: int, code: nat)
    ensures code < 0x100 && (x - code) % 0x100 == 0 <==> code == x % 0x100
  {
  }

  lemma LowWord(x: int, v: int)
    ensures Word32(v) && (x - v) % U32 == 0 <==> v == Signed(x % U32, SIGN32)
  {
  }

  // Predictions.

  /** Which way a strategy guesses a branch to go: by its direction alone. */
  predicate Guessed(d: int, strat: Strategy) {
    match strat
    case NeverTaken => false
    case AlwaysTaken => true
    case BackwardTaken => d < 0
  }

  /** The fetch behind a branch goes where it leads if it is guessed taken; behind everything else to the next word. */
  lemma PredictionOf(pc: nat, i: Asm, strat: Strategy)
    requires Encoding.Valid(i)
    ensures PredictedPC(pc, Assemble(i), strat) == Wrap(pc + if i.Branch? && Guessed(i.imm, strat) then i.imm else 4)
    ensures OtherPC(pc, Assemble(i), strat) == Wrap(pc + if i.Branch? && !Guessed(i.imm, strat) then i.imm else 4)
  {
    hide Assemble, Decode, Wrap, Opcode, ImmSB, IsBranch;
    DecodeAssembled(i);
    WordDecodes(Assemble(i));
    BranchMeaning(i);
  }

  lemma BranchMeaning(i: Asm)
    requires Encoding.Valid(i)
    ensures IsBranch(Meaning(i).kind) <==> i.Branch?
    ensures i.Branch? ==> Meaning(i).offset == i.imm
  {
  }
}
