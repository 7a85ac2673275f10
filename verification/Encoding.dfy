/** Instruction words put together from their fields, and what ID makes of them; facts about the EX switch. */
module Encoding {
  import opened Wrappers
  import opened Bits
  import opened Isa

  /** The fields at the positions all formats share. */
  function Fields(op: nat, rd: nat, f3: nat, rs1: nat, rs2: nat, f7: nat): nat {
    op + 0x80 * rd + 0x1000 * f3 + 0x8000 * rs1 + 0x10_0000 * rs2 + 0x200_0000 * f7
  }

  predicate InFields(op: nat, rd: nat, f3: nat, rs1: nat, rs2: nat, f7: nat) {
    op < 0x80 && rd < 32 && f3 < 8 && rs1 < 32 && rs2 < 32 && f7 < 0x80
  }

  lemma FieldsRoundTrip(op: nat, rd: nat, f3: nat, rs1: nat, rs2: nat, f7: nat)
    requires InFields(op, rd, f3, rs1, rs2, f7)
    ensures var w := Fields(op, rd, f3, rs1, rs2, f7);
            && w < U32
            && Opcode(w) == op && Rd(w) == rd && Funct3(w) == f3 && Rs1(w) == rs1 && Rs2(w) == rs2 && Funct7(w) == f7
  {
    FieldQuotients(op, rd, f3, rs1, rs2, f7);
    LowDigit(op, 0x80, rd + 0x20 * f3 + 0x100 * rs1 + 0x2000 * rs2 + 0x4_0000 * f7);
    LowDigit(rd, 0x20, f3 + 8 * rs1 + 0x100 * rs2 + 0x2000 * f7);
    LowDigit(f3, 8, rs1 + 0x20 * rs2 + 0x400 * f7);
    LowDigit(rs1, 0x20, rs2 + 0x20 * f7);
    LowDigit(rs2, 0x20, f7);
  }

  lemma LowDigit(low: nat, base: nat, high: nat)
    requires low < base
    ensures (low + base * high) % base == low
  {
    RemainderUnique(low + base * high, base, high, low);
  }

  lemma FieldQuotients(op: nat, rd: nat, f3: nat, rs1: nat, rs2: nat, f7: nat)
    requires InFields(op, rd, f3, rs1, rs2, f7)
    ensures var w := Fields(op, rd, f3, rs1, rs2, f7);
            && w / 0x80 == rd + 0x20 * f3 + 0x100 * rs1 + 0x2000 * rs2 + 0x4_0000 * f7
            && w / 0x1000 == f3 + 8 * rs1 + 0x100 * rs2 + 0x2000 * f7
            && w / 0x8000 == rs1 + 0x20 * rs2 + 0x400 * f7
            && w / 0x10_0000 == rs2 + 0x20 * f7 && w / 0x200_0000 == f7
  {
  }

  // Immediates.

  /** The field of width 2 * half that a signed number is stored in. */
  lemma SignedField(imm: int, half: nat) returns (u: nat)
    requires half > 0 && 0 <= imm + half && imm < half
    ensures u == imm % (2 * half) && u < 2 * half && Signed(u, half) == imm && (imm % 2 == 0 ==> u % 2 == 0)
  {
    u := imm % (2 * half);
    RemainderUnique(imm, 2 * half, if imm >= 0 then 0 else -1, if imm >= 0 then imm else imm + 2 * half);
  }

  function EncodeI(op: nat, f3: nat, rd: nat, rs1: nat, imm: int): nat {
    var u := imm % 0x1000;
    Fields(op, rd, f3, rs1, u % 0x20, u / 0x20)
  }

  lemma EncodeIRoundTrip(op: nat, f3: nat, rd: nat, rs1: nat, imm: int)
    requires op < 0x80 && f3 < 8 && rd < 32 && rs1 < 32 && -0x800 <= imm < 0x800
    ensures var w := EncodeI(op, f3, rd, rs1, imm);
            Opcode(w) == op && Rd(w) == rd && Funct3(w) == f3 && Rs1(w) == rs1 && ImmI(w) == imm
  {
    hide Fields, Opcode, Rd, Funct3, Rs1, Rs2, Funct7, Signed;
    var u := SignedField(imm, 0x800);
    FieldsRoundTrip(op, rd, f3, rs1, u % 0x20, u / 0x20);
    UpperTwelve(EncodeI(op, f3, rd, rs1, imm));
  }

  lemma UpperTwelve(w: nat)
    requires w < U32
    ensures w / 0x10_0000 % 0x1000 == Rs2(w) + 0x20 * Funct7(w)
  {
    assert w / 0x200_0000 == w / 0x10_0000 / 0x20;
  }

  function EncodeS(op: nat, f3: nat, rs1: nat, rs2: nat, imm: int): nat {
    var u := imm % 0x1000;
    Fields(op, u % 0x20, f3, rs1, rs2, u / 0x20)
  }

  lemma EncodeSRoundTrip(op: nat, f3: nat, rs1: nat, rs2: nat, imm: int)
    requires op < 0x80 && f3 < 8 && rs1 < 32 && rs2 < 32 && -0x800 <= imm < 0x800
    ensures var w := EncodeS(op, f3, rs1, rs2, imm);
            Opcode(w) == op && Funct3(w) == f3 && Rs1(w) == rs1 && Rs2(w) == rs2 && ImmS(w) == imm
  {
    hide Fields, Opcode, Rd, Funct3, Rs1, Rs2, Funct7, Signed;
    var u := SignedField(imm, 0x800);
    FieldsRoundTrip(op, u % 0x20, f3, rs1, rs2, u / 0x20);
  }

  /** A branch offset is even and 13 bits wide; its bits 11 and 12 sit at the ends of the two fields. */
  function EncodeB(op: nat, f3: nat, rs1: nat, rs2: nat, imm: int): nat {
    var u := imm % 0x2000;
    Fields(op, u / 0x800 % 2 + 2 * (u / 2 % 0x10), f3, rs1, rs2, u / 0x20 % 0x40 + 0x40 * (u / 0x1000))
  }

  lemma BranchBits(u: nat)
    requires u < 0x2000 && u % 2 == 0
    ensures u == 2 * (u / 2 % 0x10) + 0x20 * (u / 0x20 % 0x40) + 0x800 * (u / 0x800 % 2) + 0x1000 * (u / 0x1000)
    ensures u / 0x1000 < 2
  {
    assert u / 0x20 == u / 2 / 0x10 && u / 0x800 == u / 0x20 / 0x40 && u / 0x1000 == u / 0x800 / 2;
  }

  lemma EncodeBRoundTrip(op: nat, f3: nat, rs1: nat, rs2: nat, imm: int)
    requires op < 0x80 && f3 < 8 && rs1 < 32 && rs2 < 32 && -0x1000 <= imm < 0x1000 && imm % 2 == 0
    ensures var w := EncodeB(op, f3, rs1, rs2, imm);
            Opcode(w) == op && Funct3(w) == f3 && Rs1(w) == rs1 && Rs2(w) == rs2 && ImmSB(w) == imm
  {
    hide Fields, Rd, Funct7, ImmSB, Opcode, Funct3, Rs1, Rs2;
    var u := SignedField(imm, 0x1000);
    BranchBits(u);
    BranchWord(op, f3, rs1, rs2, u / 0x800 % 2, u / 2 % 0x10, u / 0x20 % 0x40, u / 0x1000);
  }

  lemma BranchWord(op: nat, f3: nat, rs1: nat, rs2: nat, b11: nat, low: nat, high: nat, b12: nat)
    requires op < 0x80 && f3 < 8 && rs1 < 32 && rs2 < 32 && b11 < 2 && low < 0x10 && high < 0x40 && b12 < 2
    ensures var w := Fields(op, b11 + 2 * low, f3, rs1, rs2, high + 0x40 * b12);
            && Opcode(w) == op && Funct3(w) == f3 && Rs1(w) == rs1 && Rs2(w) == rs2
            && ImmSB(w) == Signed(2 * low + 0x20 * high + 0x800 * b11 + 0x1000 * b12, 0x1000)
  {
    hide Fields, Signed, Opcode, Funct3, Rs1, Rs2;
    FieldsRoundTrip(op, b11 + 2 * low, f3, rs1, rs2, high + 0x40 * b12);
    BranchFields(Fields(op, b11 + 2 * low, f3, rs1, rs2, high + 0x40 * b12));
    hide Rd, Funct7;
  }

  /** The branch immediate reads the two fields it was split into. */
  lemma BranchFields(w: nat)
    requires w < U32
    ensures w / 0x100 % 0x10 == Rd(w) / 2 && w / 0x80 % 2 == Rd(w) % 2
    ensures w / 0x200_0000 % 0x40 == Funct7(w) % 0x40 && w / 0x8000_0000 % 2 == Funct7(w) / 0x40
  {
    DivDiv(w, 0x80, 2);
    DivDiv(w, 0x200_0000, 0x40);
    LowField(w / 0x80);
    HighField(w / 0x200_0000);
  }

  lemma LowField(q: nat)
    ensures q / 2 % 0x10 == q % 0x20 / 2 && q % 2 == q % 0x20 % 2
  {
  }

  lemma HighField(q: nat)
    requires q < 0x80
    ensures q % 0x40 == q % 0x80 % 0x40 && q / 0x40 % 2 == q % 0x80 / 0x40
  {
  }

  function EncodeU(op: nat, rd: nat, imm: int): nat { op + 0x80 * rd + 0x1000 * (imm % 0x10_0000) }

  lemma EncodeURoundTrip(op: nat, rd: nat, imm: int)
    requires op < 0x80 && rd < 32 && -0x8_0000 <= imm < 0x8_0000
    ensures var w := EncodeU(op, rd, imm); Opcode(w) == op && Rd(w) == rd && ImmU(w) == imm
  {
    var u := imm % 0x10_0000;
    var w := EncodeU(op, rd, imm);
    assert w / 0x80 == rd + 0x20 * u;
    assert w / 0x1000 == u;
    assert u == if imm >= 0 then imm else imm + 0x10_0000;
  }

  /** A jump offset is even and 21 bits wide: bit 20, bits 10 to 1, bit 11, bits 19 to 12, from the top. */
  function EncodeJ(op: nat, rd: nat, imm: int): nat {
    var u := imm / 2 % 0x10_0000;
    op + 0x80 * rd + 0x1000 * (u / 0x800 % 0x100) + 0x10_0000 * (u / 0x400 % 2) + 0x20_0000 * (u % 0x400) +
    0x8000_0000 * (u / 0x8_0000)
  }

  lemma JumpBits(u: nat)
    requires u < 0x10_0000
    ensures u == u % 0x400 + 0x400 * (u / 0x400 % 2) + 0x800 * (u / 0x800 % 0x100) + 0x8_0000 * (u / 0x8_0000)
    ensures u / 0x8_0000 < 2
  {
    assert u / 0x800 == u / 0x400 / 2 && u / 0x8_0000 == u / 0x800 / 0x100;
  }

  lemma JumpFields(op: nat, rd: nat, a: nat, b: nat, c: nat, d: nat)
    requires op < 0x80 && rd < 32 && a < 0x100 && b < 2 && c < 0x400 && d < 2
    ensures var w := op + 0x80 * rd + 0x1000 * a + 0x10_0000 * b + 0x20_0000 * c + 0x8000_0000 * d;
            && Opcode(w) == op && Rd(w) == rd && w / 0x1000 % 0x100 == a && w / 0x10_0000 % 2 == b
            && w / 0x20_0000 % 0x400 == c && w / 0x8000_0000 % 2 == d
  {
    JumpQuotients(op, rd, a, b, c, d);
    LowDigit(op, 0x80, rd + 0x20 * a + 0x2000 * b + 0x4000 * c + 0x100_0000 * d);
    LowDigit(rd, 0x20, a + 0x100 * b + 0x200 * c + 0x8_0000 * d);
    LowDigit(a, 0x100, b + 2 * c + 0x800 * d);
    LowDigit(b, 2, c + 0x400 * d);
    LowDigit(c, 0x400, d);
  }

  lemma JumpQuotients(op: nat, rd: nat, a: nat, b: nat, c: nat, d: nat)
    requires op < 0x80 && rd < 32 && a < 0x100 && b < 2 && c < 0x400 && d < 2
    ensures var w := op + 0x80 * rd + 0x1000 * a + 0x10_0000 * b + 0x20_0000 * c + 0x8000_0000 * d;
            && w / 0x80 == rd + 0x20 * a + 0x2000 * b + 0x4000 * c + 0x100_0000 * d
            && w / 0x1000 == a + 0x100 * b + 0x200 * c + 0x8_0000 * d
            && w / 0x10_0000 == b + 2 * c + 0x800 * d && w / 0x20_0000 == c + 0x400 * d && w / 0x8000_0000 == d
  {
  }

  lemma EncodeJRoundTrip(op: nat, rd: nat, imm: int)
    requires op < 0x80 && rd < 32 && -0x10_0000 <= imm < 0x10_0000 && imm % 2 == 0
    ensures var w := EncodeJ(op, rd, imm); Opcode(w) == op && Rd(w) == rd && ImmUJ(w) == imm
  {
    var u := SignedField(imm / 2, 0x8_0000);
    JumpBits(u);
    hide Opcode, Rd, Signed;
    JumpFields(op, rd, u / 0x800 % 0x100, u / 0x400 % 2, u % 0x400, u / 0x8_0000);
  }

  // Assembly.

  datatype Asm =
    | RegReg(kind: Kind, rd: nat, rs1: nat, rs2: nat)
    | RegImm(kind: Kind, rd: nat, rs1: nat, imm: int)
    | Shift(kind: Kind, rd: nat, rs1: nat, amount: nat)
    | Load(kind: Kind, rd: nat, rs1: nat, imm: int)
    | Store(kind: Kind, rs1: nat, rs2: nat, imm: int)
    | Branch(kind: Kind, rs1: nat, rs2: nat, imm: int)
    | Jump(rd: nat, imm: int)
    | JumpReg(rd: nat, rs1: nat, imm: int)
    | Upper(kind: Kind, rd: nat, imm: int)
    | Call

  datatype Codes = NoCodes | Codes(opcode: nat, f3: nat, f7: nat)

  /** Opcode, funct3 and funct7 of every kind that has them, as the architecture's instruction listing gives them. */
  function CodesOf(k: Kind): Codes {
    match k
    case Add => Codes(0x33, 0, 0) case Sub => Codes(0x33, 0, 0x20) case Sll => Codes(0x33, 1, 0)
    case Slt => Codes(0x33, 2, 0) case Xor => Codes(0x33, 4, 0) case Srl => Codes(0x33, 5, 0)
    case Sra => Codes(0x33, 5, 0x20) case Or => Codes(0x33, 6, 0) case And => Codes(0x33, 7, 0)
    case Mul => Codes(0x33, 0, 1) case Mulh => Codes(0x33, 1, 1) case Div => Codes(0x33, 4, 1)
    case Rem => Codes(0x33, 6, 1) case Addw => Codes(0x3B, 0, 0) case Subw => Codes(0x3B, 0, 0x20)
    case Srlw => Codes(0x3B, 5, 0) case Sraw => Codes(0x3B, 5, 0x20)
    case Addi => Codes(0x13, 0, 0) case Slti => Codes(0x13, 2, 0) case Sltiu => Codes(0x13, 3, 0)
    case Xori => Codes(0x13, 4, 0) case Ori => Codes(0x13, 6, 0) case Andi => Codes(0x13, 7, 0)
    case Addiw => Codes(0x1B, 0, 0)
    case Slli => Codes(0x13, 1, 0) case Srli => Codes(0x13, 5, 0) case Srai => Codes(0x13, 5, 0x20)
    case Slliw => Codes(0x1B, 1, 0) case Srliw => Codes(0x1B, 5, 0) case Sraiw => Codes(0x1B, 5, 0x20)
    case Lb => Codes(0x03, 0, 0) case Lh => Codes(0x03, 1, 0) case Lw => Codes(0x03, 2, 0)
    case Ld => Codes(0x03, 3, 0) case Lbu => Codes(0x03, 4, 0) case Lhu => Codes(0x03, 5, 0)
    case Sb => Codes(0x23, 0, 0) case Sh => Codes(0x23, 1, 0) case Sw => Codes(0x23, 2, 0) case Sd => Codes(0x23, 3, 0)
    case Beq => Codes(0x63, 0, 0) case Bne => Codes(0x63, 1, 0) case Blt => Codes(0x63, 4, 0)
    case Bge => Codes(0x63, 5, 0) case Bltu => Codes(0x63, 6, 0) case Bgeu => Codes(0x63, 7, 0)
    case Jal => Codes(0x6F, 0, 0) case Jalr => Codes(0x67, 0, 0)
    case Lui => Codes(0x37, 0, 0) case Auipc => Codes(0x17, 0, 0) case Ecall => Codes(0x73, 0, 0)
    case _ => NoCodes
  }

  predicate Is64(k: Kind) { k.Slli? || k.Srli? || k.Srai? }
  predicate IsShift(k: Kind) { Is64(k) || k.Slliw? || k.Srliw? || k.Sraiw? }

  predicate Short(imm: int) { -0x800 <= imm < 0x800 }

  /** What can be written: every kind that ID knows, with fields that fit. SLLW and LWU are no kinds of their own. */
  predicate Valid(a: Asm) {
    match a
    case RegReg(k, rd, rs1, rs2) =>
      CodesOf(k).Codes? && CodesOf(k).opcode in {0x33, 0x3B} && rd < 32 && rs1 < 32 && rs2 < 32
    case RegImm(k, rd, rs1, imm) =>
      CodesOf(k).Codes? && CodesOf(k).opcode in {0x13, 0x1B} && !IsShift(k) && rd < 32 && rs1 < 32 && Short(imm)
    case Shift(k, rd, rs1, n) => IsShift(k) && rd < 32 && rs1 < 32 && n < if Is64(k) then 64 else 32
    case Load(k, rd, rs1, imm) => IsLoad(k) && rd < 32 && rs1 < 32 && Short(imm)
    case Store(k, rs1, rs2, imm) => IsStore(k) && rs1 < 32 && rs2 < 32 && Short(imm)
    case Branch(k, rs1, rs2, imm) => IsBranch(k) && rs1 < 32 && rs2 < 32 && -0x1000 <= imm < 0x1000 && imm % 2 == 0
    case Jump(rd, imm) => rd < 32 && -0x10_0000 <= imm < 0x10_0000 && imm % 2 == 0
    case JumpReg(rd, rs1, imm) => rd < 32 && rs1 < 32 && Short(imm)
    case Upper(k, rd, imm) => (k.Lui? || k.Auipc?) && rd < 32 && -0x8_0000 <= imm < 0x8_0000
    case Call => true
  }

  /** The immediate field of a shift: the amount, with the arithmetic shifts marked in bit 10. */
  function ShiftField(k: Kind, amount: nat): int { if k.Srai? || k.Sraiw? then 0x400 + amount else amount }

  function Assemble(a: Asm): nat
    requires Valid(a)
  {
    match a
    case RegReg(k, rd, rs1, rs2) => Fields(CodesOf(k).opcode, rd, CodesOf(k).f3, rs1, rs2, CodesOf(k).f7)
    case RegImm(k, rd, rs1, imm) => EncodeI(CodesOf(k).opcode, CodesOf(k).f3, rd, rs1, imm)
    case Shift(k, rd, rs1, n) => EncodeI(CodesOf(k).opcode, CodesOf(k).f3, rd, rs1, ShiftField(k, n))
    case Load(k, rd, rs1, imm) => EncodeI(0x03, CodesOf(k).f3, rd, rs1, imm)
    case Store(k, rs1, rs2, imm) => EncodeS(0x23, CodesOf(k).f3, rs1, rs2, imm)
    case Branch(k, rs1, rs2, imm) => EncodeB(0x63, CodesOf(k).f3, rs1, rs2, imm)
    case Jump(rd, imm) => EncodeJ(0x6F, rd, imm)
    case JumpReg(rd, rs1, imm) => EncodeI(0x67, 0, rd, rs1, imm)
    case Upper(k, rd, imm) => EncodeU(CodesOf(k).opcode, rd, imm)
    case Call => 0x73
  }

  /** What ID should hand to EX for it; the shift amount of SRAIW keeps the marker bit. */
  function Meaning(a: Asm): Decoded {
    match a
    case RegReg(k, rd, rs1, rs2) => Decoded(k, rs1, rs2, rd, 0, 0, 0)
    case RegImm(k, rd, rs1, imm) => Decoded(k, rs1, -1, rd, 0, Wrap(imm), 0)
    case Shift(k, rd, rs1, n) => Decoded(k, rs1, -1, rd, 0, if k.Sraiw? then 0x400 + n else n, 0)
    case Load(k, rd, rs1, imm) => Decoded(k, rs1, -1, rd, 0, Wrap(imm), imm)
    case Store(k, rs1, rs2, imm) => Decoded(k, rs1, rs2, -1, 0, 0, imm)
    case Branch(k, rs1, rs2, imm) => Decoded(k, rs1, rs2, -1, 0, 0, imm)
    case Jump(rd, imm) => Decoded(Jal, -1, -1, rd, Wrap(imm), 0, imm)
    case JumpReg(rd, rs1, imm) => Decoded(Jalr, rs1, -1, rd, 0, Wrap(imm), 0)
    case Upper(k, rd, imm) => Decoded(k, -1, -1, rd, Wrap(imm), 0, imm)
    case Call => Decoded(Ecall, REG_A0, REG_A7, -1, 0, 0, 0)
  }

  lemma ShiftFields(op: nat, f3: nat, rd: nat, rs1: nat, field: nat)
    requires op < 0x80 && f3 < 8 && rd < 32 && rs1 < 32 && field < 0x800
    ensures var w := EncodeI(op, f3, rd, rs1, field);
            && Opcode(w) == op && Rd(w) == rd && Funct3(w) == f3 && Rs1(w) == rs1 && ImmI(w) == field
            && Funct7(w) == field / 0x20 && Funct6(w) == field / 0x40
  {
    hide Fields, Opcode, Rd, Funct3, Rs1, Rs2, Funct6, Funct7, ImmI;
    FieldsRoundTrip(op, rd, f3, rs1, field % 0x20, field / 0x20);
    EncodeIRoundTrip(op, f3, rd, rs1, field);
    UpperSix(EncodeI(op, f3, rd, rs1, field));
  }

  lemma UpperSix(w: nat)
    requires w < U32
    ensures Funct6(w) == Funct7(w) / 2
  {
    assert w / 0x400_0000 == w / 0x200_0000 / 2;
  }

  lemma WrapSmall(x: nat)
    requires x < U64
    ensures Wrap(x) == x
  {
  }

  lemma DecodeShift(k: Kind, rd: nat, rs1: nat, n: nat)
    requires Valid(Shift(k, rd, rs1, n))
    ensures Decode(Assemble(Shift(k, rd, rs1, n))) == Some(Meaning(Shift(k, rd, rs1, n)))
  {
    hide CodesOf, EncodeI, Wrap, Opcode, Rd, Funct3, Rs1, Rs2, Funct6, Funct7, ImmI, ImmS, ImmSB, ImmU, ImmUJ;
    ShiftCodes(k);
    ShiftFields(if Is64(k) then 0x13 else 0x1B, if k.Slli? || k.Slliw? then 1 else 5, rd, rs1, ShiftField(k, n));
    WrapSmall(ShiftField(k, n));
  }

  lemma ShiftCodes(k: Kind)
    requires IsShift(k)
    ensures CodesOf(k).Codes? && CodesOf(k).opcode == (if Is64(k) then 0x13 else 0x1B)
    ensures CodesOf(k).f3 == if k.Slli? || k.Slliw? then 1 else 5
  {
  }

  lemma DecodeUpperAndJumps(a: Asm)
    requires Valid(a) && (a.Jump? || a.JumpReg? || a.Upper?)
    ensures Decode(Assemble(a)) == Some(Meaning(a))
  {
    hide EncodeI, EncodeJ, EncodeU, Wrap, Opcode, Rd, Funct3, Rs1, Rs2, Funct6, Funct7, ImmI, ImmS, ImmSB, ImmU, ImmUJ;
    match a
    case Jump(rd, imm) => EncodeJRoundTrip(0x6F, rd, imm);
    case JumpReg(rd, rs1, imm) => EncodeIRoundTrip(0x67, 0, rd, rs1, imm);
    case Upper(k, rd, imm) => EncodeURoundTrip(CodesOf(k).opcode, rd, imm);
  }

  lemma DecodeMemoryAndBranches(a: Asm)
    requires Valid(a) && (a.Load? || a.Store? || a.Branch?)
    ensures Decode(Assemble(a)) == Some(Meaning(a))
  {
    hide EncodeI, EncodeS, EncodeB, Wrap, Opcode, Rd, Funct3, Rs1, Rs2, Funct6, Funct7, ImmI, ImmS, ImmSB, ImmU, ImmUJ;
    match a
    case Load(k, rd, rs1, imm) => EncodeIRoundTrip(0x03, CodesOf(k).f3, rd, rs1, imm);
    case Store(k, rs1, rs2, imm) => EncodeSRoundTrip(0x23, CodesOf(k).f3, rs1, rs2, imm);
    case Branch(k, rs1, rs2, imm) => EncodeBRoundTrip(0x63, CodesOf(k).f3, rs1, rs2, imm);
  }

  lemma DecodeRegisters(k: Kind, rd: nat, rs1: nat, rs2: nat)
    requires Valid(RegReg(k, rd, rs1, rs2))
    ensures Decode(Assemble(RegReg(k, rd, rs1, rs2))) == Some(Meaning(RegReg(k, rd, rs1, rs2)))
  {
    hide Fields, Wrap, Opcode, Rd, Funct3, Rs1, Rs2, Funct6, Funct7, ImmI, ImmS, ImmSB, ImmU, ImmUJ;
    FieldsRoundTrip(CodesOf(k).opcode, rd, CodesOf(k).f3, rs1, rs2, CodesOf(k).f7);
  }

  lemma DecodeImmediate(k: Kind, rd: nat, rs1: nat, imm: int)
    requires Valid(RegImm(k, rd, rs1, imm))
    ensures Decode(Assemble(RegImm(k, rd, rs1, imm))) == Some(Meaning(RegImm(k, rd, rs1, imm)))
  {
    hide EncodeI, Wrap, Opcode, Rd, Funct3, Rs1, Rs2, Funct6, Funct7, ImmI, ImmS, ImmSB, ImmU, ImmUJ;
    EncodeIRoundTrip(CodesOf(k).opcode, CodesOf(k).f3, rd, rs1, imm);
  }

  /** Every instruction that can be written decodes to itself. */
  lemma DecodeAssembled(a: Asm)
    requires Valid(a)
    ensures Decode(Assemble(a)) == Some(Meaning(a))
  {
    hide Decode, Assemble, Meaning;
    match a
    case RegReg(k, rd, rs1, rs2) => DecodeRegisters(k, rd, rs1, rs2);
    case RegImm(k, rd, rs1, imm) => DecodeImmediate(k, rd, rs1, imm);
    case Shift(k, rd, rs1, n) => DecodeShift(k, rd, rs1, n);
    case Load(_, _, _, _) => DecodeMemoryAndBranches(a);
    case Store(_, _, _, _) => DecodeMemoryAndBranches(a);
    case Branch(_, _, _, _) => DecodeMemoryAndBranches(a);
    case Jump(_, _) => DecodeUpperAndJumps(a);
    case JumpReg(_, _, _) => DecodeUpperAndJumps(a);
    case Upper(_, _, _) => DecodeUpperAndJumps(a);
    case Call => DecodeCall();
  }

  lemma DecodeCall()
    ensures Decode(Assemble(Call)) == Some(Meaning(Call))
  {
  }

  // Departures from the architecture manual.

  /** SLLW (0x3B, funct3 1, funct7 0) is executed as SRLW. */
  lemma SllwBecomesSrlw(rd: nat, rs1: nat, rs2: nat)
    requires rd < 32 && rs1 < 32 && rs2 < 32
    ensures Decode(Fields(0x3B, rd, 1, rs1, rs2, 0)) == Decode(Assemble(RegReg(Srlw, rd, rs1, rs2)))
  {
    hide Fields, Opcode, Rd, Funct3, Rs1, Rs2, Funct6, Funct7, ImmI, ImmS, ImmSB, ImmU, ImmUJ;
    FieldsRoundTrip(0x3B, rd, 1, rs1, rs2, 0);
    FieldsRoundTrip(0x3B, rd, 5, rs1, rs2, 0);
  }

  /** LWU (0x03, funct3 6) ends the process. */
  lemma LwuIsRefused(rd: nat, rs1: nat, imm: int)
    requires rd < 32 && rs1 < 32 && Short(imm)
    ensures Decode(EncodeI(0x03, 6, rd, rs1, imm)) == None
  {
    EncodeIRoundTrip(0x03, 6, rd, rs1, imm);
    hide EncodeI, Opcode, Rd, Funct3, Rs1, Rs2, Funct6, Funct7;
  }

  /** SRAIW passes its marker bit on to EX, so its shift is always at least 32 wide: undefined in C++. */
  lemma SraiwIsNeverDefined(rd: nat, rs1: nat, n: nat, pc: nat, a: nat)
    requires Valid(Shift(Sraiw, rd, rs1, n))
    ensures var d := Decode(Assemble(Shift(Sraiw, rd, rs1, n)));
            d.Some? && d.value.kind.Sraiw? && !Execute(Sraiw, pc, a, Wrap(d.value.immB), d.value.offset).defined
  {
    hide Decode, Assemble, Execute;
    DecodeAssembled(Shift(Sraiw, rd, rs1, n));
    SraiwNeedsLess(pc, a, 0x400 + n);
  }

  lemma SraiwNeedsLess(pc: nat, a: nat, amount: nat)
    requires 32 <= amount < U32
    ensures !Execute(Sraiw, pc, a, Wrap(amount), 0).defined
  {
    hide Pow2, BitAnd, Taken;
  }
}
