/** Decoding and executing one instruction, with the code's own departures from the architecture manual. */
module Isa {
  import opened Wrappers
  import opened Bits

  const U64 := 0x1_0000_0000_0000_0000
  const SIGN64 := 0x8000_0000_0000_0000
  const SIGN32 := 0x8000_0000

  function Wrap(x: int): (r: nat)
    ensures r < U64
  {
    x % U64
  }

  /** Two's complement reading of a field whose sign bit has weight `half`. */
  function Signed(v: nat, half: nat): int { if v >= half then v - 2 * half else v }

  function Signed64(v: nat): int { Signed(v, SIGN64) }

  function SignExtend32(x: int): nat { Wrap(Signed(x % U32, SIGN32)) }

  datatype Kind =
    | Bubble
    | Auipc | Lui | Jal | Jalr
    | Beq | Bne | Blt | Bge | Bltu | Bgeu
    | Lb | Lh | Lw | Ld | Lbu | Lhu
    | Sb | Sh | Sw | Sd
    | Addi | Slti | Sltiu | Xori | Ori | Andi | Slli | Srli | Srai
    | Add | Sub | Sll | Slt | Sltu | Xor | Srl | Sra | Or | And
    | Addiw | Slliw | Srliw | Sraiw | Addw | Subw | Srlw | Sraw
    | Mul | Mulh | Div | Rem
    | Ecall

  predicate IsBranch(k: Kind) { k.Beq? || k.Bne? || k.Blt? || k.Bge? || k.Bltu? || k.Bgeu? }
  predicate IsJump(k: Kind) { k.Jal? || k.Jalr? }
  predicate IsLoad(k: Kind) { k.Lb? || k.Lh? || k.Lw? || k.Ld? || k.Lbu? || k.Lhu? }
  predicate IsStore(k: Kind) { k.Sb? || k.Sh? || k.Sw? || k.Sd? }

  /** The kinds whose EX case sets `reg_write`; MULH and REM have no case at all. */
  predicate Writes(k: Kind) {
    !IsBranch(k) && !IsStore(k) && !k.Bubble? && !k.Mulh? && !k.Rem? && !k.Ecall?
  }

  // Instruction fields.

  function Opcode(w: nat): nat { w % 0x80 }
  function Rd(w: nat): nat { w / 0x80 % 0x20 }
  function Funct3(w: nat): nat { w / 0x1000 % 8 }
  function Rs1(w: nat): nat { w / 0x8000 % 0x20 }
  function Rs2(w: nat): nat { w / 0x10_0000 % 0x20 }
  function Funct7(w: nat): nat { w / 0x200_0000 % 0x80 }
  function Funct6(w: nat): nat { w / 0x400_0000 % 0x40 }

  function ImmI(w: nat): int { Signed(w / 0x10_0000 % 0x1000, 0x800) }
  function ImmS(w: nat): int { Signed(Rd(w) + 0x20 * Funct7(w), 0x800) }
  function ImmU(w: nat): int { Signed(w / 0x1000 % 0x10_0000, 0x8_0000) }
  function ImmSB(w: nat): int {
    Signed(2 * (w / 0x100 % 0x10) + 0x20 * (w / 0x200_0000 % 0x40) + 0x800 * (w / 0x80 % 2) +
      0x1000 * (w / 0x8000_0000 % 2), 0x1000)
  }
  function ImmUJ(w: nat): int {
    2 * Signed(w / 0x20_0000 % 0x400 + 0x400 * (w / 0x10_0000 % 2) + 0x800 * (w / 0x1000 % 0x100) +
      0x8_0000 * (w / 0x8000_0000 % 2), 0x8_0000)
  }

  const OP_R := 0x33
  const OP_IMM := 0x13
  const OP_LUI := 0x37
  const OP_BRANCH := 0x63
  const OP_STORE := 0x23
  const OP_LOAD := 0x03
  const OP_SYSTEM := 0x73
  const OP_AUIPC := 0x17
  const OP_JAL := 0x6F
  const OP_JALR := 0x67
  const OP_IMM32 := 0x1B
  const OP_32 := 0x3B

  const REG_A0 := 10
  const REG_A7 := 17

  /** What ID extracts: register operands are -1 when the immediate is used instead. */
  datatype Decoded = Decoded(kind: Kind, rs1: int, rs2: int, dest: int, immA: int, immB: int, offset: int)

  function KindR(f3: nat, f7: nat): Option<Kind> {
    match (f3, f7)
    case (0, 0x00) => Some(Add)
    case (0, 0x01) => Some(Mul)
    case (0, 0x20) => Some(Sub)
    case (1, 0x00) => Some(Sll)
    case (1, 0x01) => Some(Mulh)
    case (2, 0x00) => Some(Slt)
    case (4, 0x00) => Some(Xor)
    case (4, 0x01) => Some(Div)
    case (5, 0x00) => Some(Srl)
    case (5, 0x20) => Some(Sra)
    case (6, 0x00) => Some(Or)
    case (6, 0x01) => Some(Rem)
    case (7, 0x00) => Some(And)
    case _ => None
  }

  function KindImm(f3: nat, f6: nat): Option<Kind> {
    match f3
    case 0 => Some(Addi)
    case 1 => Some(Slli)
    case 2 => Some(Slti)
    case 3 => Some(Sltiu)
    case 4 => Some(Xori)
    case 5 => if f6 == 0 then Some(Srli) else if f6 == 0x10 then Some(Srai) else None
    case 6 => Some(Ori)
    case 7 => Some(Andi)
    case _ => None
  }

  function KindBranch(f3: nat): Option<Kind> {
    match f3
    case 0 => Some(Beq)
    case 1 => Some(Bne)
    case 4 => Some(Blt)
    case 5 => Some(Bge)
    case 6 => Some(Bltu)
    case 7 => Some(Bgeu)
    case _ => None
  }

  /** LWU (funct3 6) assigns its kind and then falls into the exit branch. */
  function KindLoad(f3: nat): Option<Kind> {
    match f3
    case 0 => Some(Lb)
    case 1 => Some(Lh)
    case 2 => Some(Lw)
    case 3 => Some(Ld)
    case 4 => Some(Lbu)
    case 5 => Some(Lhu)
    case _ => None
  }

  function KindStore(f3: nat): Option<Kind> {
    match f3
    case 0 => Some(Sb)
    case 1 => Some(Sh)
    case 2 => Some(Sw)
    case 3 => Some(Sd)
    case _ => None
  }

  /** An unmatched funct7 leaves the kind UNKNOWN, which indexes a name table with -1: not modelled further. */
  function KindImm32(f3: nat, f7: nat): Option<Kind> {
    match f3
    case 0 => Some(Addiw)
    case 1 => Some(Slliw)
    case 5 => if f7 == 0 then Some(Srliw) else if f7 == 0x20 then Some(Sraiw) else None
    case _ => None
  }

  /** SLLW (funct3 1) falls through into the right shifts. */
  function Kind32(f3: nat, f7: nat): Option<Kind> {
    match f3
    case 0 => if f7 == 0 then Some(Addw) else if f7 == 0x20 then Some(Subw) else None
    case 1 => if f7 == 0 then Some(Srlw) else if f7 == 0x20 then Some(Sraw) else None
    case 5 => if f7 == 0 then Some(Srlw) else if f7 == 0x20 then Some(Sraw) else None
    case _ => None
  }

  function KindOf(w: nat): Option<Kind> {
    var op, f3, f7 := Opcode(w), Funct3(w), Funct7(w);
    if op == OP_R then KindR(f3, f7)
    else if op == OP_IMM then KindImm(f3, Funct6(w))
    else if op == OP_JAL then Some(Jal)
    else if op == OP_JALR then Some(Jalr)
    else if op == OP_BRANCH then KindBranch(f3)
    else if op == OP_LOAD then KindLoad(f3)
    else if op == OP_STORE then KindStore(f3)
    else if op == OP_LUI then Some(Lui)
    else if op == OP_AUIPC then Some(Auipc)
    else if op == OP_SYSTEM then if f3 == 0 && f7 == 0 then Some(Ecall) else None
    else if op == OP_IMM32 then KindImm32(f3, f7)
    else if op == OP_32 then Kind32(f3, f7)
    else None
  }

  function Operands(w: nat, k: Kind): (d: Decoded)
    ensures d.kind == k
  {
    var rd, rs1, rs2 := Rd(w), Rs1(w), Rs2(w);
    var op := Opcode(w);
    if op == OP_R || op == OP_32 then Decoded(k, rs1, rs2, rd, 0, 0, 0)
    else if op == OP_IMM then
      Decoded(k, rs1, -1, rd, 0, if k.Slli? || k.Srli? || k.Srai? then ImmI(w) % 0x40 else Wrap(ImmI(w)), 0)
    else if op == OP_JAL then Decoded(k, -1, -1, rd, Wrap(ImmUJ(w)), 0, ImmUJ(w))
    else if op == OP_JALR || op == OP_IMM32 then Decoded(k, rs1, -1, rd, 0, Wrap(ImmI(w)), 0)
    else if op == OP_BRANCH then Decoded(k, rs1, rs2, -1, 0, 0, ImmSB(w))
    else if op == OP_LOAD then Decoded(k, rs1, -1, rd, 0, Wrap(ImmI(w)), ImmI(w))
    else if op == OP_STORE then Decoded(k, rs1, rs2, -1, 0, 0, ImmS(w))
    else if op == OP_SYSTEM then Decoded(k, REG_A0, REG_A7, -1, 0, 0, 0)
    else Decoded(k, -1, -1, rd, Wrap(ImmU(w)), 0, ImmU(w))
  }

  predicate RegOrNone(r: int) { -1 <= r < 32 }

  predicate WellDecoded(w: nat, d: Decoded) {
    !d.kind.Bubble? && RegOrNone(d.rs1) && RegOrNone(d.rs2) && RegOrNone(d.dest) &&
    (IsBranch(d.kind) <==> Opcode(w) == OP_BRANCH) &&
    (IsJump(d.kind) <==> Opcode(w) == OP_JAL || Opcode(w) == OP_JALR) &&
    (d.kind.Jal? ==> d.rs1 == -1) && (IsJump(d.kind) ==> d.rs2 == -1) &&
    (IsBranch(d.kind) ==> d.offset == ImmSB(w)) &&
    (Writes(d.kind) ==> d.dest >= 0)
  }

  /** The ID switch; `None` is the process exit on an encoding it does not know. */
  function Decode(w: nat): (r: Option<Decoded>)
    ensures r.Some? ==> WellDecoded(w, r.value)
  {
    match KindOf(w)
    case None => None
    case Some(k) => Some(Operands(w, k))
  }

  // Execution.

  function BitOr(x: nat, y: nat): int { x + y - BitAnd(x, y) }
  function BitXor(x: nat, y: nat): int { x + y - 2 * BitAnd(x, y) }

  /** C++ division truncates toward zero. */
  function TruncDiv(x: int, y: int): int
    requires y != 0
  {
    if x >= 0 then if y > 0 then x / y else -(x / -y)
    else if y > 0 then -(-x / y) else -x / -y
  }

  /** The value of a register-writing kind that does not access memory or jump; `None` where C++ leaves it undefined. */
  function Compute(k: Kind, pc: nat, a: nat, b: nat, offset: int): Option<int> {
    match k
    case Lui => Some(Wrap(offset * 0x1000))
    case Auipc => Some(Wrap(pc + offset * 0x1000))
    case Addi => Some(Wrap(a + b))
    case Add => Some(Wrap(a + b))
    case Addiw => Some(SignExtend32(a + b))
    case Addw => Some(SignExtend32(a + b))
    case Sub => Some(Wrap(a - b))
    case Subw => Some(SignExtend32(a - b))
    case Mul => Some(Wrap(a * b))
    case Div =>
      if Signed64(b) == 0 || (Signed64(a) == -SIGN64 && Signed64(b) == -1) then None
      else Some(Wrap(TruncDiv(Signed64(a), Signed64(b))))
    case Slti => Some(if Signed64(a) < Signed64(b) then 1 else 0)
    case Slt => Some(if Signed64(a) < Signed64(b) then 1 else 0)
    case Sltiu => Some(if a < b then 1 else 0)
    case Sltu => Some(if a < b then 1 else 0)
    case Xori => Some(BitXor(a, b))
    case Xor => Some(BitXor(a, b))
    case Ori => Some(BitOr(a, b))
    case Or => Some(BitOr(a, b))
    case Andi => Some(BitAnd(a, b))
    case And => Some(BitAnd(a, b))
    case Slli => if b < 64 then Some(Wrap(a * Pow2(b))) else None
    case Sll => if b < 64 then Some(Wrap(a * Pow2(b))) else None
    case Slliw => if b < 64 then Some(SignExtend32(a * Pow2(b))) else None
    case Srli => if b < 64 then Some(a / Pow2(b)) else None
    case Srl => if b < 64 then Some(a / Pow2(b)) else None
    case Srai => if b < 64 then Some(Wrap(Signed64(a) / Pow2(b))) else None
    case Sra => if b < 64 then Some(Wrap(Signed64(a) / Pow2(b))) else None
    case Srliw => if b % U32 < 32 then Some(a % U32 / Pow2(b % U32)) else None
    case Srlw => if b % U32 < 32 then Some(a % U32 / Pow2(b % U32)) else None
    case Sraiw => if b % U32 < 32 then Some(Wrap(Signed(a % U32, SIGN32) / Pow2(b % U32))) else None
    case Sraw => if b % U32 < 32 then Some(Wrap(Signed(a % U32, SIGN32) / Pow2(b % U32))) else None
    case _ => Some(0)
  }

  predicate Taken(k: Kind, a: nat, b: nat) {
    match k
    case Beq => a == b
    case Bne => a != b
    case Blt => Signed64(a) < Signed64(b)
    case Bge => Signed64(a) >= Signed64(b)
    case Bltu => a < b
    case Bgeu => a >= b
    case _ => false
  }

  function MemLen(k: Kind): nat {
    if k.Lb? || k.Lbu? || k.Sb? then 1
    else if k.Lh? || k.Lhu? || k.Sh? then 2
    else if k.Lw? || k.Sw? then 4
    else if k.Ld? || k.Sd? then 8 else 0
  }

  /** What EX produces for MEM, WB and the next fetch. */
  datatype Result = Result(valE: int, target: nat, defined: bool)

  /** The EX switch, without the memory access itself. */
  function Execute(k: Kind, pc: nat, a: nat, b: nat, offset: int): Result {
    if k.Jal? then Result(Wrap(pc + 4), Wrap(pc + a), true)
    else if k.Jalr? then Result(Wrap(pc + 4), Wrap(a + b) - Wrap(a + b) % 2, true)
    else if IsBranch(k) then Result(if Taken(k, a, b) then Wrap(pc + offset) else 0, 0, true)
    else if IsLoad(k) || IsStore(k) then Result(Wrap(a + offset), 0, true)
    else
      match Compute(k, pc, a, b, offset)
      case Some(v) => Result(v, 0, true)
      case None => Result(0, 0, false)
  }

  // Bytes and words.

  function FromBytes(bytes: seq<byte>): nat {
    if bytes == [] then 0 else bytes[0] + 256 * FromBytes(bytes[1..])
  }

  /** The n low bytes of a value, least significant first. */
  function ToBytes(v: nat, n: nat): (r: seq<byte>)
    ensures |r| == n
  {
    if n == 0 then [] else [v % 256] + ToBytes(v / 256, n - 1)
  }
}
