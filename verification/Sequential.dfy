/** The reference: a machine that runs one instruction at a time over a flat memory. */
module Sequential {
  import opened Wrappers
  import opened Bits
  import opened Hierarchy
  import opened Coherence
  import opened Isa
  import opened Pipeline

  /**
   * `ok` turns false for good when a step exits or does something undefined; `lastLoad` is the
   * destination of the step just before, when that was a load into a register other than x0.
   */
  datatype Arch = Arch(
    pc: nat, reg: seq<int>, mem: map<nat, byte>, log: seq<Retired>, out: seq<Output>, ok: bool, lastLoad: int)

  function ReadBytes(mem: map<nat, byte>, addr: nat, n: nat): (r: seq<byte>)
    ensures |r| == n
  {
    seq(n, k requires 0 <= k < n => if addr + k in mem then mem[addr + k] else 0)
  }

  function Word(mem: map<nat, byte>, pc: nat): nat { FromBytes(ReadBytes(mem, pc % U32, 4)) }

  predicate Fetchable(mem: map<nat, byte>, pc: nat) { pc % 4 == 0 && Covers(mem, pc % U32, 4) }

  function RegValue(reg: seq<int>, r: int, imm: int): int { if 0 <= r < |reg| then reg[r] else imm }

  function TextAt(mem: map<nat, byte>, addr: nat, fuel: nat := U32): Option<seq<byte>>
    decreases fuel
  {
    var a := addr % U32;
    if fuel == 0 || a !in mem then None
    else if mem[a] == 0 then Some([])
    else
      match TextAt(mem, addr + 1, fuel - 1)
      case None => None
      case Some(rest) => Some([mem[a]] + rest)
  }

  /** The printing system calls; `None` is the exit of call 93, of an unknown call, or of a bad string. */
  function SystemCall(mem: map<nat, byte>, arg: int, number: int): Option<Output> {
    if number == 0 then
      match TextAt(mem, Wrap(arg))
      case None => None
      case Some(chars) => Some(Text(chars))
    else if number == 1 then Some(Char(arg % 0x100))
    else if number == 2 then Some(Number(Signed(arg % U32, SIGN32)))
    else None
  }

  /** The word 0 is the bubble encoding: the fetch moves on and nothing is retired. */
  function SkipWord(a: Arch, fetched: bool): Arch {
    a.(pc := Wrap(a.pc + 4), ok := a.ok && fetched, lastLoad := 0)
  }

  /** A JALR whose base register is the destination of the load just before it. */
  predicate LostJump(i: Decoded, lastLoad: int) { i.kind.Jalr? && lastLoad != 0 && i.rs1 == lastLoad }

  function NextPC(i: Decoded, pc: nat, r: Result, taken: bool): nat {
    if IsJump(i.kind) then Wrap(r.target) else if taken then Wrap(pc + i.offset) else Wrap(pc + 4)
  }

  function ValA(a: Arch, i: Decoded): int { RegValue(a.reg, i.rs1, i.immA) }
  function ValB(a: Arch, i: Decoded): int { RegValue(a.reg, i.rs2, i.immB) }
  function ResultAt(a: Arch, i: Decoded): Result { Execute(i.kind, a.pc, Wrap(ValA(a, i)), Wrap(ValB(a, i)), i.offset) }
  predicate TakenAt(a: Arch, i: Decoded) { IsBranch(i.kind) && Taken(i.kind, Wrap(ValA(a, i)), Wrap(ValB(a, i))) }
  function AddrAt(a: Arch, i: Decoded): nat { Wrap(ResultAt(a, i).valE) % U32 }

  /** The value the instruction writes to its destination. */
  function ValueAt(a: Arch, i: Decoded): int {
    if IsLoad(i.kind) then FromBytes(ReadBytes(a.mem, AddrAt(a, i), MemLen(i.kind))) else ResultAt(a, i).valE
  }

  function StoreAt(a: Arch, i: Decoded): seq<byte> {
    if IsStore(i.kind) then ToBytes(Wrap(ValB(a, i)), MemLen(i.kind)) else []
  }

  predicate AccessAllocated(a: Arch, i: Decoded) {
    IsLoad(i.kind) || IsStore(i.kind) ==> Covers(a.mem, AddrAt(a, i), MemLen(i.kind))
  }

  function CallAt(a: Arch, i: Decoded): Option<Output> {
    if i.kind.Ecall? then SystemCall(a.mem, ValA(a, i), ValB(a, i)) else None
  }

  predicate ExecutesFine(a: Arch, i: Decoded) { ResultAt(a, i).defined && (i.kind.Ecall? ==> CallAt(a, i).Some?) }

  function NextReg(a: Arch, i: Decoded): seq<int> {
    if Writes(i.kind) && 0 < i.dest < |a.reg| then a.reg[i.dest := ValueAt(a, i)] else a.reg
  }

  function NextMem(a: Arch, i: Decoded): map<nat, byte> {
    if IsStore(i.kind) then After(a.mem, AddrAt(a, i), Write(StoreAt(a, i))) else a.mem
  }

  function Perform(a: Arch, i: Decoded, fetched: bool): Arch {
    Arch(NextPC(i, a.pc, ResultAt(a, i), TakenAt(a, i)), NextReg(a, i), NextMem(a, i),
         a.log + [Retired(a.pc, i.kind, i.dest, Writes(i.kind), ValueAt(a, i), StoreAt(a, i))],
         if CallAt(a, i).Some? then a.out + [CallAt(a, i).value] else a.out,
         a.ok && fetched && ExecutesFine(a, i) && AccessAllocated(a, i),
         if IsLoad(i.kind) && i.dest != 0 then i.dest else 0)
  }

  /**
   * One fetched word. With `lossy`, a JALR that reads the load just before it is skipped like a
   * bubble: that is what the pipeline's hazard rules do to it.
   */
  function Slot(a: Arch, lossy: bool): Arch {
    var w, fetched := Word(a.mem, a.pc), Fetchable(a.mem, a.pc);
    if w == 0 then SkipWord(a, fetched)
    else
      match Decode(w)
      case None => SkipWord(a, false)
      case Some(i) => if lossy && LostJump(i, a.lastLoad) then SkipWord(a, fetched) else Perform(a, i, fetched)
  }

  function Slots(a: Arch, lossy: bool, n: nat): Arch {
    if n == 0 then a else Slot(Slots(a, lossy, n - 1), lossy)
  }

  // What steps keep.

  lemma StepEffects(a: Arch, lossy: bool)
    ensures var b := Slot(a, lossy);
            && a.log <= b.log && a.out <= b.out && (b.ok ==> a.ok)
            && (b.log == a.log ==> b.mem == a.mem && b.reg == a.reg && b.out == a.out)
  {
    hide Decode, Word, NextReg, NextMem, NextPC, CallAt, ValueAt, StoreAt, ExecutesFine, AccessAllocated, Fetchable;
  }

  lemma {:induction false} PathEffects(a: Arch, lossy: bool, i: nat, j: nat)
    requires i <= j
    ensures var x, y := Slots(a, lossy, i), Slots(a, lossy, j);
            && x.log <= y.log && x.out <= y.out && (y.ok ==> x.ok)
            && (y.log == x.log ==> y.mem == x.mem && y.reg == x.reg && y.out == x.out)
    decreases j
  {
    hide Slot;
    if i < j {
      PathEffects(a, lossy, i, j - 1);
      StepEffects(Slots(a, lossy, j - 1), lossy);
    }
  }

  /** Registers with the value of the last retired instruction in its destination. */
  function WrittenBack(reg: seq<int>, log: seq<Retired>): seq<int> {
    if log == [] then reg
    else
      var last := log[|log| - 1];
      if last.regWrite && 0 < last.destReg < |reg| then reg[last.destReg := last.value] else reg
  }

  /** On the reference it is there already. */
  lemma {:induction false} LastIsWritten(a: Arch, lossy: bool, k: nat)
    requires a.log == []
    ensures var b := Slots(a, lossy, k); WrittenBack(b.reg, b.log) == b.reg
  {
    hide Slot, WrittenBack;
    if k > 0 {
      LastIsWritten(a, lossy, k - 1);
      StepWrites(Slots(a, lossy, k - 1), lossy);
    } else {
      StartWrites(a);
    }
  }

  lemma StartWrites(a: Arch)
    requires a.log == []
    ensures WrittenBack(a.reg, a.log) == a.reg
  {
  }

  /** A step's registers are those before it, with what it retires written back. */
  lemma StepWrites(a: Arch, lossy: bool)
    requires WrittenBack(a.reg, a.log) == a.reg
    ensures var b := Slot(a, lossy); WrittenBack(b.reg, b.log) == b.reg && WrittenBack(a.reg, b.log) == b.reg
  {
    hide Decode, Word, NextMem, NextPC, CallAt, ValueAt, StoreAt, ExecutesFine, AccessAllocated, Fetchable;
  }
}
