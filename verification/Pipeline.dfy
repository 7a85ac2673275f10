/** One clock cycle of the five-stage pipeline, as a function of the state between two cycles. */
module Pipeline {
  import opened Wrappers
  import opened Bits
  import opened Address
  import opened Hierarchy
  import opened Isa

  datatype Strategy = AlwaysTaken | NeverTaken | BackwardTaken

  datatype FRegion = FRegion(predPC: nat)

  datatype DRegion = DRegion(pc: nat, inst: nat, pcNotTaken: nat, takeBranch: bool)

  datatype ERegion = ERegion(
    pc: nat, rs1: int, rs2: int, destReg: int, inst: Kind, pcNotTaken: nat,
    valA: int, valB: int, offset: int, takeBranch: bool)

  datatype MRegion = MRegion(
    pc: nat, inst: Kind, valA: int, valB: int, valE: int, calcPC: int, destReg: int,
    regWrite: bool, memWrite: bool, memRead: bool, memLen: nat, wrong: bool, branch: bool)

  datatype WRegion = WRegion(pc: nat, inst: Kind, valA: int, valB: int, valM: int, destReg: int, regWrite: bool)

  /** A value on its way to a register, as the later stages offer it to ID. */
  datatype Forward = Forward(write: bool, destReg: int, value: int)

  /** One instruction leaving MEM: everything the program can observe of it. */
  datatype Retired = Retired(pc: nat, inst: Kind, destReg: int, regWrite: bool, value: int, store: seq<byte>)

  datatype Output = Text(chars: seq<byte>) | Char(code: nat) | Number(value: int)

  datatype Status = Running | StoppedInMEM | StoppedInEX | StoppedInID | StoppedInIF

  datatype Perf = Perf(
    cycles: nat, insts: nat, correct: nat, mispredict: nat, jumps: nat, control: nat, loadUse: nat,
    cacheAccesses: nat, cacheHits: nat, cacheCycles: nat)

  datatype Machine = Machine(
    reg: seq<int>, f: FRegion, d: DRegion, e: ERegion, m: MRegion, w: WRegion,
    storage: Storage, log: seq<Retired>, out: seq<Output>, perf: Perf, status: Status)

  const ZERO_D := DRegion(0, 0, 0, false)
  const ZERO_E := ERegion(0, 0, 0, 0, Bubble, 0, 0, 0, 0, false)
  const ZERO_M := MRegion(0, Bubble, 0, 0, 0, 0, 0, false, false, false, 0, false, false)
  const ZERO_W := WRegion(0, Bubble, 0, 0, 0, 0, false)

  // Access to the first-level cache.

  /** An access the program can complete: inside one block, at an allocated address. */
  datatype Touched = Stuck | Got(storage: Storage, data: seq<byte>, perf: Perf)

  function Touch(storage: Storage, addr: nat, op: Op, perf: Perf): (r: Touched)
    requires Shaped(storage)
    ensures r.Got? ==> Shaped(r.storage) && SameChain(storage, r.storage) && (op.Read? ==> |r.data| == op.count)
  {
    if !Within(storage, addr % U32, op.Size()) then Stuck
    else
      match Request(storage, addr % U32, op)
      case Fault => Stuck
      case Done(st, data, hit, time) =>
        Got(st, data, perf.(cacheAccesses := perf.cacheAccesses + 1,
                            cacheHits := perf.cacheHits + if hit then 1 else 0,
                            cacheCycles := perf.cacheCycles + time))
  }

  /** Leaving the block's buffer, or the address space, is undefined behaviour: the model stops there. */
  predicate Within(storage: Storage, addr: nat, count: nat)
    requires Shaped(storage) && IsAddress(addr)
  {
    match storage
    case Memory(_, _, _) => addr + count <= U32
    case Cache(l, _) => Offset(l.cfg.geo, addr) + count <= l.cfg.geo.BlockSize()
  }

  // WB.

  function WriteBackStage(w: WRegion, reg: seq<int>): (r: seq<int>)
    ensures |r| == |reg|
  {
    if w.inst.Bubble? then reg
    else if w.regWrite && 0 < w.destReg < |reg| then reg[w.destReg := w.valM] else reg
  }

  // MEM.

  datatype MemOut = MemOut(w: WRegion, fwd: Forward, storage: Storage, log: seq<Retired>, perf: Perf) | MemStop

  function MemStage(m: MRegion, storage: Storage, log: seq<Retired>, perf: Perf): (r: MemOut)
    requires Shaped(storage)
    ensures r.MemOut? ==> Shaped(r.storage) && SameChain(storage, r.storage)
  {
    if m.inst.Bubble? then MemOut(ZERO_W, Forward(false, m.destReg, 0), storage, log, perf)
    else
      var op := if m.memRead then Read(m.memLen) else Write(ToBytes(Wrap(m.valB), m.memLen));
      if m.memRead || m.memWrite then
        match Touch(storage, Wrap(m.valE), op, perf)
        case Stuck => MemStop
        case Got(st, data, p) => Leave(m, if m.memRead then FromBytes(data) else m.valE, st, log, p)
      else Leave(m, m.valE, storage, log, perf)
  }

  function Stored(m: MRegion): seq<byte> {
    if m.memWrite then ToBytes(Wrap(m.valB), m.memLen) else []
  }

  function Leave(m: MRegion, valM: int, storage: Storage, log: seq<Retired>, perf: Perf): (r: MemOut) {
    MemOut(WRegion(m.pc, m.inst, m.valA, m.valB, valM, m.destReg, m.regWrite), Forward(m.regWrite, m.destReg, valM),
           storage, log + [Retired(m.pc, m.inst, m.destReg, m.regWrite, valM, Stored(m))],
           perf.(insts := perf.insts + 1))
  }

  // EX.

  function ExResult(e: ERegion): Result { Execute(e.inst, e.pc, Wrap(e.valA), Wrap(e.valB), e.offset) }

  function BranchTaken(e: ERegion): bool { IsBranch(e.inst) && Taken(e.inst, Wrap(e.valA), Wrap(e.valB)) }

  predicate Mispredicted(e: ERegion) { IsBranch(e.inst) && e.takeBranch != BranchTaken(e) }

  /** A store keeps only the bytes it writes. */
  function StoreValue(e: ERegion): int {
    if e.inst.Sb? then e.valB % 0x100 else if e.inst.Sh? then e.valB % 0x1_0000
      else if e.inst.Sw? then e.valB % U32 else e.valB
  }

  function ExStage(e: ERegion): MRegion {
    if e.inst.Bubble? then ZERO_M
    else
      var r := ExResult(e);
      MRegion(e.pc, e.inst, e.valA, StoreValue(e), r.valE,
              if Mispredicted(e) then e.pcNotTaken else if IsJump(e.inst) then r.target else -1,
              e.destReg, Writes(e.inst), IsStore(e.inst), IsLoad(e.inst), MemLen(e.inst), Mispredicted(e),
                BranchTaken(e))
  }

  function ExForward(e: ERegion): Forward {
    if e.inst.Bubble? then Forward(false, e.destReg, 0)
    else Forward(Writes(e.inst), e.destReg, ExResult(e).valE)
  }

  // System calls, executed in EX.

  datatype SysOut = SysOut(storage: Storage, out: seq<Output>, perf: Perf) | SysStop

  datatype TextOut = TextOut(chars: seq<byte>, storage: Storage, perf: Perf) | TextStop

  /**
   * Prints characters up to a zero byte, one cache access each. After 2^32 non-zero characters the
   * 32-bit address has wrapped to the start, so the source would never leave this loop.
   */
  function PrintText(storage: Storage, addr: nat, perf: Perf, fuel: nat := U32): (r: TextOut)
    requires Shaped(storage)
    ensures r.TextOut? ==> Shaped(r.storage) && SameChain(storage, r.storage)
    decreases fuel
  {
    if fuel == 0 then TextStop
    else
      match Touch(storage, addr, Read(1), perf)
      case Stuck => TextStop
      case Got(st, data, p) =>
        if data[0] == 0 then TextOut([], st, p)
        else
          match PrintText(st, addr + 1, p, fuel - 1)
          case TextStop => TextStop
          case TextOut(chars, st', p') => TextOut([data[0]] + chars, st', p')
  }

  function Syscall(e: ERegion, storage: Storage, out: seq<Output>, perf: Perf): (r: SysOut)
    requires Shaped(storage)
    ensures r.SysOut? ==> Shaped(r.storage) && SameChain(storage, r.storage)
  {
    if !e.inst.Ecall? then SysOut(storage, out, perf)
    else if e.valB == 0 then
      match PrintText(storage, Wrap(e.valA), perf)
      case TextStop => SysStop
      case TextOut(chars, st, p) => SysOut(st, out + [Text(chars)], p)
    else if e.valB == 1 then SysOut(storage, out + [Char(e.valA % 0x100)], perf)
    else if e.valB == 2 then SysOut(storage, out + [Number(Signed(e.valA % U32, SIGN32))], perf)
    else SysStop
  }

  // ID.

  /** Register operands with MEM forwarding under EX forwarding. */
  function OperandOf(r: int, imm: int, reg: seq<int>, mem: Forward, ex: Forward): int {
    if ex.write && ex.destReg != 0 && r == ex.destReg then ex.value
    else if mem.write && mem.destReg != 0 && r == mem.destReg then mem.value
    else if 0 <= r < |reg| then reg[r] else imm
  }

  function Issue(d: DRegion, i: Decoded, valA: int, valB: int): ERegion {
    ERegion(d.pc, i.rs1, i.rs2, i.dest, i.kind, d.pcNotTaken, valA, valB, i.offset, d.takeBranch)
  }

  /** What ID latches for EX, together with `d_reg1` and `d_reg2`; `None` is the exit on an unknown encoding. */
  function IdStage(d: DRegion, reg: seq<int>, mem: Forward, ex: Forward): Option<ERegion> {
    if d.inst == 0 then Some(ZERO_E.(rs1 := -1, rs2 := -1))
    else
      match Decode(d.inst)
      case None => None
      case Some(i) => Some(Issue(d, i, OperandOf(i.rs1, i.immA, reg, mem, ex), OperandOf(i.rs2, i.immB, reg, mem, ex)))
  }

  // IF.

  function TakeBranch(w: nat, strat: Strategy): bool {
    Opcode(w) == OP_BRANCH &&
    match strat
    case NeverTaken => false
    case AlwaysTaken => true
    case BackwardTaken => ImmSB(w) < 0
  }

  function PredictedPC(pc: nat, w: nat, strat: Strategy): nat {
    if TakeBranch(w, strat) then Wrap(pc + ImmSB(w)) else Wrap(pc + 4)
  }

  function OtherPC(pc: nat, w: nat, strat: Strategy): nat {
    if Opcode(w) == OP_BRANCH && !TakeBranch(w, strat) then Wrap(pc + ImmSB(w)) else Wrap(pc + 4)
  }

  /** A jump in EX redirects the fetch, and a misprediction latched into MEM overrides it. */
  function FetchPC(f: FRegion, e: ERegion, m: MRegion): nat {
    if m.wrong then Wrap(m.calcPC) else if IsJump(e.inst) then Wrap(ExResult(e).target) else f.predPC
  }

  datatype FetchOut = FetchOut(f: FRegion, d: DRegion, storage: Storage, perf: Perf) | FetchStop

  function IfStage(pc: nat, storage: Storage, perf: Perf, strat: Strategy): (r: FetchOut)
    requires Shaped(storage)
    ensures r.FetchOut? ==> Shaped(r.storage) && SameChain(storage, r.storage)
  {
    match Touch(storage, pc, Read(4), perf)
    case Stuck => FetchStop
    case Got(st, data, p) =>
      if pc % 4 != 0 then FetchStop
      else
        var w := FromBytes(data);
        FetchOut(FRegion(PredictedPC(pc, w, strat)), DRegion(pc, w, OtherPC(pc, w, strat), TakeBranch(w, strat)), st, p)
  }

  // Hazards and the clock edge.

  predicate JumpInID(d: DRegion) { Opcode(d.inst) == OP_JAL || Opcode(d.inst) == OP_JALR }

  predicate LoadUse(e: ERegion, rs1: int, rs2: int) {
    e.destReg != 0 && IsLoad(e.inst) && (rs1 == e.destReg || rs2 == e.destReg)
  }

  function Count(b: bool): nat { if b then 1 else 0 }

  function CountHazards(perf: Perf, e: ERegion, jump: bool, loadUse: bool): Perf {
    perf.(jumps := perf.jumps + Count(jump),
          mispredict := perf.mispredict + Count(Mispredicted(e)),
          correct := perf.correct + Count(IsBranch(e.inst) && !Mispredicted(e)),
          control := perf.control + Count(jump) + Count(Mispredicted(e)),
          loadUse := perf.loadUse + Count(loadUse))
  }

  /** What the clock edge leaves in F, D and E: a bubble wins over a stall, and a stall over the update. */
  function EdgeF(s: Machine, upd: FRegion, loadUse: bool): FRegion {
    if JumpInID(s.d) || Mispredicted(s.e) || loadUse then s.f else upd
  }

  function EdgeD(s: Machine, upd: DRegion, loadUse: bool): DRegion {
    if JumpInID(s.d) || Mispredicted(s.e) then s.d.(inst := 0) else if loadUse then s.d else upd
  }

  function EdgeE(s: Machine, upd: ERegion, loadUse: bool): ERegion {
    if Mispredicted(s.e) || loadUse then s.e.(inst := Bubble) else upd
  }

  /** ID clears its whole latch for a bubble, so the markers -1 stay out of it. */
  function Latched(e: ERegion): ERegion { if e.inst.Bubble? then ZERO_E else e }

  // The cycle.

  predicate Wellformed(s: Machine) { |s.reg| == 32 && Shaped(s.storage) }

  function Cycle(s: Machine, strat: Strategy): (r: Machine)
    requires Wellformed(s)
    ensures Wellformed(r) && SameChain(s.storage, r.storage)
  {
    if !s.status.Running? then s
    else
      var perf := s.perf.(cycles := s.perf.cycles + 1);
      var reg := WriteBackStage(s.w, s.reg);
      match MemStage(s.m, s.storage, s.log, perf)
      case MemStop => s.(reg := reg, perf := perf, status := StoppedInMEM)
      case MemOut(w, mem, st1, log, p1) => AfterMem(s, reg, w, mem, st1, log, p1, strat)
  }

  /** EX, ID, IF and the clock edge, once MEM has run. */
  function AfterMem(s: Machine, reg: seq<int>, w: WRegion, mem: Forward, st1: Storage, log: seq<Retired>, p1: Perf,
                    strat: Strategy): (r: Machine)
    requires Wellformed(s) && |reg| == 32 && Shaped(st1)
    ensures Wellformed(r) && SameChain(st1, r.storage)
  {
    var stopped := s.(reg := reg, storage := st1, log := log, perf := p1);
    if !s.e.inst.Bubble? && !ExResult(s.e).defined then stopped.(status := StoppedInEX)
    else
      match Syscall(s.e, st1, s.out, p1)
      case SysStop => stopped.(status := StoppedInEX)
      case SysOut(st2, out, p2) =>
        var m := ExStage(s.e);
        match IdStage(s.d, reg, mem, ExForward(s.e))
        case None => stopped.(storage := st2, out := out, perf := p2, status := StoppedInID)
        case Some(e) =>
          match IfStage(FetchPC(s.f, s.e, s.m), st2, p2, strat)
          case FetchStop => stopped.(storage := st2, out := out, perf := p2, status := StoppedInIF)
          case FetchOut(f, d, st3, p3) =>
            var loadUse := LoadUse(s.e, e.rs1, e.rs2);
            Machine(reg[0 := 0], EdgeF(s, f, loadUse), EdgeD(s, d, loadUse), EdgeE(s, Latched(e), loadUse), m, w,
                    st3, log, out, CountHazards(p3, s.e, JumpInID(s.d), loadUse), Running)
  }

  function Run(s: Machine, strat: Strategy, n: nat): (r: Machine)
    requires Wellformed(s)
    ensures Wellformed(r) && SameChain(s.storage, r.storage)
  {
    if n == 0 then s else Cycle(Run(s, strat, n - 1), strat)
  }

  /** The state `main` starts the clock in: empty latches, the entry point in F. */
  predicate Initial(s: Machine) {
    Wellformed(s) && s.f.predPC < U64 && s.reg[0] == 0 && s.d == ZERO_D && s.e == ZERO_E && s.m == ZERO_M &&
      s.w == ZERO_W &&
    s.log == [] && s.out == [] && s.status.Running?
  }
}
