/** The invariant that ties the latches of the pipeline to states of the reference machine, stage by stage. */
module Refinement {
  import opened Wrappers
  import opened Bits
  import opened Hierarchy
  import opened Coherence
  import opened Transparency
  import opened Isa
  import opened Pipeline
  import opened Sequential
  import opened Accounting

  /** The reference states just before the occupants of W, M, E and D, and the state to fetch for next. */
  datatype Trail = Trail(w: Arch, m: Arch, e: Arch, d: Arch, f: Arch)

  predicate Skips(a: Arch) {
    var w := Word(a.mem, a.pc);
    Fetchable(a.mem, a.pc) &&
    (w == 0 || (Decode(w).Some? && LostJump(Decode(w).value, a.lastLoad)))
  }

  /** The reference performs an instruction here. */
  predicate Performs(a: Arch) {
    var w := Word(a.mem, a.pc);
    Fetchable(a.mem, a.pc) && w != 0 && Decode(w).Some? && !LostJump(Decode(w).value, a.lastLoad)
  }

  function InstAt(a: Arch): Decoded
    requires Performs(a)
  {
    Decode(Word(a.mem, a.pc)).value
  }

  function Step(a: Arch): Arch { Slot(a, true) }

  /** A bubble stands for nothing, or for one skipped word. */
  predicate Gap(a: Arch, a': Arch) { a' == a || (Skips(a) && a' == Step(a)) }

  function DOf(a: Arch, strat: Strategy): DRegion {
    var w := Word(a.mem, a.pc);
    DRegion(a.pc, w, OtherPC(a.pc, w, strat), TakeBranch(w, strat))
  }

  function EOf(a: Arch, strat: Strategy): ERegion
    requires Performs(a)
  {
    Issue(DOf(a, strat), InstAt(a), ValA(a, InstAt(a)), ValB(a, InstAt(a)))
  }

  function WOf(a: Arch, w: WRegion): WRegion
    requires Performs(a)
  {
    w.(pc := a.pc, inst := InstAt(a).kind, valM := ValueAt(a, InstAt(a)), destReg := InstAt(a).dest,
       regWrite := Writes(InstAt(a).kind))
  }

  predicate StageW(w: WRegion, a: Arch, a': Arch) {
    if w.inst.Bubble? then Gap(a, a') else Performs(a) && a' == Step(a) && w == WOf(a, w)
  }

  predicate StageM(m: MRegion, a: Arch, a': Arch, strat: Strategy) {
    if m.inst.Bubble? then Gap(a, a') && !m.wrong
    else Performs(a) && a' == Step(a) && m == ExStage(EOf(a, strat)) && ExecutesFine(a, InstAt(a))
  }

  predicate StageE(e: ERegion, a: Arch, a': Arch, strat: Strategy) {
    if e.inst.Bubble? then Gap(a, a') else Performs(a) && a' == Step(a) && e == EOf(a, strat)
  }

  /** D and F, when nothing is about to redirect the fetch. */
  predicate StageD(s: Machine, a: Arch, a': Arch, strat: Strategy) {
    if s.d.inst == 0 then Gap(a, a') && s.f.predPC == a'.pc && a'.lastLoad == 0
    else
      s.d == DOf(a, strat) && Fetchable(a.mem, a.pc) && a' == Step(a) &&
      s.f.predPC == PredictedPC(a.pc, s.d.inst, strat) &&
      (Decode(s.d.inst).Some? && LostJump(Decode(s.d.inst).value, a.lastLoad) ==> !s.e.inst.Bubble?)
  }

  /** A wrong-path D holds anything; after a redirect D is empty and the fetch goes to the right place. */
  predicate StageDF(s: Machine, t: Trail, strat: Strategy) {
    if Mispredicted(s.e) then !s.m.wrong
    else if s.m.wrong then
      s.e.inst.Bubble? && t.d == t.e && Wrap(s.m.calcPC) == t.f.pc && s.d.inst == 0 && t.f == t.d && t.f.lastLoad == 0
    else if IsJump(s.e.inst) then s.d.inst == 0 && t.f == t.d && t.f.lastLoad == 0
    else StageD(s, t.d, t.f, strat)
  }

  ghost predicate Inv(s: Machine, t: Trail, strat: Strategy) {
    Wellformed(s) && s.reg == t.w.reg && s.reg[0] == 0 &&
    Sound(s.storage) && View(s.storage) == t.m.mem && s.log == t.m.log && s.out == t.e.out && t.m.ok &&
    StageW(s.w, t.w, t.m) && StageM(s.m, t.m, t.e, strat) && StageE(s.e, t.e, t.d, strat) && StageDF(s, t, strat)
  }

  // Skips and steps of the reference.

  lemma SkipIsQuiet(a: Arch, a': Arch)
    requires Gap(a, a')
    ensures a'.reg == a.reg && a'.mem == a.mem && a'.log == a.log && a'.out == a.out
    ensures a.ok ==> a'.ok
  {
  }

  lemma StepPerforms(a: Arch)
    requires Performs(a)
    ensures Step(a) == Perform(a, InstAt(a), true)
  {
    hide Perform, Decode;
  }

  // WB.

  lemma WriteBackRefines(w: WRegion, a: Arch, a': Arch)
    requires StageW(w, a, a')
    ensures WriteBackStage(w, a.reg) == a'.reg
  {
    hide Decode, Execute, FromBytes, ToBytes, ReadBytes, After;
    if w.inst.Bubble? {
      SkipIsQuiet(a, a');
    } else {
      StepPerforms(a);
    }
  }

  // MEM.

  lemma ReadBytesIsSlice(mem: map<nat, byte>, addr: nat, n: nat)
    requires Covers(mem, addr, n)
    ensures ReadBytes(mem, addr, n) == Slice(mem, addr, n)
  {
    forall k | 0 <= k < n ensures ReadBytes(mem, addr, n)[k] == Slice(mem, addr, n)[k] {
      assert addr + k in mem;
    }
  }

  /** An access through the caches is an access to the flat memory they stand for. */
  lemma TouchRefines(storage: Storage, addr: nat, op: Op, perf: Perf)
    requires Sound(storage) && op.Size() > 0 && Touch(storage, addr, op, perf).Got?
    ensures var r := Touch(storage, addr, op, perf);
            Sound(r.storage) && View(r.storage) == After(View(storage), addr % U32, op) &&
            Covers(View(storage), addr % U32, op.Size()) &&
            (op.Read? ==> r.data == ReadBytes(View(storage), addr % U32, op.count))
  {
    hide Request, View, Sound, After;
    SoundIsShaped(storage);
    RequestServes(storage, addr % U32, op);
    if op.Read? {
      ReadBytesIsSlice(View(storage), addr % U32, op.count);
    }
  }

  lemma SoundIsShaped(storage: Storage)
    requires Sound(storage)
    ensures Shaped(storage) && Placed(storage)
  {
  }

  lemma {:induction false} ToBytesLowPart(v: nat, n: nat, high: nat)
    ensures ToBytes(v + high * Pow2(8 * n), n) == ToBytes(v, n)
  {
    if n > 0 {
      BytePower(n - 1);
      hide Pow2;
      var power := Pow2(8 * (n - 1));
      var rest := high * power;
      assert 8 * n == 8 * (n - 1) + 8;
      assert high * Pow2(8 * n) == 256 * rest by { MulAssociates(high, power, 256); }
      assert (v + 256 * rest) / 256 == v / 256 + rest && (v + 256 * rest) % 256 == v % 256;
      ToBytesLowPart(v / 256, n - 1, high);
    }
  }

  lemma BytePower(n: nat)
    ensures Pow2(8 * n + 8) == Pow2(8 * n) * 256
  {
    ByteWidths();
    Pow2Add(8 * n, 8);
  }

  lemma LowBytes(v: nat, n: nat, low: nat)
    requires low == v % Pow2(8 * n)
    ensures ToBytes(low, n) == ToBytes(v, n)
  {
    hide Pow2, ToBytes;
    var p := Pow2(8 * n);
    assert v == p * (v / p) + v % p;
    DivNonNegative(v, p);
    ToBytesLowPart(low, n, v / p);
  }

  /** Masking the stored value to its width before MEM does not change the bytes MEM writes. */
  lemma StoreBytesAgree(e: ERegion)
    requires IsStore(e.inst)
    ensures ToBytes(Wrap(StoreValue(e)), MemLen(e.inst)) == ToBytes(Wrap(e.valB), MemLen(e.inst))
  {
    hide ToBytes;
    var v := Wrap(e.valB);
    ByteWidths();
    if !e.inst.Sd? {
      var n := MemLen(e.inst);
      NarrowValue(e.valB, n);
      LowBytes(v, n, v % Pow2(8 * n));
    }
  }

  lemma ByteWidths()
    ensures Pow2(8) == 0x100 && Pow2(16) == 0x1_0000 && Pow2(32) == U32
  {
    assert Pow2(8) == 0x100;
    Pow2Add(8, 8);
    Pow2Of32();
  }

  lemma NarrowValue(x: int, n: nat)
    requires n == 1 || n == 2 || n == 4
    ensures n == 1 ==> Wrap(x % 0x100) == Wrap(x) % Pow2(8 * n)
    ensures n == 2 ==> Wrap(x % 0x1_0000) == Wrap(x) % Pow2(8 * n)
    ensures n == 4 ==> Wrap(x % U32) == Wrap(x) % Pow2(8 * n)
  {
    hide Pow2;
    ByteWidths();
    RemainderOfRemainder(x, 0x100, 0x100_0000_0000_0000);
    RemainderOfRemainder(x, 0x1_0000, 0x1_0000_0000_0000);
    RemainderOfRemainder(x, U32, U32);
  }

  /** MEM offers ID the very value its instruction writes, and nothing for a bubble. */
  predicate ForwardsM(m: MRegion, mem: Forward, a: Arch, a': Arch, strat: Strategy)
    requires StageM(m, a, a', strat)
  {
    if m.inst.Bubble? then !mem.write
    else mem == Forward(Writes(InstAt(a).kind), InstAt(a).dest, ValueAt(a, InstAt(a)))
  }

  /** What MEM leaves behind for an instruction of the reference: its memory, its log entry and its value. */
  lemma MemRefines(s: Machine, a: Arch, a': Arch, perf: Perf, strat: Strategy)
    requires Sound(s.storage) && View(s.storage) == a.mem && s.log == a.log && a.ok
    requires Shaped(s.storage) && StageM(s.m, a, a', strat) && MemStage(s.m, s.storage, s.log, perf).MemOut?
    ensures var r := MemStage(s.m, s.storage, s.log, perf);
            Sound(r.storage) && View(r.storage) == a'.mem && r.log == a'.log && a'.ok && StageW(r.w, a, a')
    ensures ForwardsM(s.m, MemStage(s.m, s.storage, s.log, perf).fwd, a, a', strat)
  {
    hide Decode, Execute, FromBytes, ToBytes, ReadBytes, After, Touch, Sound, View, Shaped, Covers, Taken, Word;
    if s.m.inst.Bubble? {
      SkipIsQuiet(a, a');
    } else {
      StepPerforms(a);
      var i, e := InstAt(a), EOf(a, strat);
      if IsStore(i.kind) {
        StoreBytesAgree(e);
      }
      if s.m.memRead || s.m.memWrite {
        var op := if s.m.memRead then Read(s.m.memLen) else Write(ToBytes(Wrap(s.m.valB), s.m.memLen));
        TouchRefines(s.storage, Wrap(s.m.valE), op, perf);
        AfterRead(a.mem, AddrAt(a, i), op);
      }
    }
  }

  lemma AfterRead(mem: map<nat, byte>, addr: nat, op: Op)
    ensures op.Read? ==> After(mem, addr, op) == mem
  {
  }

  // EX.

  lemma {:induction false} TextRefines(storage: Storage, addr: nat, perf: Perf, fuel: nat)
    requires Sound(storage) && Shaped(storage) && PrintText(storage, addr, perf, fuel).TextOut?
    ensures var r := PrintText(storage, addr, perf, fuel);
            Sound(r.storage) && View(r.storage) == View(storage) &&
            TextAt(View(storage), addr, fuel) == Some(r.chars)
    decreases fuel
  {
    hide Touch, Sound, View, After;
    SoundIsShaped(storage);
    var mem, a := View(storage), addr % U32;
    TouchRefines(storage, addr, Read(1), perf);
    AfterRead(mem, a, Read(1));
    var got := Touch(storage, addr, Read(1), perf);
    assert ReadBytes(mem, a, 1)[0] == if a in mem then mem[a] else 0;
    assert a in mem;
    if got.data[0] != 0 {
      TextRefines(got.storage, addr + 1, got.perf, fuel - 1);
    }
  }

  /** A system call prints what the reference prints, and leaves memory alone. */
  lemma SyscallRefines(e: ERegion, a: Arch, a': Arch, storage: Storage, perf: Perf, strat: Strategy)
    requires StageE(e, a, a', strat) && Sound(storage) && Shaped(storage) && View(storage) == a.mem
    requires Syscall(e, storage, a.out, perf).SysOut?
    ensures var r := Syscall(e, storage, a.out, perf);
            Sound(r.storage) && View(r.storage) == a.mem && r.out == a'.out
    ensures !e.inst.Bubble? && InstAt(a).kind.Ecall? ==> CallAt(a, InstAt(a)).Some?
  {
    hide Decode, Execute, Taken, FromBytes, ToBytes, ReadBytes, After, Sound, View, Shaped, Word, PrintText, TextAt;
    if e.inst.Bubble? {
      SkipIsQuiet(a, a');
    } else {
      StepPerforms(a);
      if e.inst.Ecall? && e.valB == 0 {
        TextRefines(storage, Wrap(e.valA), perf, U32);
      }
    }
  }

  // ID: operand freshness.

  lemma OneOverlay(r: int, imm: int, a: Arch)
    requires RegOrNone(r) && |a.reg| == 32 && Performs(a)
    ensures var i := InstAt(a);
            |NextReg(a, i)| == 32 &&
            RegValue(NextReg(a, i), r, imm) ==
            if Writes(i.kind) && i.dest != 0 && r == i.dest then ValueAt(a, i) else RegValue(a.reg, r, imm)
  {
    hide Decode, ValueAt, Word;
    DecodedAt(a);
  }

  /** The register file after WB, overlaid with both forwards, is the register file after all older instructions. */
  lemma ForwardingIsFresh(r: int, imm: int, t: Trail, mem: Forward, e: ERegion, m: MRegion, strat: Strategy)
    requires RegOrNone(r) && |t.m.reg| == 32
    requires StageM(m, t.m, t.e, strat) && StageE(e, t.e, t.d, strat)
    requires ForwardsM(m, mem, t.m, t.e, strat)
    requires !(IsLoad(e.inst) && e.destReg != 0 && r == e.destReg)
    ensures OperandOf(r, imm, t.m.reg, mem, ExForward(e)) == RegValue(t.d.reg, r, imm)
  {
    hide Decode, Execute, Taken, Word, NextReg, Performs;
    RegAfterM(m, t.m, t.e, strat);
    RegAfterE(e, t.e, t.d, strat);
    if !m.inst.Bubble? {
      OneOverlay(r, imm, t.m);
    }
    if !e.inst.Bubble? {
      OneOverlay(r, imm, t.e);
    }
  }

  lemma RegAfterE(e: ERegion, a: Arch, a': Arch, strat: Strategy)
    requires StageE(e, a, a', strat)
    ensures a'.reg == if e.inst.Bubble? then a.reg else NextReg(a, InstAt(a))
  {
    hide Decode, Execute, Taken, FromBytes, ToBytes, ReadBytes, After, Word;
    if e.inst.Bubble? {
      SkipIsQuiet(a, a');
    } else {
      StepPerforms(a);
    }
  }

  lemma DecodedAt(a: Arch)
    requires Performs(a)
    ensures WellDecoded(Word(a.mem, a.pc), InstAt(a))
  {
    hide WellDecoded, Word;
  }

  lemma RegAfterM(m: MRegion, a: Arch, a': Arch, strat: Strategy)
    requires StageM(m, a, a', strat)
    ensures a'.reg == if m.inst.Bubble? then a.reg else NextReg(a, InstAt(a))
  {
    hide Decode, Execute, Taken, FromBytes, ToBytes, ReadBytes, After, Word;
    if m.inst.Bubble? {
      SkipIsQuiet(a, a');
    } else {
      StepPerforms(a);
    }
  }

  /** ID reads what the reference reads, whenever its instruction is on the right path and not held back. */
  lemma IdRefines(s: Machine, t: Trail, mem: Forward, strat: Strategy)
    requires |t.m.reg| == 32
    requires StageM(s.m, t.m, t.e, strat) && StageE(s.e, t.e, t.d, strat) && ForwardsM(s.m, mem, t.m, t.e, strat)
    requires s.d.inst != 0 && StageD(s, t.d, t.f, strat)
    requires IdStage(s.d, t.m.reg, mem, ExForward(s.e)).Some?
    ensures Decode(s.d.inst).Some?
    ensures var e, i := IdStage(s.d, t.m.reg, mem, ExForward(s.e)).value, Decode(s.d.inst).value;
            e.rs1 == i.rs1 && e.rs2 == i.rs2 && !e.inst.Bubble? &&
            (!LoadUse(s.e, e.rs1, e.rs2) && !LostJump(i, t.d.lastLoad) ==> Performs(t.d) && e == EOf(t.d, strat))
  {
    hide Decode, Execute, Taken, OperandOf, ExForward, Word, StageM, StageE, WellDecoded, Fetchable;
    var i := Decode(s.d.inst).value;
    WordDecodes(s.d.inst);
    var e := IdStage(s.d, t.m.reg, mem, ExForward(s.e)).value;
    if !LoadUse(s.e, i.rs1, i.rs2) && !LostJump(i, t.d.lastLoad) {
      ForwardingIsFresh(i.rs1, i.immA, t, mem, s.e, s.m, strat);
      ForwardingIsFresh(i.rs2, i.immB, t, mem, s.e, s.m, strat);
    }
  }

  lemma WordDecodes(w: nat)
    ensures Decode(w).Some? ==>
              var i := Decode(w).value; !i.kind.Bubble? && RegOrNone(i.rs1) && RegOrNone(i.rs2)
    ensures Decode(w).Some? ==> (IsJump(Decode(w).value.kind) <==> JumpInID(DRegion(0, w, 0, false)))
    ensures Decode(w).Some? && IsJump(Decode(w).value.kind) ==>
              Decode(w).value.rs2 == -1 && (Decode(w).value.kind.Jal? ==> Decode(w).value.rs1 == -1)
    ensures Decode(w).Some? ==> (IsBranch(Decode(w).value.kind) <==> Opcode(w) == OP_BRANCH)
    ensures Decode(w).Some? && IsBranch(Decode(w).value.kind) ==> Decode(w).value.offset == ImmSB(w)
  {
    hide KindOf, Operands;
  }

  /** A load in EX is the step just before D's, so a hazard on a jump is exactly the lost-jump condition. */
  lemma HazardOnJump(s: Machine, t: Trail, strat: Strategy)
    requires StageE(s.e, t.e, t.d, strat) && s.d.inst != 0 && StageD(s, t.d, t.f, strat) && Decode(s.d.inst).Some?
    ensures var i := Decode(s.d.inst).value;
            LostJump(i, t.d.lastLoad) <==> JumpInID(s.d) && LoadUse(s.e, i.rs1, i.rs2)
  {
    hide Decode, Execute, Taken, Word, Opcode, WellDecoded, NextReg, NextMem, NextPC, ValueAt, CallAt, StoreAt,
         Fetchable, ExecutesFine;
    var i := Decode(s.d.inst).value;
    WordDecodes(s.d.inst);
    if !s.e.inst.Bubble? {
      StepPerforms(t.e);
      LoadHasDest(t.e);
    }
  }

  lemma LoadHasDest(a: Arch)
    requires Performs(a)
    ensures Writes(InstAt(a).kind) ==> InstAt(a).dest >= 0
    ensures Step(a).lastLoad == if IsLoad(InstAt(a).kind) && InstAt(a).dest != 0 then InstAt(a).dest else 0
  {
    hide Decode, Word, NextReg, NextMem, NextPC, ValueAt, CallAt, StoreAt, ExecutesFine;
    DecodedAt(a);
    StepPerforms(a);
  }

  // IF.

  /** The step after a branch or a plain instruction goes where the fetch predicted, or where it did not. */
  lemma PredictionCases(a: Arch, strat: Strategy)
    requires Performs(a)
    ensures var w, e := Word(a.mem, a.pc), EOf(a, strat);
            (IsJump(InstAt(a).kind) ==> Step(a).pc == Wrap(ExResult(e).target)) &&
            (!IsJump(InstAt(a).kind) && !Mispredicted(e) ==> Step(a).pc == PredictedPC(a.pc, w, strat)) &&
            (Mispredicted(e) ==> Step(a).pc == OtherPC(a.pc, w, strat) && Step(a).lastLoad == 0)
    ensures IsJump(InstAt(a).kind) ==> Step(a).lastLoad == 0
  {
    hide Decode, Execute, Taken, Word, NextReg, NextMem, ValueAt, CallAt, StoreAt, ExecutesFine, Opcode, ImmSB;
    WordDecodes(Word(a.mem, a.pc));
    StepPerforms(a);
  }

  /** The next fetch goes to the reference's next state, unless the instruction leaving ID is a mispredicted branch. */
  lemma FetchGoesRight(s: Machine, t: Trail, strat: Strategy)
    requires StageM(s.m, t.m, t.e, strat) && StageE(s.e, t.e, t.d, strat) && StageDF(s, t, strat)
    requires !Mispredicted(s.e)
    requires s.d.inst != 0 && !s.m.wrong && !IsJump(s.e.inst) ==>
               Performs(t.d) && !IsJump(InstAt(t.d).kind) && !Mispredicted(EOf(t.d, strat))
    ensures FetchPC(s.f, s.e, s.m) == t.f.pc
  {
    hide Decode, Execute, Taken, Word, NextReg, NextMem, ValueAt, CallAt, StoreAt, ExecutesFine, Step, PredictedPC,
         Mispredicted;
    if s.m.wrong {
    } else if IsJump(s.e.inst) {
      PredictionCases(t.e, strat);
    } else if s.d.inst != 0 {
      PredictionCases(t.d, strat);
    }
  }

  // Code and stores.

  /** Nothing the instruction at a does changes the words of the next two fetches. */
  predicate StableAfter(a: Arch) {
    var b, c := Step(a), Step(Step(a));
    Word(a.mem, b.pc) == Word(b.mem, b.pc) && Word(a.mem, c.pc) == Word(c.mem, c.pc)
  }

  lemma StepKeepsPages(a: Arch)
    ensures Step(a).mem.Keys == a.mem.Keys && |Step(a).reg| == |a.reg|
  {
    hide Decode, Word, ValueAt, CallAt, NextPC, ExecutesFine, StoreAt;
  }

  /** D and E stand for at most one step each. */
  lemma AtMostTwoAhead(s: Machine, t: Trail, strat: Strategy)
    requires StageE(s.e, t.e, t.d, strat) && StageDF(s, t, strat) && !Mispredicted(s.e) && StableAfter(t.e)
    ensures Word(t.e.mem, t.f.pc) == Word(t.f.mem, t.f.pc)
    ensures t.f.mem.Keys == t.e.mem.Keys
  {
    hide Decode, Word, Step, Mispredicted, Skips, Performs;
    StepKeepsPages(t.e);
    StepKeepsPages(t.d);
  }

  /** A fetch that succeeds reads the word that memory shows at an allocated, aligned address, and changes nothing. */
  lemma FetchReads(pc: nat, st: Storage, perf: Perf, strat: Strategy)
    requires Sound(st) && Shaped(st) && IfStage(pc, st, perf, strat).FetchOut?
    ensures Fetchable(View(st), pc) && Within(st, pc % U32, 4)
    ensures var r, w := IfStage(pc, st, perf, strat), Word(View(st), pc);
            && Sound(r.storage) && View(r.storage) == View(st) && r.f == FRegion(PredictedPC(pc, w, strat))
            && r.d == DRegion(pc, w, OtherPC(pc, w, strat), TakeBranch(w, strat))
  {
    hide Sound, View, After, Request, Shaped, Within, FromBytes, TakeBranch, PredictedPC, OtherPC;
    TouchRefines(st, pc, Read(4), perf);
    SoundIsShaped(st);
    AfterRead(View(st), pc % U32, Read(4));
  }

  lemma IfRefines(s: Machine, t: Trail, st: Storage, perf: Perf, strat: Strategy)
    requires StageE(s.e, t.e, t.d, strat) && StageDF(s, t, strat) && !Mispredicted(s.e) && StableAfter(t.e)
    requires Sound(st) && Shaped(st) && View(st) == t.e.mem
    requires IfStage(t.f.pc, st, perf, strat).FetchOut?
    ensures var r := IfStage(t.f.pc, st, perf, strat);
            r.d == DOf(t.f, strat) && r.f.predPC == PredictedPC(t.f.pc, r.d.inst, strat) && Fetchable(t.f.mem, t.f.pc)
  {
    hide Sound, View, IfStage, Shaped, StageE, StageDF, StableAfter, Mispredicted, Word, TakeBranch, PredictedPC,
         OtherPC;
    FetchReads(t.f.pc, st, perf, strat);
    AtMostTwoAhead(s, t, strat);
  }

  // The clock edge.

  /** The states the stages stand for after the edge: squashed, emptied, held back, or moved on. */
  function Advance(s: Machine, t: Trail, held: bool): Trail {
    if Mispredicted(s.e) then Trail(t.m, t.e, t.d, t.d, t.d)
    else if JumpInID(s.d) then Trail(t.m, t.e, t.d, t.f, t.f)
    else if held then Trail(t.m, t.e, t.d, t.d, t.f)
    else Trail(t.m, t.e, t.d, t.f, Step(t.f))
  }

  /** The latches a cycle computes: what ID produced, what IF fetched, and the edge rules between them. */
  predicate Latches(s: Machine, s': Machine, id: ERegion, f: FRegion, d: DRegion) {
    var loadUse := LoadUse(s.e, id.rs1, id.rs2);
    s'.f == EdgeF(s, f, loadUse) && s'.d == EdgeD(s, d, loadUse) && s'.e == EdgeE(s, Latched(id), loadUse) &&
    s'.m == ExStage(s.e)
  }

  predicate Stages(s: Machine, t: Trail, strat: Strategy) {
    StageM(s.m, t.m, t.e, strat) && StageE(s.e, t.e, t.d, strat) && StageDF(s, t, strat)
  }

  lemma ExRefines(s: Machine, t: Trail, strat: Strategy)
    requires StageE(s.e, t.e, t.d, strat) && (!s.e.inst.Bubble? ==> ExResult(s.e).defined)
    requires !s.e.inst.Bubble? && InstAt(t.e).kind.Ecall? ==> CallAt(t.e, InstAt(t.e)).Some?
    ensures StageM(ExStage(s.e), t.e, t.d, strat)
  {
    hide Decode, Word, Execute, Taken, SystemCall;
  }

  /** A misprediction squashes both younger stages and leaves the redirect in M. */
  lemma EdgeSquash(s: Machine, s': Machine, t: Trail, id: ERegion, f: FRegion, d: DRegion, strat: Strategy)
    requires Stages(s, t, strat) && Latches(s, s', id, f, d) && StageM(s'.m, t.e, t.d, strat)
    requires Mispredicted(s.e)
    ensures Stages(s', Advance(s, t, LoadUse(s.e, id.rs1, id.rs2)), strat)
  {
    hide Decode, Word, Execute, Taken, Step, PredictedPC, TakeBranch, Opcode, StageM;
    PredictionCases(t.e, strat);
  }

  /** A jump leaving ID empties the slot behind it; one held back by a load is emptied too, and so lost. */
  lemma EdgeJump(s: Machine, s': Machine, t: Trail, mem: Forward, id: ERegion, f: FRegion, d: DRegion, strat: Strategy)
    requires Stages(s, t, strat) && Latches(s, s', id, f, d) && StageM(s'.m, t.e, t.d, strat)
    requires |t.m.reg| == 32 && ForwardsM(s.m, mem, t.m, t.e, strat)
    requires IdStage(s.d, t.m.reg, mem, ExForward(s.e)) == Some(id)
    requires !Mispredicted(s.e) && JumpInID(s.d)
    ensures Stages(s', Advance(s, t, LoadUse(s.e, id.rs1, id.rs2)), strat)
  {
    hide Decode, Word, Execute, Taken, Step, TakeBranch, Opcode, StageM, IdStage, ExForward, ForwardsM, Fetchable;
    ZeroIsNoJump(s.d);
    IdRefines(s, t, mem, strat);
    HazardOnJump(s, t, strat);
    WordDecodes(s.d.inst);
    JumpStep(t.d, strat);
  }

  lemma ZeroIsNoJump(d: DRegion)
    ensures JumpInID(d) ==> d.inst != 0
  {
  }

  /** A performed jump, or a lost one, leaves no pending load; a lost one goes to the next word. */
  lemma JumpStep(a: Arch, strat: Strategy)
    requires Word(a.mem, a.pc) != 0 && Decode(Word(a.mem, a.pc)).Some? && IsJump(Decode(Word(a.mem, a.pc)).value.kind)
    requires Fetchable(a.mem, a.pc)
    ensures Step(a).lastLoad == 0
    ensures !Performs(a) ==> Skips(a) && Step(a).pc == PredictedPC(a.pc, Word(a.mem, a.pc), strat)
  {
    hide Decode, Word, Execute, Taken, NextReg, NextMem, ValueAt, CallAt, StoreAt, ExecutesFine, NextPC, Fetchable;
    WordDecodes(Word(a.mem, a.pc));
  }

  /** A load-use stall keeps D and F, and sends a bubble behind the load. */
  lemma EdgeStall(s: Machine, s': Machine, t: Trail, mem: Forward, id: ERegion, f: FRegion, d: DRegion, strat: Strategy)
    requires Stages(s, t, strat) && Latches(s, s', id, f, d) && StageM(s'.m, t.e, t.d, strat)
    requires |t.m.reg| == 32 && ForwardsM(s.m, mem, t.m, t.e, strat)
    requires IdStage(s.d, t.m.reg, mem, ExForward(s.e)) == Some(id)
    requires !Mispredicted(s.e) && !JumpInID(s.d) && LoadUse(s.e, id.rs1, id.rs2)
    ensures Stages(s', Advance(s, t, true), strat)
  {
    hide Decode, Word, Execute, Taken, Step, TakeBranch, Opcode, StageM, ExForward, ForwardsM, Fetchable, OperandOf;
    LoadIsNoBubble(s.e, t.e, t.d, strat);
    IdRefines(s, t, mem, strat);
    HazardOnJump(s, t, strat);
  }

  lemma LoadIsNoBubble(e: ERegion, a: Arch, a': Arch, strat: Strategy)
    requires StageE(e, a, a', strat) && IsLoad(e.inst)
    ensures !e.inst.Bubble? && e.destReg >= 0
  {
    hide Decode, Word, Execute;
    LoadHasDest(a);
  }

  /** Otherwise everything moves on by one stage, and D takes the fetched word. */
  lemma EdgeMove(s: Machine, s': Machine, t: Trail, mem: Forward, id: ERegion, f: FRegion, d: DRegion, strat: Strategy)
    requires Stages(s, t, strat) && Latches(s, s', id, f, d) && StageM(s'.m, t.e, t.d, strat)
    requires |t.m.reg| == 32 && ForwardsM(s.m, mem, t.m, t.e, strat)
    requires IdStage(s.d, t.m.reg, mem, ExForward(s.e)) == Some(id)
    requires !Mispredicted(s.e) && !JumpInID(s.d) && !LoadUse(s.e, id.rs1, id.rs2)
    requires FetchPC(s.f, s.e, s.m) == t.f.pc ==>
               d == DOf(t.f, strat) && f.predPC == PredictedPC(t.f.pc, d.inst, strat) && Fetchable(t.f.mem, t.f.pc)
    ensures Stages(s', Advance(s, t, false), strat)
  {
    hide Decode, Word, Execute, Taken, Step, TakeBranch, Opcode, StageM, ExForward, ForwardsM, Fetchable, OperandOf,
         FetchPC, PredictedPC, OtherPC;
    var t' := Advance(s, t, false);
    if s.d.inst != 0 && !s.m.wrong && !IsJump(s.e.inst) {
      IdRefines(s, t, mem, strat);
      HazardOnJump(s, t, strat);
      WordDecodes(s.d.inst);
      assert StageE(s'.e, t.d, t.f, strat);
    } else {
      assert StageE(s'.e, t.d, t.f, strat);
      assert t.f.lastLoad == 0;
    }
    if !Mispredicted(s'.e) {
      FetchGoesRight(s, t, strat);
      FetchedSlot(s', t.f, strat);
    }
  }

  lemma FetchedSlot(s: Machine, a: Arch, strat: Strategy)
    requires s.d == DOf(a, strat) && s.f.predPC == PredictedPC(a.pc, s.d.inst, strat) && Fetchable(a.mem, a.pc)
    requires s.e.inst.Bubble? ==> a.lastLoad == 0
    ensures StageD(s, a, Step(a), strat)
  {
    hide Decode, Word, Perform, Fetchable;
    ZeroWord(a.pc, strat);
  }

  lemma ZeroWord(pc: nat, strat: Strategy)
    ensures PredictedPC(pc, 0, strat) == Wrap(pc + 4)
  {
  }

  // The cycle.

  lemma EdgeRefines(s: Machine, s': Machine, t: Trail, mem: Forward, id: ERegion, f: FRegion, d: DRegion,
      strat: Strategy)
    requires Stages(s, t, strat) && Latches(s, s', id, f, d) && StageM(s'.m, t.e, t.d, strat)
    requires |t.m.reg| == 32 && ForwardsM(s.m, mem, t.m, t.e, strat)
    requires IdStage(s.d, t.m.reg, mem, ExForward(s.e)) == Some(id)
    requires !Mispredicted(s.e) && FetchPC(s.f, s.e, s.m) == t.f.pc ==>
               d == DOf(t.f, strat) && f.predPC == PredictedPC(t.f.pc, d.inst, strat) && Fetchable(t.f.mem, t.f.pc)
    ensures Stages(s', Advance(s, t, LoadUse(s.e, id.rs1, id.rs2)), strat)
  {
    hide Decode, Word, Execute, Taken, Step, StageM, IdStage, ExForward, ForwardsM, Fetchable, FetchPC, PredictedPC,
         Mispredicted, JumpInID, LoadUse, Stages, Latches, Advance;
    if Mispredicted(s.e) {
      EdgeSquash(s, s', t, id, f, d, strat);
    } else if JumpInID(s.d) {
      EdgeJump(s, s', t, mem, id, f, d, strat);
    } else if LoadUse(s.e, id.rs1, id.rs2) {
      EdgeStall(s, s', t, mem, id, f, d, strat);
    } else {
      EdgeMove(s, s', t, mem, id, f, d, strat);
    }
  }

  /** The part of a cycle after MEM, given what MEM left. */
  lemma AfterMemRefines(s: Machine, t: Trail, reg: seq<int>, w: WRegion, mem: Forward, st1: Storage, log: seq<Retired>,
                        p1: Perf, strat: Strategy)
    requires Wellformed(s) && |reg| == 32 && reg[0] == 0 && reg == t.m.reg && Stages(s, t, strat) && s.out == t.e.out
    requires Sound(st1) && Shaped(st1) && View(st1) == t.e.mem && log == t.e.log && t.e.ok
    requires StageW(w, t.m, t.e) && ForwardsM(s.m, mem, t.m, t.e, strat) && StableAfter(t.e)
    requires AfterMem(s, reg, w, mem, st1, log, p1, strat).status.Running?
    ensures Inv(AfterMem(s, reg, w, mem, st1, log, p1, strat), Advance(s, t, HeldBack(s)), strat)
  {
    hide Decode, Word, Execute, Taken, Step, ExStage, IdStage, IfStage, ExForward, FetchPC, PredictedPC, Syscall,
         Sound, View, Shaped, Mispredicted, JumpInID, LoadUse, StableAfter, StageW, StageM, StageE, StageDF, ForwardsM,
         ExResult, EdgeF, EdgeD, EdgeE, CountHazards, Fetchable, CallAt, HeldBack;
    var s' := AfterMem(s, reg, w, mem, st1, log, p1, strat);
    SyscallRefines(s.e, t.e, t.d, st1, p1, strat);
    var sys := Syscall(s.e, st1, s.out, p1);
    ExRefines(s, t, strat);
    var id := IdStage(s.d, reg, mem, ExForward(s.e)).value;
    var pc := FetchPC(s.f, s.e, s.m);
    var fi := IfStage(pc, sys.storage, sys.perf, strat);
    FetchReads(pc, sys.storage, sys.perf, strat);
    if !Mispredicted(s.e) && pc == t.f.pc {
      IfRefines(s, t, sys.storage, sys.perf, strat);
    }
    EdgeRefines(s, s', t, mem, id, fi.f, fi.d, strat);
    if IsLoad(s.e.inst) {
      LoadIsNoBubble(s.e, t.e, t.d, strat);
    }
    HoldIsHeldBack(s, reg, mem, ExForward(s.e));
  }

  /** One cycle that does not stop the process keeps the invariant, for the stages moved on as the edge says. */
  lemma CycleRefines(s: Machine, t: Trail, strat: Strategy)
    requires Inv(s, t, strat) && (t.e.ok ==> StableAfter(t.e))
    requires s.status.Running? && Cycle(s, strat).status.Running?
    ensures Inv(Cycle(s, strat), Advance(s, t, HeldBack(s)), strat)
  {
    hide Decode, Word, Execute, Taken, Step, WriteBackStage, MemStage, AfterMem, Sound, View, Shaped, StableAfter,
         StageW, StageM, StageE, StageDF, ForwardsM, Advance, HeldBack;
    var perf := s.perf.(cycles := s.perf.cycles + 1);
    WriteBackRefines(s.w, t.w, t.m);
    WriteBackKeepsZero(s.w, s.reg);
    var reg := WriteBackStage(s.w, s.reg);
    MemRefines(s, t.m, t.e, perf, strat);
    var r := MemStage(s.m, s.storage, s.log, perf);
    AfterMemRefines(s, t, reg, r.w, r.fwd, r.storage, r.log, r.perf, strat);
  }

  lemma WriteBackKeepsZero(w: WRegion, reg: seq<int>)
    requires |reg| == 32 && reg[0] == 0
    ensures WriteBackStage(w, reg)[0] == 0
  {
  }
}
