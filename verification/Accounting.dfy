/** Where the cycles go: every cycle retires an instruction or passes a bubble some rule put in. */
module Accounting {
  import opened Wrappers
  import opened Bits
  import opened Hierarchy
  import opened Isa
  import opened Pipeline

  /** The word ID holds decodes to an instruction that must wait for the load in EX. */
  predicate HeldBack(s: Machine) {
    s.d.inst != 0 && Decode(s.d.inst).Some? &&
    LoadUse(s.e, Decode(s.d.inst).value.rs1, Decode(s.d.inst).value.rs2)
  }

  /** The cycle latches a newly fetched word into D, and that word is 0. */
  predicate LatchesZero(s: Machine, strat: Strategy)
    requires Wellformed(s)
  {
    !JumpInID(s.d) && !Mispredicted(s.e) && !HeldBack(s) && Cycle(s, strat).d.inst == 0
  }

  predicate NoZeroFetched(s: Machine, strat: Strategy, n: nat)
    requires Wellformed(s)
  {
    forall k :: 0 <= k < n ==> !LatchesZero(Run(s, strat, k), strat)
  }

  function Bubbles(s: Machine): nat { Count(s.d.inst == 0) + Count(s.e.inst.Bubble?) + Count(s.m.inst.Bubble?) }

  /** An empty D comes with an empty E or with a jump in it: nothing else empties D alone. */
  predicate EmptyBehindJump(s: Machine) {
    (s.d.inst == 0 ==> s.e.inst.Bubble? || IsJump(s.e.inst)) && (IsLoad(s.e.inst) ==> s.e.destReg >= 0)
  }

  /** What a cycle that does not stop does to the latches and the counters. */
  predicate CycleShape(s: Machine, s': Machine) {
    var held := HeldBack(s);
    (s'.m.inst.Bubble? <==> s.e.inst.Bubble?) &&
    (s'.e.inst.Bubble? <==> Mispredicted(s.e) || held || s.d.inst == 0) &&
    (JumpInID(s.d) || Mispredicted(s.e) ==> s'.d.inst == 0) &&
    (!JumpInID(s.d) && !Mispredicted(s.e) && held ==> s'.d == s.d) &&
    (!s'.e.inst.Bubble? ==> (IsJump(s'.e.inst) <==> JumpInID(s.d)) && (IsLoad(s'.e.inst) ==> s'.e.destReg >= 0)) &&
    s'.perf.cycles == s.perf.cycles + 1 &&
    s'.perf.insts == s.perf.insts + Count(!s.m.inst.Bubble?) &&
    s'.perf.jumps == s.perf.jumps + Count(JumpInID(s.d)) &&
    s'.perf.mispredict == s.perf.mispredict + Count(Mispredicted(s.e)) &&
    s'.perf.loadUse == s.perf.loadUse + Count(held)
  }

  predicate SameCounts(p: Perf, q: Perf) {
    q.cycles == p.cycles && q.insts == p.insts && q.jumps == p.jumps && q.mispredict == p.mispredict &&
      q.loadUse == p.loadUse
  }

  lemma {:induction false} TextCounts(storage: Storage, addr: nat, perf: Perf, fuel: nat)
    requires Shaped(storage) && PrintText(storage, addr, perf, fuel).TextOut?
    ensures SameCounts(perf, PrintText(storage, addr, perf, fuel).perf)
    decreases fuel
  {
    hide Request, Within;
    var got := Touch(storage, addr, Read(1), perf);
    if got.data[0] != 0 {
      TextCounts(got.storage, addr + 1, got.perf, fuel - 1);
    }
  }

  lemma SyscallCounts(e: ERegion, storage: Storage, out: seq<Output>, perf: Perf)
    requires Shaped(storage) && Syscall(e, storage, out, perf).SysOut?
    ensures SameCounts(perf, Syscall(e, storage, out, perf).perf)
  {
    hide PrintText;
    if e.inst.Ecall? && e.valB == 0 {
      TextCounts(storage, Wrap(e.valA), perf, U32);
    }
  }

  lemma MemCounts(m: MRegion, storage: Storage, log: seq<Retired>, perf: Perf)
    requires Shaped(storage) && MemStage(m, storage, log, perf).MemOut?
    ensures var p := MemStage(m, storage, log, perf).perf;
            SameCounts(perf.(insts := perf.insts + Count(!m.inst.Bubble?)), p)
  {
    hide Request, Within, FromBytes, ToBytes;
  }

  lemma FetchCounts(pc: nat, storage: Storage, perf: Perf, strat: Strategy)
    requires Shaped(storage) && IfStage(pc, storage, perf, strat).FetchOut?
    ensures SameCounts(perf, IfStage(pc, storage, perf, strat).perf)
  {
    hide Request, Within, FromBytes, PredictedPC, OtherPC, TakeBranch;
  }

  lemma IdShape(d: DRegion, reg: seq<int>, mem: Forward, ex: Forward)
    requires IdStage(d, reg, mem, ex).Some?
    ensures var id := IdStage(d, reg, mem, ex).value;
            (id.inst.Bubble? <==> d.inst == 0) &&
            (d.inst == 0 ==> id.rs1 == -1 && id.rs2 == -1) &&
            (d.inst != 0 ==>
               Decode(d.inst).Some? && id.rs1 == Decode(d.inst).value.rs1 && id.rs2 == Decode(d.inst).value.rs2 &&
               (IsJump(id.inst) <==> JumpInID(d)) && (IsLoad(id.inst) ==> id.destReg >= 0))
  {
    hide OperandOf, KindOf, Operands;
  }

  lemma HoldIsHeldBack(s: Machine, reg: seq<int>, mem: Forward, ex: Forward)
    requires IdStage(s.d, reg, mem, ex).Some? && (IsLoad(s.e.inst) ==> s.e.destReg >= 0)
    ensures var id := IdStage(s.d, reg, mem, ex).value; LoadUse(s.e, id.rs1, id.rs2) == HeldBack(s)
  {
    hide OperandOf, Decode;
  }

  lemma LatchShape(s: Machine, id: ERegion, f: FRegion, d: DRegion, s': Machine)
    requires s'.m == ExStage(s.e) && s'.d == EdgeD(s, d, HeldBack(s)) && s'.e == EdgeE(s, Latched(id), HeldBack(s))
    requires (id.inst.Bubble? <==> s.d.inst == 0) && (IsLoad(s.e.inst) ==> s.e.destReg >= 0)
    requires s.d.inst != 0 ==> (IsJump(id.inst) <==> JumpInID(s.d)) && (IsLoad(id.inst) ==> id.destReg >= 0)
    ensures (s'.m.inst.Bubble? <==> s.e.inst.Bubble?) &&
            (s'.e.inst.Bubble? <==> Mispredicted(s.e) || HeldBack(s) || s.d.inst == 0) &&
            (JumpInID(s.d) || Mispredicted(s.e) ==> s'.d.inst == 0) &&
            (!JumpInID(s.d) && !Mispredicted(s.e) && HeldBack(s) ==> s'.d == s.d) &&
            (!s'.e.inst.Bubble? ==> (IsJump(s'.e.inst) <==> JumpInID(s.d)) && (IsLoad(s'.e.inst) ==> s'.e.destReg >= 0))
  {
    hide ExResult, Mispredicted, JumpInID, HeldBack, Taken, StoreValue, MemLen;
  }

  /** The counters after the edge, from those after MEM. */
  lemma HazardCounts(s: Machine, p1: Perf, p3: Perf, held: bool, s': Machine)
    requires p1.cycles == s.perf.cycles + 1 && p1.insts == s.perf.insts + Count(!s.m.inst.Bubble?)
    requires p1.jumps == s.perf.jumps && p1.mispredict == s.perf.mispredict && p1.loadUse == s.perf.loadUse
    requires SameCounts(p1, p3) && s'.perf == CountHazards(p3, s.e, JumpInID(s.d), held)
    ensures s'.perf.cycles == s.perf.cycles + 1 &&
            s'.perf.insts == s.perf.insts + Count(!s.m.inst.Bubble?) &&
            s'.perf.jumps == s.perf.jumps + Count(JumpInID(s.d)) &&
            s'.perf.mispredict == s.perf.mispredict + Count(Mispredicted(s.e)) &&
            s'.perf.loadUse == s.perf.loadUse + Count(held)
  {
    hide Mispredicted, JumpInID;
  }

  /** What a surviving cycle latches, in terms of the stages' outputs. */
  lemma AfterMemFields(s: Machine, reg: seq<int>, w: WRegion, mem: Forward, st1: Storage, log: seq<Retired>, p1: Perf,
                       strat: Strategy)
    returns (id: ERegion, sys: SysOut, fi: FetchOut)
    requires Wellformed(s) && |reg| == 32 && Shaped(st1)
    requires AfterMem(s, reg, w, mem, st1, log, p1, strat).status.Running?
    ensures sys == Syscall(s.e, st1, s.out, p1) && sys.SysOut?
    ensures IdStage(s.d, reg, mem, ExForward(s.e)) == Some(id)
    ensures fi == IfStage(FetchPC(s.f, s.e, s.m), sys.storage, sys.perf, strat) && fi.FetchOut?
    ensures var s', held := AfterMem(s, reg, w, mem, st1, log, p1, strat), LoadUse(s.e, id.rs1, id.rs2);
            s'.m == ExStage(s.e) && s'.f == EdgeF(s, fi.f, held) && s'.d == EdgeD(s, fi.d, held) &&
            s'.e == EdgeE(s, Latched(id), held) &&
            s'.perf == CountHazards(fi.perf, s.e, JumpInID(s.d), held)
  {
    hide IdStage, IfStage, Syscall, ExResult, Mispredicted, JumpInID, Decode, ExForward, FetchPC, Taken, Shaped,
         LoadUse, HeldBack, EdgeD, EdgeE, EdgeF, ExStage, Latched, IsLoad, IsJump, CountHazards, Count;
    sys := Syscall(s.e, st1, s.out, p1);
    id := IdStage(s.d, reg, mem, ExForward(s.e)).value;
    fi := IfStage(FetchPC(s.f, s.e, s.m), sys.storage, sys.perf, strat);
  }

  lemma AfterMemShape(s: Machine, reg: seq<int>, w: WRegion, mem: Forward, st1: Storage, log: seq<Retired>, p1: Perf,
                      strat: Strategy)
    requires Wellformed(s) && |reg| == 32 && Shaped(st1) && (IsLoad(s.e.inst) ==> s.e.destReg >= 0)
    requires p1.cycles == s.perf.cycles + 1 && p1.insts == s.perf.insts + Count(!s.m.inst.Bubble?)
    requires p1.jumps == s.perf.jumps && p1.mispredict == s.perf.mispredict && p1.loadUse == s.perf.loadUse
    requires AfterMem(s, reg, w, mem, st1, log, p1, strat).status.Running?
    ensures CycleShape(s, AfterMem(s, reg, w, mem, st1, log, p1, strat))
  {
    hide IdStage, IfStage, Syscall, ExResult, Mispredicted, JumpInID, Decode, ExForward, FetchPC, Taken, Shaped,
         LoadUse, HeldBack, EdgeD, EdgeE, EdgeF, ExStage, Latched, IsLoad, IsJump, CountHazards, Count, AfterMem,
         Wellformed;
    var s' := AfterMem(s, reg, w, mem, st1, log, p1, strat);
    var id, sys, fi := AfterMemFields(s, reg, w, mem, st1, log, p1, strat);
    SyscallCounts(s.e, st1, s.out, p1);
    FetchCounts(FetchPC(s.f, s.e, s.m), sys.storage, sys.perf, strat);
    HoldIsHeldBack(s, reg, mem, ExForward(s.e));
    HazardCounts(s, p1, fi.perf, HeldBack(s), s');
    IdShape(s.d, reg, mem, ExForward(s.e));
    LatchShape(s, id, fi.f, fi.d, s');
  }

  lemma CycleHasShape(s: Machine, strat: Strategy)
    requires Wellformed(s) && s.status.Running? && Cycle(s, strat).status.Running? && (IsLoad(s.e.inst) ==>
             s.e.destReg >= 0)
    ensures CycleShape(s, Cycle(s, strat))
  {
    hide AfterMem, MemStage, CycleShape, Shaped;
    var perf := s.perf.(cycles := s.perf.cycles + 1);
    MemCounts(s.m, s.storage, s.log, perf);
    var r := MemStage(s.m, s.storage, s.log, perf);
    AfterMemShape(s, WriteBackStage(s.w, s.reg), r.w, r.fwd, r.storage, r.log, r.perf, strat);
  }

  lemma KindsAreApart(e: ERegion)
    ensures Mispredicted(e) ==> !IsLoad(e.inst) && !IsJump(e.inst) && !e.inst.Bubble?
    ensures IsLoad(e.inst) ==> !e.inst.Bubble? && !IsJump(e.inst)
  {
  }

  lemma ZeroNeverJumps(d: DRegion)
    ensures d.inst == 0 ==> !JumpInID(d)
  {
  }

  /** Cycles in which a jump in ID and a misprediction in EX empty the same slot. */
  function Overlaps(s: Machine, strat: Strategy, n: nat): nat
    requires Wellformed(s)
  {
    if n == 0 then 0
    else
      var r := Run(s, strat, n - 1);
      Overlaps(s, strat, n - 1) + Count(JumpInID(r.d) && Mispredicted(r.e))
  }

  /**
   * Cycle accounting: three cycles to fill, one per retired instruction, one per jump, two per
   * misprediction and one per load-use stall, counting a slot emptied twice only once.
   */
  lemma {:induction false} CyclesAccountedFor(s: Machine, strat: Strategy, n: nat)
    requires Initial(s) && s.perf == Perf(0, 0, 0, 0, 0, 0, 0, 0, 0, 0)
    requires Run(s, strat, n).status.Running? && NoZeroFetched(s, strat, n)
    ensures var r := Run(s, strat, n);
            EmptyBehindJump(r) &&
            r.perf.cycles + Bubbles(r) + Overlaps(s, strat, n) ==
            r.perf.insts + 3 + r.perf.jumps + 2 * r.perf.mispredict + r.perf.loadUse
  {
    hide Cycle, Mispredicted, JumpInID, HeldBack, Shaped;
    if n == 0 {
    } else {
      RunningBefore(s, strat, n);
      CyclesAccountedFor(s, strat, n - 1);
      var r := Run(s, strat, n - 1);
      CycleHasShape(r, strat);
      assert !LatchesZero(r, strat);
      OneCycle(r, Cycle(r, strat), strat);
    }
  }

  lemma RunningBefore(s: Machine, strat: Strategy, n: nat)
    requires Wellformed(s) && n > 0 && Run(s, strat, n).status.Running?
    ensures Run(s, strat, n - 1).status.Running?
  {
    hide AfterMem, MemStage, Shaped;
  }

  lemma OneCycle(s: Machine, s': Machine, strat: Strategy)
    requires Wellformed(s) && s' == Cycle(s, strat) && CycleShape(s, s') && EmptyBehindJump(s) && !LatchesZero(s, strat)
    ensures EmptyBehindJump(s')
    ensures s'.perf.cycles + Bubbles(s') + Count(JumpInID(s.d) && Mispredicted(s.e)) -
            (s'.perf.insts + s'.perf.jumps + 2 * s'.perf.mispredict + s'.perf.loadUse) ==
            s.perf.cycles + Bubbles(s) - (s.perf.insts + s.perf.jumps + 2 * s.perf.mispredict + s.perf.loadUse)
  {
    hide Cycle, Mispredicted, JumpInID, Decode, Shaped;
    KindsAreApart(s.e);
    ZeroNeverJumps(s.d);
  }

  // Progress.

  /** Some stage between ID and MEM holds an instruction. */
  predicate Busy(s: Machine) { Bubbles(s) < 3 }

  lemma {:induction false} AlwaysBusy(s: Machine, strat: Strategy, n: nat)
    requires Initial(s) && n > 0 && Run(s, strat, n).status.Running? && NoZeroFetched(s, strat, n)
    ensures Busy(Run(s, strat, n)) && EmptyBehindJump(Run(s, strat, n))
  {
    hide Cycle, Mispredicted, JumpInID, HeldBack, Shaped;
    RunningBefore(s, strat, n);
    var r := Run(s, strat, n - 1);
    if n > 1 {
      AlwaysBusy(s, strat, n - 1);
    }
    CycleHasShape(r, strat);
    assert !LatchesZero(r, strat);
    StaysBusy(r, Cycle(r, strat), strat);
  }

  lemma StaysBusy(s: Machine, s': Machine, strat: Strategy)
    requires Wellformed(s) && s' == Cycle(s, strat) && CycleShape(s, s') && EmptyBehindJump(s) && !LatchesZero(s, strat)
    ensures Busy(s') && EmptyBehindJump(s')
  {
    hide Cycle, Mispredicted, JumpInID, Decode, Shaped;
    KindsAreApart(s.e);
    ZeroNeverJumps(s.d);
  }

  /** MEM never passes three bubbles in a row, once the first word has been fetched. */
  lemma RetiresWithinThree(s: Machine, strat: Strategy, n: nat)
    requires Initial(s) && n > 0 && Run(s, strat, n + 3).status.Running? && NoZeroFetched(s, strat, n + 3)
    ensures Run(s, strat, n + 3).perf.insts > Run(s, strat, n).perf.insts
  {
    hide Cycle, Mispredicted, JumpInID, HeldBack, Shaped;
    RunningBefore(s, strat, n + 3);
    RunningBefore(s, strat, n + 2);
    RunningBefore(s, strat, n + 1);
    AlwaysBusy(s, strat, n);
    AlwaysBusy(s, strat, n + 1);
    AlwaysBusy(s, strat, n + 2);
    var a, b, c := Run(s, strat, n), Run(s, strat, n + 1), Run(s, strat, n + 2);
    CycleHasShape(a, strat);
    CycleHasShape(b, strat);
    CycleHasShape(c, strat);
    KindsAreApart(a.e);
    HeldBackNeedsLoad(a);
  }

  lemma HeldBackNeedsLoad(s: Machine)
    ensures HeldBack(s) ==> IsLoad(s.e.inst)
  {
  }

  /** Progress: a surviving run retires at least one instruction every three cycles, forever. */
  lemma {:induction false} AlwaysRetiring(s: Machine, strat: Strategy, n: nat, k: nat)
    requires Initial(s) && n > 0 && Run(s, strat, n + 3 * k).status.Running? && NoZeroFetched(s, strat, n + 3 * k)
    ensures Run(s, strat, n + 3 * k).perf.insts >= Run(s, strat, n).perf.insts + k
  {
    hide Cycle, Shaped, LatchesZero;
    if k > 0 {
      var m := n + 3 * (k - 1);
      assert n + 3 * k == m + 3;
      RunningBefore(s, strat, m + 3);
      RunningBefore(s, strat, m + 2);
      RunningBefore(s, strat, m + 1);
      AlwaysRetiring(s, strat, n, k - 1);
      RetiresWithinThree(s, strat, m);
    }
  }

  // Retirements.

  lemma MemLogs(m: MRegion, storage: Storage, log: seq<Retired>, perf: Perf)
    requires Shaped(storage) && MemStage(m, storage, log, perf).MemOut?
    ensures |MemStage(m, storage, log, perf).log| == |log| + Count(!m.inst.Bubble?)
  {
    hide Request, Within, FromBytes, ToBytes;
  }

  lemma CycleLogs(s: Machine, strat: Strategy)
    requires Wellformed(s) && s.status.Running? && Cycle(s, strat).status.Running?
    ensures |Cycle(s, strat).log| == |s.log| + Count(!s.m.inst.Bubble?)
  {
    hide MemStage, IdStage, IfStage, Syscall, ExResult, Shaped;
    MemLogs(s.m, s.storage, s.log, s.perf.(cycles := s.perf.cycles + 1));
  }

  /** The retirement log is as long as the instruction counter says. */
  lemma {:induction false} InstructionsAreLogged(s: Machine, strat: Strategy, n: nat)
    requires Initial(s) && Run(s, strat, n).status.Running?
    ensures var r := Run(s, strat, n);
            r.perf.insts == s.perf.insts + |r.log| && (IsLoad(r.e.inst) ==> r.e.destReg >= 0)
  {
    hide Cycle, Mispredicted, JumpInID, HeldBack, Shaped;
    if n > 0 {
      RunningBefore(s, strat, n);
      InstructionsAreLogged(s, strat, n - 1);
      var r := Run(s, strat, n - 1);
      CycleHasShape(r, strat);
      CycleLogs(r, strat);
    }
  }
}
