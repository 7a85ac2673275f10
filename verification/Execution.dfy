/** Whole runs of the pipeline against the reference machine. */
module Execution {
  import opened Wrappers
  import opened Bits
  import opened Address
  import opened Hierarchy
  import opened Coherence
  import opened Transparency
  import opened Isa
  import opened Pipeline
  import opened Sequential
  import opened Refinement
  import opened Accounting

  /** The reference state a machine starts from. */
  function Start(s: Machine): Arch
    requires Sound(s.storage)
  {
    Arch(s.f.predPC, s.reg, View(s.storage), [], [], true, 0)
  }

  /** Among the first n steps, up to the one that fails, no store changes the words of the two fetches after it. */
  predicate CodeStable(a: Arch, n: nat) {
    forall k :: 0 <= k < n && Slots(a, true, k).ok ==> StableAfter(Slots(a, true, k))
  }

  /** How many reference steps each stage is past. */
  datatype Depths = Depths(w: nat, m: nat, e: nat, d: nat, f: nat)

  predicate InOrder(k: Depths) {
    k.w <= k.m <= k.w + 1 && k.m <= k.e <= k.m + 1 && k.e <= k.d <= k.e + 1 && k.d <= k.f <= k.d + 1
  }

  /** How far each stage is after the edge: squashed, emptied, held back, or moved on. */
  function NextDepths(s: Machine, k: Depths): Depths {
    if Mispredicted(s.e) then Depths(k.m, k.e, k.d, k.d, k.d)
    else if JumpInID(s.d) then Depths(k.m, k.e, k.d, k.f, k.f)
    else if HeldBack(s) then Depths(k.m, k.e, k.d, k.d, k.f)
    else Depths(k.m, k.e, k.d, k.f, k.f + 1)
  }

  function DepthsAt(s: Machine, strat: Strategy, n: nat): (k: Depths)
    requires Wellformed(s)
    ensures InOrder(k) && k.f <= n
  {
    hide HeldBack, Mispredicted, JumpInID, Cycle;
    if n == 0 then Depths(0, 0, 0, 0, 0) else NextDepths(Run(s, strat, n - 1), DepthsAt(s, strat, n - 1))
  }

  lemma NextAt(s: Machine, strat: Strategy, n: nat)
    requires Wellformed(s)
    ensures Run(s, strat, n + 1) == Cycle(Run(s, strat, n), strat)
    ensures DepthsAt(s, strat, n + 1) == NextDepths(Run(s, strat, n), DepthsAt(s, strat, n))
  {
    hide NextDepths, Cycle;
  }

  lemma StagesFollow(s: Machine, strat: Strategy, n: nat)
    requires Wellformed(s)
    ensures var k, k' := DepthsAt(s, strat, n), DepthsAt(s, strat, n + 1);
            k'.w == k.m && k'.m == k.e && k'.e == k.d && k.d <= k'.d
  {
    hide HeldBack, Mispredicted, JumpInID, Cycle;
  }

  /** The reference states that many steps on. */
  function TrailAt(a: Arch, k: Depths): Trail {
    Trail(Slots(a, true, k.w), Slots(a, true, k.m), Slots(a, true, k.e), Slots(a, true, k.d), Slots(a, true, k.f))
  }

  lemma InitialInv(s: Machine, strat: Strategy)
    requires Initial(s) && Sound(s.storage)
    ensures var a := Start(s); Inv(s, Trail(a, a, a, a, a), strat)
  {
    hide Decode, Word, Execute, Taken, Step, Sound, View, Shaped, Skips, Performs;
  }

  lemma AdvanceIsNext(a: Arch, s: Machine, k: Depths)
    ensures Advance(s, TrailAt(a, k), HeldBack(s)) == TrailAt(a, NextDepths(s, k))
  {
    hide Slot, HeldBack, Mispredicted, JumpInID;
  }

  /**
   * Every state a surviving run reaches satisfies the invariant, along one run of the reference. Code need be
   * stable for the steps that have come to EX only.
   */
  lemma {:induction false} RunRefines(s: Machine, strat: Strategy, n: nat, steps: nat := n)
    requires Initial(s) && Sound(s.storage) && CodeStable(Start(s), steps) && Run(s, strat, n).status.Running?
    requires n > 0 ==> DepthsAt(s, strat, n - 1).e < steps
    ensures Inv(Run(s, strat, n), TrailAt(Start(s), DepthsAt(s, strat, n)), strat)
  {
    hide Cycle, Inv, Slot, Sound, StableAfter, NextDepths, Advance;
    var a := Start(s);
    if n == 0 {
      InitialInv(s, strat);
    } else {
      RunningBefore(s, strat, n);
      if n > 1 {
        StagesFollow(s, strat, n - 2);
      }
      RunRefines(s, strat, n - 1, steps);
      var k := DepthsAt(s, strat, n - 1);
      var t := TrailAt(a, k);
      assert t.e.ok ==> StableAfter(Slots(a, true, k.e));
      CycleRefines(Run(s, strat, n - 1), t, strat);
      AdvanceIsNext(a, Run(s, strat, n - 1), k);
    }
  }

  /** A machine state shows reference states: registers after WB, memory and retirements after MEM, output after EX. */
  predicate Shows(s: Machine, w: Arch, m: Arch, e: Arch)
    requires Wellformed(s) && Placed(s.storage)
  {
    s.reg == w.reg && View(s.storage) == m.mem && s.log == m.log && s.out == e.out
  }

  /**
   * Pipeline refinement: after any number of cycles that do not stop the process, registers, memory,
   * retirements and output are those of the reference after three nearby counts of steps, none of
   * which faulted.
   */
  lemma PipelineRefines(s: Machine, strat: Strategy, n: nat) returns (w: nat, m: nat, e: nat)
    requires Initial(s) && Sound(s.storage) && CodeStable(Start(s), n) && Run(s, strat, n).status.Running?
    ensures Placed(Run(s, strat, n).storage)
    ensures var a := Start(s);
            Shows(Run(s, strat, n), Slots(a, true, w), Slots(a, true, m), Slots(a, true, e)) &&
            Slots(a, true, m).ok && w <= m <= w + 1 && m <= e <= m + 1 && e <= n
    ensures WriteBackStage(Run(s, strat, n).w, Run(s, strat, n).reg) == Slots(Start(s), true, m).reg
  {
    hide Cycle, Slot, Sound, StageW, StageM, StageE, StageDF, View, CodeStable, WriteBackStage;
    RunRefines(s, strat, n);
    var k := DepthsAt(s, strat, n);
    var t := TrailAt(Start(s), k);
    SoundIsShaped(Run(s, strat, n).storage);
    WriteBackRefines(Run(s, strat, n).w, t.w, t.m);
    w, m, e := k.w, k.m, k.e;
  }

  // Stops.

  /** A stop in EX is the reference's own next step failing, with everything older complete. */
  lemma StopInExRefines(s: Machine, strat: Strategy, n: nat) returns (w: nat, e: nat)
    requires Initial(s) && Sound(s.storage) && CodeStable(Start(s), n)
    requires Run(s, strat, n).status.Running? && Run(s, strat, n + 1).status.StoppedInEX?
    ensures Placed(Run(s, strat, n + 1).storage)
    ensures var a := Start(s);
            Shows(Run(s, strat, n + 1), Slots(a, true, w), Slots(a, true, e), Slots(a, true, e)) &&
            Slots(a, true, e).ok && !Slots(a, true, e + 1).ok && w <= e <= w + 1
  {
    hide Cycle, Slot, Sound, StageW, StageM, StageE, StageDF, View, CodeStable, Inv;
    RunRefines(s, strat, n);
    var k := DepthsAt(s, strat, n);
    var t := TrailAt(Start(s), k);
    CycleStopInEx(Run(s, strat, n), t, strat);
    w, e := k.m, k.e;
    SoundIsShaped(Run(s, strat, n + 1).storage);
  }

  lemma CycleStopInEx(s: Machine, t: Trail, strat: Strategy)
    requires Inv(s, t, strat) && s.status.Running? && Cycle(s, strat).status.StoppedInEX?
    ensures var s' := Cycle(s, strat);
            Sound(s'.storage) && s'.reg == t.m.reg && View(s'.storage) == t.e.mem && s'.log == t.e.log &&
              s'.out == t.e.out &&
            t.e.ok && !s.e.inst.Bubble? && Performs(t.e) && !ExecutesFine(t.e, InstAt(t.e)) && !Step(t.e).ok
  {
    hide Decode, Word, Execute, Taken, Step, WriteBackStage, MemStage, Sound, View, Shaped, StageW, StageM, StageDF,
         ForwardsM, IdStage, IfStage, Syscall, ExResult;
    var perf := s.perf.(cycles := s.perf.cycles + 1);
    WriteBackRefines(s.w, t.w, t.m);
    MemRefines(s, t.m, t.e, perf, strat);
    var r := MemStage(s.m, s.storage, s.log, perf);
    ExStopIsReal(s.e, t.e, t.d, r.storage, r.perf, strat);
  }

  lemma ExStopIsReal(e: ERegion, a: Arch, a': Arch, storage: Storage, perf: Perf, strat: Strategy)
    requires StageE(e, a, a', strat) && Sound(storage) && Shaped(storage) && View(storage) == a.mem
    requires (!e.inst.Bubble? && !ExResult(e).defined) || Syscall(e, storage, a.out, perf).SysStop?
    ensures !e.inst.Bubble? && Performs(a) && !ExecutesFine(a, InstAt(a)) && !Step(a).ok
  {
    hide Decode, Word, Execute, Taken, FromBytes, ToBytes, ReadBytes, After, Sound, View, Shaped, PrintText, TextAt;
    StepPerforms(a);
    if ExResult(e).defined && e.valB == 0 {
      TextStopIsReal(storage, Wrap(e.valA), perf, U32);
    }
  }

  lemma {:induction false} TextStopIsReal(storage: Storage, addr: nat, perf: Perf, fuel: nat)
    requires Sound(storage) && Shaped(storage) && PrintText(storage, addr, perf, fuel).TextStop?
    ensures TextAt(View(storage), addr, fuel) == None
    decreases fuel
  {
    hide Touch, Sound, View, After;
    SoundIsShaped(storage);
    var mem, a := View(storage), addr % U32;
    if fuel > 0 {
      if Touch(storage, addr, Read(1), perf).Stuck? {
        ByteStuck(storage, addr, perf);
      } else {
        TouchRefines(storage, addr, Read(1), perf);
        AfterRead(mem, a, Read(1));
        var got := Touch(storage, addr, Read(1), perf);
        assert ReadBytes(mem, a, 1)[0] == if a in mem then mem[a] else 0;
        assert a in mem;
        if got.data[0] != 0 {
          TextStopIsReal(got.storage, addr + 1, got.perf, fuel - 1);
        }
      }
    }
  }

  lemma ByteStuck(storage: Storage, addr: nat, perf: Perf)
    requires Sound(storage) && Shaped(storage) && Touch(storage, addr, Read(1), perf).Stuck?
    ensures Placed(storage) && addr % U32 !in View(storage)
  {
    hide Request, View, Sound, Offset, BitAnd;
    SoundIsShaped(storage);
    match storage {
      case Memory(_, _, _) =>
      case Cache(l, _) => SplitRebuilds(l.cfg.geo, addr % U32);
    }
    RequestServes(storage, addr % U32, Read(1));
  }

  /** The access leaves the block (or the address space) that it starts in. */
  predicate LeavesBlock(storage: Storage, a: Arch)
    requires Shaped(storage) && Performs(a)
  {
    var i := InstAt(a);
    (IsLoad(i.kind) || IsStore(i.kind)) && !Within(storage, AddrAt(a, i), MemLen(i.kind))
  }

  /**
   * A stop in MEM, with everything older complete, is the reference's own next step failing, unless
   * that step's access leaves its block. No write-back and no refill can be the reason.
   */
  lemma StopInMemRefines(s: Machine, strat: Strategy, n: nat) returns (m: nat)
    requires Initial(s) && Sound(s.storage) && CodeStable(Start(s), n)
    requires Run(s, strat, n).status.Running? && Run(s, strat, n + 1).status.StoppedInMEM?
    ensures Placed(Run(s, strat, n + 1).storage) && Performs(Slots(Start(s), true, m))
    ensures var r, a := Run(s, strat, n + 1), Slots(Start(s), true, m);
            && r.reg == a.reg && View(r.storage) == a.mem && r.log == a.log && a.ok
            && (LeavesBlock(r.storage, a) || !Slots(Start(s), true, m + 1).ok)
  {
    hide Cycle, Slot, Sound, StageW, StageM, StageE, StageDF, View, CodeStable, Inv, Performs, LeavesBlock;
    RunRefines(s, strat, n);
    var k := DepthsAt(s, strat, n);
    var t := TrailAt(Start(s), k);
    CycleStopInMem(Run(s, strat, n), t, strat);
    m := k.m;
    SoundIsShaped(Run(s, strat, n + 1).storage);
  }

  lemma CycleStopInMem(s: Machine, t: Trail, strat: Strategy)
    requires Inv(s, t, strat) && s.status.Running? && Cycle(s, strat).status.StoppedInMEM?
    ensures var s' := Cycle(s, strat);
            && Sound(s'.storage) && s'.reg == t.m.reg && View(s'.storage) == t.m.mem && s'.log == t.m.log && t.m.ok
            && !s.m.inst.Bubble? && Performs(t.m) && (LeavesBlock(s'.storage, t.m) || !Step(t.m).ok)
  {
    hide Decode, Word, Execute, Taken, Step, WriteBackStage, MemStage, Sound, View, Shaped, StageW, StageM, StageE,
         StageDF, IdStage, IfStage, Syscall, ExResult, LeavesBlock, Performs;
    var perf := s.perf.(cycles := s.perf.cycles + 1);
    WriteBackRefines(s.w, t.w, t.m);
    AfterMemNeverStopsInMem(s, perf, strat);
    MemStopIsReal(s, t.m, t.e, perf, strat);
  }

  lemma AfterMemNeverStopsInMem(s: Machine, perf: Perf, strat: Strategy)
    requires Wellformed(s) && s.status.Running? && perf == s.perf.(cycles := s.perf.cycles + 1)
    requires Cycle(s, strat).status.StoppedInMEM?
    ensures MemStage(s.m, s.storage, s.log, perf).MemStop?
  {
    hide MemStage, WriteBackStage, IdStage, IfStage, Syscall, ExResult;
  }

  lemma MemStopIsReal(s: Machine, a: Arch, a': Arch, perf: Perf, strat: Strategy)
    requires Sound(s.storage) && Shaped(s.storage) && View(s.storage) == a.mem && StageM(s.m, a, a', strat)
    requires MemStage(s.m, s.storage, s.log, perf).MemStop?
    ensures !s.m.inst.Bubble? && Performs(a) && (LeavesBlock(s.storage, a) || !Step(a).ok)
  {
    hide Decode, Word, Execute, FromBytes, ToBytes, ReadBytes, After, Sound, View, Shaped, Taken, Request, Offset,
         BitAnd;
    StepPerforms(a);
    var i := InstAt(a);
    if !LeavesBlock(s.storage, a) {
      var op := if s.m.memRead then Read(s.m.memLen) else Write(ToBytes(Wrap(s.m.valB), s.m.memLen));
      RequestServes(s.storage, AddrAt(a, i), op);
    }
  }
}
