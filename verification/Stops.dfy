/** Stops in ID and IF: exactly which words and which addresses end the process there. */
module Stops {
  import opened Wrappers
  import opened Bits
  import opened Address
  import opened Hierarchy
  import opened Transparency
  import opened Isa
  import opened Pipeline
  import opened Sequential
  import opened Refinement
  import opened Execution
  import opened Accounting
  import opened WrongPaths

  predicate StoppedInFront(s: Machine) { s.status.StoppedInID? || s.status.StoppedInIF? }

  /** What such a stop leaves: WB and MEM have run, and the system call in EX has printed. */
  lemma CycleStopInFront(s: Machine, t: Trail, strat: Strategy)
    requires Inv(s, t, strat) && s.status.Running? && StoppedInFront(Cycle(s, strat))
    ensures var s' := Cycle(s, strat);
            && Sound(s'.storage) && s'.reg == t.m.reg && View(s'.storage) == t.e.mem && s'.log == t.e.log
            && s'.out == t.d.out && t.e.ok
  {
    hide Decode, Word, Execute, Taken, Step, WriteBackStage, MemStage, Sound, View, Shaped, StageW, StageM, StageDF,
         ForwardsM, StageE, IdStage, IfStage, Syscall, ExResult, Performs, CallAt;
    var perf := s.perf.(cycles := s.perf.cycles + 1);
    WriteBackRefines(s.w, t.w, t.m);
    MemRefines(s, t.m, t.e, perf, strat);
    var r := MemStage(s.m, s.storage, s.log, perf);
    SyscallRefines(s.e, t.e, t.d, r.storage, r.perf, strat);
  }

  predicate StoppedInBack(s: Machine) { s.status.StoppedInMEM? || s.status.StoppedInEX? }

  /** A cycle gets past EX only with an instruction that the reference can execute. */
  lemma CyclePassesEx(s: Machine, t: Trail, strat: Strategy)
    requires Inv(s, t, strat) && s.status.Running? && !StoppedInBack(Cycle(s, strat)) && !s.e.inst.Bubble?
    ensures ExecutesFine(t.e, InstAt(t.e))
  {
    hide Decode, Word, Execute, Taken, Step, WriteBackStage, MemStage, Sound, View, Shaped, StageW, StageM, StageDF,
         ForwardsM, StageE, IdStage, IfStage, Syscall, ExResult, Performs, CallAt;
    var perf := s.perf.(cycles := s.perf.cycles + 1);
    MemRefines(s, t.m, t.e, perf, strat);
    var r := MemStage(s.m, s.storage, s.log, perf);
    SyscallRefines(s.e, t.e, t.d, r.storage, r.perf, strat);
    SameInEx(s.e, t.e, t.d, strat);
  }

  lemma SameInEx(e: ERegion, a: Arch, a': Arch, strat: Strategy)
    requires StageE(e, a, a', strat) && !e.inst.Bubble?
    ensures ExResult(e) == ResultAt(a, InstAt(a)) && e.inst == InstAt(a).kind
  {
    hide Decode, Word, Execute;
  }

  /**
   * After a stop in ID or IF, WB and MEM have run and the system call in EX has printed: three nearby counts of
   * steps.
   */
  lemma StopInFrontRefines(s: Machine, strat: Strategy, n: nat) returns (w: nat, m: nat, e: nat)
    requires Initial(s) && Sound(s.storage) && CodeStable(Start(s), n)
    requires Run(s, strat, n).status.Running? && StoppedInFront(Run(s, strat, n + 1))
    ensures Placed(Run(s, strat, n + 1).storage)
    ensures var a := Start(s);
            && Shows(Run(s, strat, n + 1), Slots(a, true, w), Slots(a, true, m), Slots(a, true, e))
            && Slots(a, true, m).ok && w <= m <= w + 1 && m <= e <= m + 1
  {
    hide Cycle, Slot, Sound, StageW, StageM, StageE, StageDF, View, CodeStable, Mispredicted, Decode;
    RunRefines(s, strat, n);
    var k := DepthsAt(s, strat, n);
    CycleStopInFront(Run(s, strat, n), TrailAt(Start(s), k), strat);
    SoundIsShaped(Run(s, strat, n + 1).storage);
    w, m, e := k.m, k.e, k.d;
  }

  // ID.

  predicate Readable(w: nat) { w == 0 || Decode(w).Some? }

  /** The word in D, in terms of the steps that EX and D stand for. */
  function WordInID(s: Machine, a: Arch, k: Depths, strat: Strategy): nat {
    if Mispredicted(s.e) then WrongWord(a, k.e, strat)
    else if s.d.inst == 0 then 0
    else Word(Slots(a, true, k.d).mem, Slots(a, true, k.d).pc)
  }

  lemma HoldsWord(s: Machine, a: Arch, k: Depths, strat: Strategy)
    requires Inv(s, TrailAt(a, k), strat) && InOrder(k) && WrongPath(s, a, k, strat)
    ensures s.d.inst == WordInID(s, a, k, strat)
  {
    hide Sound, View, Shaped, StageW, StageM, StageE, Decode, Word, Slot, Fetchable, Mispredicted, PredictedPC;
  }

  lemma IdStopCause(s: Machine, strat: Strategy)
    requires Wellformed(s) && s.status.Running? && !StoppedInBack(Cycle(s, strat))
    ensures Cycle(s, strat).status.StoppedInID? <==> !Readable(s.d.inst)
  {
    hide Decode, MemStage, WriteBackStage, IfStage, Syscall, ExResult, Shaped, ExForward, OperandOf, Taken;
  }

  /**
   * Once MEM and EX have passed, ID stops the process exactly on an unknown word, on the path or behind a wrong
   * guess.
   */
  lemma StopInIdIff(s: Machine, strat: Strategy, n: nat, steps: nat := n)
    requires Initial(s) && Sound(s.storage) && CodeStable(Start(s), steps) && Run(s, strat, n).status.Running?
    requires n > 0 ==> DepthsAt(s, strat, n - 1).e < steps
    requires !StoppedInBack(Run(s, strat, n + 1))
    ensures Run(s, strat, n + 1).status.StoppedInID? <==>
            !Readable(WordInID(Run(s, strat, n), Start(s), DepthsAt(s, strat, n), strat))
  {
    hide Cycle, Slot, Sound, Inv, CodeStable, Readable, WordInID, QuietGaps, WrongPath;
    RunTracks(s, strat, n, steps);
    HoldsWord(Run(s, strat, n), Start(s), DepthsAt(s, strat, n), strat);
    IdStopCause(Run(s, strat, n), strat);
  }

  // IF.

  /** A word fits in a block: the only thing an aligned fetch asks of the caches. */
  predicate WideBlocks(st: Storage)
    requires Shaped(st)
  {
    st.Cache? ==> st.level.cfg.geo.BlockSize() >= 4
  }

  lemma FetchFits(st: Storage, pc: nat)
    requires Shaped(st) && pc % 4 == 0
    ensures Within(st, pc % U32, 4) <==> WideBlocks(st)
  {
    hide Pow2, BitAnd;
    RemainderOfRemainder(pc, 4, 0x4000_0000);
    match st {
      case Memory(_, _, _) =>
      case Cache(l, _) =>
        var g := l.cfg.geo;
        SplitIsDivision(g, pc % U32);
        if g.offBits < 2 {
          SmallBlocks(g);
        } else {
          WordsInBlock(g.offBits, pc % U32);
        }
    }
  }

  lemma SmallBlocks(g: Geometry)
    requires g.offBits < 2
    ensures g.BlockSize() < 4
  {
    assert Pow2(1) == 2;
  }

  lemma WordsInBlock(n: nat, addr: nat)
    requires n >= 2 && addr % 4 == 0
    ensures Pow2(n) >= 4 && addr % Pow2(n) + 4 <= Pow2(n)
  {
    assert Pow2(2) == 4 by { assert Pow2(1) == 2; }
    Pow2Add(2, n - 2);
    hide Pow2;
    RoomForWord(addr, Pow2(n - 2));
  }

  lemma RoomForWord(addr: nat, p: nat)
    requires p > 0 && addr % 4 == 0
    ensures addr % (4 * p) + 4 <= 4 * p
  {
    RemainderOfRemainder(addr, 4, p);
    RemainderBelow(addr % (4 * p), 4 * p);
  }

  lemma RemainderBelow(r: nat, q: nat)
    requires r < q && r % 4 == 0 && q % 4 == 0
    ensures r + 4 <= q
  {
  }

  lemma SameChainSameWidth(st: Storage, st': Storage)
    requires Shaped(st) && Shaped(st') && SameChain(st, st')
    ensures WideBlocks(st) <==> WideBlocks(st')
  {
    assert st.Cache? ==> Configs(st)[0] == st.level.cfg;
    assert st'.Cache? ==> Configs(st')[0] == st'.level.cfg;
  }

  lemma IfStopCause(s: Machine, strat: Strategy) returns (storage: Storage, perf: Perf)
    requires Wellformed(s) && s.status.Running? && Cycle(s, strat).status.StoppedInIF?
    ensures storage == Cycle(s, strat).storage && Shaped(storage)
    ensures IfStage(FetchPC(s.f, s.e, s.m), storage, perf, strat).FetchStop?
  {
    hide Decode, MemStage, WriteBackStage, IfStage, Syscall, ExResult, Shaped, ExForward, OperandOf, Taken, FetchPC;
    var r := MemStage(s.m, s.storage, s.log, s.perf.(cycles := s.perf.cycles + 1));
    var sys := Syscall(s.e, r.storage, s.out, r.perf);
    storage, perf := sys.storage, sys.perf;
  }

  lemma IfStopIsReal(storage: Storage, pc: nat, perf: Perf, strat: Strategy)
    requires Sound(storage) && Shaped(storage) && IfStage(pc, storage, perf, strat).FetchStop?
    ensures Fetchable(View(storage), pc) ==> !WideBlocks(storage)
  {
    hide Sound, View, Offset, BitAnd, Request, WideBlocks, Pow2;
    SoundIsShaped(storage);
    if Fetchable(View(storage), pc) && WideBlocks(storage) {
      FetchFits(storage, pc);
      RequestServes(storage, pc % U32, Read(4));
    }
  }

  /** A cycle gets past IF exactly if a word at the fetch address can be had. */
  lemma CycleStopInIf(s: Machine, t: Trail, strat: Strategy)
    requires Inv(s, t, strat) && s.status.Running? && !StoppedInBack(Cycle(s, strat))
    requires !Cycle(s, strat).status.StoppedInID?
    ensures Cycle(s, strat).status.StoppedInIF? <==>
            !(WideBlocks(s.storage) && Fetchable(t.e.mem, FetchPC(s.f, s.e, s.m)))
  {
    hide Cycle, Sound, View, Shaped, StageW, StageM, StageE, StageDF, FetchPC, WideBlocks;
    var s' := Cycle(s, strat);
    SameChainSameWidth(s.storage, s'.storage);
    if s'.status.StoppedInIF? {
      CycleStopInFront(s, t, strat);
      var storage, perf := IfStopCause(s, strat);
      IfStopIsReal(storage, FetchPC(s.f, s.e, s.m), perf, strat);
    } else {
      CycleFetches(s, t, strat);
      FetchFits(s.storage, FetchPC(s.f, s.e, s.m));
    }
  }

  lemma {:induction false} PathKeepsPages(a: Arch, k: nat)
    ensures Slots(a, true, k).mem.Keys == a.mem.Keys
  {
    hide Slot;
    if k > 0 {
      PathKeepsPages(a, k - 1);
      StepKeepsPages(Slots(a, true, k - 1));
    }
  }

  /**
   * Once ID has passed too, IF stops the process exactly if the next fetch, kept or not, finds no allocated aligned
   * word.
   */
  lemma StopInIfIff(s: Machine, strat: Strategy, n: nat, steps: nat := n)
    requires Initial(s) && Sound(s.storage) && CodeStable(Start(s), steps) && Run(s, strat, n).status.Running?
    requires n > 0 ==> DepthsAt(s, strat, n - 1).e < steps
    requires !StoppedInBack(Run(s, strat, n + 1)) && !Run(s, strat, n + 1).status.StoppedInID?
    ensures Run(s, strat, n + 1).status.StoppedInIF? <==>
            var a, pc := Start(s), FetchAddress(Run(s, strat, n), Start(s), DepthsAt(s, strat, n), strat);
            !(WideBlocks(s.storage) && Fetchable(a.mem, pc))
  {
    hide Cycle, Slot, Sound, Inv, CodeStable, WideBlocks, FetchAddress, QuietGaps, WrongPath;
    RunTracks(s, strat, n, steps);
    var r, a, k := Run(s, strat, n), Start(s), DepthsAt(s, strat, n);
    FetchesThere(r, a, k, strat);
    CycleStopInIf(r, TrailAt(a, k), strat);
    PathKeepsPages(a, k.e);
    SameChainSameWidth(s.storage, r.storage);
  }
}
