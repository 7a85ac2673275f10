/** In which cycle each step of the program executes, and what the simulator has counted by then. */
module Schedule {
  import opened Wrappers
  import opened Bits
  import opened Hierarchy
  import opened Transparency
  import opened Isa
  import opened Pipeline
  import opened Sequential
  import opened Refinement
  import opened Accounting
  import opened Execution
  import opened WrongPaths
  import opened Survival

  // What a step costs.

  /** The word here is a jump. */
  predicate JumpAt(a: Arch) { JumpInID(DRegion(0, Word(a.mem, a.pc), 0, false)) }

  /** The word here reads the register that the step just before has loaded. */
  predicate Waits(a: Arch) {
    var w := Word(a.mem, a.pc);
    && w != 0 && Decode(w).Some? && a.lastLoad != 0
    && (Decode(w).value.rs1 == a.lastLoad || Decode(w).value.rs2 == a.lastLoad)
  }

  /**
   * The bubbles behind step j: two behind a mispredicted branch, one behind a jump or a load that the next step
   * needs.
   */
  function Cost(a: Arch, j: nat, strat: Strategy): nat {
    var b, c := Slots(a, true, j), Slots(a, true, j + 1);
    if Mispredicts(b, strat) then 2 else if JumpAt(b) || (Waits(c) && !JumpAt(c)) then 1 else 0
  }

  function Penalties(a: Arch, j: nat, strat: Strategy): nat {
    if j == 0 then 0 else Penalties(a, j - 1, strat) + Cost(a, j - 1, strat)
  }

  /** The cycle after which EX holds step j. */
  function ExTime(a: Arch, j: nat, strat: Strategy): nat { j + 2 + Penalties(a, j, strat) }

  /**
   * E holds the step it stands for, or one bubble, with the step waiting in D, or two. Behind a jump D is empty, and a
   * zero word in D is a step too.
   */
  predicate OnTime(s: Machine, a: Arch, k: Depths, n: nat, strat: Strategy) {
    && n + (if k.d == k.e + 1 then 0 else if k.f == k.d + 1 then 1 else 2) == ExTime(a, k.e, strat)
    && (k.d == k.e + 1 && !Mispredicted(s.e) ==> (k.f == k.d <==> JumpAt(Slots(a, true, k.e))))
    && (s.d.inst == 0 && k.f == k.d + 1 && !Mispredicted(s.e) ==>
          Word(Slots(a, true, k.d).mem, Slots(a, true, k.d).pc) == 0)
  }

  /** The word that a cycle latches from the right path is the reference's. */
  lemma LatchesOnPath(s: Machine, a: Arch, k: Depths, strat: Strategy)
    requires OnTrack(s, a, k, strat) && OnTrack(Cycle(s, strat), a, NextDepths(s, k), strat)
    requires (Slots(a, true, k.e).ok ==> StableAfter(Slots(a, true, k.e)))
    requires MovesOn(s) && !Mispredicted(Cycle(s, strat).e)
    ensures Cycle(s, strat).d.inst == Word(Slots(a, true, k.f).mem, Slots(a, true, k.f).pc)
  {
    hide Cycle, Sound, View, Shaped, StageW, StageM, Decode, Word, Slot, QuietGaps, WrongPath, Performs, Skips,
         HeldBack, JumpInID, Mispredicted, PredictedPC, FetchPC, Fetchable, StableAfter, ExResult;
    var s', t, t' := Cycle(s, strat), TrailAt(a, k), TrailAt(a, NextDepths(s, k));
    CycleFetches(s, t, strat);
    MemKeepsOk(s, t, strat);
    AtMostTwoAhead(s, t, strat);
    RightFetch(s, s', t, t', strat);
  }

  lemma RightFetch(s: Machine, s': Machine, t: Trail, t': Trail, strat: Strategy)
    requires Stages(s, t, strat) && StageE(s'.e, t'.e, t'.d, strat) && t'.e == t.d
    requires MovesOn(s) && !Mispredicted(s'.e) && CycleShape(s, s')
    requires s.d.inst == 0 || Decode(s.d.inst).Some?
    ensures FetchPC(s.f, s.e, s.m) == t.f.pc
  {
    hide Decode, Word, Execute, Taken, Step, FetchPC, Fetchable, WellDecoded, HeldBack, StageM, Mispredicted;
    if s.d.inst != 0 && !s.m.wrong && !IsJump(s.e.inst) {
      WordDecodes(s.d.inst);
    }
    FetchGoesRight(s, t, strat);
  }

  /** What D and E hold says of the steps they stand for. */
  lemma HeldIffWaits(s: Machine, a: Arch, k: Depths, strat: Strategy)
    requires OnTrack(s, a, k, strat) && k.d == k.e + 1
    ensures HeldBack(s) && !Mispredicted(s.e) ==> k.f == k.d + 1 && Waits(Slots(a, true, k.d))
    ensures Waits(Slots(a, true, k.d)) && s.d.inst != 0 && !Mispredicted(s.e) ==> HeldBack(s)
    ensures Waits(Slots(a, true, k.d)) ==> !s.e.inst.Bubble? && !IsJump(s.e.inst) && !Mispredicted(s.e)
  {
    hide Sound, View, Shaped, StageW, StageM, Decode, Word, Slot, QuietGaps, WrongPath, Performs, Skips,
         Mispredicted, PredictedPC, ExResult;
    InvPlaces(s, a, k, strat);
    KindsAreApart(s.e);
    HeldBackNeedsLoad(s);
    var b, d := Slots(a, true, k.e), Slots(a, true, k.d);
    assert d == Step(b);
    if s.e.inst.Bubble? {
      SkipLeavesNoLoad(b);
    } else {
      LoadHasDest(b);
    }
  }

  lemma SkipLeavesNoLoad(a: Arch)
    requires Skips(a)
    ensures Step(a).lastLoad == 0
  {
    hide Decode, Word, Fetchable;
  }

  lemma JumpInIDIsJumpAt(s: Machine, a: Arch, k: Depths, strat: Strategy)
    requires OnTrack(s, a, k, strat) && !Mispredicted(s.e)
    ensures s.d.inst != 0 ==> k.f == k.d + 1 && s.d.inst == Word(Slots(a, true, k.d).mem, Slots(a, true, k.d).pc)
    ensures s.d.inst != 0 ==> (JumpInID(s.d) <==> JumpAt(Slots(a, true, k.d)))
  {
    hide Sound, View, Shaped, StageW, StageM, StageE, Decode, Word, Slot, QuietGaps, WrongPath, Skips, Mispredicted,
         PredictedPC, ExResult, Fetchable, Opcode;
    InvPlaces(s, a, k, strat);
  }

  lemma EMispredicts(s: Machine, a: Arch, k: Depths, strat: Strategy)
    requires OnTrack(s, a, k, strat)
    ensures Mispredicted(s.e) ==> k.d == k.e + 1 && Mispredicts(Slots(a, true, k.e), strat)
    ensures !Mispredicted(s.e) && k.d == k.e + 1 ==> !Mispredicts(Slots(a, true, k.e), strat)
  {
    hide Sound, View, Shaped, StageW, StageM, StageDF, Decode, Word, Slot, QuietGaps, WrongPath, Skips,
         Mispredicted, Performs;
    InvPlaces(s, a, k, strat);
    KindsAreApart(s.e);
    if s.e.inst.Bubble? && k.d == k.e + 1 {
      SkipDoesNotPerform(Slots(a, true, k.e));
    }
  }

  lemma ZeroDoesNothing(a: Arch)
    requires Word(a.mem, a.pc) == 0
    ensures !JumpAt(a) && !Waits(a)
  {
    hide Word, Decode;
    ZeroNeverJumps(DRegion(0, 0, 0, false));
  }

  /** The schedule is kept by every surviving cycle. */
  lemma OnTimeKept(s: Machine, a: Arch, k: Depths, n: nat, strat: Strategy)
    requires OnTrack(s, a, k, strat) && OnTrack(Cycle(s, strat), a, NextDepths(s, k), strat)
    requires (Slots(a, true, k.e).ok ==> StableAfter(Slots(a, true, k.e)))
    requires OnTime(s, a, k, n, strat)
    ensures OnTime(Cycle(s, strat), a, NextDepths(s, k), n + 1, strat)
  {
    hide Cycle, Inv, Slots, HeldBack, JumpInID, Mispredicted, Skips, QuietGaps, WrongPath, Shaped, JumpAt, Waits,
         Mispredicts, Word, StableAfter, Decode;
    var s', k' := Cycle(s, strat), NextDepths(s, k);
    InvPlaces(s, a, k, strat);
    InvPlaces(s', a, k', strat);
    CycleFetches(s, TrailAt(a, k), strat);
    EMispredicts(s, a, k, strat);
    HeldBackNeedsD(s);
    KindsAreApart(s.e);
    ZeroNeverJumps(s.d);
    if Mispredicted(s.e) {
    } else {
      JumpInIDIsJumpAt(s, a, k, strat);
      if k.d == k.e + 1 {
        HeldIffWaits(s, a, k, strat);
      } else {
        NotHeldAlone(s, a, k, strat);
      }
      if s.d.inst == 0 && k.f == k.d + 1 {
        ZeroDoesNothing(Slots(a, true, k.d));
      }
      if MovesOn(s) && !Mispredicted(s'.e) {
        LatchesOnPath(s, a, k, strat);
      }
    }
  }

  lemma HeldBackNeedsD(s: Machine)
    ensures HeldBack(s) ==> s.d.inst != 0 && IsLoad(s.e.inst)
  {
    hide Decode;
  }

  lemma NotHeldAlone(s: Machine, a: Arch, k: Depths, strat: Strategy)
    requires OnTrack(s, a, k, strat) && k.d == k.e
    ensures !HeldBack(s) && !Mispredicted(s.e)
  {
    hide Inv, Slots, HeldBack, Mispredicted, QuietGaps, WrongPath, Skips;
    InvPlaces(s, a, k, strat);
    HeldBackNeedsD(s);
    KindsAreApart(s.e);
  }

  lemma StartsOnTime(s: Machine, a: Arch, strat: Strategy)
    requires s.d == ZERO_D && s.e == ZERO_E
    ensures OnTime(s, a, Depths(0, 0, 0, 0, 0), 0, strat)
  {
  }

  // Counters.

  function Mispredictions(a: Arch, j: nat, strat: Strategy): nat {
    if j == 0 then 0 else Mispredictions(a, j - 1, strat) + Count(Mispredicts(Slots(a, true, j - 1), strat))
  }

  /** The reference performs a branch here that the strategy predicts rightly. */
  predicate Predicts(a: Arch, strat: Strategy) {
    Performs(a) && IsBranch(InstAt(a).kind) && !Mispredicts(a, strat)
  }

  function RightPredictions(a: Arch, j: nat, strat: Strategy): nat {
    if j == 0 then 0 else RightPredictions(a, j - 1, strat) + Count(Predicts(Slots(a, true, j - 1), strat))
  }

  /** Among the first j steps, those whose load the next step reads, lost jumps included. */
  function LoadUses(a: Arch, j: nat): nat {
    if j == 0 then 0 else LoadUses(a, j - 1) + Count(Waits(Slots(a, true, j)))
  }

  function Jumps(a: Arch, j: nat): nat {
    if j == 0 then 0 else Jumps(a, j - 1) + Count(JumpAt(Slots(a, true, j - 1)))
  }

  /** The mispredicted branches that have a jump fetched in their place. */
  function WrongJumps(a: Arch, j: nat, strat: Strategy): nat {
    if j == 0 then 0
    else
      WrongJumps(a, j - 1, strat) +
      Count(Mispredicts(Slots(a, true, j - 1), strat) && JumpInID(DRegion(0, WrongWord(a, j - 1, strat), 0, false)))
  }

  /** What has been counted since the counters showed p, by the program. */
  predicate Counted(p: Perf, q: Perf, a: Arch, k: Depths, n: nat, strat: Strategy) {
    && q.cycles - p.cycles == n
    && q.mispredict - p.mispredict == Mispredictions(a, k.e, strat)
    && q.correct - p.correct == RightPredictions(a, k.e, strat)
    && q.loadUse - p.loadUse == LoadUses(a, k.e)
    && q.jumps - p.jumps == Jumps(a, k.d) + WrongJumps(a, k.e, strat)
    && q.control - p.control == (q.jumps - p.jumps) + (q.mispredict - p.mispredict)
  }

  /** What one surviving cycle adds to the counters of hazards. */
  predicate Adds(s: Machine, p: Perf, q: Perf) {
    && q.cycles == p.cycles + 1 && q.mispredict == p.mispredict + Count(Mispredicted(s.e))
    && q.correct == p.correct + Count(IsBranch(s.e.inst) && !Mispredicted(s.e))
    && q.loadUse == p.loadUse + Count(HeldBack(s)) && q.jumps == p.jumps + Count(JumpInID(s.d))
    && q.control == p.control + Count(JumpInID(s.d)) + Count(Mispredicted(s.e))
  }

  predicate SameHazards(p: Perf, q: Perf) {
    && q.cycles == p.cycles && q.mispredict == p.mispredict && q.correct == p.correct && q.loadUse == p.loadUse
    && q.jumps == p.jumps && q.control == p.control
  }

  lemma {:induction false} TextHazards(storage: Storage, addr: nat, perf: Perf, fuel: nat)
    requires Shaped(storage) && PrintText(storage, addr, perf, fuel).TextOut?
    ensures SameHazards(perf, PrintText(storage, addr, perf, fuel).perf)
    decreases fuel
  {
    hide Request, Within;
    var got := Touch(storage, addr, Read(1), perf);
    if got.data[0] != 0 {
      TextHazards(got.storage, addr + 1, got.perf, fuel - 1);
    }
  }

  lemma SyscallHazards(e: ERegion, storage: Storage, out: seq<Output>, perf: Perf)
    requires Shaped(storage) && Syscall(e, storage, out, perf).SysOut?
    ensures SameHazards(perf, Syscall(e, storage, out, perf).perf)
  {
    hide PrintText;
    if e.inst.Ecall? && e.valB == 0 {
      TextHazards(storage, Wrap(e.valA), perf, U32);
    }
  }

  lemma MemHazards(m: MRegion, storage: Storage, log: seq<Retired>, perf: Perf)
    requires Shaped(storage) && MemStage(m, storage, log, perf).MemOut?
    ensures SameHazards(perf, MemStage(m, storage, log, perf).perf)
  {
    hide Request, Within, FromBytes, ToBytes;
  }

  lemma FetchHazards(pc: nat, storage: Storage, perf: Perf, strat: Strategy)
    requires Shaped(storage) && IfStage(pc, storage, perf, strat).FetchOut?
    ensures SameHazards(perf, IfStage(pc, storage, perf, strat).perf)
  {
    hide Request, Within, FromBytes, PredictedPC, OtherPC, TakeBranch;
  }

  lemma CycleAdds(s: Machine, strat: Strategy)
    requires Wellformed(s) && s.status.Running? && Cycle(s, strat).status.Running?
    requires IsLoad(s.e.inst) ==> s.e.destReg >= 0
    ensures Adds(s, s.perf, Cycle(s, strat).perf)
  {
    hide AfterMem, MemStage, Shaped, IdStage, IfStage, Syscall, Mispredicted, JumpInID, HeldBack, LoadUse, IsBranch,
         Count, ExForward, FetchPC, EdgeF, EdgeD, EdgeE, ExStage, Latched;
    var p := s.perf.(cycles := s.perf.cycles + 1);
    MemHazards(s.m, s.storage, s.log, p);
    var reg, r := WriteBackStage(s.w, s.reg), MemStage(s.m, s.storage, s.log, p);
    var id, sys, fi := AfterMemFields(s, reg, r.w, r.fwd, r.storage, r.log, r.perf, strat);
    SyscallHazards(s.e, r.storage, s.out, r.perf);
    FetchHazards(FetchPC(s.f, s.e, s.m), sys.storage, sys.perf, strat);
    HoldIsHeldBack(s, reg, r.fwd, ExForward(s.e));
  }

  lemma BranchInExCounts(s: Machine, a: Arch, k: Depths, strat: Strategy)
    requires OnTrack(s, a, k, strat)
    ensures k.d == k.e + 1 ==>
              (IsBranch(s.e.inst) && !Mispredicted(s.e) <==> Predicts(Slots(a, true, k.e), strat)) &&
              (Mispredicted(s.e) <==> Mispredicts(Slots(a, true, k.e), strat))
    ensures k.d == k.e ==> !IsBranch(s.e.inst) && !Mispredicted(s.e) && !HeldBack(s)
  {
    hide Sound, View, Shaped, StageW, StageM, StageDF, Decode, Word, Slots, QuietGaps, WrongPath, Skips,
         Mispredicted, Performs, HeldBack;
    InvPlaces(s, a, k, strat);
    EMispredicts(s, a, k, strat);
    HeldBackNeedsD(s);
    if s.e.inst.Bubble? && k.d == k.e + 1 {
      SkipDoesNotPerform(Slots(a, true, k.e));
    }
  }

  lemma HeldCounts(s: Machine, a: Arch, k: Depths, n: nat, strat: Strategy)
    requires OnTrack(s, a, k, strat) && OnTime(s, a, k, n, strat) && k.d == k.e + 1
    ensures HeldBack(s) <==> Waits(Slots(a, true, k.d))
  {
    hide Inv, Slots, HeldBack, JumpInID, Skips, QuietGaps, WrongPath, Shaped, Waits, Mispredicts, JumpAt, Word,
         Mispredicted;
    InvPlaces(s, a, k, strat);
    HeldIffWaits(s, a, k, strat);
    HeldBackNeedsD(s);
    KindsAreApart(s.e);
    if Waits(Slots(a, true, k.d)) {
      NoJumpBefore(s, a, k, strat);
      if s.d.inst == 0 {
        ZeroDoesNothing(Slots(a, true, k.d));
      }
    }
  }

  lemma NoJumpBefore(s: Machine, a: Arch, k: Depths, strat: Strategy)
    requires OnTrack(s, a, k, strat) && !s.e.inst.Bubble? && !IsJump(s.e.inst)
    ensures !JumpAt(Slots(a, true, k.e))
  {
    hide Sound, View, Shaped, StageW, StageM, StageDF, Decode, Word, Slots, QuietGaps, WrongPath, Mispredicted,
         Fetchable, Opcode;
    WordDecodes(Word(Slots(a, true, k.e).mem, Slots(a, true, k.e).pc));
  }

  lemma JumpCounts(s: Machine, a: Arch, k: Depths, n: nat, strat: Strategy)
    requires OnTrack(s, a, k, strat) && OnTime(s, a, k, n, strat)
    ensures Mispredicted(s.e) ==> (JumpInID(s.d) <==> JumpInID(DRegion(0, WrongWord(a, k.e, strat), 0, false)))
    ensures !Mispredicted(s.e) && k.f == k.d + 1 ==> (JumpInID(s.d) <==> JumpAt(Slots(a, true, k.d)))
    ensures !Mispredicted(s.e) && k.f == k.d ==> !JumpInID(s.d)
  {
    hide Inv, Slots, HeldBack, Skips, QuietGaps, Shaped, Waits, Mispredicts, Word, Mispredicted, Opcode, WrongWord;
    InvPlaces(s, a, k, strat);
    ZeroNeverJumps(s.d);
    if !Mispredicted(s.e) {
      JumpInIDIsJumpAt(s, a, k, strat);
      if s.d.inst == 0 && k.f == k.d + 1 {
        ZeroDoesNothing(Slots(a, true, k.d));
      }
    }
  }

  lemma CountedKept(s: Machine, a: Arch, k: Depths, n: nat, p: Perf, q: Perf, strat: Strategy)
    requires OnTrack(s, a, k, strat) && OnTime(s, a, k, n, strat)
    requires Counted(p, s.perf, a, k, n, strat) && Adds(s, s.perf, q)
    ensures Counted(p, q, a, NextDepths(s, k), n + 1, strat)
  {
    hide Inv, Slots, HeldBack, JumpInID, Mispredicted, Skips, QuietGaps, WrongPath, Shaped, JumpAt, Waits,
         Mispredicts, Predicts, OnTime, WrongWord;
    BranchInExCounts(s, a, k, strat);
    JumpCounts(s, a, k, n, strat);
    EMispredicts(s, a, k, strat);
    HeldBackNeedsD(s);
    InvPlaces(s, a, k, strat);
    if k.d == k.e + 1 {
      HeldCounts(s, a, k, n, strat);
    }
  }

  lemma NothingCounted(p: Perf, a: Arch, strat: Strategy)
    ensures Counted(p, p, a, Depths(0, 0, 0, 0, 0), 0, strat)
  {
  }

  /** Over a surviving run the schedule is kept, and every counter is what the program says. */
  lemma {:induction false} RunOnTime(s: Machine, strat: Strategy, n: nat, steps: nat := n)
    requires Initial(s) && Sound(s.storage) && CodeStable(Start(s), steps) && Run(s, strat, n).status.Running?
    requires n > 0 ==> DepthsAt(s, strat, n - 1).e < steps
    ensures var r, a, k := Run(s, strat, n), Start(s), DepthsAt(s, strat, n);
            OnTime(r, a, k, n, strat) && Counted(s.perf, r.perf, a, k, n, strat)
  {
    hide Cycle, Slots, Sound, StableAfter, NextDepths, OnTrack, OnTime, Counted, Adds;
    if n == 0 {
      assert DepthsAt(s, strat, 0) == Depths(0, 0, 0, 0, 0);
      StartsOnTime(s, Start(s), strat);
      NothingCounted(s.perf, Start(s), strat);
    } else {
      RunningBefore(s, strat, n);
      if n > 1 {
        StagesFollow(s, strat, n - 2);
      }
      RunOnTime(s, strat, n - 1, steps);
      RunOnTrack(s, strat, n - 1, steps);
      RunOnTrack(s, strat, n, steps);
      NextAt(s, strat, n - 1);
      var r, a, k := Run(s, strat, n - 1), Start(s), DepthsAt(s, strat, n - 1);
      assert Slots(a, true, k.e).ok ==> StableAfter(Slots(a, true, k.e));
      OnTimeKept(r, a, k, n - 1, strat);
      LoadInExHasRegister(r, a, k, strat);
      CycleAdds(r, strat);
      CountedKept(r, a, k, n - 1, s.perf, Cycle(r, strat).perf, strat);
    }
  }

  lemma LoadInExHasRegister(s: Machine, a: Arch, k: Depths, strat: Strategy)
    requires OnTrack(s, a, k, strat)
    ensures Wellformed(s) && s.status.Running? && (IsLoad(s.e.inst) ==> s.e.destReg >= 0)
  {
    hide Sound, View, Shaped, StageW, StageM, StageE, StageDF, Slots, QuietGaps, WrongPath;
    LoadHasRegister(s, TrailAt(a, k), strat);
  }

  /**
   * A step that comes to EX does so exactly when the program says: two cycles to fill, one each step, and the
   * penalties.
   */
  lemma ExecutesOnTime(s: Machine, strat: Strategy, n: nat, j: nat)
    requires Initial(s) && Sound(s.storage) && CodeStable(Start(s), j + 1) && Executes(s, strat, n, j)
    ensures n == ExTime(Start(s), j, strat)
  {
    hide Cycle, Slots, Sound, CodeStable, DepthsAt, OnTrack, JumpAt, Mispredicted, Counted;
    if n > 0 {
      StagesFollow(s, strat, n - 1);
    }
    RunOnTime(s, strat, n, j + 1);
    RunOnTrack(s, strat, n, j + 1);
    var r, a, k := Run(s, strat, n), Start(s), DepthsAt(s, strat, n);
    ExecutesPerformed(r, a, k, strat);
  }

  /** The counters when a run stops in EX are those before, one cycle and one retirement on. */
  lemma StopCounts(s: Machine, strat: Strategy)
    requires Wellformed(s) && s.status.Running? && Cycle(s, strat).status.StoppedInEX?
    ensures SameHazards(s.perf.(cycles := s.perf.cycles + 1), Cycle(s, strat).perf)
  {
    hide MemStage, Shaped, IdStage, IfStage, Syscall, ExResult;
    var p := s.perf.(cycles := s.perf.cycles + 1);
    if MemStage(s.m, s.storage, s.log, p).MemOut? {
      MemHazards(s.m, s.storage, s.log, p);
    }
  }

  /**
   * What a program has counted when it exits at step j: one cycle for each step, three more, and the penalties; its
   * mispredictions, right predictions and load-use stalls; and the jumps it came to, or that were fetched in the
   * place of a mispredicted branch.
   */
  lemma ExitCounts(s: Machine, strat: Strategy, j: nat, n: nat)
    requires Initial(s) && Sound(s.storage) && CodeStable(Start(s), j + 1) && FailsInEx(Slots(Start(s), true, j))
    requires Exits(s, strat, n)
    ensures var a, p, q := Start(s), s.perf, Run(s, strat, n + 1).perf;
            && q.cycles - p.cycles == j + 3 + Penalties(a, j, strat)
            && q.mispredict - p.mispredict == Mispredictions(a, j, strat)
            && q.correct - p.correct == RightPredictions(a, j, strat)
            && q.loadUse - p.loadUse == LoadUses(a, j)
            && q.jumps - p.jumps == Jumps(a, j + 1) + WrongJumps(a, j, strat)
            && q.control - p.control == (q.jumps - p.jumps) + (q.mispredict - p.mispredict)
  {
    hide Cycle, Slots, Sound, CodeStable, DepthsAt, OnTrack, FailsInEx, OnTime, Mispredictions, RightPredictions,
         LoadUses, Jumps, WrongJumps, Penalties;
    ExitIsHere(s, strat, j, n);
    ExecutesOnTime(s, strat, n, j);
    if n > 0 {
      StagesFollow(s, strat, n - 1);
    }
    RunOnTime(s, strat, n, j + 1);
    RunOnTrack(s, strat, n, j + 1);
    ExecutesPerformed(Run(s, strat, n), Start(s), DepthsAt(s, strat, n), strat);
    StopCounts(Run(s, strat, n), strat);
  }

  /** Loads whose value a jump is lost for. */
  function LostUses(a: Arch, j: nat): nat {
    if j == 0 then 0 else LostUses(a, j - 1) + Count(Waits(Slots(a, true, j)) && JumpAt(Slots(a, true, j)))
  }

  /**
   * The penalties are two for each misprediction and one for each jump and each load-use stall that holds something
   * back.
   */
  lemma {:induction false} PenaltiesAreHazards(a: Arch, j: nat, strat: Strategy)
    ensures Penalties(a, j, strat) + LostUses(a, j) == 2 * Mispredictions(a, j, strat) + Jumps(a, j) + LoadUses(a, j)
  {
    hide Slots, Mispredicts, JumpAt, Waits;
    if j > 0 {
      PenaltiesAreHazards(a, j - 1, strat);
      OnePenalty(a, j - 1, strat);
    }
  }

  lemma OnePenalty(a: Arch, j: nat, strat: Strategy)
    ensures var b, c := Slots(a, true, j), Slots(a, true, j + 1);
            !(Mispredicts(b, strat) && JumpAt(b)) && (Waits(c) ==> !Mispredicts(b, strat) && !JumpAt(b))
  {
    hide Slot, Decode, Word, Fetchable, Performs, Skips;
    OneStepPenalty(Slots(a, true, j), strat);
  }

  lemma OneStepPenalty(b: Arch, strat: Strategy)
    ensures !(Mispredicts(b, strat) && JumpAt(b)) && (Waits(Step(b)) ==> !Mispredicts(b, strat) && !JumpAt(b))
  {
    hide Decode, Word, Fetchable, NextReg, NextMem, NextPC, CallAt, ValueAt, StoreAt, ExecutesFine, AccessAllocated,
         Taken, Opcode;
    var w := Word(b.mem, b.pc);
    WordDecodes(w);
    JumpIsDecoded(w);
  }

  lemma JumpIsDecoded(w: nat)
    ensures JumpInID(DRegion(0, w, 0, false)) ==> Decode(w).Some? && IsJump(Decode(w).value.kind)
  {
    hide Operands;
  }
}
