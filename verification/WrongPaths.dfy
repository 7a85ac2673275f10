/** What the stages hold while the fetch follows a wrong guess, in terms of the reference's path. */
module WrongPaths {
  import opened Wrappers
  import opened Bits
  import opened Address
  import opened Hierarchy
  import opened Transparency
  import opened Isa
  import opened Pipeline
  import opened Sequential
  import opened Refinement
  import opened Accounting
  import opened Execution

  /** The address that is fetched right behind the word at the reference's program counter. */
  function Guess(a: Arch, strat: Strategy): nat { PredictedPC(a.pc, Word(a.mem, a.pc), strat) }

  /** The reference performs a branch here that the strategy predicts wrongly. */
  predicate Mispredicts(a: Arch, strat: Strategy) { Performs(a) && Mispredicted(EOf(a, strat)) }

  /** The word fetched behind step j comes from memory as it was before the step just before j. */
  function MemBefore(a: Arch, j: nat): map<nat, byte> { Slots(a, true, if j == 0 then 0 else j - 1).mem }

  /** The word that ID gets to see behind step j, when that is a mispredicted branch. */
  function WrongWord(a: Arch, j: nat, strat: Strategy): nat {
    Word(MemBefore(a, j), Guess(Slots(a, true, j), strat))
  }

  // Which step a stage stands for.

  /** Every step changes the state: a bubble over two different states is a skipped word. */
  lemma StepMoves(a: Arch)
    ensures Step(a) != a
  {
    hide Decode, Word, NextReg, NextMem, NextPC, CallAt, ValueAt, StoreAt, ExecutesFine, AccessAllocated, Fetchable;
    assert Wrap(a.pc + 4) != a.pc;
    assert Step(a).pc == Wrap(a.pc + 4) || |Step(a).log| == |a.log| + 1;
  }

  /** An instruction in a stage is one step; a bubble is none, or a skipped word. */
  predicate Placement(s: Machine, a: Arch, k: Depths) {
    && (if s.m.inst.Bubble? then k.e == k.m || Skips(Slots(a, true, k.m)) else k.e == k.m + 1)
    && (if s.e.inst.Bubble? then k.d == k.e || Skips(Slots(a, true, k.e)) else k.d == k.e + 1)
    && (!Mispredicted(s.e) ==>
          if s.m.wrong || IsJump(s.e.inst) then k.f == k.d && s.d.inst == 0
          else if s.d.inst == 0 then k.f == k.d || Skips(Slots(a, true, k.d))
          else k.f == k.d + 1)
  }

  lemma InvPlaces(s: Machine, a: Arch, k: Depths, strat: Strategy)
    requires Inv(s, TrailAt(a, k), strat) && InOrder(k)
    ensures Placement(s, a, k)
  {
    hide Slot, Sound, View, Shaped, StageW, Performs, Skips, Decode, Word, Fetchable, Mispredicted, Perform,
         Execute;
    StepMoves(Slots(a, true, k.m));
    StepMoves(Slots(a, true, k.e));
    StepMoves(Slots(a, true, k.d));
  }

  // What a surviving cycle fetches and latches.

  /** Nothing empties D or holds it back. */
  predicate MovesOn(s: Machine) { !Mispredicted(s.e) && !JumpInID(s.d) && !HeldBack(s) }

  predicate FetchedNext(s: Machine, s': Machine, mem: map<nat, byte>, strat: Strategy) {
    var pc := FetchPC(s.f, s.e, s.m);
    s'.d.inst == Word(mem, pc) && s'.f.predPC == PredictedPC(pc, Word(mem, pc), strat)
  }

  lemma LoadHasRegister(s: Machine, t: Trail, strat: Strategy)
    requires StageE(s.e, t.e, t.d, strat)
    ensures IsLoad(s.e.inst) ==> s.e.destReg >= 0
  {
    hide StageE;
    if IsLoad(s.e.inst) {
      LoadIsNoBubble(s.e, t.e, t.d, strat);
    }
  }

  lemma SameChainSameRoom(st: Storage, st': Storage, addr: nat, count: nat)
    requires Shaped(st) && Shaped(st') && SameChain(st, st') && IsAddress(addr)
    ensures Within(st, addr, count) <==> Within(st', addr, count)
  {
    hide Offset;
    assert st.Cache? ==> Configs(st)[0] == st.level.cfg;
    assert st'.Cache? ==> Configs(st')[0] == st'.level.cfg;
  }

  lemma CycleFetches(s: Machine, t: Trail, strat: Strategy)
    requires Inv(s, t, strat) && s.status.Running? && Cycle(s, strat).status.Running?
    ensures s.d.inst == 0 || Decode(s.d.inst).Some?
    ensures Fetchable(t.e.mem, FetchPC(s.f, s.e, s.m)) && Within(s.storage, FetchPC(s.f, s.e, s.m) % U32, 4)
    ensures CycleShape(s, Cycle(s, strat)) && Cycle(s, strat).m == ExStage(s.e)
    ensures MovesOn(s) ==> FetchedNext(s, Cycle(s, strat), t.e.mem, strat)
  {
    hide Decode, Word, Execute, Taken, WriteBackStage, MemStage, AfterMem, Sound, View, Shaped, StageW, StageM,
         StageE, StageDF, ForwardsM, Syscall, IfStage, ExForward, FetchPC, Mispredicted, JumpInID, LoadUse,
         Fetchable, CycleShape, TakeBranch, PredictedPC, OtherPC, HeldBack, CallAt, Within;
    var reg, perf := WriteBackStage(s.w, s.reg), s.perf.(cycles := s.perf.cycles + 1);
    WriteBackRefines(s.w, t.w, t.m);
    MemRefines(s, t.m, t.e, perf, strat);
    var r := MemStage(s.m, s.storage, s.log, perf);
    var id, sys, fi := AfterMemFields(s, reg, r.w, r.fwd, r.storage, r.log, r.perf, strat);
    SyscallRefines(s.e, t.e, t.d, r.storage, r.perf, strat);
    FetchReads(FetchPC(s.f, s.e, s.m), sys.storage, sys.perf, strat);
    SameChainSameRoom(s.storage, sys.storage, FetchPC(s.f, s.e, s.m) % U32, 4);
    LoadHasRegister(s, t, strat);
    HoldIsHeldBack(s, reg, r.fwd, ExForward(s.e));
    CycleHasShape(s, strat);
  }

  // What a run keeps.

  /** The step before changed nothing in memory. */
  predicate Quiet(a: Arch, k: nat) { MemBefore(a, k) == Slots(a, true, k).mem }

  /** Stages that hold bubbles are behind a step that is no store. */
  predicate QuietGaps(s: Machine, a: Arch, k: Depths) {
    && (s.m.inst.Bubble? ==> Quiet(a, k.e)) && (s.e.inst.Bubble? ==> Quiet(a, k.d))
    && (s.d.inst == 0 && !Mispredicted(s.e) ==> Quiet(a, k.f))
  }

  /** Behind a mispredicted branch in EX come the guessed word and, in F, the guess made from that. */
  predicate WrongPath(s: Machine, a: Arch, k: Depths, strat: Strategy) {
    Mispredicted(s.e) ==>
      var guess := Guess(Slots(a, true, k.e), strat);
      s.d.inst == WrongWord(a, k.e, strat) && s.f.predPC == PredictedPC(guess, s.d.inst, strat)
  }

  lemma QuietStep(a: Arch, k: nat)
    requires var b := Slots(a, true, k); Skips(b) || (Performs(b) && !IsStore(InstAt(b).kind))
    ensures Quiet(a, k + 1)
  {
    hide Decode, Word, Fetchable, LostJump, NextReg, NextPC, CallAt, ValueAt, StoreAt, ExecutesFine;
    var b := Slots(a, true, k);
    if Performs(b) {
      StepPerforms(b);
    }
  }

  /** A branch or a load in EX, a jump in ID: none of them is a store. */
  lemma NoStore(s: Machine, a: Arch, k: Depths, strat: Strategy)
    requires Inv(s, TrailAt(a, k), strat) && InOrder(k)
    ensures Mispredicted(s.e) || HeldBack(s) ==> k.d == k.e + 1 && Quiet(a, k.d)
    ensures !Mispredicted(s.e) && JumpInID(s.d) && Decode(s.d.inst).Some? ==> k.f == k.d + 1 && Quiet(a, k.f)
  {
    hide Sound, View, Shaped, StageW, StageM, Decode, Word, Slot, Quiet, Fetchable, Opcode, Taken, LoadUse,
         LostJump;
    InvPlaces(s, a, k, strat);
    KindsAreApart(s.e);
    HeldBackNeedsLoad(s);
    ZeroNeverJumps(s.d);
    if Mispredicted(s.e) || HeldBack(s) {
      QuietStep(a, k.e);
    }
    if !Mispredicted(s.e) && JumpInID(s.d) && Decode(s.d.inst).Some? {
      WordDecodes(s.d.inst);
      JumpStep(Slots(a, true, k.d), strat);
      QuietStep(a, k.d);
    }
  }

  lemma QuietGapsKept(s: Machine, a: Arch, k: Depths, strat: Strategy)
    requires Inv(s, TrailAt(a, k), strat) && InOrder(k) && QuietGaps(s, a, k)
    requires Wellformed(s) && s.status.Running? && Cycle(s, strat).status.Running?
    requires Inv(Cycle(s, strat), TrailAt(a, NextDepths(s, k)), strat)
    ensures QuietGaps(Cycle(s, strat), a, NextDepths(s, k))
  {
    hide Cycle, Inv, Slot, Quiet, Decode, Mispredicted, JumpInID, HeldBack, Shaped, Skips;
    var s', k' := Cycle(s, strat), NextDepths(s, k);
    CycleFetches(s, TrailAt(a, k), strat);
    NoStore(s, a, k, strat);
    InvPlaces(s', a, k', strat);
    KindsAreApart(s.e);
    if MovesOn(s) && s'.d.inst == 0 && !Mispredicted(s'.e) {
      QuietStep(a, k.f);
    }
  }

  /** The address of the next fetch, in terms of the steps that EX, D and F stand for. */
  function FetchAddress(s: Machine, a: Arch, k: Depths, strat: Strategy): nat {
    if Mispredicted(s.e) then PredictedPC(Guess(Slots(a, true, k.e), strat), WrongWord(a, k.e, strat), strat)
    else if s.d.inst != 0 then Guess(Slots(a, true, k.d), strat)
    else Slots(a, true, k.f).pc
  }

  lemma FetchesThere(s: Machine, a: Arch, k: Depths, strat: Strategy)
    requires Inv(s, TrailAt(a, k), strat) && InOrder(k) && WrongPath(s, a, k, strat)
    ensures FetchPC(s.f, s.e, s.m) == FetchAddress(s, a, k, strat)
  {
    hide Sound, View, Shaped, StageW, Decode, Word, Slot, Fetchable, Mispredicted, PredictedPC, ExResult, Skips;
    InvPlaces(s, a, k, strat);
    KindsAreApart(s.e);
    if !Mispredicted(s.e) && s.d.inst == 0 {
      FetchGoesRight(s, TrailAt(a, k), strat);
    }
  }

  /** Memory as D's successor is fetched from it: without the store that is on its way through EX. */
  lemma FetchMemory(s: Machine, a: Arch, k: Depths, strat: Strategy)
    requires Inv(s, TrailAt(a, k), strat) && InOrder(k) && QuietGaps(s, a, k)
    ensures Slots(a, true, k.m).mem == MemBefore(a, k.e) && Slots(a, true, k.e).mem == MemBefore(a, k.d)
  {
    hide Sound, View, Shaped, StageW, StageDF, Decode, Word, Slot, Mispredicted, Performs, Fetchable;
    InvPlaces(s, a, k, strat);
    if s.m.inst.Bubble? {
      SkipIsQuiet(Slots(a, true, k.m), Slots(a, true, k.e));
    }
    if s.e.inst.Bubble? {
      SkipIsQuiet(Slots(a, true, k.e), Slots(a, true, k.d));
    }
  }

  lemma WrongPathKept(s: Machine, a: Arch, k: Depths, strat: Strategy)
    requires Inv(s, TrailAt(a, k), strat) && InOrder(k) && QuietGaps(s, a, k) && WrongPath(s, a, k, strat)
    requires Wellformed(s) && s.status.Running? && Cycle(s, strat).status.Running?
    ensures WrongPath(Cycle(s, strat), a, NextDepths(s, k), strat)
  {
    hide Cycle, Inv, Slot, Decode, Mispredicted, JumpInID, HeldBack, Shaped, Word, Guess, PredictedPC, FetchPC;
    var s' := Cycle(s, strat);
    CycleFetches(s, TrailAt(a, k), strat);
    if Mispredicted(s'.e) {
      KindsAreApart(s'.e);
      FetchesThere(s, a, k, strat);
      FetchMemory(s, a, k, strat);
    }
  }

  /** Every surviving run keeps both. */
  lemma {:induction false} RunTracks(s: Machine, strat: Strategy, n: nat, steps: nat := n)
    requires Initial(s) && Sound(s.storage) && CodeStable(Start(s), steps) && Run(s, strat, n).status.Running?
    requires n > 0 ==> DepthsAt(s, strat, n - 1).e < steps
    ensures var r, a, k := Run(s, strat, n), Start(s), DepthsAt(s, strat, n);
            Inv(r, TrailAt(a, k), strat) && QuietGaps(r, a, k) && WrongPath(r, a, k, strat)
  {
    hide Cycle, Inv, Slot, Sound, StableAfter, NextDepths, Mispredicted, QuietGaps, WrongPath;
    RunRefines(s, strat, n, steps);
    if n == 0 {
      StartsQuiet(s, strat);
    } else {
      RunningBefore(s, strat, n);
      if n > 1 {
        StagesFollow(s, strat, n - 2);
      }
      RunTracks(s, strat, n - 1, steps);
      var r, k := Run(s, strat, n - 1), DepthsAt(s, strat, n - 1);
      QuietGapsKept(r, Start(s), k, strat);
      WrongPathKept(r, Start(s), k, strat);
    }
  }

  lemma StartsQuiet(s: Machine, strat: Strategy)
    requires Initial(s) && Sound(s.storage)
    ensures var k := DepthsAt(s, strat, 0); QuietGaps(s, Start(s), k) && WrongPath(s, Start(s), k, strat)
  {
    hide Sound, View, Word, PredictedPC;
  }
}
