/** Which programs survive: what must hold along the reference's path for no stage to stop the process. */
module Survival {
  import opened Wrappers
  import opened Bits
  import opened Address
  import opened Hierarchy
  import opened Transparency
  import opened Isa
  import opened Pipeline
  import opened Sequential
  import opened Refinement
  import opened Accounting
  import opened Execution
  import opened WrongPaths
  import opened Stops

  /** Step j's access, if it makes one, stays inside a block. */
  predicate InBlock(st: Storage, a: Arch, j: nat)
    requires Shaped(st)
  {
    var b := Slots(a, true, j);
    Performs(b) ==> !LeavesBlock(st, b)
  }

  /** The word that is fetched right behind step j, needed or not, is allocated. */
  predicate GuessLands(a: Arch, j: nat, strat: Strategy) { Fetchable(a.mem, Guess(Slots(a, true, j), strat)) }

  /**
   * If step j is a mispredicted branch, ID knows the word fetched in its place, and the word that is
   * fetched behind that one is allocated.
   */
  predicate Recovers(a: Arch, j: nat, strat: Strategy) {
    var b, w := Slots(a, true, j), WrongWord(a, j, strat);
    Mispredicts(b, strat) ==> Readable(w) && Fetchable(a.mem, PredictedPC(Guess(b, strat), w, strat))
  }

  /** The pipeline can take step j without stopping: the reference can, and what is fetched on the side does no harm. */
  predicate GoodStep(st: Storage, a: Arch, j: nat, strat: Strategy)
    requires Shaped(st)
  {
    Slots(a, true, j + 1).ok && InBlock(st, a, j) && GuessLands(a, j, strat) && Recovers(a, j, strat)
  }

  // What the steps taken so far show.

  /** Steps past MEM stayed in their blocks, steps past EX recovered, and behind steps past ID a word was fetched. */
  predicate Passed(st: Storage, a: Arch, k: Depths, strat: Strategy)
    requires Shaped(st)
  {
    && (forall j :: 0 <= j < k.m ==> InBlock(st, a, j))
    && (forall j :: 0 <= j < k.e ==> Recovers(a, j, strat))
    && (forall j :: 0 <= j < k.d ==> GuessLands(a, j, strat))
  }

  lemma SameChainSameBlocks(st: Storage, st': Storage, a: Arch)
    requires Shaped(st) && Shaped(st') && SameChain(st, st') && Performs(a)
    ensures LeavesBlock(st, a) <==> LeavesBlock(st', a)
  {
    hide Performs, Within;
    SameChainSameRoom(st, st', AddrAt(a, InstAt(a)), MemLen(InstAt(a).kind));
  }

  lemma MemPassed(s: Machine, a: Arch, a': Arch, perf: Perf, strat: Strategy)
    requires Shaped(s.storage) && StageM(s.m, a, a', strat) && MemStage(s.m, s.storage, s.log, perf).MemOut?
    requires !s.m.inst.Bubble?
    ensures Performs(a) && !LeavesBlock(s.storage, a)
  {
    hide Decode, Word, Execute, FromBytes, ToBytes, Request, Offset, Taken;
  }

  lemma SkipDoesNotPerform(a: Arch)
    requires Skips(a)
    ensures !Performs(a)
  {
    hide Decode, Word;
  }

  /** A surviving cycle takes the step in M through MEM, the one in E through EX and the one in D through ID. */
  lemma StepM(s: Machine, a: Arch, k: Depths, strat: Strategy)
    requires Wellformed(s) && Inv(s, TrailAt(a, k), strat) && InOrder(k)
    requires s.status.Running? && !Cycle(s, strat).status.StoppedInMEM?
    ensures forall j :: k.m <= j < k.e ==> InBlock(s.storage, a, j)
  {
    hide Decode, Word, Slot, WriteBackStage, MemStage, AfterMem, Sound, View, Shaped, StageW, StageM, StageE,
         StageDF, Performs, Skips, LeavesBlock;
    InvPlaces(s, a, k, strat);
    if k.e == k.m + 1 {
      var perf := s.perf.(cycles := s.perf.cycles + 1);
      if s.m.inst.Bubble? {
        SkipDoesNotPerform(Slots(a, true, k.m));
      } else {
        MemPassed(s, Slots(a, true, k.m), Slots(a, true, k.e), perf, strat);
      }
    }
  }

  lemma StepE(s: Machine, a: Arch, k: Depths, strat: Strategy)
    requires Inv(s, TrailAt(a, k), strat) && InOrder(k) && WrongPath(s, a, k, strat)
    requires s.status.Running? && Cycle(s, strat).status.Running?
    ensures forall j :: k.e <= j < k.d ==> Recovers(a, j, strat)
  {
    hide Decode, Word, Slot, Cycle, Sound, View, Shaped, StageW, StageM, StageDF, Performs, Skips, PredictedPC,
         FetchPC, Mispredicted, Fetchable, Issue, ValA, ValB;
    InvPlaces(s, a, k, strat);
    if k.d == k.e + 1 {
      if s.e.inst.Bubble? {
        SkipDoesNotPerform(Slots(a, true, k.e));
      } else if Mispredicted(s.e) {
        CycleFetches(s, TrailAt(a, k), strat);
        FetchesThere(s, a, k, strat);
        SamePagesFetch(a, k.e, FetchPC(s.f, s.e, s.m));
      }
    }
  }

  lemma SamePagesFetch(a: Arch, k: nat, pc: nat)
    ensures Fetchable(Slots(a, true, k).mem, pc) <==> Fetchable(a.mem, pc)
  {
    PathKeepsPages(a, k);
    hide Slots;
  }

  lemma SkipGuess(a: Arch, strat: Strategy)
    requires Skips(a)
    ensures Step(a).pc == Guess(a, strat)
  {
    hide Decode, Fetchable;
    WordDecodes(Word(a.mem, a.pc));
    hide Word;
    ZeroWord(a.pc, strat);
  }

  lemma StepD(s: Machine, a: Arch, k: Depths, strat: Strategy)
    requires Inv(s, TrailAt(a, k), strat) && InOrder(k) && WrongPath(s, a, k, strat)
    requires s.status.Running? && Cycle(s, strat).status.Running?
    ensures forall j :: k.d <= j < NextDepths(s, k).d ==> GuessLands(a, j, strat)
  {
    hide Decode, Word, Slot, Cycle, Sound, View, Shaped, StageW, StageM, StageE, StageDF, Performs, Skips,
         PredictedPC, FetchPC, Mispredicted, Fetchable, HeldBack, JumpInID, Guess;
    InvPlaces(s, a, k, strat);
    if NextDepths(s, k).d == k.d + 1 {
      CycleFetches(s, TrailAt(a, k), strat);
      FetchesThere(s, a, k, strat);
      SamePagesFetch(a, k.e, FetchPC(s.f, s.e, s.m));
      if s.d.inst == 0 {
        SkipGuess(Slots(a, true, k.d), strat);
      }
    }
  }

  /** What the caches hold makes no difference to what is good, only their configuration does. */
  lemma SameChainSameGood(st: Storage, st': Storage, a: Arch, n: nat, strat: Strategy)
    requires Shaped(st) && Shaped(st') && SameChain(st, st') && GoodSteps(st, a, n, strat)
    ensures GoodSteps(st', a, n, strat)
  {
    hide InBlock, GuessLands, Recovers, Slots, WideBlocks;
    SameChainSameWidth(st, st');
    forall j | 0 <= j < n ensures GoodStep(st', a, j, strat) {
      assert GoodStep(st, a, j, strat);
      SameInBlock(st, st', a, j);
    }
  }

  // Pace.

  /** How long it may still take until MEM has the next step. */
  function Slack(k: Depths): nat { if k.m < k.e then 1 else if k.e < k.d then 2 else if k.d < k.f then 3 else 4 }

  /** After n cycles at least every third of them has taken a step past MEM. */
  predicate Pace(k: Depths, n: nat) { n + Slack(k) <= 3 * k.m + 4 }

  lemma PaceKept(s: Machine, a: Arch, k: Depths, n: nat, strat: Strategy)
    requires Inv(s, TrailAt(a, k), strat) && InOrder(k) && Pace(k, n)
    ensures Pace(NextDepths(s, k), n + 1)
  {
    hide Inv, Slot, Mispredicted, JumpInID, HeldBack, Skips, Quiet;
    InvPlaces(s, a, k, strat);
    NoStore(s, a, k, strat);
    KindsAreApart(s.e);
    ZeroNeverJumps(s.d);
    HeldBackNeedsLoad(s);
  }

  lemma StartPace()
    ensures Pace(Depths(0, 0, 0, 0, 0), 0)
  {
  }

  /** What a run of n cycles shows of the steps it has taken, and how many these are at least. */
  lemma {:induction false} RunPasses(s: Machine, strat: Strategy, n: nat, steps: nat := n)
    requires Initial(s) && Sound(s.storage) && CodeStable(Start(s), steps) && Run(s, strat, n).status.Running?
    requires n > 0 ==> DepthsAt(s, strat, n - 1).e < steps
    ensures Passed(s.storage, Start(s), DepthsAt(s, strat, n), strat) && Pace(DepthsAt(s, strat, n), n)
  {
    hide Cycle, Inv, Slots, Sound, StableAfter, NextDepths, QuietGaps, WrongPath, Pace, InBlock, Recovers,
         GuessLands;
    if n == 0 {
      assert DepthsAt(s, strat, 0) == Depths(0, 0, 0, 0, 0);
      StartPace();
    } else {
      RunningBefore(s, strat, n);
      if n > 1 {
        StagesFollow(s, strat, n - 2);
      }
      RunPasses(s, strat, n - 1, steps);
      RunTracks(s, strat, n - 1, steps);
      var r, a, k := Run(s, strat, n - 1), Start(s), DepthsAt(s, strat, n - 1);
      PaceKept(r, a, k, n - 1, strat);
      StagesFollow(s, strat, n - 1);
      PassesOn(s.storage, r, a, k, strat);
    }
  }

  lemma PassesOn(st: Storage, s: Machine, a: Arch, k: Depths, strat: Strategy)
    requires Shaped(st) && Wellformed(s) && SameChain(st, s.storage) && Passed(st, a, k, strat)
    requires Inv(s, TrailAt(a, k), strat) && InOrder(k) && WrongPath(s, a, k, strat)
    requires s.status.Running? && Cycle(s, strat).status.Running?
    ensures Passed(st, a, NextDepths(s, k), strat)
  {
    hide Cycle, Inv, Slots, Sound, WrongPath, InBlock, Recovers, GuessLands, HeldBack, Mispredicted, JumpInID;
    StepM(s, a, k, strat);
    StepE(s, a, k, strat);
    StepD(s, a, k, strat);
    forall j | k.m <= j < k.e ensures InBlock(st, a, j) {
      SameInBlock(st, s.storage, a, j);
    }
  }

  lemma SameInBlock(st: Storage, st': Storage, a: Arch, j: nat)
    requires Shaped(st) && Shaped(st') && SameChain(st, st')
    ensures InBlock(st, a, j) <==> InBlock(st', a, j)
  {
    hide LeavesBlock, Performs, Slots;
    if Performs(Slots(a, true, j)) {
      SameChainSameBlocks(st, st', Slots(a, true, j));
    }
  }

  // What lets a cycle survive.

  ghost predicate OnTrack(s: Machine, a: Arch, k: Depths, strat: Strategy) {
    && Wellformed(s) && s.status.Running? && InOrder(k) && Inv(s, TrailAt(a, k), strat)
    && QuietGaps(s, a, k) && WrongPath(s, a, k, strat)
  }

  predicate GoodSteps(st: Storage, a: Arch, n: nat, strat: Strategy)
    requires Shaped(st)
  {
    WideBlocks(st) && forall j :: 0 <= j < n ==> GoodStep(st, a, j, strat)
  }

  /** Step n is performed, and all that comes before EX gets to it is good. */
  predicate Reachable(st: Storage, a: Arch, n: nat, strat: Strategy)
    requires Shaped(st)
  {
    GoodSteps(st, a, n, strat) && Performs(Slots(a, true, n)) && GuessLands(a, n, strat)
  }

  /** EX holds step n. */
  predicate AtEx(s: Machine, k: Depths, n: nat) { !s.e.inst.Bubble? && k.e == n }

  /** All stages are within the good steps, or EX has still to come to the step behind them. */
  predicate Inside(st: Storage, s: Machine, a: Arch, k: Depths, n: nat, strat: Strategy)
    requires Shaped(st)
  {
    SameChain(st, s.storage) && GoodSteps(st, a, n, strat) && (k.f < n || (Reachable(st, a, n, strat) && k.e <= n))
  }

  lemma StaysInside(st: Storage, s: Machine, a: Arch, k: Depths, n: nat, strat: Strategy)
    requires Shaped(st) && OnTrack(s, a, k, strat) && Inside(st, s, a, k, n, strat) && !AtEx(s, k, n)
    ensures k.e < n || s.e.inst.Bubble?
    ensures k.d < n || (k.d == n && Reachable(st, a, n, strat))
    ensures !Mispredicted(s.e) && s.d.inst == 0 ==> k.f < n || (k.f == n && Reachable(st, a, n, strat))
  {
    hide Inv, Slots, GoodSteps, GuessLands, QuietGaps, WrongPath, Shaped, Skips, Mispredicted, Performs;
    InvPlaces(s, a, k, strat);
    if Skips(Slots(a, true, n)) {
      SkipDoesNotPerform(Slots(a, true, n));
    }
  }

  lemma PassesMem(st: Storage, s: Machine, a: Arch, k: Depths, n: nat, strat: Strategy)
    requires Shaped(st) && OnTrack(s, a, k, strat) && Inside(st, s, a, k, n, strat)
    ensures !Cycle(s, strat).status.StoppedInMEM?
  {
    hide Cycle, Inv, Slot, Inside, QuietGaps, WrongPath, Recovers, GuessLands, LeavesBlock, Performs;
    if Cycle(s, strat).status.StoppedInMEM? {
      CycleStopInMem(s, TrailAt(a, k), strat);
      InvPlaces(s, a, k, strat);
      InsideBound(st, s, a, k, n, strat);
      GoodBefore(st, s, a, k, n, k.m, strat);
      SameChainSameBlocks(st, Cycle(s, strat).storage, Slots(a, true, k.m));
    }
  }

  lemma InsideBound(st: Storage, s: Machine, a: Arch, k: Depths, n: nat, strat: Strategy)
    requires Shaped(st) && InOrder(k) && Inside(st, s, a, k, n, strat)
    ensures k.e <= n
  {
    hide GoodSteps, Reachable, Slots;
  }

  lemma GoodBefore(st: Storage, s: Machine, a: Arch, k: Depths, n: nat, j: nat, strat: Strategy)
    requires Shaped(st) && Inside(st, s, a, k, n, strat) && j < n
    ensures GoodStep(st, a, j, strat) && SameChain(st, s.storage)
  {
    hide GoodStep, Slots;
  }

  lemma PassesEx(st: Storage, s: Machine, a: Arch, k: Depths, n: nat, strat: Strategy)
    requires Shaped(st) && OnTrack(s, a, k, strat) && Inside(st, s, a, k, n, strat) && !AtEx(s, k, n)
    ensures !Cycle(s, strat).status.StoppedInEX?
  {
    hide Cycle, Inv, Slot, Inside, QuietGaps, WrongPath, Recovers, GuessLands, InBlock;
    StaysInside(st, s, a, k, n, strat);
    if Cycle(s, strat).status.StoppedInEX? {
      CycleStopInEx(s, TrailAt(a, k), strat);
      GoodBefore(st, s, a, k, n, k.e, strat);
    }
  }

  lemma ReadsWhatItHolds(st: Storage, s: Machine, a: Arch, k: Depths, n: nat, strat: Strategy)
    requires Shaped(st) && OnTrack(s, a, k, strat) && Inside(st, s, a, k, n, strat) && !AtEx(s, k, n)
    ensures Readable(s.d.inst)
  {
    hide Cycle, Slot, Inside, QuietGaps, GuessLands, InBlock, Sound, View, Shaped, StageW, StageM, Decode, Word,
         WrongPath, Mispredicted, Fetchable;
    StaysInside(st, s, a, k, n, strat);
    HoldsWord(s, a, k, strat);
    if Mispredicted(s.e) {
      KindsAreApart(s.e);
      GoodBefore(st, s, a, k, n, k.e, strat);
    } else if s.d.inst != 0 && k.d < n {
      GoodBefore(st, s, a, k, n, k.d, strat);
      if Decode(s.d.inst) == None {
        IdStopIsReal(s, TrailAt(a, k), strat);
      }
    }
  }

  lemma IdStopIsReal(s: Machine, t: Trail, strat: Strategy)
    requires StageE(s.e, t.e, t.d, strat) && StageDF(s, t, strat) && !Mispredicted(s.e)
    requires s.d.inst != 0 && Decode(s.d.inst) == None
    ensures !Step(t.d).ok
  {
    hide Decode, Word, Execute, Taken, Fetchable;
  }

  lemma UnfetchableFails(a: Arch)
    requires Step(a).ok
    ensures Fetchable(a.mem, a.pc)
  {
    hide Decode, Word, Fetchable;
  }

  lemma FetchLands(st: Storage, s: Machine, a: Arch, k: Depths, n: nat, strat: Strategy)
    requires Shaped(st) && OnTrack(s, a, k, strat) && Inside(st, s, a, k, n, strat) && !AtEx(s, k, n)
    ensures WideBlocks(s.storage) && Fetchable(a.mem, FetchPC(s.f, s.e, s.m))
  {
    hide Cycle, Slot, Inv, Inside, QuietGaps, InBlock, Sound, View, Shaped, Decode, Word, WrongPath, Mispredicted,
         Fetchable, FetchPC, WideBlocks, Guess, PredictedPC;
    StaysInside(st, s, a, k, n, strat);
    InsideIsWide(st, s, a, k, n, strat);
    FetchesThere(s, a, k, strat);
    if Mispredicted(s.e) {
      BranchInEx(s, a, k, strat);
      GoodBefore(st, s, a, k, n, k.e, strat);
    } else if s.d.inst != 0 {
      if k.d < n {
        GoodBefore(st, s, a, k, n, k.d, strat);
      }
    } else {
      if k.f < n {
        GoodBefore(st, s, a, k, n, k.f, strat);
        UnfetchableFails(Slots(a, true, k.f));
      }
      SamePagesFetch(a, k.f, Slots(a, true, k.f).pc);
    }
  }

  lemma BranchInEx(s: Machine, a: Arch, k: Depths, strat: Strategy)
    requires Inv(s, TrailAt(a, k), strat) && Mispredicted(s.e)
    ensures !s.e.inst.Bubble? && Mispredicts(Slots(a, true, k.e), strat)
  {
    hide Sound, View, StageW, StageM, StageDF, Slots, Performs, Mispredicted;
    KindsAreApart(s.e);
  }

  lemma InsideIsWide(st: Storage, s: Machine, a: Arch, k: Depths, n: nat, strat: Strategy)
    requires Shaped(st) && Shaped(s.storage) && Inside(st, s, a, k, n, strat)
    ensures WideBlocks(s.storage)
  {
    hide GoodStep, WideBlocks, Slots, Reachable;
    SameChainSameWidth(st, s.storage);
  }

  /** As long as all stages are within the good steps, the next cycle does not stop. */
  lemma GoodCycle(st: Storage, s: Machine, a: Arch, k: Depths, n: nat, strat: Strategy)
    requires Shaped(st) && OnTrack(s, a, k, strat) && Inside(st, s, a, k, n, strat) && !AtEx(s, k, n)
    ensures Cycle(s, strat).status.Running?
  {
    hide Cycle, Inv, Slot, Inside, QuietGaps, WrongPath, Readable, WideBlocks, FetchPC, Fetchable;
    PassesMem(st, s, a, k, n, strat);
    PassesEx(st, s, a, k, n, strat);
    ReadsWhatItHolds(st, s, a, k, n, strat);
    IdStopCause(s, strat);
    FetchLands(st, s, a, k, n, strat);
    SamePagesFetch(a, k.e, FetchPC(s.f, s.e, s.m));
    CycleStopInIf(s, TrailAt(a, k), strat);
  }

  // Whole runs.

  lemma RunOnTrack(s: Machine, strat: Strategy, n: nat, steps: nat := n)
    requires Initial(s) && Sound(s.storage) && CodeStable(Start(s), steps) && Run(s, strat, n).status.Running?
    requires n > 0 ==> DepthsAt(s, strat, n - 1).e < steps
    ensures OnTrack(Run(s, strat, n), Start(s), DepthsAt(s, strat, n), strat)
  {
    hide Cycle, Inv, Slot, Sound, CodeStable, QuietGaps, WrongPath;
    RunTracks(s, strat, n, steps);
  }

  /** If the first n steps are good, the process survives n cycles. */
  lemma {:induction false} Survives(s: Machine, strat: Strategy, n: nat)
    requires Initial(s) && Sound(s.storage) && CodeStable(Start(s), n) && GoodSteps(s.storage, Start(s), n, strat)
    ensures Run(s, strat, n).status.Running?
  {
    hide Cycle, Inv, Slot, Sound, StableAfter, GoodStep, OnTrack, WideBlocks;
    if n > 0 {
      Survives(s, strat, n - 1);
      RunOnTrack(s, strat, n - 1);
      GoodCycle(s.storage, Run(s, strat, n - 1), Start(s), DepthsAt(s, strat, n - 1), n, strat);
    }
  }

  /** Conversely three cycles for each of n steps, and three more, are survived only if those steps are good. */
  lemma SurvivedSteps(s: Machine, strat: Strategy, n: nat)
    requires Initial(s) && Sound(s.storage) && CodeStable(Start(s), 3 * n + 3)
    requires Run(s, strat, 3 * n + 3).status.Running?
    ensures GoodSteps(s.storage, Start(s), n, strat)
  {
    hide Run, DepthsAt, Slots, Sound, CodeStable, Passed, WideBlocks, GoodStep, QuietGaps, WrongPath, StageW,
         StageM, StageE, StageDF, View;
    var k := DepthsAt(s, strat, 3 * n + 3);
    RunRefines(s, strat, 3 * n + 3);
    RunPasses(s, strat, 3 * n + 3);
    FirstFetch(s, strat, 3 * n + 3);
    PassedIsGood(s.storage, Start(s), k, n, strat);
  }

  lemma PassedIsGood(st: Storage, a: Arch, k: Depths, n: nat, strat: Strategy)
    requires Shaped(st) && WideBlocks(st) && InOrder(k) && Passed(st, a, k, strat) && Slots(a, true, k.m).ok && n <= k.m
    ensures GoodSteps(st, a, n, strat)
  {
    hide Slots, InBlock, Recovers, GuessLands, WideBlocks;
    forall j | 0 <= j < n ensures GoodStep(st, a, j, strat) {
      PathEffects(a, true, j + 1, k.m);
    }
  }

  lemma FetchableIsAligned(mem: map<nat, byte>, pc: nat)
    requires Fetchable(mem, pc)
    ensures pc % 4 == 0
  {
  }

  lemma FirstFetch(s: Machine, strat: Strategy, n: nat)
    requires Initial(s) && Sound(s.storage) && n > 0 && Run(s, strat, n).status.Running?
    ensures WideBlocks(s.storage)
  {
    hide Cycle, Slot, Sound, Inv, WideBlocks, FetchPC, Fetchable, StableAfter;
    FirstCycle(s, strat, n);
    RunRefines(s, strat, 0);
    CycleFetches(s, TrailAt(Start(s), DepthsAt(s, strat, 0)), strat);
    FetchableIsAligned(Start(s).mem, FetchPC(s.f, s.e, s.m));
    FetchFits(s.storage, FetchPC(s.f, s.e, s.m));
  }

  lemma {:induction false} FirstCycle(s: Machine, strat: Strategy, n: nat)
    requires Wellformed(s) && n > 0 && Run(s, strat, n).status.Running?
    ensures s.status.Running? && Cycle(s, strat).status.Running?
    decreases n
  {
    hide Cycle;
    RunningBefore(s, strat, n);
    if n > 1 {
      FirstCycle(s, strat, n - 1);
    }
  }

  ghost predicate RunsForever(s: Machine, strat: Strategy)
    requires Wellformed(s)
  {
    forall n: nat :: Run(s, strat, n).status.Running?
  }

  ghost predicate AlwaysGood(st: Storage, a: Arch, strat: Strategy)
    requires Shaped(st)
  {
    forall n: nat :: GoodSteps(st, a, n, strat)
  }

  /**
   * Which programs run on: the process never stops if and only if every step of the reference is good. Nothing
   * of the run itself is needed to see it.
   */
  lemma RunsForeverIff(s: Machine, strat: Strategy)
    requires Initial(s) && Sound(s.storage) && forall n: nat :: CodeStable(Start(s), n)
    ensures RunsForever(s, strat) <==> AlwaysGood(s.storage, Start(s), strat)
  {
    hide Run, Sound, CodeStable, GoodSteps, Shaped;
    if RunsForever(s, strat) {
      forall n: nat ensures GoodSteps(s.storage, Start(s), n, strat) {
        SurvivedSteps(s, strat, n);
      }
    }
    if AlwaysGood(s.storage, Start(s), strat) {
      forall n: nat ensures Run(s, strat, n).status.Running? {
        Survives(s, strat, n);
      }
    }
  }

  /** In the cycle after the n-th, EX has step j before it. */
  predicate Executes(s: Machine, strat: Strategy, n: nat, j: nat)
    requires Wellformed(s)
  {
    && Run(s, strat, n).status.Running? && AtEx(Run(s, strat, n), DepthsAt(s, strat, n), j)
    && !Run(s, strat, n + 1).status.StoppedInMEM?
  }

  lemma {:induction false} ComesToEx(s: Machine, strat: Strategy, j: nat, n: nat) returns (i: nat)
    requires Initial(s) && Sound(s.storage) && CodeStable(Start(s), j + 1) && Reachable(s.storage, Start(s), j, strat)
    ensures (i < n && Executes(s, strat, i, j)) || (Run(s, strat, n).status.Running? && DepthsAt(s, strat, n).e <= j)
  {
    hide Cycle, Slots, Sound, CodeStable, Reachable, NextDepths, OnTrack;
    i := 0;
    if n > 0 {
      i := ComesToEx(s, strat, j, n - 1);
      if !Executes(s, strat, i, j) || i >= n - 1 {
        if n > 1 {
          StagesFollow(s, strat, n - 2);
        }
        RunOnTrack(s, strat, n - 1, j + 1);
        StagesFollow(s, strat, n - 1);
        i := n - 1;
        TowardsEx(s, strat, j, n - 1);
      }
    }
  }

  lemma TowardsEx(s: Machine, strat: Strategy, j: nat, n: nat)
    requires Initial(s) && Sound(s.storage) && Reachable(s.storage, Start(s), j, strat)
    requires OnTrack(Run(s, strat, n), Start(s), DepthsAt(s, strat, n), strat) && DepthsAt(s, strat, n).e <= j
    ensures Executes(s, strat, n, j) || (Run(s, strat, n + 1).status.Running? && DepthsAt(s, strat, n).d <= j)
  {
    hide Cycle, Slots, Sound, DepthsAt, GoodSteps, OnTrack, Performs, GuessLands;
    var r, a, k := Run(s, strat, n), Start(s), DepthsAt(s, strat, n);
    OnTrackRuns(r, a, k, strat);
    assert Inside(s.storage, r, a, k, j, strat);
    if AtEx(r, k, j) {
      PassesMem(s.storage, r, a, k, j, strat);
    } else {
      GoodCycle(s.storage, r, a, k, j, strat);
      StaysInside(s.storage, r, a, k, j, strat);
    }
  }

  lemma OnTrackRuns(s: Machine, a: Arch, k: Depths, strat: Strategy)
    requires OnTrack(s, a, k, strat)
    ensures Wellformed(s) && s.status.Running?
  {
    hide Inv, QuietGaps, WrongPath;
  }

  /**
   * EX gets to a step if and only if the reference performs it, all steps before it are good, and the word behind it
   * can be had.
   */
  lemma ExecutesIff(s: Machine, strat: Strategy, j: nat)
    requires Initial(s) && Sound(s.storage) && CodeStable(Start(s), j + 1)
    ensures (exists n: nat :: Executes(s, strat, n, j)) <==> Reachable(s.storage, Start(s), j, strat)
  {
    hide Sound, CodeStable, Shaped, Executes, Reachable;
    if Reachable(s.storage, Start(s), j, strat) {
      var n := ReachesEx(s, strat, j);
    }
    if n: nat :| Executes(s, strat, n, j) {
      ExecutedIsReachable(s, strat, j, n);
    }
  }

  lemma ReachesEx(s: Machine, strat: Strategy, j: nat) returns (n: nat)
    requires Initial(s) && Sound(s.storage) && CodeStable(Start(s), j + 1) && Reachable(s.storage, Start(s), j, strat)
    ensures n < 3 * j + 6 && Executes(s, strat, n, j)
  {
    hide Run, Slots, Sound, CodeStable, Reachable, Executes, DepthsAt, Passed;
    n := ComesToEx(s, strat, j, 3 * j + 6);
    if !Executes(s, strat, n, j) || n >= 3 * j + 6 {
      StagesFollow(s, strat, 3 * j + 5);
      RunPasses(s, strat, 3 * j + 6, j + 1);
      assert false;
    }
  }

  lemma ExecutedIsReachable(s: Machine, strat: Strategy, j: nat, n: nat)
    requires Initial(s) && Sound(s.storage) && CodeStable(Start(s), j + 1) && Executes(s, strat, n, j)
    ensures Reachable(s.storage, Start(s), j, strat) && Slots(Start(s), true, j).ok
  {
    hide Cycle, Slots, Sound, CodeStable, DepthsAt, Passed, WideBlocks, GoodStep, GuessLands, Inv, QuietGaps,
         WrongPath;
    if n > 0 {
      StagesFollow(s, strat, n - 1);
    }
    var r, a, k := Run(s, strat, n), Start(s), DepthsAt(s, strat, n);
    RunOnTrack(s, strat, n, j + 1);
    RunPasses(s, strat, n, j + 1);
    assert n > 0;
    FirstFetch(s, strat, n);
    ExecutesPerformed(r, a, k, strat);
    StepM(r, a, k, strat);
    MemKeepsOk(r, TrailAt(a, k), strat);
    EarlierIsGood(s.storage, r.storage, a, k, strat);
  }

  lemma ExecutesPerformed(s: Machine, a: Arch, k: Depths, strat: Strategy)
    requires OnTrack(s, a, k, strat) && !s.e.inst.Bubble?
    ensures Performs(Slots(a, true, k.e)) && k.d == k.e + 1
  {
    hide Sound, View, StageW, StageM, StageDF, Slots, Performs, QuietGaps, WrongPath, Shaped;
    InvPlaces(s, a, k, strat);
  }

  lemma MemKeepsOk(s: Machine, t: Trail, strat: Strategy)
    requires Wellformed(s) && Inv(s, t, strat) && s.status.Running? && !Cycle(s, strat).status.StoppedInMEM?
    ensures t.e.ok
  {
    hide Decode, Word, WriteBackStage, MemStage, AfterMem, Sound, View, Shaped, StageW, StageM, StageE, StageDF;
    MemRefines(s, t.m, t.e, s.perf.(cycles := s.perf.cycles + 1), strat);
  }

  lemma EarlierIsGood(st: Storage, st': Storage, a: Arch, k: Depths, strat: Strategy)
    requires Shaped(st) && Shaped(st') && SameChain(st, st') && WideBlocks(st) && InOrder(k)
    requires Passed(st, a, k, strat) && Slots(a, true, k.e).ok
    requires forall j :: k.m <= j < k.e ==> InBlock(st', a, j)
    ensures GoodSteps(st, a, k.e, strat) && (k.d == k.e + 1 ==> GuessLands(a, k.e, strat))
  {
    hide Slots, InBlock, Recovers, GuessLands, WideBlocks;
    forall j | 0 <= j < k.e ensures GoodStep(st, a, j, strat) {
      SameInBlock(st, st', a, j);
      PathEffects(a, true, j + 1, k.e);
    }
  }

  // Exits, and stops on wrong paths.

  /**
   * The reference comes to an instruction here that stops it in EX: an exit or unknown call, a bad string, no
   * result.
   */
  predicate FailsInEx(a: Arch) { a.ok && Performs(a) && !ExecutesFine(a, InstAt(a)) }

  predicate Exits(s: Machine, strat: Strategy, n: nat)
    requires Wellformed(s)
  {
    Run(s, strat, n).status.Running? && Run(s, strat, n + 1).status.StoppedInEX?
  }

  /** A program comes to its exit, under a strategy and a hierarchy, if and only if the steps up to there are good. */
  lemma ExitsIff(s: Machine, strat: Strategy, j: nat)
    requires Initial(s) && Sound(s.storage) && CodeStable(Start(s), j + 1) && FailsInEx(Slots(Start(s), true, j))
    ensures (exists n: nat :: Exits(s, strat, n)) <==> Reachable(s.storage, Start(s), j, strat)
  {
    hide Sound, CodeStable, Shaped, Exits, Reachable, FailsInEx;
    if Reachable(s.storage, Start(s), j, strat) {
      var n := ReachesExit(s, strat, j);
    }
    if n: nat :| Exits(s, strat, n) {
      ExitIsHere(s, strat, j, n);
      ExecutedIsReachable(s, strat, j, n);
    }
  }

  lemma ReachesExit(s: Machine, strat: Strategy, j: nat) returns (n: nat)
    requires Initial(s) && Sound(s.storage) && CodeStable(Start(s), j + 1) && FailsInEx(Slots(Start(s), true, j))
    requires Reachable(s.storage, Start(s), j, strat)
    ensures n < 3 * j + 6 && Exits(s, strat, n)
  {
    hide Cycle, Sound, CodeStable, Shaped, DepthsAt, Reachable, Slots, Performs, ExecutesFine, Inv, QuietGaps,
         WrongPath;
    n := ReachesEx(s, strat, j);
    if n > 0 {
      StagesFollow(s, strat, n - 1);
    }
    RunOnTrack(s, strat, n, j + 1);
    if !StoppedInBack(Run(s, strat, n + 1)) {
      CyclePassesEx(Run(s, strat, n), TrailAt(Start(s), DepthsAt(s, strat, n)), strat);
    }
  }

  lemma FailingStep(a: Arch)
    requires FailsInEx(a)
    ensures !Step(a).ok
  {
    hide ExecutesFine;
    StepPerforms(a);
  }

  /** Nothing is asked of code behind the failing step. */
  lemma StableToTheEnd(a: Arch, j: nat, m: nat, n: nat)
    requires j < m && CodeStable(a, m) && !Slots(a, true, j + 1).ok
    ensures CodeStable(a, n)
  {
    hide Slots, StableAfter;
    forall k | 0 <= k < n && Slots(a, true, k).ok ensures StableAfter(Slots(a, true, k)) {
      if k > j {
        PathEffects(a, true, j + 1, k);
      }
    }
  }

  lemma ExitIsHere(s: Machine, strat: Strategy, j: nat, n: nat)
    requires Initial(s) && Sound(s.storage) && CodeStable(Start(s), j + 1) && FailsInEx(Slots(Start(s), true, j))
    requires Exits(s, strat, n)
    ensures Executes(s, strat, n, j)
  {
    hide Cycle, Sound, CodeStable, Shaped, DepthsAt, Slots, FailsInEx, Inv;
    var a, k := Start(s), DepthsAt(s, strat, n);
    FailingSlots(a, j);
    StableToTheEnd(a, j, j + 1, n);
    RunRefines(s, strat, n);
    CycleStopInEx(Run(s, strat, n), TrailAt(a, k), strat);
    OneFailingStep(a, j, k.e);
  }

  lemma FailingSlots(a: Arch, j: nat)
    requires FailsInEx(Slots(a, true, j))
    ensures Slots(a, true, j).ok && !Slots(a, true, j + 1).ok
  {
    hide Performs, ExecutesFine, Slot;
    FailingStep(Slots(a, true, j));
  }

  lemma OneFailingStep(a: Arch, i: nat, j: nat)
    requires Slots(a, true, i).ok && !Slots(a, true, i + 1).ok && Slots(a, true, j).ok && !Step(Slots(a, true, j)).ok
    ensures i == j
  {
    hide Slot;
    if i < j {
      PathEffects(a, true, i + 1, j);
    } else if j < i {
      PathEffects(a, true, j + 1, i);
    }
  }

  lemma BranchIsFine(a: Arch, strat: Strategy)
    requires Mispredicts(a, strat) && a.ok
    ensures Step(a).ok
  {
    hide Decode, Word, Taken, NextReg, NextMem, NextPC, ValueAt, StoreAt;
    StepPerforms(a);
  }

  /**
   * In the cycle that finds a branch mispredicted, the process stops in ID exactly if the word fetched in its
   * place is no instruction, and in IF exactly if it is one but the word fetched behind it cannot be had.
   */
  lemma MispredictionStopsIff(s: Machine, strat: Strategy, j: nat, n: nat)
    requires Initial(s) && Sound(s.storage) && CodeStable(Start(s), j + 1)
    requires Executes(s, strat, n, j) && Mispredicts(Slots(Start(s), true, j), strat)
    ensures var a, b, w, status := Start(s), Slots(Start(s), true, j), WrongWord(Start(s), j, strat),
                                   Run(s, strat, n + 1).status;
            && (status.StoppedInID? <==> !Readable(w))
            && (status.StoppedInIF? <==> Readable(w) && !Fetchable(a.mem, PredictedPC(Guess(b, strat), w, strat)))
            && (status.Running? <==> Recovers(a, j, strat))
  {
    hide Cycle, Sound, CodeStable, Shaped, DepthsAt, Slot, Inv, QuietGaps, WrongPath, Readable, Fetchable,
         WideBlocks, PredictedPC, WrongWord, Guess, Performs, Mispredicted;
    if n > 0 {
      StagesFollow(s, strat, n - 1);
    }
    var r, a, k := Run(s, strat, n), Start(s), DepthsAt(s, strat, n);
    RunOnTrack(s, strat, n, j + 1);
    ExecutedIsReachable(s, strat, j, n);
    BranchIsFine(Slots(a, true, j), strat);
    if StoppedInBack(Run(s, strat, n + 1)) {
      CycleStopInEx(r, TrailAt(a, k), strat);
    }
    EInEx(r, a, k, strat);
    StopInIdIff(s, strat, n, j + 1);
    if !Run(s, strat, n + 1).status.StoppedInID? {
      StopInIfIff(s, strat, n, j + 1);
    }
  }

  lemma EInEx(s: Machine, a: Arch, k: Depths, strat: Strategy)
    requires Inv(s, TrailAt(a, k), strat) && !s.e.inst.Bubble?
    ensures Performs(Slots(a, true, k.e)) && s.e == EOf(Slots(a, true, k.e), strat)
  {
    hide Sound, View, StageW, StageM, StageDF, Slots, Performs;
  }

  // Zero words.

  /** Neither the word at step j nor, if that is a mispredicted branch, the one fetched in its place is zero. */
  predicate NoZeroAt(a: Arch, j: nat, strat: Strategy) {
    && !Skips(Slots(a, true, j))
    && (Mispredicts(Slots(a, true, j), strat) ==> WrongWord(a, j, strat) != 0)
  }

  /** What the cycle count asks of a run, seen on the program. */
  lemma NoZeroOnPath(s: Machine, strat: Strategy, n: nat)
    requires Initial(s) && Sound(s.storage) && CodeStable(Start(s), n) && Run(s, strat, n).status.Running?
    requires forall j :: 0 <= j < n ==> NoZeroAt(Start(s), j, strat)
    ensures NoZeroFetched(s, strat, n)
  {
    hide Run, Sound, StableAfter, NoZeroAt, LatchesZero, Slots;
    forall k | 0 <= k < n ensures !LatchesZero(Run(s, strat, k), strat) {
      RunningEarlier(s, strat, k + 1, n);
      NoZeroCycle(s, strat, k);
    }
  }

  lemma NoZeroCycle(s: Machine, strat: Strategy, n: nat)
    requires Initial(s) && Sound(s.storage) && CodeStable(Start(s), n + 1) && Run(s, strat, n + 1).status.Running?
    requires forall j :: 0 <= j <= n ==> NoZeroAt(Start(s), j, strat)
    ensures !LatchesZero(Run(s, strat, n), strat)
  {
    hide Cycle, Slots, Sound, StableAfter, DepthsAt, OnTrack, NextDepths, LatchesZero, NoZeroAt;
    var r, a, k := Run(s, strat, n), Start(s), DepthsAt(s, strat, n);
    RunningBefore(s, strat, n + 1);
    RunOnTrack(s, strat, n);
    RunOnTrack(s, strat, n + 1);
    NextAt(s, strat, n);
    assert NoZeroAt(a, k.d, strat) && NoZeroAt(a, k.f, strat);
    LatchesNoZero(r, a, k, strat);
  }

  lemma LatchesNoZero(s: Machine, a: Arch, k: Depths, strat: Strategy)
    requires OnTrack(s, a, k, strat) && OnTrack(Cycle(s, strat), a, NextDepths(s, k), strat)
    requires NoZeroAt(a, k.d, strat) && NoZeroAt(a, k.f, strat)
    ensures !LatchesZero(s, strat)
  {
    hide Cycle, Inv, Slots, Mispredicted, JumpInID, HeldBack, Skips, QuietGaps, Shaped, Mispredicts;
    if LatchesZero(s, strat) {
      var s', k' := Cycle(s, strat), NextDepths(s, k);
      CycleFetches(s, TrailAt(a, k), strat);
      InvPlaces(s', a, k', strat);
      KindsAreApart(s'.e);
      if Mispredicted(s'.e) {
        BranchInEx(s', a, k', strat);
      }
    }
  }

  lemma {:induction false} RunningEarlier(s: Machine, strat: Strategy, k: nat, n: nat)
    requires Wellformed(s) && k <= n && Run(s, strat, n).status.Running?
    ensures Run(s, strat, k).status.Running?
    decreases n
  {
    hide Cycle;
    if k < n {
      RunningBefore(s, strat, n);
      RunningEarlier(s, strat, k, n - 1);
    }
  }
}
