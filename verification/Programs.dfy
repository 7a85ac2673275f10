/** Three small programs, loaded and set up as `main` does it, and what becomes of them. */
module Programs {
  import opened Wrappers
  import opened Bits
  import opened Address
  import opened Hierarchy
  import opened Coherence
  import opened Transparency
  import opened Runs
  import opened Isa
  import opened PagedMemory
  import opened Configuration
  import opened Pipeline
  import opened Sequential
  import opened Refinement
  import opened Accounting
  import opened Execution
  import opened WrongPaths
  import opened Stops
  import opened Survival
  import opened LostJumps
  import opened Startup
  import Loader

  // Code in the first page.

  /** ADDI x0, x0, 0. */
  const NOP := 0x13
  /** BEQ x0, x0, 0: branches to itself. */
  const LOOP := 0x63
  /** BEQ x0, x0, 8: branches over the next word. */
  const SKIP := 0x463
  /** LD x1, 0(x0). */
  const LD := 0x3083
  /** JALR x0, 0(x1). */
  const JALR := 0x8067
  /** No instruction. */
  const BAD := 0x7F

  /** The words of a program, and no-operations behind them. */
  function WordAt(ws: seq<nat>, i: nat): nat { if i < |ws| then ws[i] else NOP }

  predicate Words(ws: seq<nat>) { forall i :: 0 <= i < |ws| ==> ws[i] < U32 }

  function CodeByte(ws: seq<nat>, a: nat): byte { ToBytes(WordAt(ws, a / 4), 4)[a % 4] }

  ghost predicate Holds(mem: map<nat, byte>, ws: seq<nat>) {
    forall a: nat :: a < PAGE ==> a in mem && mem[a] == CodeByte(ws, a)
  }

  lemma FourBytes(w: nat)
    requires w < U32
    ensures FromBytes(ToBytes(w, 4)) == w
  {
    BytesRoundTrip(w, 4);
    Pow2Of32();
  }

  lemma HeldWord(mem: map<nat, byte>, ws: seq<nat>, pc: nat)
    requires Holds(mem, ws) && Words(ws) && pc % 4 == 0 && pc < PAGE
    ensures Word(mem, pc) == WordAt(ws, pc / 4) && Fetchable(mem, pc)
  {
    hide FromBytes, ToBytes;
    var w := WordAt(ws, pc / 4);
    forall k | 0 <= k < 4 ensures pc + k < PAGE && pc + k in mem && mem[pc + k] == ToBytes(w, 4)[k] {
      assert (pc + k) / 4 == pc / 4 && (pc + k) % 4 == k;
    }
    assert ReadBytes(mem, pc % U32, 4) == ToBytes(w, 4);
    FourBytes(w);
  }

  // Loading.

  function CodeSegment(ws: seq<nat>): Loader.Segment {
    Loader.Segment(0, PAGE, seq(PAGE, a requires 0 <= a => CodeByte(ws, a)))
  }

  /** The state of the simulator when `main` has loaded the program and starts the clock. */
  function Loaded(ws: seq<nat>): Machine
    requires Loader.LoadSegments(map[], [CodeSegment(ws)]).Loaded?
  {
    Machine(InitialRegisters(), FRegion(0), ZERO_D, ZERO_E, ZERO_M, ZERO_W,
            NewHierarchy(StartImage([CodeSegment(ws)])), [], [], Perf(0, 0, 0, 0, 0, 0, 0, 0, 0, 0), Running)
  }

  predicate SetUp(s: Machine, ws: seq<nat>) {
    Loader.LoadSegments(map[], [CodeSegment(ws)]).Loaded? && s == Loaded(ws)
  }

  lemma CodeIsLoaded(ws: seq<nat>)
    ensures Loader.LoadSegments(map[], [CodeSegment(ws)]).Loaded?
    ensures var m := Loader.LoadSegments(map[], [CodeSegment(ws)]).bytes; Holds(m, ws) && WholePages(m)
  {
    hide CodeByte, Loader.LoadSegment;
    var seg := CodeSegment(ws);
    assert Loader.Loadable(map[], seg) && Loader.Blank(map[], seg);
    Loader.SegmentImage(map[], seg);
    assert [seg][..0] == [];
    assert Loader.LoadSegments(map[], []) == Loader.Loaded(map[]);
    assert Loader.LoadSegments(map[], [seg]) == Loader.LoadSegment(map[], seg);
    OnePage(ws);
    var m := Loader.LoadSegment(map[], seg).bytes;
    forall a: nat | a < PAGE ensures a in m && m[a] == CodeByte(ws, a) {
      assert Loader.InImage(seg, a) && m[a] == Loader.ByteAfter(map[], seg, a);
    }
  }

  lemma OnePage(ws: seq<nat>)
    requires Loader.LoadSegments(map[], [CodeSegment(ws)]).Loaded?
    ensures WholePages(Loader.LoadSegments(map[], [CodeSegment(ws)]).bytes)
  {
    hide CodeByte, Loader.LoadSegments;
    var segs := [CodeSegment(ws)];
    Loader.LoadedKeys(segs);
    assert segs[0].PageCount() == 1 && PageOf(segs[0].start) == 0;
    forall a | a in Loader.LoadSegments(map[], segs).bytes ensures IsAddress(a) {
      assert Loader.PagedBefore(segs, 1, a) && Loader.Pages(segs[0], a);
    }
  }

  lemma PageStaysWhole(m: map<nat, byte>, n: nat)
    requires WholePages(m) && n < 0x10_0000
    ensures WholePages(WithPage(m, n))
  {
    var m' := WithPage(m, n);
    forall a | a in m' ensures IsAddress(a) {
    }
    forall a, b | a in m' && IsAddress(b) && SamePage(a, b) ensures b in m' {
      if a !in m {
        assert PageOf(a) == n && PageOf(b) == n;
      }
    }
  }

  lemma {:induction false} StackIsWhole(m: map<nat, byte>, top: nat, count: nat)
    requires WholePages(m) && count <= top + 1 && top < 0x10_0000
    ensures WholePages(PagesDown(m, top, count))
    ensures forall a :: a in m ==> a in PagesDown(m, top, count) && PagesDown(m, top, count)[a] == m[a]
  {
    hide WholePages;
    if count > 0 {
      StackIsWhole(m, top, count - 1);
      PageStaysWhole(PagesDown(m, top, count - 1), top - (count - 1));
    }
  }

  /** Where a program can be: entered at 0, over a sound hierarchy with room for a double word. */
  ghost predicate Ready(s: Machine, ws: seq<nat>) {
    && Initial(s) && Sound(s.storage) && s.f.predPC == 0 && Holds(View(s.storage), ws) && Words(ws)
    && (s.storage.Cache? ==> s.storage.level.cfg.geo.offBits >= 3)
  }

  /** The configured simulator is there once it has loaded the program. */
  lemma LoadedIsReady(ws: seq<nat>)
    requires Words(ws)
    ensures Loader.LoadSegments(map[], [CodeSegment(ws)]).Loaded? && Ready(Loaded(ws), ws)
  {
    hide CodeByte, WholePages, PagesDown, Loader.LoadSegments, Sound, View, Cold, Configured;
    CodeIsLoaded(ws);
    var m := Loader.LoadSegments(map[], [CodeSegment(ws)]).bytes;
    StackIsWhole(m, STACK_TOP, STACK_PAGES);
    var s := Loaded(ws);
    NewIsInitial(s, StartImage([CodeSegment(ws)]), 0);
    ConfiguredLevels(s.storage);
    SixtyFourBytes(s.storage);
  }

  lemma SixtyFourBytes(st: Storage)
    requires Shaped(st) && st.Cache? && st.level.cfg == Configured()[0]
    ensures st.level.cfg.geo.offBits == 6
  {
  }

  // The words.

  lemma DecodesNop()
    ensures Decode(NOP) == Some(Decoded(Addi, 0, -1, 0, 0, 0, 0))
  {
  }

  lemma DecodesBranches()
    ensures Decode(LOOP) == Some(Decoded(Beq, 0, 0, -1, 0, 0, 0))
    ensures Decode(SKIP) == Some(Decoded(Beq, 0, 0, -1, 0, 0, 8))
  {
    assert Opcode(LOOP) == 0x63 && Funct3(LOOP) == 0 && Rs1(LOOP) == 0 && Rs2(LOOP) == 0 && ImmSB(LOOP) == 0;
    assert Opcode(SKIP) == 0x63 && Funct3(SKIP) == 0 && Rs1(SKIP) == 0 && Rs2(SKIP) == 0 && ImmSB(SKIP) == 8;
    hide Opcode, Funct3, Funct6, Funct7, Rd, Rs1, Rs2, ImmI, ImmS, ImmSB, ImmU, ImmUJ;
  }

  lemma DecodesBad()
    ensures Decode(BAD) == None
  {
    assert Opcode(BAD) == 0x7F;
    hide Opcode, Funct3, Funct6, Funct7, Rd, Rs1, Rs2, ImmI, ImmS, ImmSB, ImmU, ImmUJ;
  }

  /** Where the fetch goes behind each of the words. */
  lemma Guesses(pc: nat, w: nat, strat: Strategy)
    requires w == NOP || w == LD || w == JALR || w == SKIP || w == LOOP
    ensures TakeBranch(w, strat) <==> (w == SKIP || w == LOOP) && strat.AlwaysTaken?
    ensures PredictedPC(pc, w, strat) ==
            Wrap(pc + if !strat.AlwaysTaken? || (w != SKIP && w != LOOP) then 4 else if w == SKIP then 8 else 0)
  {
  }

  // Steps of the reference.

  /** Nothing has failed, no store has been made, and the program counter is there. */
  predicate Here(a: Arch, b: Arch, pc: nat) { b.ok && b.mem == a.mem && b.pc == pc && |b.reg| == 32 && b.reg[0] == 0 }

  lemma BranchStep(a: Arch, b: Arch, pc: nat, offset: nat)
    requires Here(a, b, pc) && pc + offset < PAGE && Fetchable(a.mem, pc)
    requires Word(a.mem, pc) == (if offset == 0 then LOOP else SKIP) && (offset == 0 || offset == 8)
    ensures Here(a, Step(b), pc + offset) && Performs(b) && IsBranch(InstAt(b).kind)
    ensures Step(b).lastLoad == 0 && |Step(b).log| == |b.log| + 1
  {
    hide Decode, Word, Fetchable;
    DecodesBranches();
    StepPerforms(b);
  }

  lemma LoadsFirst(a: Arch, b: Arch)
    requires Here(a, b, 0) && Fetchable(a.mem, 0) && Word(a.mem, 0) == LD && Covers(a.mem, 0, 8)
    ensures Here(a, Step(b), 4) && Performs(b) && InstAt(b).kind == Ld && AddrAt(b, InstAt(b)) == 0
    ensures Step(b).lastLoad == 1 && |Step(b).log| == |b.log| + 1
  {
    hide Decode, Word, Fetchable, FromBytes, ReadBytes;
    ExampleDecodes();
    StepPerforms(b);
  }

  /** The jump behind its load is skipped. */
  lemma LosesJump(a: Arch, b: Arch)
    requires Here(a, b, 4) && Fetchable(a.mem, 4) && Word(a.mem, 4) == JALR && b.lastLoad == 1
    ensures Here(a, Step(b), 8) && Skips(b) && Step(b).log == b.log
  {
    hide Decode, Word, Fetchable;
    ExampleDecodes();
  }

  // The loop that all three programs end in.

  lemma {:induction false} LoopSteps(a: Arch, i: nat, pc: nat, k: nat)
    requires Here(a, Slots(a, true, i), pc) && pc < PAGE && Fetchable(a.mem, pc) && Word(a.mem, pc) == LOOP
    ensures Here(a, Slots(a, true, i + k), pc)
  {
    hide Slot, Word, Fetchable;
    if k > 0 {
      LoopSteps(a, i, pc, k - 1);
      BranchStep(a, Slots(a, true, i + k - 1), pc, 0);
    }
  }

  /** No store is ever made. */
  ghost predicate Unwritten(a: Arch) { forall k: nat :: Slots(a, true, k).mem == a.mem }

  lemma UnwrittenIsStable(a: Arch, n: nat)
    requires Unwritten(a)
    ensures CodeStable(a, n)
  {
    hide Slot, Word;
    forall k | 0 <= k < n ensures StableAfter(Slots(a, true, k)) {
      assert Slots(a, true, k + 1) == Step(Slots(a, true, k)) && Slots(a, true, k + 2) == Step(Slots(a, true, k + 1));
    }
  }

  lemma Predicted(b: Arch, strat: Strategy)
    requires Performs(b) && (Word(b.mem, b.pc) == LOOP || Word(b.mem, b.pc) == SKIP)
    ensures Mispredicts(b, strat) <==> !strat.AlwaysTaken?
  {
    hide Decode, Word, Fetchable, TakeBranch, ImmSB;
    DecodesBranches();
    Guesses(b.pc, Word(b.mem, b.pc), strat);
  }

  lemma WrapSmall(x: nat)
    requires x < PAGE
    ensures Wrap(x) == x
  {
  }

  /** A taken branch to a place in the page. */
  predicate BranchAt(ws: seq<nat>, pc: nat, offset: nat) {
    && pc % 4 == 0 && pc + 8 < PAGE && (offset == 0 || offset == 8)
    && WordAt(ws, pc / 4) == if offset == 0 then LOOP else SKIP
  }

  /** Guessed not to be taken, it does no harm if the word behind it is a no-operation. */
  lemma BranchRecovers(a: Arch, ws: seq<nat>, j: nat, pc: nat, strat: Strategy)
    requires Holds(a.mem, ws) && Words(ws) && Unwritten(a) && Here(a, Slots(a, true, j), pc)
    requires pc % 4 == 0 && pc + 8 < PAGE && WordAt(ws, pc / 4 + 1) == NOP && Guess(Slots(a, true, j), strat) == pc + 4
    ensures Recovers(a, j, strat) && WrongWord(a, j, strat) == NOP
  {
    hide Decode, Word, Fetchable, Slot, Performs, Mispredicts, PredictedPC, WordAt;
    HeldWord(a.mem, ws, pc + 4);
    HeldWord(a.mem, ws, pc + 8);
    Guesses(pc + 4, NOP, strat);
    WrapSmall(pc + 8);
    DecodesNop();
  }

  /** It is a good step unless the word behind it does harm when it is guessed. */
  lemma GoodBranch(st: Storage, a: Arch, ws: seq<nat>, j: nat, pc: nat, offset: nat, strat: Strategy)
    requires Shaped(st) && Holds(a.mem, ws) && Words(ws) && Unwritten(a) && Here(a, Slots(a, true, j), pc)
    requires BranchAt(ws, pc, offset) && (strat.AlwaysTaken? || WordAt(ws, pc / 4 + 1) == NOP)
    ensures GoodStep(st, a, j, strat) && NoZeroAt(a, j, strat)
  {
    hide Decode, Word, Fetchable, Slot, Performs, Mispredicts, PredictedPC, Skips, WordAt, LeavesBlock, WrongWord;
    var b := Slots(a, true, j);
    HeldWord(a.mem, ws, pc);
    BranchStep(a, b, pc, offset);
    BranchStays(st, b);
    Predicted(b, strat);
    Guesses(pc, Word(a.mem, pc), strat);
    var guess := pc + if !strat.AlwaysTaken? then 4 else offset;
    WrapSmall(guess);
    HeldWord(a.mem, ws, guess);
    if !strat.AlwaysTaken? {
      BranchRecovers(a, ws, j, pc, strat);
    }
    if Skips(b) {
      SkipDoesNotPerform(b);
    }
  }

  lemma BranchStays(st: Storage, b: Arch)
    requires Shaped(st) && Performs(b) && IsBranch(InstAt(b).kind)
    ensures !LeavesBlock(st, b)
  {
    hide Performs, Within;
  }

  lemma RoomForLoad(st: Storage)
    requires Shaped(st) && (st.Cache? ==> st.level.cfg.geo.offBits >= 3)
    ensures WideBlocks(st) && Within(st, 0, 8)
  {
    if st.Cache? {
      var g := st.level.cfg.geo;
      SplitIsDivision(g, 0);
      Pow2Monotone(3, g.offBits);
      assert Pow2(3) == 8 by { assert Pow2(1) == 2 && Pow2(2) == 4; }
      assert g.BlockSize() >= 8;
    }
  }

  lemma RunsAlways(s: Machine, strat: Strategy)
    requires Initial(s) && Sound(s.storage) && Unwritten(Start(s)) && WideBlocks(s.storage)
    requires forall j: nat :: GoodStep(s.storage, Start(s), j, strat)
    ensures RunsForever(s, strat) && forall n: nat :: CodeStable(Start(s), n)
  {
    hide Run, Sound, CodeStable, Unwritten, Start, GoodStep, WideBlocks;
    forall n: nat ensures CodeStable(Start(s), n) {
      UnwrittenIsStable(Start(s), n);
    }
    RunsForeverIff(s, strat);
  }

  // A loop of one instruction.

  lemma LoopPath(a: Arch, k: nat)
    requires Holds(a.mem, [LOOP]) && Here(a, a, 0)
    ensures Here(a, Slots(a, true, k), 0)
  {
    hide Word, Fetchable, Slot;
    HeldWord(a.mem, [LOOP], 0);
    LoopSteps(a, 0, 0, k);
  }

  /**
   * A machine as `main` sets it up that meets the hypotheses of all run theorems together, for every prediction
   * strategy and without end.
   */
  lemma RunsExist(strat: Strategy) returns (s: Machine)
    ensures SetUp(s, [LOOP]) && Initial(s) && Sound(s.storage) && Configs(s.storage) == Configured()
    ensures RunsForever(s, strat) && forall n: nat :: CodeStable(Start(s), n) && NoZeroFetched(s, strat, n)
  {
    hide Sound, View, Holds, NoZeroFetched, Run, GoodStep, CodeStable, Slots, StartImage, NoZeroAt, WideBlocks,
         Here;
    var ws := [LOOP];
    LoadedIsReady(ws);
    s := Loaded(ws);
    var a := Start(s);
    ReadyIsHere(s, ws);
    forall k: nat ensures Slots(a, true, k).mem == a.mem {
      LoopPath(a, k);
      HereKeeps(a, Slots(a, true, k), 0);
    }
    forall j: nat ensures GoodStep(s.storage, a, j, strat) && NoZeroAt(a, j, strat) {
      LoopPath(a, j);
      GoodBranch(s.storage, a, ws, j, 0, 0, strat);
    }
    RoomForLoad(s.storage);
    RunsAlways(s, strat);
    forall n: nat ensures NoZeroFetched(s, strat, n) {
      NoZeroOnPath(s, strat, n);
    }
  }

  lemma ReadyIsHere(s: Machine, ws: seq<nat>)
    requires Ready(s, ws)
    ensures var a := Start(s); Here(a, a, 0) && Holds(a.mem, ws) && a.lastLoad == 0
  {
    hide Sound, View, Holds;
  }

  lemma HereKeeps(a: Arch, b: Arch, pc: nat)
    requires Here(a, b, pc)
    ensures b.mem == a.mem && b.ok
  {
  }

  // A taken branch over a word that is no instruction.

  lemma SkipPath(a: Arch, k: nat)
    requires Holds(a.mem, [SKIP, BAD, LOOP]) && Here(a, a, 0)
    ensures Here(a, Slots(a, true, k), if k == 0 then 0 else 8)
  {
    hide Word, Fetchable, Slot;
    var ws := [SKIP, BAD, LOOP];
    HeldWord(a.mem, ws, 0);
    HeldWord(a.mem, ws, 8);
    if k > 0 {
      BranchStep(a, a, 0, 8);
      assert Slots(a, true, 1) == Step(Slots(a, true, 0));
      LoopSteps(a, 1, 8, k - 1);
    }
  }

  lemma SkipUnwritten(a: Arch)
    requires Holds(a.mem, [SKIP, BAD, LOOP]) && Here(a, a, 0)
    ensures Unwritten(a)
  {
    hide Slots, Here;
    forall k: nat ensures Slots(a, true, k).mem == a.mem {
      SkipPath(a, k);
      HereKeeps(a, Slots(a, true, k), if k == 0 then 0 else 8);
    }
  }

  /** Guessed not to be taken, the branch sends the bad word to ID. */
  lemma BadGuess(st: Storage, a: Arch, strat: Strategy)
    requires Shaped(st) && WideBlocks(st) && Holds(a.mem, [SKIP, BAD, LOOP]) && Here(a, a, 0) && !strat.AlwaysTaken?
    ensures Reachable(st, a, 0, strat) && Mispredicts(a, strat) && !Readable(WrongWord(a, 0, strat))
  {
    hide Word, Decode, Fetchable, PredictedPC, Performs, Mispredicts, WideBlocks;
    var ws := [SKIP, BAD, LOOP];
    HeldWord(a.mem, ws, 0);
    HeldWord(a.mem, ws, 4);
    BranchStep(a, a, 0, 8);
    Predicted(a, strat);
    Guesses(0, SKIP, strat);
    WrapSmall(4);
    DecodesBad();
    assert Slots(a, true, 0) == a;
  }

  /**
   * The strategy decides whether a program survives: predicted taken, its first branch is followed forever;
   * predicted not taken, within six cycles it is the word jumped over that ends the process in ID.
   */
  lemma StrategiesDisagree(strat: Strategy) returns (s: Machine, n: nat)
    requires !strat.AlwaysTaken?
    ensures SetUp(s, [SKIP, BAD, LOOP]) && Initial(s) && Sound(s.storage) && Configs(s.storage) == Configured()
    ensures RunsForever(s, AlwaysTaken)
    ensures n <= 6 && Run(s, strat, n).status.StoppedInID?
  {
    hide Sound, View, Holds, Run, GoodStep, CodeStable, Slots, StartImage, WideBlocks, Here, Unwritten, Executes,
         Reachable, Mispredicts, Readable, WrongWord;
    var ws := [SKIP, BAD, LOOP];
    LoadedIsReady(ws);
    s := Loaded(ws);
    var a := Start(s);
    ReadyIsHere(s, ws);
    SkipUnwritten(a);
    RoomForLoad(s.storage);
    forall j: nat ensures GoodStep(s.storage, a, j, AlwaysTaken) {
      SkipPath(a, j);
      GoodBranch(s.storage, a, ws, j, if j == 0 then 0 else 8, if j == 0 then 8 else 0, AlwaysTaken);
    }
    RunsAlways(s, AlwaysTaken);
    BadGuess(s.storage, a, strat);
    n := ReachesEx(s, strat, 0);
    assert Slots(a, true, 0) == a by { NoSteps(a); }
    MispredictionStopsIff(s, strat, 0, n);
    n := n + 1;
  }

  lemma NoSteps(a: Arch)
    ensures Slots(a, true, 0) == a
  {
  }

  // A jump behind the load of its target.

  lemma LostPath(a: Arch, k: nat)
    requires Holds(a.mem, [LD, JALR, LOOP]) && Here(a, a, 0) && Covers(a.mem, 0, 8)
    ensures Here(a, Slots(a, true, k), if k == 0 then 0 else if k == 1 then 4 else 8)
    ensures k == 1 ==> Slots(a, true, k).lastLoad == 1 && Skips(Slots(a, true, k))
    ensures k == 3 ==> |Slots(a, true, k).log| == |a.log| + 2
  {
    hide Word, Fetchable, Slot, Skips;
    var ws := [LD, JALR, LOOP];
    HeldWord(a.mem, ws, 0);
    HeldWord(a.mem, ws, 4);
    HeldWord(a.mem, ws, 8);
    LoadsFirst(a, a);
    var b := Step(a);
    LosesJump(a, b);
    assert Slots(a, true, 0) == a && Slots(a, true, 1) == b && Slots(a, true, 2) == Step(b);
    if k > 1 {
      LoopSteps(a, 2, 8, k - 2);
      BranchStep(a, Step(b), 8, 0);
      assert Slots(a, true, 3) == Step(Step(b));
    }
  }

  lemma DoubleWordHeld(mem: map<nat, byte>, ws: seq<nat>)
    requires Holds(mem, ws)
    ensures Covers(mem, 0, 8)
  {
    hide CodeByte;
  }

  lemma LoadStays(st: Storage, b: Arch, strat: Strategy)
    requires Shaped(st) && Performs(b) && InstAt(b).kind == Ld && AddrAt(b, InstAt(b)) == 0 && Within(st, 0, 8)
    ensures !LeavesBlock(st, b) && !Mispredicts(b, strat)
  {
    hide Performs, Within, AddrAt, ValA, ValB;
  }

  lemma GoodLoad(st: Storage, a: Arch, strat: Strategy)
    requires Shaped(st) && Holds(a.mem, [LD, JALR, LOOP]) && Here(a, a, 0) && Within(st, 0, 8)
    ensures GoodStep(st, a, 0, strat)
  {
    hide Word, Decode, Fetchable, PredictedPC, Performs, Within, LeavesBlock, Mispredicted, AddrAt;
    var ws := [LD, JALR, LOOP];
    HeldWord(a.mem, ws, 0);
    HeldWord(a.mem, ws, 4);
    DoubleWordHeld(a.mem, ws);
    LoadsFirst(a, a);
    LoadStays(st, a, strat);
    Guesses(0, LD, strat);
    WrapSmall(4);
    assert Slots(a, true, 0) == a && Slots(a, true, 1) == Step(a);
  }

  lemma GoodSkip(st: Storage, a: Arch, strat: Strategy)
    requires Shaped(st) && Holds(a.mem, [LD, JALR, LOOP]) && Here(a, Slots(a, true, 1), 4)
    requires Skips(Slots(a, true, 1)) && Slots(a, true, 2).ok
    ensures GoodStep(st, a, 1, strat)
  {
    hide Word, Decode, Fetchable, PredictedPC, Performs, Slots, Skips;
    var ws := [LD, JALR, LOOP];
    HeldWord(a.mem, ws, 4);
    HeldWord(a.mem, ws, 8);
    SkipDoesNotPerform(Slots(a, true, 1));
    Guesses(4, JALR, strat);
    WrapSmall(8);
  }

  lemma LostSteps(st: Storage, a: Arch, strat: Strategy)
    requires Shaped(st) && Within(st, 0, 8) && Holds(a.mem, [LD, JALR, LOOP]) && Here(a, a, 0)
    ensures Unwritten(a) && forall j: nat :: GoodStep(st, a, j, strat)
  {
    hide Slots, Here, GoodStep, Within, Holds, Skips;
    var ws := [LD, JALR, LOOP];
    DoubleWordHeld(a.mem, ws);
    forall k: nat ensures Slots(a, true, k).mem == a.mem {
      LostPath(a, k);
      HereKeeps(a, Slots(a, true, k), if k == 0 then 0 else if k == 1 then 4 else 8);
    }
    forall j: nat ensures GoodStep(st, a, j, strat) {
      LostPath(a, j);
      if j == 0 {
        GoodLoad(st, a, strat);
      } else if j == 1 {
        LostPath(a, 2);
        HereKeeps(a, Slots(a, true, 2), 8);
        GoodSkip(st, a, strat);
      } else {
        GoodBranch(st, a, ws, j, 8, 0, strat);
      }
    }
  }

  /** The jump is the second step of the plain machine, and reads what the first one loads. */
  lemma JumpIsHazard(a: Arch)
    requires Holds(a.mem, [LD, JALR, LOOP]) && a.pc == 0 && a.lastLoad == 0
    ensures HazardFree(a, 1) && HazardAt(a, 1) && |Slots(a, false, 1).log| <= |a.log| + 1
  {
    hide Word, Slot;
    var ws := [LD, JALR, LOOP];
    HeldWord(a.mem, ws, 0);
    HeldWord(a.mem, ws, 4);
    LostJumpExample(a);
    assert Slots(a, false, 0) == a && Slots(a, false, 1) == Slot(a, false);
    OneRetirement(a, false);
  }

  lemma OneRetirement(a: Arch, lossy: bool)
    ensures |Slot(a, lossy).log| <= |a.log| + 1
  {
    hide Decode, Word, NextReg, NextMem, NextPC, CallAt, ValueAt, StoreAt, ExecutesFine, AccessAllocated, Fetchable;
  }

  /** Ten cycles take three steps past MEM, and two of them retire. */
  lemma TwoRetired(s: Machine, strat: Strategy, n: nat)
    requires Initial(s) && Sound(s.storage) && CodeStable(Start(s), n) && Run(s, strat, n).status.Running? && n >= 10
    requires |Slots(Start(s), true, 3).log| == 2
    ensures |Run(s, strat, n).log| >= 2
  {
    hide Run, Slots, Sound, CodeStable, DepthsAt, Passed, StageW, StageM, StageE, StageDF, View;
    RunRefines(s, strat, n);
    RunPasses(s, strat, n);
    PathEffects(Start(s), true, 3, DepthsAt(s, strat, n).m);
  }

  /**
   * A machine as `main` sets it up that loses a jump, under any strategy: it runs forever, and from the tenth cycle
   * on its retirements are no longer those of the plain machine.
   */
  lemma RunLosesJump(strat: Strategy) returns (s: Machine)
    ensures SetUp(s, [LD, JALR, LOOP]) && Initial(s) && Sound(s.storage) && Configs(s.storage) == Configured()
    ensures RunsForever(s, strat) && HazardFree(Start(s), 1) && HazardAt(Start(s), 1)
    ensures forall n: nat :: n >= 10 ==> !PlainPrefix(Start(s), Run(s, strat, n).log)
  {
    hide Sound, View, Holds, Run, GoodStep, CodeStable, Slots, StartImage, WideBlocks, Here, Unwritten, HazardAt,
         PlainPrefix, Within;
    var ws := [LD, JALR, LOOP];
    LoadedIsReady(ws);
    s := Loaded(ws);
    var a := Start(s);
    ReadyIsHere(s, ws);
    RoomForLoad(s.storage);
    LostSteps(s.storage, a, strat);
    RunsAlways(s, strat);
    JumpIsHazard(a);
    DoubleWordHeld(a.mem, ws);
    LostPath(a, 3);
    forall n: nat | n >= 10 ensures !PlainPrefix(a, Run(s, strat, n).log) {
      TwoRetired(s, strat, n);
      var m := RetiresPlainPrefixIff(s, strat, n);
      NotBeforeJump(a, m);
    }
  }

  lemma NotBeforeJump(a: Arch, m: nat)
    requires |Slots(a, true, m).log| >= |a.log| + 2
    ensures m > 1
  {
    hide Slot;
    OneRetirement(a, true);
    assert Slots(a, true, 0) == a && Slots(a, true, 1) == Slot(a, true);
  }
}
