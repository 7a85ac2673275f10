/** The simulator from start to finish: load the program, allocate the stack, set up the caches, run. */
module Startup {
  import opened Bits
  import opened Hierarchy
  import opened Transparency
  import opened Runs
  import opened Isa
  import opened PagedMemory
  import opened CacheObject
  import opened Configuration
  import opened Pipeline
  import opened Simulator
  import opened Sequential
  import opened Execution
  import opened Survival
  import Loader

  const STACK_START := 0x7fffc000
  const STACK_SIZE := 0x400000

  /** The page table hands out whole pages. */
  lemma MemoryIsWholePages(memory: PagedMemory.Memory)
    requires memory.Valid()
    ensures WholePages(memory.Contents)
  {
  }

  /** `count` pages from `top` downwards. */
  function PagesDown(m: map<nat, byte>, top: nat, count: nat): map<nat, byte>
    requires count <= top + 1
  {
    if count == 0 then m else WithPage(PagesDown(m, top, count - 1), top - (count - 1))
  }

  const STACK_TOP := 0x7fffc
  const STACK_PAGES := 0x400

  method AllocStack(memory: PagedMemory.Memory)
    requires memory.Valid()
    modifies memory.Repr
    ensures memory.Valid() && fresh(memory.Repr - old(memory.Repr)) && memory.accessTime == old(memory.accessTime)
    ensures memory.Contents == PagesDown(old(memory.Contents), STACK_TOP, STACK_PAGES)
  {
    hide Memory.Valid, WithPage;
    var addr := STACK_START;
    ghost var k := 0;
    while addr > STACK_START - STACK_SIZE
      invariant memory.Valid() && fresh(memory.Repr - old(memory.Repr)) && memory.accessTime == old(memory.accessTime)
      invariant addr == STACK_START - k * PAGE && k <= STACK_PAGES
      invariant memory.Contents == PagesDown(old(memory.Contents), STACK_TOP, k)
      decreases addr
    {
      assert PageOf(addr) == STACK_TOP - k;
      var present := memory.IsValidAddr(addr);
      if present {
        memory.PagePresent(addr);
      } else {
        memory.Alloc(addr);
      }
      addr := addr - PAGE;
      k := k + 1;
    }
  }

  ghost predicate HoldsNothing(c: Cache)
    reads c
  {
    forall i, w :: 0 <= i < |c.Contents.sets| && 0 <= w < |c.Contents.sets[i]| ==> !c.Contents.sets[i][w].valid
  }

  /** What an object chain of one level stands for. */
  lemma LevelState(c: Cache)
    requires c.Valid()
    ensures c.State() == Storage.Cache(c.Contents, c.LowerState()) && c.Contents.cfg == c.cfg
    ensures HoldsNothing(c) ==> ColdLevel(c.Contents)
    ensures c.lower.ToCache? ==> c.lower.cache.Valid() && c.LowerState() == c.lower.cache.State()
    ensures c.lower.ToMemory? ==> c.lower.memory.Valid() && c.LowerState() == c.lower.memory.State()
  {
    hide Pow2, Memory.Valid;
  }

  /** `main`'s three caches over a memory: the chain is the configured one, cold, over the memory's bytes. */
  method BuildCaches(memory: PagedMemory.Memory) returns (l1: Cache)
    requires memory.Valid()
    ensures l1.Valid() && fresh(l1.Repr - memory.Repr) && memory.Valid()
    ensures Configs(l1.State()) == Configured() && Cold(l1.State()) && Bottom(l1.State()) == memory.Contents
    ensures WholePages(memory.Contents) && MemoryLatency(l1.State()) == memory.latency
  {
    hide Pow2, Memory.Valid, Cache.LevelValid, Cache.LowerValid;
    var cfgs := Configured();
    assert cfgs[0].Valid() && cfgs[1].Valid() && cfgs[2].Valid();
    MemoryIsWholePages(memory);
    var llc := new Cache(cfgs[2], ToMemory(memory));
    var l2 := new Cache(cfgs[1], ToCache(llc));
    l1 := new Cache(cfgs[0], ToCache(l2));
    LevelState(l1);
    LevelState(l2);
    LevelState(llc);
    hide Cache.Valid;
    ChainOf(l1.State(), l1.Contents, l2.Contents, llc.Contents, memory.State());
  }

  lemma ChainOf(st: Storage, a: Level, b: Level, c: Level, memory: Storage)
    requires st == Storage.Cache(a, Storage.Cache(b, Storage.Cache(c, memory))) && memory.Memory?
    requires a.cfg == Configured()[0] && b.cfg == Configured()[1] && c.cfg == Configured()[2]
    ensures Configs(st) == Configured() && Bottom(st) == memory.bytes && MemoryLatency(st) == memory.latency
    ensures ColdLevel(a) && ColdLevel(b) && ColdLevel(c) ==> Cold(st)
  {
    assert Configs(memory) == [] && Bottom(memory) == memory.bytes && MemoryLatency(memory) == memory.latency;
    var low := Storage.Cache(c, memory);
    assert Configs(low) == [c.cfg] && Bottom(low) == memory.bytes && MemoryLatency(low) == memory.latency;
    var mid := Storage.Cache(b, low);
    assert Configs(mid) == [b.cfg, c.cfg] && Bottom(mid) == memory.bytes && MemoryLatency(mid) == memory.latency;
    assert ColdLevel(b) && ColdLevel(c) ==> Cold(memory) && Cold(low) && Cold(mid);
  }

  function InitialRegisters(): seq<int> { seq(32, i => if i == 2 then STACK_START else 0) }

  /** The bytes that the program starts with. */
  function StartImage(segs: seq<Loader.Segment>): map<nat, byte>
    requires Loader.LoadSegments(map[], segs).Loaded?
  {
    PagesDown(Loader.LoadSegments(map[], segs).bytes, STACK_TOP, STACK_PAGES)
  }

  /** The reference machine about to run the program. */
  function Program(segs: seq<Loader.Segment>, entry: nat): Arch
    requires Loader.LoadSegments(map[], segs).Loaded?
  {
    Arch(entry, InitialRegisters(), StartImage(segs), [], [], true, 0)
  }

  /** A new simulator over a cold configured hierarchy meets the hypotheses of the run theorems. */
  lemma NewIsInitial(s: Machine, bytes: map<nat, byte>, entry: nat)
    requires Wellformed(s) && entry < U64 && WholePages(bytes)
    requires Configs(s.storage) == Configured() && Cold(s.storage) && Bottom(s.storage) == bytes
    requires s == Machine(InitialRegisters(), FRegion(entry), ZERO_D, ZERO_E, ZERO_M, ZERO_W, s.storage, [], [],
                          Perf(0, 0, 0, 0, 0, 0, 0, 0, 0, 0), Running)
    ensures Initial(s) && Sound(s.storage)
    ensures Start(s) == Arch(entry, InitialRegisters(), bytes, [], [], true, 0)
  {
    hide Cold, Sound, View, WholePages;
    ConfiguredIsSound(s.storage, 0, 1);
  }

  /**
   * Everything together. When loading succeeds, then, as long as the code is stable for n steps and the
   * process has not stopped after n turns, the simulator's registers, memory, retirements and output are
   * those of the sequential machine on the loaded image after three nearby counts of steps. It has not
   * stopped if the first n steps are good.
   */
  method Simulation(segs: seq<Loader.Segment>, entry: nat, strat: Strategy, n: nat)
    returns (sim: SIM?, ghost w: nat, ghost m: nat, ghost e: nat)
    requires entry < U64 && forall i :: 0 <= i < |segs| ==> segs[i].Valid()
    ensures sim != null <==> Loader.LoadSegments(map[], segs).Loaded?
    ensures sim != null && CodeStable(Program(segs, entry), n) ==>
              (GoodSteps(NewHierarchy(StartImage(segs)), Program(segs, entry), n, strat) ==> sim.status.Running?)
    ensures sim != null && CodeStable(Program(segs, entry), n) && sim.status.Running? ==>
              var a := Program(segs, entry);
              && sim.Valid() && Placed(sim.l1.State()) && w <= m <= w + 1 && m <= e <= m + 1 && e <= n
              && Slots(a, true, m).ok
              && sim.reg[..] == Slots(a, true, w).reg && View(sim.l1.State()) == Slots(a, true, m).mem
              && sim.log == Slots(a, true, m).log && sim.out == Slots(a, true, e).out
  {
    hide Memory.Valid, Cache.Valid, Run, Cold, Sound, View, CodeStable, Initial, Slots, PagesDown, WholePages,
         Configured, GoodSteps;
    w, m, e := 0, 0, 0;
    var memory := new PagedMemory.Memory(100);
    var loaded := Loader.Load(memory, segs);
    if !loaded {
      return null, 0, 0, 0;
    }
    AllocStack(memory);
    var l1 := BuildCaches(memory);
    sim := new SIM(l1, strat, entry, STACK_START);
    ghost var s, chain := sim.Snapshot(), NewHierarchy(StartImage(segs));
    assert s.reg == InitialRegisters();
    NewIsInitial(s, StartImage(segs), entry);
    sim.Simulate(n);
    if CodeStable(Program(segs, entry), n) && GoodSteps(chain, Program(segs, entry), n, strat) {
      SameChainSameGood(chain, s.storage, Program(segs, entry), n, strat);
      Survives(s, strat, n);
    }
    if CodeStable(Program(segs, entry), n) && sim.status.Running? {
      w, m, e := PipelineRefines(s, strat, n);
    }
  }
}
