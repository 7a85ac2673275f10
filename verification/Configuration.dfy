/** The hierarchy that the simulator's `main` sets up. */
module Configuration {
  import opened Bits
  import opened Address
  import opened Hierarchy
  import opened Transparency
  import opened Runs
  import opened Timing

  /** The three levels `main` sets up: 32 KiB, 256 KiB and 8 MiB, all 8-way, write-back and write-allocate. */
  function Configured(): (cfgs: seq<Config>) {
    [Config(Geometry(6, 6), 8, false, true, 1, 0),
     Config(Geometry(6, 9), 8, false, true, 8, 0),
     Config(Geometry(6, 14), 8, false, true, 20, 0)]
  }

  lemma ConfiguredBound(st: Storage, addr: nat, op: Op)
    requires Shaped(st) && IsAddress(addr) && Configs(st) == Configured() && MemoryLatency(st) == 100
    requires Request(st, addr, op).Done?
    ensures var r := Request(st, addr, op); if r.hit then r.time == 1 else r.time <= 897
  {
    hide Request, WorstCase, Pow2, BitAnd, Offset, SetIndex, Tag;
    ConfiguredLevels(st);
    ConfiguredWorstCase();
    LatencyBound(st, addr, op);
  }

  lemma ConfiguredWorstCase()
    ensures WorstCase(Configured(), 100) == 897
  {
    hide WorstCase;
    var cfgs := Configured();
    WorstCaseOfThree(cfgs[0], cfgs[1], cfgs[2], 100);
  }

  lemma WorstCaseOfThree(a: Config, b: Config, c: Config, m: nat)
    ensures WorstCase([a, b, c], m) == a.Latency() + 2 * (b.Latency() + 2 * (c.Latency() + 2 * m))
  {
    WorstCaseStep(c, [], m);
    WorstCaseStep(b, [c], m);
    WorstCaseStep(a, [b, c], m);
    assert [a, b, c] == [a] + [b, c];
    assert [b, c] == [b] + [c];
    assert [c] == [c] + [];
  }

  lemma ConfiguredLevels(st: Storage)
    requires Shaped(st) && Configs(st) == Configured()
    ensures st.Cache? && st.lower.Cache? && st.lower.lower.Cache? && st.lower.lower.lower.Memory?
    ensures st.level.cfg == Configured()[0] && st.lower.level.cfg == Configured()[1] &&
            st.lower.lower.level.cfg == Configured()[2]
  {
    var cfgs := Configured();
    assert Configs(st)[0] == cfgs[0];
    assert Configs(st.lower) == cfgs[1..];
    assert Configs(st.lower.lower) == cfgs[2..];
    assert Configs(st.lower.lower.lower) == cfgs[3..];
  }

  /**
   * Cold, that hierarchy meets what the transparency and refinement theorems ask for: it is sound and
   * shows the loaded memory, and no naturally aligned access of up to eight bytes leaves its block.
   */
  lemma ConfiguredIsSound(st: Storage, addr: nat, count: nat)
    requires Shaped(st) && Configs(st) == Configured() && Cold(st) && WholePages(Bottom(st))
    requires IsAddress(addr) && count in {1, 2, 4, 8} && addr % count == 0
    ensures Sound(st) && View(st) == Bottom(st) && Fits(st, addr, count)
  {
    ConfiguredLevels(st);
    assert BlocksGrow(st) by {
      assert BlocksGrow(st.lower.lower.lower);
      assert BlocksGrow(st.lower.lower);
      assert BlocksGrow(st.lower);
    }
    ColdIsSound(st);
    hide Cold, WholePages, Sound, View, BlocksGrow;
    AlignedAccess(st.level.cfg.geo, addr, count);
  }

  lemma AlignedAccess(g: Geometry, addr: nat, count: nat)
    requires g == Geometry(6, 6) && IsAddress(addr) && count in {1, 2, 4, 8} && addr % count == 0
    ensures Offset(g, addr) + count <= g.BlockSize()
  {
    assert g.Valid();
    SplitIsDivision(g, addr);
    hide Offset, SetIndex, Tag;
    SixtyFour();
    RoomInBlock(addr, count);
    hide Pow2;
  }

  lemma RoomInBlock(addr: nat, count: nat)
    requires count in {1, 2, 4, 8} && addr % count == 0
    ensures addr % 64 + count <= 64
  {
    RemainderOfRemainder(addr, count, if count == 1 then 64 else if count == 2 then 32
      else if count == 4 then 16 else 8);
  }

  lemma SixtyFour()
    ensures Geometry(6, 6).BlockSize() == 64
  {
    assert Pow2(3) == 8;
    Pow2Add(3, 3);
  }

  // Cold chains.

  /** A level as `SetConfig` leaves it. */
  function NewLevel(cfg: Config): (l: Level)
    requires cfg.Valid()
    ensures LevelShaped(l) && l.cfg == cfg && ColdLevel(l)
  {
    hide Pow2;
    var line := Line(0, false, false, 0, seq(cfg.geo.BlockSize(), k => 0));
    var ways := seq(cfg.ways, w => line);
    Level(cfg, seq(cfg.geo.SetNum(), i => ways), Stats(0, 0, 0))
  }

  /** Cold caches over some bytes. */
  function NewChain(cfgs: seq<Config>, bytes: map<nat, byte>, latency: nat): (st: Storage)
    requires forall i :: 0 <= i < |cfgs| ==> cfgs[i].Valid()
    ensures Shaped(st) && Configs(st) == cfgs && Cold(st) && Bottom(st) == bytes && MemoryLatency(st) == latency
  {
    hide NewLevel, LevelShaped, ColdLevel;
    if cfgs == [] then Memory(bytes, latency, 0)
    else Cache(NewLevel(cfgs[0]), NewChain(cfgs[1..], bytes, latency))
  }

  /** The hierarchy `main` starts the program on. */
  function NewHierarchy(bytes: map<nat, byte>): (st: Storage)
    ensures Shaped(st) && Configs(st) == Configured() && Cold(st) && Bottom(st) == bytes && MemoryLatency(st) == 100
  {
    NewChain(Configured(), bytes, 100)
  }
}
