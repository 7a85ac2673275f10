/** What an access costs: time is conserved across levels, bounded per request, and traffic follows misses. */
module Timing {
  import opened Bits
  import opened Address
  import opened Hierarchy
  import opened Runs

  /** The sum of `access_time` over every level and the memory. */
  function TotalTime(st: Storage): nat {
    match st
    case Memory(_, _, time) => time
    case Cache(l, lower) => l.stats.time + TotalTime(lower)
  }

  /** Every cache's `access_time` is its access count times its bus and hit latency. */
  predicate Clocked(st: Storage) {
    match st
    case Memory(_, _, _) => true
    case Cache(l, lower) => l.stats.time == l.stats.accesses * (l.cfg.busLatency + l.cfg.hitLatency) && Clocked(lower)
  }

  /** Time conservation: one request adds to the levels' clocks exactly the time it reports. */
  lemma {:induction false} TimeConserved(st: Storage, addr: nat, op: Op)
    requires Shaped(st) && IsAddress(addr) && Request(st, addr, op).Done?
    ensures TotalTime(Request(st, addr, op).st) == TotalTime(st) + Request(st, addr, op).time
    ensures Clocked(st) ==> Clocked(Request(st, addr, op).st)
    decreases Depth(st), 2
  {
    hide Pow2, BitAnd, Offset, SetIndex, Tag, KickAddr, FindWay, Victim, ReadLine, WriteLine, PassThrough, Refill;
    match st
    case Memory(_, _, _) =>
    case Cache(l, lower) =>
      SplitRebuilds(l.cfg.geo, addr);
      assert (l.stats.accesses + 1) * l.cfg.Latency() == l.stats.accesses * l.cfg.Latency() + l.cfg.Latency();
      var i, aged := SetIndex(l.cfg.geo, addr), Arrive(l);
      var w, o := FindWay(aged.sets[i], Tag(l.cfg.geo, addr)), Offset(l.cfg.geo, addr);
      if w < |aged.sets[i]| {
        match op
        case Read(n) => ReadLineTime(aged, lower, i, w, o, n);
        case Write(content) => WriteLineTime(aged, lower, i, w, addr, o, content, true, l.cfg.Latency());
      } else if op.Write? && !l.cfg.writeAllocate {
        PassThroughTime(CountMiss(aged), lower, addr, op);
      } else {
        RefillTime(CountMiss(aged), lower, addr);
        var f := Refill(CountMiss(aged), lower, addr);
        if op.Write? {
          WriteLineTime(f.st.level, f.st.lower, i, Victim(aged.sets[i]), addr, o, op.content, false, f.time);
        }
      }
  }

  lemma ReadLineTime(l: Level, lower: Storage, i: nat, w: nat, o: nat, n: nat)
    requires LevelShaped(l) && Shaped(lower) && i < |l.sets| && w < |l.sets[i]| && o + n <= l.cfg.geo.BlockSize()
    ensures TotalTime(ReadLine(l, lower, i, w, o, n).st) == l.stats.time + TotalTime(lower)
    ensures ReadLine(l, lower, i, w, o, n).time == l.cfg.Latency()
    ensures ReadLine(l, lower, i, w, o, n).st.level.stats == l.stats
  {
  }

  lemma WriteLineTime(l: Level, lower: Storage, i: nat, w: nat, addr: nat, o: nat, content: seq<byte>,
                      hit: bool, elapsed: nat)
    requires LevelShaped(l) && Shaped(lower) && IsAddress(addr)
    requires i < |l.sets| && w < |l.sets[i]| && o + |content| <= l.cfg.geo.BlockSize()
    requires WriteLine(l, lower, i, w, addr, o, content, hit, elapsed).Done?
    ensures var r := WriteLine(l, lower, i, w, addr, o, content, hit, elapsed);
            TotalTime(r.st) + elapsed == l.stats.time + TotalTime(lower) + r.time &&
            r.st.level.stats == l.stats && (Clocked(lower) ==> Clocked(r.st.lower))
    decreases Depth(lower), 3
  {
    hide Pow2, BitAnd, Offset, SetIndex, Tag, KickAddr, Request;
    if l.cfg.writeThrough {
      TimeConserved(lower, addr, Write(content));
    }
  }

  lemma PassThroughTime(l: Level, lower: Storage, addr: nat, op: Op)
    requires LevelShaped(l) && Shaped(lower) && IsAddress(addr) && op.Write?
    requires PassThrough(l, lower, addr, op).Done?
    ensures var r := PassThrough(l, lower, addr, op);
            TotalTime(r.st) + l.cfg.Latency() == l.stats.time + TotalTime(lower) + r.time &&
            r.st.level.stats == l.stats && (Clocked(lower) ==> Clocked(r.st.lower))
    decreases Depth(lower), 3
  {
    hide Pow2, BitAnd, Offset, SetIndex, Tag, KickAddr, Request;
    TimeConserved(lower, addr, op);
  }

  lemma RefillTime(l: Level, lower: Storage, addr: nat)
    requires LevelShaped(l) && Shaped(lower) && IsAddress(addr) && Refill(l, lower, addr).Done?
    ensures var r := Refill(l, lower, addr);
            r.st.Cache? && TotalTime(r.st) + l.cfg.Latency() == l.stats.time + TotalTime(lower) + r.time &&
            r.st.level.stats == l.stats && (Clocked(lower) ==> Clocked(r.st.lower))
    decreases Depth(lower), 5
  {
    hide Pow2, BitAnd, Offset, SetIndex, Tag, KickAddr, Request, Victim, WriteBack;
    var g := l.cfg.geo;
    SplitRebuilds(g, addr);
    var i := SetIndex(g, addr);
    var v := Victim(l.sets[i]);
    TimeConserved(lower, BlockAddr(g, addr), Read(g.BlockSize()));
    WriteBackTime(l, Request(lower, BlockAddr(g, addr), Read(g.BlockSize())).st, i, v);
  }

  lemma WriteBackTime(l: Level, lower: Storage, i: nat, v: nat)
    requires LevelShaped(l) && Shaped(lower) && i < |l.sets| && v < |l.sets[i]| && WriteBack(l, lower, i, v).Done?
    ensures TotalTime(WriteBack(l, lower, i, v).st) == TotalTime(lower) + WriteBack(l, lower, i, v).time
    ensures Clocked(lower) ==> Clocked(WriteBack(l, lower, i, v).st)
    decreases Depth(lower), 4
  {
    hide Pow2, BitAnd, Offset, SetIndex, Tag, Request;
    if MustWriteBack(l, i, v) {
      TimeConserved(lower, KickAddr(l.cfg.geo, l.sets[i][v].tag, i), Write(l.sets[i][v].data));
    }
  }

  /** The sum of the times a run's requests report, as `cache_cycle_cnt` accumulates it. */
  function ReportedTime(st: Storage, trace: seq<Access>): nat
    requires Shaped(st) && forall k :: 0 <= k < |trace| ==> IsAddress(trace[k].addr)
    decreases |trace|
  {
    hide Request;
    if trace == [] then 0
    else
      match Request(st, trace[0].addr, trace[0].op)
      case Fault => 0
      case Done(st', _, _, t) => t + ReportedTime(st', trace[1..])
  }

  /** From cleared statistics, a whole run's reported time is what all the clocks show at its end. */
  lemma {:induction false} RunTimeConserved(st: Storage, trace: seq<Access>)
    requires Shaped(st) && forall k :: 0 <= k < |trace| ==> IsAddress(trace[k].addr)
    ensures TotalTime(RunHierarchy(st, trace).1) == TotalTime(st) + ReportedTime(st, trace)
    ensures Clocked(st) ==> Clocked(RunHierarchy(st, trace).1)
    decreases |trace|
  {
    hide Request, TotalTime, Clocked;
    if trace == [] {
    } else {
      match Request(st, trace[0].addr, trace[0].op)
      case Fault =>
      case Done(st', _, _, _) =>
        TimeConserved(st, trace[0].addr, trace[0].op);
        RunTimeConserved(st', trace[1..]);
    }
  }

  // The counters of one level.

  /** One access: the counter, and the clock that every access advances by the level's latency alone. */
  predicate ClockStep(before: Stats, after: Stats, latency: nat, missed: nat) {
    after.accesses == before.accesses + 1 && after.time == before.time + latency &&
      after.misses == before.misses + missed
  }

  predicate WriteBackAllocating(cfg: Config) { !cfg.writeThrough && cfg.writeAllocate }

  /** Whether the address misses, and whether the line it would displace is dirty. */
  function Missed(l: Level, addr: nat): nat
    requires LevelShaped(l) && IsAddress(addr)
  {
    SplitRebuilds(l.cfg.geo, addr);
    var ways := AgeWays(l.sets[SetIndex(l.cfg.geo, addr)]);
    if FindWay(ways, Tag(l.cfg.geo, addr)) < |ways| then 0 else 1
  }

  function Evicted(l: Level, addr: nat): nat
    requires LevelShaped(l) && IsAddress(addr)
  {
    SplitRebuilds(l.cfg.geo, addr);
    var ways := AgeWays(l.sets[SetIndex(l.cfg.geo, addr)]);
    var v := ways[Victim(ways)];
    if Missed(l, addr) == 1 && !l.cfg.writeThrough && v.valid && v.dirty then 1 else 0
  }

  function Accesses(st: Storage): nat {
    match st
    case Memory(_, latency, time) => 0
    case Cache(l, _) => l.stats.accesses
  }

  /** Each access moves its own level's counters by exactly one access, one latency, and one miss if it missed. */
  lemma CountersStep(l: Level, lower: Storage, addr: nat, op: Op)
    requires LevelShaped(l) && Shaped(lower) && IsAddress(addr) && Request(Cache(l, lower), addr, op).Done?
    ensures var r := Request(Cache(l, lower), addr, op);
            r.st.Cache? && ClockStep(l.stats, r.st.level.stats, l.cfg.Latency(), Missed(l, addr)) &&
            r.hit == (Missed(l, addr) == 0)
  {
    hide Pow2, BitAnd, Offset, SetIndex, Tag, KickAddr, FindWay, Victim;
    SplitRebuilds(l.cfg.geo, addr);
    assert Arrive(l).sets[SetIndex(l.cfg.geo, addr)] == AgeWays(l.sets[SetIndex(l.cfg.geo, addr)]);
  }

  /** On a write-back, write-allocate level a hit leaves the lower level alone and a miss is exactly one refill. */
  lemma LowerEffect(l: Level, lower: Storage, addr: nat, op: Op)
    requires LevelShaped(l) && Shaped(lower) && IsAddress(addr)
    requires WriteBackAllocating(l.cfg) && Request(Cache(l, lower), addr, op).Done?
    ensures var r := Request(Cache(l, lower), addr, op);
            var f := Refill(CountMiss(Arrive(l)), lower, addr);
            r.st.Cache? &&
            if Missed(l, addr) == 0 then r.st.lower == lower && r.time == l.cfg.Latency()
            else f.Done? && r.st.lower == f.st.lower && r.time == f.time
  {
    hide Pow2, BitAnd, Offset, SetIndex, Tag, KickAddr, FindWay, Victim, PassThrough, Refill;
    SplitRebuilds(l.cfg.geo, addr);
    assert Arrive(l).sets[SetIndex(l.cfg.geo, addr)] == AgeWays(l.sets[SetIndex(l.cfg.geo, addr)]);
  }

  lemma RefillTraffic(l: Level, lower: Storage, addr: nat)
    requires LevelShaped(l) && Shaped(lower) && lower.Cache? && IsAddress(addr) && Refill(l, lower, addr).Done?
    ensures SetIndex(l.cfg.geo, addr) < |l.sets|
    ensures var i := SetIndex(l.cfg.geo, addr);
            Accesses(Refill(l, lower, addr).st.lower) ==
            Accesses(lower) + 1 + if MustWriteBack(l, i, Victim(l.sets[i])) then 1 else 0
  {
    hide Pow2, BitAnd, Offset, SetIndex, Tag, FindWay, Victim, Request;
    var g := l.cfg.geo;
    SplitRebuilds(g, addr);
    var i := SetIndex(g, addr);
    var v := Victim(l.sets[i]);
    CountersStep(lower.level, lower.lower, BlockAddr(g, addr), Read(g.BlockSize()));
    var low := Request(lower, BlockAddr(g, addr), Read(g.BlockSize())).st;
    if MustWriteBack(l, i, v) {
      CountersStep(low.level, low.lower, KickAddr(g, l.sets[i][v].tag, i), Write(l.sets[i][v].data));
    }
  }

  /** Below a write-back, write-allocate cache, accesses are its misses plus its dirty evictions. */
  lemma TrafficFollowsMisses(l: Level, lower: Storage, addr: nat, op: Op)
    requires LevelShaped(l) && Shaped(lower) && lower.Cache? && IsAddress(addr)
    requires WriteBackAllocating(l.cfg) && Request(Cache(l, lower), addr, op).Done?
    ensures var r := Request(Cache(l, lower), addr, op);
            r.st.Cache? && Accesses(r.st.lower) == Accesses(lower) + Missed(l, addr) + Evicted(l, addr)
    ensures Evicted(l, addr) <= Missed(l, addr)
  {
    hide Pow2, BitAnd, Offset, SetIndex, Tag, KickAddr, FindWay, Victim, Request, Refill;
    SplitRebuilds(l.cfg.geo, addr);
    LowerEffect(l, lower, addr, op);
    assert Arrive(l).sets[SetIndex(l.cfg.geo, addr)] == AgeWays(l.sets[SetIndex(l.cfg.geo, addr)]);
    if Missed(l, addr) == 1 {
      RefillTraffic(CountMiss(Arrive(l)), lower, addr);
    }
  }

  // Bounds.

  /** Each level looks up once, then at worst fetches a block and writes one back. */
  function WorstCase(cfgs: seq<Config>, memoryLatency: nat): nat {
    if cfgs == [] then memoryLatency else cfgs[0].Latency() + 2 * WorstCase(cfgs[1..], memoryLatency)
  }

  predicate AllWriteBackAllocating(cfgs: seq<Config>) {
    forall k :: 0 <= k < |cfgs| ==> WriteBackAllocating(cfgs[k])
  }

  /** A hit at the top costs that level's latency; any request costs at most the worst case of the chain. */
  lemma {:induction false} LatencyBound(st: Storage, addr: nat, op: Op)
    requires Shaped(st) && IsAddress(addr) && AllWriteBackAllocating(Configs(st)) && Request(st, addr, op).Done?
    ensures var r := Request(st, addr, op);
            r.time <= WorstCase(Configs(st), MemoryLatency(st)) &&
            (st.Cache? && r.hit ==> r.time == st.level.cfg.busLatency + st.level.cfg.hitLatency)
    decreases Depth(st), 2
  {
    hide Pow2, BitAnd, Offset, SetIndex, Tag, KickAddr, FindWay, Victim, Request, Refill, WorstCase;
    match st
    case Memory(_, _, _) => MemoryCost(st, addr, op);
    case Cache(l, lower) =>
      assert Configs(st)[0] == l.cfg && Configs(st)[1..] == Configs(lower);
      LowerEffect(l, lower, addr, op);
      CountersStep(l, lower, addr, op);
      WorstCaseStep(l.cfg, Configs(lower), MemoryLatency(lower));
      if Missed(l, addr) == 1 {
        RefillBound(CountMiss(Arrive(l)), lower, addr);
      }
  }

  lemma MemoryCost(st: Storage, addr: nat, op: Op)
    requires st.Memory? && IsAddress(addr) && Request(st, addr, op).Done?
    ensures Request(st, addr, op).time == WorstCase(Configs(st), MemoryLatency(st))
  {
  }

  lemma WorstCaseStep(cfg: Config, cfgs: seq<Config>, memoryLatency: nat)
    ensures WorstCase([cfg] + cfgs, memoryLatency) == cfg.Latency() + 2 * WorstCase(cfgs, memoryLatency)
  {
    assert ([cfg] + cfgs)[1..] == cfgs;
  }

  lemma RefillBound(l: Level, lower: Storage, addr: nat)
    requires LevelShaped(l) && Shaped(lower) && IsAddress(addr) && AllWriteBackAllocating(Configs(lower))
    requires Refill(l, lower, addr).Done?
    ensures Refill(l, lower, addr).time <= l.cfg.Latency() + 2 * WorstCase(Configs(lower), MemoryLatency(lower))
    decreases Depth(lower), 3
  {
    hide Pow2, BitAnd, Offset, SetIndex, Tag, FindWay, Victim, Request, WorstCase, Configs, MemoryLatency,
         AllWriteBackAllocating;
    var g := l.cfg.geo;
    SplitRebuilds(g, addr);
    var i := SetIndex(g, addr);
    var v := Victim(l.sets[i]);
    LatencyBound(lower, BlockAddr(g, addr), Read(g.BlockSize()));
    var low := Request(lower, BlockAddr(g, addr), Read(g.BlockSize())).st;
    if MustWriteBack(l, i, v) {
      LatencyBound(low, KickAddr(g, l.sets[i][v].tag, i), Write(l.sets[i][v].data));
    }
  }
}
