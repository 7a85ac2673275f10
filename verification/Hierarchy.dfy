/** The storage hierarchy: set-associative LRU caches chained above a byte memory. */
module Hierarchy {
  import opened Bits
  import opened Address

  datatype Line = Line(tag: nat, dirty: bool, valid: bool, age: nat, data: seq<byte>)

  datatype Config = Config(
    geo: Geometry, ways: nat, writeThrough: bool, writeAllocate: bool, hitLatency: nat, busLatency: nat)
  {
    predicate Valid() { geo.Valid() && ways > 0 }
    function Latency(): nat { busLatency + hitLatency }
  }

  datatype Stats = Stats(accesses: nat, misses: nat, time: nat)

  datatype Level = Level(cfg: Config, sets: seq<seq<Line>>, stats: Stats)

  datatype Storage =
    | Memory(bytes: map<nat, byte>, latency: nat, time: nat)
    | Cache(level: Level, lower: Storage)

  datatype Op = Read(count: nat) | Write(content: seq<byte>) {
    function Size(): nat { if Read? then count else |content| }
  }

  /** `Fault` is the process exit on an unallocated address, or an access leaving its block's buffer. */
  datatype Reply = Fault | Done(st: Storage, data: seq<byte>, hit: bool, time: nat)

  function Configs(st: Storage): seq<Config> {
    match st
    case Memory(_, _, _) => []
    case Cache(l, lower) => [l.cfg] + Configs(lower)
  }

  function MemoryLatency(st: Storage): nat {
    match st
    case Memory(_, latency, _) => latency
    case Cache(_, lower) => MemoryLatency(lower)
  }

  /** Requests change contents and counters, never the chain of configurations. */
  predicate SameChain(st: Storage, st': Storage) {
    Configs(st') == Configs(st) && MemoryLatency(st') == MemoryLatency(st)
  }

  function Depth(st: Storage): nat { |Configs(st)| }

  predicate WaysShaped(ways: seq<Line>, cfg: Config) {
    |ways| == cfg.ways && forall w :: 0 <= w < |ways| ==> |ways[w].data| == cfg.geo.BlockSize()
  }

  predicate LevelShaped(l: Level) {
    l.cfg.Valid() && |l.sets| == l.cfg.geo.SetNum() &&
    forall i :: 0 <= i < |l.sets| ==> WaysShaped(l.sets[i], l.cfg)
  }

  predicate Shaped(st: Storage) {
    match st
    case Memory(_, _, _) => true
    case Cache(l, lower) => LevelShaped(l) && Shaped(lower)
  }

  function AgeLine(line: Line): Line {
    if line.valid then line.(age := line.age + 1) else line
  }

  function AgeWays(ways: seq<Line>): (r: seq<Line>)
    ensures |r| == |ways| && forall w :: 0 <= w < |ways| ==> r[w] == AgeLine(ways[w])
  {
    seq(|ways|, w requires 0 <= w < |ways| => AgeLine(ways[w]))
  }

  /** Every request first ages each valid line of the level by one. */
  function AgeAll(sets: seq<seq<Line>>): (r: seq<seq<Line>>)
    ensures |r| == |sets| && forall i :: 0 <= i < |sets| ==> r[i] == AgeWays(sets[i])
  {
    seq(|sets|, i requires 0 <= i < |sets| => AgeWays(sets[i]))
  }

  predicate Matches(line: Line, tag: nat) { line.valid && line.tag == tag }

  /** The first way holding the tag, or the number of ways when there is none. */
  function FindWay(ways: seq<Line>, tag: nat, from: nat := 0): (w: nat)
    requires from <= |ways|
    ensures from <= w <= |ways|
    ensures w < |ways| ==> Matches(ways[w], tag)
    ensures forall j :: from <= j < w ==> !Matches(ways[j], tag)
    decreases |ways| - from
  {
    if from == |ways| || Matches(ways[from], tag) then from else FindWay(ways, tag, from + 1)
  }

  /** The way to replace: the first invalid one, else the first of the oldest. */
  function Victim(ways: seq<Line>, best: nat := 0, from: nat := 0): (w: nat)
    requires best < |ways| && best <= from <= |ways|
    requires forall j :: 0 <= j < from ==> ways[j].valid && ways[j].age <= ways[best].age
    requires forall j :: 0 <= j < best ==> ways[j].age < ways[best].age
    ensures w < |ways|
    ensures !ways[w].valid ==> forall j :: 0 <= j < w ==> ways[j].valid
    ensures ways[w].valid ==> forall j :: 0 <= j < |ways| ==> ways[j].valid && ways[j].age <= ways[w].age
    ensures ways[w].valid ==> forall j :: 0 <= j < w ==> ways[j].age < ways[w].age
    decreases |ways| - from
  {
    if from == |ways| then best
    else if !ways[from].valid then from
    else Victim(ways, if ways[from].age > ways[best].age then from else best, from + 1)
  }

  function Splice(data: seq<byte>, offset: nat, content: seq<byte>): (r: seq<byte>)
    requires offset + |content| <= |data|
    ensures |r| == |data|
    ensures forall k :: 0 <= k < |r| ==> r[k] == if offset <= k < offset + |content| then content[k - offset]
            else data[k]
  {
    data[..offset] + content + data[offset + |content|..]
  }

  function Put(l: Level, i: nat, w: nat, line: Line): (r: Level)
    requires LevelShaped(l) && i < |l.sets| && w < |l.sets[i]| && |line.data| == l.cfg.geo.BlockSize()
    ensures LevelShaped(r) && r.cfg == l.cfg && |r.sets| == |l.sets|
    ensures |r.sets[i]| == |l.sets[i]| && r.sets[i][w] == line
  {
    l.(sets := l.sets[i := l.sets[i][w := line]])
  }

  /** The address of byte k of a request: 32-bit addition wraps. */
  function At(addr: nat, k: nat): nat { (addr + k) % U32 }

  predicate Allocated(bytes: map<nat, byte>, addr: nat, count: nat) {
    forall k :: 0 <= k < count ==> At(addr, k) in bytes
  }

  /** The byte memory: every byte of the request must be allocated. */
  function MemoryRequest(st: Storage, addr: nat, op: Op): (r: Reply)
    requires st.Memory?
    ensures r.Done? ==> r.st.Memory?
    ensures r.Done? && op.Read? ==> |r.data| == op.count
  {
    if Allocated(st.bytes, addr, op.Size()) then
      var st' := st.(time := st.time + st.latency);
      match op
      case Read(n) => Done(st', seq(n, k requires 0 <= k < n => st.bytes[At(addr, k)]), true, st.latency)
      case Write(content) => Done(st'.(bytes := StoreBytes(st.bytes, addr, content)), [], true, st.latency)
    else Fault
  }

  function StoreBytes(bytes: map<nat, byte>, addr: nat, content: seq<byte>): (r: map<nat, byte>)
    ensures r.Keys >= bytes.Keys
  {
    if content == [] then bytes
    else
      var n := |content| - 1;
      StoreBytes(bytes, addr, content[..n])[At(addr, n) := content[n]]
  }

  /** One access to a level of the hierarchy and, through it, to the levels below. */
  function Request(st: Storage, addr: nat, op: Op): (r: Reply)
    requires Shaped(st) && IsAddress(addr)
    ensures r.Done? ==> Shaped(r.st) && SameChain(st, r.st)
    ensures r.Done? && op.Read? ==> |r.data| == op.count
    decreases Depth(st), 2
  {
    match st
    case Memory(_, _, _) => MemoryRequest(st, addr, op)
    case Cache(l, lower) =>
      hide Pow2, BitAnd, Offset, SetIndex, Tag, KickAddr;
      var g := l.cfg.geo;
      SplitRebuilds(g, addr);
      var i, tag, o := SetIndex(g, addr), Tag(g, addr), Offset(g, addr);
      if o + op.Size() > g.BlockSize() then Fault
      else
        var aged := Arrive(l);
        var w := FindWay(aged.sets[i], tag);
        if w < |aged.sets[i]| then
          match op
          case Read(n) => ReadLine(aged, lower, i, w, o, n)
          case Write(content) => WriteLine(aged, lower, i, w, addr, o, content, true, l.cfg.Latency())
        else if op.Write? && !l.cfg.writeAllocate then
          PassThrough(CountMiss(aged), lower, addr, op)
        else
          match Refill(CountMiss(aged), lower, addr)
          case Fault => Fault
          case Done(Cache(filled, low), _, _, t) =>
            var v := Victim(aged.sets[i]);
            (match op
             case Read(n) => Done(Cache(filled, low), filled.sets[i][v].data[o..o + n], false, t)
             case Write(content) => WriteLine(filled, low, i, v, addr, o, content, false, t))
  }

  /** The bookkeeping every access starts with: ageing, the access counter and the lookup latency. */
  function Arrive(l: Level): (r: Level)
    requires LevelShaped(l)
    ensures LevelShaped(r) && r.cfg == l.cfg
    ensures r.sets == AgeAll(l.sets)
  {
    l.(sets := AgeAll(l.sets),
       stats := l.stats.(accesses := l.stats.accesses + 1, time := l.stats.time + l.cfg.Latency()))
  }

  function CountMiss(l: Level): (r: Level) {
    l.(stats := l.stats.(misses := l.stats.misses + 1))
  }

  function ReadLine(l: Level, lower: Storage, i: nat, w: nat, o: nat, n: nat): (r: Reply)
    requires LevelShaped(l) && Shaped(lower) && i < |l.sets| && w < |l.sets[i]| && o + n <= l.cfg.geo.BlockSize()
    ensures r.Done? && r.st.Cache? && r.st.level.cfg == l.cfg && r.st.lower == lower
    ensures Shaped(r.st) && |r.data| == n
  {
    var line := l.sets[i][w];
    Done(Cache(Put(l, i, w, line.(age := 0)), lower), line.data[o..o + n], true, l.cfg.Latency())
  }

  /** Writes into a resident line; a write-through level also writes the level below. */
  function WriteLine(l: Level, lower: Storage, i: nat, w: nat, addr: nat, o: nat, content: seq<byte>,
                     hit: bool, elapsed: nat): (r: Reply)
    requires LevelShaped(l) && Shaped(lower) && IsAddress(addr)
    requires i < |l.sets| && w < |l.sets[i]| && o + |content| <= l.cfg.geo.BlockSize()
    ensures r.Done? ==> r.st.Cache? && Shaped(r.st) && r.st.level.cfg == l.cfg && SameChain(lower, r.st.lower)
    decreases Depth(lower), 3
  {
    var line := l.sets[i][w];
    var written := line.(data := Splice(line.data, o, content), age := 0, dirty := !l.cfg.writeThrough);
    var l' := Put(l, i, w, written);
    if l.cfg.writeThrough then
      match Request(lower, addr, Write(content))
      case Fault => Fault
      case Done(low, _, _, t) => Done(Cache(l', low), [], hit, elapsed + t)
    else Done(Cache(l', lower), [], hit, elapsed)
  }

  /** A write miss without allocation goes straight to the level below. */
  function PassThrough(l: Level, lower: Storage, addr: nat, op: Op): (r: Reply)
    requires LevelShaped(l) && Shaped(lower) && IsAddress(addr) && op.Write?
    ensures r.Done? ==> r.st.Cache? && Shaped(r.st) && r.st.level == l && SameChain(lower, r.st.lower)
    decreases Depth(lower), 3
  {
    match Request(lower, addr, op)
    case Fault => Fault
    case Done(low, _, _, t) => Done(Cache(l, low), [], false, l.cfg.Latency() + t)
  }

  /** Fetches the missing block, writes a dirty victim back, and installs the block clean in its place. */
  function Refill(l: Level, lower: Storage, addr: nat): (r: Reply)
    requires LevelShaped(l) && Shaped(lower) && IsAddress(addr)
    ensures r.Done? ==> r.st.Cache? && Shaped(r.st) && r.st.level.cfg == l.cfg && SameChain(lower, r.st.lower)
    decreases Depth(lower), 4
  {
    hide Pow2, BitAnd, Offset, SetIndex, Tag, KickAddr;
    var g := l.cfg.geo;
    SplitRebuilds(g, addr);
    var i, tag := SetIndex(g, addr), Tag(g, addr);
    var v := Victim(l.sets[i]);
    match Request(lower, BlockAddr(g, addr), Read(g.BlockSize()))
    case Fault => Fault
    case Done(low1, block, _, t1) =>
      match WriteBack(l, low1, i, v)
      case Fault => Fault
      case Done(low2, _, _, t2) =>
        Install(l, low2, i, v, Line(tag, false, true, 0, block), l.cfg.Latency() + t1 + t2)
  }

  function Install(l: Level, lower: Storage, i: nat, v: nat, line: Line, elapsed: nat): (r: Reply)
    requires LevelShaped(l) && Shaped(lower) && i < |l.sets| && v < |l.sets[i]|
    requires |line.data| == l.cfg.geo.BlockSize()
    ensures r.Done? && r.st.Cache? && Shaped(r.st) && r.st.level.cfg == l.cfg && r.st.lower == lower
    ensures |r.st.level.sets| == |l.sets| && |r.st.level.sets[i]| == |l.sets[i]|
  {
    Done(Cache(Put(l, i, v, line), lower), [], false, elapsed)
  }

  predicate MustWriteBack(l: Level, i: nat, v: nat)
    requires i < |l.sets| && v < |l.sets[i]|
  {
    !l.cfg.writeThrough && l.sets[i][v].valid && l.sets[i][v].dirty
  }

  function WriteBack(l: Level, lower: Storage, i: nat, v: nat): (r: Reply)
    requires LevelShaped(l) && Shaped(lower) && i < |l.sets| && v < |l.sets[i]|
    ensures r.Done? ==> Shaped(r.st) && SameChain(lower, r.st)
    decreases Depth(lower), 3
  {
    if MustWriteBack(l, i, v) then
      Request(lower, KickAddr(l.cfg.geo, l.sets[i][v].tag, i), Write(l.sets[i][v].data))
    else Done(lower, [], false, 0)
  }
}
