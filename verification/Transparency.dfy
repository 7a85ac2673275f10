/** The hierarchy behaves like one flat byte memory, whatever its geometry and policies. */
module Transparency {
  import opened Wrappers
  import opened Bits
  import opened Address
  import opened Hierarchy
  import opened Coherence

  const PAGE_BITS := 12

  function Bottom(st: Storage): map<nat, byte> {
    match st
    case Memory(bytes, _, _) => bytes
    case Cache(_, lower) => Bottom(lower)
  }

  predicate Placed(st: Storage) { Shaped(st) && Addresses(Bottom(st)) }

  /** The flat memory the hierarchy stands for: upper levels hide lower ones. */
  function View(st: Storage): (v: map<nat, byte>)
    requires Placed(st)
    ensures v.Keys == Bottom(st).Keys
  {
    match st
    case Memory(bytes, _, _) => bytes
    case Cache(l, lower) => Over(l, View(lower))
  }

  /** Memory is allocated in whole pages. */
  ghost predicate WholePages(v: map<nat, byte>) {
    Addresses(v) &&
    forall a, b :: a in v && IsAddress(b) && SamePage(a, b) ==> b in v
  }

  predicate SamePage(a: nat, b: nat) { a / 4096 == b / 4096 }

  predicate BlocksNest(cfg: Config, lower: Storage)
    requires cfg.Valid() && Shaped(lower)
  {
    cfg.geo.offBits <= PAGE_BITS && (lower.Cache? ==> cfg.geo.offBits <= lower.level.cfg.geo.offBits)
  }

  /** Every level coheres with what the levels below it show. */
  ghost predicate Sound(st: Storage) {
    Placed(st) &&
    match st
    case Memory(bytes, _, _) => WholePages(bytes)
    case Cache(l, lower) => Sound(lower) && BlocksNest(l.cfg, lower) && Coheres(l, View(lower))
  }

  /** The access stays inside one block of the top level. */
  predicate Fits(st: Storage, addr: nat, count: nat)
    requires Shaped(st)
  {
    count > 0 && IsAddress(addr) &&
    match st
    case Memory(_, _, _) => addr + count <= U32
    case Cache(l, _) => Offset(l.cfg.geo, addr) + count <= l.cfg.geo.BlockSize()
  }

  /** The reply a flat memory would give: it faults exactly on unallocated addresses. */
  ghost predicate Serves(st: Storage, addr: nat, op: Op, r: Reply)
    requires Sound(st)
  {
    if Covers(View(st), addr, op.Size()) then
      r.Done? && Sound(r.st) && View(r.st) == After(View(st), addr, op) &&
      (op.Read? ==> r.data == Slice(View(st), addr, op.count))
    else r.Fault?
  }

  lemma {:induction false} WholePagesAbove(st: Storage)
    requires Sound(st)
    ensures WholePages(View(st))
  {
    match st
    case Memory(_, _, _) =>
    case Cache(l, lower) =>
      WholePagesAbove(lower);
      KeysDecidePages(View(lower), View(st));
  }

  lemma KeysDecidePages(v: map<nat, byte>, v': map<nat, byte>)
    requires WholePages(v) && v'.Keys == v.Keys
    ensures WholePages(v')
  {
    forall a, b | a in v' && IsAddress(b) && SamePage(a, b) ensures b in v' {
      assert a in v && b in v;
    }
  }

  /** A block is allocated as soon as one of its bytes is. */
  lemma BlockAllocated(v: map<nat, byte>, g: Geometry, addr: nat)
    requires WholePages(v) && g.Valid() && g.offBits <= PAGE_BITS && addr in v
    ensures BlockAddr(g, addr) in v
    ensures Covers(v, BlockAddr(g, addr), g.BlockSize())
  {
    hide Pow2, BitAnd, Offset, SetIndex, Tag;
    SplitRebuilds(g, addr);
    forall a | BlockAddr(g, addr) <= a < BlockAddr(g, addr) + g.BlockSize() ensures a in v {
      BlockInPage(g, addr, a - BlockAddr(g, addr));
      assert SamePage(addr, a);
    }
  }

  lemma BlockInPage(g: Geometry, addr: nat, k: nat)
    requires g.Valid() && g.offBits <= PAGE_BITS && IsAddress(addr) && k < g.BlockSize()
    ensures BlockAddr(g, addr) >= 0 && IsAddress(BlockAddr(g, addr) + k)
    ensures SamePage(addr, BlockAddr(g, addr) + k)
  {
    hide BitAnd, Offset, SetIndex, Tag, Pow2;
    var page := Geometry(PAGE_BITS, 0);
    PageSize();
    SplitRebuilds(g, addr);
    SmallerBlockNests(g, page, addr);
    BlockMember(g, addr, k);
    var b := BlockAddr(g, addr);
    SplitIsDivision(page, b);
    DivMod4096(b, k);
    DivMod4096(b, Offset(g, addr));
  }

  lemma PageSize()
    ensures Pow2(PAGE_BITS) == 4096
  {
    assert Pow2(6) == 64;
    Pow2Add(6, 6);
  }

  lemma DivMod4096(b: nat, k: nat)
    requires b % 4096 + k < 4096
    ensures (b + k) / 4096 == b / 4096
  {
  }

  /** What fits in a block of the upper level fits in a block of the lower one. */
  lemma FitsBelow(cfg: Config, lower: Storage, addr: nat, count: nat)
    requires cfg.Valid() && Shaped(lower) && BlocksNest(cfg, lower)
    requires count > 0 && IsAddress(addr) && Offset(cfg.geo, addr) + count <= cfg.geo.BlockSize()
    ensures Fits(lower, addr, count)
    ensures BlockAddr(cfg.geo, addr) >= 0 && Fits(lower, BlockAddr(cfg.geo, addr), cfg.geo.BlockSize())
  {
    hide BitAnd, Offset, SetIndex, Tag, Pow2;
    var g := cfg.geo;
    SplitRebuilds(g, addr);
    BlockEnd(g, addr);
    if lower.Cache? {
      var h := lower.level.cfg.geo;
      var b := BlockAddr(g, addr);
      SmallerBlockNests(g, h, addr);
      SplitRebuilds(h, b);
      BlockMember(h, b, Offset(h, b) + Offset(g, addr));
    }
  }

  lemma {:induction false} StoreIsAfter(bytes: map<nat, byte>, addr: nat, content: seq<byte>)
    requires addr + |content| <= U32 && Covers(bytes, addr, |content|)
    ensures StoreBytes(bytes, addr, content) == After(bytes, addr, Write(content))
  {
    if content == [] {
    } else {
      hide After;
      var n := |content| - 1;
      StoreIsAfter(bytes, addr, content[..n]);
      assert At(addr, n) == addr + n;
      AfterLastByte(bytes, addr, content);
    }
  }

  lemma AfterLastByte(bytes: map<nat, byte>, addr: nat, content: seq<byte>)
    requires content != [] && addr + |content| <= U32 && Covers(bytes, addr, |content|)
    ensures var n := |content| - 1;
            After(bytes, addr, Write(content)) == After(bytes, addr, Write(content[..n]))[addr + n := content[n]]
  {
    var n := |content| - 1;
    var shorter := After(bytes, addr, Write(content[..n]));
    assert addr + n in bytes;
    forall a | a in bytes
      ensures After(bytes, addr, Write(content))[a] == shorter[addr + n := content[n]][a]
    {
      if addr <= a < addr + n {
        assert content[..n][a - addr] == content[a - addr];
      }
    }
    assert shorter[addr + n := content[n]].Keys == bytes.Keys;
  }

  lemma MemoryServes(st: Storage, addr: nat, op: Op)
    requires st.Memory? && Sound(st) && Fits(st, addr, op.Size())
    ensures Serves(st, addr, op, Request(st, addr, op))
  {
    var r := MemoryRequest(st, addr, op);
    if Covers(st.bytes, addr, op.Size()) {
      assert forall k :: 0 <= k < op.Size() ==> At(addr, k) == addr + k;
      if op.Write? {
        StoreIsAfter(st.bytes, addr, op.content);
        KeysDecidePages(st.bytes, View(r.st));
      }
    } else {
      var a :| addr <= a < addr + op.Size() && a !in st.bytes;
      assert At(addr, a - addr) == a;
    }
  }

  /** A resident block is allocated, and so is any access inside it. */
  lemma ResidentIsAllocated(l: Level, v: map<nat, byte>, i: nat, w: nat, addr: nat, count: nat)
    requires Coheres(l, v) && WholePages(v) && IsAddress(addr) && Holds(l, i, w, addr)
    requires l.cfg.geo.offBits <= PAGE_BITS && Offset(l.cfg.geo, addr) + count <= l.cfg.geo.BlockSize()
    ensures Covers(v, addr, count)
  {
    hide Pow2, BitAnd, Offset, SetIndex, Tag, FindWay, KickAddr, WholePages, CleanAt;
    var g := l.cfg.geo;
    HeldInTidy(l, v, i, w, addr);
    KickInvertsSplit(g, addr);
    SplitRebuilds(g, addr);
    BlockMember(g, addr, 0);
    BlockAllocated(v, g, BlockAddr(g, addr));
  }

  lemma ReadHitServes(l: Level, lower: Storage, i: nat, w: nat, addr: nat, n: nat)
    requires Sound(Cache(l, lower)) && Fits(Cache(l, lower), addr, n) && Holds(l, i, w, addr)
    ensures Serves(Cache(l, lower), addr, Read(n), ReadLine(l, lower, i, w, Offset(l.cfg.geo, addr), n))
  {
    hide Pow2, BitAnd, Offset, SetIndex, Tag, FindWay, KickAddr, WholePages, CleanAt, Tidy;
    var v := View(lower);
    var line := l.sets[i][w];
    WholePagesAbove(lower);
    ResidentIsAllocated(l, v, i, w, addr, n);
    AgesAreInvisible(l, Put(l, i, w, line.(age := 0)), v);
    ResidentSlice(l, v, i, w, addr, n);
  }

  lemma ResidentSlice(l: Level, v: map<nat, byte>, i: nat, w: nat, addr: nat, n: nat)
    requires Coheres(l, v) && Covers(v, addr, n) && IsAddress(addr) && Holds(l, i, w, addr)
    requires Offset(l.cfg.geo, addr) + n <= l.cfg.geo.BlockSize()
    ensures var o := Offset(l.cfg.geo, addr); l.sets[i][w].data[o..o + n] == Slice(Over(l, v), addr, n)
  {
    hide Pow2, BitAnd, Offset, SetIndex, Tag, FindWay, KickAddr, CleanAt, Tidy, Over;
    var o := Offset(l.cfg.geo, addr);
    var got, want := l.sets[i][w].data[o..o + n], Slice(Over(l, v), addr, n);
    forall k | 0 <= k < n ensures got[k] == want[k] {
      ResidentByte(l, v, i, w, addr, n, k);
    }
  }

  lemma ResidentByte(l: Level, v: map<nat, byte>, i: nat, w: nat, addr: nat, n: nat, k: nat)
    requires Coheres(l, v) && Covers(v, addr, n) && IsAddress(addr) && Holds(l, i, w, addr) && k < n
    requires Offset(l.cfg.geo, addr) + n <= l.cfg.geo.BlockSize()
    ensures l.sets[i][w].data[Offset(l.cfg.geo, addr) + k] == Over(l, v)[addr + k]
  {
    hide Pow2, BitAnd, Offset, SetIndex, Tag, FindWay, KickAddr, CleanAt, Tidy;
    HeldInTidy(l, v, i, w, addr);
    assert addr + k in v;
    TouchedBytes(l.cfg.geo, addr, n, addr + k);
    SameBlockSameLine(l, addr, addr + k);
  }

  lemma WriteLineServes(l: Level, lower: Storage, i: nat, w: nat, addr: nat, content: seq<byte>, hit: bool,
      elapsed: nat)
    requires Sound(Cache(l, lower)) && Fits(Cache(l, lower), addr, |content|) && Holds(l, i, w, addr)
    ensures Serves(Cache(l, lower), addr, Write(content),
                   WriteLine(l, lower, i, w, addr, Offset(l.cfg.geo, addr), content, hit, elapsed))
    decreases Depth(lower), 3
  {
    hide Pow2, BitAnd, Offset, SetIndex, Tag, FindWay, KickAddr, WholePages, CleanAt, Tidy, Over, After, Request;
    var v := View(lower);
    WholePagesAbove(lower);
    ResidentIsAllocated(l, v, i, w, addr, |content|);
    HeldInTidy(l, v, i, w, addr);
    WriteResident(l, v, i, w, addr, content, !l.cfg.writeThrough);
    if l.cfg.writeThrough {
      FitsBelow(l.cfg, lower, addr, |content|);
      RequestServes(lower, addr, Write(content));
      SameConfigsNest(l.cfg, lower, Request(lower, addr, Write(content)).st);
    }
  }

  lemma SameConfigsNest(cfg: Config, lower: Storage, lower': Storage)
    requires cfg.Valid() && Shaped(lower) && Shaped(lower') && BlocksNest(cfg, lower)
    requires Configs(lower) == Configs(lower')
    ensures BlocksNest(cfg, lower')
  {
    if lower'.Cache? {
      assert lower.Cache?;
      assert Configs(lower')[0] == lower'.level.cfg && Configs(lower)[0] == lower.level.cfg;
    }
  }

  lemma PassThroughServes(l: Level, lower: Storage, addr: nat, content: seq<byte>)
    requires Sound(Cache(l, lower)) && Fits(Cache(l, lower), addr, |content|) && LineFor(l, addr) == None
    ensures Serves(Cache(l, lower), addr, Write(content), PassThrough(l, lower, addr, Write(content)))
    decreases Depth(lower), 3
  {
    hide Pow2, BitAnd, Offset, SetIndex, Tag, FindWay, KickAddr, WholePages, CleanAt, Tidy, Over, After, Request,
         LineFor;
    FitsBelow(l.cfg, lower, addr, |content|);
    RequestServes(lower, addr, Write(content));
    if Covers(View(lower), addr, |content|) {
      WriteBelow(l, View(lower), addr, content);
      SameConfigsNest(l.cfg, lower, Request(lower, addr, Write(content)).st);
    }
  }

  /** Refilling a missing block succeeds exactly when the block is allocated, and shows the same bytes after it. */
  lemma RefillServes(l: Level, lower: Storage, addr: nat)
    requires Sound(Cache(l, lower)) && Fits(Cache(l, lower), addr, 1) && LineFor(l, addr) == None
    ensures var r := Refill(l, lower, addr);
            if addr in View(lower) then
              r.Done? && Sound(r.st) && View(r.st) == View(Cache(l, lower)) && Refilled(l, r.st, addr)
            else r.Fault?
    decreases Depth(lower), 5
  {
    hide Pow2, BitAnd, Offset, SetIndex, Tag, FindWay, KickAddr, WholePages, CleanAt, Tidy, Over, After, Request,
         LineFor, Peek, WriteBack;
    var g, b := l.cfg.geo, BlockAddr(l.cfg.geo, addr);
    var v := View(lower);
    SplitRebuilds(g, addr);
    FitsBelow(l.cfg, lower, addr, 1);
    RequestServes(lower, b, Read(g.BlockSize()));
    WholePagesAbove(lower);
    if addr in v {
      BlockAllocated(v, g, addr);
      var low1 := Request(lower, b, Read(g.BlockSize())).st;
      var i := SetIndex(g, addr);
      var w := Victim(l.sets[i]);
      SameConfigsNest(l.cfg, lower, low1);
      AfterReading(v, b, g.BlockSize());
      assert Sound(Cache(l, low1));
      WriteBackServes(l, low1, i, w);
      SameConfigsNest(l.cfg, low1, WriteBack(l, low1, i, w).st);
      InstallKeepsView(l, v, i, w, addr, Slice(v, b, g.BlockSize()));
    } else {
      assert !Covers(v, b, g.BlockSize());
    }
  }

  lemma AfterReading(v: map<nat, byte>, addr: nat, count: nat)
    ensures After(v, addr, Read(count)) == v
  {
  }

  /** The refilled level holds the block, clean, in the victim's way. */
  predicate Refilled(l: Level, st: Storage, addr: nat)
    requires LevelShaped(l) && IsAddress(addr) && Shaped(st)
  {
    st.Cache? && st.level.cfg == l.cfg && SetIndex(l.cfg.geo, addr) < |l.sets| &&
    var i := SetIndex(l.cfg.geo, addr);
    var w := Victim(l.sets[i]);
    Holds(st.level, i, w, addr) && !st.level.sets[i][w].dirty
  }

  /** A write-back never faults, and changes the level below by the victim's block only. */
  lemma WriteBackServes(l: Level, lower: Storage, i: nat, w: nat)
    requires Sound(Cache(l, lower)) && i < |l.sets| && w < |l.sets[i]|
    ensures var r := WriteBack(l, lower, i, w);
            r.Done? && Sound(r.st) && View(r.st) == AfterWriteBack(l, View(lower), i, w)
    decreases Depth(lower), 4
  {
    hide Pow2, BitAnd, Offset, SetIndex, Tag, FindWay, KickAddr, WholePages, CleanAt, Over, After, Request, LineFor,
         UniqueTags;
    var victim, g := l.sets[i][w], l.cfg.geo;
    if MustWriteBack(l, i, w) {
      assert Backed(l, View(lower), i, victim);
      var kick := KickAddr(g, victim.tag, i);
      SplitInvertsKick(g, victim.tag, i);
      FitsBelow(l.cfg, lower, kick, |victim.data|);
      WholePagesAbove(lower);
      BlockAllocated(View(lower), g, kick);
      RequestServes(lower, kick, Write(victim.data));
    }
  }

  /**
   * Hierarchy transparency: a request that stays inside one block is answered as by a flat memory,
   * it faults exactly when that memory would, and the invariant holds again afterwards.
   */
  lemma {:induction false} RequestServes(st: Storage, addr: nat, op: Op)
    requires Sound(st) && Fits(st, addr, op.Size())
    ensures Serves(st, addr, op, Request(st, addr, op))
    decreases Depth(st), 2
  {
    match st
    case Memory(_, _, _) => MemoryServes(st, addr, op);
    case Cache(l, lower) => CacheServes(l, lower, addr, op);
  }

  /** The refill part of a miss, then the access to the refilled line. */
  function MissReply(l: Level, lower: Storage, addr: nat, op: Op): Reply
    requires LevelShaped(l) && Shaped(lower) && Fits(Cache(l, lower), addr, op.Size())
  {
    SplitRebuilds(l.cfg.geo, addr);
    var i, o := SetIndex(l.cfg.geo, addr), Offset(l.cfg.geo, addr);
    match Refill(l, lower, addr)
    case Fault => Fault
    case Done(Cache(filled, low), _, _, t) =>
      var v := Victim(l.sets[i]);
      match op
      case Read(n) => Done(Cache(filled, low), filled.sets[i][v].data[o..o + n], false, t)
      case Write(content) => WriteLine(filled, low, i, v, addr, o, content, false, t)
  }

  /** A request, once the lookup is done, is one of four cases. */
  function CaseReply(l: Level, lower: Storage, addr: nat, op: Op, w: nat): Reply
    requires LevelShaped(l) && Shaped(lower) && Fits(Cache(l, lower), addr, op.Size()) && w <= l.cfg.ways
  {
    SplitRebuilds(l.cfg.geo, addr);
    var i, o := SetIndex(l.cfg.geo, addr), Offset(l.cfg.geo, addr);
    if w < l.cfg.ways then
      match op
      case Read(n) => ReadLine(l, lower, i, w, o, n)
      case Write(content) => WriteLine(l, lower, i, w, addr, o, content, true, l.cfg.Latency())
    else if op.Write? && !l.cfg.writeAllocate then PassThrough(CountMiss(l), lower, addr, op)
    else MissReply(CountMiss(l), lower, addr, op)
  }

  lemma RequestCases(l: Level, lower: Storage, addr: nat, op: Op)
    requires LevelShaped(l) && Shaped(lower) && Fits(Cache(l, lower), addr, op.Size())
    ensures SetIndex(l.cfg.geo, addr) < |l.sets|
    ensures Request(Cache(l, lower), addr, op) ==
            CaseReply(Arrive(l), lower, addr, op, FindWay(Arrive(l).sets[SetIndex(l.cfg.geo, addr)], Tag(l.cfg.geo,
              addr)))
  {
    hide Pow2, BitAnd, Offset, SetIndex, Tag, FindWay, ReadLine, WriteLine, PassThrough, Refill, Victim;
    SplitRebuilds(l.cfg.geo, addr);
  }

  lemma CacheServes(l: Level, lower: Storage, addr: nat, op: Op)
    requires Sound(Cache(l, lower)) && Fits(Cache(l, lower), addr, op.Size())
    ensures Serves(Cache(l, lower), addr, op, Request(Cache(l, lower), addr, op))
    decreases Depth(lower), 7
  {
    hide Pow2, BitAnd, Offset, SetIndex, Tag, KickAddr, WholePages, CleanAt, Tidy, Over, After, LineFor, ReadLine,
         WriteLine, PassThrough, MissReply, Request;
    RequestCases(l, lower, addr, op);
    var i, aged := SetIndex(l.cfg.geo, addr), Arrive(l);
    ArrivingIsInvisible(l, lower);
    LookupDecides(aged, addr);
    var w := FindWay(aged.sets[i], Tag(l.cfg.geo, addr));
    if w < |aged.sets[i]| {
      match op
      case Read(n) => ReadHitServes(aged, lower, i, w, addr, n);
      case Write(content) => WriteLineServes(aged, lower, i, w, addr, content, true, l.cfg.Latency());
    } else {
      CountingIsInvisible(aged, lower, addr);
      if op.Write? && !l.cfg.writeAllocate {
        PassThroughServes(CountMiss(aged), lower, addr, op.content);
      } else {
        MissServes(CountMiss(aged), lower, addr, op);
      }
    }
  }

  lemma ArrivingIsInvisible(l: Level, lower: Storage)
    requires Sound(Cache(l, lower))
    ensures Sound(Cache(Arrive(l), lower)) && View(Cache(Arrive(l), lower)) == View(Cache(l, lower))
  {
    hide Pow2, BitAnd, Offset, SetIndex, Tag, FindWay, KickAddr, WholePages, CleanAt, Tidy, Over, After;
    AgesAreInvisible(l, Arrive(l), View(lower));
  }

  lemma CountingIsInvisible(l: Level, lower: Storage, addr: nat)
    requires Sound(Cache(l, lower)) && IsAddress(addr)
    ensures Sound(Cache(CountMiss(l), lower)) && View(Cache(CountMiss(l), lower)) == View(Cache(l, lower))
    ensures LineFor(CountMiss(l), addr) == LineFor(l, addr)
  {
    hide Pow2, BitAnd, Offset, SetIndex, Tag, FindWay, KickAddr, WholePages, CleanAt, Tidy, Over, After;
    AgesAreInvisible(l, CountMiss(l), View(lower));
  }

  lemma LookupDecides(l: Level, addr: nat)
    requires LevelShaped(l) && IsAddress(addr)
    ensures var i := SetIndex(l.cfg.geo, addr);
            i < |l.sets| && var w := FindWay(l.sets[i], Tag(l.cfg.geo, addr));
            if w < |l.sets[i]| then Holds(l, i, w, addr) else LineFor(l, addr) == None
  {
    hide Pow2, BitAnd, Offset, SetIndex, Tag;
    SplitRebuilds(l.cfg.geo, addr);
  }

  lemma MissServes(l: Level, lower: Storage, addr: nat, op: Op)
    requires Sound(Cache(l, lower)) && Fits(Cache(l, lower), addr, op.Size()) && LineFor(l, addr) == None
    ensures Serves(Cache(l, lower), addr, op, MissReply(l, lower, addr, op))
    decreases Depth(lower), 6
  {
    hide Pow2, BitAnd, Offset, SetIndex, Tag, FindWay, KickAddr, WholePages, CleanAt, Tidy, Over, After, LineFor,
         WriteLine, Refill;
    var st := Cache(l, lower);
    RefillServes(l, lower, addr);
    if addr in View(lower) {
      var filled := Refill(l, lower, addr).st;
      var i := SetIndex(l.cfg.geo, addr);
      var w := Victim(l.sets[i]);
      AfterReading(View(st), addr, op.Size());
      match op
      case Read(n) => ReadHitServes(filled.level, filled.lower, i, w, addr, n);
      case Write(content) => WriteLineServes(filled.level, filled.lower, i, w, addr, content, false, Refill(l,
        lower, addr).time);
    } else {
      assert !Covers(View(st), addr, op.Size());
    }
  }
}
