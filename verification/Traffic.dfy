/** What each level of a chain asks of the next, over whole runs. */
module Traffic {
  import opened Bits
  import opened Address
  import opened Hierarchy
  import opened Runs
  import opened Timing

  predicate Addressed(trace: seq<Access>) { forall k :: 0 <= k < |trace| ==> IsAddress(trace[k].addr) }

  function End(st: Storage, trace: seq<Access>): (r: Storage)
    requires Shaped(st) && Addressed(trace)
    ensures Shaped(r) && Configs(r) == Configs(st)
  {
    RunHierarchy(st, trace).1
  }

  predicate Survives(st: Storage, trace: seq<Access>)
    requires Shaped(st) && Addressed(trace)
  {
    !RunHierarchy(st, trace).0.faulted
  }

  lemma {:induction false} RunSplits(st: Storage, a: seq<Access>, b: seq<Access>)
    requires Shaped(st) && Addressed(a) && Addressed(b) && Addressed(a + b) && Survives(st, a)
    ensures End(st, a + b) == End(End(st, a), b)
    ensures Survives(st, a + b) <==> Survives(End(st, a), b)
    decreases |a|
  {
    hide Request;
    if a == [] {
      assert a + b == b;
    } else {
      assert (a + b)[1..] == a[1..] + b && (a + b)[0] == a[0];
      var st' := Request(st, a[0].addr, a[0].op).st;
      RunSplits(st', a[1..], b);
    }
  }

  lemma OneRequest(st: Storage, addr: nat, op: Op)
    requires Shaped(st) && IsAddress(addr) && Request(st, addr, op).Done?
    ensures Survives(st, [Access(addr, op)]) && End(st, [Access(addr, op)]) == Request(st, addr, op).st
  {
    hide Request;
    var x := [Access(addr, op)];
    assert x[1..] == [];
    assert RunHierarchy(Request(st, addr, op).st, []) == (Answers([], false), Request(st, addr, op).st);
  }

  /** The requests that one access to a write-back, write-allocate level makes of the level below. */
  function Sent(l: Level, addr: nat): (r: seq<Access>)
    requires LevelShaped(l) && IsAddress(addr)
    ensures Addressed(r) && |r| == Missed(l, addr) + Evicted(l, addr)
  {
    hide Pow2, BitAnd, Offset, SetIndex, Tag, KickAddr, FindWay, Victim;
    var g, aged := l.cfg.geo, CountMiss(Arrive(l));
    SplitRebuilds(g, addr);
    var i := SetIndex(g, addr);
    var v := Victim(aged.sets[i]);
    assert aged.sets[i] == AgeWays(l.sets[i]);
    if Missed(l, addr) == 0 then []
    else if MustWriteBack(aged, i, v) then
      [Access(BlockAddr(g, addr), Read(g.BlockSize())),
       Access(KickAddr(g, aged.sets[i][v].tag, i), Write(aged.sets[i][v].data))]
    else [Access(BlockAddr(g, addr), Read(g.BlockSize()))]
  }

  /** The level below goes through exactly those. */
  lemma BelowServesSent(l: Level, lower: Storage, addr: nat, op: Op)
    requires LevelShaped(l) && Shaped(lower) && IsAddress(addr)
    requires WriteBackAllocating(l.cfg) && Request(Cache(l, lower), addr, op).Done?
    ensures var r := Request(Cache(l, lower), addr, op);
            r.st.Cache? && Survives(lower, Sent(l, addr)) && r.st.lower == End(lower, Sent(l, addr))
  {
    hide Pow2, BitAnd, Offset, SetIndex, Tag, KickAddr, FindWay, Victim, Request, Missed, Evicted, RunHierarchy;
    LowerEffect(l, lower, addr, op);
    if Missed(l, addr) == 0 {
      NothingSent(lower);
    } else {
      RefillSends(l, lower, addr);
    }
  }

  lemma NothingSent(st: Storage)
    requires Shaped(st)
    ensures Survives(st, []) && End(st, []) == st
  {
  }

  lemma RefillSends(l: Level, lower: Storage, addr: nat)
    requires LevelShaped(l) && Shaped(lower) && IsAddress(addr) && Missed(l, addr) != 0
    requires Refill(CountMiss(Arrive(l)), lower, addr).Done?
    ensures Survives(lower, Sent(l, addr)) && Refill(CountMiss(Arrive(l)), lower, addr).st.Cache?
    ensures Refill(CountMiss(Arrive(l)), lower, addr).st.lower == End(lower, Sent(l, addr))
  {
    hide Pow2, BitAnd, Offset, SetIndex, Tag, KickAddr, FindWay, Victim, Request, Missed, Evicted, RunHierarchy,
         Survives, End;
    var g, aged := l.cfg.geo, CountMiss(Arrive(l));
    SplitRebuilds(g, addr);
    var i := SetIndex(g, addr);
    var v := Victim(aged.sets[i]);
    assert aged.sets[i] == AgeWays(l.sets[i]);
    var fetch := Access(BlockAddr(g, addr), Read(g.BlockSize()));
    OneRequest(lower, fetch.addr, fetch.op);
    if MustWriteBack(aged, i, v) {
      var kick := Access(KickAddr(g, aged.sets[i][v].tag, i), Write(aged.sets[i][v].data));
      var low := Request(lower, fetch.addr, fetch.op).st;
      assert Sent(l, addr)[1] == kick;
      OneRequest(low, kick.addr, kick.op);
      RunSplits(lower, [fetch], [kick]);
      assert Sent(l, addr) == [fetch] + [kick];
    } else {
      assert Sent(l, addr) == [fetch];
    }
  }

  /** All requests that a run makes of the level below the top. */
  function SentOver(st: Storage, trace: seq<Access>): (r: seq<Access>)
    requires Shaped(st) && st.Cache? && Addressed(trace)
    ensures Addressed(r)
    decreases |trace|
  {
    hide Request, Sent;
    if trace == [] then []
    else
      match Request(st, trace[0].addr, trace[0].op)
      case Fault => []
      case Done(st', _, _, _) => if st'.Cache? then Sent(st.level, trace[0].addr) + SentOver(st', trace[1..]) else []
  }

  /** The dirty lines that a run displaces from the top level. */
  function Evictions(st: Storage, trace: seq<Access>): nat
    requires Shaped(st) && st.Cache? && Addressed(trace)
    decreases |trace|
  {
    hide Request, Evicted;
    if trace == [] then 0
    else
      match Request(st, trace[0].addr, trace[0].op)
      case Fault => 0
      case Done(st', _, _, _) => if st'.Cache? then Evicted(st.level, trace[0].addr) + Evictions(st', trace[1..]) else 0
  }

  function Misses(st: Storage): nat {
    match st
    case Memory(_, _, _) => 0
    case Cache(l, _) => l.stats.misses
  }

  /** Below a write-back, write-allocate level a run is a run: of the requests it sends. */
  lemma {:induction false} BelowRuns(st: Storage, trace: seq<Access>)
    requires Shaped(st) && st.Cache? && WriteBackAllocating(st.level.cfg) && Addressed(trace)
    ensures var end := End(st, trace);
            && end.Cache? && Survives(st.lower, SentOver(st, trace)) && end.lower == End(st.lower, SentOver(st, trace))
            && end.level.stats.accesses <= st.level.stats.accesses + |trace|
            && (Survives(st, trace) ==> end.level.stats.accesses == st.level.stats.accesses + |trace|)
            && Misses(end) + Evictions(st, trace) == Misses(st) + |SentOver(st, trace)|
            && Evictions(st, trace) <= Misses(end) - Misses(st)
    decreases |trace|
  {
    hide Request, Sent, Missed, Evicted, LevelShaped;
    if trace == [] {
      NothingSent(st.lower);
    } else {
      match Request(st, trace[0].addr, trace[0].op)
      case Fault =>
        NothingSent(st.lower);
      case Done(st', _, _, _) =>
        OneAccess(st, trace[0].addr, trace[0].op);
        BelowRuns(st', trace[1..]);
        RunSplits(st.lower, Sent(st.level, trace[0].addr), SentOver(st', trace[1..]));
    }
  }

  lemma OneAccess(st: Storage, addr: nat, op: Op)
    requires Shaped(st) && st.Cache? && WriteBackAllocating(st.level.cfg) && IsAddress(addr) &&
             Request(st, addr, op).Done?
    ensures var st' := Request(st, addr, op).st;
            && Shaped(st') && st'.Cache? && st'.level.cfg == st.level.cfg
            && LevelShaped(st.level) && Shaped(st.lower)
            && Survives(st.lower, Sent(st.level, addr)) && st'.lower == End(st.lower, Sent(st.level, addr))
            && st'.level.stats.accesses == st.level.stats.accesses + 1
            && Misses(st') == Misses(st) + Missed(st.level, addr) && Evicted(st.level, addr) <= Missed(st.level, addr)
  {
    BelowServesSent(st.level, st.lower, addr, op);
    CountersStep(st.level, st.lower, addr, op);
    TopConfig(st, Request(st, addr, op).st);
    hide Request, Sent, Survives, End;
  }

  lemma TopConfig(st: Storage, st': Storage)
    requires st.Cache? && st'.Cache? && Configs(st) == Configs(st')
    ensures st.level.cfg == st'.level.cfg
  {
    assert Configs(st)[0] == st.level.cfg && Configs(st')[0] == st'.level.cfg;
  }

  // Every level of the chain.

  function Below(st: Storage, d: nat): (r: Storage)
    requires Shaped(st) && d <= Depth(st)
    ensures Shaped(r) && Configs(r) == Configs(st)[d..]
  {
    if d == 0 then st else Below(st.lower, d - 1)
  }

  /** What a run at the top makes the level at depth d go through. */
  function TraceAt(st: Storage, trace: seq<Access>, d: nat): (r: seq<Access>)
    requires Shaped(st) && d <= Depth(st) && Addressed(trace)
    ensures Addressed(r)
  {
    if d == 0 then trace else TraceAt(st.lower, SentOver(st, trace), d - 1)
  }

  /**
   * In a write-back, write-allocate chain, over any run and at any depth, the accesses to a level are the
   * misses of the level above plus the dirty lines that level displaces, hence between its misses and twice those.
   */
  lemma {:induction false} TrafficAtEveryLevel(st: Storage, trace: seq<Access>, d: nat)
    requires Shaped(st) && Addressed(trace) && AllWriteBackAllocating(Configs(st)) && d + 1 < Depth(st)
    ensures var a, b := Below(st, d), Below(End(st, trace), d);
            && a.Cache? && b.Cache? && b == End(a, TraceAt(st, trace, d))
            && Accesses(b.lower) - Accesses(a.lower) == Misses(b) - Misses(a) + Evictions(a, TraceAt(st, trace, d))
            && Misses(b) - Misses(a) <= Accesses(b.lower) - Accesses(a.lower) <= 2 * (Misses(b) - Misses(a))
    decreases d
  {
    hide SentOver, Evictions, RunHierarchy, Survives, End, LevelShaped;
    ChainHead(st);
    BelowRuns(st, trace);
    var sent := SentOver(st, trace);
    if d == 0 {
      ChainHead(st.lower);
      BelowRuns(st.lower, sent);
    } else {
      TrafficAtEveryLevel(st.lower, sent, d - 1);
    }
  }

  lemma ChainHead(st: Storage)
    requires Shaped(st) && Depth(st) > 0 && AllWriteBackAllocating(Configs(st))
    ensures st.Cache? && Shaped(st.lower) && WriteBackAllocating(st.level.cfg) &&
            AllWriteBackAllocating(Configs(st.lower))
    ensures Depth(st.lower) == Depth(st) - 1
  {
    assert Configs(st)[0] == st.level.cfg;
    assert forall k :: 0 <= k < |Configs(st.lower)| ==> Configs(st.lower)[k] == Configs(st)[k + 1];
  }
}
