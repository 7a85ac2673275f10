/** What a level asks of the level below, under every combination of write and allocation policies. */
module Policies {
  import opened Bits
  import opened Address
  import opened Hierarchy
  import opened Runs
  import opened Recency
  import opened Timing
  import opened Traffic
  import opened DirtyBits

  /** A write that goes on to the level below: through a write-through level, or past one that does not allocate. */
  predicate WritesOn(l: Level, addr: nat, op: Op)
    requires LevelShaped(l) && IsAddress(addr)
  {
    op.Write? && (l.cfg.writeThrough || (Missed(l, addr) == 1 && !l.cfg.writeAllocate))
  }

  predicate Refills(l: Level, addr: nat, op: Op)
    requires LevelShaped(l) && IsAddress(addr)
  {
    Missed(l, addr) == 1 && (op.Read? || l.cfg.writeAllocate)
  }

  /**
   * The requests that one access makes of the level below: a miss that is allocated fetches its block and writes
   * a dirty victim back; a write that goes on is passed on as it is.
   */
  function Asked(l: Level, addr: nat, op: Op): (r: seq<Access>)
    requires LevelShaped(l) && IsAddress(addr)
    ensures Addressed(r)
  {
    hide Sent, Missed;
    (if Refills(l, addr, op) then Sent(l, addr) else []) + if WritesOn(l, addr, op) then [Access(addr, op)] else []
  }

  lemma AskedNothing(st: Storage, trace: seq<Access>)
    requires Shaped(st) && Addressed(trace) && Survives(st, trace)
    ensures Survives(st, trace + []) && End(st, trace + []) == End(st, trace)
  {
    assert trace + [] == trace;
  }

  lemma ThenOne(st: Storage, trace: seq<Access>, addr: nat, op: Op)
    requires Shaped(st) && Addressed(trace) && Survives(st, trace) && IsAddress(addr)
    requires Request(End(st, trace), addr, op).Done?
    ensures var all := trace + [Access(addr, op)];
            Addressed(all) && Survives(st, all) && End(st, all) == Request(End(st, trace), addr, op).st
  {
    hide Request, RunHierarchy, Survives, End;
    OneRequest(End(st, trace), addr, op);
    RunSplits(st, trace, [Access(addr, op)]);
  }

  /** The four ways through a level. */
  lemma RequestBelow(l: Level, lower: Storage, addr: nat, op: Op)
    requires LevelShaped(l) && Shaped(lower) && IsAddress(addr) && Request(Cache(l, lower), addr, op).Done?
    ensures var r, f := Request(Cache(l, lower), addr, op), Refill(CountMiss(Arrive(l)), lower, addr);
            && r.st.Cache?
            && (Refills(l, addr, op) ==> f.Done?)
            && var low := if Refills(l, addr, op) then f.st.lower else lower;
               if WritesOn(l, addr, op) then
                 Request(low, addr, op).Done? && r.st.lower == Request(low, addr, op).st
               else r.st.lower == low
  {
    hide Pow2, BitAnd, Offset, SetIndex, Tag, KickAddr, FindWay, Victim, Refill;
    SplitRebuilds(l.cfg.geo, addr);
    assert Arrive(l).sets[SetIndex(l.cfg.geo, addr)] == AgeWays(l.sets[SetIndex(l.cfg.geo, addr)]);
  }

  /** Under every policy the level below goes through exactly the requests asked of it. */
  lemma BelowServesAsked(l: Level, lower: Storage, addr: nat, op: Op)
    requires LevelShaped(l) && Shaped(lower) && IsAddress(addr) && Request(Cache(l, lower), addr, op).Done?
    ensures var r, asked := Request(Cache(l, lower), addr, op), Asked(l, addr, op);
            r.st.Cache? && Survives(lower, asked) && r.st.lower == End(lower, asked)
  {
    hide Request, Refill, Sent, Missed, Survives, End, RunHierarchy;
    RequestBelow(l, lower, addr, op);
    NothingSent(lower);
    var first: seq<Access> := [];
    if Refills(l, addr, op) {
      RefillSends(l, lower, addr);
      first := Sent(l, addr);
    }
    if WritesOn(l, addr, op) {
      ThenOne(lower, first, addr, op);
    } else {
      AskedNothing(lower, first);
    }
  }

  /** All requests that a run asks of the level below the top. */
  function AskedOver(st: Storage, trace: seq<Access>): (r: seq<Access>)
    requires Shaped(st) && st.Cache? && Addressed(trace)
    ensures Addressed(r)
    decreases |trace|
  {
    hide Request, Asked;
    if trace == [] then []
    else
      match Request(st, trace[0].addr, trace[0].op)
      case Fault => []
      case Done(st', _, _, _) =>
        if st'.Cache? then Asked(st.level, trace[0].addr, trace[0].op) + AskedOver(st', trace[1..]) else []
  }

  /** Over any run, under any policy, the level below runs through the requests asked of it, and counts each. */
  lemma {:induction false} BelowRunsAsked(st: Storage, trace: seq<Access>)
    requires Shaped(st) && st.Cache? && Addressed(trace)
    ensures var end, asked := End(st, trace), AskedOver(st, trace);
            && end.Cache? && Survives(st.lower, asked) && end.lower == End(st.lower, asked)
            && Accesses(end.lower) - Accesses(st.lower) == if st.lower.Cache? then |asked| else 0
    decreases |trace|
  {
    hide Request, Asked, LevelShaped, Accesses;
    if trace == [] {
      NothingSent(st.lower);
    } else {
      match Request(st, trace[0].addr, trace[0].op)
      case Fault =>
        NothingSent(st.lower);
      case Done(st', _, _, _) =>
        OneAsked(st, trace[0].addr, trace[0].op);
        BelowRunsAsked(st', trace[1..]);
        RunSplits(st.lower, Asked(st.level, trace[0].addr, trace[0].op), AskedOver(st', trace[1..]));
    }
    RunCounts(st.lower, AskedOver(st, trace));
  }

  lemma OneAsked(st: Storage, addr: nat, op: Op)
    requires Shaped(st) && st.Cache? && IsAddress(addr) && Request(st, addr, op).Done?
    ensures var st' := Request(st, addr, op).st;
            && Shaped(st') && st'.Cache? && LevelShaped(st.level) && Shaped(st.lower)
            && Survives(st.lower, Asked(st.level, addr, op)) && st'.lower == End(st.lower, Asked(st.level, addr, op))
  {
    BelowServesAsked(st.level, st.lower, addr, op);
    hide Request, Asked, Survives, End;
  }

  /** A run that does not fault is counted request by request. */
  lemma {:induction false} RunCounts(st: Storage, trace: seq<Access>)
    requires Shaped(st) && Addressed(trace) && Survives(st, trace)
    ensures Accesses(End(st, trace)) - Accesses(st) == if st.Cache? then |trace| else 0
    decreases |trace|
  {
    hide Request;
    if trace != [] {
      var st' := Request(st, trace[0].addr, trace[0].op).st;
      if st.Cache? {
        CountersStep(st.level, st.lower, trace[0].addr, trace[0].op);
      } else {
        MemoryStays(st, trace[0].addr, trace[0].op);
      }
      RunCounts(st', trace[1..]);
    }
  }

  lemma MemoryStays(st: Storage, addr: nat, op: Op)
    requires st.Memory? && IsAddress(addr) && Request(st, addr, op).Done?
    ensures Request(st, addr, op).st.Memory?
  {
  }

  /** A write that misses where misses are not allocated is passed on and brings no block in. */
  lemma WriteMissBringsNothing(l: Level, lower: Storage, x: Access)
    requires LevelShaped(l) && Shaped(lower) && IsAddress(x.addr)
    requires x.op.Write? && !l.cfg.writeAllocate && Missed(l, x.addr) == 1
    requires Request(Cache(l, lower), x.addr, x.op).Done?
    ensures Asked(l, x.addr, x.op) == [x]
    ensures var r := Request(Cache(l, lower), x.addr, x.op);
            r.st.Cache? && r.st.level.sets == AgeAll(l.sets)
  {
    hide Pow2, BitAnd, SetIndex, Tag, FindWay, Victim, Request, Sent, TouchedLine;
    SplitRebuilds(l.cfg.geo, x.addr);
    RequestTouchesLine(l, lower, x.addr, x.op);
    var l' := Request(Cache(l, lower), x.addr, x.op).st.level;
    assert l'.sets == AgeAll(l.sets);
  }
}
