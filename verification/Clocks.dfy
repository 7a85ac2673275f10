/** The simulator's cache counters against the clocks and counters of the hierarchy. */
module Clocks {
  import Address
  import opened Hierarchy
  import opened Isa
  import opened Pipeline
  import opened Timing
  import opened Traffic

  /** Both clocks have advanced by the same amount, and so have the counts of accesses and misses at the top. */
  predicate InStep(st: Storage, p: Perf, st': Storage, p': Perf) {
    && TotalTime(st') - TotalTime(st) == p'.cacheCycles - p.cacheCycles && (Clocked(st) ==> Clocked(st'))
    && (st.Cache? ==>
          && st'.Cache? && Accesses(st') - Accesses(st) == p'.cacheAccesses - p.cacheAccesses
          && Misses(st') - Misses(st) == (p'.cacheAccesses - p'.cacheHits) - (p.cacheAccesses - p.cacheHits))
  }

  lemma InStepOn(st: Storage, p: Perf, st1: Storage, p1: Perf, st2: Storage, p2: Perf)
    requires InStep(st, p, st1, p1) && InStep(st1, p1, st2, p2)
    ensures InStep(st, p, st2, p2)
  {
    hide TotalTime, Clocked, Accesses, Misses;
  }

  /** Counters that are no cache counters do not matter. */
  lemma OtherCounters(st: Storage, p: Perf, q: Perf)
    requires q.cacheAccesses == p.cacheAccesses && q.cacheHits == p.cacheHits && q.cacheCycles == p.cacheCycles
    ensures InStep(st, p, st, q)
  {
  }

  lemma MissedAtMostOnce(l: Level, addr: nat)
    requires LevelShaped(l) && Address.IsAddress(addr)
    ensures Missed(l, addr) == 0 || Missed(l, addr) == 1
  {
    hide Bits.Pow2, Bits.BitAnd, Address.SetIndex, Address.Tag, FindWay;
  }

  lemma TouchInStep(st: Storage, addr: nat, op: Op, p: Perf)
    requires Shaped(st) && Touch(st, addr, op, p).Got?
    ensures InStep(st, p, Touch(st, addr, op, p).storage, Touch(st, addr, op, p).perf)
  {
    hide Request, TotalTime, Clocked, Within, Missed;
    TimeConserved(st, addr % Bits.U32, op);
    if st.Cache? {
      CountersStep(st.level, st.lower, addr % Bits.U32, op);
      MissedAtMostOnce(st.level, addr % Bits.U32);
    }
  }

  lemma {:induction false} TextInStep(st: Storage, addr: nat, p: Perf, fuel: nat)
    requires Shaped(st) && PrintText(st, addr, p, fuel).TextOut?
    ensures InStep(st, p, PrintText(st, addr, p, fuel).storage, PrintText(st, addr, p, fuel).perf)
    decreases fuel
  {
    hide Touch, TotalTime, Clocked, Accesses, Misses;
    TouchInStep(st, addr, Read(1), p);
    var got := Touch(st, addr, Read(1), p);
    if got.data[0] != 0 {
      TextInStep(got.storage, addr + 1, got.perf, fuel - 1);
    }
  }

  lemma SyscallInStep(e: ERegion, st: Storage, out: seq<Output>, p: Perf)
    requires Shaped(st) && Syscall(e, st, out, p).SysOut?
    ensures InStep(st, p, Syscall(e, st, out, p).storage, Syscall(e, st, out, p).perf)
  {
    hide PrintText, TotalTime, Clocked, Accesses, Misses;
    if e.inst.Ecall? && e.valB == 0 {
      TextInStep(st, Wrap(e.valA), p, Bits.U32);
    }
  }

  lemma MemInStep(m: MRegion, st: Storage, log: seq<Retired>, p: Perf)
    requires Shaped(st) && MemStage(m, st, log, p).MemOut?
    ensures InStep(st, p, MemStage(m, st, log, p).storage, MemStage(m, st, log, p).perf)
  {
    hide Touch, TotalTime, Clocked, Accesses, Misses, FromBytes, ToBytes;
    if !m.inst.Bubble? && (m.memRead || m.memWrite) {
      TouchInStep(st, Wrap(m.valE), if m.memRead then Read(m.memLen) else Write(ToBytes(Wrap(m.valB), m.memLen)), p);
    }
  }

  lemma FetchInStep(pc: nat, st: Storage, p: Perf, strat: Strategy)
    requires Shaped(st) && IfStage(pc, st, p, strat).FetchOut?
    ensures InStep(st, p, IfStage(pc, st, p, strat).storage, IfStage(pc, st, p, strat).perf)
  {
    hide Touch, TotalTime, Clocked, Accesses, Misses, FromBytes, PredictedPC, OtherPC, TakeBranch;
    TouchInStep(st, pc, Read(4), p);
  }

  lemma CycleInStep(s: Machine, strat: Strategy)
    requires Wellformed(s)
    ensures var s' := Cycle(s, strat); InStep(s.storage, s.perf, s'.storage, s'.perf)
  {
    hide MemStage, IfStage, Syscall, IdStage, ExResult, WriteBackStage, FetchPC, ExStage, EdgeF, EdgeD, EdgeE,
         LoadUse, JumpInID, Mispredicted, InStep, Latched, ExForward, Count;
    OtherCounters(s.storage, s.perf, s.perf);
    if s.status.Running? {
      var p := s.perf.(cycles := s.perf.cycles + 1);
      OtherCounters(s.storage, s.perf, p);
      var r := MemStage(s.m, s.storage, s.log, p);
      if r.MemOut? {
        MemInStep(s.m, s.storage, s.log, p);
        InStepOn(s.storage, s.perf, s.storage, p, r.storage, r.perf);
        FrontInStep(s, r.storage, r.perf, strat);
      }
    }
  }

  lemma FrontInStep(s: Machine, st: Storage, p: Perf, strat: Strategy)
    requires Shaped(st) && InStep(s.storage, s.perf, st, p)
    ensures var sys := Syscall(s.e, st, s.out, p);
            sys.SysOut? ==>
              && InStep(s.storage, s.perf, sys.storage, sys.perf)
              && var f := IfStage(FetchPC(s.f, s.e, s.m), sys.storage, sys.perf, strat);
                 f.FetchOut? ==> InStep(s.storage, s.perf, f.storage, f.perf) &&
                                 forall jump, held ::
                                   InStep(s.storage, s.perf, f.storage, CountHazards(f.perf, s.e, jump, held))
  {
    hide IfStage, Syscall, FetchPC, InStep, Mispredicted, IsBranch, Count;
    var sys := Syscall(s.e, st, s.out, p);
    if sys.SysOut? {
      SyscallInStep(s.e, st, s.out, p);
      InStepOn(s.storage, s.perf, st, p, sys.storage, sys.perf);
      var pc := FetchPC(s.f, s.e, s.m);
      var f := IfStage(pc, sys.storage, sys.perf, strat);
      if f.FetchOut? {
        FetchInStep(pc, sys.storage, sys.perf, strat);
        InStepOn(s.storage, s.perf, sys.storage, sys.perf, f.storage, f.perf);
        forall jump, held ensures InStep(s.storage, s.perf, f.storage, CountHazards(f.perf, s.e, jump, held)) {
          OtherCounters(f.storage, f.perf, CountHazards(f.perf, s.e, jump, held));
          InStepOn(s.storage, s.perf, f.storage, f.perf, f.storage, CountHazards(f.perf, s.e, jump, held));
        }
      }
    }
  }

  /**
   * After any number of cycles, stopped or not, `cache_cycle_cnt` has grown by what the clocks of all levels
   * and of the memory have grown together, `cache_cnt` by the accesses to the top level, and the accesses
   * that were no hits by its misses.
   */
  lemma {:induction false} CacheCountersAgree(s: Machine, strat: Strategy, n: nat)
    requires Wellformed(s)
    ensures var r := Run(s, strat, n);
            && TotalTime(r.storage) - TotalTime(s.storage) == r.perf.cacheCycles - s.perf.cacheCycles
            && (Clocked(s.storage) ==> Clocked(r.storage))
            && (s.storage.Cache? ==>
                  && Accesses(r.storage) - Accesses(s.storage) == r.perf.cacheAccesses - s.perf.cacheAccesses
                  && Misses(r.storage) - Misses(s.storage) ==
                     (r.perf.cacheAccesses - r.perf.cacheHits) - (s.perf.cacheAccesses - s.perf.cacheHits))
  {
    hide Cycle, TotalTime, Clocked, Accesses, Misses;
    if n > 0 {
      CacheCountersAgree(s, strat, n - 1);
      CycleInStep(Run(s, strat, n - 1), strat);
    }
  }
}
