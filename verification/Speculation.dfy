/** Only instructions of the reference's path execute, with the reference's operands. */
module Speculation {
  import opened Hierarchy
  import opened Transparency
  import opened Isa
  import opened Pipeline
  import opened Sequential
  import opened Refinement
  import opened Execution
  import opened Accounting

  /**
   * Operand freshness and speculation safety: in every reachable state an instruction in EX is the one
   * the reference performs next, and its operands are the register values after all older instructions.
   */
  lemma ExecutesOnPath(s: Machine, strat: Strategy, n: nat) returns (k: nat)
    requires Initial(s) && Sound(s.storage) && CodeStable(Start(s), n) && Run(s, strat, n).status.Running?
    ensures var r, a := Run(s, strat, n), Slots(Start(s), true, k);
            r.out == a.out &&
            (!r.e.inst.Bubble? ==> Performs(a) && r.e == EOf(a, strat) && r.e.pc == a.pc &&
                                   r.e.valA == RegValue(a.reg, r.e.rs1, InstAt(a).immA) &&
                                   r.e.valB == RegValue(a.reg, r.e.rs2, InstAt(a).immB))
  {
    hide Cycle, Slot, Sound, StageW, StageM, StageDF, View, CodeStable, Performs, Decode, Word;
    RunRefines(s, strat, n);
    var d := DepthsAt(s, strat, n);
    var t := TrailAt(Start(s), d);
    k := d.e;
  }

  /** A misprediction leaves a bubble behind it: true of any run, whatever the code and the memory do. */
  lemma {:induction false} BubbleBehindMisprediction(s: Machine, strat: Strategy, n: nat)
    requires Initial(s) && Run(s, strat, n).status.Running?
    ensures Run(s, strat, n).m.wrong ==> Run(s, strat, n).e.inst.Bubble?
  {
    hide Cycle, Shaped;
    if n > 0 {
      RunningBefore(s, strat, n);
      CycleLeavesBubble(Run(s, strat, n - 1), strat);
    }
  }

  lemma CycleLeavesBubble(s: Machine, strat: Strategy)
    requires Wellformed(s) && s.status.Running? && Cycle(s, strat).status.Running?
    ensures Cycle(s, strat).m.wrong ==> Cycle(s, strat).e.inst.Bubble?
  {
    hide AfterMem, MemStage, Shaped, Mispredicted, ExResult, LoadUse, JumpInID, StoreValue;
    var perf := s.perf.(cycles := s.perf.cycles + 1);
    var r := MemStage(s.m, s.storage, s.log, perf);
    assert r.MemOut? by { MemDidNotStop(s, strat); }
    var id, sys, fi :=
      AfterMemFields(s, WriteBackStage(s.w, s.reg), r.w, r.fwd, r.storage, r.log, r.perf, strat);
  }

  lemma MemDidNotStop(s: Machine, strat: Strategy)
    requires Wellformed(s) && s.status.Running? && Cycle(s, strat).status.Running?
    ensures MemStage(s.m, s.storage, s.log, s.perf.(cycles := s.perf.cycles + 1)).MemOut?
  {
    hide AfterMem, MemStage, Shaped;
  }

  /** A jump in EX and a misprediction in MEM never redirect the fetch in the same cycle. */
  lemma RedirectsExclude(s: Machine, strat: Strategy, n: nat)
    requires Initial(s) && Run(s, strat, n).status.Running?
    ensures var r := Run(s, strat, n); !(IsJump(r.e.inst) && r.m.wrong) && !(Mispredicted(r.e) && r.m.wrong)
  {
    hide Run, Shaped, Taken;
    BubbleBehindMisprediction(s, strat, n);
  }

  /**
   * A redirect fetches what the reference comes to right after the jump or branch that redirects,
   * and nothing stalls or empties the slot it fetches into.
   */
  lemma RedirectIsClean(s: Machine, strat: Strategy, n: nat) returns (k: nat)
    requires Initial(s) && Sound(s.storage) && CodeStable(Start(s), n) && Run(s, strat, n).status.Running?
    requires IsJump(Run(s, strat, n).e.inst) || Run(s, strat, n).m.wrong
    ensures var r, a, b := Run(s, strat, n), Slots(Start(s), true, k), Slots(Start(s), true, k + 1);
            && Performs(a) && a.pc == (if r.m.wrong then r.m.pc else r.e.pc) && FetchPC(r.f, r.e, r.m) == b.pc
            && !JumpInID(r.d) && !Mispredicted(r.e) && !HeldBack(r)
  {
    hide Run, Sound, View, Slot, Performs, CodeStable, Inv;
    RunRefines(s, strat, n);
    var d := DepthsAt(s, strat, n);
    var t := TrailAt(Start(s), d);
    RedirectAt(Run(s, strat, n), t, strat);
    k := if Run(s, strat, n).m.wrong then d.m else d.e;
  }

  lemma RedirectAt(s: Machine, t: Trail, strat: Strategy)
    requires Inv(s, t, strat) && (IsJump(s.e.inst) || s.m.wrong)
    ensures FetchPC(s.f, s.e, s.m) == t.f.pc && !JumpInID(s.d) && !Mispredicted(s.e) && !HeldBack(s)
    ensures if s.m.wrong then Performs(t.m) && t.m.pc == s.m.pc && t.f == Step(t.m)
            else Performs(t.e) && t.e.pc == s.e.pc && t.f == Step(t.e)
  {
    hide StageW, Sound, View, Decode, Execute, Taken, Step, Performs, Word;
    KindsAreApart(s.e);
    ZeroNeverJumps(s.d);
    FetchGoesRight(s, t, strat);
  }
}
