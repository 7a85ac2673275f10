/** Neither the prediction strategy nor the caches change what a program does, only whether it gets to do it. */
module Independence {
  import opened Hierarchy
  import opened Transparency
  import opened Isa
  import opened Pipeline
  import opened Sequential
  import opened Refinement
  import opened Execution
  import opened WrongPaths
  import opened Stops
  import opened Survival

  /** Same entry point, registers and memory; caches and predictor may differ in every way. */
  predicate SameProgram(s: Machine, s': Machine)
    requires Sound(s.storage) && Sound(s'.storage)
  {
    Start(s) == Start(s')
  }

  /**
   * One has retired and printed a prefix of what the other has; with equally many retired, the retirements, the
   * memory, and the registers once the instruction in W is written back are the same.
   */
  predicate Agree(r: Machine, r': Machine)
    requires Wellformed(r) && Wellformed(r') && Placed(r.storage) && Placed(r'.storage)
  {
    && (r.log <= r'.log || r'.log <= r.log) && (r.out <= r'.out || r'.out <= r.out)
    && (|r.log| == |r'.log| ==>
          r.log == r'.log && View(r.storage) == View(r'.storage) &&
          WriteBackStage(r.w, r.reg) == WriteBackStage(r'.w, r'.reg))
  }

  /** Any two surviving runs of one program agree at any two moments. */
  lemma RunsAgree(s: Machine, strat: Strategy, n: nat, s': Machine, strat': Strategy, n': nat)
    requires Initial(s) && Initial(s') && Sound(s.storage) && Sound(s'.storage) && SameProgram(s, s')
    requires CodeStable(Start(s), n) && CodeStable(Start(s), n')
    requires Run(s, strat, n).status.Running? && Run(s', strat', n').status.Running?
    ensures Placed(Run(s, strat, n).storage) && Placed(Run(s', strat', n').storage)
    ensures Agree(Run(s, strat, n), Run(s', strat', n'))
  {
    hide Run, Slots, Sound, View, CodeStable, Cycle, WriteBackStage;
    var w, m, e := PipelineRefines(s, strat, n);
    var w', m', e' := PipelineRefines(s', strat', n');
    PathsAgree(Start(s), m, m');
    PathsAgree(Start(s), e, e');
  }

  lemma PathsAgree(a: Arch, i: nat, j: nat)
    ensures var x, y := Slots(a, true, i), Slots(a, true, j);
            && (x.log <= y.log || y.log <= x.log) && (x.out <= y.out || y.out <= x.out)
            && (|x.log| == |y.log| ==> x.log == y.log && x.mem == y.mem && x.reg == y.reg)
  {
    hide Slots;
    if i <= j {
      PathEffects(a, true, i, j);
    } else {
      PathEffects(a, true, j, i);
    }
  }

  /** The same without a word about the second run: that it survives is seen on the program. */
  lemma GoodRunsAgree(s: Machine, strat: Strategy, n: nat, s': Machine, strat': Strategy, n': nat)
    requires Initial(s) && Initial(s') && Sound(s.storage) && Sound(s'.storage) && SameProgram(s, s')
    requires CodeStable(Start(s), n) && CodeStable(Start(s), n') && Run(s, strat, n).status.Running?
    requires GoodSteps(s'.storage, Start(s), n', strat')
    ensures Run(s', strat', n').status.Running?
    ensures Placed(Run(s, strat, n).storage) && Placed(Run(s', strat', n').storage)
    ensures Agree(Run(s, strat, n), Run(s', strat', n'))
  {
    hide Run, Sound, CodeStable, GoodSteps, Agree, Start;
    Survives(s', strat', n');
    RunsAgree(s, strat, n, s', strat', n');
  }

  /**
   * What another strategy and other caches can do to a step that the reference takes: nothing else decides survival.
   */
  predicate SideEffectsGood(s: Machine, a: Arch, j: nat, strat: Strategy)
    requires Wellformed(s)
  {
    InBlock(s.storage, a, j) && GuessLands(a, j, strat) && Recovers(a, j, strat)
  }

  /** If a program runs forever once, it does so wherever accesses fit and wrong guesses do no harm, and only there. */
  lemma RunForeverTogether(s: Machine, strat: Strategy, s': Machine, strat': Strategy)
    requires Initial(s) && Initial(s') && Sound(s.storage) && Sound(s'.storage) && SameProgram(s, s')
    requires (forall n: nat :: CodeStable(Start(s), n)) && RunsForever(s, strat)
    ensures RunsForever(s', strat') <==>
            WideBlocks(s'.storage) && forall j: nat :: SideEffectsGood(s', Start(s), j, strat')
  {
    hide RunsForever, CodeStable, Sound, InBlock, GuessLands, Recovers, WideBlocks, Slots;
    RunsForeverIff(s, strat);
    RunsForeverIff(s', strat');
    var a := Start(s);
    if RunsForever(s', strat') {
      forall j: nat ensures SideEffectsGood(s', a, j, strat') {
        assert GoodSteps(s'.storage, a, j + 1, strat');
        assert GoodStep(s'.storage, a, j, strat');
      }
      assert GoodSteps(s'.storage, a, 0, strat');
    }
    if WideBlocks(s'.storage) && forall j: nat :: SideEffectsGood(s', a, j, strat') {
      forall n: nat ensures GoodSteps(s'.storage, a, n, strat') {
        forall j | 0 <= j < n ensures GoodStep(s'.storage, a, j, strat') {
          assert GoodSteps(s.storage, a, j + 1, strat) && GoodStep(s.storage, a, j, strat);
          assert SideEffectsGood(s', a, j, strat');
        }
      }
    }
  }

  // Exits.

  /** The same retirements, output, memory, and registers once the last retired instruction is written back. */
  predicate SameEffects(r: Machine, r': Machine)
    requires Placed(r.storage) && Placed(r'.storage)
  {
    && r.log == r'.log && r.out == r'.out && View(r.storage) == View(r'.storage)
    && WrittenBack(r.reg, r.log) == WrittenBack(r'.reg, r'.log)
  }

  lemma StopShows(s: Machine, strat: Strategy, n: nat) returns (e: nat)
    requires Initial(s) && Sound(s.storage) && CodeStable(Start(s), n) && Exits(s, strat, n)
    ensures Placed(Run(s, strat, n + 1).storage)
    ensures var r, a := Run(s, strat, n + 1), Slots(Start(s), true, e);
            && r.log == a.log && r.out == a.out && View(r.storage) == a.mem && WrittenBack(r.reg, r.log) == a.reg
            && a.ok && !Slots(Start(s), true, e + 1).ok
  {
    hide Run, Slot, Sound, View, CodeStable, WrittenBack;
    var w;
    w, e := StopInExRefines(s, strat, n);
    LastIsWritten(Start(s), true, w);
    LastIsWritten(Start(s), true, e);
    if w < e {
      StepWrites(Slots(Start(s), true, w), true);
    }
  }

  /** Two runs of one program that stop in EX stop at the same instruction, with the same effects before it. */
  lemma StopsAgree(s: Machine, strat: Strategy, n: nat, s': Machine, strat': Strategy, n': nat)
    requires Initial(s) && Initial(s') && Sound(s.storage) && Sound(s'.storage) && SameProgram(s, s')
    requires CodeStable(Start(s), n) && CodeStable(Start(s), n') && Exits(s, strat, n) && Exits(s', strat', n')
    ensures Placed(Run(s, strat, n + 1).storage) && Placed(Run(s', strat', n' + 1).storage)
    ensures SameEffects(Run(s, strat, n + 1), Run(s', strat', n' + 1))
  {
    hide Run, Slots, Sound, View, CodeStable, Exits, WrittenBack;
    var e := StopShows(s, strat, n);
    var e' := StopShows(s', strat', n');
    if e < e' {
      PathEffects(Start(s), true, e + 1, e');
    } else if e' < e {
      PathEffects(Start(s), true, e' + 1, e);
    }
  }

  /**
   * If one run comes to an exit, no other run of the program goes on past it, and another one comes to it, with the
   * same effects, exactly if the steps before are good for its strategy and its caches.
   */
  lemma ExitsTogether(s: Machine, strat: Strategy, n: nat, s': Machine, strat': Strategy) returns (j: nat)
    requires Initial(s) && Initial(s') && Sound(s.storage) && Sound(s'.storage) && SameProgram(s, s')
    requires CodeStable(Start(s), n) && Exits(s, strat, n)
    ensures FailsInEx(Slots(Start(s), true, j)) && forall n': nat :: CodeStable(Start(s), n')
    ensures !Run(s', strat', 3 * j + 6).status.Running?
    ensures (exists n': nat :: Exits(s', strat', n')) <==> Reachable(s'.storage, Start(s), j, strat')
    ensures forall n': nat :: Exits(s', strat', n') ==>
              && Placed(Run(s, strat, n + 1).storage) && Placed(Run(s', strat', n' + 1).storage)
              && SameEffects(Run(s, strat, n + 1), Run(s', strat', n' + 1))
  {
    hide Run, Slots, Sound, View, CodeStable, Exits, FailsInEx, Reachable, SameEffects;
    j := ExitStep(s, strat, n);
    FailingStep(Slots(Start(s), true, j));
    forall n': nat ensures CodeStable(Start(s), n') {
      StableToTheEnd(Start(s), j, n, n');
    }
    ExitsIff(s', strat', j);
    forall n': nat | Exits(s', strat', n')
      ensures Placed(Run(s, strat, n + 1).storage) && Placed(Run(s', strat', n' + 1).storage)
      ensures SameEffects(Run(s, strat, n + 1), Run(s', strat', n' + 1))
    {
      StopsAgree(s, strat, n, s', strat', n');
    }
    if Run(s', strat', 3 * j + 6).status.Running? {
      NotPastExit(s', strat', j);
    }
  }

  lemma ExitStep(s: Machine, strat: Strategy, n: nat) returns (j: nat)
    requires Initial(s) && Sound(s.storage) && CodeStable(Start(s), n) && Exits(s, strat, n)
    ensures FailsInEx(Slots(Start(s), true, j)) && j < n && !Slots(Start(s), true, j + 1).ok
  {
    hide Cycle, Slot, Sound, CodeStable, DepthsAt, Inv, QuietGaps, WrongPath, Performs, ExecutesFine;
    var a, k := Start(s), DepthsAt(s, strat, n);
    j := k.e;
    RunOnTrack(s, strat, n);
    CycleStopInEx(Run(s, strat, n), TrailAt(a, k), strat);
    ExecutesPerformed(Run(s, strat, n), a, k, strat);
  }

  lemma NotPastExit(s: Machine, strat: Strategy, j: nat)
    requires Initial(s) && Sound(s.storage) && (forall n: nat :: CodeStable(Start(s), n))
    requires !Slots(Start(s), true, j + 1).ok
    ensures !Run(s, strat, 3 * j + 6).status.Running?
  {
    hide Run, Sound, CodeStable, Slots, GoodSteps;
    if Run(s, strat, 3 * j + 6).status.Running? {
      assert 3 * j + 6 == 3 * (j + 1) + 3;
      SurvivedSteps(s, strat, j + 1);
      GoodIsOk(s.storage, Start(s), j, strat);
    }
  }

  lemma GoodIsOk(st: Storage, a: Arch, j: nat, strat: Strategy)
    requires Shaped(st) && GoodSteps(st, a, j + 1, strat)
    ensures Slots(a, true, j + 1).ok
  {
    hide InBlock, GuessLands, Recovers, Slots;
    assert GoodStep(st, a, j, strat);
  }
}
