/** The one place where the hazard rules lose an instruction, and exactly what that costs. */
module LostJumps {
  import opened Wrappers
  import opened Transparency
  import opened Isa
  import opened Pipeline
  import opened Sequential
  import opened Execution
  import opened Independence

  /** The next word is a JALR through the register that the step just before loaded. */
  predicate Hazard(a: Arch) {
    var w := Word(a.mem, a.pc);
    w != 0 && Decode(w).Some? && LostJump(Decode(w).value, a.lastLoad)
  }

  lemma SlotsDifferExactlyAtHazards(a: Arch)
    ensures Slot(a, true) == Slot(a, false) <==> !Hazard(a)
  {
    hide Decode, Word, NextReg, NextMem, NextPC, CallAt, ValueAt, StoreAt, ExecutesFine, AccessAllocated, Fetchable;
    if Hazard(a) {
      assert |Slot(a, false).log| == |a.log| + 1;
    }
  }

  predicate Agree(a: Arch, k: nat) { Slots(a, true, k) == Slots(a, false, k) }

  predicate HazardAt(a: Arch, k: nat) { Hazard(Slots(a, false, k)) }

  predicate HazardFree(a: Arch, n: nat) { forall k :: 0 <= k < n ==> !HazardAt(a, k) }

  /** The pipeline's reference and the plain sequential machine coincide step for step exactly on hazard-free runs. */
  lemma {:induction false} LossyIsPlainIff(a: Arch, n: nat)
    ensures (forall k :: 0 <= k <= n ==> Agree(a, k)) <==> HazardFree(a, n)
  {
    hide Slot, Hazard;
    if n == 0 {
      assert Agree(a, 0);
    } else {
      LossyIsPlainIff(a, n - 1);
      SlotsDifferExactlyAtHazards(Slots(a, false, n - 1));
      if HazardFree(a, n) {
        assert Agree(a, n - 1) && !HazardAt(a, n - 1);
        assert Agree(a, n);
      }
      if forall k :: 0 <= k <= n ==> Agree(a, k) {
        assert Agree(a, n - 1) && Agree(a, n);
        assert !HazardAt(a, n - 1);
      }
    }
  }

  /** Until the program comes to such a pair the pipeline refines the plain sequential machine. */
  lemma PipelineRefinesPlain(s: Machine, strat: Strategy, n: nat) returns (w: nat, m: nat, e: nat)
    requires Initial(s) && Sound(s.storage) && CodeStable(Start(s), n) && Run(s, strat, n).status.Running?
    requires HazardFree(Start(s), n)
    ensures Placed(Run(s, strat, n).storage)
    ensures var a := Start(s);
            Shows(Run(s, strat, n), Slots(a, false, w), Slots(a, false, m), Slots(a, false, e)) &&
            Slots(a, false, m).ok && w <= m <= w + 1 && m <= e <= m + 1
  {
    hide Run, Slots, Sound, View, CodeStable, Cycle;
    w, m, e := PipelineRefines(s, strat, n);
    LossyIsPlainIff(Start(s), e);
    assert Agree(Start(s), w) && Agree(Start(s), m) && Agree(Start(s), e);
  }

  // What a lost jump costs.

  /** A run of skipped words: nothing changes but the program counter, and every word passed is zero. */
  predicate ZeroRun(b: Arch, j: nat) {
    Slots(b, true, j).log == b.log && Slots(b, true, j).mem == b.mem && Slots(b, true, j).lastLoad == 0 &&
    Slots(b, true, j).pc == Wrap(b.pc + 4 * j) &&
    forall i :: 0 <= i < j ==> ZeroAt(b, i)
  }

  predicate ZeroAt(b: Arch, i: nat) { Word(b.mem, Wrap(b.pc + 4 * i)) == 0 }

  /**
   * After a skip, either only zero words have been passed, or something stuck or retired; what retired first is
   * known.
   */
  lemma {:induction false} AfterSkip(b: Arch, j: nat, p: nat)
    requires b.lastLoad == 0 && b.ok && p < U64 && b.pc == Wrap(p + 4) && Word(b.mem, Wrap(p - 4)) != 0
    ensures var x := Slots(b, true, j);
            !x.ok || ZeroRun(b, j) || (b.log < x.log && x.log[|b.log|].pc != p)
  {
    hide Decode, Word, Slot;
    if j > 0 {
      hide Wrap;
      AfterSkip(b, j - 1, p);
      StepEffects(Slots(b, true, j - 1), true);
      assert Slots(b, true, j) == Slot(Slots(b, true, j - 1), true);
      if Slots(b, true, j).ok && ZeroRun(b, j - 1) {
        AfterZeroRun(b, j, p);
      }
    }
  }

  lemma AfterZeroRun(b: Arch, j: nat, p: nat)
    requires b.lastLoad == 0 && p < U64 && b.pc == Wrap(p + 4) && Word(b.mem, Wrap(p - 4)) != 0
    requires j > 0 && ZeroRun(b, j - 1) && Slots(b, true, j).ok
    ensures var x := Slots(b, true, j);
            ZeroRun(b, j) || (b.log < x.log && x.log[|b.log|].pc != p)
  {
    hide Decode, Word, Slot;
    NotBackYet(b, j - 1, p);
    hide Wrap;
    var x := Slots(b, true, j - 1);
    assert Slots(b, true, j) == Slot(x, true);
    QuietStep(x);
    if Word(x.mem, x.pc) == 0 {
      ZeroRunGrows(b, j);
    }
  }

  lemma ZeroRunGrows(b: Arch, j: nat)
    requires j > 0 && ZeroRun(b, j - 1)
    requires var x := Slots(b, true, j - 1); Word(x.mem, x.pc) == 0 && Slots(b, true, j) == x.(pc := Wrap(x.pc + 4))
    ensures ZeroRun(b, j)
  {
    hide Slots, Word;
    NextWrap(b.pc, j);
    hide Wrap;
    assert ZeroAt(b, j - 1);
  }

  lemma NextWrap(p: nat, j: nat)
    requires j > 0
    ensures Wrap(Wrap(p + 4 * (j - 1)) + 4) == Wrap(p + 4 * j)
  {
  }

  /** One step from a state with no pending load: a zero word is skipped, any other one is retired. */
  lemma QuietStep(x: Arch)
    requires x.lastLoad == 0 && Slot(x, true).ok
    ensures var y := Slot(x, true);
            if Word(x.mem, x.pc) == 0 then y == x.(pc := Wrap(x.pc + 4))
            else |y.log| == |x.log| + 1 && x.log < y.log && y.log[|x.log|].pc == x.pc
  {
    hide Decode, Word, NextReg, NextMem, NextPC, CallAt, ValueAt, StoreAt, ExecutesFine, AccessAllocated, Fetchable;
  }

  /** A run of zero words cannot come around to p: it would pass the load just before it. */
  lemma NotBackYet(b: Arch, j: nat, p: nat)
    requires p < U64 && b.pc == Wrap(p + 4) && Word(b.mem, Wrap(p - 4)) != 0 && ZeroRun(b, j)
    ensures Wrap(b.pc + 4 * j) != p
  {
    hide Word, Slots;
    var around := 0x4000_0000_0000_0000 - 2;
    if Wrap(b.pc + 4 * j) == p {
      if j <= around {
        WrapGap(p, j);
      } else {
        assert ZeroAt(b, around);
        WrapAround(p);
      }
    }
  }

  lemma WrapGap(p: nat, j: nat)
    requires p < U64 && j <= 0x4000_0000_0000_0000 - 2
    ensures Wrap(Wrap(p + 4) + 4 * j) != p
  {
  }

  lemma WrapAround(p: nat)
    requires p < U64
    ensures Wrap(Wrap(p + 4) + 4 * (0x4000_0000_0000_0000 - 2)) == Wrap(p - 4)
  {
  }

  /** A pending load comes from the instruction just before, so that word is not zero. */
  lemma {:induction false} PendingLoad(a: Arch, lossy: bool, k: nat)
    requires a.lastLoad == 0 && a.pc < U64
    ensures var x := Slots(a, lossy, k);
            x.pc < U64 && (x.lastLoad != 0 ==> Word(x.mem, Wrap(x.pc - 4)) != 0)
  {
    hide Slot, Word;
    if k > 0 {
      PendingLoad(a, lossy, k - 1);
      PendingLoadStep(Slots(a, lossy, k - 1), lossy);
    }
  }

  lemma PendingLoadStep(a: Arch, lossy: bool)
    requires a.pc < U64
    ensures var x := Slot(a, lossy);
            x.pc < U64 && (x.lastLoad != 0 ==> Word(x.mem, Wrap(x.pc - 4)) != 0)
  {
    hide Decode, Word, NextReg, CallAt, ValueAt, StoreAt, ExecutesFine, AccessAllocated, Fetchable, Taken, Execute;
    assert Wrap(Wrap(a.pc + 4) - 4) == a.pc;
  }

  lemma {:induction false} SlotsAdd(a: Arch, lossy: bool, i: nat, j: nat)
    ensures Slots(Slots(a, lossy, i), lossy, j) == Slots(a, lossy, i + j)
  {
    hide Slot;
    if j > 0 {
      SlotsAdd(a, lossy, i, j - 1);
    }
  }

  /** The retirements of the plain machine, up to some step. */
  ghost predicate PlainPrefix(a: Arch, log: seq<Retired>) { exists n: nat :: log <= Slots(a, false, n).log }

  /** Past its first hazard the pipeline's log stays behind the jump it lost, or holds something else in its place. */
  lemma LostForGood(a: Arch, k: nat, m: nat)
    requires a.lastLoad == 0 && a.pc < U64 && HazardFree(a, k) && HazardAt(a, k) && k < m && Slots(a, true, m).ok
    ensures var x, plain := Slots(a, false, k), Slots(a, false, k + 1);
            |plain.log| == |x.log| + 1 && x.log < plain.log &&
            (Slots(a, true, m).log == x.log ||
             (|Slots(a, true, m).log| > |x.log| && Slots(a, true, m).log[|x.log|] != plain.log[|x.log|]))
  {
    hide Slots, Slot, Word, HazardAt, HazardFree;
    LossyIsPlainIff(a, k);
    assert Agree(a, k);
    var x := Slots(a, true, k);
    PendingLoad(a, true, k);
    LostStep(a, k);
    SlotsAdd(a, true, k + 1, m - k - 1);
    PathEffects(a, true, k + 1, m);
    AfterSkip(Slots(a, true, k + 1), m - k - 1, x.pc);
  }

  lemma LostStep(a: Arch, k: nat)
    requires HazardAt(a, k) && Agree(a, k)
    ensures var x, y, plain := Slots(a, true, k), Slots(a, true, k + 1), Slots(a, false, k + 1);
            y.pc == Wrap(x.pc + 4) && y.mem == x.mem && y.log == x.log && y.lastLoad == 0 && x.lastLoad != 0 &&
            |plain.log| == |x.log| + 1 && x.log < plain.log && plain.log[|x.log|].pc == x.pc
  {
    hide Slot, Hazard;
    LostSlot(Slots(a, true, k));
  }

  lemma LostSlot(x: Arch)
    requires Hazard(x)
    ensures var y, plain := Slot(x, true), Slot(x, false);
            y.pc == Wrap(x.pc + 4) && y.mem == x.mem && y.log == x.log && y.lastLoad == 0 && x.lastLoad != 0 &&
            |plain.log| == |x.log| + 1 && x.log < plain.log && plain.log[|x.log|].pc == x.pc
  {
    hide Decode, Word, NextReg, NextMem, NextPC, CallAt, ValueAt, StoreAt, ExecutesFine, AccessAllocated, Fetchable;
  }

  lemma LoadStep(a: Arch)
    requires a.pc == 0 && Word(a.mem, 0) == 0x3083
    ensures var b := Slot(a, false); b.pc == 4 && b.mem == a.mem && b.lastLoad == 1
  {
    hide Decode, Word, NextReg, CallAt, ValueAt, StoreAt, ExecutesFine, AccessAllocated, Fetchable;
    ExampleDecodes();
  }

  /** `LD x1, 0(x0)` followed by `JALR x0, 0(x1)` is such a pair. */
  lemma LostJumpExample(a: Arch)
    requires a.pc == 0 && a.lastLoad == 0 && Word(a.mem, 0) == 0x3083 && Word(a.mem, 4) == 0x8067
    ensures HazardFree(a, 1) && HazardAt(a, 1) && Slots(a, true, 2) != Slots(a, false, 2)
  {
    hide Word, Decode, Slot;
    ExampleDecodes();
    LoadStep(a);
    assert Slots(a, false, 0) == a && Slots(a, false, 1) == Slot(a, false);
    assert !HazardAt(a, 0);
    LossyIsPlainIff(a, 1);
    assert Agree(a, 1);
    SlotsDifferExactlyAtHazards(Slots(a, false, 1));
  }

  lemma ExampleDecodes()
    ensures Decode(0x3083) == Some(Decoded(Ld, 0, -1, 1, 0, 0, 0))
    ensures Decode(0x8067) == Some(Decoded(Jalr, 1, -1, 0, 0, 0, 0))
  {
    LoadFields();
    JumpFields();
    hide Opcode, Funct3, Funct6, Funct7, Rd, Rs1, Rs2, ImmI, ImmS, ImmSB, ImmU, ImmUJ;
  }

  lemma LoadFields()
    ensures Opcode(0x3083) == OP_LOAD && Funct3(0x3083) == 3 && Rd(0x3083) == 1 && Rs1(0x3083) == 0 && ImmI(0x3083) == 0
  {
  }

  lemma JumpFields()
    ensures Opcode(0x8067) == OP_JALR && Rd(0x8067) == 0 && Rs1(0x8067) == 1 && ImmI(0x8067) == 0
  {
  }

  /**
   * Exactly when the pipeline's retirements are the plain machine's: as long as nothing has been
   * retired past the first load whose destination the next word, a JALR, reads.
   */
  lemma RetiresPlainPrefixIff(s: Machine, strat: Strategy, n: nat) returns (m: nat)
    requires Initial(s) && Sound(s.storage) && CodeStable(Start(s), n) && Run(s, strat, n).status.Running?
    ensures Run(s, strat, n).log == Slots(Start(s), true, m).log
    ensures PlainPrefix(Start(s), Run(s, strat, n).log) <==>
            forall k :: 0 <= k < m && HazardAt(Start(s), k) && HazardFree(Start(s), k) ==>
              |Run(s, strat, n).log| == |Slots(Start(s), false, k).log|
  {
    hide Run, Slots, Sound, View, CodeStable, Cycle, HazardAt, PlainPrefix;
    var w, e;
    w, m, e := PipelineRefines(s, strat, n);
    var a, log := Start(s), Run(s, strat, n).log;
    if HazardFree(a, m) {
      LossyIsPlainIff(a, m);
      assert Agree(a, m);
      PlainPrefixOf(a, log, m);
    } else {
      var k := FirstHazard(a, m);
      LostForGood(a, k, m);
      if log == Slots(a, false, k).log {
        PlainPrefixOf(a, log, k);
        OnlyFirstHazard(a, k);
      } else {
        PlainPrefixDisagrees(a, log, k);
        OnlyFirstHazard(a, k);
      }
    }
  }

  lemma PlainPrefixOf(a: Arch, log: seq<Retired>, n: nat)
    requires log == Slots(a, false, n).log
    ensures PlainPrefix(a, log)
  {
    hide Slots;
  }

  lemma {:induction false} FirstHazard(a: Arch, m: nat) returns (k: nat)
    requires !HazardFree(a, m)
    ensures k < m && HazardAt(a, k) && HazardFree(a, k)
  {
    hide HazardAt;
    k :| 0 <= k < m && HazardAt(a, k);
    if !HazardFree(a, k) {
      k := FirstHazard(a, k);
    }
  }

  lemma OnlyFirstHazard(a: Arch, k: nat)
    requires HazardAt(a, k) && HazardFree(a, k)
    ensures forall j: nat :: HazardAt(a, j) && HazardFree(a, j) ==> j == k
  {
    hide HazardAt;
  }

  lemma PlainPrefixDisagrees(a: Arch, log: seq<Retired>, k: nat)
    requires var x, plain := Slots(a, false, k), Slots(a, false, k + 1);
             |plain.log| == |x.log| + 1 && |log| > |x.log| && log[|x.log|] != plain.log[|x.log|]
    ensures !PlainPrefix(a, log)
  {
    hide Slots, Slot;
    forall n: nat ensures !(log <= Slots(a, false, n).log) {
      if n <= k + 1 {
        PathEffects(a, false, n, k + 1);
      } else {
        PathEffects(a, false, k + 1, n);
      }
    }
  }
}
