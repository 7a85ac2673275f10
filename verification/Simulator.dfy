/** The simulator itself: pipeline registers and stage methods updated in place, proved equal to the cycle function. */
module Simulator {
  import opened Wrappers
  import opened Bits
  import opened Address
  import opened Hierarchy
  import opened Isa
  import opened Pipeline
  import opened CacheObject

  class FReg {
    var cur: FRegion
    var upd: FRegion
    var bubble: bool
    var stall: bool

    constructor (entry: nat)
      ensures cur == FRegion(entry) && upd == FRegion(0) && !bubble && !stall
    {
      cur, upd, bubble, stall := FRegion(entry), FRegion(0), false, false;
    }

    method Tick()
      modifies this
      ensures cur == (if old(bubble) || old(stall) then old(cur) else old(upd)) && upd == FRegion(0) && !bubble &&
              !stall
    {
      if !bubble && !stall {
        cur := upd;
      }
      upd, bubble, stall := FRegion(0), false, false;
    }
  }

  class DReg {
    var cur: DRegion
    var upd: DRegion
    var bubble: bool
    var stall: bool

    constructor ()
      ensures cur == ZERO_D && upd == ZERO_D && !bubble && !stall
    {
      cur, upd, bubble, stall := ZERO_D, ZERO_D, false, false;
    }

    method Tick()
      modifies this
      ensures cur == if old(bubble) then old(cur).(inst := 0) else if old(stall) then old(cur) else old(upd)
      ensures upd == ZERO_D && !bubble && !stall
    {
      if bubble {
        cur := cur.(inst := 0);
      } else if !stall {
        cur := upd;
      }
      upd, bubble, stall := ZERO_D, false, false;
    }
  }

  class EReg {
    var cur: ERegion
    var upd: ERegion
    var bubble: bool
    var stall: bool

    constructor ()
      ensures cur == ZERO_E && upd == ZERO_E && !bubble && !stall
    {
      cur, upd, bubble, stall := ZERO_E, ZERO_E, false, false;
    }

    method Tick()
      modifies this
      ensures cur == if old(bubble) then old(cur).(inst := Bubble) else if old(stall) then old(cur) else old(upd)
      ensures upd == ZERO_E && !bubble && !stall
    {
      if bubble {
        cur := cur.(inst := Bubble);
      } else if !stall {
        cur := upd;
      }
      upd, bubble, stall := ZERO_E, false, false;
    }
  }

  class MReg {
    var cur: MRegion
    var upd: MRegion
    var bubble: bool
    var stall: bool

    constructor ()
      ensures cur == ZERO_M && upd == ZERO_M && !bubble && !stall
    {
      cur, upd, bubble, stall := ZERO_M, ZERO_M, false, false;
    }

    method Tick()
      modifies this
      ensures cur == if old(bubble) then old(cur).(inst := Bubble) else if old(stall) then old(cur) else old(upd)
      ensures upd == ZERO_M && !bubble && !stall
    {
      if bubble {
        cur := cur.(inst := Bubble);
      } else if !stall {
        cur := upd;
      }
      upd, bubble, stall := ZERO_M, false, false;
    }
  }

  class WReg {
    var cur: WRegion
    var upd: WRegion
    var bubble: bool
    var stall: bool

    constructor ()
      ensures cur == ZERO_W && upd == ZERO_W && !bubble && !stall
    {
      cur, upd, bubble, stall := ZERO_W, ZERO_W, false, false;
    }

    method Tick()
      modifies this
      ensures cur == if old(bubble) then old(cur).(inst := Bubble) else if old(stall) then old(cur) else old(upd)
      ensures upd == ZERO_W && !bubble && !stall
    {
      if bubble {
        cur := cur.(inst := Bubble);
      } else if !stall {
        cur := upd;
      }
      upd, bubble, stall := ZERO_W, false, false;
    }
  }

  class SIM {
    const l1: Cache
    const strat: Strategy
    const reg: array<int>
    const freg: FReg
    const dreg: DReg
    const ereg: EReg
    const mreg: MReg
    const wreg: WReg
    var perf: Perf
    var out: seq<Output>
    var status: Status
    ghost var log: seq<Retired>

    // What the later stages tell the earlier ones within a cycle.
    var eIsJ: bool
    var eBwrong: bool
    var eRegWrite: bool
    var eValE: int
    var eCalcPC: int
    var mRegWrite: bool
    var mValM: int
    var dReg1: int
    var dReg2: int

    ghost predicate Valid()
      reads this, l1, l1.Repr
    {
      reg.Length == 32 && this !in l1.Repr && reg !in l1.Repr && freg !in l1.Repr && dreg !in l1.Repr &&
      ereg !in l1.Repr && mreg !in l1.Repr && wreg !in l1.Repr && l1.Valid()
    }

    /** Between two cycles no update is pending and no hazard flag is up. */
    ghost predicate Settled()
      reads freg, dreg, ereg, mreg, wreg
    {
      freg.upd == FRegion(0) && !freg.bubble && !freg.stall && dreg.upd == ZERO_D && !dreg.bubble && !dreg.stall &&
      ereg.upd == ZERO_E && !ereg.bubble && !ereg.stall && mreg.upd == ZERO_M && !mreg.bubble && !mreg.stall &&
      wreg.upd == ZERO_W && !wreg.bubble && !wreg.stall
    }

    ghost function Snapshot(): (s: Machine)
      requires Valid()
      reads this, l1, l1.Repr, reg, freg, dreg, ereg, mreg, wreg
      ensures Wellformed(s)
    {
      Machine(reg[..], freg.cur, dreg.cur, ereg.cur, mreg.cur, wreg.cur, l1.State(), log, out, perf, status)
    }

    constructor (l1: Cache, strat: Strategy, entry: nat, stack: int)
      requires l1.Valid()
      ensures Valid() && Settled() && this.l1 == l1 && this.strat == strat
      ensures fresh(reg) && fresh(freg) && fresh(dreg) && fresh(ereg) && fresh(mreg) && fresh(wreg)
      ensures Snapshot() == Machine(seq(32, i => if i == 2 then stack
              else 0), FRegion(entry), ZERO_D, ZERO_E, ZERO_M, ZERO_W,
                                    l1.State(), [], [], Perf(0, 0, 0, 0, 0, 0, 0, 0, 0, 0), Running)
    {
      this.l1, this.strat := l1, strat;
      reg := new int[32](i => if i == 2 then stack else 0);
      freg := new FReg(entry);
      dreg := new DReg();
      ereg := new EReg();
      mreg := new MReg();
      wreg := new WReg();
      perf, out, log, status := Perf(0, 0, 0, 0, 0, 0, 0, 0, 0, 0), [], [], Running;
      eIsJ, eBwrong, eRegWrite, eValE, eCalcPC, mRegWrite, mValM, dReg1, dReg2 := false, false, false, 0, 0, false,
        0, -1, -1;
      new;
      assert reg[..] == seq(32, i => if i == 2 then stack else 0);
    }

    /**
     * A request to the first-level cache with its counters. An access that leaves its block runs off
     * the block's buffer in the source, so the model stops there, as it does on an unallocated address.
     */
    method TouchL1(addr: nat, op: Op) returns (ok: bool, data: seq<byte>)
      requires Valid() && op.Size() > 0
      modifies l1.Repr, this`perf
      ensures Valid()
      ensures var r := Touch(old(l1.State()), addr, op, old(perf));
              if ok then r == Got(l1.State(), data, perf) else r.Stuck?
    {
      hide Pow2, Cache.LevelValid, Cache.LowerValid, Request, Offset, BitAnd;
      data := [];
      TopGeometry();
      ok := Offset(l1.cfg.geo, addr % U32) + op.Size() <= l1.cfg.geo.BlockSize();
      if ok {
        var hit, time;
        ok, data, hit, time := l1.HandleRequest(addr % U32, op);
        perf := perf.(cacheAccesses := perf.cacheAccesses + 1, cacheHits := perf.cacheHits + Count(hit),
                      cacheCycles := perf.cacheCycles + time);
      }
    }

    lemma TopGeometry()
      requires Valid()
      ensures l1.State().Cache? && l1.State().level.cfg == l1.cfg && l1.cfg.Valid()
    {
    }

    method WB()
      requires Valid()
      modifies reg
      ensures Valid() && reg[..] == WriteBackStage(wreg.cur, old(reg[..]))
    {
      hide Pow2, Cache.Valid;
      var w := wreg.cur;
      if w.inst.Bubble? {
        return;
      }
      if w.regWrite && w.destReg != 0 {
        if 0 < w.destReg < reg.Length {
          reg[w.destReg] := w.valM;
        }
      }
    }
  
    /** `ok` is false when the access exits the process. */
    method MEM() returns (ok: bool)
      requires Valid() && (mreg.cur.memRead || mreg.cur.memWrite ==> mreg.cur.memLen > 0)
      modifies l1.Repr, this`perf, this`log, this`mRegWrite, this`mValM, wreg`upd
      ensures Valid()
      ensures var r := MemStage(mreg.cur, old(l1.State()), old(log), old(perf));
              if ok then
                r.MemOut? && wreg.upd == r.w && Forward(mRegWrite, mreg.cur.destReg, mValM) == r.fwd &&
                l1.State() == r.storage && log == r.log && perf == r.perf
              else r.MemStop? && log == old(log)
    {
      hide Pow2, Cache.Valid, Touch, FromBytes, ToBytes;
      var m := mreg.cur;
      mRegWrite, mValM, ok := false, 0, true;
      if m.inst.Bubble? {
        wreg.upd := ZERO_W;
        return;
      }
      var data;
      var valM := m.valE;
      if m.memRead {
        ok, data := TouchL1(Wrap(m.valE), Read(m.memLen));
        valM := FromBytes(data);
      } else if m.memWrite {
        ok, data := TouchL1(Wrap(m.valE), Write(ToBytes(Wrap(m.valB), m.memLen)));
      }
      if ok {
        Retire(valM);
      }
    }

    /** The end of the memory stage: count the instruction and pass it on. */
    method Retire(valM: int)
      requires Valid()
      modifies this`perf, this`log, this`mRegWrite, this`mValM, wreg`upd
      ensures Valid() && l1.State() == old(l1.State())
      ensures var m := mreg.cur;
              && perf == old(perf).(insts := old(perf).insts + 1)
              && log == old(log) + [Retired(m.pc, m.inst, m.destReg, m.regWrite, valM, Stored(m))]
              && wreg.upd == WRegion(m.pc, m.inst, m.valA, m.valB, valM, m.destReg, m.regWrite)
              && mRegWrite == m.regWrite && mValM == valM
    {
      hide Pow2, Cache.Valid;
      var m := mreg.cur;
      perf := perf.(insts := perf.insts + 1);
      log := log + [Retired(m.pc, m.inst, m.destReg, m.regWrite, valM, Stored(m))];
      wreg.upd := WRegion(m.pc, m.inst, m.valA, m.valB, valM, m.destReg, m.regWrite);
      mRegWrite, mValM := m.regWrite, valM;
    }

    /** The character loop of system call 0. */
    method PrintString(addr: nat) returns (ok: bool, chars: seq<byte>)
      requires Valid()
      modifies l1.Repr, this`perf
      ensures Valid()
      ensures var r := PrintText(old(l1.State()), addr, old(perf));
              if ok then r == TextOut(chars, l1.State(), perf) else r.TextStop?
    {
      hide Pow2, Cache.Valid, Touch, PrintText, Cache.State;
      chars := [];
      ghost var whole := PrintText(l1.State(), addr, perf);
      var a: nat, fuel: nat := addr, U32;
      ok := true;
      while fuel > 0
        invariant Valid() && fuel <= U32
        invariant Extends(chars, whole, PrintText(l1.State(), a, perf, fuel))
      {
        PrintTextStep(l1.State(), a, perf, fuel);
        var data;
        ok, data := TouchL1(a, Read(1));
        if !ok || data[0] == 0 {
          return;
        }
        chars := chars + [data[0]];
        a, fuel := a + 1, fuel - 1;
      }
      PrintTextStep(l1.State(), a, perf, fuel);
      ok := false;
    }

    lemma PrintTextStep(st: Storage, addr: nat, p: Perf, fuel: nat)
      requires Shaped(st)
      ensures PrintText(st, addr, p, fuel) ==
              if fuel == 0 then TextStop
              else
                match Touch(st, addr, Read(1), p)
                case Stuck => TextStop
                case Got(st1, data, p1) =>
                  if data[0] == 0 then TextOut([], st1, p1)
                  else
                    match PrintText(st1, addr + 1, p1, fuel - 1)
                    case TextStop => TextStop
                    case TextOut(more, st2, p2) => TextOut([data[0]] + more, st2, p2)
    {
      hide Touch;
    }

    /** A whole text is what has been printed so far, then the rest. */
    ghost predicate Extends(chars: seq<byte>, whole: TextOut, rest: TextOut) {
      match rest
      case TextStop => whole.TextStop?
      case TextOut(more, st, p) => whole == TextOut(chars + more, st, p)
    }

    method Syscall(valA: int, valB: int) returns (ok: bool)
      requires Valid() && ereg.cur.inst.Ecall? && ereg.cur.valA == valA && ereg.cur.valB == valB
      modifies l1.Repr, this`perf, this`out
      ensures Valid()
      ensures var r := Pipeline.Syscall(ereg.cur, old(l1.State()), old(out), old(perf));
              if ok then r == SysOut(l1.State(), out, perf) else r.SysStop? && out == old(out)
      ensures !ok && valB != 0 ==> l1.State() == old(l1.State()) && perf == old(perf)
    {
      hide Pow2, Cache.Valid, PrintText;
      ok := true;
      if valB == 0 {
        var chars;
        ok, chars := PrintString(Wrap(valA));
        if ok {
          out := out + [Text(chars)];
        }
      } else if valB == 1 {
        out := out + [Char(valA % 0x100)];
      } else if valB == 2 {
        out := out + [Number(Signed(valA % U32, SIGN32))];
      } else {
        ok := false;
      }
    }
  
    /** The one call that goes to the cache. */
    predicate PrintsText(e: ERegion) { e.inst.Ecall? && e.valB == 0 }

    method EX() returns (ok: bool)
      requires Valid()
      modifies l1.Repr, this`perf, this`out, this`eIsJ, this`eBwrong, this`eRegWrite, this`eValE, this`eCalcPC, mreg`upd
      ensures Valid()
      ensures var e := ereg.cur;
              var r := Pipeline.Syscall(e, old(l1.State()), old(out), old(perf));
              if ok then
                (e.inst.Bubble? || ExResult(e).defined) && r.SysOut? && l1.State() == r.storage && out == r.out &&
                perf == r.perf.(correct := r.perf.correct + Count(IsBranch(e.inst) && !Mispredicted(e))) &&
                mreg.upd == ExStage(e) && Forward(eRegWrite, e.destReg, eValE) == ExForward(e) &&
                (eIsJ <==> IsJump(e.inst)) && (eBwrong <==> Mispredicted(e)) &&
                (IsJump(e.inst) ==> eCalcPC == ExResult(e).target)
              else
                ((!e.inst.Bubble? && !ExResult(e).defined) || r.SysStop?) && out == old(out) &&
                (!PrintsText(e) ==> l1.State() == old(l1.State()) && perf == old(perf))
    {
      hide Pow2, Cache.Valid, ExResult, Mispredicted, PrintText, Pipeline.Syscall, ExStage, ExForward, IsBranch, IsJump;
      var e := ereg.cur;
      eIsJ, eBwrong, eRegWrite, eValE, eCalcPC, ok := false, false, false, 0, -1, true;
      OnlyCallsCall(e, l1.State(), out, perf);
      if e.inst.Bubble? {
        mreg.upd := ZERO_M;
        return;
      }
      var r := ExResult(e);
      if !r.defined {
        ok := false;
        return;
      }
      if e.inst.Ecall? {
        ok := Syscall(e.valA, e.valB);
        if !ok {
          return;
        }
      }
      Resolve();
    }

    /** Branch resolution, the jump redirect, and what EX latches for MEM. */
    method Resolve()
      requires Valid() && !ereg.cur.inst.Bubble? && !eIsJ && !eBwrong && eCalcPC == -1
      modifies this`perf, this`eIsJ, this`eBwrong, this`eRegWrite, this`eValE, this`eCalcPC, mreg`upd
      ensures Valid()
      ensures var e := ereg.cur;
              perf == old(perf).(correct := old(perf).correct + Count(IsBranch(e.inst) && !Mispredicted(e))) &&
              mreg.upd == ExStage(e) && Forward(eRegWrite, e.destReg, eValE) == ExForward(e) &&
              (eIsJ <==> IsJump(e.inst)) && (eBwrong <==> Mispredicted(e)) &&
              (IsJump(e.inst) ==> eCalcPC == ExResult(e).target)
    {
      hide Pow2, Cache.Valid, ExResult, Taken, StoreValue, MemLen;
      var e := ereg.cur;
      var r := ExResult(e);
      var taken := BranchTaken(e);
      BranchesDoNotJump(e);
      if IsBranch(e.inst) {
        if e.takeBranch == taken {
          perf := perf.(correct := perf.correct + 1);
        } else {
          eBwrong := true;
          eCalcPC := e.pcNotTaken;
        }
      }
      if IsJump(e.inst) {
        eIsJ := true;
        eCalcPC := r.target;
      }
      eRegWrite := Writes(e.inst);
      eValE := r.valE;
      mreg.upd := MRegion(e.pc, e.inst, e.valA, StoreValue(e), r.valE, eCalcPC, e.destReg, eRegWrite, IsStore(e.inst),
                          IsLoad(e.inst), MemLen(e.inst), eBwrong, taken);
    }

    lemma BranchesDoNotJump(e: ERegion)
      ensures !(IsBranch(e.inst) && IsJump(e.inst))
    {
    }

    lemma OnlyCallsCall(e: ERegion, st: Storage, o: seq<Output>, p: Perf)
      requires Shaped(st)
      ensures !e.inst.Ecall? ==> Pipeline.Syscall(e, st, o, p) == SysOut(st, o, p)
      ensures e.inst.Bubble? ==>
                !Mispredicted(e) && !IsBranch(e.inst) && !IsJump(e.inst) && ExStage(e) == ZERO_M &&
                ExForward(e) == Forward(false, e.destReg, 0)
    {
    }

    method ID() returns (ok: bool)
      requires Valid()
      modifies this`dReg1, this`dReg2, ereg`upd
      ensures Valid()
      ensures var r := IdStage(dreg.cur, reg[..], Forward(mRegWrite, mreg.cur.destReg, mValM),
                               Forward(eRegWrite, ereg.cur.destReg, eValE));
              if ok then r.Some? && ereg.upd == Latched(r.value) && dReg1 == r.value.rs1 && dReg2 == r.value.rs2
              else r.None?
    {
      hide Pow2, Cache.Valid, Decode;
      ok := true;
      if dreg.cur.inst == 0 {
        dReg1, dReg2 := -1, -1;
        ereg.upd := ZERO_E;
        return;
      }
      match Decode(dreg.cur.inst)
      case None => ok := false;
      case Some(i) =>
        DecodedKind(dreg.cur.inst);
        var valA, valB := i.immA, i.immB;
        if 0 <= i.rs1 < reg.Length {
          valA := reg[i.rs1];
        }
        if 0 <= i.rs2 < reg.Length {
          valB := reg[i.rs2];
        }
        if mRegWrite && mreg.cur.destReg != 0 {
          if i.rs1 == mreg.cur.destReg {
            valA := mValM;
          }
          if i.rs2 == mreg.cur.destReg {
            valB := mValM;
          }
        }
        if eRegWrite && ereg.cur.destReg != 0 {
          if i.rs1 == ereg.cur.destReg {
            valA := eValE;
          }
          if i.rs2 == ereg.cur.destReg {
            valB := eValE;
          }
        }
        dReg1, dReg2 := i.rs1, i.rs2;
        ereg.upd := Issue(dreg.cur, i, valA, valB);
    }

    lemma DecodedKind(w: nat)
      ensures Decode(w).Some? ==> !Decode(w).value.kind.Bubble?
    {
    }

    method IF() returns (ok: bool)
      requires Valid()
      requires (eIsJ <==> IsJump(ereg.cur.inst)) && (eIsJ ==> eCalcPC == ExResult(ereg.cur).target)
      modifies l1.Repr, this`perf, freg`upd, dreg`upd
      ensures Valid()
      ensures var r := IfStage(FetchPC(freg.cur, ereg.cur, mreg.cur), old(l1.State()), old(perf), strat);
              if ok then r == FetchOut(freg.upd, dreg.upd, l1.State(), perf) else r.FetchStop?
    {
      hide Pow2, Cache.Valid, Touch, FromBytes, ExResult, TakeBranch, ImmSB;
      var pc := freg.cur.predPC;
      if eIsJ {
        pc := Wrap(eCalcPC);
      }
      if mreg.cur.wrong {
        pc := Wrap(mreg.cur.calcPC);
      }
      var data;
      ok, data := TouchL1(pc, Read(4));
      if ok {
        if pc % 4 != 0 {
          ok := false;
          return;
        }
        var inst := FromBytes(data);
        freg.upd := FRegion(PredictedPC(pc, inst, strat));
        dreg.upd := DRegion(pc, inst, OtherPC(pc, inst, strat), TakeBranch(inst, strat));
      }
    }

    /** The hazard rules at the end of a cycle. */
    method Hazards()
      requires Valid() && FlagsDown() && (eBwrong <==> Mispredicted(ereg.cur))
      modifies this`perf, freg`stall, dreg`bubble, dreg`stall, ereg`bubble
      ensures Valid()
      ensures var jump, wrong, held := JumpInID(dreg.cur), Mispredicted(ereg.cur), LoadUse(ereg.cur, dReg1, dReg2);
              freg.stall == (jump || wrong || held) && dreg.bubble == (jump || wrong) && dreg.stall == held &&
              ereg.bubble == (wrong || held) &&
              perf == old(perf).(jumps := old(perf).jumps + Count(jump), mispredict := old(perf).mispredict +
                Count(wrong),
                                 control := old(perf).control + Count(jump) + Count(wrong),
                                 loadUse := old(perf).loadUse + Count(held))
    {
      hide Pow2, Cache.Valid, Taken;
      if JumpInID(dreg.cur) {
        freg.stall := true;
        dreg.bubble := true;
        perf := perf.(jumps := perf.jumps + 1, control := perf.control + 1);
      }
      if IsBranch(ereg.cur.inst) && eBwrong {
        freg.stall := true;
        dreg.bubble := true;
        ereg.bubble := true;
        perf := perf.(mispredict := perf.mispredict + 1, control := perf.control + 1);
      }
      if LoadUse(ereg.cur, dReg1, dReg2) {
        freg.stall := true;
        dreg.stall := true;
        ereg.bubble := true;
        perf := perf.(loadUse := perf.loadUse + 1);
      }
    }

    /** No hazard flag is up. */
    ghost predicate FlagsDown()
      reads freg, dreg, ereg, mreg, wreg
    {
      !freg.bubble && !freg.stall && !dreg.bubble && !dreg.stall && !ereg.bubble && !ereg.stall &&
      !mreg.bubble && !mreg.stall && !wreg.bubble && !wreg.stall
    }

    method Tick()
      requires Valid()
      modifies freg, dreg, ereg, mreg, wreg
      ensures Valid() && Settled()
      ensures freg.cur == (if old(freg.bubble) || old(freg.stall) then old(freg.cur) else old(freg.upd))
      ensures dreg.cur == if old(dreg.bubble) then old(dreg.cur).(inst := 0)
              else if old(dreg.stall) then old(dreg.cur) else old(dreg.upd)
      ensures ereg.cur == if old(ereg.bubble) then old(ereg.cur).(inst := Bubble)
              else if old(ereg.stall) then old(ereg.cur) else old(ereg.upd)
      ensures mreg.cur == if old(mreg.bubble) then old(mreg.cur).(inst := Bubble)
              else if old(mreg.stall) then old(mreg.cur) else old(mreg.upd)
      ensures wreg.cur == if old(wreg.bubble) then old(wreg.cur).(inst := Bubble)
              else if old(wreg.stall) then old(wreg.cur) else old(wreg.upd)
    {
      hide Pow2, Cache.Valid;
      freg.Tick();
      dreg.Tick();
      ereg.Tick();
      mreg.Tick();
      wreg.Tick();
    }
  
    /** Memory instructions carry their width. */
    predicate WidthKnown()
      reads mreg
    {
      mreg.cur.memRead || mreg.cur.memWrite ==> mreg.cur.memLen > 0
    }

    lemma ExGivesWidth(e: ERegion)
      ensures var m := ExStage(e); m.memRead || m.memWrite ==> m.memLen > 0
    {
      hide ExResult, StoreValue;
    }

    /** The first half of a cycle: WB and MEM. */
    method BackHalf() returns (ok: bool)
      requires Valid() && WidthKnown()
      modifies l1.Repr, reg, this`perf, this`log, this`mRegWrite, this`mValM, wreg`upd
      ensures Valid() && reg[..] == WriteBackStage(wreg.cur, old(reg[..]))
      ensures var p := old(perf);
              var r := MemStage(mreg.cur, old(l1.State()), old(log), p.(cycles := p.cycles + 1));
              if ok then
                r.MemOut? && wreg.upd == r.w && Forward(mRegWrite, mreg.cur.destReg, mValM) == r.fwd &&
                l1.State() == r.storage && log == r.log && perf == r.perf
              else r.MemStop? && log == old(log)
    {
      hide Pow2, Cache.Valid, MemStage, WriteBackStage;
      perf := perf.(cycles := perf.cycles + 1);
      WB();
      ok := MEM();
    }

    /** The fetch moves its own counters only. */
    lemma FetchIgnoresCorrect(pc: nat, st: Storage, p: Perf, correct: nat)
      requires Shaped(st)
      ensures var a, b := IfStage(pc, st, p, strat), IfStage(pc, st, p.(correct := correct), strat);
              if a.FetchOut? then b == a.(perf := a.perf.(correct := correct)) else b.FetchStop?
    {
      hide Request, Within, FromBytes, PredictedPC, OtherPC, TakeBranch;
    }

    /** ID and IF, after EX; `p` is what the counters were before EX counted its branch. */
    method DecodeAndFetch(ghost p: Perf) returns (ghost id: Option<ERegion>, ghost fi: FetchOut)
      requires Valid() && status.Running?
      requires (eIsJ <==> IsJump(ereg.cur.inst)) && (eIsJ ==> eCalcPC == ExResult(ereg.cur).target)
      requires perf == p.(correct := perf.correct)
      modifies l1.Repr, this`perf, this`status, this`dReg1, this`dReg2, freg`upd, dreg`upd, ereg`upd
      ensures Valid() && !status.StoppedInMEM? && !status.StoppedInEX?
      ensures id == IdStage(dreg.cur, reg[..], Forward(mRegWrite, mreg.cur.destReg, mValM),
                            Forward(eRegWrite, ereg.cur.destReg, eValE))
      ensures status.StoppedInID? <==> id.None?
      ensures id.Some? ==> fi == IfStage(FetchPC(freg.cur, ereg.cur, mreg.cur), old(l1.State()), p, strat) &&
                           (status.StoppedInIF? <==> fi.FetchStop?)
      ensures status.Running? ==>
                ereg.upd == Latched(id.value) && freg.upd == fi.f && dreg.upd == fi.d &&
                dReg1 == id.value.rs1 && dReg2 == id.value.rs2 && l1.State() == fi.storage &&
                perf == fi.perf.(correct := old(perf).correct) && fi.perf.correct == p.correct
    {
      hide Pow2, Cache.Valid, ExResult, IdStage, IfStage, Latched, FetchPC, IsJump;
      id := IdStage(dreg.cur, reg[..], Forward(mRegWrite, mreg.cur.destReg, mValM), Forward(eRegWrite,
        ereg.cur.destReg, eValE));
      ghost var pc := FetchPC(freg.cur, ereg.cur, mreg.cur);
      fi := IfStage(pc, l1.State(), p, strat);
      FetchIgnoresCorrect(pc, l1.State(), p, perf.correct);
      FetchKeepsCorrect(pc, l1.State(), p);
      var ok := ID();
      if !ok {
        status := StoppedInID;
        return;
      }
      ok := IF();
      if !ok {
        status := StoppedInIF;
      }
    }

    /** EX, ID and IF in a row; the status says which of them stopped the process. */
    method Stages() returns (ghost r: SysOut, ghost id: Option<ERegion>, ghost fi: FetchOut)
      requires Valid() && status.Running?
      modifies l1.Repr, this, freg`upd, dreg`upd, ereg`upd, mreg`upd
      ensures Valid() && log == old(log) && mRegWrite == old(mRegWrite) && mValM == old(mValM)
      ensures r == Pipeline.Syscall(ereg.cur, old(l1.State()), old(out), old(perf))
      ensures !status.StoppedInMEM?
      ensures status.StoppedInEX? <==> (!ereg.cur.inst.Bubble? && !ExResult(ereg.cur).defined) || r.SysStop?
      ensures status.StoppedInEX? ==>
                out == old(out) && (!PrintsText(ereg.cur) ==> l1.State() == old(l1.State()) && perf == old(perf))
      ensures !status.StoppedInEX? ==>
                r.SysOut? && out == r.out &&
                id == IdStage(dreg.cur, reg[..], Forward(mRegWrite, mreg.cur.destReg, mValM), ExForward(ereg.cur)) &&
                (status.StoppedInID? <==> id.None?) &&
                (id.Some? ==> fi == IfStage(FetchPC(freg.cur, ereg.cur, mreg.cur), r.storage, r.perf, strat) &&
                              (status.StoppedInIF? <==> fi.FetchStop?))
      ensures status.Running? ==>
                mreg.upd == ExStage(ereg.cur) && ereg.upd == Latched(id.value) && freg.upd == fi.f &&
                  dreg.upd == fi.d &&
                dReg1 == id.value.rs1 && dReg2 == id.value.rs2 && (eBwrong <==> Mispredicted(ereg.cur)) &&
                l1.State() == fi.storage &&
                perf == fi.perf.(correct := fi.perf.correct + Count(IsBranch(ereg.cur.inst) && !Mispredicted(ereg.cur)))
    {
      hide Pow2, Cache.Valid, ExStage, ExForward, ExResult, IdStage, IfStage, Pipeline.Syscall, Mispredicted, Latched,
           FetchPC, Count, IsJump, IsBranch, Cache.State;
      r := Pipeline.Syscall(ereg.cur, l1.State(), out, perf);
      id, fi := None, FetchStop;
      var ok := EX();
      if !ok {
        status := StoppedInEX;
        return;
      }
      id, fi := DecodeAndFetch(r.perf);
    }

    lemma FetchKeepsCorrect(pc: nat, st: Storage, p: Perf)
      requires Shaped(st)
      ensures IfStage(pc, st, p, strat).FetchOut? ==> IfStage(pc, st, p, strat).perf.correct == p.correct
    {
      hide Request, Within, FromBytes, PredictedPC, OtherPC, TakeBranch;
    }

    /** The hazard rules, the clock edge, and x0. */
    method Edge(ghost s: Machine)
      requires Valid() && FlagsDown() && (eBwrong <==> Mispredicted(ereg.cur))
      requires s.f == freg.cur && s.d == dreg.cur && s.e == ereg.cur
      modifies reg, this`perf, freg, dreg, ereg, mreg, wreg
      ensures Valid() && Settled() && reg[..] == old(reg[..])[0 := 0]
      ensures var held := LoadUse(s.e, dReg1, dReg2);
              freg.cur == EdgeF(s, old(freg.upd), held) && dreg.cur == EdgeD(s, old(dreg.upd), held) &&
              ereg.cur == EdgeE(s, old(ereg.upd), held) && mreg.cur == old(mreg.upd) && wreg.cur == old(wreg.upd) &&
              CountHazards(old(perf), s.e, JumpInID(s.d), held) ==
              perf.(correct := perf.correct + Count(IsBranch(s.e.inst) && !Mispredicted(s.e)))
    {
      hide Pow2, Cache.Valid, Mispredicted, JumpInID, LoadUse, Count;
      Hazards();
      Tick();
      reg[0] := 0;
    }

    lemma HazardsIgnoreCorrect(p: Perf, e: ERegion, jump: bool, held: bool, after: Perf)
      requires var c := Count(IsBranch(e.inst) && !Mispredicted(e));
               CountHazards(p.(correct := p.correct + c), e, jump, held) == after.(correct := after.correct + c)
      ensures after == CountHazards(p, e, jump, held)
    {
      hide Mispredicted, Count;
    }

    /** The second half of the cycle function, case by case. */
    lemma AfterMemCases(s: Machine, regs: seq<int>, w: WRegion, mem: Forward, st: Storage, log: seq<Retired>, p: Perf)
      requires Wellformed(s) && |regs| == 32 && Shaped(st) && s.status.Running?
      ensures var r, sys := AfterMem(s, regs, w, mem, st, log, p, strat), Pipeline.Syscall(s.e, st, s.out, p);
              var id := IdStage(s.d, regs, mem, ExForward(s.e));
              var stopped := s.(reg := regs, log := log);
              && (r.status.StoppedInEX? <==> (!s.e.inst.Bubble? && !ExResult(s.e).defined) || sys.SysStop?)
              && (r.status.StoppedInEX? ==> r == stopped.(storage := st, perf := p, status := StoppedInEX))
              && (!r.status.StoppedInEX? ==>
                    && (r.status.StoppedInID? <==> id.None?)
                    && (r.status.StoppedInID? ==>
                          r == stopped.(storage := sys.storage, out := sys.out, perf := sys.perf,
                            status := StoppedInID))
                    && (id.Some? ==>
                          var fi := IfStage(FetchPC(s.f, s.e, s.m), sys.storage, sys.perf, strat);
                          var held := LoadUse(s.e, id.value.rs1, id.value.rs2);
                          if fi.FetchStop? then
                            r == stopped.(storage := sys.storage, out := sys.out, perf := sys.perf,
                              status := StoppedInIF)
                          else
                            r == Machine(regs[0 := 0], EdgeF(s, fi.f, held), EdgeD(s, fi.d, held),
                                         EdgeE(s, Latched(id.value), held), ExStage(s.e), w, fi.storage, log, sys.out,
                                         CountHazards(fi.perf, s.e, JumpInID(s.d), held), Running)))
    {
      hide ExStage, ExForward, ExResult, IdStage, IfStage, Pipeline.Syscall, Mispredicted, JumpInID, LoadUse, Latched,
           Count, FetchPC, CountHazards, EdgeF, EdgeD, EdgeE;
    }

    /** The second half of a cycle: EX, ID, IF, the hazard rules and the clock edge. */
    method FrontHalf(ghost s: Machine)
      requires Valid() && FlagsDown() && status.Running? && Wellformed(s) && s.status.Running?
      requires s.f == freg.cur && s.d == dreg.cur && s.e == ereg.cur && s.m == mreg.cur && s.out == out
      modifies l1.Repr, reg, this, freg, dreg, ereg, mreg, wreg
      ensures Valid()
      ensures var r := AfterMem(s, old(reg[..]), old(wreg.upd), Forward(old(mRegWrite), old(mreg.cur.destReg),
              old(mValM)),
                                old(l1.State()), old(log), old(perf), strat);
              status == r.status && out == r.out && log == r.log && reg[..] == r.reg &&
              (status.Running? ==> Settled() && Snapshot() == r) &&
              (status.StoppedInEX? && !PrintsText(r.e) ==> l1.State() == r.storage && perf == r.perf)
      ensures status.Running? ==> WidthKnown()
    {
      hide Pow2, Cache.Valid, ExStage, ExForward, ExResult, IdStage, IfStage, Pipeline.Syscall, Mispredicted, JumpInID,
           LoadUse, Latched, Count, FetchPC, CountHazards, EdgeF, EdgeD, EdgeE, AfterMem, Cache.State, Wellformed;
      ExGivesWidth(ereg.cur);
      AfterMemCases(s, reg[..], wreg.upd, Forward(mRegWrite, mreg.cur.destReg, mValM), l1.State(), log, perf);
      ghost var sys, id, fi;
      sys, id, fi := Stages();
      if status.Running? {
        HazardsEdge(s, fi.perf);
      }
    }

    method HazardsEdge(ghost s: Machine, ghost p: Perf)
      requires Valid() && FlagsDown() && (eBwrong <==> Mispredicted(ereg.cur))
      requires s.f == freg.cur && s.d == dreg.cur && s.e == ereg.cur
      requires perf == p.(correct := p.correct + Count(IsBranch(s.e.inst) && !Mispredicted(s.e)))
      modifies reg, this`perf, freg, dreg, ereg, mreg, wreg
      ensures Valid() && Settled() && reg[..] == old(reg[..])[0 := 0]
      ensures var held := LoadUse(s.e, dReg1, dReg2);
              freg.cur == EdgeF(s, old(freg.upd), held) && dreg.cur == EdgeD(s, old(dreg.upd), held) &&
              ereg.cur == EdgeE(s, old(ereg.upd), held) && mreg.cur == old(mreg.upd) && wreg.cur == old(wreg.upd) &&
              perf == CountHazards(p, s.e, JumpInID(s.d), held)
    {
      hide Pow2, Cache.Valid, Mispredicted, JumpInID, LoadUse, Count, CountHazards, EdgeF, EdgeD, EdgeE;
      Edge(s);
      HazardsIgnoreCorrect(p, s.e, JumpInID(s.d), LoadUse(s.e, dReg1, dReg2), perf);
    }

    /** One turn of the simulation loop. */
    method Cycle()
      requires Valid() && Settled() && WidthKnown() && status.Running?
      modifies l1.Repr, reg, this, freg, dreg, ereg, mreg, wreg
      ensures Valid()
      ensures var r := Pipeline.Cycle(old(Snapshot()), strat);
              status == r.status && out == r.out && log == r.log && reg[..] == r.reg &&
              (status.Running? ==> Settled() && Snapshot() == r) &&
              (status.StoppedInEX? && !PrintsText(r.e) ==> l1.State() == r.storage && perf == r.perf)
      ensures status.Running? ==> WidthKnown()
    {
      hide Pow2, Cache.Valid, MemStage, WriteBackStage, AfterMem;
      ghost var s := Snapshot();
      var ok := BackHalf();
      if !ok {
        status := StoppedInMEM;
        return;
      }
      FrontHalf(s);
    }

    /** `simulate`, for at most n turns of its endless loop. */
    method Simulate(n: nat)
      requires Valid() && Settled() && WidthKnown() && status.Running?
      modifies l1.Repr, reg, this, freg, dreg, ereg, mreg, wreg
      ensures Valid()
      ensures var r := Run(old(Snapshot()), strat, n);
              status == r.status && out == r.out && log == r.log && reg[..] == r.reg &&
              (status.Running? ==> Snapshot() == r) &&
              (status.StoppedInEX? && !PrintsText(r.e) ==> l1.State() == r.storage && perf == r.perf)
    {
      hide Pow2, Cache.Valid, Pipeline.Cycle;
      ghost var s := Snapshot();
      for i := 0 to n
        invariant Valid() && Settled() && WidthKnown() && status.Running? && Snapshot() == Run(s, strat, i)
      {
        Cycle();
        if !status.Running? {
          StoppedForGood(s, i + 1, n);
          return;
        }
      }
    }

    lemma {:induction false} StoppedForGood(s: Machine, i: nat, n: nat)
      requires Wellformed(s) && i <= n && !Run(s, strat, i).status.Running?
      ensures Run(s, strat, n) == Run(s, strat, i)
      decreases n
    {
      hide AfterMem, MemStage;
      if i < n {
        StoppedForGood(s, i, n - 1);
      }
    }
  }
}
