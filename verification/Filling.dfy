/** Sets fill from the front: at every level, under every policy, the valid ways come first. */
module Filling {
  import opened Bits
  import opened Address
  import opened Hierarchy
  import opened Runs

  predicate Filled(ways: seq<Line>) { forall j, k :: 0 <= j < k < |ways| && ways[k].valid ==> ways[j].valid }

  predicate LevelFilled(l: Level) { forall i :: 0 <= i < |l.sets| ==> Filled(l.sets[i]) }

  predicate AllFilled(st: Storage) {
    match st
    case Memory(_, _, _) => true
    case Cache(l, lower) => LevelFilled(l) && AllFilled(lower)
  }

  lemma PutKeepsFilled(l: Level, i: nat, w: nat, line: Line)
    requires LevelShaped(l) && i < |l.sets| && w < |l.sets[i]| && |line.data| == l.cfg.geo.BlockSize()
    requires LevelFilled(l) && line.valid && forall j :: 0 <= j < w ==> l.sets[i][j].valid
    ensures LevelFilled(Put(l, i, w, line))
  {
    var ways := l.sets[i];
    assert Filled(ways);
  }

  lemma ArriveKeepsFilled(l: Level)
    requires LevelShaped(l) && LevelFilled(l)
    ensures LevelFilled(Arrive(l)) && LevelFilled(CountMiss(Arrive(l)))
  {
    forall i | 0 <= i < |l.sets| ensures Filled(AgeWays(l.sets[i])) {
      assert Filled(l.sets[i]);
    }
  }

  /** A valid way has only valid ways before it; so has the victim, which is the first invalid one if there is any. */
  lemma BeforeIsValid(ways: seq<Line>, tag: nat)
    requires Filled(ways) && ways != []
    ensures FindWay(ways, tag) < |ways| ==> forall j :: 0 <= j <= FindWay(ways, tag) ==> ways[j].valid
    ensures forall j :: 0 <= j < Victim(ways) ==> ways[j].valid
  {
    hide FindWay, Victim;
  }

  lemma {:induction false} WriteLineKeepsFilled(l: Level, lower: Storage, i: nat, w: nat, addr: nat, o: nat,
                                                content: seq<byte>, hit: bool, elapsed: nat)
    requires LevelShaped(l) && Shaped(lower) && IsAddress(addr)
    requires i < |l.sets| && w < |l.sets[i]| && o + |content| <= l.cfg.geo.BlockSize()
    requires LevelFilled(l) && AllFilled(lower) && forall j :: 0 <= j <= w ==> l.sets[i][j].valid
    requires WriteLine(l, lower, i, w, addr, o, content, hit, elapsed).Done?
    ensures AllFilled(WriteLine(l, lower, i, w, addr, o, content, hit, elapsed).st)
    decreases Depth(lower), 3
  {
    hide Request, Pow2, LevelFilled, Splice, Put;
    var line := l.sets[i][w];
    PutKeepsFilled(l, i, w, line.(data := Splice(line.data, o, content), age := 0, dirty := !l.cfg.writeThrough));
    if l.cfg.writeThrough {
      RequestKeepsFilled(lower, addr, Write(content));
    }
  }

  lemma {:induction false} RefillKeepsFilled(l: Level, lower: Storage, addr: nat)
    requires LevelShaped(l) && Shaped(lower) && IsAddress(addr) && LevelFilled(l) && AllFilled(lower)
    requires Refill(l, lower, addr).Done?
    ensures SetIndex(l.cfg.geo, addr) < |l.sets|
    ensures var r, i := Refill(l, lower, addr), SetIndex(l.cfg.geo, addr);
            && r.st.Cache? && AllFilled(r.st) && |r.st.level.sets| == |l.sets|
            && |r.st.level.sets[i]| == |l.sets[i]| && Victim(l.sets[i]) < |l.sets[i]|
            && forall j :: 0 <= j <= Victim(l.sets[i]) ==> r.st.level.sets[i][j].valid
    decreases Depth(lower), 4
  {
    hide Request, Pow2, BitAnd, Offset, SetIndex, Tag, KickAddr, FindWay, Victim, LevelFilled;
    var g := l.cfg.geo;
    SplitRebuilds(g, addr);
    var i := SetIndex(g, addr);
    var v := Victim(l.sets[i]);
    assert Filled(l.sets[i]) by { FilledSet(l, i); }
    BeforeIsValid(l.sets[i], Tag(g, addr));
    RequestKeepsFilled(lower, BlockAddr(g, addr), Read(g.BlockSize()));
    var fetched := Request(lower, BlockAddr(g, addr), Read(g.BlockSize()));
    if MustWriteBack(l, i, v) {
      KickIsAligned(g, l.sets[i][v].tag, i);
      RequestKeepsFilled(fetched.st, KickAddr(g, l.sets[i][v].tag, i), Write(l.sets[i][v].data));
    }
    PutKeepsFilled(l, i, v, Line(Tag(g, addr), false, true, 0, fetched.data));
  }

  lemma FilledSet(l: Level, i: nat)
    requires LevelFilled(l) && i < |l.sets|
    ensures Filled(l.sets[i])
  {
  }

  /** Every request keeps the valid ways in front, in every set of every level. */
  lemma {:induction false} RequestKeepsFilled(st: Storage, addr: nat, op: Op)
    requires Shaped(st) && IsAddress(addr) && AllFilled(st) && Request(st, addr, op).Done?
    ensures AllFilled(Request(st, addr, op).st)
    decreases Depth(st), 2
  {
    hide Pow2, BitAnd, Offset, SetIndex, Tag, KickAddr, FindWay, Victim, WriteLine, Refill, LevelFilled;
    match st
    case Memory(_, _, _) =>
    case Cache(l, lower) =>
      SplitRebuilds(l.cfg.geo, addr);
      ArriveKeepsFilled(l);
      var i, aged, tag := SetIndex(l.cfg.geo, addr), Arrive(l), Tag(l.cfg.geo, addr);
      var o := Offset(l.cfg.geo, addr);
      FilledSet(aged, i);
      BeforeIsValid(aged.sets[i], tag);
      var w := FindWay(aged.sets[i], tag);
      if w < |aged.sets[i]| {
        match op
        case Read(n) => PutKeepsFilled(aged, i, w, aged.sets[i][w].(age := 0));
        case Write(content) => WriteLineKeepsFilled(aged, lower, i, w, addr, o, content, true, l.cfg.Latency());
      } else if op.Write? && !l.cfg.writeAllocate {
        RequestKeepsFilled(lower, addr, op);
      } else {
        RefillKeepsFilled(CountMiss(aged), lower, addr);
        if op.Write? {
          var f := Refill(CountMiss(aged), lower, addr);
          WriteLineKeepsFilled(f.st.level, f.st.lower, i, Victim(aged.sets[i]), addr, o, op.content, false, f.time);
        }
      }
  }

  /** So does every run; a cold chain starts that way. */
  lemma {:induction false} RunKeepsFilled(st: Storage, trace: seq<Access>)
    requires Shaped(st) && (AllFilled(st) || Cold(st)) && forall k :: 0 <= k < |trace| ==> IsAddress(trace[k].addr)
    ensures AllFilled(RunHierarchy(st, trace).1)
    decreases |trace|
  {
    hide Request;
    if !AllFilled(st) {
      ColdIsFilled(st);
    }
    if trace != [] && Request(st, trace[0].addr, trace[0].op).Done? {
      RequestKeepsFilled(st, trace[0].addr, trace[0].op);
      RunKeepsFilled(Request(st, trace[0].addr, trace[0].op).st, trace[1..]);
    }
  }

  lemma {:induction false} ColdIsFilled(st: Storage)
    requires Shaped(st) && Cold(st)
    ensures AllFilled(st)
  {
    match st
    case Memory(_, _, _) =>
    case Cache(l, lower) => ColdIsFilled(lower);
  }
}
