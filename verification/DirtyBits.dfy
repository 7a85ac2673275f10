/** What the dirty bit means: over any run, that the block has been written since it was last fetched. */
module DirtyBits {
  import opened Wrappers
  import opened Bits
  import opened Address
  import opened Hierarchy
  import opened Coherence
  import opened Runs
  import opened Recency
  import opened ReuseDistance
  import opened Timing
  import opened Traffic

  predicate AllUnique(l: Level) { forall i :: 0 <= i < |l.sets| ==> UniqueTags(l.sets[i]) }

  /** The request goes past the level: a write that misses where misses are not allocated. */
  predicate Passes(cfg: Config, ways: seq<Line>, tag: nat, op: Op) {
    op.Write? && !cfg.writeAllocate && FindWay(ways, tag) == |ways|
  }

  /** Whether the line that a request touches is dirty afterwards. */
  predicate Dirties(cfg: Config, ways: seq<Line>, tag: nat, op: Op) {
    if op.Write? then !cfg.writeThrough else FindWay(ways, tag) < |ways| && ways[FindWay(ways, tag)].dirty
  }

  /** The touched line, in the place of the one with the tag or of the victim. */
  predicate TouchedLine(cfg: Config, ways: seq<Line>, ways': seq<Line>, tag: nat, op: Op)
    requires ways != []
  {
    var w := Chosen(ways, tag);
    |ways'| == |ways| && ways' == ways[w := ways'[w]] &&
    ways'[w].valid && ways'[w].tag == tag && ways'[w].dirty == Dirties(cfg, ways, tag, op)
  }

  /** One request ages all lines and touches at most one. */
  lemma RequestTouchesLine(l: Level, lower: Storage, addr: nat, op: Op)
    requires LevelShaped(l) && Shaped(lower) && IsAddress(addr) && Request(Cache(l, lower), addr, op).Done?
    ensures SetIndex(l.cfg.geo, addr) < |l.sets|
    ensures var r, i, tag := Request(Cache(l, lower), addr, op), SetIndex(l.cfg.geo, addr), Tag(l.cfg.geo, addr);
            && r.st.Cache? && r.st.level.cfg == l.cfg && |r.st.level.sets| == |l.sets|
            && (forall j :: 0 <= j < |l.sets| && j != i ==> r.st.level.sets[j] == AgeWays(l.sets[j]))
            && (if Passes(l.cfg, AgeWays(l.sets[i]), tag, op) then r.st.level.sets[i] == AgeWays(l.sets[i])
                else TouchedLine(l.cfg, AgeWays(l.sets[i]), r.st.level.sets[i], tag, op))
  {
    hide Pow2, BitAnd, Offset, SetIndex, Tag, KickAddr, FindWay, Victim;
    SplitRebuilds(l.cfg.geo, addr);
    assert Arrive(l).sets[SetIndex(l.cfg.geo, addr)] == AgeWays(l.sets[SetIndex(l.cfg.geo, addr)]);
  }

  // One block.

  /** The block of address a is in the level, and dirty. */
  predicate DirtyFor(l: Level, a: nat)
    requires LevelShaped(l) && IsAddress(a)
  {
    LineFor(l, a).Some? && LineFor(l, a).value.dirty
  }

  lemma AgeingKeepsUnique(ways: seq<Line>)
    requires UniqueTags(ways)
    ensures UniqueTags(AgeWays(ways))
  {
  }

  /** What a lookup finds after one way has been touched. */
  lemma LookupAfterTouch(cfg: Config, ways: seq<Line>, ways': seq<Line>, tag: nat, op: Op, t: nat)
    requires ways != [] && UniqueTags(ways) && TouchedLine(cfg, ways, ways', tag, op)
    ensures UniqueTags(ways')
    ensures var f, f' := FindWay(ways, t), FindWay(ways', t);
            if t == tag then f' < |ways| && ways'[f'].dirty == Dirties(cfg, ways, tag, op)
            else f' < |ways| ==> f < |ways| && ways'[f'].dirty == ways[f].dirty
  {
    hide FindWay, Victim, Dirties;
    var w := Chosen(ways, tag);
    NobodyElse(ways, tag);
    FindAfterPut(ways, w, ways'[w], t);
  }

  lemma NobodyElse(ways: seq<Line>, tag: nat)
    requires ways != [] && UniqueTags(ways)
    ensures Others(ways, Chosen(ways, tag), tag)
  {
    hide FindWay, Victim;
  }

  /**
   * One request, seen from one block. Its own block is dirty afterwards if the request was a write, or had been
   * dirty; another block stays what it was or goes.
   */
  lemma StepDirty(l: Level, lower: Storage, x: Access, a: nat)
    requires LevelShaped(l) && Shaped(lower) && IsAddress(x.addr) && IsAddress(a) && AllUnique(l)
    requires Request(Cache(l, lower), x.addr, x.op).Done?
    ensures var r := Request(Cache(l, lower), x.addr, x.op);
            && r.st.Cache? && r.st.level.cfg == l.cfg && LevelShaped(r.st.level) && AllUnique(r.st.level)
            && (if SameBlockAs(l.cfg.geo, x, a) then
                  LineFor(r.st.level, a).Some? ==>
                    (DirtyFor(r.st.level, a) <==> if x.op.Write? then !l.cfg.writeThrough else DirtyFor(l, a))
                else
                  LineFor(r.st.level, a).Some? ==>
                    LineFor(l, a).Some? && (DirtyFor(r.st.level, a) <==> DirtyFor(l, a)))
  {
    hide Pow2, BitAnd, SetIndex, Tag, FindWay, Victim, Request, UniqueTags, TouchedLine;
    var g, l' := l.cfg.geo, Request(Cache(l, lower), x.addr, x.op).st.level;
    SplitRebuilds(g, a);
    RequestTouchesLine(l, lower, x.addr, x.op);
    var i, j, tag, t := SetIndex(g, x.addr), SetIndex(g, a), Tag(g, x.addr), Tag(g, a);
    forall m | 0 <= m < |l'.sets| ensures UniqueTags(l'.sets[m]) {
      AgeingKeepsUnique(l.sets[m]);
      if m == i && l'.sets[i] != AgeWays(l.sets[i]) {
        LookupAfterTouch(l.cfg, AgeWays(l.sets[i]), l'.sets[i], tag, x.op, t);
      }
    }
    AgeingKeepsUnique(l.sets[j]);
    FindIgnoresAge(l.sets[j], AgeWays(l.sets[j]), t);
    if j == i && !Passes(l.cfg, AgeWays(l.sets[i]), tag, x.op) {
      LookupAfterTouch(l.cfg, AgeWays(l.sets[i]), l'.sets[i], tag, x.op, t);
    }
  }

  // Runs.

  /** The block of a is in the top level once j requests have been served. */
  predicate ResidentAfter(st: Storage, trace: seq<Access>, j: nat, a: nat)
    requires Shaped(st) && Addressed(trace) && j <= |trace| && IsAddress(a)
  {
    End(st, trace[..j]).Cache? && LineFor(End(st, trace[..j]).level, a).Some?
  }

  /** Request k writes the block of a, which has then stayed: it has not been fetched again since. */
  predicate WrittenAndStayed(st: Storage, trace: seq<Access>, k: nat, a: nat)
    requires st.Cache? && Shaped(st) && Addressed(trace) && IsAddress(a)
  {
    && k < |trace| && SameBlockAs(st.level.cfg.geo, trace[k], a) && trace[k].op.Write?
    && forall j :: k < j <= |trace| ==> ResidentAfter(st, trace, j, a)
  }

  ghost predicate Written(st: Storage, trace: seq<Access>, a: nat)
    requires st.Cache? && Shaped(st) && Addressed(trace) && IsAddress(a)
  {
    exists k: nat :: WrittenAndStayed(st, trace, k, a)
  }

  lemma WrittenIsThere(st: Storage, trace: seq<Access>, a: nat)
    requires st.Cache? && Shaped(st) && Addressed(trace) && IsAddress(a) && Written(st, trace, a)
    ensures End(st, trace).Cache? && LineFor(End(st, trace).level, a).Some?
  {
    hide WrittenAndStayed, End, LineFor, ResidentAfter;
    var k: nat :| WrittenAndStayed(st, trace, k, a);
    WrittenInside(st, trace, k, a);
    AtTheEnd(st, trace, a);
  }

  lemma LastRequest(st: Storage, trace: seq<Access>)
    requires Shaped(st) && Addressed(trace) && Survives(st, trace) && trace != []
    ensures var n := |trace| - 1;
            && Survives(st, trace[..n]) && Request(End(st, trace[..n]), trace[n].addr, trace[n].op).Done?
            && End(st, trace) == Request(End(st, trace[..n]), trace[n].addr, trace[n].op).st
  {
    hide Request, RunHierarchy, Survives, End;
    var n := |trace| - 1;
    assert trace[..n] + [trace[n]] == trace;
    PrefixSurvives(st, trace, n);
    RunSplits(st, trace[..n], [trace[n]]);
    OneSurvives(End(st, trace[..n]), trace[n]);
  }

  lemma OneSurvives(st: Storage, x: Access)
    requires Shaped(st) && IsAddress(x.addr) && Survives(st, [x])
    ensures Request(st, x.addr, x.op).Done? && End(st, [x]) == Request(st, x.addr, x.op).st
  {
    hide Request;
    assert [x][1..] == [];
    if Request(st, x.addr, x.op).Done? {
      OneRequest(st, x.addr, x.op);
    }
  }

  lemma {:induction false} PrefixSurvives(st: Storage, trace: seq<Access>, n: nat)
    requires Shaped(st) && Addressed(trace) && Survives(st, trace) && n <= |trace|
    ensures Survives(st, trace[..n])
    decreases |trace|
  {
    hide Request;
    if n > 0 {
      assert trace[..n][1..] == trace[1..][..n - 1] && trace[..n][0] == trace[0];
      PrefixSurvives(Request(st, trace[0].addr, trace[0].op).st, trace[1..], n - 1);
    }
  }

  lemma ColdIsUnique(l: Level)
    requires LevelShaped(l) && ColdLevel(l)
    ensures AllUnique(l)
    ensures forall a :: IsAddress(a) ==> LineFor(l, a) == None
  {
    hide Pow2, BitAnd, SetIndex, Tag;
    forall a | IsAddress(a) ensures LineFor(l, a) == None {
      SplitRebuilds(l.cfg.geo, a);
    }
  }

  /**
   * After any run from a cold start a resident block of a write-back level is dirty if and only if a request has
   * written it since it was last fetched; a write-through level has no dirty blocks.
   */
  lemma {:induction false} DirtyIffWritten(st: Storage, trace: seq<Access>, a: nat)
    requires st.Cache? && Shaped(st) && ColdLevel(st.level) && Addressed(trace) && Survives(st, trace) && IsAddress(a)
    ensures var end := End(st, trace);
            && end.Cache? && end.level.cfg == st.level.cfg && AllUnique(end.level)
            && (LineFor(end.level, a).Some? ==>
                  (LineFor(end.level, a).value.dirty <==>
                   !st.level.cfg.writeThrough && Written(st, trace, a)))
    decreases |trace|
  {
    hide Pow2, BitAnd, SetIndex, Tag, LineFor, Request, RunHierarchy, Survives, End, AllUnique, ColdLevel,
         SameBlockAs, ResidentAfter, Written;
    if trace == [] {
      NothingSent(st);
      ColdIsUnique(st.level);
    } else {
      var n := |trace| - 1;
      LastRequest(st, trace);
      var before := trace[..n];
      DirtyIffWritten(st, before, a);
      var low := End(st, before);
      StepDirty(low.level, low.lower, trace[n], a);
      if LineFor(End(st, trace).level, a).Some? {
        AtTheEnd(st, trace, a);
        WrittenOneMore(st, trace, a);
        if Written(st, before, a) {
          WrittenIsThere(st, before, a);
        }
      }
    }
  }

  lemma EarlierTimes(st: Storage, trace: seq<Access>, n: nat, a: nat)
    requires Shaped(st) && Addressed(trace) && n <= |trace| && IsAddress(a)
    ensures forall j :: 0 <= j <= n ==> ResidentAfter(st, trace[..n], j, a) == ResidentAfter(st, trace, j, a)
  {
    hide End, LineFor;
    forall j | 0 <= j <= n ensures ResidentAfter(st, trace[..n], j, a) == ResidentAfter(st, trace, j, a) {
      assert trace[..n][..j] == trace[..j];
    }
  }

  lemma WrittenEarlier(st: Storage, trace: seq<Access>, k: nat, a: nat)
    requires st.Cache? && Shaped(st) && Addressed(trace) && IsAddress(a) && k + 1 < |trace|
    requires ResidentAfter(st, trace, |trace|, a)
    ensures WrittenAndStayed(st, trace, k, a) <==> WrittenAndStayed(st, trace[..|trace| - 1], k, a)
  {
    hide SameBlockAs, ResidentAfter;
    var n := |trace| - 1;
    EarlierTimes(st, trace, n, a);
    if WrittenAndStayed(st, trace[..n], k, a) {
      forall j | k < j <= |trace| ensures ResidentAfter(st, trace, j, a) {
        if j <= n {
          assert ResidentAfter(st, trace[..n], j, a);
        }
      }
    }
  }

  lemma WrittenLast(st: Storage, trace: seq<Access>, a: nat)
    requires st.Cache? && Shaped(st) && Addressed(trace) && IsAddress(a) && trace != []
    requires ResidentAfter(st, trace, |trace|, a)
    ensures var n := |trace| - 1;
            WrittenAndStayed(st, trace, n, a) <==> SameBlockAs(st.level.cfg.geo, trace[n], a) && trace[n].op.Write?
  {
    hide SameBlockAs, ResidentAfter;
  }

  /** One more request: a write of the block, or what was so before. */
  lemma WrittenOneMore(st: Storage, trace: seq<Access>, a: nat)
    requires st.Cache? && Shaped(st) && Addressed(trace) && trace != [] && IsAddress(a)
    requires ResidentAfter(st, trace, |trace|, a)
    ensures var n := |trace| - 1;
            Written(st, trace, a) <==>
            (SameBlockAs(st.level.cfg.geo, trace[n], a) && trace[n].op.Write?) || Written(st, trace[..n], a)
  {
    hide SameBlockAs, ResidentAfter, WrittenAndStayed;
    var n := |trace| - 1;
    WrittenLast(st, trace, a);
    if Written(st, trace, a) {
      var k: nat :| WrittenAndStayed(st, trace, k, a);
      WrittenInside(st, trace, k, a);
      if k < n {
        WrittenEarlier(st, trace, k, a);
      }
    }
    if Written(st, trace[..n], a) {
      var k: nat :| WrittenAndStayed(st, trace[..n], k, a);
      WrittenInside(st, trace[..n], k, a);
      WrittenEarlier(st, trace, k, a);
    }
  }

  lemma WrittenInside(st: Storage, trace: seq<Access>, k: nat, a: nat)
    requires st.Cache? && Shaped(st) && Addressed(trace) && IsAddress(a) && WrittenAndStayed(st, trace, k, a)
    ensures k < |trace| && ResidentAfter(st, trace, |trace|, a)
  {
    hide SameBlockAs, ResidentAfter;
  }

  lemma AtTheEnd(st: Storage, trace: seq<Access>, a: nat)
    requires Shaped(st) && Addressed(trace) && IsAddress(a)
    ensures ResidentAfter(st, trace, |trace|, a) <==>
            End(st, trace).Cache? && LineFor(End(st, trace).level, a).Some?
  {
    hide End, LineFor;
    assert trace[..|trace|] == trace;
  }

  // Reads only.

  predicate NoneDirty(l: Level) {
    forall i, w :: 0 <= i < |l.sets| && 0 <= w < |l.sets[i]| && l.sets[i][w].valid ==> !l.sets[i][w].dirty
  }

  predicate ReadsOnly(trace: seq<Access>) { forall k :: 0 <= k < |trace| ==> trace[k].op.Read? }

  lemma NothingToWriteBack(l: Level, addr: nat)
    requires LevelShaped(l) && IsAddress(addr) && NoneDirty(l)
    ensures Evicted(l, addr) == 0
  {
    hide Pow2, BitAnd, SetIndex, Tag, FindWay, Victim, Missed;
    SplitRebuilds(l.cfg.geo, addr);
  }

  lemma ReadKeepsClean(l: Level, lower: Storage, x: Access)
    requires LevelShaped(l) && Shaped(lower) && IsAddress(x.addr) && NoneDirty(l) && x.op.Read?
    requires Request(Cache(l, lower), x.addr, x.op).Done?
    ensures var r := Request(Cache(l, lower), x.addr, x.op); r.st.Cache? && NoneDirty(r.st.level)
  {
    hide Pow2, BitAnd, SetIndex, Tag, FindWay, Victim, Request;
    RequestTouchesLine(l, lower, x.addr, x.op);
    var l' := Request(Cache(l, lower), x.addr, x.op).st.level;
    forall i, w | 0 <= i < |l'.sets| && 0 <= w < |l'.sets[i]| && l'.sets[i][w].valid ensures !l'.sets[i][w].dirty {
      assert |l'.sets[i]| == |l.sets[i]|;
    }
  }

  /** A run of reads never writes a block back: below, there is one access for each miss. */
  lemma {:induction false} ReadsNeverWriteBack(st: Storage, trace: seq<Access>)
    requires st.Cache? && Shaped(st) && WriteBackAllocating(st.level.cfg) && NoneDirty(st.level)
    requires Addressed(trace) && ReadsOnly(trace)
    ensures var end := End(st, trace);
            && Evictions(st, trace) == 0 && end.Cache? && NoneDirty(end.level)
            && ReadsOnly(SentOver(st, trace)) && |SentOver(st, trace)| == Misses(end) - Misses(st)
    decreases |trace|
  {
    hide Request, Evicted, Sent, LevelShaped, NoneDirty, RunHierarchy, End, SentOver;
    BelowRuns(st, trace);
    ReadsStayClean(st, trace);
  }

  lemma {:induction false} ReadsStayClean(st: Storage, trace: seq<Access>)
    requires st.Cache? && Shaped(st) && WriteBackAllocating(st.level.cfg) && NoneDirty(st.level)
    requires Addressed(trace) && ReadsOnly(trace)
    ensures var end := End(st, trace);
            Evictions(st, trace) == 0 && end.Cache? && NoneDirty(end.level) && ReadsOnly(SentOver(st, trace))
    decreases |trace|
  {
    hide Request, Evicted, Sent, LevelShaped, NoneDirty;
    if trace != [] && Request(st, trace[0].addr, trace[0].op).Done? {
      var st' := Request(st, trace[0].addr, trace[0].op).st;
      OneAccess(st, trace[0].addr, trace[0].op);
      ReadKeepsClean(st.level, st.lower, trace[0]);
      NothingToWriteBack(st.level, trace[0].addr);
      FetchesAreReads(st.level, trace[0].addr);
      ReadsStayClean(st', trace[1..]);
    }
  }

  lemma FetchesAreReads(l: Level, addr: nat)
    requires LevelShaped(l) && IsAddress(addr) && Evicted(l, addr) == 0
    ensures ReadsOnly(Sent(l, addr))
  {
    hide Pow2, BitAnd, Offset, SetIndex, Tag, KickAddr, FindWay, Victim;
    SplitRebuilds(l.cfg.geo, addr);
    assert Arrive(l).sets[SetIndex(l.cfg.geo, addr)] == AgeWays(l.sets[SetIndex(l.cfg.geo, addr)]);
  }
}
