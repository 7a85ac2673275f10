/** Reuse distance and stack inclusion for the write-allocate cache at the top of a hierarchy. */
module ReuseDistance {
  import opened Bits
  import opened Address
  import opened Hierarchy
  import opened Coherence
  import opened Runs
  import opened Recency
  import opened Timing

  predicate AllTrack(l: Level, past: seq<Access>)
    requires l.cfg.Valid()
  {
    forall i :: 0 <= i < |l.sets| ==> Tracks(l.sets[i], Recent(l.cfg.geo, i, past))
  }

  /** One request ages every set and touches one way of its own set. */
  lemma RequestTouches(l: Level, lower: Storage, addr: nat, op: Op)
    requires LevelShaped(l) && Shaped(lower) && IsAddress(addr) && l.cfg.writeAllocate
    requires Request(Cache(l, lower), addr, op).Done?
    ensures var r, i, tag := Request(Cache(l, lower), addr, op), SetIndex(l.cfg.geo, addr), Tag(l.cfg.geo, addr);
            r.st.Cache? && r.st.level.cfg == l.cfg && i < |l.sets| && |r.st.level.sets| == |l.sets| &&
            (forall j :: 0 <= j < |l.sets| && j != i ==> r.st.level.sets[j] == AgeWays(l.sets[j])) &&
            TouchedAt(AgeWays(l.sets[i]), r.st.level.sets[i], Chosen(AgeWays(l.sets[i]), tag), tag)
  {
    hide Pow2, BitAnd, Offset, SetIndex, Tag, KickAddr, FindWay, Victim, PassThrough;
    SplitRebuilds(l.cfg.geo, addr);
    assert Arrive(l).sets[SetIndex(l.cfg.geo, addr)] == AgeWays(l.sets[SetIndex(l.cfg.geo, addr)]);
  }

  lemma RecentSnoc(g: Geometry, i: nat, past: seq<Access>, x: Access)
    requires g.Valid()
    ensures Recent(g, i, past + [x]) ==
            if SetIndex(g, x.addr) == i then ToFront(Older(Recent(g, i, past)), Tag(g, x.addr))
            else Older(Recent(g, i, past))
  {
    hide ToFront, SetIndex, Tag;
    assert (past + [x])[..|past|] == past;
  }

  lemma TouchTracks(ways: seq<Line>, ways': seq<Line>, l: seq<Entry>, tag: nat)
    requires ways != [] && Tracks(ways, l) && TouchedAt(AgeWays(ways), ways', Chosen(AgeWays(ways), tag), tag)
    ensures Tracks(ways', ToFront(Older(l), tag))
  {
    hide ToFront, FindWay, Victim, Tracks, TouchedAt;
    AgeingTracks(ways, l);
    if FindWay(AgeWays(ways), tag) < |ways| {
      HitTracks(AgeWays(ways), ways', Older(l), tag);
    } else {
      MissTracks(AgeWays(ways), ways', Older(l), tag);
    }
  }

  lemma StepTracks(l: Level, lower: Storage, past: seq<Access>, x: Access)
    requires LevelShaped(l) && Shaped(lower) && IsAddress(x.addr) && l.cfg.writeAllocate && AllTrack(l, past)
    requires Request(Cache(l, lower), x.addr, x.op).Done?
    ensures var r := Request(Cache(l, lower), x.addr, x.op);
            r.st.Cache? && r.st.level.cfg == l.cfg && AllTrack(r.st.level, past + [x])
  {
    hide Pow2, BitAnd, SetIndex, Tag, Request, Recent, Tracks, ToFront, TouchedAt, Chosen;
    var g, l' := l.cfg.geo, Request(Cache(l, lower), x.addr, x.op).st.level;
    RequestTouches(l, lower, x.addr, x.op);
    forall j | 0 <= j < |l'.sets| ensures Tracks(l'.sets[j], Recent(g, j, past + [x])) {
      assert Tracks(l.sets[j], Recent(g, j, past));
      RecentSnoc(g, j, past, x);
      if j == SetIndex(g, x.addr) {
        TouchTracks(l.sets[j], l'.sets[j], Recent(g, j, past), Tag(g, x.addr));
      } else {
        AgeingTracks(l.sets[j], Recent(g, j, past));
      }
    }
  }

  predicate Unfaulted(st: Storage, trace: seq<Access>)
    requires Shaped(st)
  {
    (forall k :: 0 <= k < |trace| ==> IsAddress(trace[k].addr)) && !RunHierarchy(st, trace).0.faulted
  }

  lemma {:induction false} RunTracks(st: Storage, past: seq<Access>, trace: seq<Access>)
    requires st.Cache? && Shaped(st) && st.level.cfg.writeAllocate && AllTrack(st.level, past)
    requires Unfaulted(st, trace)
    ensures var end := RunHierarchy(st, trace).1;
            end.Cache? && end.level.cfg == st.level.cfg && AllTrack(end.level, past + trace)
    decreases |trace|
  {
    hide Request, AllTrack;
    if trace == [] {
      assert past + trace == past;
    } else {
      var x := trace[0];
      StepTracks(st.level, st.lower, past, x);
      var st' := Request(st, x.addr, x.op).st;
      UnfaultedTail(st, trace);
      RunTracks(st', past + [x], trace[1..]);
      assert past + [x] + trace[1..] == past + trace;
    }
  }

  lemma UnfaultedTail(st: Storage, trace: seq<Access>)
    requires Shaped(st) && Unfaulted(st, trace) && trace != []
    ensures Request(st, trace[0].addr, trace[0].op).Done?
    ensures Unfaulted(Request(st, trace[0].addr, trace[0].op).st, trace[1..])
    ensures RunHierarchy(st, trace).1 == RunHierarchy(Request(st, trace[0].addr, trace[0].op).st, trace[1..]).1
  {
    hide Request;
  }

  lemma ColdTracks(l: Level)
    requires LevelShaped(l) && ColdLevel(l)
    ensures AllTrack(l, [])
  {
    hide Pow2, BitAnd;
  }

  // What the list of recent blocks means.

  predicate InSet(g: Geometry, i: nat, x: Access)
    requires g.Valid()
  {
    SetIndex(g, x.addr) == i
  }

  /** The distinct blocks of set i a request sequence touches. */
  function TagsOf(g: Geometry, i: nat, trace: seq<Access>): set<nat>
    requires g.Valid()
  {
    set k | 0 <= k < |trace| && InSet(g, i, trace[k]) :: Tag(g, trace[k].addr)
  }

  function FirstTags(l: seq<Entry>, p: nat): set<nat>
    requires p <= |l|
  {
    set q | 0 <= q < p :: l[q].tag
  }

  lemma TagsOfSnoc(g: Geometry, i: nat, trace: seq<Access>, x: Access)
    requires g.Valid()
    ensures TagsOf(g, i, trace + [x]) == TagsOf(g, i, trace) + if InSet(g, i, x) then {Tag(g, x.addr)} else {}
  {
    hide SetIndex, Tag;
    var t := trace + [x];
    forall k | 0 <= k < |trace| && InSet(g, i, trace[k]) ensures Tag(g, trace[k].addr) in TagsOf(g, i, t) {
      assert t[k] == trace[k];
    }
    assert t[|trace|] == x;
    forall tag | tag in TagsOf(g, i, t) ensures tag in TagsOf(g, i, trace) + if InSet(g, i, x) then {Tag(g,
      x.addr)} else {} {
      var k :| 0 <= k < |t| && InSet(g, i, t[k]) && Tag(g, t[k].addr) == tag;
      if k < |trace| {
        assert t[k] == trace[k];
      }
    }
  }

  /** Entry p was last touched `age` requests ago, and p distinct blocks of its set were touched since. */
  predicate Meaning(g: Geometry, i: nat, past: seq<Access>, l: seq<Entry>, p: nat)
    requires g.Valid() && p < |l|
  {
    l[p].age < |past| &&
    var k := |past| - 1 - l[p].age;
    InSet(g, i, past[k]) && Tag(g, past[k].addr) == l[p].tag && TagsOf(g, i, past[k + 1..]) == FirstTags(l, p)
  }

  lemma {:induction false} RecentMeaning(g: Geometry, i: nat, past: seq<Access>)
    requires g.Valid()
    ensures var l := Recent(g, i, past);
            Ordered(l) && TagsOf(g, i, past) == FirstTags(l, |l|) && forall p :: 0 <= p < |l| ==>
              Meaning(g, i, past, l, p)
    decreases |past|
  {
    hide SetIndex, Tag, ToFront, Meaning, Ordered, TagsOf, FirstTags;
    if past == [] {
      NothingTouched(g, i);
    } else {
      var n := |past| - 1;
      var before, x := past[..n], past[n];
      assert past == before + [x];
      RecentMeaning(g, i, before);
      var l := Recent(g, i, before);
      TagsOfSnoc(g, i, before, x);
      OlderMeaning(g, i, before, x, l);
      if InSet(g, i, x) {
        FrontMeaning(g, i, before, x, l);
      }
    }
  }

  lemma NothingTouched(g: Geometry, i: nat)
    requires g.Valid()
    ensures TagsOf(g, i, []) == FirstTags([], 0) && Ordered([])
  {
  }

  lemma OlderMeaning(g: Geometry, i: nat, past: seq<Access>, x: Access, l: seq<Entry>)
    requires g.Valid() && Ordered(l) && forall p :: 0 <= p < |l| ==> Meaning(g, i, past, l, p)
    ensures Ordered(Older(l)) && Aged(Older(l)) && FirstTags(Older(l), |l|) == FirstTags(l, |l|)
    ensures !InSet(g, i, x) ==> forall p :: 0 <= p < |l| ==> Meaning(g, i, past + [x], Older(l), p)
  {
    hide SetIndex, Tag, TagsOf;
    assert FirstTags(Older(l), |l|) == FirstTags(l, |l|) by { OlderTags(l, |l|); }
    if !InSet(g, i, x) {
      forall p | 0 <= p < |l| ensures Meaning(g, i, past + [x], Older(l), p) {
        assert Meaning(g, i, past, l, p);
        var k := |past| - 1 - l[p].age;
        assert (past + [x])[k + 1..] == past[k + 1..] + [x];
        TagsOfSnoc(g, i, past[k + 1..], x);
        OlderTags(l, p);
      }
    }
  }

  lemma OlderTags(l: seq<Entry>, p: nat)
    requires p <= |l|
    ensures FirstTags(Older(l), p) == FirstTags(l, p)
  {
    assert forall q :: 0 <= q < p ==> Older(l)[q].tag == l[q].tag;
  }

  lemma FrontMeaning(g: Geometry, i: nat, past: seq<Access>, x: Access, l: seq<Entry>)
    requires g.Valid() && Ordered(l) && InSet(g, i, x) && forall p :: 0 <= p < |l| ==> Meaning(g, i, past, l, p)
    requires TagsOf(g, i, past) == FirstTags(l, |l|)
    ensures var l' := ToFront(Older(l), Tag(g, x.addr));
            Ordered(l') && TagsOf(g, i, past + [x]) == FirstTags(l', |l'|) &&
            forall p :: 0 <= p < |l'| ==> Meaning(g, i, past + [x], l', p)
  {
    hide SetIndex, Tag, TagsOf, ToFront, IndexOf, FirstTags;
    var tag := Tag(g, x.addr);
    var l', n := ToFront(Older(l), tag), IndexOf(Older(l), tag);
    OlderMeaning(g, i, past, x, l);
    FrontIsOrdered(Older(l), tag);
    FrontEntries(Older(l), tag);
    TagsOfSnoc(g, i, past, x);
    FrontTags(l, tag, |l'|);
    forall p | 0 <= p < |l'| ensures Meaning(g, i, past + [x], l', p) {
      if p == 0 {
        assert (past + [x])[|past| + 1..] == [];
        NothingTouched(g, i);
        NoTags(l');
      } else {
        FrontEntryMeaning(g, i, past, x, l, p);
      }
    }
  }

  lemma NoTags(l: seq<Entry>)
    ensures FirstTags(l, 0) == FirstTags([], 0)
  {
  }

  lemma FrontEntryMeaning(g: Geometry, i: nat, past: seq<Access>, x: Access, l: seq<Entry>, p: nat)
    requires g.Valid() && Ordered(l) && InSet(g, i, x) && forall p :: 0 <= p < |l| ==> Meaning(g, i, past, l, p)
    requires 0 < p < |ToFront(Older(l), Tag(g, x.addr))|
    ensures Meaning(g, i, past + [x], ToFront(Older(l), Tag(g, x.addr)), p)
  {
    hide SetIndex, Tag, TagsOf, ToFront, IndexOf, FirstTags;
    var tag := Tag(g, x.addr);
    var l', n := ToFront(Older(l), tag), IndexOf(Older(l), tag);
    FrontEntries(Older(l), tag);
    var s := Source(n, p);
    assert l'[p] == Older(l)[s];
    assert Meaning(g, i, past, l, s);
    var k := |past| - 1 - l[s].age;
    assert (past + [x])[k + 1..] == past[k + 1..] + [x];
    TagsOfSnoc(g, i, past[k + 1..], x);
    FrontTags(l, tag, p);
  }

  /** The first p blocks after moving a block to the front: that block, and the ones that were ahead. */
  lemma FrontTags(l: seq<Entry>, tag: nat, p: nat)
    requires 0 < p <= |ToFront(Older(l), tag)|
    ensures var n := IndexOf(Older(l), tag);
            FirstTags(ToFront(Older(l), tag), p) == FirstTags(l, Min(Source(n, p), |l|)) + {tag}
  {
    hide ToFront, IndexOf;
    var l', n := ToFront(Older(l), tag), IndexOf(Older(l), tag);
    FrontEntries(Older(l), tag);
    var s := Min(Source(n, p), |l|);
    forall t | t in FirstTags(l', p) ensures t in FirstTags(l, s) + {tag} {
      var q :| 0 <= q < p && l'[q].tag == t;
      if q > 0 {
        assert l'[q] == Older(l)[Source(n, q)];
        assert l[Source(n, q)].tag == t && Source(n, q) < s;
      }
    }
    forall t | t in FirstTags(l, s) + {tag} ensures t in FirstTags(l', p) {
      if t == tag {
        assert l'[0].tag == t;
      } else {
        var q :| 0 <= q < s && l[q].tag == t;
        assert Older(l)[q].tag == t;
        var q' := if q < n then q + 1 else q;
        assert Source(n, q') == q;
        assert l'[q'].tag == t;
      }
    }
  }

  // Residency.

  predicate SameBlockAs(g: Geometry, x: Access, a: nat)
    requires g.Valid()
  {
    SetIndex(g, x.addr) == SetIndex(g, a) && Tag(g, x.addr) == Tag(g, a)
  }

  /** Request k is the last one to the block of address a. */
  predicate LastUse(g: Geometry, trace: seq<Access>, k: nat, a: nat)
    requires g.Valid()
  {
    k < |trace| && SameBlockAs(g, trace[k], a) && forall m :: k < m < |trace| ==> !SameBlockAs(g, trace[m], a)
  }

  /** The number of distinct blocks of a's set touched from request k on. */
  function Distance(g: Geometry, trace: seq<Access>, k: nat, a: nat): nat
    requires g.Valid() && k <= |trace|
  {
    |TagsOf(g, SetIndex(g, a), trace[k..])|
  }

  predicate RecentlyUsed(g: Geometry, trace: seq<Access>, a: nat, ways: nat)
    requires g.Valid()
  {
    exists k :: 0 <= k < |trace| && LastUse(g, trace, k, a) && Distance(g, trace, k + 1, a) < ways
  }

  lemma {:induction false} FirstTagsSize(l: seq<Entry>, p: nat)
    requires Ordered(l) && p <= |l|
    ensures |FirstTags(l, p)| == p
  {
    if p == 0 {
    } else {
      FirstTagsSize(l, p - 1);
      assert l[p - 1].tag !in FirstTags(l, p - 1);
      assert FirstTags(l, p) == FirstTags(l, p - 1) + {l[p - 1].tag};
    }
  }

  /** An entry of the list is the last use of its block, at its position's distance. */
  lemma EntryIsLastUse(g: Geometry, trace: seq<Access>, a: nat, p: nat)
    requires g.Valid() && p < |Recent(g, SetIndex(g, a), trace)|
    requires Recent(g, SetIndex(g, a), trace)[p].tag == Tag(g, a)
    ensures var e := Recent(g, SetIndex(g, a), trace)[p];
            e.age < |trace| && LastUse(g, trace, |trace| - 1 - e.age, a) && Distance(g, trace, |trace| - e.age, a) == p
  {
    hide SetIndex, Tag, Recent, TagsOf;
    var i := SetIndex(g, a);
    var l := Recent(g, i, trace);
    RecentMeaning(g, i, trace);
    assert Meaning(g, i, trace, l, p);
    FirstTagsSize(l, p);
    assert l[p].tag !in FirstTags(l, p);
    var k := |trace| - 1 - l[p].age;
    forall m | k < m < |trace| ensures !SameBlockAs(g, trace[m], a) {
      if SameBlockAs(g, trace[m], a) {
        TouchedTag(g, i, trace, k + 1, m);
      }
    }
  }

  lemma TouchedTag(g: Geometry, i: nat, trace: seq<Access>, from: nat, m: nat)
    requires g.Valid() && from <= m < |trace| && InSet(g, i, trace[m])
    ensures Tag(g, trace[m].addr) in TagsOf(g, i, trace[from..])
  {
    hide SetIndex, Tag;
    assert trace[from..][m - from] == trace[m];
  }

  lemma TouchedBlockHasEntry(g: Geometry, trace: seq<Access>, a: nat, k: nat)
    requires g.Valid() && k < |trace| && SameBlockAs(g, trace[k], a)
    ensures var l := Recent(g, SetIndex(g, a), trace); IndexOf(l, Tag(g, a)) < |l|
  {
    hide SetIndex, Tag, Recent, TagsOf, IndexOf;
    var i := SetIndex(g, a);
    RecentMeaning(g, i, trace);
    assert trace[0..] == trace;
    TouchedTag(g, i, trace, 0, k);
    var l := Recent(g, i, trace);
    var q :| 0 <= q < |l| && l[q].tag == Tag(g, a);
  }

  lemma ResidentIsEarly(l: Level, trace: seq<Access>, a: nat)
    requires LevelShaped(l) && IsAddress(a) && AllTrack(l, trace)
    ensures var list := Recent(l.cfg.geo, SetIndex(l.cfg.geo, a), trace);
            var n := IndexOf(list, Tag(l.cfg.geo, a));
            LineFor(l, a).Some? <==> n < |list| && n < l.cfg.ways
    ensures var list := Recent(l.cfg.geo, SetIndex(l.cfg.geo, a), trace);
            var n := IndexOf(list, Tag(l.cfg.geo, a));
            LineFor(l, a).Some? ==> LineFor(l, a).value.age == list[n].age
  {
    hide Pow2, BitAnd, SetIndex, Tag, Recent, FindWay, Held, Listed, IndexOf, Ordered, UniqueTags;
    var g := l.cfg.geo;
    SplitRebuilds(g, a);
    var i, tag := SetIndex(g, a), Tag(g, a);
    var list, w := Recent(g, i, trace), FindWay(l.sets[i], tag);
    assert Tracks(l.sets[i], list);
    OthersInList(list, tag);
    if w < |l.sets[i]| {
      var p := ListedWitness(list, |l.sets[i]|, l.sets[i][w]);
    } else {
      AbsentIsUnlisted(l.sets[i], list, tag);
    }
  }

  lemma LastUseIsUnique(g: Geometry, trace: seq<Access>, a: nat, k: nat, m: nat)
    requires g.Valid() && LastUse(g, trace, k, a) && LastUse(g, trace, m, a)
    ensures k == m
  {
  }

  /**
   * Reuse distance: after any write-allocate run from a cold cache, a block is resident exactly when
   * fewer than `associativity` distinct blocks of its set were touched since its last use.
   */
  lemma ResidentIffRecentlyUsed(st: Storage, trace: seq<Access>, a: nat)
    requires st.Cache? && Shaped(st) && st.level.cfg.writeAllocate && ColdLevel(st.level)
    requires Unfaulted(st, trace) && IsAddress(a)
    ensures var end := RunHierarchy(st, trace).1; var cfg := st.level.cfg;
            end.Cache? && end.level.cfg == cfg &&
            (LineFor(end.level, a).Some? <==> RecentlyUsed(cfg.geo, trace, a, cfg.ways)) &&
            (forall k :: LastUse(cfg.geo, trace, k, a) && LineFor(end.level, a).Some? ==>
               LineFor(end.level, a).value.age == |trace| - 1 - k)
  {
    hide Pow2, BitAnd, SetIndex, Tag, Recent, IndexOf, LineFor, AllTrack, Distance, LastUse, RunHierarchy, ColdLevel;
    ColdTracks(st.level);
    RunTracks(st, [], trace);
    assert [] + trace == trace;
    var end, g := RunHierarchy(st, trace).1, st.level.cfg.geo;
    ResidentIsEarly(end.level, trace, a);
    UsedIffEarly(g, trace, a, st.level.cfg.ways);
    forall k | LastUse(g, trace, k, a) && LineFor(end.level, a).Some?
      ensures LineFor(end.level, a).value.age == |trace| - 1 - k
    {
      var n := IndexOf(Recent(g, SetIndex(g, a), trace), Tag(g, a));
      EntryIsLastUse(g, trace, a, n);
      LastUseIsUnique(g, trace, a, k, |trace| - 1 - Recent(g, SetIndex(g, a), trace)[n].age);
    }
  }

  lemma UsedIffEarly(g: Geometry, trace: seq<Access>, a: nat, ways: nat)
    requires g.Valid()
    ensures var list := Recent(g, SetIndex(g, a), trace);
            var n := IndexOf(list, Tag(g, a));
            RecentlyUsed(g, trace, a, ways) <==> n < |list| && n < ways
  {
    hide SetIndex, Tag, Recent, IndexOf, Distance, LastUse;
    var list := Recent(g, SetIndex(g, a), trace);
    var n := IndexOf(list, Tag(g, a));
    if n < |list| {
      EntryIsLastUse(g, trace, a, n);
    }
    if RecentlyUsed(g, trace, a, ways) {
      var k :| 0 <= k < |trace| && LastUse(g, trace, k, a) && Distance(g, trace, k + 1, a) < ways;
      LastUseTouches(g, trace, k, a);
      TouchedBlockHasEntry(g, trace, a, k);
      LastUseIsUnique(g, trace, a, k, |trace| - 1 - list[n].age);
    }
  }

  lemma LastUseTouches(g: Geometry, trace: seq<Access>, k: nat, a: nat)
    requires g.Valid() && LastUse(g, trace, k, a)
    ensures k < |trace| && SameBlockAs(g, trace[k], a)
  {
  }

  predicate SameButWays(st: Storage, big: Storage)
    requires st.Cache? && big.Cache?
  {
    st.level.cfg.geo == big.level.cfg.geo && st.level.cfg.ways <= big.level.cfg.ways &&
    st.level.cfg.writeAllocate && big.level.cfg.writeAllocate
  }

  /** Stack inclusion: what the cache with fewer ways holds, the one with more ways holds too. */
  lemma StackInclusion(st: Storage, big: Storage, trace: seq<Access>, a: nat)
    requires st.Cache? && big.Cache? && Shaped(st) && Shaped(big) && SameButWays(st, big)
    requires ColdLevel(st.level) && ColdLevel(big.level)
    requires Unfaulted(st, trace) && Unfaulted(big, trace) && IsAddress(a)
    ensures var end, end' := RunHierarchy(st, trace).1, RunHierarchy(big, trace).1;
            end.Cache? && end'.Cache? && (LineFor(end.level, a).Some? ==> LineFor(end'.level, a).Some?)
  {
    hide Pow2, BitAnd, SetIndex, Tag, LineFor, Distance, LastUse, RunHierarchy, Unfaulted, ColdLevel;
    ResidentIffRecentlyUsed(st, trace, a);
    ResidentIffRecentlyUsed(big, trace, a);
  }

  /** More ways never miss more: the miss counters of a common run compare the same way. */
  lemma {:induction false} MoreWaysMissLess(st: Storage, big: Storage, past: seq<Access>, trace: seq<Access>)
    requires st.Cache? && big.Cache? && Shaped(st) && Shaped(big) && SameButWays(st, big)
    requires AllTrack(st.level, past) && AllTrack(big.level, past)
    requires Unfaulted(st, trace) && Unfaulted(big, trace)
    ensures var end, end' := RunHierarchy(st, trace).1, RunHierarchy(big, trace).1;
            end.Cache? && end'.Cache? &&
            end'.level.stats.misses - big.level.stats.misses <= end.level.stats.misses - st.level.stats.misses
    decreases |trace|
  {
    hide Pow2, BitAnd, SetIndex, Tag, Request, AllTrack, Missed;
    if trace == [] {
    } else {
      var x := trace[0];
      UnfaultedTail(st, trace);
      UnfaultedTail(big, trace);
      StepTracks(st.level, st.lower, past, x);
      StepTracks(big.level, big.lower, past, x);
      CountersStep(st.level, st.lower, x.addr, x.op);
      CountersStep(big.level, big.lower, x.addr, x.op);
      MissedTogether(st.level, big.level, past, x.addr);
      MoreWaysMissLess(Request(st, x.addr, x.op).st, Request(big, x.addr, x.op).st, past + [x], trace[1..]);
    }
  }

  lemma MissedTogether(l: Level, big: Level, past: seq<Access>, addr: nat)
    requires LevelShaped(l) && LevelShaped(big) && l.cfg.geo == big.cfg.geo && l.cfg.ways <= big.cfg.ways
    requires AllTrack(l, past) && AllTrack(big, past) && IsAddress(addr)
    ensures Missed(big, addr) <= Missed(l, addr)
  {
    hide Pow2, BitAnd, SetIndex, Tag, AllTrack, Missed, Recent, IndexOf, LineFor;
    ResidentIsEarly(l, past, addr);
    ResidentIsEarly(big, past, addr);
    MissedMeansAbsent(l, addr);
    MissedMeansAbsent(big, addr);
  }

  lemma MissedMeansAbsent(l: Level, addr: nat)
    requires LevelShaped(l) && IsAddress(addr)
    ensures Missed(l, addr) == if LineFor(l, addr).Some? then 0 else 1
  {
    hide Pow2, BitAnd, SetIndex, Tag, FindWay;
    SplitRebuilds(l.cfg.geo, addr);
    var ways := l.sets[SetIndex(l.cfg.geo, addr)];
    FindIgnoresAge(ways, AgeWays(ways), Tag(l.cfg.geo, addr));
  }
}
