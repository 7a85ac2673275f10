/** What a program sees through the hierarchy, and the invariant that keeps a single level honest. */
module Coherence {
  import opened Wrappers
  import opened Bits
  import opened Address
  import opened Hierarchy

  /** The valid line of a level that holds address a, if any. */
  function LineFor(l: Level, a: nat): (r: Option<Line>)
    requires LevelShaped(l) && IsAddress(a)
    ensures r.Some? ==> |r.value.data| == l.cfg.geo.BlockSize()
  {
    SplitRebuilds(l.cfg.geo, a);
    var ways := l.sets[SetIndex(l.cfg.geo, a)];
    var w := FindWay(ways, Tag(l.cfg.geo, a));
    if w < |ways| then Some(ways[w]) else None
  }

  /** The byte at address a, given the byte the levels below would return. */
  function Peek(l: Level, a: nat, below: byte): byte
    requires LevelShaped(l) && IsAddress(a)
  {
    SplitRebuilds(l.cfg.geo, a);
    match LineFor(l, a)
    case Some(line) => line.data[Offset(l.cfg.geo, a)]
    case None => below
  }

  predicate Addresses(v: map<nat, byte>) { forall a :: a in v ==> IsAddress(a) }

  function Over(l: Level, v: map<nat, byte>): (r: map<nat, byte>)
    requires LevelShaped(l) && Addresses(v)
    ensures r.Keys == v.Keys
  {
    map a | a in v :: Peek(l, a, v[a])
  }

  /** The flat memory that results from an access. */
  function After(v: map<nat, byte>, addr: nat, op: Op): (r: map<nat, byte>)
    ensures r.Keys == v.Keys
  {
    match op
    case Read(_) => v
    case Write(content) => map a | a in v :: if addr <= a < addr + |content| then content[a - addr] else v[a]
  }

  predicate Covers(v: map<nat, byte>, addr: nat, count: nat) {
    forall a :: addr <= a < addr + count ==> a in v
  }

  function Slice(v: map<nat, byte>, addr: nat, count: nat): (r: seq<byte>)
    requires Covers(v, addr, count)
    ensures |r| == count && forall k :: 0 <= k < count ==> r[k] == v[addr + k]
  {
    seq(count, k requires 0 <= k < count => v[addr + k])
  }

  predicate UniqueTags(ways: seq<Line>) {
    forall j, k :: 0 <= j < k < |ways| && ways[j].valid && ways[k].valid ==> ways[j].tag != ways[k].tag
  }

  /** The line's tag fits, its block is allocated below, and a write-through level never holds it dirty. */
  predicate Backed(l: Level, v: map<nat, byte>, i: nat, line: Line)
    requires l.cfg.Valid()
  {
    line.valid ==>
      line.tag < Pow2(l.cfg.geo.TagBits()) && KickAddr(l.cfg.geo, line.tag, i) in v &&
      (l.cfg.writeThrough ==> !line.dirty)
  }

  /** A clean line agrees with the levels below it. */
  predicate CleanAt(l: Level, v: map<nat, byte>, a: nat)
    requires LevelShaped(l) && Addresses(v)
  {
    a in v && LineFor(l, a).Some? && !LineFor(l, a).value.dirty ==> Peek(l, a, v[a]) == v[a]
  }

  predicate Tidy(l: Level, v: map<nat, byte>)
    requires LevelShaped(l)
  {
    forall i :: 0 <= i < |l.sets| ==>
      UniqueTags(l.sets[i]) && forall w :: 0 <= w < |l.sets[i]| ==> Backed(l, v, i, l.sets[i][w])
  }

  predicate Coheres(l: Level, v: map<nat, byte>) {
    LevelShaped(l) && Addresses(v) && Tidy(l, v) && forall a :: a in v ==> CleanAt(l, v, a)
  }

  predicate Others(ways: seq<Line>, w: nat, tag: nat) {
    forall j :: 0 <= j < |ways| && j != w ==> !Matches(ways[j], tag)
  }

  lemma FindAfterPut(ways: seq<Line>, w: nat, line: Line, t: nat)
    requires w < |ways| && UniqueTags(ways) && line.valid && Others(ways, w, line.tag)
    ensures UniqueTags(ways[w := line])
    ensures FindWay(ways[w := line], t) ==
            if t == line.tag then w else if Matches(ways[w], t) then |ways| else FindWay(ways, t)
  {
    var ways' := ways[w := line];
    var f, f' := FindWay(ways, t), FindWay(ways', t);
    if t == line.tag {
      assert Matches(ways'[w], t);
    } else if Matches(ways[w], t) {
      assert forall j :: 0 <= j < |ways| ==> !Matches(ways'[j], t);
    } else {
      assert f < |ways| ==> Matches(ways'[f], t);
      assert f' < |ways| ==> Matches(ways[f'], t);
    }
  }

  /** Replacing one way changes the lookup of the installed block and of the displaced one only. */
  lemma LineForAfterPut(l: Level, i: nat, w: nat, line: Line, a: nat)
    requires LevelShaped(l) && IsAddress(a) && i < |l.sets| && w < |l.sets[i]|
    requires UniqueTags(l.sets[i]) && Others(l.sets[i], w, line.tag)
    requires line.valid && |line.data| == l.cfg.geo.BlockSize()
    ensures var g := l.cfg.geo;
            LineFor(Put(l, i, w, line), a) ==
            if SetIndex(g, a) != i then LineFor(l, a)
            else if Tag(g, a) == line.tag then Some(line)
            else if Matches(l.sets[i][w], Tag(g, a)) then None else LineFor(l, a)
  {
    hide Pow2, BitAnd, Offset, SetIndex, Tag, FindWay;
    SplitRebuilds(l.cfg.geo, a);
    FindAfterPut(l.sets[i], w, line, Tag(l.cfg.geo, a));
  }

  lemma TidyAfterPut(l: Level, v: map<nat, byte>, i: nat, w: nat, line: Line)
    requires LevelShaped(l) && Tidy(l, v) && i < |l.sets| && w < |l.sets[i]|
    requires line.valid && Others(l.sets[i], w, line.tag) && |line.data| == l.cfg.geo.BlockSize()
    requires Backed(l, v, i, line)
    ensures Tidy(Put(l, i, w, line), v)
  {
    hide Pow2, BitAnd, KickAddr, FindWay;
    FindAfterPut(l.sets[i], w, line, 0);
  }

  /** The bytes an access inside one block touches are exactly those of the block at its offsets. */
  lemma TouchedBytes(g: Geometry, addr: nat, count: nat, a: nat)
    requires g.Valid() && IsAddress(addr) && IsAddress(a)
    requires Offset(g, addr) + count <= g.BlockSize()
    ensures addr <= a < addr + count <==>
            SetIndex(g, a) == SetIndex(g, addr) && Tag(g, a) == Tag(g, addr) &&
            Offset(g, addr) <= Offset(g, a) < Offset(g, addr) + count
    ensures SetIndex(g, a) == SetIndex(g, addr) && Tag(g, a) == Tag(g, addr) ==>
            a - addr == Offset(g, a) - Offset(g, addr)
  {
    hide Pow2, BitAnd, Offset, SetIndex, Tag;
    SplitRebuilds(g, addr);
    SameBlock(g, a, addr);
    if addr <= a < addr + count {
      BlockMember(g, addr, a - BlockAddr(g, addr));
    }
  }

  predicate SameContents(x: Line, y: Line) {
    x.tag == y.tag && x.valid == y.valid && x.dirty == y.dirty && x.data == y.data
  }

  lemma FindIgnoresAge(xs: seq<Line>, ys: seq<Line>, t: nat)
    requires |xs| == |ys| && forall w :: 0 <= w < |xs| ==> SameContents(xs[w], ys[w])
    ensures FindWay(xs, t) == FindWay(ys, t)
    ensures UniqueTags(xs) ==> UniqueTags(ys)
  {
    var f, f' := FindWay(xs, t), FindWay(ys, t);
    assert f < |xs| ==> Matches(ys[f], t);
    assert f' < |xs| ==> Matches(xs[f'], t);
  }

  predicate LevelsAgree(l: Level, l': Level)
    requires LevelShaped(l) && LevelShaped(l')
  {
    l'.cfg == l.cfg &&
    forall i :: 0 <= i < |l.sets| ==> forall w :: 0 <= w < |l.sets[i]| ==> SameContents(l.sets[i][w], l'.sets[i][w])
  }

  /** Ages and counters do not take part in what a level shows. */
  lemma AgesAreInvisible(l: Level, l': Level, v: map<nat, byte>)
    requires Coheres(l, v) && LevelShaped(l') && LevelsAgree(l, l')
    ensures Coheres(l', v) && Over(l', v) == Over(l, v)
  {
    hide Pow2, BitAnd, Offset, SetIndex, Tag, FindWay, KickAddr;
    forall i | 0 <= i < |l.sets|
      ensures UniqueTags(l'.sets[i]) && forall w :: 0 <= w < |l.sets[i]| ==> Backed(l', v, i, l'.sets[i][w])
    {
      FindIgnoresAge(l.sets[i], l'.sets[i], 0);
      assert forall w :: 0 <= w < |l.sets[i]| ==>
               SameContents(l.sets[i][w], l'.sets[i][w]) && Backed(l, v, i, l.sets[i][w]);
    }
    forall a | a in v ensures CleanAt(l', v, a) && Peek(l', a, v[a]) == Peek(l, a, v[a]) {
      PeekIgnoresAge(l, l', a, v[a]);
      assert CleanAt(l, v, a);
    }
  }

  lemma PeekIgnoresAge(l: Level, l': Level, a: nat, below: byte)
    requires LevelShaped(l) && LevelShaped(l') && LevelsAgree(l, l') && IsAddress(a)
    ensures Peek(l', a, below) == Peek(l, a, below)
    ensures LineFor(l', a).Some? == LineFor(l, a).Some?
    ensures LineFor(l, a).Some? ==> SameContents(LineFor(l, a).value, LineFor(l', a).value)
  {
    hide Pow2, BitAnd, Offset, SetIndex, Tag, FindWay;
    SplitRebuilds(l.cfg.geo, a);
    var i := SetIndex(l.cfg.geo, a);
    FindIgnoresAge(l.sets[i], l'.sets[i], Tag(l.cfg.geo, a));
  }

  /** The line at (i, w) is the one that holds addr. */
  predicate Holds(l: Level, i: nat, w: nat, addr: nat)
    requires LevelShaped(l) && IsAddress(addr)
  {
    i == SetIndex(l.cfg.geo, addr) && i < |l.sets| && w < |l.sets[i]| && Matches(l.sets[i][w], Tag(l.cfg.geo, addr))
  }

  function Written(line: Line, o: nat, content: seq<byte>, dirty: bool): Line
    requires o + |content| <= |line.data|
  {
    line.(data := Splice(line.data, o, content), age := 0, dirty := dirty)
  }

  lemma HeldAlone(l: Level, i: nat, w: nat, addr: nat)
    requires LevelShaped(l) && IsAddress(addr) && Holds(l, i, w, addr) && UniqueTags(l.sets[i])
    ensures Others(l.sets[i], w, l.sets[i][w].tag)
    ensures LineFor(l, addr) == Some(l.sets[i][w])
  {
    hide Pow2, BitAnd, Offset, SetIndex, Tag;
    SplitRebuilds(l.cfg.geo, addr);
  }

  /**
   * Writing into a resident line, either leaving it dirty over an unchanged lower level
   * or leaving it clean over a lower level that took the same write.
   */
  lemma WriteResident(l: Level, v: map<nat, byte>, i: nat, w: nat, addr: nat, content: seq<byte>, dirty: bool)
    requires Coheres(l, v) && IsAddress(addr) && Holds(l, i, w, addr)
    requires Offset(l.cfg.geo, addr) + |content| <= l.cfg.geo.BlockSize()
    requires l.cfg.writeThrough ==> !dirty
    requires dirty || !l.sets[i][w].dirty
    ensures var l' := Put(l, i, w, Written(l.sets[i][w], Offset(l.cfg.geo, addr), content, dirty));
            var v' := if dirty then v else After(v, addr, Write(content));
            Coheres(l', v') && Over(l', v') == After(Over(l, v), addr, Write(content))
  {
    hide Pow2, BitAnd, Offset, SetIndex, Tag, FindWay, KickAddr, Peek, CleanAt, LineFor, Tidy, UniqueTags;
    var line := Written(l.sets[i][w], Offset(l.cfg.geo, addr), content, dirty);
    var l' := Put(l, i, w, line);
    var v' := if dirty then v else After(v, addr, Write(content));
    HeldInTidy(l, v, i, w, addr);
    TidyAfterPut(l, v, i, w, line);
    TidyIgnoresBytes(l', v, v');
    forall a | a in v'
      ensures CleanAt(l', v', a) && Peek(l', a, v'[a]) == After(Over(l, v), addr, Write(content))[a]
    {
      WriteResidentAt(l, v, i, w, addr, content, dirty, a);
    }
  }

  lemma TidyIgnoresBytes(l: Level, v: map<nat, byte>, v': map<nat, byte>)
    requires LevelShaped(l) && Tidy(l, v) && v.Keys == v'.Keys
    ensures Tidy(l, v')
  {
    hide Pow2, BitAnd, KickAddr;
    forall i | 0 <= i < |l.sets|
      ensures UniqueTags(l.sets[i]) && forall w :: 0 <= w < |l.sets[i]| ==> Backed(l, v', i, l.sets[i][w])
    {
      assert forall w :: 0 <= w < |l.sets[i]| ==> Backed(l, v, i, l.sets[i][w]);
    }
  }

  lemma WriteResidentAt(l: Level, v: map<nat, byte>, i: nat, w: nat, addr: nat, content: seq<byte>, dirty: bool, a: nat)
    requires Coheres(l, v) && IsAddress(addr) && Holds(l, i, w, addr) && a in v
    requires Offset(l.cfg.geo, addr) + |content| <= l.cfg.geo.BlockSize()
    requires dirty || !l.sets[i][w].dirty
    ensures var l' := Put(l, i, w, Written(l.sets[i][w], Offset(l.cfg.geo, addr), content, dirty));
            var v' := if dirty then v else After(v, addr, Write(content));
            CleanAt(l', v', a) && Peek(l', a, v'[a]) == After(Over(l, v), addr, Write(content))[a]
  {
    hide Pow2, BitAnd, Offset, SetIndex, Tag, FindWay, KickAddr, Tidy, UniqueTags;
    var g := l.cfg.geo;
    var line := Written(l.sets[i][w], Offset(g, addr), content, dirty);
    HeldInTidy(l, v, i, w, addr);
    LineForAfterPut(l, i, w, line, a);
    TouchedBytes(g, addr, |content|, a);
    SplitRebuilds(g, a);
    assert CleanAt(l, v, a);
    var l' := Put(l, i, w, line);
    if SetIndex(g, a) == i && Tag(g, a) == line.tag {
      SameBlockSameLine(l, addr, a);
      assert LineFor(l', a) == Some(line);
    } else {
      assert LineFor(l', a) == LineFor(l, a);
    }
  }

  lemma HeldInTidy(l: Level, v: map<nat, byte>, i: nat, w: nat, addr: nat)
    requires Coheres(l, v) && IsAddress(addr) && Holds(l, i, w, addr)
    ensures UniqueTags(l.sets[i]) && Others(l.sets[i], w, l.sets[i][w].tag)
    ensures LineFor(l, addr) == Some(l.sets[i][w])
    ensures Backed(l, v, i, l.sets[i][w])
  {
    HeldAlone(l, i, w, addr);
  }

  lemma SameBlockSameLine(l: Level, a: nat, b: nat)
    requires LevelShaped(l) && IsAddress(a) && IsAddress(b)
    requires SetIndex(l.cfg.geo, a) == SetIndex(l.cfg.geo, b) && Tag(l.cfg.geo, a) == Tag(l.cfg.geo, b)
    ensures LineFor(l, a) == LineFor(l, b)
  {
    hide Pow2, BitAnd, Offset, SetIndex, Tag, FindWay, KickAddr;
  }

  /** A write that bypasses the level keeps it coherent when no line of the level holds the block. */
  lemma WriteBelow(l: Level, v: map<nat, byte>, addr: nat, content: seq<byte>)
    requires Coheres(l, v) && IsAddress(addr) && LineFor(l, addr) == None
    requires Offset(l.cfg.geo, addr) + |content| <= l.cfg.geo.BlockSize()
    ensures var v' := After(v, addr, Write(content));
            Coheres(l, v') && Over(l, v') == After(Over(l, v), addr, Write(content))
  {
    hide Pow2, BitAnd, Offset, SetIndex, Tag, FindWay, KickAddr;
    var v' := After(v, addr, Write(content));
    TidyIgnoresBytes(l, v, v');
    forall a | a in v'
      ensures CleanAt(l, v', a) && Peek(l, a, v'[a]) == After(Over(l, v), addr, Write(content))[a]
    {
      TouchedBytes(l.cfg.geo, addr, |content|, a);
      assert CleanAt(l, v, a);
      if addr <= a < addr + |content| {
        SameBlockSameLine(l, addr, a);
      }
    }
  }

  /**
   * Installing a missing block over a victim shows the same bytes, provided a dirty victim was written
   * back to the very block it was filled from after the missing block had been read.
   */
  lemma InstallKeepsView(l: Level, v: map<nat, byte>, i: nat, w: nat, addr: nat, block: seq<byte>)
    requires Coheres(l, v) && IsAddress(addr) && LineFor(l, addr) == None
    requires i == SetIndex(l.cfg.geo, addr) && i < |l.sets| && w < |l.sets[i]|
    requires BlockAddr(l.cfg.geo, addr) in v
    requires Covers(v, BlockAddr(l.cfg.geo, addr), l.cfg.geo.BlockSize())
    requires block == Slice(v, BlockAddr(l.cfg.geo, addr), l.cfg.geo.BlockSize())
    ensures var l' := Put(l, i, w, Line(Tag(l.cfg.geo, addr), false, true, 0, block));
            var v' := AfterWriteBack(l, v, i, w);
            Coheres(l', v') && Over(l', v') == Over(l, v)
  {
    hide Pow2, BitAnd, Offset, SetIndex, Tag, FindWay, KickAddr;
    var g := l.cfg.geo;
    var line := Line(Tag(g, addr), false, true, 0, block);
    var l' := Put(l, i, w, line);
    var v' := AfterWriteBack(l, v, i, w);
    KickInvertsSplit(g, addr);
    TagBound(g, addr);
    AbsentMeansNoMatch(l, addr);
    TidyAfterPut(l, v, i, w, line);
    TidyIgnoresBytes(l', v, v');
    forall a | a in v' ensures CleanAt(l', v', a) && Peek(l', a, v'[a]) == Over(l, v)[a] {
      InstallKeepsByte(l, v, i, w, addr, block, a);
    }
  }

  function AfterWriteBack(l: Level, v: map<nat, byte>, i: nat, w: nat): (r: map<nat, byte>)
    requires LevelShaped(l) && i < |l.sets| && w < |l.sets[i]|
    ensures r.Keys == v.Keys
  {
    if MustWriteBack(l, i, w) then
      After(v, KickAddr(l.cfg.geo, l.sets[i][w].tag, i), Write(l.sets[i][w].data))
    else v
  }

  lemma AbsentMeansNoMatch(l: Level, addr: nat)
    requires LevelShaped(l) && IsAddress(addr) && LineFor(l, addr) == None
    ensures SetIndex(l.cfg.geo, addr) < |l.sets|
    ensures forall j :: 0 <= j < l.cfg.ways ==> !Matches(l.sets[SetIndex(l.cfg.geo, addr)][j], Tag(l.cfg.geo, addr))
  {
    hide Pow2, BitAnd, Offset, SetIndex, Tag;
    SplitRebuilds(l.cfg.geo, addr);
  }

  lemma InstallKeepsByte(l: Level, v: map<nat, byte>, i: nat, w: nat, addr: nat, block: seq<byte>, a: nat)
    requires Coheres(l, v) && IsAddress(addr) && LineFor(l, addr) == None && a in v
    requires i == SetIndex(l.cfg.geo, addr) && i < |l.sets| && w < |l.sets[i]|
    requires BlockAddr(l.cfg.geo, addr) in v
    requires Covers(v, BlockAddr(l.cfg.geo, addr), l.cfg.geo.BlockSize())
    requires block == Slice(v, BlockAddr(l.cfg.geo, addr), l.cfg.geo.BlockSize())
    ensures var l' := Put(l, i, w, Line(Tag(l.cfg.geo, addr), false, true, 0, block));
            var v' := AfterWriteBack(l, v, i, w);
            CleanAt(l', v', a) && Peek(l', a, v'[a]) == Over(l, v)[a]
  {
    hide Pow2, BitAnd, Offset, SetIndex, Tag, FindWay, KickAddr;
    var g, victim := l.cfg.geo, l.sets[i][w];
    var line := Line(Tag(g, addr), false, true, 0, block);
    AbsentMeansNoMatch(l, addr);
    LineForAfterPut(l, i, w, line, a);
    SplitRebuilds(g, a);
    assert CleanAt(l, v, a);
    WriteBackTouches(l, v, i, w, a);
    if SetIndex(g, a) == i && Tag(g, a) == line.tag {
      SameBlockSameLine(l, addr, a);
      SameBlock(g, addr, a);
      BlockMember(g, a, Offset(g, a));
    } else if SetIndex(g, a) == i && Matches(victim, Tag(g, a)) {
      HeldAlone(l, i, w, a);
    }
  }

  /** A write-back changes the level below exactly at the victim's block, to the victim's data. */
  lemma WriteBackTouches(l: Level, v: map<nat, byte>, i: nat, w: nat, a: nat)
    requires Coheres(l, v) && i < |l.sets| && w < |l.sets[i]| && a in v
    ensures Offset(l.cfg.geo, a) < l.cfg.geo.BlockSize()
    ensures AfterWriteBack(l, v, i, w)[a] ==
            if MustWriteBack(l, i, w) && SetIndex(l.cfg.geo, a) == i && Tag(l.cfg.geo, a) == l.sets[i][w].tag
            then l.sets[i][w].data[Offset(l.cfg.geo, a)] else v[a]
  {
    hide Pow2, BitAnd, Offset, SetIndex, Tag, FindWay, KickAddr;
    var g, victim := l.cfg.geo, l.sets[i][w];
    SplitRebuilds(g, a);
    if MustWriteBack(l, i, w) {
      assert Backed(l, v, i, victim);
      SplitInvertsKick(g, victim.tag, i);
      TouchedBytes(g, KickAddr(g, victim.tag, i), |victim.data|, a);
    }
  }
}
