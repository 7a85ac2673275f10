/** The ranges that the layout pass gives to segments, in the file and in memory. */
module ElfSizes {
  import Bits
  import opened Isa
  import opened Arithmetic
  import opened SegmentOrder
  import opened ElfLayout

  /**
   * The section is in memory when a segment of that type is: it is marked SHF_ALLOC (bit 1), and is not the
   * zero-filled part of thread-local storage (SHF_TLS, bit 10) in a segment other than PT_TLS.
   */
  predicate InMemory(s: Section, kind: nat) {
    Bit(s.flags, 1) == 1 && (s.kind == SHT_NOBITS && Bit(s.flags, 10) == 1 ==> kind == 7)
  }

  lemma CountedIsInMemory(s: Section, g: Segment)
    ensures CountsInMemory(s, g) <==> InMemory(s, g.kind)
  {
    FlagIsBit(s.flags);
  }

  lemma FlagIsBit(flags: nat)
    ensures Bit(flags, 1) == flags / 2 % 2 && Bit(flags, 10) == flags / 0x400 % 2
  {
    Powers();
    hide Bits.Pow2;
    RightShiftBits(flags, 1, 0);
    RightShiftBits(flags, 10, 0);
  }

  lemma Powers()
    ensures Bits.Pow2(1) == 2 && Bits.Pow2(10) == 0x400
  {
    assert Bits.Pow2(5) == 32;
    Bits.Pow2Add(5, 5);
  }

  lemma SameFlags(s: Section, s': Section, kind: nat)
    requires s'.kind == s.kind && s'.flags == s.flags
    ensures InMemory(s', kind) == InMemory(s, kind)
  {
  }

  /** The section listed at j is one of the segment's in memory. */
  predicate Member(secs: seq<Section>, list: seq<nat>, kind: nat, j: nat)
    requires InBounds(list, |secs|) && j < |list|
  {
    secs[list[j]].kind != SHT_NULL && InMemory(secs[list[j]], kind)
  }

  // Segments of new sections.

  /** The bytes and the padding before them of the first j listed sections that are in memory. */
  function MemoryBytes(secs: seq<Section>, list: seq<nat>, from: nat, kind: nat, j: nat): int
    requires InBounds(list, |secs|) && j <= |list|
  {
    if j == 0 then 0
    else
      MemoryBytes(secs, list, from, kind, j - 1) +
      if Member(secs, list, kind, j - 1) then secs[list[j - 1]].size + PaddingAt(secs, list, from, j - 1) else 0
  }

  /** What the first j sections take up in memory but not in the file. */
  function Extra(secs: seq<Section>, list: seq<nat>, kind: nat, j: nat): nat
    requires InBounds(list, |secs|) && j <= |list|
  {
    if j == 0 then 0
    else
      Extra(secs, list, kind, j - 1) +
      if Member(secs, list, kind, j - 1) && secs[list[j - 1]].kind == SHT_NOBITS then secs[list[j - 1]].size else 0
  }

  /** What the first j sections take up in the file, padding included, but not in memory. */
  function Missing(secs: seq<Section>, list: seq<nat>, from: nat, kind: nat, j: nat): int
    requires InBounds(list, |secs|) && j <= |list|
  {
    if j == 0 then 0
    else
      var s := secs[list[j - 1]];
      Missing(secs, list, from, kind, j - 1) +
      if s.kind == SHT_NULL || Member(secs, list, kind, j - 1) then 0
      else PaddingAt(secs, list, from, j - 1) + if Occupies(s) then s.size else 0
  }

  /** The memory of the first j sections is their room in the file, less what is missing and with what is extra. */
  lemma {:induction false} MemoryAgainstFile(secs: seq<Section>, list: seq<nat>, from: nat, kind: nat, j: nat)
    requires InBounds(list, |secs|) && j <= |list|
    ensures MemoryBytes(secs, list, from, kind, j) ==
            EndAt(secs, list, from, j) - from - Missing(secs, list, from, kind, j) + Extra(secs, list, kind, j)
  {
    if j > 0 {
      MemoryAgainstFile(secs, list, from, kind, j - 1);
    }
  }

  lemma {:induction false} SameMemory(
      secs: seq<Section>, secs': seq<Section>, list: seq<nat>, from: nat, kind: nat, j: nat)
    requires InBounds(list, |secs|) && |secs'| == |secs| && j <= |list|
    requires forall i :: 0 <= i < j ==> secs'[list[i]] == secs[list[i]]
    ensures MemoryBytes(secs', list, from, kind, j) == MemoryBytes(secs, list, from, kind, j)
  {
    hide InMemory, PaddingAt;
    if j > 0 {
      SameMemory(secs, secs', list, from, kind, j - 1);
      SameEnds(secs, secs', list, from, j);
    }
  }

  /** Placing one new section, with `extent` the unwrapped memory size. */
  lemma MemoryStep(l: Layout, k: nat, start: nat, fileSize: nat, index: nat, extent: int)
    requires Tables(l) && k < |l.segments| && index < |l.sections| && Unplaced(l, index)
    requires l.sections[index].kind == SHT_NULL || index != 0
    ensures var p := PlaceSection(l, k, start, fileSize, Wrap(extent), index);
            p.Going? ==>
              var s, s' := l.sections[index], p.layout.sections[index];
              && s'.kind == s.kind && s'.size == s.size && s'.flags == s.flags
              && p.memSize ==
                 Wrap(extent +
                      if s.kind != SHT_NULL && InMemory(s, l.segments[k].kind) then s.size + (s'.offset - l.pos) else 0)
  {
    hide InMemory, CountsInMemory;
    CountedIsInMemory(l.sections[index], l.segments[k]);
    var gap := Gap(l, k, start, fileSize, index);
    if gap >= 0 {
      WrapStep(extent, l.sections[index].size, gap);
    }
    hide Wrap;
  }

  lemma {:induction false} MemoryAfter(l: Layout, k: nat, start: nat, size: nat, j: nat)
    requires Tables(l) && k < |l.segments| && j <= |l.segments[k].sections| && AllNew(l, l.segments[k].sections)
    requires size == Wrap(l.pos - start) && Rooted(l)
    ensures var p := PlaceSections(l, k, start, size, j);
            p.Going? ==>
              p.memSize ==
              Wrap(size + MemoryBytes(p.layout.sections, l.segments[k].sections, l.pos, l.segments[k].kind, j))
  {
    hide PlaceSection, Wrap, PlaceSections, Rooted, AllNew, Measured, InMemory;
    NoSections(l, k, start, size);
    if j == 0 {
      WrapTwice(l.pos - start);
    } else {
      OneMoreSection(l, k, start, size, j);
      MemoryAfter(l, k, start, size, j - 1);
      MeasuredAfter(l, k, start, size, j - 1);
      var q := PlaceSections(l, k, start, size, j - 1);
      if q.Going? {
        MemoryOneMore(l, k, start, size, j, q.layout, q.fileSize, q.memSize);
      }
    }
  }

  lemma WrapTwice(x: int)
    ensures Wrap(Wrap(x)) == Wrap(x)
  {
  }

  lemma MemoryOneMore(l: Layout, k: nat, start: nat, size: nat, j: nat, q: Layout, fileSize: nat, memSize: nat)
    requires Tables(l) && Tables(q) && k < |l.segments| && q.segments == l.segments && |q.sections| == |l.sections|
    requires 0 < j <= |l.segments[k].sections| && AllNew(l, l.segments[k].sections) && Rooted(q)
    requires Measured(l, l.segments[k].sections, l.pos, start, j - 1, q, fileSize)
    requires var list, kind := l.segments[k].sections, l.segments[k].kind;
             memSize == Wrap(size + MemoryBytes(q.sections, list, l.pos, kind, j - 1))
    ensures var list, kind := l.segments[k].sections, l.segments[k].kind;
            var p := PlaceSection(q, k, start, fileSize, memSize, list[j - 1]);
            p.Going? ==> p.memSize == Wrap(size + MemoryBytes(p.layout.sections, list, l.pos, kind, j))
  {
    hide PlaceSection, Wrap, InMemory, Uncounted;
    var list, kind := l.segments[k].sections, l.segments[k].kind;
    var extent := size + MemoryBytes(q.sections, list, l.pos, kind, j - 1);
    MemoryStep(q, k, start, fileSize, list[j - 1], extent);
    PlaceSectionIsLocal(q, k, start, fileSize, memSize, list[j - 1]);
    var p := PlaceSection(q, k, start, fileSize, memSize, list[j - 1]);
    if p.Going? {
      SameFlags(q.sections[list[j - 1]], p.layout.sections[list[j - 1]], kind);
      SameMemory(q.sections, p.layout.sections, list, l.pos, kind, j - 1);
      SameEnds(q.sections, p.layout.sections, list, l.pos, j - 1);
    }
  }

  /** A segment of new sections, placed at the file position. */
  predicate NewSegment(h: Header, l: Layout, k: nat) {
    && Tables(l) && Rooted(l) && k < |l.segments| && StartsAtEnd(l, k) && AllNew(l, l.segments[k].sections)
    && PlaceSegment(h, l, k).Laid?
  }

  function Placed(h: Header, l: Layout, k: nat): (r: Layout)
    requires NewSegment(h, l, k)
    ensures Tables(r) && |r.sections| == |l.sections| && |r.segments| == |l.segments|
    ensures r.segments[k].sections == l.segments[k].sections
  {
    hide PlaceSegment, Rooted, AllNew, StartsAtEnd;
    NewSegmentMeasured(h, l, k);
    PlaceSegment(h, l, k).layout
  }

  /** The memory that its sections ask for. */
  function Needed(h: Header, l: Layout, k: nat): int
    requires NewSegment(h, l, k)
  {
    var list := l.segments[k].sections;
    InitialSize(h, l, k) + MemoryBytes(Placed(h, l, k).sections, list, From(h, l, k), l.segments[k].kind, |list|)
  }

  /** How far behind the segment's start the section listed at j ends. */
  function EndOf(l: Layout, k: nat, j: nat): int
    requires Tables(l) && k < |l.segments| && j < |l.segments[k].sections|
  {
    var s := l.sections[l.segments[k].sections[j]];
    s.offset + s.size - l.segments[k].offset
  }

  /** A segment gets the memory its sections ask for, unless it has brought more. */
  lemma MemorySizeIs(h: Header, l: Layout, k: nat)
    requires NewSegment(h, l, k)
    ensures var m := Wrap(Needed(h, l, k));
            Placed(h, l, k).segments[k].memSize == if l.segments[k].memSize < m then m else l.segments[k].memSize
  {
    hide PlaceSections, PlaceSection, NextCongruent, Rooted, AllNew, Wrap, StartsAtEnd, MemoryBytes;
    var o, start := Opened(h, l, k), SegmentStart(h, l, k);
    assert AllNew(o, o.segments[k].sections) && Rooted(o) by { OpenedIsNew(h, l, k); }
    assert InitialSize(h, l, k) == Wrap(o.pos - start) by { InitialIsRoom(h, l, k); }
    MemoryAfter(o, k, start, InitialSize(h, l, k), |l.segments[k].sections|);
  }

  lemma StartAndSize(h: Header, l: Layout, k: nat)
    requires Tables(l) && k < |l.segments| && StartsAtEnd(l, k)
    ensures InitialSize(h, l, k) == From(h, l, k) - SegmentStart(h, l, k)
  {
    hide NextCongruent;
  }

  lemma {:induction false} MemoryGrows(secs: seq<Section>, list: seq<nat>, from: nat, kind: nat, i: nat, j: nat)
    requires InBounds(list, |secs|) && i <= j <= |list|
    requires forall m :: 0 <= m < |list| ==> PaddingAt(secs, list, from, m) >= 0
    ensures MemoryBytes(secs, list, from, kind, i) <= MemoryBytes(secs, list, from, kind, j)
    ensures Missing(secs, list, from, kind, i) >= 0
    decreases j
  {
    hide InMemory, PaddingAt;
    if i < j {
      MemoryGrows(secs, list, from, kind, i, j - 1);
    } else if j > 0 {
      MemoryGrows(secs, list, from, kind, j - 1, j - 1);
      assert PaddingAt(secs, list, from, j - 1) >= 0;
    }
  }

  /** The memory behind a section's end: what was extra before it and all that comes after it, less what was missing. */
  lemma MemoryMargin(h: Header, l: Layout, k: nat, j: nat)
    requires NewSegment(h, l, k) && j < |l.segments[k].sections|
    requires Member(Placed(h, l, k).sections, l.segments[k].sections, l.segments[k].kind, j)
    ensures var r, list, from, kind := Placed(h, l, k), l.segments[k].sections, From(h, l, k), l.segments[k].kind;
            Needed(h, l, k) - EndOf(r, k, j) ==
            Extra(r.sections, list, kind, j) - Missing(r.sections, list, from, kind, j) +
            MemoryBytes(r.sections, list, from, kind, |list|) - MemoryBytes(r.sections, list, from, kind, j + 1)
  {
    hide PlaceSegment, Rooted, AllNew, StartsAtEnd, InMemory, From, InitialSize, SegmentStart, Placed, Member;
    NewSegmentMeasured(h, l, k);
    PlacedIs(h, l, k);
    StartAndSize(h, l, k);
    var r, list, from, kind := Placed(h, l, k), l.segments[k].sections, From(h, l, k), l.segments[k].kind;
    MemoryAgainstFile(r.sections, list, from, kind, j);
    MemberIsThere(r.sections, list, kind, j);
  }

  lemma MemberIsThere(secs: seq<Section>, list: seq<nat>, kind: nat, j: nat)
    requires InBounds(list, |secs|) && j < |list| && Member(secs, list, kind, j)
    ensures secs[list[j]].kind != SHT_NULL
  {
    hide InMemory;
  }

  lemma PlacedIs(h: Header, l: Layout, k: nat)
    requires NewSegment(h, l, k)
    ensures Placed(h, l, k) == PlaceSegment(h, l, k).layout
  {
    hide PlaceSegment, Rooted, AllNew, StartsAtEnd;
  }

  lemma PaddingsArePositive(h: Header, l: Layout, k: nat)
    requires NewSegment(h, l, k)
    ensures var list := l.segments[k].sections;
            forall m :: 0 <= m < |list| ==> PaddingAt(Placed(h, l, k).sections, list, From(h, l, k), m) >= 0
  {
    hide PlaceSegment, Rooted, AllNew, StartsAtEnd, PaddingAt, From, EndAt, Uncounted;
    NewSegmentMeasured(h, l, k);
  }

  /**
   * The memory of a segment of new sections reaches over a section that is in memory if and only if what earlier
   * ones take up in the file alone is made up for by what earlier ones take up in memory alone and by all that
   * comes later. (A segment that has brought a larger size keeps that.)
   */
  lemma AllocatedCoveredIff(h: Header, l: Layout, k: nat, j: nat)
    requires NewSegment(h, l, k) && j < |l.segments[k].sections| && Needed(h, l, k) < U64
    requires Member(Placed(h, l, k).sections, l.segments[k].sections, l.segments[k].kind, j)
    requires l.segments[k].memSize <= Needed(h, l, k)
    ensures var r, list, from, kind := Placed(h, l, k), l.segments[k].sections, From(h, l, k), l.segments[k].kind;
            EndOf(r, k, j) <= r.segments[k].memSize <==>
            Missing(r.sections, list, from, kind, j) <=
            Extra(r.sections, list, kind, j) +
            MemoryBytes(r.sections, list, from, kind, |list|) - MemoryBytes(r.sections, list, from, kind, j + 1)
  {
    hide NewSegment, Placed, From, Needed, Member, Missing, Extra, EndOf;
    MemoryMargin(h, l, k, j);
    MemorySizeIs(h, l, k);
    NeededIsPositive(h, l, k);
  }

  lemma NeededIsPositive(h: Header, l: Layout, k: nat)
    requires NewSegment(h, l, k)
    ensures Needed(h, l, k) >= 0
  {
    hide Placed, From, StartsAtEnd, Rooted, AllNew, PlaceSegment, PaddingAt;
    PaddingsArePositive(h, l, k);
    var list := l.segments[k].sections;
    MemoryGrows(Placed(h, l, k).sections, list, From(h, l, k), l.segments[k].kind, 0, |list|);
  }

  /** A check before the layout: the segment lists nothing but sections that are in memory with it. */
  predicate AllInMemory(l: Layout, k: nat)
    requires Tables(l) && k < |l.segments|
  {
    var list := l.segments[k].sections;
    forall j :: 0 <= j < |list| ==>
      l.sections[list[j]].kind == SHT_NULL || InMemory(l.sections[list[j]], l.segments[k].kind)
  }

  lemma ListedInMemory(l: Layout, k: nat)
    requires Tables(l) && k < |l.segments| && AllInMemory(l, k)
    ensures var list := l.segments[k].sections;
            forall j :: 0 <= j < |list| ==>
              l.sections[list[j]].kind == SHT_NULL || InMemory(l.sections[list[j]], l.segments[k].kind)
  {
    hide InMemory;
  }

  /** Nothing is missing then. */
  lemma {:induction false} NothingMissing(secs: seq<Section>, list: seq<nat>, from: nat, kind: nat, j: nat)
    requires InBounds(list, |secs|) && j <= |list|
    requires forall i :: 0 <= i < |list| ==> secs[list[i]].kind == SHT_NULL || InMemory(secs[list[i]], kind)
    ensures Missing(secs, list, from, kind, j) == 0
  {
    hide InMemory;
    if j > 0 {
      NothingMissing(secs, list, from, kind, j - 1);
    }
  }

  /** What a section of a new segment keeps, and where its address is. */
  lemma {:induction false} NewSectionKept(l: Layout, k: nat, start: nat, size: nat, j: nat, i: nat)
    requires Tables(l) && k < |l.segments| && i < j <= |l.segments[k].sections| && AllNew(l, l.segments[k].sections)
    requires Rooted(l) && PlaceSections(l, k, start, size, j).Going?
    ensures var list := l.segments[k].sections;
            var s, s' := l.sections[list[i]], PlaceSections(l, k, start, size, j).layout.sections[list[i]];
            && s'.kind == s.kind && s'.flags == s.flags && s'.size == s.size
            && (s.kind != SHT_NULL && !s.addressSet ==> s'.address == Wrap(l.segments[k].vaddr + s'.offset - start))
            && (Addressed(s) && s.kind != SHT_NULL ==>
                  s'.address == s.address && Wrap(s'.offset - start) == Wrap(s'.address - l.segments[k].vaddr))
    decreases j
  {
    hide PlaceSection, PlaceSections, Wrap, Addressed, Rooted;
    var list := l.segments[k].sections;
    OneMoreSection(l, k, start, size, j);
    var q := PlaceSections(l, k, start, size, j - 1);
    NotYetPlaced(l, k, start, size, j - 1);
    PlaceSectionIsLocal(q.layout, k, start, q.fileSize, q.memSize, list[j - 1]);
    if i < j - 1 {
      NewSectionKept(l, k, start, size, j - 1, i);
    } else {
      OneSectionKept(q.layout, k, start, q.fileSize, q.memSize, list[j - 1]);
    }
  }

  lemma {:induction false} NotYetPlaced(l: Layout, k: nat, start: nat, size: nat, j: nat)
    requires Tables(l) && k < |l.segments| && j <= |l.segments[k].sections| && AllNew(l, l.segments[k].sections)
    requires Rooted(l) && PlaceSections(l, k, start, size, j).Going?
    ensures var list, q := l.segments[k].sections, PlaceSections(l, k, start, size, j).layout;
            && Rooted(q)
            && forall i :: j <= i < |list| ==> Unplaced(q, list[i]) && q.sections[list[i]] == l.sections[list[i]]
  {
    hide PlaceSection, PlaceSections;
    NoSections(l, k, start, size);
    if j > 0 {
      var list := l.segments[k].sections;
      OneMoreSection(l, k, start, size, j);
      var q := PlaceSections(l, k, start, size, j - 1);
      NotYetPlaced(l, k, start, size, j - 1);
      PlaceSectionIsLocal(q.layout, k, start, q.fileSize, q.memSize, list[j - 1]);
      OneSectionKept(q.layout, k, start, q.fileSize, q.memSize, list[j - 1]);
    }
  }

  lemma OneSectionKept(l: Layout, k: nat, start: nat, fileSize: nat, memSize: nat, index: nat)
    requires Tables(l) && k < |l.segments| && index < |l.sections| && Unplaced(l, index) && Rooted(l)
    requires PlaceSection(l, k, start, fileSize, memSize, index).Going?
    ensures var s, s' := l.sections[index], PlaceSection(l, k, start, fileSize, memSize, index).layout.sections[index];
            && s'.kind == s.kind && s'.flags == s.flags && s'.size == s.size
            && (s.kind != SHT_NULL && !s.addressSet ==> s'.address == Wrap(l.segments[k].vaddr + s'.offset - start))
            && (Addressed(s) && s.kind != SHT_NULL ==>
                  s'.address == s.address && Wrap(s'.offset - start) == Wrap(s'.address - l.segments[k].vaddr))
  {
    if Addressed(l.sections[index]) {
      WrapTwice(l.sections[index].address - l.segments[k].vaddr);
    }
    hide Wrap;
  }

  lemma WrappedDistance(v: nat, d: int)
    requires 0 <= d < U64
    ensures Wrap(Wrap(v + d) - v) == d && Wrap(d) == d
  {
    WrapDistance(v, d);
  }

  /**
   * Of a segment that lists nothing else than sections that are in memory, every section, zero-filled ones
   * included, ends within its memory: as its offset says and, unless it brought an address without bytes in the
   * file, as its address says.
   */
  lemma AllocatedCovered(h: Header, l: Layout, k: nat, j: nat)
    requires NewSegment(h, l, k) && j < |l.segments[k].sections| && Needed(h, l, k) < U64 && AllInMemory(l, k)
    requires l.sections[l.segments[k].sections[j]].kind != SHT_NULL
    ensures var r, index := Placed(h, l, k), l.segments[k].sections[j];
            && EndOf(r, k, j) <= r.segments[k].memSize
            && (!l.sections[index].addressSet || Addressed(l.sections[index]) ==>
                  var s := r.sections[index];
                  Wrap(s.address - l.segments[k].vaddr) + s.size <= r.segments[k].memSize)
  {
    hide Rooted, AllNew, StartsAtEnd, PlaceSegment, Placed, From, Needed, Missing, MemoryBytes, InMemory, PaddingAt,
         Addressed, AllInMemory;
    ListedInMemory(l, k);
    var r, list, from, kind := Placed(h, l, k), l.segments[k].sections, From(h, l, k), l.segments[k].kind;
    forall i | 0 <= i < |list| ensures r.sections[list[i]].kind == SHT_NULL || InMemory(r.sections[list[i]], kind) {
      KeptInPlace(h, l, k, i);
      SameFlags(l.sections[list[i]], r.sections[list[i]], kind);
    }
    KeptInPlace(h, l, k, j);
    NothingMissing(r.sections, list, from, kind, j);
    PaddingsArePositive(h, l, k);
    MemoryGrows(r.sections, list, from, kind, j + 1, |list|);
    MemoryMargin(h, l, k, j);
    MemorySizeIs(h, l, k);
    NeededIsPositive(h, l, k);
    BehindStart(h, l, k, j);
    WrappedDistance(l.segments[k].vaddr, r.sections[list[j]].offset - r.segments[k].offset);
  }

  lemma KeptInPlace(h: Header, l: Layout, k: nat, i: nat)
    requires NewSegment(h, l, k) && i < |l.segments[k].sections|
    ensures var r, index := Placed(h, l, k), l.segments[k].sections[i];
            var s, s', start := l.sections[index], r.sections[index], r.segments[k].offset;
            && s'.kind == s.kind && s'.flags == s.flags && s'.size == s.size
            && (s.kind != SHT_NULL && !s.addressSet ==> s'.address == Wrap(l.segments[k].vaddr + s'.offset - start))
            && (Addressed(s) && s.kind != SHT_NULL ==>
                  s'.address == s.address && Wrap(s'.offset - start) == Wrap(s'.address - l.segments[k].vaddr))
  {
    hide PlaceSections, NextCongruent, Rooted, AllNew, Wrap, StartsAtEnd, Addressed;
    var o, n := Opened(h, l, k), |l.segments[k].sections|;
    assert AllNew(o, o.segments[k].sections) && Rooted(o) by { OpenedIsNew(h, l, k); }
    NewSectionKept(o, k, SegmentStart(h, l, k), InitialSize(h, l, k), n, i);
  }

  /** A section of a new segment lies at or behind the segment's start. */
  lemma BehindStart(h: Header, l: Layout, k: nat, j: nat)
    requires NewSegment(h, l, k) && j < |l.segments[k].sections|
    requires Placed(h, l, k).sections[l.segments[k].sections[j]].kind != SHT_NULL
    ensures var r := Placed(h, l, k); r.segments[k].offset <= r.sections[l.segments[k].sections[j]].offset
  {
    hide PlaceSegment, Rooted, AllNew, StartsAtEnd, From;
    NewSegmentMeasured(h, l, k);
    StartIsBefore(h, l, k);
    var r, list := Placed(h, l, k), l.segments[k].sections;
    EndsGrow(r.sections, list, From(h, l, k), 0, j);
    assert PaddingAt(r.sections, list, From(h, l, k), j) >= 0;
  }

  /**
   * The memory of such a segment is the furthest that any of its sections reaches if and only if some section has no
   * zero-filled bytes before it and neither bytes nor padding behind it. (Zero-filled sections do not move the
   * file position, so that the next section gets their address, but their bytes are counted.)
   */
  lemma MemoryIsTightIff(h: Header, l: Layout, k: nat)
    requires NewSegment(h, l, k) && 0 <= Needed(h, l, k) < U64 && AllInMemory(l, k)
    requires l.segments[k].memSize <= Needed(h, l, k)
    ensures var r, list, from, kind := Placed(h, l, k), l.segments[k].sections, From(h, l, k), l.segments[k].kind;
            (exists j :: 0 <= j < |list| && Reaches(r, k, j)) <==>
            (exists j :: 0 <= j < |list| && LastOfAll(r.sections, list, from, kind, j))
  {
    hide Rooted, AllNew, StartsAtEnd, PlaceSegment, Placed, From, Needed, InMemory, PaddingAt, AllInMemory, Reaches,
         LastOfAll;
    var r, list, from, kind := Placed(h, l, k), l.segments[k].sections, From(h, l, k), l.segments[k].kind;
    forall j | 0 <= j < |list| ensures Reaches(r, k, j) <==> LastOfAll(r.sections, list, from, kind, j) {
      ReachesIffLast(h, l, k, j);
    }
  }

  /** The segment's memory ends where the section listed at j does. */
  predicate Reaches(l: Layout, k: nat, j: nat)
    requires Tables(l) && k < |l.segments| && j < |l.segments[k].sections|
  {
    l.sections[l.segments[k].sections[j]].kind != SHT_NULL && EndOf(l, k, j) == l.segments[k].memSize
  }

  predicate LastOfAll(secs: seq<Section>, list: seq<nat>, from: nat, kind: nat, j: nat)
    requires InBounds(list, |secs|) && j < |list|
  {
    && secs[list[j]].kind != SHT_NULL && Extra(secs, list, kind, j) == 0
    && MemoryBytes(secs, list, from, kind, |list|) == MemoryBytes(secs, list, from, kind, j + 1)
  }

  lemma ReachesIffLast(h: Header, l: Layout, k: nat, j: nat)
    requires NewSegment(h, l, k) && 0 <= Needed(h, l, k) < U64 && AllInMemory(l, k)
    requires l.segments[k].memSize <= Needed(h, l, k) && j < |l.segments[k].sections|
    ensures var r, list, from, kind := Placed(h, l, k), l.segments[k].sections, From(h, l, k), l.segments[k].kind;
            Reaches(r, k, j) <==> LastOfAll(r.sections, list, from, kind, j)
  {
    hide Rooted, AllNew, StartsAtEnd, PlaceSegment, Placed, From, Needed, Missing, MemoryBytes, InMemory, PaddingAt,
         AllInMemory, Extra;
    var r, list, from, kind := Placed(h, l, k), l.segments[k].sections, From(h, l, k), l.segments[k].kind;
    ListedInMemory(l, k);
    forall i | 0 <= i < |list| ensures r.sections[list[i]].kind == SHT_NULL || InMemory(r.sections[list[i]], kind) {
      KeptInPlace(h, l, k, i);
      SameFlags(l.sections[list[i]], r.sections[list[i]], kind);
    }
    NothingMissing(r.sections, list, from, kind, j);
    PaddingsArePositive(h, l, k);
    MemoryGrows(r.sections, list, from, kind, j + 1, |list|);
    MemorySizeIs(h, l, k);
    if r.sections[list[j]].kind != SHT_NULL {
      MemoryMargin(h, l, k, j);
    }
  }

  /** A byte that is only in the file, and a byte that is in memory too. */
  function ShortExample(): Layout {
    Blank(Header(64, 56), [Section(SHT_NULL, 0, 0, 0, 0, false, 0), Section(1, 0, 1, 1, 0, false, 0),
                           Section(1, 2, 1, 1, 0, false, 0)],
          [Segment(1, 1, 0, [1, 2], 0, false, 0, 0)])
  }

  lemma ShortStep(l: Layout, index: nat, memSize: nat)
    requires Tables(l) && |l.segments| == 1 && index < |l.sections| && l.home[index].Nowhere? && 120 <= l.pos < 130
    requires var s := l.sections[index]; s == Section(1, s.flags, 1, 1, 0, false, 0) && (s.flags == 0 || s.flags == 2)
    requires memSize < 10
    ensures PlaceSection(l, 0, 120, l.pos - 120, memSize, index) ==
            Going(PutAt(l, 0, 120, index, l.pos), l.pos - 119, memSize + if l.sections[index].flags == 2 then 1 else 0)
  {
    assert 2 / SHF_ALLOC % 2 == 1 && 0 / SHF_ALLOC % 2 == 0;
  }

  /** The section in memory ends at distance 2, where the memory has only one byte. */
  lemma MemorySizeCanFallShort()
    ensures var h, l := Header(64, 56), ShortExample();
            && PlaceSegment(h, l, 0).Laid?
            && var r := PlaceSegment(h, l, 0).layout;
               r.segments[0].memSize == 1 && r.segments[0].offset == 120 && r.sections[2].offset == 121 &&
               r.sections[2].address == 1
  {
    hide PlaceSections, PlaceSection, PutAt;
    var l := ShortExample();
    NoSections(l, 0, 120, 0);
    OneMoreSection(l, 0, 120, 0, 1);
    ShortStep(l, 1, 0);
    ShortPut();
    OneMoreSection(l, 0, 120, 0, 2);
    ShortStep(PutAt(l, 0, 120, 1, 120), 2, 0);
    ShortStart();
  }

  lemma ShortPut()
    ensures var q := PutAt(ShortExample(), 0, 120, 1, 120);
            && |q.sections| == 3 && q.pos == 121 && q.home[2].Nowhere? && q.segments == ShortExample().segments
            && q.sections[2] == Section(1, 2, 1, 1, 0, false, 0)
            && PutAt(q, 0, 120, 2, 121).sections[2].offset == 121 && PutAt(q, 0, 120, 2, 121).sections[2].address == 1
  {
  }

  lemma ShortStart()
    ensures var l := ShortExample();
            SegmentStart(Header(64, 56), l, 0) == 120 && InitialSize(Header(64, 56), l, 0) == 0 &&
            Opened(Header(64, 56), l, 0) == l
  {
    assert ShortExample().pos == 120 && StartsFresh(ShortExample(), 0);
  }

  // Segments over sections that are placed already.

  /** A segment nested in others: none of its sections is new. */
  predicate Nested(l: Layout, k: nat) {
    && Tables(l) && k < |l.segments| && l.segments[k].sections != [] && !StartsWithNull(l, k)
    && !l.home[l.segments[k].sections[0]].Nowhere?
    && forall j :: 0 <= j < |l.segments[k].sections| ==> !l.home[l.segments[k].sections[j]].Nowhere?
  }

  /** How far behind the start the last of the first j listed sections with bytes in the file ends. */
  function LastEnd(secs: seq<Section>, list: seq<nat>, start: nat, j: nat): int
    requires InBounds(list, |secs|) && j <= |list|
  {
    if j == 0 then 0
    else
      var s := secs[list[j - 1]];
      if Occupies(s) then s.offset + s.size - start else LastEnd(secs, list, start, j - 1)
  }

  lemma WrapCancels(x: int, y: int, size: nat)
    ensures Wrap(Wrap(x) + size + Wrap(y - Wrap(x))) == Wrap(y + size)
  {
  }

  /** Placing a section again changes nothing but the sizes. */
  lemma NestedStep(l: Layout, k: nat, start: nat, fileSize: int, memSize: nat, index: nat)
    requires Tables(l) && k < |l.segments| && index < |l.sections| && !l.home[index].Nowhere?
    ensures var s := l.sections[index];
            var p := PlaceSection(l, k, start, Wrap(fileSize), memSize, index);
            && p.Going? && p.layout == l
            && p.fileSize == Wrap(if Occupies(s) then s.offset + s.size - start else fileSize)
            && (s.kind != SHT_NULL && InMemory(s, l.segments[k].kind) && memSize == Wrap(fileSize) ==>
                  p.memSize == Wrap(s.offset + s.size - start))
  {
    hide InMemory, CountsInMemory;
    var s := l.sections[index];
    CountedIsInMemory(s, l.segments[k]);
    WrapCancels(fileSize, s.offset - start, s.size);
    hide Wrap;
  }

  /** All but the last of the first j sections have bytes in the file, and all of them are in memory. */
  predicate Solid(l: Layout, k: nat, j: nat)
    requires Tables(l) && k < |l.segments| && j <= |l.segments[k].sections|
  {
    var list := l.segments[k].sections;
    forall i :: 0 <= i < j ==>
      l.sections[list[i]].kind != SHT_NULL && InMemory(l.sections[list[i]], l.segments[k].kind) &&
      (i + 1 < j ==> Occupies(l.sections[list[i]]))
  }

  lemma {:induction false} NestedAfter(l: Layout, k: nat, start: nat, j: nat)
    requires Nested(l, k) && j <= |l.segments[k].sections|
    ensures var list, p := l.segments[k].sections, PlaceSections(l, k, start, 0, j);
            && p.Going? && p.layout == l && p.fileSize == Wrap(LastEnd(l.sections, list, start, j))
            && (j > 0 && Solid(l, k, j) ==>
                  var s := l.sections[list[j - 1]];
                  p.memSize == Wrap(s.offset + s.size - start) && (Occupies(s) ==> p.memSize == p.fileSize))
  {
    hide PlaceSection, PlaceSections, Wrap, StartsWithNull, InMemory;
    NoSections(l, k, start, 0);
    if j > 0 {
      var list := l.segments[k].sections;
      OneMoreSection(l, k, start, 0, j);
      NestedAfter(l, k, start, j - 1);
      var q := PlaceSections(l, k, start, 0, j - 1);
      NestedStep(l, k, start, LastEnd(l.sections, list, start, j - 1), q.memSize, list[j - 1]);
      ZeroWraps();
    } else {
      ZeroWraps();
    }
  }

  lemma ZeroWraps()
    ensures Wrap(0) == 0
  {
  }

  /**
   * A nested segment is placed without moving anything. It starts where its first section does, its range in the file
   * ends where its last section with bytes there does, and if only its last section may be without bytes there
   * and all are in memory, its range in memory ends where the last one does, unless it has brought more.
   */
  lemma NestedSegment(h: Header, l: Layout, k: nat)
    requires Nested(l, k)
    ensures PlaceSegment(h, l, k).Laid?
    ensures var r, list, g := PlaceSegment(h, l, k).layout, l.segments[k].sections, l.segments[k];
            var start, n, last := l.sections[list[0]].offset, |list|, l.sections[list[|list| - 1]];
            && r.sections == l.sections && r.home == l.home && r.pos == l.pos && r.segments[k].offset == start
            && r.segments[k].fileSize == Wrap(LastEnd(l.sections, list, start, n))
            && (Solid(l, k, n) ==>
                  var m := Wrap(last.offset + last.size - start);
                  r.segments[k].memSize == if g.memSize < m then m else g.memSize)
  {
    hide PlaceSections, PlaceSection, InMemory, Wrap, LastEnd;
    NestedAfter(l, k, SegmentStart(h, l, k), |l.segments[k].sections|);
  }

  /** Listed in the order of their places, the sections lie inside the range in the file. */
  lemma NestedCovers(h: Header, l: Layout, k: nat, j: nat)
    requires Nested(l, k) && j < |l.segments[k].sections| && Data(l.sections[l.segments[k].sections[j]])
    requires var list := l.segments[k].sections;
             && (forall i :: 0 <= i < |list| ==> l.sections[list[0]].offset <= l.sections[list[i]].offset)
             && (forall a, b ::
                   0 <= a < b < |list| && Occupies(l.sections[list[a]]) && Occupies(l.sections[list[b]]) ==>
                     l.sections[list[a]].offset + l.sections[list[a]].size <= l.sections[list[b]].offset)
             && LastEnd(l.sections, list, l.sections[list[0]].offset, |list|) < U64
    ensures PlaceSegment(h, l, k).Laid? && PlaceSegment(h, l, k).layout.segments[k].sections == l.segments[k].sections
    ensures var r := PlaceSegment(h, l, k).layout;
            var s, g := r.sections[l.segments[k].sections[j]], r.segments[k];
            g.offset <= s.offset && s.offset + s.size <= g.offset + g.fileSize
  {
    hide PlaceSections, PlaceSection, InMemory, Solid;
    NestedSegment(h, l, k);
    LastEndIsLast(l.sections, l.segments[k].sections, l.sections[l.segments[k].sections[0]].offset, j,
                  |l.segments[k].sections|);
  }

  lemma {:induction false} LastEndIsLast(secs: seq<Section>, list: seq<nat>, start: nat, i: nat, j: nat)
    requires InBounds(list, |secs|) && i < j <= |list| && Occupies(secs[list[i]])
    requires forall a, b :: 0 <= a < b < |list| && Occupies(secs[list[a]]) && Occupies(secs[list[b]]) ==>
               secs[list[a]].offset + secs[list[a]].size <= secs[list[b]].offset
    ensures secs[list[i]].offset + secs[list[i]].size - start <= LastEnd(secs, list, start, j)
    decreases j
  {
    if i < j - 1 {
      LastEndIsLast(secs, list, start, i, j - 1);
    }
  }

  // Segments without sections.

  /**
   * A PT_PHDR segment without sections has the segment table as its range, from behind the header to where the
   * first section may be; any other segment without sections has an empty range at the file position.
   */
  lemma EmptySegment(h: Header, l: Layout, k: nat)
    requires Tables(l) && k < |l.segments| && l.segments[k].sections == []
    ensures PlaceSegment(h, l, k).Laid?
    ensures var r, g := PlaceSegment(h, l, k).layout, l.segments[k];
            var g' := r.segments[k];
            && r.sections == l.sections && r.pos == l.pos
            && (if g.kind == 6 then g'.offset == h.size && g'.offset + g'.fileSize == TableStart(h, l.segments)
                else g'.offset == l.pos && g'.fileSize == 0)
            && g'.memSize == if g.memSize < g'.fileSize then g'.fileSize else g.memSize
  {
  }

  // Sections outside all segments.

  /** Rounding up goes to the next multiple, and to no later one. */
  lemma RoundsUpToNext(pos: nat, align: nat)
    ensures var a := AtLeastOne(align); RoundUp(pos, align) % a == 0 && pos <= RoundUp(pos, align) < pos + a
  {
    if align > 1 && pos % align != 0 {
      Bits.RemainderUnique(pos + align - pos % align, align, pos / align + 1, 0);
    }
  }
}
