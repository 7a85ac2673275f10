/**
 * The file layout pass of the ELF writer as functions of the section and segment tables.
 * File positions are mathematical integers; addresses, segment sizes and alignment errors wrap at 64 bits.
 */
module ElfLayout {
  import opened Isa
  import opened SegmentOrder

  /** Where a section was placed: not yet, in a segment (the first that lists it), or outside all segments. */
  datatype Home = Nowhere | In(segment: nat) | Loose

  datatype Header = Header(size: nat, entrySize: nat)

  datatype Layout = Layout(sections: seq<Section>, segments: seq<Segment>, home: seq<Home>, pos: nat)

  datatype Partial = Abort | Going(layout: Layout, fileSize: nat, memSize: nat)

  datatype Attempt = Failed | Laid(layout: Layout)

  predicate InBounds(list: seq<nat>, n: nat) { forall j :: 0 <= j < |list| ==> list[j] < n }

  predicate Tables(l: Layout) {
    |l.home| == |l.sections| && forall k :: 0 <= k < |l.segments| ==> InBounds(l.segments[k].sections, |l.sections|)
  }

  function AtLeastOne(align: nat): (r: nat)
    ensures r > 0
  {
    if align > 0 then align else 1
  }

  // Placing one section of a segment.

  predicate Addressed(s: Section) { s.addressSet && Occupies(s) && s.size != 0 }

  /** The padding before the section, or -1 when the file position is already past where it must go. */
  function Gap(l: Layout, k: nat, start: nat, fileSize: nat, index: nat): (gap: int)
    requires Tables(l) && k < |l.segments| && index < |l.sections|
    ensures gap >= -1
  {
    var sec := l.sections[index];
    if l.home[index].Nowhere? then
      if Addressed(sec) then
        var required := Wrap(sec.address - l.segments[k].vaddr);
        if required < l.pos - start then -1 else required - (l.pos - start)
      else if !sec.addressSet then
        var align := AtLeastOne(sec.addrAlign);
        (align - l.pos % align) % align
      else 0
    else Wrap(sec.offset - start - fileSize)
  }

  predicate HasFlag(flags: nat, flag: nat)
    requires flag > 0
  {
    flags / flag % 2 == 1
  }

  predicate CountsInMemory(sec: Section, seg: Segment) {
    HasFlag(sec.flags, SHF_ALLOC) && !(HasFlag(sec.flags, SHF_TLS) && seg.kind != PT_TLS && sec.kind == SHT_NOBITS)
  }

  function PutAt(l: Layout, k: nat, start: nat, index: nat, at: nat): (r: Layout)
    requires Tables(l) && k < |l.segments| && index < |l.sections|
    ensures Tables(r)
  {
    var sec := l.sections[index];
    var address := if sec.addressSet then sec.address else Wrap(l.segments[k].vaddr + at - start);
    var put := sec.(address := address, addressSet := true, offset := if index != 0 then at else sec.offset);
    Layout(l.sections[index := put], l.segments, l.home[index := In(k)], if Occupies(sec) then at + sec.size else at)
  }

  function PlaceSection(l: Layout, k: nat, start: nat, fileSize: nat, memSize: nat, index: nat): (p: Partial)
    requires Tables(l) && k < |l.segments| && index < |l.sections|
    ensures p.Going? ==> Tables(p.layout) && |p.layout.sections| == |l.sections| && p.layout.segments == l.segments
  {
    var sec := l.sections[index];
    if sec.kind == SHT_NULL then
      Going(if l.home[index].Nowhere? then l.(home := l.home[index := In(k)]) else l, fileSize, memSize)
    else
      var gap := Gap(l, k, start, fileSize, index);
      if gap < 0 then Abort
      else
        Going(if l.home[index].Nowhere? then PutAt(l, k, start, index, l.pos + gap) else l,
              if Occupies(sec) then Wrap(fileSize + sec.size + gap) else fileSize,
              if CountsInMemory(sec, l.segments[k]) then Wrap(memSize + sec.size + gap) else memSize)
  }

  /** The first `j` sections of segment `k`. */
  function PlaceSections(l: Layout, k: nat, start: nat, size: nat, j: nat): (p: Partial)
    requires Tables(l) && k < |l.segments| && j <= |l.segments[k].sections|
    ensures p.Going? ==> Tables(p.layout) && |p.layout.sections| == |l.sections| && p.layout.segments == l.segments
  {
    if j == 0 then Going(l, size, size)
    else
      match PlaceSections(l, k, start, size, j - 1)
      case Abort => Abort
      case Going(before, fileSize, memSize) =>
        PlaceSection(before, k, start, fileSize, memSize, l.segments[k].sections[j - 1])
  }

  // Placing one segment.

  /** The next position congruent to the address modulo the alignment, by the source's wrapping sum. */
  function NextCongruent(pos: nat, align: nat, vaddr: nat): (at: nat) {
    var a := AtLeastOne(align);
    pos + Wrap(align + Wrap(vaddr % a - pos % a)) % a
  }

  function SegmentsOffset(h: Header, segments: nat): nat { if segments > 0 then h.size else 0 }

  predicate StartsWithNull(l: Layout, k: nat)
    requires Tables(l) && k < |l.segments|
  {
    var list := l.segments[k].sections;
    |list| > 1 && l.sections[list[0]].kind == SHT_NULL
  }

  predicate StartsFresh(l: Layout, k: nat)
    requires Tables(l) && k < |l.segments|
  {
    var list := l.segments[k].sections;
    list != [] && !StartsWithNull(l, k) && l.home[list[0]].Nowhere?
  }

  function SegmentStart(h: Header, l: Layout, k: nat): nat
    requires Tables(l) && k < |l.segments|
  {
    var seg := l.segments[k];
    if seg.kind == PT_PHDR && seg.sections == [] then SegmentsOffset(h, |l.segments|)
    else if StartsWithNull(l, k) then 0
    else if StartsFresh(l, k) then NextCongruent(l.pos, seg.align, seg.vaddr)
    else if seg.sections != [] then l.sections[seg.sections[0]].offset
    else l.pos
  }

  function InitialSize(h: Header, l: Layout, k: nat): nat
    requires Tables(l) && k < |l.segments|
  {
    var seg := l.segments[k];
    if seg.kind == PT_PHDR && seg.sections == [] then h.entrySize * |l.segments|
    else if StartsWithNull(l, k) then l.pos
    else 0
  }

  function Opened(h: Header, l: Layout, k: nat): (r: Layout)
    requires Tables(l) && k < |l.segments|
    ensures Tables(r) && r.segments == l.segments && r.sections == l.sections && r.home == l.home
  {
    l.(pos := if StartsFresh(l, k) then SegmentStart(h, l, k) else l.pos)
  }

  function Closed(l: Layout, k: nat, start: nat, fileSize: nat, memSize: nat): (r: Layout)
    requires Tables(l) && k < |l.segments|
    ensures Tables(r)
  {
    var seg := l.segments[k];
    l.(segments := l.segments[k := seg.(
         fileSize := fileSize, memSize := if seg.memSize < memSize then memSize else seg.memSize,
         offset := start, offsetSet := true)])
  }

  function PlaceSegment(h: Header, l: Layout, k: nat): (r: Attempt)
    requires Tables(l) && k < |l.segments|
    ensures r.Laid? ==>
              Tables(r.layout) && |r.layout.sections| == |l.sections| && |r.layout.segments| == |l.segments|
  {
    var start := SegmentStart(h, l, k);
    match PlaceSections(Opened(h, l, k), k, start, InitialSize(h, l, k), |l.segments[k].sections|)
    case Abort => Failed
    case Going(after, fileSize, memSize) => Laid(Closed(after, k, start, fileSize, memSize))
  }

  /** The first `n` segments of the order. */
  function PlaceSegments(h: Header, l: Layout, order: seq<nat>, n: nat): (r: Attempt)
    requires Tables(l) && InRange(l.segments, order) && n <= |order|
    ensures r.Laid? ==>
              Tables(r.layout) && |r.layout.sections| == |l.sections| && |r.layout.segments| == |l.segments|
  {
    if n == 0 then Laid(l)
    else
      match PlaceSegments(h, l, order, n - 1)
      case Failed => Failed
      case Laid(before) => PlaceSegment(h, before, order[n - 1])
  }

  // Placing the sections that no segment lists.

  predicate Unlisted(segs: seq<Segment>, index: nat) { forall k :: 0 <= k < |segs| ==> index !in segs[k].sections }

  function RoundUp(pos: nat, align: nat): (r: nat)
    ensures r >= pos
  {
    if align > 1 && pos % align != 0 then pos + align - pos % align else pos
  }

  function PlaceLoose(l: Layout, index: nat): (r: Layout)
    requires Tables(l) && index < |l.sections|
    ensures Tables(r) && |r.sections| == |l.sections| && r.segments == l.segments
  {
    if !Unlisted(l.segments, index) then l
    else
      var sec := l.sections[index];
      var at := RoundUp(l.pos, sec.addrAlign);
      Layout(l.sections[index := if index != 0 then sec.(offset := at) else sec], l.segments,
             l.home[index := Loose], if Occupies(sec) then at + sec.size else at)
  }

  /** The sections below `n`. */
  function PlaceRest(l: Layout, n: nat): (r: Layout)
    requires Tables(l) && n <= |l.sections|
    ensures Tables(r) && |r.sections| == |l.sections| && r.segments == l.segments
  {
    if n == 0 then l else PlaceLoose(PlaceRest(l, n - 1), n - 1)
  }

  function TableStart(h: Header, segs: seq<Segment>): nat { h.size + h.entrySize * |segs| }

  function Blank(h: Header, secs: seq<Section>, segs: seq<Segment>): (l: Layout)
    ensures |l.home| == |secs| && forall i :: 0 <= i < |secs| ==> l.home[i].Nowhere?
  {
    Layout(secs, segs, seq(|secs|, i => Nowhere), TableStart(h, segs))
  }

  // What a layout keeps.

  predicate Apart(a: Section, b: Section) { a.offset + a.size <= b.offset || b.offset + b.size <= a.offset }

  /** The section has been placed and takes up file bytes. */
  predicate Takes(l: Layout, i: nat)
    requires Tables(l) && i < |l.sections|
  {
    !l.home[i].Nowhere? && Occupies(l.sections[i])
  }

  predicate Behind(l: Layout, i: nat, base: nat)
    requires Tables(l) && i < |l.sections|
  {
    && (!l.home[i].Nowhere? && l.sections[i].kind != SHT_NULL ==> l.sections[i].offset <= l.pos)
    && (Takes(l, i) ==> base <= l.sections[i].offset && l.sections[i].offset + l.sections[i].size <= l.pos)
  }

  /** Every placed section lies between `base` and the file position, and those that take up space do not overlap. */
  predicate Disjoint(l: Layout, base: nat)
    requires Tables(l)
  {
    && base <= l.pos
    && (forall i :: 0 <= i < |l.sections| ==> Behind(l, i, base))
    && (forall i, j :: 0 <= i < j < |l.sections| && Takes(l, i) && Takes(l, j) ==> Apart(l.sections[i], l.sections[j]))
  }

  predicate Keeps(o: Section, s: Section) {
    && s.kind == o.kind && s.flags == o.flags && s.size == o.size && s.addrAlign == o.addrAlign
    && (o.addressSet ==> s.addressSet && s.address == o.address)
  }

  /**
   * What placing a section in segment `g` promises: an address that the section brought along is kept,
   * and its distance from the segment's address is its distance from the segment's offset; a section
   * that brought none is aligned and given the address that corresponds to its offset.
   */
  predicate Meets(o: Section, s: Section, g: Segment) {
    && Keeps(o, s)
    && (o.kind == SHT_NULL ==> s == o)
    && (Addressed(o) ==> s.offset - g.offset == Wrap(s.address - g.vaddr))
    && (o.kind != SHT_NULL && !o.addressSet ==>
          s.offset % AtLeastOne(s.addrAlign) == 0 && s.addressSet && s.address == Wrap(g.vaddr + s.offset - g.offset))
  }

  predicate Settled(orig: seq<Section>, l: Layout, i: nat)
    requires Tables(l) && |orig| == |l.sections| && i < |orig|
  {
    match l.home[i]
    case Nowhere => l.sections[i] == orig[i]
    case In(k) => k < |l.segments| && i in l.segments[k].sections && Meets(orig[i], l.sections[i], l.segments[k])
    case Loose =>
      Unlisted(l.segments, i) && Keeps(orig[i], l.sections[i]) &&
      (i != 0 ==> l.sections[i].offset % AtLeastOne(l.sections[i].addrAlign) == 0)
  }

  predicate AllSettled(orig: seq<Section>, l: Layout)
    requires Tables(l)
  {
    |orig| == |l.sections| && forall i :: 0 <= i < |orig| ==> Settled(orig, l, i)
  }

  /** Only sections without a home get one, and it is segment `k`. */
  predicate Grows(before: seq<Home>, after: seq<Home>, k: nat) {
    |before| == |after| &&
    forall i :: 0 <= i < |before| ==> after[i] == before[i] || (before[i].Nowhere? && after[i] == In(k))
  }

  lemma GrowsOn(a: seq<Home>, b: seq<Home>, c: seq<Home>, k: nat)
    requires Grows(a, b, k) && Grows(b, c, k)
    ensures Grows(a, c, k)
  {
  }

  /** No section has bytes at a fixed address. */
  predicate Unaddressed(secs: seq<Section>) { forall i :: 0 <= i < |secs| ==> !Addressed(secs[i]) }

  // One section.

  lemma ModuloShift(x: nat, align: nat)
    requires align > 0
    ensures (x + (align - x % align) % align) % align == 0
  {
    var q, r := x / align, x % align;
    if r == 0 {
      assert (align - r) % align == 0;
    } else {
      Bits.RemainderUnique(align - r, align, 0, align - r);
      Bits.RemainderUnique(x + align - r, align, q + 1, 0);
    }
  }

  lemma PutSettles(l: Layout, k: nat, start: nat, fileSize: nat, index: nat, g: Segment)
    requires Tables(l) && k < |l.segments| && index < |l.sections|
    requires l.home[index].Nowhere? && l.sections[index].kind != SHT_NULL && index != 0
    requires g.vaddr == l.segments[k].vaddr && g.offset == start
    ensures var gap := Gap(l, k, start, fileSize, index);
            gap >= 0 ==>
              var s := PutAt(l, k, start, index, l.pos + gap).sections[index];
              Meets(l.sections[index], s, g) && s.offset == l.pos + gap
  {
    var sec := l.sections[index];
    ModuloShift(l.pos, AtLeastOne(sec.addrAlign));
  }

  /** Appending a section at or after the file position overlaps nothing. */
  lemma PutIsDisjoint(l: Layout, k: nat, start: nat, index: nat, at: nat, base: nat)
    requires Tables(l) && k < |l.segments| && index < |l.sections|
    requires Disjoint(l, base) && l.pos <= at && index != 0
    ensures Disjoint(PutAt(l, k, start, index, at), base)
  {
    var r := PutAt(l, k, start, index, at);
    forall i | 0 <= i < |r.sections| ensures Behind(r, i, base) {
      assert Behind(l, i, base);
    }
    forall i, j | 0 <= i < j < |r.sections| && Takes(r, i) && Takes(r, j)
      ensures Apart(r.sections[i], r.sections[j])
    {
      assert Behind(l, i, base) && Behind(l, j, base);
      assert i != index ==> Takes(l, i);
      assert j != index ==> Takes(l, j);
    }
  }

  predicate Rooted(l: Layout) { l.sections != [] && l.sections[0].kind == SHT_NULL }

  /** The layout as seen once segment `k` has its offset. */
  function Seen(l: Layout, k: nat, start: nat): (r: Layout)
    requires Tables(l) && k < |l.segments|
    ensures Tables(r)
  {
    l.(segments := l.segments[k := l.segments[k].(offset := start)])
  }

  lemma SettledAfterPut(orig: seq<Section>, l: Layout, r: Layout, k: nat, start: nat, index: nat, i: nat)
    requires Tables(l) && Tables(r) && k < |l.segments| && |orig| == |l.sections| == |r.sections|
    requires index < |orig| && i < |orig| && r.segments == l.segments
    requires Settled(orig, Seen(l, k, start), i)
    requires i != index ==> r.sections[i] == l.sections[i] && r.home[i] == l.home[i]
    requires i == index ==>
               index in l.segments[k].sections && r.home[i] == In(k) &&
               Meets(orig[i], r.sections[i], Seen(l, k, start).segments[k])
    ensures Settled(orig, Seen(r, k, start), i)
  {
  }

  /** One section keeps everything that was settled and settles itself. */
  lemma PlaceSectionSettles(
      orig: seq<Section>, l: Layout, k: nat, start: nat, fileSize: nat, memSize: nat, index: nat, base: nat)
    requires Tables(l) && k < |l.segments| && index in l.segments[k].sections && index < |l.sections|
    requires Rooted(l) && Disjoint(l, base) && AllSettled(orig, Seen(l, k, start))
    ensures Unaddressed(orig) ==> PlaceSection(l, k, start, fileSize, memSize, index).Going?
    ensures var p := PlaceSection(l, k, start, fileSize, memSize, index);
            p.Going? ==>
              && Disjoint(p.layout, base) && AllSettled(orig, Seen(p.layout, k, start)) && Rooted(p.layout)
              && Grows(l.home, p.layout.home, k) && !p.layout.home[index].Nowhere?
  {
    hide Meets, Disjoint, PutAt, Gap;
    var p := PlaceSection(l, k, start, fileSize, memSize, index);
    assert Settled(orig, Seen(l, k, start), index);
    assert Unaddressed(orig) ==> Gap(l, k, start, fileSize, index) >= 0 by { UnaddressedGap(orig, l, k, start,
           fileSize, index); }
    if p.Going? && l.home[index].Nowhere? {
      if l.sections[index].kind == SHT_NULL {
        NullIsDisjoint(l, k, index, base);
        NullMeets(l.sections[index], Seen(l, k, start).segments[k]);
      } else {
        var gap := Gap(l, k, start, fileSize, index);
        PutSettles(l, k, start, fileSize, index, Seen(l, k, start).segments[k]);
        PutIsDisjoint(l, k, start, index, l.pos + gap, base);
        PutChanges(l, k, start, index, l.pos + gap);
      }
      forall i | 0 <= i < |orig| ensures Settled(orig, Seen(p.layout, k, start), i) {
        SettledAfterPut(orig, l, p.layout, k, start, index, i);
      }
    }
  }

  /** Only a section with an address of its own can make the pass give up. */
  lemma UnaddressedGap(orig: seq<Section>, l: Layout, k: nat, start: nat, fileSize: nat, index: nat)
    requires Tables(l) && k < |l.segments| && index < |l.sections| && AllSettled(orig, Seen(l, k, start))
    ensures Unaddressed(orig) ==> Gap(l, k, start, fileSize, index) >= 0
  {
    assert Settled(orig, Seen(l, k, start), index);
  }

  lemma NullMeets(s: Section, g: Segment)
    requires s.kind == SHT_NULL
    ensures Meets(s, s, g)
  {
  }

  lemma NullIsDisjoint(l: Layout, k: nat, index: nat, base: nat)
    requires Tables(l) && index < |l.sections| && l.sections[index].kind == SHT_NULL && Disjoint(l, base)
    ensures Disjoint(l.(home := l.home[index := In(k)]), base)
  {
    var r := l.(home := l.home[index := In(k)]);
    forall i | 0 <= i < |r.sections| ensures Behind(r, i, base) && (Takes(r, i) ==> Takes(l, i)) {
      assert Behind(l, i, base);
    }
  }

  lemma PutChanges(l: Layout, k: nat, start: nat, index: nat, at: nat)
    requires Tables(l) && k < |l.segments| && index < |l.sections|
    ensures var r := PutAt(l, k, start, index, at);
            && |r.sections| == |l.sections| && r.segments == l.segments && r.home == l.home[index := In(k)]
            && r.sections[index].kind == l.sections[index].kind
            && forall i :: 0 <= i < |l.sections| && i != index ==> r.sections[i] == l.sections[i]
  {
  }

  // One segment.

  predicate AllHomed(l: Layout, list: seq<nat>)
    requires Tables(l) && InBounds(list, |l.sections|)
  {
    forall j :: 0 <= j < |list| ==> !l.home[list[j]].Nowhere?
  }

  lemma {:induction false} PlaceSectionsSettle(
      orig: seq<Section>, l: Layout, k: nat, start: nat, size: nat, j: nat, base: nat)
    requires Tables(l) && k < |l.segments| && j <= |l.segments[k].sections|
    requires Rooted(l) && Disjoint(l, base) && AllSettled(orig, Seen(l, k, start))
    ensures Unaddressed(orig) ==> PlaceSections(l, k, start, size, j).Going?
    ensures var p := PlaceSections(l, k, start, size, j);
            p.Going? ==>
              && Disjoint(p.layout, base) && AllSettled(orig, Seen(p.layout, k, start)) && Rooted(p.layout)
              && Grows(l.home, p.layout.home, k) && AllHomed(p.layout, l.segments[k].sections[..j])
  {
    hide Disjoint, AllSettled, PlaceSection, Rooted, Unaddressed;
    if j > 0 {
      PlaceSectionsSettle(orig, l, k, start, size, j - 1, base);
      var q := PlaceSections(l, k, start, size, j - 1);
      if q.Going? {
        var list := l.segments[k].sections;
        PlaceSectionSettles(orig, q.layout, k, start, q.fileSize, q.memSize, list[j - 1], base);
        var p := PlaceSections(l, k, start, size, j);
        if p.Going? {
          GrowsOn(l.home, q.layout.home, p.layout.home, k);
          forall i | 0 <= i < j ensures !p.layout.home[list[..j][i]].Nowhere? {
            if i < j - 1 {
              assert list[..j - 1][i] == list[..j][i];
            }
          }
        }
      }
    }
  }

  /** 2^63 is the largest power of two a 64-bit alignment field holds. */
  const MAX_ALIGN := 0x8000_0000_0000_0000

  predicate AlignsFit(segs: seq<Segment>) { forall k :: 0 <= k < |segs| ==> segs[k].align <= MAX_ALIGN }

  lemma StepUp(pos: nat, a: nat, want: nat)
    requires 0 < a && want < a
    ensures var at := pos + (a + want - pos % a) % a;
            at % a == want && pos <= at < pos + a
  {
    var have := pos % a;
    if want >= have {
      Bits.RemainderUnique(a + want - have, a, 1, want - have);
      Bits.RemainderUnique(pos + (want - have), a, pos / a, want);
    } else {
      Bits.RemainderUnique(a + want - have, a, 0, a + want - have);
      Bits.RemainderUnique(pos + (a + want - have), a, pos / a + 1, want);
    }
  }

  /** Both wrapping sums cancel out. */
  lemma WrapsCancel(a: nat, want: nat, have: nat)
    requires want < a <= MAX_ALIGN && have < a
    ensures Wrap(a + Wrap(want - have)) == a + want - have
  {
    if want >= have {
      assert Wrap(want - have) == want - have;
    } else {
      assert Wrap(want - have) == U64 + want - have;
    }
  }

  lemma NextCongruentUnwrapped(pos: nat, align: nat, vaddr: nat)
    requires align <= MAX_ALIGN
    ensures NextCongruent(pos, align, vaddr) == if align == 0 then pos
            else pos + (align + vaddr % align - pos % align) % align
  {
    if align > 0 {
      WrapsCancel(align, vaddr % align, pos % align);
    }
    hide Wrap;
  }

  lemma NextCongruentIsCongruent(pos: nat, align: nat, vaddr: nat)
    requires align <= MAX_ALIGN
    ensures var at := NextCongruent(pos, align, vaddr);
            at % AtLeastOne(align) == vaddr % AtLeastOne(align) && pos <= at < pos + AtLeastOne(align)
  {
    hide NextCongruent, Wrap;
    NextCongruentUnwrapped(pos, align, vaddr);
    if align > 0 {
      StepUp(pos, align, vaddr % align);
    }
  }

  /** Segment `k` was the first to place its first section, so its start was chosen freely. */
  predicate ChoseStart(l: Layout, k: nat)
    requires Tables(l) && k < |l.segments|
  {
    var list := l.segments[k].sections;
    list != [] && !StartsWithNull(l, k) && l.home[list[0]] == In(k)
  }

  /** All sections of the segment are placed, and a freely chosen start agrees with the virtual address. */
  predicate Finished(l: Layout, k: nat)
    requires Tables(l) && k < |l.segments|
  {
    var seg := l.segments[k];
    && AllHomed(l, seg.sections)
    && (ChoseStart(l, k) ==> seg.offset % AtLeastOne(seg.align) == seg.vaddr % AtLeastOne(seg.align))
  }

  predicate NotYet(home: seq<Home>, k: nat) { forall i :: 0 <= i < |home| ==> home[i] != In(k) }

  lemma OpenedIsSound(h: Header, orig: seq<Section>, l: Layout, k: nat, start: nat, base: nat)
    requires Tables(l) && k < |l.segments| && l.segments[k].align <= MAX_ALIGN
    requires Disjoint(l, base) && AllSettled(orig, l) && NotYet(l.home, k)
    ensures Disjoint(Opened(h, l, k), base) && AllSettled(orig, Seen(Opened(h, l, k), k, start))
  {
    var o := Opened(h, l, k);
    NextCongruentIsCongruent(l.pos, l.segments[k].align, l.segments[k].vaddr);
    hide NextCongruent;
    LaterIsDisjoint(l, o.pos, base);
    forall i | 0 <= i < |orig| ensures Settled(orig, Seen(o, k, start), i) {
      SettledUnderOffset(orig, l, Seen(o, k, start), k, i);
    }
  }

  lemma LaterIsDisjoint(l: Layout, pos: nat, base: nat)
    requires Tables(l) && Disjoint(l, base) && l.pos <= pos
    ensures Disjoint(l.(pos := pos), base)
  {
    var r := l.(pos := pos);
    forall i | 0 <= i < |r.sections| ensures Behind(r, i, base) && Takes(r, i) == Takes(l, i) {
      assert Behind(l, i, base);
    }
  }

  lemma SettledUnderOffset(orig: seq<Section>, l: Layout, r: Layout, k: nat, i: nat)
    requires Tables(l) && Tables(r) && |orig| == |l.sections| && i < |orig| && Settled(orig, l, i)
    requires r.sections == l.sections && r.home == l.home && |r.segments| == |l.segments| && l.home[i] != In(k)
    requires forall m :: 0 <= m < |r.segments| ==> r.segments[m].sections == l.segments[m].sections
    requires forall m :: 0 <= m < |r.segments| && m != k ==> r.segments[m] == l.segments[m]
    ensures Settled(orig, r, i)
  {
  }

  lemma ClosedIsSound(orig: seq<Section>, l: Layout, k: nat, start: nat, fileSize: nat, memSize: nat, base: nat)
    requires Tables(l) && k < |l.segments| && Disjoint(l, base) && AllSettled(orig, Seen(l, k, start))
    ensures Disjoint(Closed(l, k, start, fileSize, memSize), base)
    ensures AllSettled(orig, Closed(l, k, start, fileSize, memSize))
  {
    var c, s := Closed(l, k, start, fileSize, memSize), Seen(l, k, start);
    assert forall m :: 0 <= m < |c.segments| ==> c.segments[m].sections == s.segments[m].sections;
    forall i | 0 <= i < |orig| ensures Settled(orig, c, i) {
      assert Settled(orig, s, i);
    }
    forall i | 0 <= i < |c.sections| ensures Behind(c, i, base) && Takes(c, i) == Takes(l, i) {
      assert Behind(l, i, base);
    }
  }

  /** What later segments leave alone. */
  predicate Extends(l: Layout, r: Layout, k: nat)
    requires Tables(l) && Tables(r)
  {
    && Grows(l.home, r.home, k) && |r.segments| == |l.segments|
    && (forall m :: 0 <= m < |l.segments| && m != k ==> r.segments[m] == l.segments[m])
    && (forall i :: 0 <= i < |l.sections| ==> r.sections[i].kind == l.sections[i].kind)
  }

  lemma KindsKept(orig: seq<Section>, l: Layout)
    requires Tables(l) && AllSettled(orig, l)
    ensures forall i :: 0 <= i < |orig| ==> l.sections[i].kind == orig[i].kind
  {
    forall i | 0 <= i < |orig| ensures l.sections[i].kind == orig[i].kind {
      assert Settled(orig, l, i);
    }
  }

  lemma PlaceSegmentIsSound(h: Header, orig: seq<Section>, l: Layout, k: nat, base: nat)
    requires Tables(l) && k < |l.segments| && l.segments[k].align <= MAX_ALIGN
    requires Rooted(l) && Disjoint(l, base) && AllSettled(orig, l) && NotYet(l.home, k)
    ensures Unaddressed(orig) ==> PlaceSegment(h, l, k).Laid?
    ensures var r := PlaceSegment(h, l, k);
            r.Laid? ==>
              && Rooted(r.layout) && Disjoint(r.layout, base) && AllSettled(orig, r.layout)
              && Extends(l, r.layout, k) && Finished(r.layout, k)
              && r.layout.segments[k].align == l.segments[k].align
              && r.layout.segments[k].sections == l.segments[k].sections
  {
    hide Disjoint, AllSettled, PlaceSections, Grows, NextCongruent, AllHomed, NotYet, Unaddressed;
    var start, list := SegmentStart(h, l, k), l.segments[k].sections;
    var o, size := Opened(h, l, k), InitialSize(h, l, k);
    OpenedIsSound(h, orig, l, k, start, base);
    PlaceSectionsSettle(orig, o, k, start, size, |list|, base);
    var p := PlaceSections(o, k, start, size, |list|);
    if p.Going? {
      ClosedIsSound(orig, p.layout, k, start, p.fileSize, p.memSize, base);
      var r := PlaceSegment(h, l, k).layout;
      KindsKept(orig, l);
      KindsKept(orig, r);
      assert list[..|list|] == list;
      AllHomedAfterClose(p.layout, r, list);
      StartAgrees(h, l, r, k, start);
    }
  }

  lemma AllHomedAfterClose(l: Layout, r: Layout, list: seq<nat>)
    requires Tables(l) && Tables(r) && InBounds(list, |l.sections|) && InBounds(list, |r.sections|)
    requires l.home == r.home && AllHomed(l, list)
    ensures AllHomed(r, list)
  {
  }

  lemma StartAgrees(h: Header, l: Layout, r: Layout, k: nat, start: nat)
    requires Tables(l) && Tables(r) && k < |l.segments| && l.segments[k].align <= MAX_ALIGN
    requires NotYet(l.home, k) && Extends(l, r, k) && start == SegmentStart(h, l, k)
    requires var seg, was := r.segments[k], l.segments[k];
             seg.sections == was.sections && seg.align == was.align && seg.vaddr == was.vaddr && seg.offset == start
    ensures ChoseStart(r, k) ==>
              r.segments[k].offset % AtLeastOne(r.segments[k].align) ==
              r.segments[k].vaddr % AtLeastOne(r.segments[k].align)
  {
    NextCongruentIsCongruent(l.pos, l.segments[k].align, l.segments[k].vaddr);
    if ChoseStart(r, k) {
      assert l.home[l.segments[k].sections[0]].Nowhere?;
      assert StartsFresh(l, k);
    }
  }

  /** Where a section remains to be placed the segment does not start past the file position. */
  lemma StartIsBehind(h: Header, l: Layout, k: nat, j: nat, base: nat)
    requires Tables(l) && k < |l.segments| && l.segments[k].align <= MAX_ALIGN
    requires Disjoint(l, base) && j < |l.segments[k].sections| && l.sections[l.segments[k].sections[j]].kind != SHT_NULL
    ensures SegmentStart(h, l, k) <= Opened(h, l, k).pos
  {
    assert Behind(l, l.segments[k].sections[0], base);
    hide NextCongruent;
  }

  // All segments.

  predicate Distinct(order: seq<nat>) { forall a, b :: 0 <= a < b < |order| ==> order[a] != order[b] }

  /** Every home is a segment already handled. */
  predicate HomesAmong(home: seq<Home>, handled: seq<nat>) {
    forall i :: 0 <= i < |home| ==> match home[i] case In(k) => k in handled case Nowhere => true case Loose => false
  }

  predicate Aligns(l: Layout, segs: seq<Segment>)
    requires |l.segments| == |segs|
  {
    forall k :: 0 <= k < |segs| ==> l.segments[k].align == segs[k].align && l.segments[k].sections == segs[k].sections
  }

  lemma StaysFinished(l: Layout, r: Layout, k: nat, m: nat)
    requires Tables(l) && Tables(r) && k < |l.segments| && m < |l.segments| && m != k
    requires Extends(l, r, k) && Finished(l, m)
    ensures Finished(r, m)
  {
    var list := l.segments[m].sections;
    forall j | 0 <= j < |list| ensures r.home[list[j]] == l.home[list[j]] {
    }
  }

  lemma FreshOf(order: seq<nat>, n: nat, home: seq<Home>)
    requires Distinct(order) && n < |order| && HomesAmong(home, order[..n])
    ensures NotYet(home, order[n])
  {
  }

  lemma HomesGrow(before: seq<Home>, after: seq<Home>, order: seq<nat>, n: nat)
    requires n < |order| && HomesAmong(before, order[..n]) && Grows(before, after, order[n])
    ensures HomesAmong(after, order[..n + 1])
  {
    assert order[..n + 1] == order[..n] + [order[n]];
  }

  predicate AllFinished(l: Layout, handled: seq<nat>)
    requires Tables(l) && InRange(l.segments, handled)
  {
    forall m :: 0 <= m < |handled| ==> Finished(l, handled[m])
  }

  lemma FinishedGrows(l: Layout, r: Layout, order: seq<nat>, n: nat)
    requires Tables(l) && Tables(r) && InRange(l.segments, order) && InRange(r.segments, order) && n < |order|
    requires Distinct(order) && Extends(l, r, order[n]) && AllFinished(l, order[..n]) && Finished(r, order[n])
    ensures AllFinished(r, order[..n + 1])
  {
    hide Extends, Finished;
    var handled := order[..n + 1];
    forall m | 0 <= m < |handled| ensures Finished(r, handled[m]) {
      if m < n {
        assert order[..n][m] == order[m] == handled[m];
        StaysFinished(l, r, order[n], order[m]);
      }
    }
  }

  /** A section's home is the first segment in the order that lists it. */
  predicate FirstHomes(l: Layout, handled: seq<nat>)
    requires Tables(l) && InRange(l.segments, handled)
  {
    forall i, a, b :: 0 <= i < |l.home| && 0 <= a < b < |handled| && l.home[i] == In(handled[b]) ==>
      i !in l.segments[handled[a]].sections
  }

  lemma HomedMember(l: Layout, list: seq<nat>, i: nat)
    requires Tables(l) && InBounds(list, |l.sections|) && AllHomed(l, list) && i < |l.sections|
    ensures i in list ==> !l.home[i].Nowhere?
  {
  }

  lemma FirstHomesGrow(l: Layout, r: Layout, order: seq<nat>, n: nat)
    requires Tables(l) && Tables(r) && InRange(l.segments, order) && InRange(r.segments, order) && n < |order|
    requires Distinct(order) && Extends(l, r, order[n]) && AllFinished(l, order[..n]) && FirstHomes(l, order[..n])
    requires NotYet(l.home, order[n])
    ensures FirstHomes(r, order[..n + 1])
  {
    var was, handled := order[..n], order[..n + 1];
    forall i, a, b | 0 <= i < |r.home| && 0 <= a < b < |handled| && r.home[i] == In(handled[b])
      ensures i !in r.segments[handled[a]].sections
    {
      assert was[a] == order[a] == handled[a];
      var list := l.segments[was[a]].sections;
      assert Finished(l, was[a]) && r.segments[handled[a]].sections == list;
      if b == n {
        HomedMember(l, list, i);
      } else {
        assert was[b] == order[b] == handled[b];
      }
    }
  }

  predicate SegmentsPlaced(h: Header, orig: seq<Section>, segs: seq<Segment>, l: Layout, handled: seq<nat>)
    requires Tables(l) && InRange(l.segments, handled)
  {
    && Rooted(l) && Disjoint(l, TableStart(h, segs)) && AllSettled(orig, l)
    && |l.segments| == |segs| && Aligns(l, segs) && HomesAmong(l.home, handled)
    && AllFinished(l, handled) && FirstHomes(l, handled)
  }

  lemma BlankIsPlaced(h: Header, orig: seq<Section>, segs: seq<Segment>)
    requires Tables(Blank(h, orig, segs)) && Rooted(Blank(h, orig, segs))
    ensures SegmentsPlaced(h, orig, segs, Blank(h, orig, segs), [])
  {
  }

  lemma OneMoreSegment(h: Header, orig: seq<Section>, segs: seq<Segment>, l: Layout, order: seq<nat>, n: nat)
    requires Tables(l) && InRange(l.segments, order) && Distinct(order) && AlignsFit(segs) && n < |order|
    requires SegmentsPlaced(h, orig, segs, l, order[..n])
    ensures Unaddressed(orig) ==> PlaceSegment(h, l, order[n]).Laid?
    ensures var r := PlaceSegment(h, l, order[n]);
            r.Laid? ==> SegmentsPlaced(h, orig, segs, r.layout, order[..n + 1])
  {
    hide Disjoint, AllSettled, PlaceSegment, AllFinished, Finished, HomesAmong, Distinct, Grows, FirstHomes,
         Unaddressed;
    FreshOf(order, n, l.home);
    PlaceSegmentIsSound(h, orig, l, order[n], TableStart(h, segs));
    var p := PlaceSegment(h, l, order[n]);
    if p.Laid? {
      HomesGrow(l.home, p.layout.home, order, n);
      FinishedGrows(l, p.layout, order, n);
      FirstHomesGrow(l, p.layout, order, n);
    }
  }

  lemma {:induction false} PlaceSegmentsIsSound(
      h: Header, orig: seq<Section>, segs: seq<Segment>, order: seq<nat>, n: nat)
    requires Tables(Blank(h, orig, segs)) && Rooted(Blank(h, orig, segs)) && AlignsFit(segs)
    requires InRange(segs, order) && Distinct(order) && n <= |order|
    ensures Unaddressed(orig) ==> PlaceSegments(h, Blank(h, orig, segs), order, n).Laid?
    ensures var r := PlaceSegments(h, Blank(h, orig, segs), order, n);
            r.Laid? ==> SegmentsPlaced(h, orig, segs, r.layout, order[..n])
  {
    hide SegmentsPlaced, PlaceSegment, Distinct, AlignsFit, Rooted, Unaddressed;
    if n == 0 {
      BlankIsPlaced(h, orig, segs);
    } else {
      PlaceSegmentsIsSound(h, orig, segs, order, n - 1);
      var before := PlaceSegments(h, Blank(h, orig, segs), order, n - 1);
      if before.Laid? {
        OneMoreSegment(h, orig, segs, before.layout, order, n - 1);
      }
    }
  }

  // The sections that no segment lists.

  lemma RoundUpIsAligned(pos: nat, align: nat)
    ensures RoundUp(pos, align) % AtLeastOne(align) == 0
  {
    if align > 1 && pos % align != 0 {
      Bits.RemainderUnique(pos + align - pos % align, align, pos / align + 1, 0);
    }
  }

  predicate LooseBelow(l: Layout, n: nat)
    requires Tables(l) && n <= |l.sections|
  {
    forall i :: 0 <= i < |l.sections| && Unlisted(l.segments, i) ==> l.home[i] == if i < n then Loose else Nowhere
  }

  lemma PlaceLooseIsSound(orig: seq<Section>, l: Layout, n: nat, base: nat)
    requires Tables(l) && Rooted(l) && n < |l.sections|
    requires Disjoint(l, base) && AllSettled(orig, l) && LooseBelow(l, n)
    ensures var r := PlaceLoose(l, n);
            && Rooted(r) && Disjoint(r, base) && AllSettled(orig, r) && LooseBelow(r, n + 1)
            && forall i :: 0 <= i < |l.sections| && !Unlisted(l.segments, i) ==>
                 r.home[i] == l.home[i] && r.sections[i] == l.sections[i]
  {
    hide Unlisted;
    var r := PlaceLoose(l, n);
    assert Settled(orig, l, n);
    RoundUpIsAligned(l.pos, l.sections[n].addrAlign);
    hide RoundUp;
    forall i | 0 <= i < |orig| ensures Settled(orig, r, i) {
      assert Settled(orig, l, i);
    }
    forall i | 0 <= i < |r.sections| ensures Behind(r, i, base) {
      assert Behind(l, i, base);
    }
    forall i, j | 0 <= i < j < |r.sections| && Takes(r, i) && Takes(r, j)
      ensures Apart(r.sections[i], r.sections[j])
    {
      assert Behind(l, i, base) && Behind(l, j, base);
      assert i != n ==> Takes(l, i);
      assert j != n ==> Takes(l, j);
    }
  }

  lemma {:induction false} PlaceRestIsSound(orig: seq<Section>, l: Layout, n: nat, base: nat)
    requires Tables(l) && Rooted(l) && n <= |l.sections|
    requires Disjoint(l, base) && AllSettled(orig, l) && LooseBelow(l, 0)
    ensures var r := PlaceRest(l, n);
            && Rooted(r) && Disjoint(r, base) && AllSettled(orig, r) && LooseBelow(r, n)
            && forall i :: 0 <= i < |l.sections| && !Unlisted(l.segments, i) ==>
                 r.home[i] == l.home[i] && r.sections[i] == l.sections[i]
  {
    hide Disjoint, AllSettled, PlaceLoose, LooseBelow, Rooted, Unlisted;
    if n > 0 {
      PlaceRestIsSound(orig, l, n - 1, base);
      PlaceLooseIsSound(orig, PlaceRest(l, n - 1), n - 1, base);
    }
  }

  // The whole layout.

  lemma {:induction false} IndicesOnce(n: nat, x: nat)
    ensures multiset(Indices(n))[x] == if x < n then 1 else 0
  {
    if n > 0 {
      IndicesOnce(n - 1, x);
      assert Indices(n) == Indices(n - 1) + [n - 1];
    }
  }

  lemma PermutationIsDistinct(order: seq<nat>, n: nat)
    requires multiset(order) == multiset(Indices(n))
    ensures Distinct(order) && forall k: nat :: k < n <==> k in order
  {
    forall k: nat ensures k < n <==> k in order {
      IndicesOnce(n, k);
      assert k in order <==> k in multiset(order);
    }
    forall a, b | 0 <= a < b < |order| ensures order[a] != order[b] {
      IndicesOnce(n, order[b]);
      assert order == order[..b] + [order[b]] + order[b + 1..];
      assert order[a] == order[..b][a];
    }
  }

  /** Both passes. */
  function LayOut(h: Header, secs: seq<Section>, segs: seq<Segment>, order: seq<nat>): (r: Attempt)
    requires Tables(Blank(h, secs, segs)) && InRange(segs, order)
    ensures r.Laid? ==>
              Tables(r.layout) && |r.layout.sections| == |secs| && |r.layout.segments| == |segs|
  {
    match PlaceSegments(h, Blank(h, secs, segs), order, |order|)
    case Failed => Failed
    case Laid(l) => Laid(PlaceRest(l, |secs|))
  }

  /** The inputs the layout pass is written for. */
  predicate Proper(h: Header, secs: seq<Section>, segs: seq<Segment>, order: seq<nat>) {
    && Tables(Blank(h, secs, segs)) && Rooted(Blank(h, secs, segs)) && AlignsFit(segs)
    && InRange(segs, order) && multiset(order) == multiset(Indices(|segs|))
  }

  lemma LooseAfterSegments(h: Header, orig: seq<Section>, segs: seq<Segment>, l: Layout, order: seq<nat>)
    requires Tables(l) && InRange(l.segments, order) && SegmentsPlaced(h, orig, segs, l, order)
    requires forall k: nat :: k < |l.segments| ==> k in order
    ensures LooseBelow(l, 0)
    ensures forall i :: 0 <= i < |l.home| && !Unlisted(l.segments, i) ==> l.home[i].In?
  {
    hide Disjoint, Finished, Aligns, FirstHomes;
    forall i | 0 <= i < |l.home| ensures if Unlisted(l.segments, i) then l.home[i].Nowhere? else l.home[i].In? {
      assert Settled(orig, l, i);
      if !Unlisted(l.segments, i) {
        var k: nat :| k < |l.segments| && i in l.segments[k].sections;
        assert k in order;
        var m :| 0 <= m < |order| && order[m] == k;
        assert Finished(l, order[m]);
        FinishedIsHomed(l, k);
        HomedMember(l, l.segments[k].sections, i);
      }
    }
  }

  lemma FinishedIsHomed(l: Layout, k: nat)
    requires Tables(l) && k < |l.segments| && Finished(l, k)
    ensures AllHomed(l, l.segments[k].sections)
  {
  }

  /** What both passes establish. */
  predicate LaidOut(h: Header, orig: seq<Section>, segs: seq<Segment>, l: Layout, order: seq<nat>)
    requires Tables(l) && InRange(l.segments, order)
  {
    && Disjoint(l, TableStart(h, segs)) && AllSettled(orig, l) && AllFinished(l, order) && FirstHomes(l, order)
    && |l.segments| == |segs| && Aligns(l, segs)
    && forall i :: 0 <= i < |l.home| ==> if Unlisted(l.segments, i) then l.home[i].Loose? else l.home[i].In?
  }

  lemma RestKeepsSegments(h: Header, orig: seq<Section>, segs: seq<Segment>, l: Layout, r: Layout, order: seq<nat>)
    requires Tables(l) && Tables(r) && r.segments == l.segments && |r.sections| == |l.sections|
    requires InRange(l.segments, order) && AllFinished(l, order) && FirstHomes(l, order)
    requires forall i :: 0 <= i < |l.sections| && !Unlisted(l.segments, i) ==>
               r.home[i] == l.home[i] && r.sections[i] == l.sections[i]
    requires forall i :: 0 <= i < |l.sections| && Unlisted(l.segments, i) ==> r.home[i].Loose?
    ensures AllFinished(r, order) && FirstHomes(r, order)
  {
    forall m | 0 <= m < |order| ensures Finished(r, order[m]) {
      assert Finished(l, order[m]);
      var list := l.segments[order[m]].sections;
      forall j | 0 <= j < |list| ensures r.home[list[j]] == l.home[list[j]] &&
        r.sections[list[j]] == l.sections[list[j]] {
        assert list[j] in list;
      }
    }
  }

  lemma LayoutEstablishes(h: Header, secs: seq<Section>, segs: seq<Segment>, order: seq<nat>)
    requires Proper(h, secs, segs, order)
    ensures Unaddressed(secs) ==> LayOut(h, secs, segs, order).Laid?
    ensures var r := LayOut(h, secs, segs, order);
            r.Laid? ==> LaidOut(h, secs, segs, r.layout, order)
  {
    hide Disjoint, AllSettled, PlaceSegments, PlaceRest, AllFinished, FirstHomes, Unlisted, Distinct, Unaddressed,
         AlignsFit;
    PermutationIsDistinct(order, |segs|);
    PlaceSegmentsIsSound(h, secs, segs, order, |order|);
    var r := PlaceSegments(h, Blank(h, secs, segs), order, |order|);
    if r.Laid? {
      assert order[..|order|] == order;
      LooseAfterSegments(h, secs, segs, r.layout, order);
      PlaceRestIsSound(secs, r.layout, |secs|, TableStart(h, segs));
      RestKeepsSegments(h, secs, segs, r.layout, PlaceRest(r.layout, |secs|), order);
    }
  }

  predicate HoldsByte(s: Section, p: nat) { s.kind != SHT_NOBITS && s.offset <= p < s.offset + s.size }

  predicate NullsEmpty(secs: seq<Section>) { forall i :: 0 <= i < |secs| && secs[i].kind == SHT_NULL ==>
    secs[i].size == 0 }

  /** No file byte belongs to two sections, and none to a section and to the header or segment table. */
  lemma LayoutIsDisjoint(h: Header, secs: seq<Section>, segs: seq<Segment>, order: seq<nat>, p: nat)
    requires Proper(h, secs, segs, order) && NullsEmpty(secs) && LayOut(h, secs, segs, order).Laid?
    ensures var l := LayOut(h, secs, segs, order).layout;
            && (forall i :: 0 <= i < |secs| && HoldsByte(l.sections[i], p) ==> TableStart(h, segs) <= p < l.pos)
            && (forall i, j :: 0 <= i < j < |secs| ==> !(HoldsByte(l.sections[i], p) && HoldsByte(l.sections[j], p)))
  {
    hide LayOut;
    var l := LayOut(h, secs, segs, order).layout;
    LayoutEstablishes(h, secs, segs, order);
    hide AllFinished, FirstHomes, Aligns, Unlisted;
    forall i | 0 <= i < |secs| && HoldsByte(l.sections[i], p) ensures Takes(l, i) && TableStart(h, segs) <= p < l.pos {
      assert Settled(secs, l, i) && Behind(l, i, TableStart(h, segs));
    }
  }

  /**
   * Every listed section ends up in the first segment of the order that lists it, and there its bytes lie as
   * far from the segment's offset as its address lies from the segment's address, modulo 2^64. A segment that
   * was the first to place its first section has an offset congruent to its address modulo its alignment.
   */
  lemma LayoutIsCongruent(h: Header, secs: seq<Section>, segs: seq<Segment>, order: seq<nat>, k: nat, i: nat)
    requires Proper(h, secs, segs, order) && LayOut(h, secs, segs, order).Laid?
    requires k < |segs| && i < |secs| && i in segs[k].sections
    ensures var l := LayOut(h, secs, segs, order).layout;
            && l.home[i].In? && l.home[i].segment < |segs| && i in segs[l.home[i].segment].sections
            && (forall a, b :: 0 <= a < b < |order| && order[b] == l.home[i].segment ==> i !in segs[order[a]].sections)
            && Keeps(secs[i], l.sections[i])
            && (var s, g := l.sections[i], l.segments[l.home[i].segment];
                Addressed(secs[i]) || (s.kind != SHT_NULL && !secs[i].addressSet) ==>
                  s.addressSet && Wrap(s.address - g.vaddr) == Wrap(s.offset - g.offset))
            && (ChoseStart(l, k) ==>
                  l.segments[k].offset % AtLeastOne(segs[k].align) == l.segments[k].vaddr % AtLeastOne(segs[k].align))
  {
    hide LayOut;
    var l := LayOut(h, secs, segs, order).layout;
    LayoutEstablishes(h, secs, segs, order);
    PermutationIsDistinct(order, |segs|);
    hide Disjoint;
    assert Settled(secs, l, i);
    assert l.segments[k].sections == segs[k].sections;
    assert k in order;
    var m :| 0 <= m < |order| && order[m] == k;
    assert Finished(l, order[m]);
    forall a, b | 0 <= a < b < |order| && order[b] == l.home[i].segment ensures i !in segs[order[a]].sections {
      assert l.segments[order[a]].sections == segs[order[a]].sections;
    }
    if !secs[i].addressSet && l.sections[i].kind != SHT_NULL {
      var s, g := l.sections[i], l.segments[l.home[i].segment];
      WrapDistance(g.vaddr, s.offset - g.offset);
    }
  }

  lemma WrapDistance(base: nat, d: int)
    ensures Wrap(Wrap(base + d) - base) == Wrap(d)
  {
    var q := (base + d) / U64;
    assert Wrap(base + d) == base + d - q * U64;
    assert (d - q * U64) % U64 == d % U64;
  }

  // The file size of a segment.

  /** Still to be placed; a NULL section never is. */
  predicate Unplaced(l: Layout, index: nat)
    requires Tables(l) && index < |l.sections|
  {
    l.home[index].Nowhere? || l.sections[index].kind == SHT_NULL
  }

  /** None of the list's sections is placed yet, and none is listed twice. */
  predicate AllNew(l: Layout, list: seq<nat>)
    requires Tables(l) && InBounds(list, |l.sections|)
  {
    Distinct(list) && forall j :: 0 <= j < |list| ==> Unplaced(l, list[j])
  }

  /** The segment is placed at the file position: it begins there, or at 0 with all that is before it. */
  predicate StartsAtEnd(l: Layout, k: nat)
    requires Tables(l) && k < |l.segments|
  {
    StartsFresh(l, k) || (StartsWithNull(l, k) && l.pos < U64)
  }

  /** Where its sections begin. */
  function From(h: Header, l: Layout, k: nat): nat
    requires Tables(l) && k < |l.segments|
  {
    Opened(h, l, k).pos
  }

  /** The section has bytes in the file. */
  predicate Data(s: Section) { Occupies(s) && s.size > 0 }

  /** Where the first j listed sections end, as their offsets and sizes say. */
  function EndAt(secs: seq<Section>, list: seq<nat>, start: nat, j: nat): nat
    requires InBounds(list, |secs|) && j <= |list|
  {
    if j == 0 then start
    else
      var s := secs[list[j - 1]];
      if s.kind == SHT_NULL then EndAt(secs, list, start, j - 1) else if Occupies(s) then s.offset + s.size
        else s.offset
  }

  /** The room left free in front of the section listed at j. */
  function PaddingAt(secs: seq<Section>, list: seq<nat>, start: nat, j: nat): int
    requires InBounds(list, |secs|) && j < |list|
  {
    var s := secs[list[j]];
    if s.kind == SHT_NULL then 0 else s.offset - EndAt(secs, list, start, j)
  }

  /** The padding in front of sections without file bytes among the first j. */
  function Uncounted(secs: seq<Section>, list: seq<nat>, start: nat, j: nat): int
    requires InBounds(list, |secs|) && j <= |list|
  {
    if j == 0 then 0
    else
      Uncounted(secs, list, start, j - 1) +
      if secs[list[j - 1]].kind == SHT_NOBITS then PaddingAt(secs, list, start, j - 1) else 0
  }

  /** The padding in front of sections that count for the file size, from i on, up to j. */
  function Counted(secs: seq<Section>, list: seq<nat>, start: nat, i: nat, j: nat): int
    requires InBounds(list, |secs|) && i <= j <= |list|
  {
    if i == j then 0
    else
      Counted(secs, list, start, i, j - 1) +
      if secs[list[j - 1]].kind != SHT_NOBITS then PaddingAt(secs, list, start, j - 1) else 0
  }

  lemma {:induction false} SameEnds(secs: seq<Section>, secs': seq<Section>, list: seq<nat>, start: nat, j: nat)
    requires InBounds(list, |secs|) && |secs'| == |secs| && j <= |list|
    requires forall i :: 0 <= i < j ==> secs'[list[i]] == secs[list[i]]
    ensures EndAt(secs', list, start, j) == EndAt(secs, list, start, j)
    ensures Uncounted(secs', list, start, j) == Uncounted(secs, list, start, j)
    ensures forall i :: 0 <= i < j ==> PaddingAt(secs', list, start, i) == PaddingAt(secs, list, start, i)
  {
    if j > 0 {
      SameEnds(secs, secs', list, start, j - 1);
    }
  }

  lemma WrapStep(x: int, a: nat, b: nat)
    ensures Wrap(Wrap(x) + a + b) == Wrap(x + a + b)
  {
  }

  /** Placing one new section, with `extent` the unwrapped file size. */
  lemma FileSizeStep(l: Layout, k: nat, start: nat, memSize: nat, index: nat, extent: int)
    requires Tables(l) && k < |l.segments| && index < |l.sections| && Unplaced(l, index)
    requires l.sections[index].kind == SHT_NULL || index != 0
    ensures var p := PlaceSection(l, k, start, Wrap(extent), memSize, index);
            p.Going? ==>
              var s, s' := l.sections[index], p.layout.sections[index];
              && s'.kind == s.kind && s'.size == s.size
              && (s.kind == SHT_NULL ==> p.layout.pos == l.pos && p.fileSize == Wrap(extent))
              && (s.kind != SHT_NULL ==>
                    && s'.offset >= l.pos && p.layout.pos == s'.offset + (if Occupies(s) then s.size else 0)
                    && p.fileSize == Wrap(extent + if Occupies(s) then p.layout.pos - l.pos else 0))
              && (s.kind == SHT_NOBITS && (s.addressSet || s.addrAlign <= 1) ==> s'.offset == l.pos)
  {
    var gap := Gap(l, k, start, Wrap(extent), index);
    if gap >= 0 {
      WrapStep(extent, l.sections[index].size, gap);
    }
    hide Wrap;
  }

  lemma PlaceSectionIsLocal(l: Layout, k: nat, start: nat, fileSize: nat, memSize: nat, index: nat)
    requires Tables(l) && k < |l.segments| && index < |l.sections|
    ensures var p := PlaceSection(l, k, start, fileSize, memSize, index);
            p.Going? ==>
              forall i :: 0 <= i < |l.home| && i != index ==>
                p.layout.home[i] == l.home[i] && p.layout.sections[i] == l.sections[i]
  {
  }

  lemma NoSections(l: Layout, k: nat, start: nat, size: nat)
    requires Tables(l) && k < |l.segments|
    ensures PlaceSections(l, k, start, size, 0) == Going(l, size, size)
  {
  }

  lemma OneMoreSection(l: Layout, k: nat, start: nat, size: nat, j: nat)
    requires Tables(l) && k < |l.segments| && 0 < j <= |l.segments[k].sections|
    ensures PlaceSections(l, k, start, size, j) ==
            match PlaceSections(l, k, start, size, j - 1)
            case Abort => Abort
            case Going(q, f, m) => PlaceSection(q, k, start, f, m, l.segments[k].sections[j - 1])
  {
  }

  /** After j new sections: the position is where they end, and the file size leaves out the uncounted padding. */
  predicate Measured(l: Layout, list: seq<nat>, from: nat, start: nat, j: nat, now: Layout, fileSize: nat)
    requires Tables(l) && Tables(now) && InBounds(list, |l.sections|) && |now.sections| == |l.sections| && j <= |list|
  {
    && now.pos == EndAt(now.sections, list, from, j)
    && fileSize == Wrap(now.pos - start - Uncounted(now.sections, list, from, j))
    && (forall i :: 0 <= i < j ==> PaddingAt(now.sections, list, from, i) >= 0)
    && (forall i :: j <= i < |list| ==> Unplaced(now, list[i]) && now.sections[list[i]] == l.sections[list[i]])
    && (forall i :: 0 <= i < |list| ==> SameKind(l.sections[list[i]], now.sections[list[i]]))
    && (forall i :: 0 <= i < j && Snug(l.sections[list[i]]) ==> PaddingAt(now.sections, list, from, i) == 0)
  }

  predicate SameKind(s: Section, s': Section) { s'.kind == s.kind && s'.size == s.size }

  /** A section without file bytes that nothing makes the layout pad. */
  predicate Snug(s: Section) { s.kind == SHT_NOBITS && (s.addressSet || s.addrAlign <= 1) }

  lemma MeasuredStep(l: Layout, k: nat, from: nat, start: nat, list: seq<nat>, j: nat, q: Layout, fileSize: nat,
                     memSize: nat)
    requires Tables(l) && Tables(q) && InBounds(list, |l.sections|) && |q.sections| == |l.sections| && j < |list|
    requires k < |q.segments| && AllNew(l, list) && Measured(l, list, from, start, j, q, fileSize) && Rooted(q)
    ensures var p := PlaceSection(q, k, start, fileSize, memSize, list[j]);
            p.Going? ==> Measured(l, list, from, start, j + 1, p.layout, p.fileSize) && Rooted(p.layout)
  {
    hide PlaceSection, Wrap;
    var extent := q.pos - start - Uncounted(q.sections, list, from, j);
    FileSizeStep(q, k, start, memSize, list[j], extent);
    PlaceSectionIsLocal(q, k, start, fileSize, memSize, list[j]);
    var p := PlaceSection(q, k, start, fileSize, memSize, list[j]);
    if p.Going? {
      SameEnds(q.sections, p.layout.sections, list, from, j);
    }
  }

  lemma {:induction false} MeasuredAfter(l: Layout, k: nat, start: nat, size: nat, j: nat)
    requires Tables(l) && k < |l.segments| && j <= |l.segments[k].sections| && AllNew(l, l.segments[k].sections)
    requires size == Wrap(l.pos - start) && Rooted(l)
    ensures var p := PlaceSections(l, k, start, size, j);
            p.Going? ==> Measured(l, l.segments[k].sections, l.pos, start, j, p.layout, p.fileSize) && Rooted(p.layout)
  {
    hide PlaceSection, Wrap, PlaceSections, Rooted, AllNew, Measured;
    NoSections(l, k, start, size);
    if j == 0 {
      assert Measured(l, l.segments[k].sections, l.pos, start, 0, l, size) by {
        MeasuredStart(l, l.segments[k].sections, start);
      }
    } else {
      OneMoreSection(l, k, start, size, j);
      MeasuredAfter(l, k, start, size, j - 1);
      var q := PlaceSections(l, k, start, size, j - 1);
      if q.Going? {
        MeasuredStep(l, k, l.pos, start, l.segments[k].sections, j - 1, q.layout, q.fileSize, q.memSize);
      }
    }
  }

  lemma MeasuredStart(l: Layout, list: seq<nat>, start: nat)
    requires Tables(l) && InBounds(list, |l.sections|) && AllNew(l, list)
    ensures Measured(l, list, l.pos, start, 0, l, Wrap(l.pos - start))
  {
  }

  /** The end moves on by padding and bytes; the uncounted padding is part of it. */
  lemma {:induction false} EndsGrow(secs: seq<Section>, list: seq<nat>, start: nat, i: nat, j: nat)
    requires InBounds(list, |secs|) && i <= j <= |list|
    requires forall m :: 0 <= m < j ==> PaddingAt(secs, list, start, m) >= 0
    ensures 0 <= Uncounted(secs, list, start, i) <= Uncounted(secs, list, start, j)
    ensures EndAt(secs, list, start, j) - EndAt(secs, list, start, i) >=
            Uncounted(secs, list, start, j) - Uncounted(secs, list, start, i)
    ensures Counted(secs, list, start, i, j) >= 0
    ensures (forall m :: i <= m < j ==> !Data(secs[list[m]])) ==>
              EndAt(secs, list, start, j) - EndAt(secs, list, start, i) ==
              Uncounted(secs, list, start, j) - Uncounted(secs, list, start, i) + Counted(secs, list, start, i, j)
    decreases j
  {
    if i < j {
      EndsGrow(secs, list, start, i, j - 1);
      assert PaddingAt(secs, list, start, j - 1) >= 0;
    } else if j > 0 {
      EndsGrow(secs, list, start, j - 1, j - 1);
    }
  }

  /** Every byte of data that the segment lists lies in the file range that the segment announces. */
  predicate DataCovered(l: Layout, k: nat)
    requires Tables(l) && k < |l.segments|
  {
    var g := l.segments[k];
    forall j :: 0 <= j < |g.sections| && Data(l.sections[g.sections[j]]) ==>
      l.sections[g.sections[j]].offset + l.sections[g.sections[j]].size <= g.offset + g.fileSize
  }

  /** The last listed section with data. */
  predicate LastData(l: Layout, k: nat, j: nat)
    requires Tables(l) && k < |l.segments| && j < |l.segments[k].sections|
  {
    var list := l.segments[k].sections;
    Data(l.sections[list[j]]) && forall i :: j < i < |list| ==> !Data(l.sections[list[i]])
  }

  /** What placing a segment of new sections measures, in terms of the tables it leaves. */
  lemma NewSegmentMeasured(h: Header, l: Layout, k: nat)
    requires Tables(l) && Rooted(l) && k < |l.segments| && StartsAtEnd(l, k) && AllNew(l, l.segments[k].sections)
    requires PlaceSegment(h, l, k).Laid?
    ensures var r := PlaceSegment(h, l, k).layout;
            && r.segments[k].sections == l.segments[k].sections && r.segments[k].offset == SegmentStart(h, l, k)
            && Measured(l, l.segments[k].sections, From(h, l, k), r.segments[k].offset, |l.segments[k].sections|, r,
               r.segments[k].fileSize)
  {
    hide PlaceSections, PlaceSection, NextCongruent, Rooted, AllNew, Wrap, EndAt, Uncounted, PaddingAt, StartsAtEnd;
    var o, start, n := Opened(h, l, k), SegmentStart(h, l, k), |l.segments[k].sections|;
    assert AllNew(o, o.segments[k].sections) && Rooted(o) by { OpenedIsNew(h, l, k); }
    assert InitialSize(h, l, k) == Wrap(o.pos - start) by { InitialIsRoom(h, l, k); }
    MeasuredAfter(o, k, start, InitialSize(h, l, k), n);
  }

  lemma InitialIsRoom(h: Header, l: Layout, k: nat)
    requires Tables(l) && k < |l.segments| && StartsAtEnd(l, k)
    ensures InitialSize(h, l, k) == Wrap(Opened(h, l, k).pos - SegmentStart(h, l, k))
  {
    hide NextCongruent;
  }

  lemma OpenedIsNew(h: Header, l: Layout, k: nat)
    requires Tables(l) && Rooted(l) && k < |l.segments| && AllNew(l, l.segments[k].sections)
    ensures var o := Opened(h, l, k); AllNew(o, o.segments[k].sections) && Rooted(o)
  {
    hide SegmentStart;
  }

  /**
   * The file range of a segment of new sections covers all its data if and only if the padding in front of
   * sections without file bytes, before the last data, is made up for by padding in front of empty sections
   * after it: the file position includes the former, the file size does not.
   */
  lemma DataCoveredIff(h: Header, l: Layout, k: nat, last: nat)
    requires Tables(l) && Rooted(l) && k < |l.segments| && StartsAtEnd(l, k) && AllNew(l, l.segments[k].sections)
    requires PlaceSegment(h, l, k).Laid? && last < |l.segments[k].sections|
    requires var r := PlaceSegment(h, l, k).layout;
             r.segments[k].sections == l.segments[k].sections && LastData(r, k, last) &&
               r.pos - r.segments[k].offset < U64
    ensures var r, list, from := PlaceSegment(h, l, k).layout, l.segments[k].sections, From(h, l, k);
            DataCovered(r, k) <==>
            Uncounted(r.sections, list, from, last) <= Counted(r.sections, list, from, last + 1, |list|)
  {
    hide PlaceSegment, Rooted, AllNew, StartsAtEnd, From;
    NewSegmentMeasured(h, l, k);
    var r, list, from := PlaceSegment(h, l, k).layout, l.segments[k].sections, From(h, l, k);
    var start, n := r.segments[k].offset, |list|;
    StartIsBefore(h, l, k);
    EndsGrow(r.sections, list, from, 0, n);
    EndsGrow(r.sections, list, from, last + 1, n);
    var end := EndAt(r.sections, list, from, last + 1);
    assert r.segments[k].fileSize == r.pos - start - Uncounted(r.sections, list, from, n);
    forall j | 0 <= j < n && Data(r.sections[list[j]])
      ensures r.sections[list[j]].offset + r.sections[list[j]].size <= end
    {
      EndsGrow(r.sections, list, from, j + 1, last + 1);
    }
  }

  lemma StartIsBefore(h: Header, l: Layout, k: nat)
    requires Tables(l) && k < |l.segments| && StartsAtEnd(l, k)
    ensures SegmentStart(h, l, k) <= From(h, l, k)
  {
  }

  /**
   * Unless an empty section behind the data is padded, that is: no data comes after a section without file
   * bytes that was padded.
   */
  lemma DataCoveredIffUnpadded(h: Header, l: Layout, k: nat, last: nat)
    requires Tables(l) && Rooted(l) && k < |l.segments| && StartsAtEnd(l, k) && AllNew(l, l.segments[k].sections)
    requires PlaceSegment(h, l, k).Laid? && last < |l.segments[k].sections|
    requires var r := PlaceSegment(h, l, k).layout;
             r.segments[k].sections == l.segments[k].sections && LastData(r, k, last) &&
               r.pos - r.segments[k].offset < U64
    ensures var r, list, from := PlaceSegment(h, l, k).layout, l.segments[k].sections, From(h, l, k);
            Counted(r.sections, list, from, last + 1, |list|) == 0 ==>
              (DataCovered(r, k) <==>
               forall i :: 0 <= i < last && r.sections[list[i]].kind == SHT_NOBITS ==>
                 PaddingAt(r.sections, list, from, i) == 0)
  {
    hide PlaceSegment, Rooted, AllNew, StartsAtEnd, LastData, DataCovered, From;
    NewSegmentMeasured(h, l, k);
    DataCoveredIff(h, l, k, last);
    var r, list := PlaceSegment(h, l, k).layout, l.segments[k].sections;
    UncountedIsZeroIff(r.sections, list, From(h, l, k), last);
  }

  /**
   * A check before the layout: all data is covered if every section without file bytes that comes before some
   * data has an address or needs no alignment.
   */
  lemma DataCoveredWhenSnug(h: Header, l: Layout, k: nat)
    requires Tables(l) && Rooted(l) && k < |l.segments| && StartsAtEnd(l, k) && AllNew(l, l.segments[k].sections)
    requires var list := l.segments[k].sections;
             forall i, j ::
               0 <= i < j < |list| && l.sections[list[i]].kind == SHT_NOBITS && Data(l.sections[list[j]]) ==>
                 Snug(l.sections[list[i]])
    requires PlaceSegment(h, l, k).Laid?
    requires var r := PlaceSegment(h, l, k).layout; r.pos - r.segments[k].offset < U64
    ensures DataCovered(PlaceSegment(h, l, k).layout, k)
  {
    hide PlaceSegment, Rooted, AllNew, StartsAtEnd, DataCovered, From;
    NewSegmentMeasured(h, l, k);
    var r, list, from := PlaceSegment(h, l, k).layout, l.segments[k].sections, From(h, l, k);
    var n := |list|;
    if last :| 0 <= last < n && LastData(r, k, last) {
      forall i | 0 <= i < last && r.sections[list[i]].kind == SHT_NOBITS
        ensures PaddingAt(r.sections, list, from, i) == 0
      {
        assert SameKind(l.sections[list[i]], r.sections[list[i]]) &&
               SameKind(l.sections[list[last]], r.sections[list[last]]);
      }
      UncountedIsZeroIff(r.sections, list, from, last);
      EndsGrow(r.sections, list, from, last + 1, n);
      DataCoveredIff(h, l, k, last);
    } else {
      NoDataIsCovered(r, k, n);
    }
  }

  lemma {:induction false} NoDataIsCovered(l: Layout, k: nat, n: nat)
    requires Tables(l) && k < |l.segments| && n <= |l.segments[k].sections|
    requires forall j :: 0 <= j < |l.segments[k].sections| ==> !LastData(l, k, j)
    requires forall j :: n <= j < |l.segments[k].sections| ==> !Data(l.sections[l.segments[k].sections[j]])
    ensures DataCovered(l, k)
  {
    if n > 0 {
      assert !LastData(l, k, n - 1);
      NoDataIsCovered(l, k, n - 1);
    }
  }

  lemma {:induction false} UncountedIsZeroIff(secs: seq<Section>, list: seq<nat>, start: nat, j: nat)
    requires InBounds(list, |secs|) && j <= |list|
    requires forall m :: 0 <= m < j ==> PaddingAt(secs, list, start, m) >= 0
    ensures Uncounted(secs, list, start, j) >= 0
    ensures Uncounted(secs, list, start, j) == 0 <==>
            forall i :: 0 <= i < j && secs[list[i]].kind == SHT_NOBITS ==> PaddingAt(secs, list, start, i) == 0
  {
    if j > 0 {
      UncountedIsZeroIff(secs, list, start, j - 1);
    }
  }

  function ExampleSection(kind: nat, align: nat): Section { Section(kind, 0, 1, align, 0, false, 0) }

  /** One byte of data, an aligned section without file bytes, one more byte of data. */
  function ExampleLayout(): Layout {
    Blank(Header(64, 56),
          [Section(SHT_NULL, 0, 0, 0, 0, false, 0), ExampleSection(1, 1), ExampleSection(SHT_NOBITS, 8),
            ExampleSection(1, 1)],
          [Segment(1, 8, 0, [1, 2, 3], 0, false, 0, 0)])
  }

  /** Placing a new section without flags and address. */
  lemma PlainStep(l: Layout, k: nat, start: nat, fileSize: nat, index: nat, at: nat)
    requires Tables(l) && k < |l.segments| && index < |l.sections| && l.home[index].Nowhere? && fileSize < 10
    requires l.sections[index] == ExampleSection(1, 1) || l.sections[index] == ExampleSection(SHT_NOBITS, 8)
    requires var align := l.sections[index].addrAlign; at == l.pos + (align - l.pos % align) % align
    ensures PlaceSection(l, k, start, fileSize, 0, index) ==
            if l.sections[index].kind == 1 then Going(PutAt(l, k, start, index, at), fileSize + 1 + (at - l.pos), 0)
            else Going(PutAt(l, k, start, index, at), fileSize, 0)
  {
  }

  /** The example after its first `n` sections. */
  function ExampleAfter(n: nat): (r: Layout)
    requires n <= 3
    ensures Tables(r) && r.segments == ExampleLayout().segments && |r.sections| == 4
  {
    if n == 0 then ExampleLayout() else PutAt(ExampleAfter(n - 1), 0, 120, n, if n == 1 then 120 else 128)
  }

  lemma ExampleFacts(n: nat)
    requires 1 <= n <= 3
    ensures var r := ExampleAfter(n);
            && r.pos == (if n == 1 then 121 else if n == 2 then 128 else 129)
            && r.sections[n].offset == (if n == 1 then 120 else 128)
            && forall i :: n < i <= 3 ==> r.home[i].Nowhere? && r.sections[i] == ExampleLayout().sections[i]
  {
    if n > 1 {
      ExampleFacts(n - 1);
    }
  }

  lemma ExamplePlaced()
    ensures PlaceSections(ExampleLayout(), 0, 120, 0, 3) == Going(ExampleAfter(3), 2, 0)
  {
    hide PlaceSections, PlaceSection;
    var l := ExampleLayout();
    ExampleFacts(1);
    ExampleFacts(2);
    NoSections(l, 0, 120, 0);
    OneMoreSection(l, 0, 120, 0, 1);
    PlainStep(l, 0, 120, 0, 1, 120);
    hide PutAt;
    OneMoreSection(l, 0, 120, 0, 2);
    PlainStep(ExampleAfter(1), 0, 120, 1, 2, 128);
    OneMoreSection(l, 0, 120, 0, 3);
    PlainStep(ExampleAfter(2), 0, 120, 1, 3, 128);
  }

  /** The last byte of data lies behind the end that the segment's file size announces. */
  lemma FileSizeCanFallShort()
    ensures var r := PlaceSegment(Header(64, 56), ExampleLayout(), 0);
            && r.Laid? && r.layout.segments[0].offset == 120 && r.layout.segments[0].fileSize == 2
            && r.layout.sections[3].offset == 128
  {
    hide PlaceSections, PutAt, SegmentStart, Opened, InitialSize, ExampleAfter, ExampleLayout, StartsFresh;
    ExampleStart();
    ExamplePlaced();
    ExampleFacts(3);
  }

  lemma ExampleStart()
    ensures var l := ExampleLayout();
            && |l.segments| == 1 && |l.segments[0].sections| == 3
            && SegmentStart(Header(64, 56), l, 0) == 120 && InitialSize(Header(64, 56), l, 0) == 0
            && Opened(Header(64, 56), l, 0) == l
  {
    assert ExampleLayout().pos == 120 && StartsFresh(ExampleLayout(), 0);
  }

  // The segment alignment, raised before the layout.

  function Larger(a: nat, b: nat): nat { if b > a then b else a }

  function RaisedAlign(secs: seq<Section>, list: seq<nat>, align: nat, n: nat): nat
    requires InBounds(list, |secs|) && n <= |list|
  {
    if n == 0 then align else Larger(RaisedAlign(secs, list, align, n - 1), secs[list[n - 1]].addrAlign)
  }

  function Raised(secs: seq<Section>, seg: Segment): Segment
    requires InBounds(seg.sections, |secs|)
  {
    seg.(align := RaisedAlign(secs, seg.sections, seg.align, |seg.sections|))
  }

  predicate Listable(secs: seq<Section>, segs: seq<Segment>) {
    forall k :: 0 <= k < |segs| ==> InBounds(segs[k].sections, |secs|)
  }

  function RaisedAll(secs: seq<Section>, segs: seq<Segment>): (r: seq<Segment>)
    requires Listable(secs, segs)
    ensures |r| == |segs| && forall k :: 0 <= k < |segs| ==> r[k] == Raised(secs, segs[k])
  {
    seq(|segs|, k requires 0 <= k < |segs| => Raised(secs, segs[k]))
  }

  /** It becomes the least alignment that covers the segment's own and all its sections'. */
  lemma {:induction false} RaisedAlignIsMaximum(secs: seq<Section>, list: seq<nat>, align: nat, n: nat)
    requires InBounds(list, |secs|) && n <= |list|
    ensures var a := RaisedAlign(secs, list, align, n);
            && align <= a && (forall j :: 0 <= j < n ==> secs[list[j]].addrAlign <= a)
            && (a == align || exists j :: 0 <= j < n && a == secs[list[j]].addrAlign)
  {
    if n > 0 {
      RaisedAlignIsMaximum(secs, list, align, n - 1);
    }
  }

  // Validation.

  /** `is_offset_in_section`. */
  predicate OffsetInSection(offset: int, s: Section) { s.offset <= offset < s.offset + s.size }

  predicate EndpointsTouch(a: Section, b: Section) {
    || OffsetInSection(a.offset, b) || OffsetInSection(a.offset + a.size - 1, b)
    || OffsetInSection(b.offset, a) || OffsetInSection(b.offset + b.size - 1, a)
  }

  /** The pairs that the check looks at: the test on the type is a bit test. */
  predicate Compared(a: Section, b: Section) {
    && !HasFlag(a.kind, SHT_NOBITS) && !HasFlag(b.kind, SHT_NOBITS)
    && a.size > 0 && b.size > 0 && a.offset > 0 && b.offset > 0
  }

  /** Testing four end points is enough to find any overlap of two ranges. */
  lemma EndpointsDecideOverlap(a: Section, b: Section)
    requires a.size > 0 && b.size > 0
    ensures EndpointsTouch(a, b) <==> exists p :: OffsetInSection(p, a) && OffsetInSection(p, b)
  {
    if EndpointsTouch(a, b) {
      var p := if OffsetInSection(a.offset, b) then a.offset else if OffsetInSection(b.offset, a) then b.offset
               else if OffsetInSection(a.offset + a.size - 1, b) then a.offset + a.size - 1 else b.offset + b.size - 1;
      assert OffsetInSection(p, a) && OffsetInSection(p, b);
    }
  }

  ghost predicate Clash(secs: seq<Section>, i: nat, j: nat)
    requires i < |secs| && j < |secs|
  {
    Compared(secs[i], secs[j]) && exists p :: OffsetInSection(p, secs[i]) && OffsetInSection(p, secs[j])
  }

  /** `validate`: an empty answer means that no two compared sections share a byte. */
  method Validate(secs: seq<Section>) returns (problem: bool)
    ensures problem <==> exists i, j :: 0 <= i < j < |secs| && Clash(secs, i, j)
  {
    hide Clash;
    for i := 0 to |secs|
      invariant forall a, b :: 0 <= a < i && a < b < |secs| ==> !Clash(secs, a, b)
    {
      for j := i + 1 to |secs|
        invariant forall b :: i < b < j ==> !Clash(secs, i, b)
      {
        var touch := CompareTwo(secs, i, j);
        if touch {
          return true;
        }
      }
    }
    return false;
  }

  method CompareTwo(secs: seq<Section>, i: nat, j: nat) returns (clash: bool)
    requires i < |secs| && j < |secs|
    ensures clash <==> Clash(secs, i, j)
  {
    if secs[i].size > 0 && secs[j].size > 0 {
      EndpointsDecideOverlap(secs[i], secs[j]);
    }
    return Compared(secs[i], secs[j]) && EndpointsTouch(secs[i], secs[j]);
  }

  /** Two relocation sections (type 9, which has bit 3 set) over the same bytes: they are not even compared. */
  lemma OverlapGoesUnnoticed()
    ensures var s := Section(9, 0, 4, 1, 0, false, 100);
            OffsetInSection(100, s) && !Clash([s, s], 0, 1)
  {
  }

  /** A file that the layout pass produced passes the check. */
  lemma LayoutValidates(h: Header, secs: seq<Section>, segs: seq<Segment>, order: seq<nat>, i: nat, j: nat)
    requires Proper(h, secs, segs, order) && NullsEmpty(secs) && LayOut(h, secs, segs, order).Laid?
    requires i < j < |secs|
    ensures !Clash(LayOut(h, secs, segs, order).layout.sections, i, j)
  {
    var l := LayOut(h, secs, segs, order).layout;
    hide LayOut, Proper, NullsEmpty;
    var a, b := l.sections[i], l.sections[j];
    if p :| Compared(a, b) && OffsetInSection(p, a) && OffsetInSection(p, b) {
      assert HoldsByte(l.sections[i], p) && HoldsByte(l.sections[j], p);
      LayoutIsDisjoint(h, secs, segs, order, p);
      assert false;
    }
  }
}
