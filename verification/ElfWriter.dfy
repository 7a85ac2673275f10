/** The ELF writer's layout pass as it runs: on its section and segment tables, in place. */
module ElfWriter {
  import opened ElfLayout
  import opened Isa
  import opened SegmentOrder

  /** The local vector of flags says which sections have a home. */
  predicate Generated(generated: seq<bool>, home: seq<Home>) {
    |generated| == |home| && forall i :: 0 <= i < |home| ==> generated[i] == !home[i].Nowhere?
  }

  class Elfio {
    const header: Header
    const sections: array<Section>
    const segments: array<Segment>
    var currentFilePos: nat
    ghost var home: seq<Home>

    ghost function State(): Layout
      reads this, sections, segments
    {
      Layout(sections[..], segments[..], home, currentFilePos)
    }

    ghost predicate Valid()
      reads this, sections, segments
    {
      Tables(State())
    }

    constructor (header: Header, sections: array<Section>, segments: array<Segment>)
      requires forall k :: 0 <= k < segments.Length ==> InBounds(segments[k].sections, sections.Length)
      ensures Valid() && this.header == header && this.sections == sections && this.segments == segments
      ensures State().home == Blank(header, sections[..], segments[..]).home
    {
      this.header := header;
      this.sections := sections;
      this.segments := segments;
      this.currentFilePos := 0;
      this.home := seq(sections.Length, i => Nowhere);
    }

    method RaiseAlignment(k: nat)
      requires Valid() && k < segments.Length
      modifies segments
      ensures Valid() && segments[..] == old(segments[..])[k := Raised(sections[..], old(segments[k]))]
    {
      var was := segments[k];
      var list := was.sections;
      for j := 0 to |list|
        invariant segments[..] == old(segments[..])[k := was.(align := RaisedAlign(sections[..], list, was.align, j))]
      {
        var sect := sections[list[j]];
        if sect.addrAlign > segments[k].align {
          segments[k] := segments[k].(align := sect.addrAlign);
        }
      }
    }

    method CalcSegmentAlignment()
      requires Valid()
      modifies segments
      ensures Valid() && segments[..] == RaisedAll(sections[..], old(segments[..]))
    {
      for k := 0 to segments.Length
        invariant Valid()
        invariant forall m :: 0 <= m < k ==> segments[m] == Raised(sections[..], old(segments[m]))
        invariant forall m :: k <= m < segments.Length ==> segments[m] == old(segments[m])
      {
        ghost var was := segments[..];
        RaiseAlignment(k);
        assert forall m :: 0 <= m < segments.Length ==> segments[m] == segments[..][m];
        assert forall m :: 0 <= m < segments.Length && m != k ==> segments[m] == was[m];
      }
    }

    /** Chooses the segment's start and moves the file position there when the choice is free. */
    method StartSegment(k: nat, generated: seq<bool>) returns (start: nat, size: nat)
      requires Valid() && Generated(generated, home) && k < segments.Length
      modifies this`currentFilePos
      ensures start == SegmentStart(header, old(State()), k) && size == InitialSize(header, old(State()), k)
      ensures State() == Opened(header, old(State()), k)
    {
      var seg := segments[k];
      assert InBounds(State().segments[k].sections, sections.Length);
      start, size := currentFilePos, 0;
      if seg.kind == PT_PHDR && |seg.sections| == 0 {
        start := SegmentsOffset(header, segments.Length);
        size := header.entrySize * segments.Length;
      } else if |seg.sections| > 1 && sections[seg.sections[0]].kind == SHT_NULL {
        start, size := 0, currentFilePos;
      } else if |seg.sections| > 0 && !generated[seg.sections[0]] {
        var align := if seg.align > 0 then seg.align else 1;
        var error := Wrap(seg.vaddr % align - currentFilePos % align);
        currentFilePos := currentFilePos + Wrap(seg.align + error) % align;
        start := currentFilePos;
        assert start == NextCongruent(old(currentFilePos), seg.align, seg.vaddr);
      } else if |seg.sections| > 0 {
        start := sections[seg.sections[0]].offset;
      }
    }

    /** The padding before a section of segment `k`, or failure. */
    method AlignSection(k: nat, start: nat, fileSize: nat, index: nat, generated: seq<bool>)
      returns (ok: bool, secAlign: nat)
      requires Valid() && Generated(generated, home) && k < segments.Length && index < sections.Length
      requires sections[index].kind != SHT_NULL
      ensures ok <==> Gap(State(), k, start, fileSize, index) >= 0
      ensures ok ==> secAlign == Gap(State(), k, start, fileSize, index)
    {
      var sec := sections[index];
      ok, secAlign := true, 0;
      if !generated[index] && sec.addressSet && sec.kind != SHT_NOBITS && sec.kind != SHT_NULL && sec.size != 0 {
        var reqOffset := Wrap(sec.address - segments[k].vaddr);
        var curOffset := currentFilePos - start;
        if reqOffset < curOffset {
          return false, 0;
        }
        secAlign := reqOffset - curOffset;
      } else if !generated[index] && !sec.addressSet {
        var align := if sec.addrAlign == 0 then 1 else sec.addrAlign;
        var error := currentFilePos % align;
        secAlign := (align - error) % align;
      } else if generated[index] {
        secAlign := Wrap(sec.offset - start - fileSize);
      }
    }

    /** One turn of the loop over the sections of segment `k`. */
    method LayoutSection(k: nat, start: nat, fileSize: nat, memSize: nat, index: nat, generated: seq<bool>)
      returns (ok: bool, fileSize': nat, memSize': nat, generated': seq<bool>)
      requires Valid() && Generated(generated, home) && k < segments.Length && index < sections.Length
      modifies this, sections
      ensures Valid() && Generated(generated', home)
      ensures var p := PlaceSection(old(State()), k, start, fileSize, memSize, index);
              if ok then p == Going(State(), fileSize', memSize') else p.Abort? && State() == old(State())
    {
      fileSize', memSize', generated' := fileSize, memSize, generated;
      var sec := sections[index];
      if sec.kind == SHT_NULL {
        ok := true;
        generated' := generated[index := true];
        home := if home[index].Nowhere? then home[index := In(k)] else home;
        return;
      }
      var secAlign: nat;
      ok, secAlign := AlignSection(k, start, fileSize, index, generated);
      hide Gap;
      if !ok {
        return;
      }
      if CountsInMemory(sec, segments[k]) {
        memSize' := Wrap(memSize + sec.size + secAlign);
      }
      if sec.kind != SHT_NOBITS && sec.kind != SHT_NULL {
        fileSize' := Wrap(fileSize + sec.size + secAlign);
      }
      if generated[index] {
        return;
      }
      PutSection(k, start, index, secAlign);
      generated' := generated[index := true];
    }

    method PutSection(k: nat, start: nat, index: nat, secAlign: nat)
      requires Valid() && k < segments.Length && index < sections.Length
      modifies this, sections
      ensures Valid() && State() == PutAt(old(State()), k, start, index, old(currentFilePos) + secAlign)
    {
      currentFilePos := currentFilePos + secAlign;
      if !sections[index].addressSet {
        var address := Wrap(segments[k].vaddr + currentFilePos - start);
        sections[index] := sections[index].(address := address, addressSet := true);
      }
      if index != 0 {
        sections[index] := sections[index].(offset := currentFilePos);
      }
      if sections[index].kind != SHT_NOBITS && sections[index].kind != SHT_NULL {
        currentFilePos := currentFilePos + sections[index].size;
      }
      home := home[index := In(k)];
      assert sections[..] == PutAt(old(State()), k, start, index, old(currentFilePos) + secAlign).sections;
    }

    /** One turn of the loop over the ordered segments. */
    method LayoutSegment(k: nat, generated: seq<bool>) returns (ok: bool, generated': seq<bool>)
      requires Valid() && Generated(generated, home) && k < segments.Length
      modifies this, sections, segments
      ensures Valid() && Generated(generated', home)
      ensures var r := PlaceSegment(header, old(State()), k);
              if ok then r == Laid(State()) else r.Failed?
    {
      var start: nat, fileSize: nat := StartSegment(k, generated);
      var memSize := fileSize;
      var list := segments[k].sections;
      ghost var o, size := State(), fileSize;
      hide Generated, PlaceSection, SegmentStart, InitialSize, Opened;
      generated' := generated;
      for j := 0 to |list|
        invariant Valid() && Generated(generated', home) && segments[..] == o.segments && Tables(o)
        invariant PlaceSections(o, k, start, size, j) == Going(State(), fileSize, memSize)
      {
        assert PlaceSections(o, k, start, size, j + 1) == PlaceSection(State(), k, start, fileSize, memSize, list[j]);
        ok, fileSize, memSize, generated' := LayoutSection(k, start, fileSize, memSize, list[j], generated');
        if !ok {
          StaysAborted(o, k, start, size, j + 1, |list|);
          return;
        }
      }
      ok := true;
      CloseSegment(k, start, fileSize, memSize);
    }

    method CloseSegment(k: nat, start: nat, fileSize: nat, memSize: nat)
      requires Valid() && k < segments.Length
      modifies segments
      ensures Valid() && State() == Closed(old(State()), k, start, fileSize, memSize)
    {
      var seg := segments[k];
      segments[k] := segments[k].(fileSize := fileSize);
      if segments[k].memSize < memSize {
        segments[k] := segments[k].(memSize := memSize);
      }
      segments[k] := segments[k].(offset := start, offsetSet := true);
      assert segments[..] == Closed(old(State()), k, start, fileSize, memSize).segments;
    }

    /** The first pass: on success the state is the one the layout function gives for the order it chose. */
    method LayoutSegmentsAndTheirSections() returns (ok: bool, ghost order: seq<nat>)
      requires Valid() && home == seq(sections.Length, i => Nowhere)
      modifies this, sections, segments
      ensures Valid()
      ensures InRange(old(segments[..]), order) && multiset(order) == multiset(Indices(segments.Length))
      ensures NoneBeforeLarger(old(segments[..]), order)
      ensures var r := PlaceSegments(header, old(State()), order, |order|);
              if ok then r == Laid(State()) else r.Failed?
    {
      hide NoneBeforeLarger, PlaceSegment, Generated;
      var worklist := OrderedSegments(segments[..]);
      order := worklist;
      ghost var l := State();
      var generated: seq<bool> := seq(sections.Length, i => false);
      assert Generated(generated, home) by { NoneGenerated(generated, home); }
      for n := 0 to |worklist|
        invariant Valid() && Generated(generated, home)
        invariant PlaceSegments(header, l, order, n) == Laid(State())
      {
        ok, generated := LayoutSegment(worklist[n], generated);
        if !ok {
          StaysFailed(header, l, order, n + 1, |order|);
          return;
        }
      }
      ok := true;
    }

    method IsSectionWithoutSegment(index: nat) returns (loose: bool)
      requires Valid()
      ensures loose <==> Unlisted(segments[..], index)
    {
      var found := false;
      var j := 0;
      while !found && j < segments.Length
        invariant j <= segments.Length
        invariant found ==> !Unlisted(segments[..], index)
        invariant !found ==> forall m :: 0 <= m < j ==> index !in segments[m].sections
      {
        var list := segments[j].sections;
        var k := 0;
        while !found && k < |list|
          invariant k <= |list|
          invariant found ==> index in list
          invariant !found ==> index !in list[..k]
        {
          found := list[k] == index;
          k := k + 1;
        }
        assert found ==> index in segments[..][j].sections;
        j := j + 1;
      }
      loose := !found;
    }

    /** The second pass. */
    method LayoutSectionsWithoutSegments()
      requires Valid()
      modifies this, sections
      ensures Valid() && State() == PlaceRest(old(State()), sections.Length)
    {
      hide PlaceLoose;
      for i := 0 to sections.Length
        invariant Valid() && State() == PlaceRest(old(State()), i)
      {
        LayoutLoose(i);
      }
    }

    method LayoutLoose(i: nat)
      requires Valid() && i < sections.Length
      modifies this, sections
      ensures Valid() && State() == PlaceLoose(old(State()), i)
    {
      var loose := IsSectionWithoutSegment(i);
      hide Unlisted;
      if loose {
        var sec := sections[i];
        var align := sec.addrAlign;
        if align > 1 && currentFilePos % align != 0 {
          currentFilePos := currentFilePos + (align - currentFilePos % align);
        }
        if i != 0 {
          sections[i] := sec.(offset := currentFilePos);
        }
        if sec.kind != SHT_NOBITS && sec.kind != SHT_NULL {
          currentFilePos := currentFilePos + sec.size;
        }
        home := home[i := Loose];
        assert sections[..] == PlaceLoose(old(State()), i).sections;
      }
    }

    /** The section header table goes behind everything, at a multiple of four. */
    method LayoutSectionTable() returns (sectionsOffset: nat)
      requires Valid()
      modifies this`currentFilePos
      ensures State() == old(State()).(pos := sectionsOffset)
      ensures sectionsOffset % 4 == 0 && old(currentFilePos) <= sectionsOffset < old(currentFilePos) + 4
    {
      var alignmentError := currentFilePos % 4;
      currentFilePos := currentFilePos + (4 - alignmentError) % 4;
      sectionsOffset := currentFilePos;
    }

    /** The layout part of saving a file. */
    method LayoutFile() returns (ok: bool, sectionsOffset: nat, ghost order: seq<nat>)
      requires Valid() && home == seq(sections.Length, i => Nowhere)
      modifies this, sections, segments
      ensures Valid()
      ensures var segs := RaisedAll(old(sections[..]), old(segments[..]));
              && InRange(segs, order) && multiset(order) == multiset(Indices(|segs|)) && NoneBeforeLarger(segs, order)
              && var r := LayOut(header, old(sections[..]), segs, order);
                 if ok then
                   && r.Laid? && State() == r.layout.(pos := sectionsOffset)
                   && sectionsOffset % 4 == 0 && r.layout.pos <= sectionsOffset < r.layout.pos + 4
                 else r.Failed?
    {
      currentFilePos := header.size + header.entrySize * segments.Length;
      CalcSegmentAlignment();
      assert State() == Blank(header, old(sections[..]), RaisedAll(old(sections[..]), old(segments[..])));
      hide PlaceSegments, PlaceRest, NoneBeforeLarger;
      sectionsOffset := 0;
      ok, order := LayoutSegmentsAndTheirSections();
      if ok {
        LayoutSectionsWithoutSegments();
        sectionsOffset := LayoutSectionTable();
      }
    }
  }

  lemma NoneGenerated(generated: seq<bool>, home: seq<Home>)
    requires |generated| == |home|
    requires forall i :: 0 <= i < |home| ==> !generated[i] && home[i] == Nowhere
    ensures Generated(generated, home)
  {
  }

  lemma {:induction false} StaysAborted(l: Layout, k: nat, start: nat, size: nat, j: nat, n: nat)
    requires Tables(l) && k < |l.segments| && j <= n <= |l.segments[k].sections|
    requires PlaceSections(l, k, start, size, j).Abort?
    ensures PlaceSections(l, k, start, size, n).Abort?
  {
    hide PlaceSection;
    if j < n {
      StaysAborted(l, k, start, size, j, n - 1);
    }
  }

  lemma {:induction false} StaysFailed(h: Header, l: Layout, order: seq<nat>, j: nat, n: nat)
    requires Tables(l) && InRange(l.segments, order) && j <= n <= |order|
    requires PlaceSegments(h, l, order, j).Failed?
    ensures PlaceSegments(h, l, order, n).Failed?
  {
    hide PlaceSegment;
    if j < n {
      StaysFailed(h, l, order, j, n - 1);
    }
  }
}
