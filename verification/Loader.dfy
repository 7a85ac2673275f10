/** Loading the program: pages are allocated every 4096 bytes from the segment's start, then bytes are copied. */
module Loader {
  import opened Bits
  import opened Address
  import opened Hierarchy
  import opened PagedMemory

  datatype Segment = Segment(start: nat, memSize: nat, data: seq<byte>) {
    /** 32-bit loop variables must not wrap. */
    predicate Valid() { start + PageCount() * PAGE < U32 && start + |data| < U32 }

    /** How many times the allocation loop runs. */
    function PageCount(): nat { (memSize + PAGE - 1) / PAGE }
  }

  function AllocPages(m: map<nat, byte>, first: nat, count: nat): map<nat, byte> {
    if count == 0 then m else WithPage(AllocPages(m, first, count - 1), first + count - 1)
  }

  datatype Loaded = Failed | Loaded(bytes: map<nat, byte>)

  function LoadSegment(m: map<nat, byte>, seg: Segment): Loaded {
    var paged := AllocPages(m, PageOf(seg.start), seg.PageCount());
    if Allocated(paged, seg.start, |seg.data|) then Loaded(StoreBytes(paged, seg.start, seg.data)) else Failed
  }

  function LoadSegments(m: map<nat, byte>, segs: seq<Segment>): Loaded {
    if segs == [] then Loaded(m)
    else
      match LoadSegments(m, segs[..|segs| - 1])
      case Failed => Failed
      case Loaded(m') => LoadSegment(m', segs[|segs| - 1])
  }

  method AllocLoop(memory: Memory, seg: Segment)
    requires memory.Valid() && seg.Valid()
    modifies memory.Repr
    ensures memory.Valid() && fresh(memory.Repr - old(memory.Repr))
    ensures memory.Contents == AllocPages(old(memory.Contents), PageOf(seg.start), seg.PageCount())
  {
    hide Memory.Valid, WithPage;
    var p := seg.start;
    ghost var n := 0;
    while p < seg.start + seg.memSize
      invariant memory.Valid() && fresh(memory.Repr - old(memory.Repr))
      invariant p == seg.start + n * PAGE && n <= seg.PageCount()
      invariant memory.Contents == AllocPages(old(memory.Contents), PageOf(seg.start), n)
      decreases seg.start + seg.memSize - p
    {
      var present := memory.IsValidAddr(p);
      if present {
        memory.PagePresent(p);
      } else {
        memory.Alloc(p);
      }
      p := p + PAGE;
      n := n + 1;
    }
  }

  method CopyLoop(memory: Memory, seg: Segment) returns (ok: bool)
    requires memory.Valid() && seg.Valid()
    modifies memory.Repr
    ensures memory.Valid() && fresh(memory.Repr - old(memory.Repr))
    ensures ok <==> Allocated(old(memory.Contents), seg.start, |seg.data|)
    ensures ok ==> memory.Contents == StoreBytes(old(memory.Contents), seg.start, seg.data)
  {
    hide Memory.Valid;
    var p := seg.start;
    while p < seg.start + |seg.data|
      invariant memory.Valid() && memory.Repr == old(memory.Repr) && seg.start <= p <= seg.start + |seg.data|
      invariant memory.Contents.Keys == old(memory.Contents).Keys
      invariant memory.Contents == StoreBytes(old(memory.Contents), seg.start, seg.data[..p - seg.start])
      invariant Allocated(old(memory.Contents), seg.start, p - seg.start)
    {
      ghost var k := p - seg.start;
      assert At(seg.start, k) == p;
      ok := memory.StoreByte(p, seg.data[p - seg.start]);
      if !ok {
        return;
      }
      assert seg.data[..k + 1][..k] == seg.data[..k];
      p := p + 1;
    }
    assert seg.data[..|seg.data|] == seg.data;
    ok := true;
  }

  /** `loader`: a byte whose page no allocation reached exits the process. */
  method Load(memory: Memory, segs: seq<Segment>) returns (ok: bool)
    requires memory.Valid() && forall i :: 0 <= i < |segs| ==> segs[i].Valid()
    modifies memory.Repr
    ensures memory.Valid() && fresh(memory.Repr - old(memory.Repr))
    ensures ok ==> LoadSegments(old(memory.Contents), segs) == Loaded(memory.Contents)
    ensures !ok ==> LoadSegments(old(memory.Contents), segs).Failed?
  {
    hide Memory.Valid, AllocPages, StoreBytes;
    for i := 0 to |segs|
      invariant memory.Valid() && fresh(memory.Repr - old(memory.Repr))
      invariant LoadSegments(old(memory.Contents), segs[..i]) == Loaded(memory.Contents)
    {
      assert segs[..i + 1][..i] == segs[..i];
      AllocLoop(memory, segs[i]);
      ok := CopyLoop(memory, segs[i]);
      if !ok {
        FailureStays(old(memory.Contents), segs, i + 1);
        return;
      }
    }
    assert segs[..|segs|] == segs;
    ok := true;
  }

  lemma {:induction false} FailureStays(m: map<nat, byte>, segs: seq<Segment>, i: nat)
    requires i <= |segs| && LoadSegments(m, segs[..i]).Failed?
    ensures LoadSegments(m, segs).Failed?
    decreases |segs| - i
  {
    hide LoadSegment;
    if i < |segs| {
      assert segs[..i + 1][..i] == segs[..i];
      FailureStays(m, segs, i + 1);
    } else {
      assert segs[..i] == segs;
    }
  }

  // What loading leaves.

  /** The allocation loop reaches the segment's last page. */
  predicate ReachesEnd(seg: Segment) { seg.start % PAGE + (seg.memSize - 1) % PAGE < PAGE }

  lemma {:induction false} PagesAllocated(m: map<nat, byte>, first: nat, count: nat, a: nat)
    ensures a in AllocPages(m, first, count) <==> a in m || first <= PageOf(a) < first + count
    ensures a in m ==> AllocPages(m, first, count)[a] == m[a]
    ensures a !in m && first <= PageOf(a) < first + count ==> AllocPages(m, first, count)[a] == 0
  {
    hide PageOf;
    if count > 0 {
      PagesAllocated(m, first, count - 1, a);
      PageMember(first + count - 1, a);
    }
  }

  lemma PageMember(n: nat, a: nat)
    ensures a in ZeroPage(n) <==> PageOf(a) == n
    ensures a in ZeroPage(n) ==> ZeroPage(n)[a] == 0
  {
  }

  /** The addresses of the segment's memory image. */
  predicate InImage(seg: Segment, a: nat) { seg.start <= a < seg.start + seg.memSize }

  /** Memory comes and goes by whole pages. */
  ghost predicate PagesWhole(m: map<nat, byte>) {
    forall a, b :: a in m && IsAddress(b) && PageOf(a) == PageOf(b) ==> b in m
  }

  /** The segment's last byte. */
  function Last(seg: Segment): int { seg.start + seg.memSize - 1 }

  /**
   * Every byte of the segment's memory image gets a page exactly when the loop reaches its end, or its last
   * page was there.
   */
  lemma SegmentPaged(m: map<nat, byte>, seg: Segment)
    requires seg.Valid() && seg.memSize > 0 && PagesWhole(m)
    ensures (forall a :: InImage(seg, a) ==> a in AllocPages(m, PageOf(seg.start), seg.PageCount())) <==>
            ReachesEnd(seg) || Last(seg) in m
  {
    hide AllocPages, PageOf, ReachesEnd, Segment.PageCount;
    var n, last := seg.PageCount(), seg.start + seg.memSize - 1;
    LastPage(seg);
    PagesAllocated(m, PageOf(seg.start), n, last);
    assert InImage(seg, last);
    if ReachesEnd(seg) || last in m {
      forall a | InImage(seg, a) ensures a in AllocPages(m, PageOf(seg.start), n) {
        ImagePage(m, seg, a);
      }
    }
  }

  lemma ImagePage(m: map<nat, byte>, seg: Segment, a: nat)
    requires seg.Valid() && seg.memSize > 0 && InImage(seg, a) && PagesWhole(m) && (ReachesEnd(seg) || Last(seg) in m)
    ensures a in m || PageOf(seg.start) <= PageOf(a) < PageOf(seg.start) + seg.PageCount()
    ensures a in AllocPages(m, PageOf(seg.start), seg.PageCount())
  {
    hide AllocPages, PageOf, ReachesEnd, Segment.PageCount;
    var last := seg.start + seg.memSize - 1;
    ImageIsAddressed(seg);
    LastPage(seg);
    PageOrder(seg.start, a);
    PageOrder(a, last);
    PagesAllocated(m, PageOf(seg.start), seg.PageCount(), a);
  }

  lemma ImageIsAddressed(seg: Segment)
    requires seg.Valid()
    ensures seg.start + seg.memSize < U32
  {
  }

  lemma PageOrder(a: nat, b: nat)
    requires a <= b
    ensures PageOf(a) <= PageOf(b)
  {
  }

  lemma LastPage(seg: Segment)
    requires seg.memSize > 0
    ensures PageOf(seg.start + seg.memSize - 1) >= PageOf(seg.start)
    ensures PageOf(seg.start + seg.memSize - 1) <= PageOf(seg.start) + seg.PageCount()
    ensures PageOf(seg.start + seg.memSize - 1) < PageOf(seg.start) + seg.PageCount() <==> ReachesEnd(seg)
  {
  }

  /** Two bytes that straddle two pages: the loop allocates the first page only, and copying the second byte fails. */
  lemma StraddlingSegmentFails()
    ensures var seg := Segment(0xFFF, 2, [1, 1]); seg.Valid() && !ReachesEnd(seg) && LoadSegment(map[], seg).Failed?
  {
    var seg := Segment(0xFFF, 2, [1, 1]);
    assert seg.PageCount() == 1 && PageOf(0xFFF) == 0 && PageOf(0x1000) == 1;
    PagesAllocated(map[], 0, 1, 0x1000);
    assert At(seg.start, 1) == 0x1000;
    hide AllocPages;
  }

  /** The byte of the segment's image at an address: its file bytes, then zeros. */
  function ImageAt(seg: Segment, a: nat): byte
    requires seg.start <= a
  {
    if a - seg.start < |seg.data| then seg.data[a - seg.start] else 0
  }

  /** What may be loaded over: no byte of the image holds anything yet. */
  predicate Blank(m: map<nat, byte>, seg: Segment) { forall a :: a in m && InImage(seg, a) ==> m[a] == 0 }

  /** The segment's file bytes fit its memory image. */
  predicate Proper(seg: Segment) { seg.Valid() && |seg.data| <= seg.memSize }

  /** Such a segment, over whole pages, whose last page the allocation loop reaches or finds there. */
  ghost predicate Loadable(m: map<nat, byte>, seg: Segment) {
    Proper(seg) && PagesWhole(m) && (seg.memSize > 0 ==> ReachesEnd(seg) || Last(seg) in m)
  }

  /** The bytes after loading one segment: its image, and everything else as it was, new bytes being zero. */
  function ByteAfter(m: map<nat, byte>, seg: Segment, a: nat): byte {
    if InImage(seg, a) then ImageAt(seg, a) else if a in m then m[a] else 0
  }

  /** A segment loaded over blank memory, whoever else has bytes on its pages, reads back as file bytes then zeros. */
  lemma SegmentImage(m: map<nat, byte>, seg: Segment)
    requires Loadable(m, seg) && Blank(m, seg)
    ensures LoadSegment(m, seg).Loaded?
    ensures var bytes := LoadSegment(m, seg).bytes;
            && (forall a :: InImage(seg, a) || a in m ==> a in bytes)
            && (forall a :: a in bytes ==> bytes[a] == ByteAfter(m, seg, a))
  {
    hide AllocPages, PageOf, StoreBytes, ImageAt, Segment.PageCount, ReachesEnd, Blank, ByteAfter, PagesWhole;
    var paged := AllocPages(m, PageOf(seg.start), seg.PageCount());
    forall k | 0 <= k < |seg.data| ensures At(seg.start, k) in paged {
      assert At(seg.start, k) == seg.start + k && InImage(seg, seg.start + k);
      ByteLoaded(m, seg, seg.start + k);
    }
    forall a: nat
      ensures InImage(seg, a) || a in m ==> a in StoreBytes(paged, seg.start, seg.data)
      ensures a in StoreBytes(paged, seg.start, seg.data) ==>
                StoreBytes(paged, seg.start, seg.data)[a] == ByteAfter(m, seg, a)
    {
      ByteLoaded(m, seg, a);
    }
  }

  lemma ByteLoaded(m: map<nat, byte>, seg: Segment, a: nat)
    requires Loadable(m, seg) && Blank(m, seg)
    ensures var paged := AllocPages(m, PageOf(seg.start), seg.PageCount());
            var bytes := StoreBytes(paged, seg.start, seg.data);
            && (InImage(seg, a) || a in m ==> a in paged && a in bytes)
            && (a in bytes ==> bytes[a] == ByteAfter(m, seg, a))
  {
    hide AllocPages, PageOf, ReachesEnd, StoreBytes, Segment.PageCount;
    var paged := AllocPages(m, PageOf(seg.start), seg.PageCount());
    PagesAllocated(m, PageOf(seg.start), seg.PageCount(), a);
    StoreBytesAt(paged, seg.start, seg.data, a);
    assert forall j :: 0 <= j < |seg.data| ==> At(seg.start, j) == seg.start + j;
    if InImage(seg, a) {
      ImagePage(m, seg, a);
      if a - seg.start < |seg.data| {
        assert At(seg.start, a - seg.start) == a;
      }
    }
  }

  /** No byte belongs to the images of two segments. */
  ghost predicate DisjointImages(segs: seq<Segment>) {
    forall i, j, a :: 0 <= i < j < |segs| ==> !(InImage(segs[i], a) && InImage(segs[j], a))
  }

  ghost predicate InSomeImage(segs: seq<Segment>, a: nat) { exists i :: 0 <= i < |segs| && InImage(segs[i], a) }

  /** The allocation loop for the segment goes over the page of an address. */
  predicate Pages(seg: Segment, a: nat) {
    PageOf(seg.start) <= PageOf(a) < PageOf(seg.start) + seg.PageCount()
  }

  /** It did so for one of the first n segments. */
  ghost predicate PagedBefore(segs: seq<Segment>, n: nat, a: nat)
    requires n <= |segs|
  {
    exists j :: 0 <= j < n && Pages(segs[j], a)
  }

  lemma SegmentKeys(m: map<nat, byte>, seg: Segment, a: nat)
    requires LoadSegment(m, seg).Loaded?
    ensures a in LoadSegment(m, seg).bytes <==> a in m || Pages(seg, a)
  {
    hide PageOf, Segment.PageCount, AllocPages;
    var paged := AllocPages(m, PageOf(seg.start), seg.PageCount());
    PagesAllocated(m, PageOf(seg.start), seg.PageCount(), a);
    StoreKeepsKeys(paged, seg.start, seg.data);
  }

  lemma {:induction false} StoreKeepsKeys(m: map<nat, byte>, addr: nat, content: seq<byte>)
    requires Allocated(m, addr, |content|)
    ensures StoreBytes(m, addr, content).Keys == m.Keys
  {
    if content != [] {
      var n := |content| - 1;
      StoreKeepsKeys(m, addr, content[..n]);
      assert At(addr, n) in m;
    }
  }

  /** Loaded memory consists of the pages that the loops have gone over. */
  lemma {:induction false} LoadedKeys(segs: seq<Segment>)
    requires LoadSegments(map[], segs).Loaded?
    ensures var bytes := LoadSegments(map[], segs).bytes;
            PagesWhole(bytes) && forall a: nat :: a in bytes <==> PagedBefore(segs, |segs|, a)
    decreases |segs|
  {
    hide LoadSegment, Segment.PageCount;
    if segs != [] {
      var n := |segs| - 1;
      var before := segs[..n];
      LoadedKeys(before);
      var m, bytes := LoadSegments(map[], before).bytes, LoadSegments(map[], segs).bytes;
      forall a: nat ensures a in bytes <==> PagedBefore(segs, n + 1, a) {
        SegmentKeys(m, segs[n], a);
        SamePagedBefore(segs, n, n, a);
        assert PagedBefore(segs, n + 1, a) <==> PagedBefore(segs, n, a) || Pages(segs[n], a);
      }
      SamePageSameFate(segs);
    }
  }

  lemma SamePagedBefore(segs: seq<Segment>, n: nat, i: nat, a: nat)
    requires i <= n <= |segs|
    ensures PagedBefore(segs, i, a) <==> PagedBefore(segs[..n], i, a)
  {
    hide Pages;
    forall j | 0 <= j < i ensures segs[..n][j] == segs[j] {
    }
  }

  lemma SamePageSameFate(segs: seq<Segment>)
    ensures forall a: nat, b: nat :: PageOf(a) == PageOf(b) ==>
              (PagedBefore(segs, |segs|, a) <==> PagedBefore(segs, |segs|, b))
  {
    hide PageOf, Segment.PageCount;
  }

  /**
   * Loading disjoint segments into an empty memory succeeds and leaves every segment's file bytes followed
   * by zeros, and zeros around them, also where segments share a page. The page of a segment's last byte must
   * have been gone over by its own loop or an earlier one.
   */
  lemma {:induction false} ProgramImage(segs: seq<Segment>)
    requires (forall i :: 0 <= i < |segs| ==> Proper(segs[i])) && DisjointImages(segs)
    requires forall i :: 0 <= i < |segs| && segs[i].memSize > 0 ==>
               ReachesEnd(segs[i]) || PagedBefore(segs, i, Last(segs[i]))
    ensures LoadSegments(map[], segs).Loaded?
    ensures var bytes := LoadSegments(map[], segs).bytes;
            && (forall i, a :: 0 <= i < |segs| && InImage(segs[i], a) ==> a in bytes && bytes[a] == ImageAt(segs[i], a))
            && (forall a :: a in bytes && !InSomeImage(segs, a) ==> bytes[a] == 0)
    decreases |segs|
  {
    hide LoadSegment, Proper, ImageAt, PagedBefore, ReachesEnd;
    if segs != [] {
      var n := |segs| - 1;
      var before, seg := segs[..n], segs[n];
      forall i | 0 <= i < n && before[i].memSize > 0
        ensures ReachesEnd(before[i]) || PagedBefore(before, i, Last(before[i]))
      {
        SamePagedBefore(segs, n, i, Last(segs[i]));
      }
      ProgramImage(before);
      var m := LoadSegments(map[], before).bytes;
      LoadedKeys(before);
      if seg.memSize > 0 {
        SamePagedBefore(segs, n, n, Last(seg));
      }
      forall a | a in m && InImage(seg, a) ensures m[a] == 0 {
        assert !InSomeImage(before, a);
      }
      SegmentImage(m, seg);
      ImagesTogether(segs, m);
    }
  }

  /** The last segment's image joins those before it. */
  lemma ImagesTogether(segs: seq<Segment>, m: map<nat, byte>)
    requires segs != [] && DisjointImages(segs)
    requires var n := |segs| - 1;
             && (forall i, a :: 0 <= i < n && InImage(segs[i], a) ==> a in m && m[a] == ImageAt(segs[i], a))
             && (forall a :: a in m && !InSomeImage(segs[..n], a) ==> m[a] == 0)
    requires var seg := segs[|segs| - 1];
             && LoadSegment(m, seg).Loaded?
             && (forall a :: InImage(seg, a) || a in m ==> a in LoadSegment(m, seg).bytes)
             && (forall a :: a in LoadSegment(m, seg).bytes ==> LoadSegment(m, seg).bytes[a] == ByteAfter(m, seg, a))
    ensures var bytes := LoadSegment(m, segs[|segs| - 1]).bytes;
            && (forall i, a :: 0 <= i < |segs| && InImage(segs[i], a) ==> a in bytes && bytes[a] == ImageAt(segs[i], a))
            && (forall a :: a in bytes && !InSomeImage(segs, a) ==> bytes[a] == 0)
  {
    hide LoadSegment, ImageAt;
    var n := |segs| - 1;
    var bytes := LoadSegment(m, segs[n]).bytes;
    forall i, a | 0 <= i < |segs| && InImage(segs[i], a) ensures a in bytes && bytes[a] == ImageAt(segs[i], a) {
      if i < n {
        assert !InImage(segs[n], a);
      }
    }
    forall a | a in bytes && !InSomeImage(segs, a) ensures bytes[a] == 0 {
      assert !InImage(segs[n], a);
      EarlierImages(segs, a);
    }
  }

  lemma EarlierImages(segs: seq<Segment>, a: nat)
    requires segs != []
    ensures InSomeImage(segs[..|segs| - 1], a) ==> InSomeImage(segs, a)
  {
    var before := segs[..|segs| - 1];
    if InSomeImage(before, a) {
      var i :| 0 <= i < |before| && InImage(before[i], a);
      assert InImage(segs[i], a);
    }
  }
}
