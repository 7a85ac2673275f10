/** The section and segment tables of the ELF writer, and the order in which its segments are placed. */
module SegmentOrder {

  const SHT_NULL := 0
  const SHT_NOBITS := 8
  const SHF_ALLOC := 0x2
  const SHF_TLS := 0x400
  const PT_PHDR := 6
  const PT_TLS := 7

  datatype Section = Section(
    kind: nat, flags: nat, size: nat, addrAlign: nat, address: nat, addressSet: bool, offset: nat)

  datatype Segment = Segment(
    kind: nat, align: nat, vaddr: nat, sections: seq<nat>, offset: nat, offsetSet: bool, fileSize: int, memSize: int)

  /** The section takes up bytes in the file. */
  predicate Occupies(s: Section) { s.kind != SHT_NOBITS && s.kind != SHT_NULL }

  // The order of segments.

  /** `std::includes` on the two section lists. */
  predicate Includes(big: seq<nat>, small: seq<nat>) {
    if small == [] then true
    else if big == [] || small[0] < big[0] then false
    else if big[0] < small[0] then Includes(big[1..], small)
    else Includes(big[1..], small[1..])
  }

  predicate Sorted(s: seq<nat>) { forall i, j :: 0 <= i < j < |s| ==> s[i] <= s[j] }

  lemma MultisetHead(s: seq<nat>)
    requires s != []
    ensures multiset(s) == multiset{s[0]} + multiset(s[1..])
  {
    assert s == [s[0]] + s[1..];
  }

  /** Nothing below the head of a sorted list occurs in it. */
  lemma BelowHead(s: seq<nat>, x: nat)
    requires Sorted(s) && s != [] && x < s[0]
    ensures x !in multiset(s)
  {
  }

  lemma SkipHead(big: seq<nat>, small: seq<nat>)
    requires big != [] && small != [] && Sorted(small) && big[0] < small[0]
    ensures multiset(small) <= multiset(big) <==> multiset(small) <= multiset(big[1..])
  {
    MultisetHead(big);
    BelowHead(small, big[0]);
    var s, b, t := multiset(small), multiset(big), multiset(big[1..]);
    if s <= b {
      forall x ensures s[x] <= t[x] {
        if x == big[0] {
          assert s[x] == 0;
        }
      }
    }
  }

  lemma CancelHead(h: nat, a: multiset<nat>, b: multiset<nat>)
    ensures multiset{h} + a <= multiset{h} + b <==> a <= b
  {
    if multiset{h} + a <= multiset{h} + b {
      forall x ensures a[x] <= b[x] {
        assert (multiset{h} + a)[x] <= (multiset{h} + b)[x];
      }
    }
  }

  /** On sorted lists it is inclusion, counting repetitions. */
  lemma {:induction false} IncludesIsInclusion(big: seq<nat>, small: seq<nat>)
    requires Sorted(big) && Sorted(small)
    ensures Includes(big, small) <==> multiset(small) <= multiset(big)
  {
    if small == [] {
    } else if big == [] {
      assert small[0] in multiset(small);
    } else if small[0] < big[0] {
      BelowHead(big, small[0]);
      assert small[0] in multiset(small);
    } else if big[0] < small[0] {
      IncludesIsInclusion(big[1..], small);
      SkipHead(big, small);
    } else {
      IncludesIsInclusion(big[1..], small[1..]);
      MultisetHead(big);
      MultisetHead(small);
      CancelHead(big[0], multiset(small[1..]), multiset(big[1..]));
    }
  }

  /** `is_subsequence_of`. */
  predicate Within(a: Segment, b: Segment) { |a.sections| < |b.sections| && Includes(b.sections, a.sections) }

  function Indices(n: nat): (r: seq<nat>)
    ensures |r| == n && forall i :: 0 <= i < n ==> r[i] == i
  {
    seq(n, i => i)
  }

  function MaxSections(segs: seq<Segment>, worklist: seq<nat>): nat
    requires forall k :: 0 <= k < |worklist| ==> worklist[k] < |segs|
  {
    if worklist == [] then 0
    else
      var rest := MaxSections(segs, worklist[1..]);
      var first := |segs[worklist[0]].sections|;
      if first > rest then first else rest
  }

  /** How long the worklist can keep rotating: up to its first segment with the most sections. */
  function FirstLargest(segs: seq<Segment>, worklist: seq<nat>, most: nat): nat
    requires forall k :: 0 <= k < |worklist| ==> worklist[k] < |segs|
  {
    if worklist == [] || |segs[worklist[0]].sections| == most then 0 else 1 + FirstLargest(segs, worklist[1..], most)
  }

  lemma {:induction false} MaxIsMax(segs: seq<Segment>, worklist: seq<nat>)
    requires forall k :: 0 <= k < |worklist| ==> worklist[k] < |segs|
    ensures forall k :: 0 <= k < |worklist| ==> |segs[worklist[k]].sections| <= MaxSections(segs, worklist)
    ensures worklist != [] ==>
              exists k :: 0 <= k < |worklist| && |segs[worklist[k]].sections| == MaxSections(segs, worklist)
  {
    if worklist != [] {
      MaxIsMax(segs, worklist[1..]);
      if |segs[worklist[0]].sections| > MaxSections(segs, worklist[1..]) {
        assert |segs[worklist[0]].sections| == MaxSections(segs, worklist);
      } else if worklist[1..] != [] {
        var k :| 0 <= k < |worklist[1..]| && |segs[worklist[1..][k]].sections| == MaxSections(segs, worklist[1..]);
        assert |segs[worklist[k + 1]].sections| == MaxSections(segs, worklist);
      }
    }
  }

  lemma {:induction false} MaxOfRotation(segs: seq<Segment>, rest: seq<nat>, first: nat)
    requires first < |segs| && forall k :: 0 <= k < |rest| ==> rest[k] < |segs|
    ensures MaxSections(segs, rest + [first]) == MaxSections(segs, [first] + rest)
  {
    assert ([first] + rest)[1..] == rest;
    if rest == [] {
    } else {
      MaxOfRotation(segs, rest[1..], first);
      assert (rest + [first])[1..] == rest[1..] + [first];
      assert ([first] + rest[1..])[1..] == rest[1..];
    }
  }

  /** A segment that some other one strictly includes is not among the largest, so re-queueing it makes progress. */
  lemma RotationProgress(segs: seq<Segment>, rest: seq<nat>, first: nat, larger: nat)
    requires first < |segs| && forall k :: 0 <= k < |rest| ==> rest[k] < |segs|
    requires larger in rest && |segs[first].sections| < |segs[larger].sections|
    ensures var most := MaxSections(segs, [first] + rest);
            MaxSections(segs, rest + [first]) == most &&
            FirstLargest(segs, rest + [first], most) < FirstLargest(segs, [first] + rest, most)
  {
    hide MaxSections;
    var most := MaxSections(segs, [first] + rest);
    MaxOfRotation(segs, rest, first);
    MaxIsMax(segs, [first] + rest);
    assert ([first] + rest)[1..] == rest;
    var b :| 0 <= b < |rest| && rest[b] == larger;
    assert ([first] + rest)[b + 1] == larger;
    var k :| 0 <= k < |rest| + 1 && |segs[([first] + rest)[k]].sections| == most;
    assert k > 0 && ([first] + rest)[k] == rest[k - 1];
    FirstLargestInPrefix(segs, rest, first, most, k - 1);
  }

  lemma {:induction false} FirstLargestInPrefix(segs: seq<Segment>, rest: seq<nat>, last: nat, most: nat, k: nat)
    requires last < |segs| && forall i :: 0 <= i < |rest| ==> rest[i] < |segs|
    requires k < |rest| && |segs[rest[k]].sections| == most
    ensures FirstLargest(segs, rest + [last], most) == FirstLargest(segs, rest, most)
  {
    if |segs[rest[0]].sections| != most {
      FirstLargestInPrefix(segs, rest[1..], last, most, k - 1);
      assert (rest + [last])[1..] == rest[1..] + [last];
    }
  }

  /** The loop that brings segments at offset 0 to the front only swaps. */
  method BringZeroOffsetsToFront(segs: seq<Segment>) returns (worklist: seq<nat>)
    ensures multiset(worklist) == multiset(Indices(|segs|))
    ensures |worklist| == |segs| && forall k :: 0 <= k < |worklist| ==> worklist[k] < |segs|
  {
    worklist := Indices(|segs|);
    var nextSlot := 0;
    for i := 0 to |worklist|
      invariant nextSlot <= i && |worklist| == |segs|
      invariant forall k :: 0 <= k < |worklist| ==> worklist[k] < |segs|
      invariant multiset(worklist) == multiset(Indices(|segs|))
    {
      if i != nextSlot && segs[worklist[i]].offsetSet && segs[worklist[i]].offset == 0 {
        if segs[worklist[nextSlot]].offset == 0 {
          nextSlot := nextSlot + 1;
        }
        worklist := worklist[i := worklist[nextSlot]][nextSlot := worklist[i]];
        nextSlot := nextSlot + 1;
      }
    }
  }

  predicate InRange(segs: seq<Segment>, list: seq<nat>) { forall k :: 0 <= k < |list| ==> list[k] < |segs| }

  /** No segment of the list is strictly included in a later one. */
  predicate NoneBeforeLarger(segs: seq<Segment>, list: seq<nat>)
    requires InRange(segs, list)
  {
    forall i, j :: 0 <= i < j < |list| ==> !Within(segs[list[i]], segs[list[j]])
  }

  predicate NoneWithin(segs: seq<Segment>, res: seq<nat>, worklist: seq<nat>)
    requires InRange(segs, res) && InRange(segs, worklist)
  {
    forall i, k :: 0 <= i < |res| && 0 <= k < |worklist| ==> !Within(segs[res[i]], segs[worklist[k]])
  }

  /** The position of the first segment that strictly includes the given one, or the length of the list. */
  method FindIncluder(segs: seq<Segment>, seg: nat, list: seq<nat>) returns (i: nat)
    requires seg < |segs| && InRange(segs, list)
    ensures i <= |list| && (i < |list| ==> Within(segs[seg], segs[list[i]]))
    ensures forall k :: 0 <= k < i ==> !Within(segs[seg], segs[list[k]])
  {
    hide Within;
    i := 0;
    while i < |list|
      invariant i <= |list|
      invariant forall k :: 0 <= k < i ==> !Within(segs[seg], segs[list[k]])
    {
      if Within(segs[seg], segs[list[i]]) {
        return;
      }
      i := i + 1;
    }
  }

  lemma Rotated(segs: seq<Segment>, res: seq<nat>, seg: nat, rest: seq<nat>)
    requires seg < |segs| && InRange(segs, res) && InRange(segs, rest) && InRange(segs, [seg] + rest)
    requires NoneWithin(segs, res, [seg] + rest)
    ensures InRange(segs, rest + [seg]) && NoneWithin(segs, res, rest + [seg])
    ensures multiset(rest + [seg]) == multiset([seg] + rest)
  {
    hide Within;
    assert ([seg] + rest)[0] == seg;
    assert forall k :: 0 <= k < |rest| ==> ([seg] + rest)[k + 1] == rest[k];
  }

  lemma Placed(segs: seq<Segment>, res: seq<nat>, seg: nat, rest: seq<nat>)
    requires seg < |segs| && InRange(segs, res) && InRange(segs, rest) && InRange(segs, [seg] + rest)
    requires NoneBeforeLarger(segs, res) && NoneWithin(segs, res, [seg] + rest)
    requires forall k :: 0 <= k < |rest| ==> !Within(segs[seg], segs[rest[k]])
    ensures InRange(segs, res + [seg]) && NoneBeforeLarger(segs, res + [seg]) && NoneWithin(segs, res + [seg], rest)
    ensures multiset(res + [seg]) + multiset(rest) == multiset(res) + multiset([seg] + rest)
  {
    hide Within;
    assert ([seg] + rest)[0] == seg;
    assert forall k :: 0 <= k < |rest| ==> ([seg] + rest)[k + 1] == rest[k];
  }

  /**
   * The worklist sort: it terminates although it re-queues, returns every segment once, and never
   * places a segment before one that strictly includes it.
   */
  method OrderedSegments(segs: seq<Segment>) returns (res: seq<nat>)
    ensures InRange(segs, res) && multiset(res) == multiset(Indices(|segs|))
    ensures NoneBeforeLarger(segs, res)
  {
    hide NoneBeforeLarger, NoneWithin, Includes, MaxSections, FirstLargest;
    var worklist: seq<nat> := BringZeroOffsetsToFront(segs);
    res := [];
    assert NoneBeforeLarger(segs, res) && NoneWithin(segs, res, worklist) by { NothingYet(segs, worklist); }
    while worklist != []
      invariant InRange(segs, worklist) && InRange(segs, res)
      invariant multiset(res) + multiset(worklist) == multiset(Indices(|segs|))
      invariant NoneBeforeLarger(segs, res) && NoneWithin(segs, res, worklist)
      decreases |worklist|, FirstLargest(segs, worklist, MaxSections(segs, worklist))
    {
      var seg: nat, rest: seq<nat> := worklist[0], worklist[1..];
      assert worklist == [seg] + rest;
      var i := FindIncluder(segs, seg, rest);
      if i < |rest| {
        RotationProgress(segs, rest, seg, rest[i]);
        Rotated(segs, res, seg, rest);
        worklist := rest + [seg];
      } else {
        Placed(segs, res, seg, rest);
        res := res + [seg];
        worklist := rest;
      }
    }
  }

  lemma NothingYet(segs: seq<Segment>, worklist: seq<nat>)
    requires InRange(segs, worklist)
    ensures NoneBeforeLarger(segs, []) && NoneWithin(segs, [], worklist)
  {
  }
}
