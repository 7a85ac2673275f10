/** Least-recently-used order: what a set holds is decided by the order of last uses alone. */
module Recency {
  import opened Address
  import opened Hierarchy
  import opened Coherence
  import opened Runs

  /** A block of one set, with the number of requests since it was last touched. */
  datatype Entry = Entry(tag: nat, age: nat)

  function Older(l: seq<Entry>): (r: seq<Entry>)
    ensures |r| == |l| && forall p :: 0 <= p < |l| ==> r[p] == Entry(l[p].tag, l[p].age + 1)
  {
    seq(|l|, p requires 0 <= p < |l| => Entry(l[p].tag, l[p].age + 1))
  }

  function IndexOf(l: seq<Entry>, tag: nat): (p: nat)
    ensures p <= |l|
    ensures p < |l| ==> l[p].tag == tag
    ensures forall q :: 0 <= q < p ==> l[q].tag != tag
  {
    if l == [] || l[0].tag == tag then 0 else 1 + IndexOf(l[1..], tag)
  }

  function Without(l: seq<Entry>, tag: nat): (r: seq<Entry>) {
    var p := IndexOf(l, tag);
    if p < |l| then l[..p] + l[p + 1..] else l
  }

  function ToFront(l: seq<Entry>, tag: nat): (r: seq<Entry>) { [Entry(tag, 0)] + Without(l, tag) }

  /** The blocks of set i that a request sequence touched, most recently used first. */
  function Recent(g: Geometry, i: nat, past: seq<Access>): seq<Entry>
    requires g.Valid()
  {
    if past == [] then []
    else
      var n := |past| - 1;
      var older := Older(Recent(g, i, past[..n]));
      if SetIndex(g, past[n].addr) == i then ToFront(older, Tag(g, past[n].addr)) else older
  }

  /** Most recent first: ages strictly increase and no block occurs twice. */
  predicate Ordered(l: seq<Entry>) {
    forall p, q :: 0 <= p < q < |l| ==> l[p].age < l[q].age && l[p].tag != l[q].tag
  }

  predicate Held(ways: seq<Line>, e: Entry) {
    exists j :: 0 <= j < |ways| && ways[j].valid && ways[j].tag == e.tag && ways[j].age == e.age
  }

  predicate Listed(l: seq<Entry>, m: nat, line: Line) {
    exists p :: 0 <= p < |l| && p < m && l[p].tag == line.tag && l[p].age == line.age
  }

  function Min(a: nat, b: nat): nat { if a < b then a else b }

  /** The set holds exactly the first `associativity` blocks of the list, in a prefix of its ways. */
  predicate Tracks(ways: seq<Line>, l: seq<Entry>) {
    Ordered(l) && UniqueTags(ways) &&
    (forall j :: 0 <= j < |ways| ==> (ways[j].valid <==> j < |l|)) &&
    (forall p :: 0 <= p < |l| && p < |ways| ==> Held(ways, l[p])) &&
    (forall j :: 0 <= j < |ways| && j < |l| ==> Listed(l, |ways|, ways[j]))
  }

  predicate SameStamp(x: Line, y: Line) { x.valid == y.valid && x.tag == y.tag && x.age == y.age }

  /** One way takes the tag with age 0; the others keep tag, validity and age. */
  predicate TouchedAt(ways: seq<Line>, ways': seq<Line>, w: nat, tag: nat) {
    |ways'| == |ways| && w < |ways| && ways'[w].valid && ways'[w].tag == tag && ways'[w].age == 0 &&
    forall j :: 0 <= j < |ways| && j != w ==> SameStamp(ways[j], ways'[j])
  }

  function Chosen(ways: seq<Line>, tag: nat): (w: nat)
    requires ways != []
    ensures w < |ways|
  {
    var w := FindWay(ways, tag);
    if w < |ways| then w else Victim(ways)
  }

  lemma HeldWitness(ways: seq<Line>, e: Entry) returns (j: nat)
    requires Held(ways, e)
    ensures j < |ways| && ways[j].valid && ways[j].tag == e.tag && ways[j].age == e.age
  {
    j :| 0 <= j < |ways| && ways[j].valid && ways[j].tag == e.tag && ways[j].age == e.age;
  }

  lemma ListedWitness(l: seq<Entry>, m: nat, line: Line) returns (p: nat)
    requires Listed(l, m, line)
    ensures p < |l| && p < m && l[p].tag == line.tag && l[p].age == line.age
  {
    p :| 0 <= p < |l| && p < m && l[p].tag == line.tag && l[p].age == line.age;
  }

  lemma HeldBy(ways: seq<Line>, e: Entry, j: nat)
    requires j < |ways| && ways[j].valid && ways[j].tag == e.tag && ways[j].age == e.age
    ensures Held(ways, e)
  {
  }

  lemma ListedAs(l: seq<Entry>, m: nat, line: Line, p: nat)
    requires p < |l| && p < m && l[p].tag == line.tag && l[p].age == line.age
    ensures Listed(l, m, line)
  {
  }

  lemma AgeingTracks(ways: seq<Line>, l: seq<Entry>)
    requires Tracks(ways, l)
    ensures Tracks(AgeWays(ways), Older(l))
    ensures forall p :: 0 <= p < |l| ==> Older(l)[p].age > 0
  {
    hide Held, Listed;
    var aged, older := AgeWays(ways), Older(l);
    forall p | 0 <= p < |l| && p < |ways| ensures Held(aged, older[p]) {
      var j := HeldWitness(ways, l[p]);
      HeldBy(aged, older[p], j);
    }
    forall j | 0 <= j < |ways| && j < |l| ensures Listed(older, |ways|, aged[j]) {
      var p := ListedWitness(l, |ways|, ways[j]);
      ListedAs(older, |ways|, aged[j], p);
    }
    AgeingKeepsOrder(ways, l);
  }

  lemma AgeingKeepsOrder(ways: seq<Line>, l: seq<Entry>)
    requires Ordered(l) && UniqueTags(ways)
    ensures Ordered(Older(l)) && UniqueTags(AgeWays(ways))
  {
  }

  /** Where the entry at position p of the reordered list comes from; position 0 is the touched block. */
  function Source(n: nat, p: nat): nat
    requires p > 0
  {
    if p <= n then p - 1 else p
  }

  predicate FrontOf(l: seq<Entry>, tag: nat, n: nat, l': seq<Entry>) {
    n <= |l| && |l'| == (if n < |l| then |l| else |l| + 1) && l'[0] == Entry(tag, 0) &&
    forall p :: 0 < p < |l'| ==> l'[p] == l[Source(n, p)]
  }

  lemma FrontEntries(l: seq<Entry>, tag: nat)
    ensures FrontOf(l, tag, IndexOf(l, tag), ToFront(l, tag))
  {
    hide IndexOf;
  }

  predicate Aged(l: seq<Entry>) { forall p :: 0 <= p < |l| ==> l[p].age > 0 }

  lemma FrontIsOrdered(l: seq<Entry>, tag: nat)
    requires Ordered(l) && Aged(l)
    ensures Ordered(ToFront(l, tag))
  {
    hide Without, IndexOf, ToFront;
    FrontEntries(l, tag);
    var l', n := ToFront(l, tag), IndexOf(l, tag);
    forall p, q | 0 <= p < q < |l'| ensures l'[p].age < l'[q].age && l'[p].tag != l'[q].tag {
      var q0 := Source(n, q);
      assert l'[q] == l[q0] && q0 != n;
      if q0 > n {
        assert l[n].tag != l[q0].tag;
      }
      if p > 0 {
        assert l'[p] == l[Source(n, p)] && Source(n, p) < q0;
      }
    }
  }

  lemma TouchKeepsUnique(ways: seq<Line>, ways': seq<Line>, w: nat, tag: nat)
    requires UniqueTags(ways) && TouchedAt(ways, ways', w, tag) && Others(ways, w, tag)
    ensures UniqueTags(ways')
  {
    forall j, k | 0 <= j < k < |ways'| && ways'[j].valid && ways'[k].valid ensures ways'[j].tag != ways'[k].tag {
      if j != w {
        assert SameStamp(ways[j], ways'[j]) && !Matches(ways[j], tag);
      }
      if k != w {
        assert SameStamp(ways[k], ways'[k]) && !Matches(ways[k], tag);
      }
    }
  }

  lemma HeldElsewhere(ways: seq<Line>, ways': seq<Line>, w: nat, tag: nat, e: Entry)
    requires TouchedAt(ways, ways', w, tag) && Held(ways, e)
    requires ways[w].valid ==> e.tag != ways[w].tag
    ensures Held(ways', e)
  {
    hide Held;
    var j := HeldWitness(ways, e);
    assert SameStamp(ways[j], ways'[j]);
    HeldBy(ways', e, j);
  }

  /** A hit reorders the list and leaves the same blocks in place. */
  lemma HitTracks(ways: seq<Line>, ways': seq<Line>, l: seq<Entry>, tag: nat)
    requires Tracks(ways, l) && Aged(l)
    requires FindWay(ways, tag) < |ways| && TouchedAt(ways, ways', FindWay(ways, tag), tag)
    ensures Tracks(ways', ToFront(l, tag))
  {
    hide IndexOf, Without, ToFront, FindWay, Held, Listed, Ordered, UniqueTags;
    var w, l', n := FindWay(ways, tag), ToFront(l, tag), IndexOf(l, tag);
    FrontIsOrdered(l, tag);
    FrontEntries(l, tag);
    MatchIsUnique(ways, w, tag);
    TouchKeepsUnique(ways, ways', w, tag);
    var at := ListedWitness(l, |ways|, ways[w]);
    assert n <= at;
    forall p | 0 <= p < |l'| && p < |ways| ensures Held(ways', l'[p]) {
      if p == 0 {
        HeldBy(ways', l'[0], w);
      } else {
        OthersInList(l, tag);
        assert l'[p] == l[Source(n, p)];
        HeldElsewhere(ways, ways', w, tag, l'[p]);
      }
    }
    forall j | 0 <= j < |ways| && j < |l'| ensures Listed(l', |ways|, ways'[j]) {
      if j == w {
        ListedAs(l', |ways|, ways'[w], 0);
      } else {
        assert SameStamp(ways[j], ways'[j]) && !Matches(ways[j], tag);
        var p := ListedWitness(l, |ways|, ways[j]);
        var p' := if p < n then p + 1 else p;
        assert Source(n, p') == p;
        ListedAs(l', |ways|, ways'[j], p');
      }
    }
  }

  lemma MatchIsUnique(ways: seq<Line>, w: nat, tag: nat)
    requires UniqueTags(ways) && w < |ways| && Matches(ways[w], tag)
    ensures Others(ways, w, tag)
  {
  }

  /** The tag's first place in an ordered list is its only one. */
  lemma OthersInList(l: seq<Entry>, tag: nat)
    requires Ordered(l)
    ensures forall q :: 0 <= q < |l| && q != IndexOf(l, tag) ==> l[q].tag != tag
  {
    hide IndexOf;
  }

  /** A miss fills the first free way, or replaces the least recently used block. */
  lemma MissTracks(ways: seq<Line>, ways': seq<Line>, l: seq<Entry>, tag: nat)
    requires ways != [] && Tracks(ways, l) && Aged(l)
    requires FindWay(ways, tag) == |ways| && TouchedAt(ways, ways', Victim(ways), tag)
    ensures Tracks(ways', ToFront(l, tag))
  {
    hide IndexOf, Without, ToFront, FindWay, Victim, Held, Listed, Ordered, UniqueTags;
    var w, l' := Victim(ways), ToFront(l, tag);
    FrontIsOrdered(l, tag);
    FrontEntries(l, tag);
    TouchKeepsUnique(ways, ways', w, tag);
    AbsentIsUnlisted(ways, l, tag);
    VictimIsOldest(ways, l);
    forall p | 0 <= p < |l'| && p < |ways| ensures Held(ways', l'[p]) {
      if p == 0 {
        HeldBy(ways', l'[0], w);
      } else {
        assert l'[p] == l[Source(IndexOf(l, tag), p)];
        if |l| >= |ways| {
          DistinctInList(l, p - 1, |ways| - 1);
        }
        HeldElsewhere(ways, ways', w, tag, l'[p]);
      }
    }
    forall j | 0 <= j < |ways| && j < |l'| ensures Listed(l', |ways|, ways'[j]) {
      if j == w {
        ListedAs(l', |ways|, ways'[w], 0);
      } else {
        assert SameStamp(ways[j], ways'[j]);
        var p := ListedWitness(l, |ways|, ways[j]);
        NotTheVictim(ways, l, w, j, p);
        assert Source(IndexOf(l, tag), p + 1) == p;
        ListedAs(l', |ways|, ways'[j], p + 1);
      }
    }
  }

  lemma DistinctInList(l: seq<Entry>, p: nat, q: nat)
    requires Ordered(l) && p < q < |l|
    ensures l[p].tag != l[q].tag
  {
  }

  lemma NotTheVictim(ways: seq<Line>, l: seq<Entry>, w: nat, j: nat, p: nat)
    requires UniqueTags(ways) && w < |ways| && j < |ways| && j != w && ways[j].valid
    requires p < |l| && p < |ways| && l[p].tag == ways[j].tag
    requires if |l| < |ways| then w == |l| else ways[w].valid && ways[w].tag == l[|ways| - 1].tag
    ensures p + 1 < |ways|
  {
  }

  lemma AbsentIsUnlisted(ways: seq<Line>, l: seq<Entry>, tag: nat)
    requires Tracks(ways, l) && FindWay(ways, tag) == |ways|
    ensures IndexOf(l, tag) >= |ways| || IndexOf(l, tag) == |l|
  {
    hide IndexOf, FindWay, Listed, Held, UniqueTags, Ordered;
    var n := IndexOf(l, tag);
    if n < |l| && n < |ways| {
      var j := HeldWitness(ways, l[n]);
      assert false;
    }
  }

  lemma VictimIsOldest(ways: seq<Line>, l: seq<Entry>)
    requires ways != [] && Tracks(ways, l)
    ensures var w := Victim(ways);
            if |l| < |ways| then w == |l| && !ways[w].valid
            else ways[w].valid && ways[w].tag == l[|ways| - 1].tag
  {
    hide Victim, Listed, Held, UniqueTags;
    var w := Victim(ways);
    if |l| >= |ways| {
      var j := HeldWitness(ways, l[|ways| - 1]);
      var p := ListedWitness(l, |ways|, ways[w]);
    } else {
      assert !ways[|l|].valid;
    }
  }
}
