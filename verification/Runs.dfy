/** Whole request sequences through the hierarchy, from a cold start on. */
module Runs {
  import opened Wrappers
  import opened Bits
  import opened Address
  import opened Hierarchy
  import opened Coherence
  import opened Transparency

  datatype Access = Access(addr: nat, op: Op)

  /** What a run returns: the bytes of every read, up to the first fault. */
  datatype Answers = Answers(results: seq<seq<byte>>, faulted: bool)

  function After1(r: seq<byte>, rest: Answers): Answers { rest.(results := [r] + rest.results) }

  function RunHierarchy(st: Storage, trace: seq<Access>): (r: (Answers, Storage))
    requires Shaped(st) && forall k :: 0 <= k < |trace| ==> IsAddress(trace[k].addr)
    ensures Shaped(r.1) && Configs(r.1) == Configs(st)
    decreases |trace|
  {
    hide Request;
    if trace == [] then (Answers([], false), st)
    else
      match Request(st, trace[0].addr, trace[0].op)
      case Fault => (Answers([], true), st)
      case Done(st', data, _, _) =>
        var (a, end) := RunHierarchy(st', trace[1..]);
        (if trace[0].op.Read? then After1(data, a) else a, end)
  }

  function RunFlat(v: map<nat, byte>, trace: seq<Access>): (Answers, map<nat, byte>) {
    if trace == [] then (Answers([], false), v)
    else
      var x := trace[0];
      if !Covers(v, x.addr, x.op.Size()) then (Answers([], true), v)
      else
        var (a, end) := RunFlat(After(v, x.addr, x.op), trace[1..]);
        (if x.op.Read? then After1(Slice(v, x.addr, x.op.count), a) else a, end)
  }

  predicate TraceFits(st: Storage, trace: seq<Access>)
    requires Shaped(st)
  {
    forall k :: 0 <= k < |trace| ==> Fits(st, trace[k].addr, trace[k].op.Size())
  }

  lemma SameConfigsFit(st: Storage, st': Storage, addr: nat, count: nat)
    requires Shaped(st) && Shaped(st') && Configs(st) == Configs(st') && Fits(st, addr, count)
    ensures Fits(st', addr, count)
  {
    if st.Cache? {
      assert st'.Cache? && Configs(st)[0] == st.level.cfg && Configs(st')[0] == st'.level.cfg;
    } else {
      assert st'.Memory?;
    }
  }

  /** Every request sequence gets the answers, and leaves the view, of a flat byte memory. */
  lemma {:induction false} RunIsFlat(st: Storage, trace: seq<Access>)
    requires Sound(st) && TraceFits(st, trace)
    ensures var (answers, end) := RunHierarchy(st, trace);
            Sound(end) && (answers, View(end)) == RunFlat(View(st), trace)
    decreases |trace|
  {
    hide Request, Coheres, BlocksNest, View, After, Offset, Configs;
    if trace == [] {
    } else {
      var x := trace[0];
      RequestServes(st, x.addr, x.op);
      if Covers(View(st), x.addr, x.op.Size()) {
        var st' := Request(st, x.addr, x.op).st;
        forall k | 0 <= k < |trace[1..]| ensures Fits(st', trace[1..][k].addr, trace[1..][k].op.Size()) {
          assert Fits(st, trace[k + 1].addr, trace[k + 1].op.Size());
          SameConfigsFit(st, st', trace[k + 1].addr, trace[k + 1].op.Size());
        }
        RunIsFlat(st', trace[1..]);
      }
    }
  }

  /** Two hierarchies over the same memory are indistinguishable to a program. */
  lemma HierarchiesAgree(st: Storage, other: Storage, trace: seq<Access>)
    requires Sound(st) && Sound(other) && View(st) == View(other)
    requires TraceFits(st, trace) && TraceFits(other, trace)
    ensures var (answers, end) := RunHierarchy(st, trace);
            var (answers', end') := RunHierarchy(other, trace);
            Sound(end) && Sound(end') && answers == answers' && View(end) == View(end')
  {
    hide Coheres, BlocksNest, View, Offset, RunHierarchy, RunFlat;
    RunIsFlat(st, trace);
    RunIsFlat(other, trace);
  }

  /** The state `SetConfig` leaves: no level holds a valid line. */
  predicate Cold(st: Storage) {
    match st
    case Memory(_, _, _) => true
    case Cache(l, lower) => ColdLevel(l) && Cold(lower)
  }

  predicate ColdLevel(l: Level) {
    forall i, w :: 0 <= i < |l.sets| && 0 <= w < |l.sets[i]| ==> !l.sets[i][w].valid
  }

  predicate BlocksGrow(st: Storage)
    requires Shaped(st)
  {
    match st
    case Memory(_, _, _) => true
    case Cache(l, lower) => BlocksNest(l.cfg, lower) && BlocksGrow(lower)
  }

  /** A cold hierarchy over whole pages is sound, and shows the memory itself. */
  lemma {:induction false} ColdIsSound(st: Storage)
    requires Shaped(st) && Cold(st) && BlocksGrow(st) && WholePages(Bottom(st))
    ensures Sound(st) && View(st) == Bottom(st)
  {
    hide WholePages, Pow2, BitAnd, Offset, SetIndex, Tag, KickAddr, BlocksNest;
    match st
    case Memory(_, _, _) => ColdMemory(st);
    case Cache(l, lower) =>
      ColdIsSound(lower);
      forall a | a in View(lower) ensures LineFor(l, a) == None {
        SplitRebuilds(l.cfg.geo, a);
      }
      assert Over(l, View(lower)) == View(lower);
  }

  lemma ColdMemory(st: Storage)
    requires st.Memory? && WholePages(Bottom(st))
    ensures Sound(st)
  {
  }
}
