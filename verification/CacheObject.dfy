/** One cache of the hierarchy in place: its lines live in arrays that a request ages, searches and rewrites. */
module CacheObject {
  import opened Bits
  import opened Address
  import opened Hierarchy
  import opened Transparency
  import PagedMemory

  /** The fields of one `BLK`; its buffer is a row of the cache's data array. */
  datatype Block = Block(tag: nat, dirty: bool, valid: bool, visited: nat)

  /** `lower_`: another cache, or the memory. */
  datatype Lower = ToCache(cache: Cache) | ToMemory(memory: PagedMemory.Memory)

  class Cache {
    const cfg: Config
    const lower: Lower
    const block: array2<Block>
    const blk: array3<byte>
    var stats: Stats
    ghost const depth: nat
    ghost const Repr: set<object>
    ghost var Contents: Level

    // The level itself.

    predicate LineIs(i: nat, w: nat, line: Line)
      requires i < block.Length0 && w < block.Length1
      reads block
    {
      line.tag == block[i, w].tag && line.dirty == block[i, w].dirty && line.valid == block[i, w].valid &&
      line.age == block[i, w].visited
    }

    ghost predicate DataIs(i: nat, w: nat, data: seq<byte>)
      requires i < blk.Length0 && w < blk.Length1
      reads blk
    {
      |data| == blk.Length2 && forall k :: 0 <= k < |data| ==> data[k] == blk[i, w, k]
    }

    ghost predicate Sizes()
      reads this
    {
      cfg.Valid() && LevelShaped(Contents) && Contents.cfg == cfg && Contents.stats == stats &&
      block.Length0 == blk.Length0 == cfg.geo.SetNum() && block.Length1 == blk.Length1 == cfg.ways &&
      blk.Length2 == cfg.geo.BlockSize()
    }

    ghost predicate LineValid(i: nat, w: nat)
      requires Sizes() && i < cfg.geo.SetNum() && w < cfg.ways
      reads this, block, blk
    {
      LineIs(i, w, Contents.sets[i][w]) && DataIs(i, w, Contents.sets[i][w].data)
    }

    /** The arrays hold exactly the lines of the abstract level. */
    ghost predicate LevelValid()
      reads this, block, blk
    {
      Sizes() && forall i, w :: 0 <= i < cfg.geo.SetNum() && 0 <= w < cfg.ways ==> LineValid(i, w)
    }

    /** The loop that ages every valid line, and the counters every access moves. */
    method Arrive()
      requires LevelValid()
      modifies this, block
      ensures LevelValid() && Contents == Hierarchy.Arrive(old(Contents))
    {
      hide Pow2;
      ghost var was := Contents;
      forall i', w | 0 <= i' < cfg.geo.SetNum() && 0 <= w < cfg.ways ensures LineIs(i', w, was.sets[i'][w]) {
        assert LineValid(i', w);
      }
      for i := 0 to block.Length0
        invariant Sizes() && Contents == was
        invariant forall i', w :: 0 <= i' < i && 0 <= w < cfg.ways ==> LineIs(i', w, AgeLine(was.sets[i'][w]))
        invariant forall i', w :: i <= i' < cfg.geo.SetNum() && 0 <= w < cfg.ways ==> LineIs(i', w, was.sets[i'][w])
      {
        for j := 0 to block.Length1
          invariant Sizes() && Contents == was
          invariant forall i', w :: 0 <= i' < i && 0 <= w < cfg.ways ==> LineIs(i', w, AgeLine(was.sets[i'][w]))
          invariant forall i', w :: i < i' < cfg.geo.SetNum() && 0 <= w < cfg.ways ==> LineIs(i', w, was.sets[i'][w])
          invariant forall w :: 0 <= w < j ==> LineIs(i, w, AgeLine(was.sets[i][w]))
          invariant forall w :: j <= w < cfg.ways ==> LineIs(i, w, was.sets[i][w])
        {
          assert LineIs(i, j, was.sets[i][j]);
          if block[i, j].valid {
            block[i, j] := block[i, j].(visited := block[i, j].visited + 1);
          }
        }
      }
      stats := stats.(accesses := stats.accesses + 1, time := stats.time + cfg.Latency());
      Contents := Hierarchy.Arrive(was);
      forall i', w | 0 <= i' < cfg.geo.SetNum() && 0 <= w < cfg.ways ensures LineValid(i', w) {
        assert old(LineValid(i', w)) && LineIs(i', w, AgeLine(was.sets[i'][w]));
      }
    }

    /** `ReplaceDecision`: the first way holding the tag, or the number of ways. */
    method Find(i: nat, tag: nat) returns (w: nat)
      requires LevelValid() && i < cfg.geo.SetNum()
      ensures w <= cfg.ways && w == FindWay(Contents.sets[i], tag)
    {
      w := 0;
      while w < block.Length1
        invariant w <= cfg.ways && FindWay(Contents.sets[i], tag) == FindWay(Contents.sets[i], tag, w)
      {
        assert LineValid(i, w);
        if block[i, w].valid && block[i, w].tag == tag {
          return;
        }
        w := w + 1;
      }
    }

    /** `ReplaceAlgorithm`: the first invalid way, else the first of the oldest. */
    method Choose(i: nat) returns (ret: nat)
      requires LevelValid() && i < cfg.geo.SetNum()
      ensures ret < cfg.ways && ret == Victim(Contents.sets[i])
    {
      var maxT := block[i, 0].visited;
      ret := 0;
      assert LineValid(i, 0);
      var j := 0;
      while j < block.Length1
        invariant ret < cfg.ways && ret <= j <= cfg.ways && LineValid(i, ret) && maxT == block[i, ret].visited
        invariant forall k :: 0 <= k < j ==> Contents.sets[i][k].valid && Contents.sets[i][k].age <= maxT
        invariant forall k :: 0 <= k < ret ==> Contents.sets[i][k].age < maxT
        invariant Victim(Contents.sets[i]) == Victim(Contents.sets[i], ret, j)
      {
        assert LineValid(i, j);
        if !block[i, j].valid {
          ret := j;
          return;
        } else if block[i, j].visited > maxT {
          ret := j;
          maxT := block[i, j].visited;
        }
        j := j + 1;
      }
    }

    /** Copies bytes out of a line's buffer. */
    method CopyOut(i: nat, w: nat, o: nat, n: nat) returns (content: seq<byte>)
      requires LevelValid() && i < cfg.geo.SetNum() && w < cfg.ways && o + n <= cfg.geo.BlockSize()
      ensures content == Contents.sets[i][w].data[o..o + n]
    {
      hide Pow2;
      assert LineValid(i, w);
      ghost var data := Contents.sets[i][w].data;
      content := [];
      for k := 0 to n
        invariant content == data[o..o + k]
      {
        content := content + [blk[i, w, o + k]];
        assert data[o..o + k + 1] == data[o..o + k] + [data[o + k]];
      }
    }

    /** Copies bytes into a line's buffer and sets the line's fields. */
    method Rewrite(i: nat, w: nat, o: nat, content: seq<byte>, fields: Block)
      requires LevelValid() && i < cfg.geo.SetNum() && w < cfg.ways && o + |content| <= cfg.geo.BlockSize()
      modifies this`Contents, block, blk
      ensures LevelValid()
      ensures Contents == Put(old(Contents), i, w,
                              Line(fields.tag, fields.dirty, fields.valid, fields.visited,
                                   Splice(old(Contents).sets[i][w].data, o, content)))
    {
      hide Pow2;
      ghost var was := Contents;
      assert LineValid(i, w);
      ghost var data := was.sets[i][w].data;
      CopyIn(i, w, o, content);
      block[i, w] := fields;
      Contents := Put(was, i, w, Line(fields.tag, fields.dirty, fields.valid, fields.visited, Splice(data, o,
        content)));
      forall i', w' | 0 <= i' < cfg.geo.SetNum() && 0 <= w' < cfg.ways ensures LineValid(i', w') {
        assert old(LineValid(i', w'));
      }
    }

    method CopyIn(i: nat, w: nat, o: nat, content: seq<byte>)
      requires Sizes() && i < cfg.geo.SetNum() && w < cfg.ways && o + |content| <= cfg.geo.BlockSize()
      modifies blk
      ensures forall i', w', k :: 0 <= i' < blk.Length0 && 0 <= w' < blk.Length1 && 0 <= k < blk.Length2 ==>
                blk[i', w', k] ==
                if i' == i && w' == w && o <= k < o + |content| then content[k - o] else old(blk[i', w', k])
    {
      hide Pow2;
      for n := 0 to |content|
        invariant forall i', w', k :: 0 <= i' < blk.Length0 && 0 <= w' < blk.Length1 && 0 <= k < blk.Length2 ==>
                    blk[i', w', k] ==
                    if i' == i && w' == w && o <= k < o + n then content[k - o] else old(blk[i', w', k])
      {
        blk[i, w, o + n] := content[n];
      }
    }

    method CountMiss()
      requires LevelValid()
      modifies this
      ensures LevelValid() && Contents == Hierarchy.CountMiss(old(Contents))
    {
      stats := stats.(misses := stats.misses + 1);
      Contents := Hierarchy.CountMiss(Contents);
      forall i', w | 0 <= i' < cfg.geo.SetNum() && 0 <= w < cfg.ways ensures LineValid(i', w) {
        assert old(LineValid(i', w));
      }
    }
  
    // The chain.

    /** The objects of the levels below; none of them belongs to this level. */
    ghost function Below(): set<object> { Repr - {this, block, blk} }

    ghost predicate LowerValid()
      reads Below()
      decreases depth, 0
    {
      match lower
      case ToCache(c) =>
        c in Below() && c.Repr <= Below() && c.depth < depth && c.Valid() && cfg.geo.offBits <= c.cfg.geo.offBits
      case ToMemory(m) =>
        m in Below() && m.Repr <= Below() && m.Valid()
    }

    ghost predicate Valid()
      reads this, Repr
      decreases depth, 1
    {
      {this, block, blk} <= Repr && LevelValid() && LowerValid() && cfg.geo.offBits <= PAGE_BITS
    }

    ghost function LowerState(): (st: Storage)
      requires LowerValid()
      reads Below()
      ensures Shaped(st)
      decreases depth, 0
    {
      match lower
      case ToCache(c) => c.State()
      case ToMemory(m) => m.State()
    }

    /** The storage this object and everything below it stand for. */
    ghost function State(): (st: Storage)
      requires Valid()
      reads this, Repr
      ensures Shaped(st)
      decreases depth, 1
    {
      Storage.Cache(Contents, LowerState())
    }

    /** `SetConfig` and `SetLower`: every line starts invalid; the buffers' first contents do not matter. */
    constructor (cfg: Config, lower: Lower)
      requires cfg.Valid() && cfg.geo.offBits <= PAGE_BITS
      requires lower.ToCache? ==> lower.cache.Valid() && cfg.geo.offBits <= lower.cache.cfg.geo.offBits
      requires lower.ToMemory? ==> lower.memory.Valid()
      ensures Valid() && this.cfg == cfg && this.lower == lower
      ensures fresh(Repr - if lower.ToCache? then lower.cache.Repr else lower.memory.Repr)
      ensures stats == Stats(0, 0, 0)
      ensures forall i, w :: 0 <= i < |Contents.sets| && 0 <= w < |Contents.sets[i]| ==> !Contents.sets[i][w].valid
    {
      hide Pow2, PagedMemory.Memory.Valid;
      this.cfg := cfg;
      this.lower := lower;
      var sets, bytes := cfg.geo.SetNum(), cfg.geo.BlockSize();
      var b := new Block[sets, cfg.ways]((i, w) => Block(0, false, false, 0));
      var d := new byte[sets, cfg.ways, bytes]((i, w, k) => 0);
      block, blk := b, d;
      stats := Stats(0, 0, 0);
      var data: seq<byte> := seq(bytes, k => 0);
      Contents := Level(cfg, seq(sets, i => seq(cfg.ways, w => Line(0, false, false, 0, data))), Stats(0, 0, 0));
      depth := if lower.ToCache? then lower.cache.depth + 1 else 0;
      Repr := {this, b, d} + if lower.ToCache? then lower.cache.Repr else lower.memory.Repr;
    }

    /** A request to `lower_`; it touches nothing of this level. */
    method AskLower(addr: nat, op: Op) returns (ok: bool, content: seq<byte>, time: nat)
      requires Valid() && IsAddress(addr) && Fits(LowerState(), addr, op.Size())
      modifies Below()
      ensures Valid()
      ensures if ok then
                Request(old(LowerState()), addr, op).Done? && Request(old(LowerState()), addr, op).st == LowerState() &&
                Request(old(LowerState()), addr, op).data == content &&
                  Request(old(LowerState()), addr, op).time == time
              else Request(old(LowerState()), addr, op).Fault?
      decreases depth, 0
    {
      hide Pow2, PagedMemory.Memory.Valid, LevelValid, Request, Offset;
      var hit;
      match lower
      case ToCache(c) => ok, content, hit, time := c.HandleRequest(addr, op);
      case ToMemory(m) => ok, content, hit, time := m.HandleRequest(addr, op);
    }

    method ServeRead(i: nat, w: nat, o: nat, n: nat) returns (content: seq<byte>)
      requires Valid() && i < cfg.geo.SetNum() && w < cfg.ways && o + n <= cfg.geo.BlockSize()
      modifies this, block, blk
      ensures Valid()
      ensures ReadLine(old(Contents), old(LowerState()), i, w, o, n) == Done(State(), content, true, cfg.Latency())
    {
      hide Pow2;
      var b := block[i, w].(visited := 0);
      assert LineValid(i, w);
      SpliceNothing(Contents.sets[i][w].data, o);
      Rewrite(i, w, o, [], b);
      content := CopyOut(i, w, o, n);
    }

    lemma SpliceNothing(data: seq<byte>, o: nat)
      requires o <= |data|
      ensures Splice(data, o, []) == data
    {
    }

    /** Writes into a resident line; a write-through level also writes the level below. */
    method ServeWrite(i: nat, w: nat, addr: nat, o: nat, content: seq<byte>, hit: bool, elapsed: nat)
      returns (ok: bool, time: nat)
      requires Valid() && IsAddress(addr) && i < cfg.geo.SetNum() && w < cfg.ways &&
               o + |content| <= cfg.geo.BlockSize()
      requires Fits(LowerState(), addr, |content|)
      modifies Repr
      ensures Valid()
      ensures if ok then
                WriteLine(old(Contents), old(LowerState()), i, w, addr, o, content, hit, elapsed) == Done(State(),
                  [], hit, time)
              else WriteLine(old(Contents), old(LowerState()), i, w, addr, o, content, hit, elapsed).Fault?
      decreases depth, 1
    {
      hide Pow2, Request, Offset, LevelShaped;
      var fields := block[i, w].(visited := 0, dirty := !cfg.writeThrough);
      LineFields(i, w);
      Rewrite(i, w, o, content, fields);
      time := elapsed;
      ok := true;
      if cfg.writeThrough {
        var t, r;
        ok, r, t := AskLower(addr, Write(content));
        time := elapsed + t;
      }
    }

    lemma LineFields(i: nat, w: nat)
      requires Valid() && i < cfg.geo.SetNum() && w < cfg.ways
      ensures LineIs(i, w, Contents.sets[i][w])
    {
      assert LineValid(i, w);
    }

    /** A write miss without allocation goes straight to the level below. */
    method ServePassThrough(addr: nat, op: Op) returns (ok: bool, time: nat)
      requires Valid() && IsAddress(addr) && op.Write? && Fits(LowerState(), addr, op.Size())
      modifies Repr
      ensures Valid()
      ensures if ok then PassThrough(old(Contents), old(LowerState()), addr, op) == Done(State(), [], false, time)
              else PassThrough(old(Contents), old(LowerState()), addr, op).Fault?
      decreases depth, 1
    {
      hide Pow2, Request, Offset, LevelShaped;
      var t, r;
      ok, r, t := AskLower(addr, op);
      time := cfg.Latency() + t;
    }

    /** Writes the line back to the block it was filled from, when it must be. */
    method ServeWriteBack(i: nat, v: nat) returns (ok: bool, time: nat)
      requires Valid() && i < cfg.geo.SetNum() && v < cfg.ways
      modifies Below()
      ensures Valid()
      ensures var r := WriteBack(old(Contents), old(LowerState()), i, v);
              if ok then r.Done? && r.st == LowerState() && r.time == time else r.Fault?
      decreases depth, 1
    {
      hide Pow2, Request, Offset, LevelShaped;
      LineFields(i, v);
      ok, time := true, 0;
      if !cfg.writeThrough && block[i, v].valid && block[i, v].dirty {
        var kick := KickAddr(cfg.geo, block[i, v].tag, i);
        KickIsAligned(cfg.geo, block[i, v].tag, i);
        var content := CopyOut(i, v, 0, cfg.geo.BlockSize());
        LineData(i, v);
        LowerTakesBlocks(kick, 1);
        var r;
        ok, r, time := AskLower(kick, Write(content));
      }
    }

    lemma LineData(i: nat, w: nat)
      requires LevelValid() && i < cfg.geo.SetNum() && w < cfg.ways
      ensures var data := Contents.sets[i][w].data;
              |data| == cfg.geo.BlockSize() && data[0..|data|] == data
    {
      assert LineValid(i, w);
    }
  
    /** Blocks do not shrink going down, so the level below can take any access this level can, and whole blocks. */
    lemma LowerTakesBlocks(addr: nat, count: nat)
      requires Valid() && Fits(State(), addr, count)
      ensures Fits(LowerState(), addr, count)
      ensures BlockAddr(cfg.geo, addr) >= 0 && IsAddress(BlockAddr(cfg.geo, addr))
      ensures Fits(LowerState(), BlockAddr(cfg.geo, addr), cfg.geo.BlockSize())
      ensures Offset(cfg.geo, addr) == 0 ==> BlockAddr(cfg.geo, addr) == addr
    {
      hide Pow2, Offset, PagedMemory.Memory.Valid;
      SplitRebuilds(cfg.geo, addr);
      FitsBelow(cfg, LowerState(), addr, count);
    }

    /** Fetches the missing block, then writes a dirty victim back. */
    method Fetch(addr: nat, i: nat, v: nat) returns (ok: bool, tmp: seq<byte>, time: nat)
      requires Valid() && IsAddress(addr) && i == SetIndex(cfg.geo, addr) && i < cfg.geo.SetNum()
      requires v < cfg.ways && v == Victim(Contents.sets[i]) && Fits(State(), addr, 1)
      modifies Below()
      ensures Valid()
      ensures var r := Refill(old(Contents), old(LowerState()), addr);
              if ok then
                |tmp| == cfg.geo.BlockSize() &&
                r == Install(Contents, LowerState(), i, v, Line(Tag(cfg.geo, addr), false, true, 0, tmp),
                  cfg.Latency() + time)
              else r.Fault?
      decreases depth, 2
    {
      hide Pow2, Request, Offset, LevelShaped, SetIndex, Tag, WriteBack, Victim, Install;
      LowerTakesBlocks(addr, 1);
      var t1, t2;
      ok, tmp, t1 := AskLower(BlockAddr(cfg.geo, addr), Read(cfg.geo.BlockSize()));
      time := t1;
      if ok {
        ok, t2 := ServeWriteBack(i, v);
        time := t1 + t2;
      }
    }

    /** The missing block takes the victim's place, clean. */
    method ServeRefill(addr: nat, i: nat, tag: nat, v: nat) returns (ok: bool, time: nat)
      requires Valid() && IsAddress(addr) && i == SetIndex(cfg.geo, addr) && tag == Tag(cfg.geo, addr)
      requires i < cfg.geo.SetNum() && v < cfg.ways && v == Victim(Contents.sets[i]) && Fits(State(), addr, 1)
      modifies Repr
      ensures Valid()
      ensures var r := Refill(old(Contents), old(LowerState()), addr);
              if ok then r == Done(State(), [], false, time) else r.Fault?
      decreases depth, 3
    {
      hide Pow2, Request, Offset, LevelShaped, SetIndex, Tag, Refill, Victim;
      var tmp, t;
      ok, tmp, t := Fetch(addr, i, v);
      time := cfg.Latency() + t;
      if ok {
        WholeSplice(i, v, tmp);
        Rewrite(i, v, 0, tmp, Block(tag, false, true, 0));
      }
    }

    lemma WholeSplice(i: nat, w: nat, content: seq<byte>)
      requires LevelValid() && i < cfg.geo.SetNum() && w < cfg.ways && |content| == cfg.geo.BlockSize()
      ensures Splice(Contents.sets[i][w].data, 0, content) == content
    {
      LineData(i, w);
    }

    /** A miss that allocates: refill, then the access to the refilled line. */
    method ServeMiss(addr: nat, op: Op, i: nat, tag: nat, o: nat) returns (ok: bool, content: seq<byte>, time: nat)
      requires Valid() && IsAddress(addr) && Fits(State(), addr, op.Size()) && Fits(LowerState(), addr, op.Size())
      requires i == SetIndex(cfg.geo, addr) && tag == Tag(cfg.geo, addr) && o == Offset(cfg.geo, addr) &&
               i < cfg.geo.SetNum()
      modifies Repr
      ensures Valid()
      ensures var r := MissReply(old(Contents), old(LowerState()), addr, op);
              if ok then r == Done(State(), content, false, time) else r.Fault?
      decreases depth, 4
    {
      hide Pow2, Offset, LevelShaped, SetIndex, Tag, Victim, WriteLine, Refill, Request;
      content := [];
      var v := Choose(i);
      ok, time := ServeRefill(addr, i, tag, v);
      if ok {
        if op.Read? {
          content := CopyOut(i, v, o, op.count);
        } else {
          LowerTakesBlocks(addr, op.Size());
          ok, time := ServeWrite(i, v, addr, o, op.content, false, time);
        }
      }
    }
      /** What follows the lookup: a hit on way w, or a miss when w is the number of ways. */
    method ServeCase(addr: nat, op: Op, i: nat, tag: nat, w: nat) returns (ok: bool, content: seq<byte>, time: nat)
      requires Valid() && IsAddress(addr) && Fits(State(), addr, op.Size())
      requires i == SetIndex(cfg.geo, addr) && tag == Tag(cfg.geo, addr) && i < cfg.geo.SetNum() && w <= cfg.ways
      modifies Repr
      ensures Valid()
      ensures var r := CaseReply(old(Contents), old(LowerState()), addr, op, w);
              if ok then r == Done(State(), content, w < cfg.ways, time) else r.Fault?
      decreases depth, 5
    {
      hide Pow2, Offset, LevelShaped, SetIndex, Tag, Victim, ReadLine, WriteLine, PassThrough, MissReply, Request;
      LowerTakesBlocks(addr, op.Size());
      var o := Offset(cfg.geo, addr);
      content := [];
      if w < cfg.ways {
        if op.Read? {
          content := ServeRead(i, w, o, op.count);
          ok, time := true, cfg.Latency();
        } else {
          ok, time := ServeWrite(i, w, addr, o, op.content, true, cfg.Latency());
        }
      } else {
        CountMiss();
        if op.Write? && !cfg.writeAllocate {
          ok, time := ServePassThrough(addr, op);
        } else {
          ok, content, time := ServeMiss(addr, op, i, tag, o);
        }
      }
    }

    /**
     * One request. `ok` is false when the process exits on an unallocated address somewhere below;
     * otherwise the new contents of the whole chain are those of the specification.
     */
    method HandleRequest(addr: nat, op: Op) returns (ok: bool, content: seq<byte>, hit: bool, time: nat)
      requires Valid() && IsAddress(addr) && Fits(State(), addr, op.Size())
      modifies Repr
      ensures Valid()
      ensures if ok then Request(old(State()), addr, op) == Done(State(), content, hit, time)
              else Request(old(State()), addr, op).Fault?
      decreases depth, 6
    {
      hide Pow2, Offset, LevelShaped, SetIndex, Tag, CaseReply, FindWay, Request;
      SplitRebuilds(cfg.geo, addr);
      RequestCases(Contents, LowerState(), addr, op);
      var i, tag := SetIndex(cfg.geo, addr), Tag(cfg.geo, addr);
      Arrive();
      var w := Find(i, tag);
      hit := w < cfg.ways;
      ok, content, time := ServeCase(addr, op, i, tag, w);
    }
  }
}
