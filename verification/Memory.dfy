/** The simulated memory: a two-level page table over a 32-bit address space. */
module PagedMemory {
  import opened Bits
  import opened Address
  import opened Hierarchy
  import opened Isa

  const TABLE := 0x400
  const PAGE := 0x1000

  function PDE(addr: nat): nat { addr / 0x40_0000 % 0x400 }
  function PTE(addr: nat): nat { addr / 0x1000 % 0x400 }
  function OFF(addr: nat): nat { addr % 0x1000 }

  /** The number of the page an address lies in. */
  function PageOf(addr: nat): nat { addr / 0x1000 }

  /** The page a directory index and a table index select. */
  function Entry(i: nat, j: nat): nat { i * TABLE + j }

  lemma EntryInverts(i: nat, j: nat)
    requires j < TABLE
    ensures Entry(i, j) / TABLE == i && Entry(i, j) % TABLE == j
  {
  }

  /** The three indices identify the address, and the first two its page: distinct addresses never share a byte. */
  lemma IndicesIdentify(a: nat, b: nat)
    requires IsAddress(a) && IsAddress(b)
    ensures PDE(a) < TABLE && PTE(a) < TABLE && OFF(a) < PAGE
    ensures a == PDE(a) * 0x40_0000 + PTE(a) * 0x1000 + OFF(a) && PageOf(a) == Entry(PDE(a), PTE(a))
    ensures PageOf(a) == PageOf(b) <==> PDE(a) == PDE(b) && PTE(a) == PTE(b)
    ensures PDE(a) == PDE(b) && PTE(a) == PTE(b) && OFF(a) == OFF(b) ==> a == b
  {
  }

  /** The page of an address, freshly allocated: all zero. */
  function ZeroPage(n: nat): map<nat, byte> { map a | n * PAGE <= a < n * PAGE + PAGE && PageOf(a) == n :: 0 }

  /** Allocating adds the page's zero bytes and changes no byte already there. */
  function WithPage(m: map<nat, byte>, n: nat): map<nat, byte> { ZeroPage(n) + m }

  function ReadAt(m: map<nat, byte>, addr: nat, n: nat): (r: seq<byte>)
    requires Allocated(m, addr, n)
    ensures |r| == n && forall k :: 0 <= k < n ==> r[k] == m[At(addr, k)]
  {
    seq(n, k requires 0 <= k < n => m[At(addr, k)])
  }

  lemma {:induction false} ToBytesAt(v: nat, n: nat, i: nat)
    requires i < n
    ensures v / Pow2(8 * i) >= 0 && ToBytes(v, n)[i] == v / Pow2(8 * i) % 256
  {
    DivNonNegative(v, Pow2(8 * i));
    if i > 0 {
      ToBytesAt(v / 256, n - 1, i - 1);
      assert Pow2(8) == 256;
      Pow2Add(8, 8 * (i - 1));
      DivDiv(v, 256, Pow2(8 * (i - 1)));
    }
  }

  lemma {:induction false} FromBytesSnoc(s: seq<byte>, b: byte)
    ensures FromBytes(s + [b]) == FromBytes(s) + b * Pow2(8 * |s|)
  {
    if s == [] {
      assert s + [b] == [b];
      assert FromBytes([b]) == b + 256 * FromBytes([]);
    } else {
      FromBytesSnoc(s[1..], b);
      assert (s + [b])[1..] == s[1..] + [b];
      assert Pow2(8) == 256;
      Pow2Add(8, 8 * (|s| - 1));
      assert 256 * (b * Pow2(8 * (|s| - 1))) == b * Pow2(8 * |s|);
    }
  }

  /** Reading back the low bytes of a value gives the value modulo 2^(8n). */
  lemma {:induction false} BytesRoundTrip(v: nat, n: nat)
    ensures FromBytes(ToBytes(v, n)) == v % Pow2(8 * n)
  {
    if n == 0 {
      assert Pow2(0) == 1;
    } else {
      BytesRoundTrip(v / 256, n - 1);
      var p := Pow2(8 * (n - 1));
      assert Pow2(8) == 256;
      Pow2Add(8, 8 * (n - 1));
      assert FromBytes(ToBytes(v, n)) == v % 256 + 256 * (v / 256 % p) by {
        assert ToBytes(v, n)[1..] == ToBytes(v / 256, n - 1);
      }
      ByteThenRest(v, p);
    }
  }

  lemma ByteThenRest(v: nat, p: nat)
    requires p > 0
    ensures v % 256 + 256 * (v / 256 % p) == v % (256 * p)
  {
    DivDiv(v, 256, p);
    assert v % 256 + 256 * (v / 256 % p) < 256 * p;
    DivModUnique(v, 256 * p, v / 256 / p, v % 256 + 256 * (v / 256 % p));
  }

  lemma {:induction false} StoreBytesAt(m: map<nat, byte>, addr: nat, content: seq<byte>, a: nat)
    requires |content| <= U32
    ensures a in StoreBytes(m, addr, content) <==>
            a in m || exists k :: 0 <= k < |content| && At(addr, k) == a
    ensures forall k :: 0 <= k < |content| && At(addr, k) == a ==> StoreBytes(m, addr, content)[a] == content[k]
    ensures a in m && (forall k :: 0 <= k < |content| ==> At(addr, k) != a) ==> StoreBytes(m, addr, content)[a] == m[a]
  {
    if content != [] {
      var n := |content| - 1;
      StoreBytesAt(m, addr, content[..n], a);
      forall k | 0 <= k < n && At(addr, k) == a ensures At(addr, n) != a {
        AtInjective(addr, k, n);
      }
    }
  }

  lemma AtInjective(addr: nat, k: nat, n: nat)
    requires k < n < U32
    ensures At(addr, k) != At(addr, n)
  {
  }

  /** Little-endian load after store: the stored value modulo 256^n comes back. */
  lemma LoadAfterStore(m: map<nat, byte>, addr: nat, v: nat, n: nat)
    requires n <= U32 && Allocated(m, addr, n)
    ensures var m' := StoreBytes(m, addr, ToBytes(v, n));
            Allocated(m', addr, n) && FromBytes(ReadAt(m', addr, n)) == v % Pow2(8 * n)
  {
    hide StoreBytes, FromBytes, ToBytes;
    var m', bytes := StoreBytes(m, addr, ToBytes(v, n)), ToBytes(v, n);
    forall k | 0 <= k < n ensures At(addr, k) in m' && m'[At(addr, k)] == bytes[k] {
      StoreBytesAt(m, addr, bytes, At(addr, k));
    }
    assert ReadAt(m', addr, n) == bytes;
    BytesRoundTrip(v, n);
  }

  type Page = array<byte>
  type Table = array<array?<byte>>

  class Memory {
    const directory: array<array?<array?<byte>>>
    const latency: nat
    var accessTime: nat
    ghost var Contents: map<nat, byte>
    ghost var Tables: map<nat, Table>
    ghost var Pages: map<nat, Page>
    ghost var Repr: set<object>

    /** The directory's tables, each its own array. */
    ghost predicate DirectoryValid()
      reads this, Repr
    {
      this in Repr && directory in Repr && directory.Length == TABLE &&
      (forall i :: i in Tables ==> i < TABLE && Tables[i] in Repr && Tables[i].Length == TABLE) &&
      (forall i :: 0 <= i < TABLE ==> directory[i] == if i in Tables then Tables[i] else null) &&
      (forall i, j :: i in Tables && j in Tables && i != j ==> Tables[i] != Tables[j])
    }

    /** The tables' pages, each its own array. */
    ghost predicate TablesValid()
      requires DirectoryValid()
      reads this, Repr
    {
      (forall n :: n in Pages ==> n / TABLE in Tables && Pages[n] in Repr && Pages[n].Length == PAGE) &&
      (forall i, j :: i in Tables && 0 <= j < TABLE ==>
         Tables[i][j] == if Entry(i, j) in Pages then Pages[Entry(i, j)] else null) &&
      (forall n, m :: n in Pages && m in Pages && n != m ==> Pages[n] != Pages[m])
    }

    /** The bytes of the allocated pages, and nothing else. */
    ghost predicate ContentsValid()
      requires DirectoryValid() && TablesValid()
      reads this, Repr
    {
      (forall a :: a in Contents <==> IsAddress(a) && PageOf(a) in Pages) &&
      (forall a :: a in Contents ==> Contents[a] == Pages[PageOf(a)][OFF(a)])
    }

    ghost predicate Valid()
      reads this, Repr
      ensures Valid() ==> this in Repr
    {
      DirectoryValid() && TablesValid() && ContentsValid()
    }

    constructor (latency: nat)
      ensures Valid() && fresh(Repr)
      ensures Contents == map[] && accessTime == 0 && this.latency == latency
    {
      directory := new array?<array?<byte>>[TABLE](_ => null);
      this.latency := latency;
      accessTime := 0;
      Contents := map[];
      Tables := map[];
      Pages := map[];
      new;
      Repr := {this, directory};
    }

    method IsValidAddr(addr: nat) returns (valid: bool)
      requires Valid() && IsAddress(addr)
      ensures valid <==> addr in Contents
      ensures valid ==>
                PageOf(addr) in Pages && PDE(addr) < directory.Length && directory[PDE(addr)] != null &&
                PTE(addr) < directory[PDE(addr)].Length && directory[PDE(addr)][PTE(addr)] == Pages[PageOf(addr)]
    {
      IndicesIdentify(addr, addr);
      valid := directory[PDE(addr)] != null && directory[PDE(addr)][PTE(addr)] != null;
    }

    /** Reading an unallocated address exits the process: `ok` is false. */
    method LoadByte(addr: nat) returns (ok: bool, val: byte)
      requires Valid() && IsAddress(addr)
      ensures ok <==> addr in Contents
      ensures ok ==> val == Contents[addr]
    {
      val := 0;
      ok := IsValidAddr(addr);
      if ok {
        val := directory[PDE(addr)][PTE(addr)][OFF(addr)];
      }
    }

    /** Writing one byte of one page leaves every other byte of every page alone. */
    method Poke(page: Page, ghost n: nat, k: nat, val: byte, ghost next: map<nat, byte>)
      requires DirectoryValid() && TablesValid() && n in Pages && Pages[n] == page && k < PAGE
      modifies page, this`Contents
      ensures DirectoryValid() && TablesValid() && Contents == next
      ensures forall m :: m in Pages ==> Pages[m].Length == PAGE
      ensures forall m, j :: m in Pages && 0 <= j < PAGE ==>
                Pages[m][j] == if m == n && j == k then val else old(Pages[m][j])
    {
      hide Entry;
      page[k] := val;
      Contents := next;
    }

    method StoreByte(addr: nat, val: byte) returns (ok: bool)
      requires Valid() && IsAddress(addr)
      modifies Repr
      ensures Valid() && Repr == old(Repr) && accessTime == old(accessTime)
      ensures ok <==> addr in old(Contents)
      ensures Contents == if ok then old(Contents)[addr := val] else old(Contents)
    {
      hide DirectoryValid, TablesValid, PDE, PTE, Entry, PageOf, OFF;
      ok := IsValidAddr(addr);
      if ok {
        PageInRepr(PageOf(addr));
        SameOffset(addr, addr);
        Poke(directory[PDE(addr)][PTE(addr)], PageOf(addr), OFF(addr), val, Contents[addr := val]);
        forall a | a in Contents ensures OFF(a) < PAGE && Contents[a] == Pages[PageOf(a)][OFF(a)] {
          SameOffset(a, addr);
        }
      }
    }

    lemma PageInRepr(n: nat)
      requires Valid() && n in Pages
      ensures Pages[n] in Repr && Pages[n].Length == PAGE
    {
    }

    lemma SameOffset(a: nat, b: nat)
      ensures PageOf(a) == PageOf(b) && OFF(a) == OFF(b) ==> a == b
      ensures OFF(a) < PAGE
    {
    }

    /** `alloc`: adds one zeroed page; a second allocation of a page changes nothing. */
    method Alloc(addr: nat)
      requires Valid() && IsAddress(addr)
      modifies Repr
      ensures Valid() && fresh(Repr - old(Repr)) && accessTime == old(accessTime)
      ensures Contents == WithPage(old(Contents), PageOf(addr))
    {
      hide Valid, PDE, PageOf, WithPage;
      var valid := IsValidAddr(addr);
      if valid {
        PagePresent(addr);
        return;
      }
      AddTable(addr);
      AddPage(addr);
    }

    lemma PagePresent(addr: nat)
      requires Valid() && IsAddress(addr) && addr in Contents
      ensures WithPage(Contents, PageOf(addr)) == Contents
    {
      hide DirectoryValid, TablesValid, PageOf;
      var zero := ZeroPage(PageOf(addr));
      PageAddresses(PageOf(addr), addr);
      assert forall a :: a in zero ==> a in Contents;
    }

    lemma PageAddresses(n: nat, addr: nat)
      requires PageOf(addr) == n
      ensures forall a :: a in ZeroPage(n) <==> PageOf(a) == n && a >= 0
      ensures IsAddress(addr) ==> forall a :: a in ZeroPage(n) ==> IsAddress(a)
      ensures forall a :: a in ZeroPage(n) ==> ZeroPage(n)[a] == 0 && OFF(a) < PAGE
    {
    }

    method AddTable(addr: nat)
      requires Valid() && IsAddress(addr)
      modifies Repr
      ensures Valid() && fresh(Repr - old(Repr)) && accessTime == old(accessTime)
      ensures PDE(addr) in Tables && Contents == old(Contents)
    {
      hide PTE, OFF, PageOf, Entry;
      var i := PDE(addr);
      if directory[i] == null {
        var table := new array?<byte>[TABLE](_ => null);
        NoPagesYet(i);
        InstallTable(i, table);
      }
    }

    lemma NoPagesYet(i: nat)
      requires Valid() && i !in Tables
      ensures forall j :: 0 <= j < TABLE ==> Entry(i, j) !in Pages
    {
      forall j | 0 <= j < TABLE ensures Entry(i, j) !in Pages {
        EntryInverts(i, j);
      }
    }

    method InstallTable(i: nat, table: Table)
      requires Valid() && i < TABLE && i !in Tables && table !in Repr && table.Length == TABLE
      requires forall j :: 0 <= j < TABLE ==> table[j] == null && Entry(i, j) !in Pages
      modifies Repr
      ensures Valid() && Repr == old(Repr) + {table} && accessTime == old(accessTime)
      ensures i in Tables && Contents == old(Contents)
    {
      hide PTE, OFF, PageOf, Entry;
      directory[i] := table;
      Tables := Tables[i := table];
      Repr := Repr + {table};
    }

    method AddPage(addr: nat)
      requires Valid() && IsAddress(addr) && PDE(addr) in Tables && addr !in Contents
      modifies Repr
      ensures Valid() && fresh(Repr - old(Repr)) && accessTime == old(accessTime)
      ensures Contents == WithPage(old(Contents), PageOf(addr))
    {
      hide DirectoryValid, TablesValid, PDE, PTE, Entry;
      var page := new byte[PAGE](_ => 0);
      ghost var n := PageOf(addr);
      LinkPage(addr, page, WithPage(Contents, n));
      PageAddresses(n, addr);
      ghost var before := old(Contents);
      forall a ensures a in Contents <==> IsAddress(a) && PageOf(a) in Pages {
        assert a in Contents <==> a in before || a in ZeroPage(n);
      }
      forall a | a in Contents ensures Contents[a] == Pages[PageOf(a)][OFF(a)] {
        SameOffset(a, a);
      }
    }

    /** Writing one entry of one table leaves every other entry of every table alone. */
    method SetEntry(i: nat, j: nat, page: Page)
      requires DirectoryValid() && i in Tables && j < TABLE && page !in Repr
      modifies Tables[i]
      ensures DirectoryValid()
      ensures forall k, m :: k in Tables && 0 <= m < TABLE ==>
                Tables[k][m] == if k == i && m == j then page else old(Tables[k][m])
    {
      directory[i][j] := page;
    }

    /** What the tables hold once page `n` is linked, and before the ghost state says so. */
    ghost predicate Linked(n: nat, page: Page)
      requires DirectoryValid()
      reads this, Repr
    {
      && page !in Repr && page.Length == PAGE && n !in Pages && n / TABLE in Tables
      && (forall m :: m in Pages ==> m / TABLE in Tables && Pages[m] in Repr && Pages[m].Length == PAGE)
      && (forall i, j :: i in Tables && 0 <= j < TABLE ==>
            Tables[i][j] == if Entry(i, j) == n then page else if Entry(i, j) in Pages then Pages[Entry(i, j)]
              else null)
      && (forall m, k :: m in Pages && k in Pages && m != k ==> Pages[m] != Pages[k])
    }

    method NotePage(ghost n: nat, page: Page, ghost next: map<nat, byte>)
      requires DirectoryValid() && Linked(n, page)
      modifies this`Pages, this`Repr, this`Contents
      ensures DirectoryValid() && TablesValid() && Repr == old(Repr) + {page}
      ensures Contents == next && Pages == old(Pages)[n := page]
    {
      hide Entry;
      Pages := Pages[n := page];
      Repr := Repr + {page};
      Contents := next;
    }

    lemma LinkEntry(i: nat, j: nat, page: Page)
      requires DirectoryValid() && i in Tables && j < TABLE && Entry(i, j) !in Pages && page !in Repr &&
               page.Length == PAGE
      requires forall m :: m in Pages ==> m / TABLE in Tables && Pages[m] in Repr && Pages[m].Length == PAGE
      requires forall m, k :: m in Pages && k in Pages && m != k ==> Pages[m] != Pages[k]
      requires forall k, m :: k in Tables && 0 <= m < TABLE ==>
                 Tables[k][m] ==
                 if k == i && m == j then page else if Entry(k, m) in Pages then Pages[Entry(k, m)] else null
      ensures Linked(Entry(i, j), page)
    {
      EntryInverts(i, j);
      forall k, m | k in Tables && 0 <= m < TABLE
        ensures Tables[k][m] ==
                if Entry(k, m) == Entry(i, j) then page else if Entry(k, m) in Pages then Pages[Entry(k, m)] else null
      {
        EntryInverts(k, m);
      }
      hide Entry;
    }

    method LinkPage(addr: nat, page: Page, ghost next: map<nat, byte>)
      requires Valid() && IsAddress(addr) && PDE(addr) in Tables && addr !in Contents
      requires page !in Repr && page.Length == PAGE
      modifies Repr
      ensures DirectoryValid() && TablesValid() && Repr == old(Repr) + {page} && accessTime == old(accessTime)
      ensures Contents == next && Pages == old(Pages)[PageOf(addr) := page]
      ensures forall m :: m in Pages ==> Pages[m].Length == PAGE
      ensures forall m :: m in old(Pages) ==>
                Pages[m] == old(Pages[m]) && m != PageOf(addr) && Pages[m][..] == old(Pages[m][..])
      ensures page[..] == old(page[..])
    {
      hide PDE, PTE, OFF, PageOf, Entry;
      IndicesIdentify(addr, addr);
      SetEntry(PDE(addr), PTE(addr), page);
      LinkEntry(PDE(addr), PTE(addr), page);
      NotePage(PageOf(addr), page, next);
    }

    /** `store`: the value's bytes, least significant first; an unallocated byte exits the process. */
    method Store(addr: nat, val: nat, bytes: nat) returns (ok: bool)
      requires Valid() && IsAddress(addr) && bytes <= U32
      modifies Repr
      ensures Valid() && Repr == old(Repr) && accessTime == old(accessTime)
      ensures ok <==> Allocated(old(Contents), addr, bytes)
      ensures ok ==> Contents == StoreBytes(old(Contents), addr, ToBytes(val, bytes))
    {
      hide Valid, ToBytes, FromBytes;
      ghost var content := ToBytes(val, bytes);
      for i := 0 to bytes
        invariant Valid() && Repr == old(Repr) && accessTime == old(accessTime)
        invariant Contents == StoreBytes(old(Contents), addr, content[..i]) && Contents.Keys == old(Contents).Keys
        invariant forall k :: 0 <= k < i ==> At(addr, k) in old(Contents)
      {
        ToBytesAt(val, bytes, i);
        ok := StoreByte(At(addr, i), val / Pow2(8 * i) % 256);
        if !ok {
          return;
        }
        assert content[..i + 1][..i] == content[..i];
      }
      assert content[..bytes] == content;
      ok := true;
    }

    /** `load`: the bytes recombined, least significant first. */
    method Load(addr: nat, bytes: nat) returns (ok: bool, res: nat)
      requires Valid() && IsAddress(addr) && bytes <= 8
      ensures ok <==> Allocated(Contents, addr, bytes)
      ensures ok ==> res == FromBytes(ReadAt(Contents, addr, bytes))
    {
      res := 0;
      for i := 0 to bytes
        invariant Allocated(Contents, addr, i) && res == FromBytes(ReadAt(Contents, addr, i))
      {
        var b;
        ok, b := LoadByte(At(addr, i));
        if !ok {
          return;
        }
        FromBytesSnoc(ReadAt(Contents, addr, i), b);
        assert ReadAt(Contents, addr, i + 1) == ReadAt(Contents, addr, i) + [b];
        res := res + b * Pow2(8 * i);
      }
      ok := true;
    }

    /** The storage this object stands for. */
    ghost function State(): Storage
      reads this
    {
      Storage.Memory(Contents, latency, accessTime)
    }

    /** Every request advances the memory's clock, whatever becomes of it. */
    method Charge()
      requires Valid()
      modifies this`accessTime
      ensures Valid() && accessTime == old(accessTime) + latency
    {
      accessTime := accessTime + latency;
    }

    method LoadBytes(addr: nat, count: nat) returns (ok: bool, content: seq<byte>)
      requires Valid() && IsAddress(addr)
      ensures ok <==> Allocated(Contents, addr, count)
      ensures ok ==> content == ReadAt(Contents, addr, count)
    {
      hide Valid;
      content := [];
      for i := 0 to count
        invariant Allocated(Contents, addr, i) && content == ReadAt(Contents, addr, i)
      {
        var b;
        ok, b := LoadByte(At(addr, i));
        if !ok {
          return;
        }
        content := content + [b];
      }
      ok := true;
    }

    method StoreAll(addr: nat, content: seq<byte>) returns (ok: bool)
      requires Valid() && IsAddress(addr)
      modifies Repr
      ensures Valid() && Repr == old(Repr) && accessTime == old(accessTime)
      ensures ok <==> Allocated(old(Contents), addr, |content|)
      ensures ok ==> Contents == StoreBytes(old(Contents), addr, content)
    {
      hide Valid;
      for i := 0 to |content|
        invariant Valid() && Repr == old(Repr) && accessTime == old(accessTime)
        invariant Contents == StoreBytes(old(Contents), addr, content[..i]) && Contents.Keys == old(Contents).Keys
        invariant Allocated(old(Contents), addr, i)
      {
        ok := StoreByte(At(addr, i), content[i]);
        if !ok {
          return;
        }
        assert content[..i + 1][..i] == content[..i];
      }
      assert content[..|content|] == content;
      ok := true;
    }

    /** `HandleRequest`: `ok` is false when the process exits on an unallocated byte. */
    method HandleRequest(addr: nat, op: Op) returns (ok: bool, content: seq<byte>, hit: bool, time: nat)
      requires Valid() && IsAddress(addr)
      modifies Repr
      ensures Valid() && Repr == old(Repr)
      ensures if ok then Request(old(State()), addr, op) == Done(State(), content, hit, time)
              else Request(old(State()), addr, op).Fault?
    {
      hide Valid;
      hit := true;
      time := latency;
      content := [];
      Charge();
      if op.Read? {
        ok, content := LoadBytes(addr, op.count);
      } else {
        ok := StoreAll(addr, op.content);
      }
    }
  }
}
