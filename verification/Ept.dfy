/**
 The class `Ept`: tables filled and split in place, and the list that owns the split tables.
 */
module Ept {
  import opened EptEntries
  import opened EptWalk
  import opened EptSplit
  import opened EptIdentity
  import opened EptRuns
  import opened EptOwnership
  import opened VcpuLayout

  /** The kernel pool, as far as ownership goes: the addresses of the blocks in use. */
  class Pool {
    var live: set<nat>

    constructor ()
      ensures live == {}
    {
      live := {};
    }

    method Take(a: nat)
      requires a !in live
      modifies this
      ensures live == old(live) + {a}
    {
      live := live + {a};
    }

    /** Only a block in use can be freed, so no block is freed twice. */
    method Release(a: nat)
      requires a in live
      modifies this
      ensures live == old(live) - {a}
    {
      live := live - {a};
    }
  }

  /** The tables embedded in a virtual processor, zeroed by `allocate_vcpu`. */
  class PagingStructures {
    const vcpu: nat
    const pml4: array<bv64>
    const pdpt: array<bv64>
    const pdt: seq<array<bv64>>

    constructor (vcpu: nat)
      ensures this.vcpu == vcpu && Shape() && Zeroed()
      ensures forall a :: a in Arrays() ==> fresh(a)
    {
      var top := new bv64[ENTRY_COUNT](_ => 0);
      var second := new bv64[ENTRY_COUNT](_ => 0);
      var rows: seq<array<bv64>> := [];
      while |rows| < ENTRY_COUNT
        invariant |rows| <= ENTRY_COUNT
        invariant top.Length == second.Length == ENTRY_COUNT
        invariant forall i :: 0 <= i < ENTRY_COUNT ==> top[i] == 0 && second[i] == 0
        invariant forall i :: 0 <= i < |rows| ==>
                    fresh(rows[i]) && rows[i].Length == ENTRY_COUNT && rows[i] != top && rows[i] != second
        invariant forall i, k :: 0 <= i < k < |rows| ==> rows[i] != rows[k]
        invariant forall i, j :: 0 <= i < |rows| && 0 <= j < ENTRY_COUNT ==> rows[i][j] == 0
      {
        var row := new bv64[ENTRY_COUNT](_ => 0);
        rows := rows + [row];
      }
      this.vcpu := vcpu;
      pml4 := top;
      pdpt := second;
      pdt := rows;
    }

    ghost predicate Shape() {
      && pml4.Length == pdpt.Length == ENTRY_COUNT && |pdt| == ENTRY_COUNT
      && pml4 != pdpt
      && (forall i :: 0 <= i < ENTRY_COUNT ==> pdt[i].Length == ENTRY_COUNT && pdt[i] != pml4 && pdt[i] != pdpt)
      && (forall i, k :: 0 <= i < k < ENTRY_COUNT ==> pdt[i] != pdt[k])
    }

    ghost function Arrays(): set<array<bv64>> {
      {pml4, pdpt} + set i | 0 <= i < |pdt| :: pdt[i]
    }

    ghost function Rows(n: nat): (rows: seq<seq<bv64>>)
      requires n <= |pdt|
      reads Arrays()
      ensures |rows| == n && forall i :: 0 <= i < n ==> rows[i] == pdt[i][..]
    {
      if n == 0 then [] else Rows(n - 1) + [pdt[n - 1][..]]
    }

    ghost predicate Zeroed()
      reads Arrays()
    {
      && (forall i :: 0 <= i < pml4.Length ==> pml4[i] == 0)
      && (forall i :: 0 <= i < pdpt.Length ==> pdpt[i] == 0)
      && (forall i, j :: 0 <= i < |pdt| && 0 <= j < pdt[i].Length ==> pdt[i][j] == 0)
    }
  }

  /** A page of 512 entries as the allocator hands it out: its address and its words. */
  datatype TablePage = NoPage | TablePage(address: nat, words: array<bv64>)

  /** A node of the list: its own block, and the table it holds. */
  datatype PteEntry = PteEntry(node: nat, address: nat, words: array<bv64>)

  /** The pool blocks that a list owns. */
  ghost function Blocks(list: seq<PteEntry>): set<nat> {
    if list == [] then {} else Blocks(list[..|list| - 1]) + {list[|list| - 1].address, list[|list| - 1].node}
  }

  ghost predicate BlocksDiffer(list: seq<PteEntry>) {
    list == [] ||
    (var rest, last := list[..|list| - 1], list[|list| - 1];
     BlocksDiffer(rest) && last.address !in Blocks(rest) && last.node !in Blocks(rest) && last.address != last.node)
  }

  lemma {:induction false} BlockOf(list: seq<PteEntry>, k: nat)
    requires k < |list| && BlocksDiffer(list)
    ensures list[k].address in Blocks(list) && list[k].node in Blocks(list)
    decreases |list|
  {
    if k < |list| - 1 {
      BlockOf(list[..|list| - 1], k);
    }
  }

  /** Physical addresses of the tables in a list. */
  ghost function TablesOf(list: seq<PteEntry>, mmu: nat -> bv64): seq<bv64> {
    seq(|list|, k requires 0 <= k < |list| => mmu(list[k].address))
  }

  ghost function ArraysOf(list: seq<PteEntry>): set<array<bv64>> {
    set k | 0 <= k < |list| :: list[k].words
  }

  lemma ListGrows(list: seq<PteEntry>, entry: PteEntry, mmu: nat -> bv64)
    ensures TablesOf(list + [entry], mmu) == TablesOf(list, mmu) + [mmu(entry.address)]
    ensures Blocks(list + [entry]) == Blocks(list) + {entry.address, entry.node}
    ensures BlocksDiffer(list + [entry]) <==>
            BlocksDiffer(list) && entry.address !in Blocks(list) && entry.node !in Blocks(list) &&
            entry.address != entry.node
  {
    assert (list + [entry])[..|list|] == list;
  }

  class Ept {
    const paging: PagingStructures
    const mmu: nat -> bv64
    const pages: set<nat>
    const pool: Pool
    var list: seq<PteEntry>

    /** What the tables look like to the processor, and which slot each list node belongs to. */
    ghost var mem: PhysicalMemory
    ghost var slots: seq<Slot>

    ghost function Where(): Layout {
      LayoutOf(paging.vcpu, mmu)
    }

    /** `mem` is the contents of the arrays, each at its physical address. */
    ghost predicate MemoryIsReal()
      reads `mem, `list, paging.Arrays(), ArraysOf(list)
      requires paging.Shape()
    {
      var l := Where();
      && Target(l.pml4) in mem && mem[Target(l.pml4)] == paging.pml4[..]
      && Target(l.pdpt) in mem && mem[Target(l.pdpt)] == paging.pdpt[..]
      && (forall i :: 0 <= i < ENTRY_COUNT ==> l.Pd(i) in mem && mem[l.Pd(i)] == paging.pdt[i][..])
      && (forall k :: 0 <= k < |list| ==>
            Target(mmu(list[k].address)) in mem && mem[Target(mmu(list[k].address))] == list[k].words[..])
    }

    /** What never changes: the arrays, and where they lie. */
    ghost predicate Built() {
      && paging.Shape() && PageAligned(paging.vcpu)
      && Translates(mmu, pages) && IsResident(paging.vcpu, pages) && Where().Valid()
    }

    /** Every split table is an array of its own. */
    ghost predicate TablesAreSeparate()
      reads this`list
    {
      && (forall k :: 0 <= k < |list| ==>
            list[k].words !in paging.Arrays() && list[k].words.Length == ENTRY_COUNT &&
            list[k].address in pages && !InVcpu(paging.vcpu, list[k].address))
      && (forall k, m :: 0 <= k < m < |list| ==> list[k].words != list[m].words)
    }

    ghost predicate IsNotListed(words: array<bv64>)
      reads this`list
    {
      forall k :: 0 <= k < |list| ==> list[k].words != words
    }

    ghost predicate Valid()
      reads this, pool, paging.Arrays(), ArraysOf(list)
    {
      && Built() && MemoryIsReal() && TablesAreSeparate()
      && Skeleton(Where(), mem)
      && Separated(Where(), mem, TablesOf(list, mmu), slots)
      && BlocksDiffer(list) && Blocks(list) <= pool.live
    }

    constructor (paging: PagingStructures, mmu: nat -> bv64, pages: set<nat>, pool: Pool)
      requires paging.Shape() && paging.Zeroed()
      requires PageAligned(paging.vcpu) && Translates(mmu, pages) && IsResident(paging.vcpu, pages)
      modifies paging.Arrays()
      ensures this.paging == paging && this.mmu == mmu && this.pages == pages && this.pool == pool
      ensures Valid() && list == []
      ensures Initial(Where(), mem)
    {
      hide *;
      this.paging := paging;
      this.mmu := mmu;
      this.pages := pages;
      this.pool := pool;
      list := [];
      slots := [];
      new;
      SetupEpt();
      LayoutIsBuilt();
      DescribeEmbedded();
      InitialTablesAreValid();
    }

    lemma LayoutIsBuilt()
      requires paging.Shape() && PageAligned(paging.vcpu) && Translates(mmu, pages) && IsResident(paging.vcpu, pages)
      ensures Built()
    {
      LayoutIsValid(paging.vcpu, mmu, pages);
    }

    lemma InitialTablesAreValid()
      requires Built() && MemoryIsReal() && Initial(Where(), mem) && list == [] && slots == []
      ensures Valid()
    {
      hide Skeleton, Separated, MemoryIsReal, Initial, LayoutOf;
      InitialIsSkeleton(Where(), mem);
      InitialIsSeparated(Where(), mem);
      assert TablesOf(list, mmu) == [];
    }

    /** Records in `mem` what the freshly filled tables look like. */
    ghost method DescribeEmbedded()
      requires Built() && list == []
      requires TopIsSet(Where(), paging.pml4[..]) && PdptIsSet(Where(), paging.pdpt[..])
      requires forall i, j :: 0 <= i < ENTRY_COUNT && 0 <= j < ENTRY_COUNT ==> paging.pdt[i][j] == IdentityLeaf(i, j)
      modifies `mem
      ensures MemoryIsReal() && Initial(Where(), mem)
    {
      hide Target, IsPageAddress, IdentityLeaf, TopIsSet, PdptIsSet, LayoutOf, Initial, EmbeddedMemory;
      hide Layout.Valid, Translates, IsResident;
      var rows := paging.Rows(ENTRY_COUNT);
      InitialFromTables(Where(), paging.pml4[..], paging.pdpt[..], rows);
      mem := EmbeddedMemory(Where(), paging.pml4[..], paging.pdpt[..], rows);
    }

    method SetupEpt()
      requires paging.Shape() && paging.Zeroed()
      modifies paging.Arrays()
      ensures TopIsSet(Where(), paging.pml4[..]) && PdptIsSet(Where(), paging.pdpt[..])
      ensures forall i, j :: 0 <= i < ENTRY_COUNT && 0 <= j < ENTRY_COUNT ==> paging.pdt[i][j] == IdentityLeaf(i, j)
    {
      hide TableEntry, LargeEntry, SlotPfn;
      SetupPml4();
      SetupPdpt();
      SetupPdt();
    }

    method SetupPml4()
      requires paging.Shape()
      modifies paging.pml4
      ensures paging.pml4[..] == old(paging.pml4[..])[0 := TableEntry(old(paging.pml4[0]), mmu(PdptAt(paging.vcpu)))]
    {
      paging.pml4[0] := PutAllRights(paging.pml4[0]);
      paging.pml4[0] := PutFrame(paging.pml4[0], mmu(PdptAt(paging.vcpu)));
    }

    method SetupPdpt()
      requires paging.Shape()
      modifies paging.pdpt
      ensures forall i :: 0 <= i < ENTRY_COUNT ==>
                paging.pdpt[i] == TableEntry(old(paging.pdpt[i]), mmu(PdAt(paging.vcpu, i)))
    {
      hide PutAllRights, PutFrame;
      for i := 0 to ENTRY_COUNT
        invariant forall k :: 0 <= k < i ==>
                  paging.pdpt[k] == TableEntry(old(paging.pdpt[k]), mmu(PdAt(paging.vcpu, k)))
        invariant forall k :: i <= k < ENTRY_COUNT ==> paging.pdpt[k] == old(paging.pdpt[k])
      {
        paging.pdpt[i] := PutAllRights(paging.pdpt[i]);
        paging.pdpt[i] := PutFrame(paging.pdpt[i], mmu(PdAt(paging.vcpu, i)));
      }
    }

    method SetupPdt()
      requires paging.Shape()
      modifies paging.pdt
      ensures forall i, j :: 0 <= i < ENTRY_COUNT && 0 <= j < ENTRY_COUNT ==>
                paging.pdt[i][j] == LargeEntry(old(paging.pdt[i][j]), SlotPfn(i, j))
    {
      hide LargeEntry, SlotPfn;
      for i := 0 to ENTRY_COUNT
        invariant forall a, b :: 0 <= a < i && 0 <= b < ENTRY_COUNT ==>
                    paging.pdt[a][b] == LargeEntry(old(paging.pdt[a][b]), SlotPfn(a, b))
        invariant forall a, b :: i <= a < ENTRY_COUNT && 0 <= b < ENTRY_COUNT ==>
                  paging.pdt[a][b] == old(paging.pdt[a][b])
      {
        for j := 0 to ENTRY_COUNT
          invariant forall a, b :: 0 <= a < i && 0 <= b < ENTRY_COUNT ==>
                      paging.pdt[a][b] == LargeEntry(old(paging.pdt[a][b]), SlotPfn(a, b))
          invariant forall b :: 0 <= b < j ==> paging.pdt[i][b] == LargeEntry(old(paging.pdt[i][b]), SlotPfn(i, b))
          invariant forall b :: j <= b < ENTRY_COUNT ==> paging.pdt[i][b] == old(paging.pdt[i][b])
          invariant forall a, b :: i < a < ENTRY_COUNT && 0 <= b < ENTRY_COUNT ==>
                    paging.pdt[a][b] == old(paging.pdt[a][b])
        {
          paging.pdt[i][j] := LargeEntry(paging.pdt[i][j], SlotPfn(i, j));
        }
      }
    }

    /** What the allocator answers to `new EptPte[512]` and `new PteEntry`: nothing, or blocks used nowhere else. */
    ghost predicate Fresh(granted: TablePage, node: nat)
      reads this, pool
    {
      granted.TablePage? ==>
        && granted.address in pages && granted.words.Length == ENTRY_COUNT
        && !InVcpu(paging.vcpu, granted.address)
        && granted.address !in pool.live && node !in pool.live && node != granted.address
        && granted.words !in paging.Arrays() && IsNotListed(granted.words)
    }

    /** The same answer, as the request that the theorems on whole runs speak of. */
    ghost function GrantOf(granted: TablePage): Grant
      reads if granted.TablePage? then {granted.words} else {}
    {
      if granted.NoPage? then Refused else Granted(mmu(granted.address), granted.words[..])
    }

    /** The loop of `split_page`: every entry of the new table, field by field, from the large PDE. */
    method FillTable(pde: bv64, pte: array<bv64>)
      requires pte.Length == ENTRY_COUNT
      modifies pte
      ensures pte[..] == SplitTable(pde, old(pte[..]))
    {
      hide SplitEntry;
      pte[0] := 0;
      for k := 0 to ENTRY_COUNT
        invariant forall m :: 0 <= m < k ==> pte[m] == SplitEntry(pde, PriorEntry(old(pte[..]), m), m)
        invariant forall m :: k <= m < ENTRY_COUNT ==> pte[m] == PriorEntry(old(pte[..]), m)
      {
        pte[k] := SplitEntry(pde, pte[k], k);
      }
    }

    /** The writes of `split_page`, in place: the new table is filled, and the slot refers to it. */
    method WriteSplit(i: nat, j: nat, address: nat, pte: array<bv64>)
      requires paging.Shape() && i < ENTRY_COUNT && j < ENTRY_COUNT
      requires pte.Length == ENTRY_COUNT && pte !in paging.Arrays()
      modifies paging.pdt[i], pte
      ensures pte[..] == SplitTable(old(paging.pdt[i][j]), old(pte[..]))
      ensures paging.pdt[i][..] == old(paging.pdt[i][..])[j := SplitPde(old(paging.pdt[i][j]), mmu(address))]
    {
      hide SplitTable, SplitPde, Put;
      ClearedLeafFillsAlike(paging.pdt[i][j], pte[..]);
      paging.pdt[i][j] := Put(paging.pdt[i][j], 0x80, 0);
      FillTable(paging.pdt[i][j], pte);
      paging.pdt[i][j] := SplitPde(paging.pdt[i][j], mmu(address));
    }

    /** The same writes as an update of physical memory. */
    method WriteSplitToMemory(i: nat, j: nat, address: nat, pte: array<bv64>)
      requires Built() && MemoryIsReal() && TablesAreSeparate() && i < ENTRY_COUNT && j < ENTRY_COUNT
      requires pte.Length == ENTRY_COUNT && pte !in paging.Arrays() && IsNotListed(pte)
      requires Target(mmu(address)) !in mem
      requires forall k :: 0 <= k < |list| ==> !Where().IsEmbedded(Target(mmu(list[k].address)))
      modifies `mem, paging.pdt[i], pte
      ensures MemoryIsReal()
      ensures mem == Split(old(mem), Where().Pd(i), j, mmu(address), old(pte[..]))
      ensures Target(mmu(address)) in mem && mem[Target(mmu(address))] == pte[..]
    {
      hide SplitTable, SplitPde, Target, IsPageAddress, LayoutOf, Translates, IsResident, PageAligned;
      ghost var pool := pte[..];
      WriteSplit(i, j, address, pte);
      mem := Split(mem, Where().Pd(i), j, mmu(address), pool);
    }

    lemma FreshPageHasOwnFrame(granted: TablePage, node: nat)
      requires Valid() && Fresh(granted, node) && granted.TablePage?
      ensures IsPageAddress(mmu(granted.address)) && Target(mmu(granted.address)) !in mem
      ensures forall k :: 0 <= k < |list| ==> !Where().IsEmbedded(Target(mmu(list[k].address)))
    {
      hide Skeleton, SlotsMatch, MemoryIsReal, Target, IsPageAddress, LayoutOf, PageAligned;
      OtherPageHasOtherFrame(paging.vcpu, mmu, pages, granted.address);
      var t := Target(mmu(granted.address));
      forall k | 0 <= k < |list|
        ensures Target(TablesOf(list, mmu)[k]) != t && TablesOf(list, mmu)[k] == mmu(list[k].address)
      {
        BlockOf(list, k);
      }
    }

    /** The list takes over the new table. */
    method Adopt(entry: PteEntry)
      requires Built() && MemoryIsReal() && TablesAreSeparate()
      requires Target(mmu(entry.address)) in mem && mem[Target(mmu(entry.address))] == entry.words[..]
      requires entry.words.Length == ENTRY_COUNT && entry.words !in paging.Arrays() && IsNotListed(entry.words)
      requires entry.address in pages && !InVcpu(paging.vcpu, entry.address)
      modifies `list
      ensures list == old(list) + [entry]
      ensures MemoryIsReal() && TablesAreSeparate()
    {
      hide Target, IsPageAddress, LayoutOf, PageAligned, ArraysOf, Layout.Valid, Layout.Pd, Translates, IsResident;
      list := list + [entry];
    }

    /** The two allocations of a successful split, as the pool sees them, and the slot they serve. */
    method Record(address: nat, node: nat, slot: Slot)
      requires paging.Shape() && MemoryIsReal() && address !in pool.live && node !in pool.live && address != node
      modifies pool, `slots
      ensures MemoryIsReal() && pool.live == old(pool.live) + {address, node} && slots == old(slots) + [slot]
    {
      hide Target, LayoutOf, ArraysOf, Layout.Pd;
      pool.Take(address);
      pool.Take(node);
      slots := slots + [slot];
    }

    lemma SlotIsReal(i: nat, j: nat)
      requires Built() && MemoryIsReal() && i < ENTRY_COUNT && j < ENTRY_COUNT
      ensures IsSlot(mem, Where().Pd(i), j) && mem[Where().Pd(i)][j] == paging.pdt[i][j]
    {
      hide Target, LayoutOf, Translates, IsResident, PageAligned;
    }

    lemma FirstSlotIsLarge()
      requires Valid() && Initial(Where(), mem)
      ensures LargePage(paging.pdt[0][0])
    {
      hide Target, LayoutOf, Skeleton, Separated, Translates, IsResident, LargePage, IdentityLeaf;
      SlotIsReal(0, 0);
      IdentityLeafIsLarge(0, 0);
    }

    /** Wherever splits have got to, no table lies in a frame of the stack of the virtual processor. */
    lemma TablesAreOffStack()
      requires Valid()
      ensures forall a: nat :: IsStackPage(paging.vcpu, a) ==> Target(mmu(a)) !in mem
    {
      hide Skeleton, SlotsMatch, MemoryIsReal, Target, IsPageAddress, LayoutOf, PageAligned, Layout.IsEmbedded, InVcpu;
      hide IsStackPage;
      forall a: nat | IsStackPage(paging.vcpu, a) ensures Target(mmu(a)) !in mem {
        StackHasItsFrames(paging.vcpu, mmu, pages, a);
        forall k | 0 <= k < |list| ensures Target(TablesOf(list, mmu)[k]) != Target(mmu(a)) {
          assert list[k].address in pages;
        }
      }
    }

    method SplitPage(i: nat, j: nat, granted: TablePage, node: nat) returns (r: TablePage)
      requires Valid() && i < ENTRY_COUNT && j < ENTRY_COUNT && Fresh(granted, node)
      modifies this`list, this`mem, this`slots, pool, paging.pdt[i]
      modifies if granted.TablePage? then {granted.words} else {}
      ensures Valid()
      ensures Where().Valid() && Admissible(Where(), old(mem), Request(i, j, old(GrantOf(granted))))
      ensures mem == Step(Where(), old(mem), Request(i, j, old(GrantOf(granted))))
      ensures r == if old(LargePage(paging.pdt[i][j])) then granted else NoPage
      ensures list == old(list) + if r.NoPage? then [] else [PteEntry(node, r.address, r.words)]
      ensures pool.live == old(pool.live) + if r.NoPage? then {} else {r.address, node}
    {
      hide Skeleton, Separated, MemoryIsReal, TablesAreSeparate, Translates, IsResident, ArraysOf, TablesOf;
      hide BlocksDiffer, Blocks;
      hide Target, IsPageAddress, LayoutOf, PageAligned, LargePage, Split, Layout.Valid;
      SlotIsReal(i, j);
      ghost var request := Request(i, j, GrantOf(granted));
      if granted.TablePage? {
        FreshPageHasOwnFrame(granted, node);
      }
      if !LargePage(paging.pdt[i][j]) || granted.NoPage? {
        return NoPage;
      }
      StepKeepsSkeleton(Where(), mem, request);
      SplitKeepsSeparation(Where(), mem, request, TablesOf(list, mmu), slots);
      WriteSplitToMemory(i, j, granted.address, granted.words);
      Adopt(PteEntry(node, granted.address, granted.words));
      ListGrows(old(list), PteEntry(node, granted.address, granted.words), mmu);
      Record(granted.address, node, Slot(i, j));
      r := granted;
    }

    method FreePteList()
      requires BlocksDiffer(list) && Blocks(list) <= pool.live
      modifies this`list, pool
      ensures list == []
      ensures pool.live == old(pool.live) - old(Blocks(list))
    {
      while list != []
        invariant BlocksDiffer(list) && Blocks(list) <= old(Blocks(list))
        invariant pool.live == old(pool.live) - (old(Blocks(list)) - Blocks(list))
        decreases |list|
      {
        var entry := list[|list| - 1];
        list := list[..|list| - 1];
        pool.Release(entry.address);
        pool.Release(entry.node);
      }
    }
  }

  /** A call of `split_page`, and the blocks that the pool would like to hand out for it. */
  datatype Call = Call(i: nat, j: nat, address: nat, node: nat)

  /** One call, with the pool's answer: the blocks asked for if they are free, else nothing. */
  method Serve(ept: Ept, c: Call) returns (ghost request: Request)
    requires ept.Valid() && c.i < ENTRY_COUNT && c.j < ENTRY_COUNT
    modifies ept`list, ept`mem, ept`slots, ept.pool, ept.paging.pdt[c.i]
    ensures ept.Valid()
    ensures Admissible(ept.Where(), old(ept.mem), request) && ept.mem == Step(ept.Where(), old(ept.mem), request)
    ensures ept.pool.live - Blocks(ept.list) == old(ept.pool.live - Blocks(ept.list))
  {
    hide Skeleton, Separated, Translates, IsResident, TablesOf, Blocks, BlocksDiffer, Layout.Valid, Layout.Pd;
    hide Target, LayoutOf, PageAligned, LargePage, Step, Admissible, InVcpu;
    var granted := NoPage;
    if c.address in ept.pages && !InVcpu(ept.paging.vcpu, c.address) && c.address !in ept.pool.live &&
       c.node !in ept.pool.live && c.node != c.address {
      var words := new bv64[ENTRY_COUNT];
      granted := TablePage(c.address, words);
    }
    request := Request(c.i, c.j, ept.GrantOf(granted));
    var r := ept.SplitPage(c.i, c.j, granted, c.node);
    if r.TablePage? {
      ListGrows(old(ept.list), PteEntry(c.node, r.address, r.words), ept.mmu);
      SameRemainder(old(ept.pool.live), old(Blocks(ept.list)), {c.address, c.node});
    } else {
      assert ept.list == old(ept.list);
    }
  }

  lemma SameRemainder(live: set<nat>, owned: set<nat>, taken: set<nat>)
    requires owned <= live && taken !! live
    ensures (live + taken) - (owned + taken) == live - owned
  {
  }

  /** Any calls in any order: the memory they reach is that of an admissible run of as many requests. */
  method ServeAll(ept: Ept, calls: seq<Call>) returns (ghost run: seq<Request>)
    requires ept.Valid()
    requires forall c :: c in calls ==> c.i < ENTRY_COUNT && c.j < ENTRY_COUNT
    modifies ept`list, ept`mem, ept`slots, ept.pool, ept.paging.pdt
    ensures ept.Valid()
    ensures |run| == |calls| && AdmissibleRun(ept.Where(), old(ept.mem), run)
    ensures ept.mem == After(ept.Where(), old(ept.mem), run)
    ensures ept.pool.live - Blocks(ept.list) == old(ept.pool.live - Blocks(ept.list))
  {
    hide Skeleton, Separated, Translates, IsResident, TablesOf, Blocks, BlocksDiffer, Layout.Valid, Layout.Pd;
    hide Ept.MemoryIsReal;
    hide Target, LayoutOf, PageAligned, LargePage, Step, Admissible, After, AdmissibleRun;
    run := [];
    RunStarts(ept.Where(), ept.mem);
    for n := 0 to |calls|
      invariant ept.Valid()
      invariant |run| == n && AdmissibleRun(ept.Where(), old(ept.mem), run)
      invariant ept.mem == After(ept.Where(), old(ept.mem), run)
      invariant ept.pool.live - Blocks(ept.list) == old(ept.pool.live - Blocks(ept.list))
    {
      ghost var request := Serve(ept, calls[n]);
      RunExtends(ept.Where(), old(ept.mem), run, request);
      run := run + [request];
    }
  }

  /**
   A whole life of an `Ept`: built, asked to split any slots in any order with allocations that succeed or fail,
   and destroyed.  Every block taken from the pool is back in it at the end, and the physical memory reached
   before the destruction is that of an admissible run, to which the theorems of `EptRuns` apply.
   */
  method Lifetime(paging: PagingStructures, mmu: nat -> bv64, pages: set<nat>, pool: Pool, calls: seq<Call>)
    returns (ghost start: PhysicalMemory, ghost run: seq<Request>, ghost reached: PhysicalMemory)
    requires paging.Shape() && paging.Zeroed() && PageAligned(paging.vcpu)
    requires Translates(mmu, pages) && IsResident(paging.vcpu, pages)
    requires forall c :: c in calls ==> c.i < ENTRY_COUNT && c.j < ENTRY_COUNT
    modifies paging.Arrays(), pool
    ensures pool.live == old(pool.live)
    ensures var l := LayoutOf(paging.vcpu, mmu);
            Initial(l, start) && AdmissibleRun(l, start, run) && |run| == |calls| && reached == After(l, start, run)
    ensures var l := LayoutOf(paging.vcpu, mmu);
            forall hw: Hardware, gpa: bv64 :: gpa < 0x80_0000_0000 ==>
              Walk(hw, reached, Eptp(l.pml4), gpa) ==
              if Broken(l, start, run, gpa) then Misconfigured else Identity(gpa)
  {
    hide Skeleton, Separated, Translates, IsResident, TablesOf, Layout.Valid, Layout.Pd, Ept.MemoryIsReal, Initial;
    hide Walk, Eptp, Broken;
    hide Target, LayoutOf, PageAligned, LargePage, Step, Admissible, After, AdmissibleRun;
    var ept := new Ept(paging, mmu, pages, pool);
    start := ept.mem;
    run := ServeAll(ept, calls);
    reached := ept.mem;
    forall hw: Hardware, gpa: bv64 | gpa < 0x80_0000_0000
      ensures Walk(hw, reached, Eptp(ept.Where().pml4), gpa) ==
              if Broken(ept.Where(), start, run, gpa) then Misconfigured else Identity(gpa)
    {
      RunWalk(hw, ept.Where(), start, run, gpa);
    }
    ept.FreePteList();
  }

  /**
   Every aligned virtual processor has such an `Ept`: built on a translation that puts its pages at descending
   frames, it is valid, and so it is after a split that succeeds.
   */
  method SampleEpt(vcpu: nat) returns (ept: Ept)
    requires PageAligned(vcpu)
    ensures fresh(ept) && ept.Valid() && |ept.list| == 1
  {
    hide Skeleton, Separated, Translates, IsResident, TablesOf, Blocks, BlocksDiffer, Layout.Valid, Layout.Pd;
    hide Ept.MemoryIsReal;
    hide Initial, LargePage, SampleMmu, SamplePages, PageAligned, Step, Admissible, InVcpu, IdentityLeaf;
    hide Target, LayoutOf;
    SampleTranslates(vcpu);
    var words := new bv64[ENTRY_COUNT];
    var paging := new PagingStructures(vcpu);
    var pool := new Pool();
    ept := new Ept(paging, SampleMmu(vcpu), SamplePages(vcpu), pool);
    ept.FirstSlotIsLarge();
    var r := ept.SplitPage(0, 0, TablePage(SamplePage(vcpu, 1000), words), 1 + SamplePage(vcpu, 1000));
  }
}
