/**
 The identity map that `Ept` sets up, and what every later run of splits leaves of it.
 */
module EptIdentity {
  import opened EptEntries
  import opened EptWalk
  import opened EptSplit

  /** Physical addresses of the tables embedded in a virtual processor. */
  datatype Layout = Layout(pml4: bv64, pdpt: bv64, pds: seq<bv64>) {
    ghost predicate Valid() {
      && |pds| == ENTRY_COUNT
      && IsPageAddress(pml4) && IsPageAddress(pdpt) && (forall i :: 0 <= i < ENTRY_COUNT ==> IsPageAddress(pds[i]))
      && Target(pml4) != Target(pdpt)
      && (forall i :: 0 <= i < ENTRY_COUNT ==> Target(pds[i]) != Target(pml4) && Target(pds[i]) != Target(pdpt))
      && (forall i, k :: 0 <= i < k < ENTRY_COUNT ==> Target(pds[i]) != Target(pds[k]))
    }

    ghost predicate IsPd(base: nat) {
      exists i :: 0 <= i < |pds| && Target(pds[i]) == base
    }

    /** One of the tables inside the virtual processor. */
    ghost predicate IsEmbedded(base: nat) {
      base == Target(pml4) || base == Target(pdpt) || IsPd(base)
    }

    /** Tables other than the embedded ones are PTE tables. */
    ghost function Levels(): nat -> nat {
      (base: nat) => if base == Target(pml4) then 4 else if base == Target(pdpt) then 3 else if IsPd(base) then 2 else 1
    }

    /** The address of page directory `i`. */
    ghost function Pd(i: nat): nat
      requires i < |pds|
    {
      Target(pds[i])
    }
  }

  /** The value of `setup_eptp`: walk length, memory type and root, in that order. */
  function Eptp(pml4: bv64): bv64 {
    Put(Put(Put(0, 0x38, 3 << 3), 0x7, 6), 0x0000_FFFF_FFFF_F000, (pml4 / 0x1000) << 12)
  }

  /** The pointer passes the checks that VM entry makes on it, and leads to the root table. */
  lemma EptpMeaning(pml4: bv64)
    requires IsPageAddress(pml4)
    ensures Eptp(pml4) & 0x7 == 6 && (Eptp(pml4) >> 3) & 0x7 == 3
    ensures Eptp(pml4) & 0xFFFF_0000_0000_0FC0 == 0
    ensures Target(Eptp(pml4)) == Target(pml4)
  {
    EptpWord(pml4);
    EptpWordMeaning(pml4, Eptp(pml4));
  }

  lemma EptpWord(pml4: bv64)
    requires IsPageAddress(pml4)
    ensures Eptp(pml4) == pml4 | 0x1E
  {
  }

  lemma EptpWordMeaning(pml4: bv64, w: bv64)
    requires IsPageAddress(pml4) && w == pml4 | 0x1E
    ensures w & 0x7 == 6 && (w >> 3) & 0x7 == 3 && w & 0xFFFF_0000_0000_0FC0 == 0
    ensures Frame(w) == Frame(pml4)
  {
  }

  /** Frame number of the 2 MiB page behind slot (`i`, `j`). */
  function SlotPfn(i: nat, j: nat): bv64
    requires i < ENTRY_COUNT && j < ENTRY_COUNT
  {
    PfnOfPair(i as bv64, j as bv64)
  }

  function PfnOfPair(a: bv64, b: bv64): bv64 {
    a * 512 + b
  }

  function IdentityLeaf(i: nat, j: nat): bv64
    requires i < ENTRY_COUNT && j < ENTRY_COUNT
  {
    LargeEntry(0, SlotPfn(i, j))
  }

  /** All tables are there, well typed, and the two top levels lead to the page directories. */
  ghost predicate Skeleton(l: Layout, mem: PhysicalMemory) {
    && l.Valid()
    && Typed(mem, l.Levels())
    && Target(l.pml4) in mem && Target(l.pdpt) in mem && (forall i :: 0 <= i < ENTRY_COUNT ==> l.Pd(i) in mem)
    && TopIsSet(l, mem[Target(l.pml4)]) && PdptIsSet(l, mem[Target(l.pdpt)])
  }

  ghost predicate TopIsSet(l: Layout, pml4: seq<bv64>) {
    && |pml4| == ENTRY_COUNT
    && pml4[0] == TableEntry(0, l.pdpt)
    && (forall i :: 1 <= i < ENTRY_COUNT ==> pml4[i] == 0)
  }

  ghost predicate PdptIsSet(l: Layout, pdpt: seq<bv64>) {
    && |pdpt| == |l.pds| == ENTRY_COUNT
    && (forall i :: 0 <= i < ENTRY_COUNT ==> pdpt[i] == TableEntry(0, l.pds[i]))
  }

  /** What the constructor of `Ept` leaves in memory. */
  ghost predicate Initial(l: Layout, mem: PhysicalMemory) {
    && l.Valid()
    && (forall b :: b in mem <==> l.IsEmbedded(b))
    && TopIsSet(l, mem[Target(l.pml4)]) && PdptIsSet(l, mem[Target(l.pdpt)])
    && (forall i :: 0 <= i < ENTRY_COUNT ==> l.Pd(i) in mem && |mem[l.Pd(i)]| == ENTRY_COUNT)
    && (forall i, j :: 0 <= i < ENTRY_COUNT && 0 <= j < ENTRY_COUNT ==> mem[l.Pd(i)][j] == IdentityLeaf(i, j))
  }

  /** Physical memory with the embedded tables in it and nothing else. */
  ghost function EmbeddedMemory(l: Layout, pml4: seq<bv64>, pdpt: seq<bv64>, rows: seq<seq<bv64>>): PhysicalMemory
    requires l.Valid() && |rows| == ENTRY_COUNT
  {
    map b | b in EmbeddedBases(l) ::
      if b == Target(l.pml4) then pml4 else if b == Target(l.pdpt) then pdpt else rows[RowOf(l, b)]
  }

  ghost function EmbeddedBases(l: Layout): (bases: set<nat>)
    ensures forall b :: b in bases <==> l.IsEmbedded(b)
  {
    hide Target;
    var pds := set i | 0 <= i < |l.pds| :: Target(l.pds[i]);
    assert forall b :: b in pds <==> l.IsPd(b);
    {Target(l.pml4), Target(l.pdpt)} + pds
  }

  ghost function RowOf(l: Layout, b: nat): (i: nat)
    ensures l.IsPd(b) ==> i < |l.pds| && Target(l.pds[i]) == b
    ensures l.Valid() ==> i < ENTRY_COUNT
  {
    if l.IsPd(b) then var i :| 0 <= i < |l.pds| && Target(l.pds[i]) == b; i else 0
  }

  lemma InitialFromTables(l: Layout, pml4: seq<bv64>, pdpt: seq<bv64>, rows: seq<seq<bv64>>)
    requires l.Valid() && TopIsSet(l, pml4) && PdptIsSet(l, pdpt) && |rows| == ENTRY_COUNT
    requires forall i :: 0 <= i < ENTRY_COUNT ==> |rows[i]| == ENTRY_COUNT
    requires forall i, j :: 0 <= i < ENTRY_COUNT && 0 <= j < ENTRY_COUNT ==> rows[i][j] == IdentityLeaf(i, j)
    ensures var mem := EmbeddedMemory(l, pml4, pdpt, rows);
            && Initial(l, mem)
            && Target(l.pml4) in mem && Target(l.pdpt) in mem
            && mem[Target(l.pml4)] == pml4 && mem[Target(l.pdpt)] == pdpt
            && forall i :: 0 <= i < ENTRY_COUNT ==> l.Pd(i) in mem && mem[l.Pd(i)] == rows[i]
  {
    hide Target, IdentityLeaf, TopIsSet, PdptIsSet, IsPageAddress, EmbeddedMemory, Layout.Pd;
    EmbeddedContents(l, pml4, pdpt, rows);
  }

  lemma EmbeddedContents(l: Layout, pml4: seq<bv64>, pdpt: seq<bv64>, rows: seq<seq<bv64>>)
    requires l.Valid() && |rows| == ENTRY_COUNT
    ensures var mem := EmbeddedMemory(l, pml4, pdpt, rows);
            && (forall b :: b in mem <==> l.IsEmbedded(b))
            && mem[Target(l.pml4)] == pml4 && mem[Target(l.pdpt)] == pdpt
            && forall i :: 0 <= i < ENTRY_COUNT ==> l.Pd(i) in mem && mem[l.Pd(i)] == rows[i]
  {
    hide Target, IsPageAddress;
    var mem := EmbeddedMemory(l, pml4, pdpt, rows);
    forall i | 0 <= i < ENTRY_COUNT ensures l.Pd(i) in mem && mem[l.Pd(i)] == rows[i] {
      assert Target(l.pds[i]) == l.Pd(i);
      assert l.IsPd(l.Pd(i));
    }
  }

  /** A table entry of the setup code: always present, never a leaf, leads to its table with all three rights. */
  lemma TableEntryDescends(hw: Hardware, level: nat, address: bv64)
    requires IsPageAddress(address) && level > 1
    ensures var w := TableEntry(0, address);
            Descends(hw, level, w) && Target(w) == Target(address) && Rights(hw, w) == 7
  {
    TableEntryMeaning(address);
  }

  /** Slot numbers are a bijection onto the first 2^18 frames of 2 MiB: injective, and never truncated to 27 bits. */
  lemma SlotPfnInjective(i: nat, j: nat, i': nat, j': nat)
    requires i < ENTRY_COUNT && j < ENTRY_COUNT && i' < ENTRY_COUNT && j' < ENTRY_COUNT
    ensures SlotPfn(i, j) < 0x4_0000
    ensures SlotPfn(i, j) == SlotPfn(i', j') ==> i == i' && j == j'
  {
    hide PfnOfPair, SlotPfn;
    var a, b := SlotWords(i, j);
    var c, d := SlotWords(i', j');
    PairInjective(a, b, c, d);
  }

  lemma SlotWords(i: nat, j: nat) returns (a: bv64, b: bv64)
    requires i < ENTRY_COUNT && j < ENTRY_COUNT
    ensures a < 512 && b < 512 && a as nat == i && b as nat == j && SlotPfn(i, j) == PfnOfPair(a, b)
  {
    hide PfnOfPair;
    a := WordOfIndex(i);
    b := WordOfIndex(j);
  }

  /** And onto: every such frame belongs to a slot. */
  lemma SlotPfnOnto(pfn: bv64) returns (i: nat, j: nat)
    requires pfn < 0x4_0000
    ensures i < ENTRY_COUNT && j < ENTRY_COUNT && SlotPfn(i, j) == pfn
  {
    PairOf(pfn);
    i, j := SlotOfWords(pfn >> 9, pfn & 0x1FF);
  }

  lemma SlotOfWords(a: bv64, b: bv64) returns (i: nat, j: nat)
    requires a < 512 && b < 512
    ensures i < ENTRY_COUNT && j < ENTRY_COUNT && SlotPfn(i, j) == PfnOfPair(a, b)
  {
    hide PfnOfPair;
    SmallWord(a);
    SmallWord(b);
    i, j := a as nat, b as nat;
  }

  lemma PairOf(pfn: bv64)
    requires pfn < 0x4_0000
    ensures pfn >> 9 < 512 && pfn & 0x1FF < 512 && PfnOfPair(pfn >> 9, pfn & 0x1FF) == pfn
  {
  }

  lemma SmallWord(w: bv64)
    requires w < 512
    ensures (w as nat) < ENTRY_COUNT && (w as nat) as bv64 == w
  {
    NatOfWord(w);
  }

  lemma PairInjective(a: bv64, b: bv64, c: bv64, d: bv64)
    requires a < 512 && b < 512 && c < 512 && d < 512
    ensures PfnOfPair(a, b) < 0x4_0000
    ensures PfnOfPair(a, b) == PfnOfPair(c, d) ==> a == c && b == d
  {
  }

  /** The identity outcome: the address itself, read/write/execute, write-back. */
  function Identity(gpa: bv64): Outcome {
    Mapped(gpa, 7, 6, false)
  }

  lemma IdentityLeafOutcome(hw: Hardware, gpa: bv64, pfn: bv64)
    requires gpa < 0x80_0000_0000 && pfn == PfnOfPair(IndexBits(gpa, 3), IndexBits(gpa, 2))
    ensures LeafOutcome(hw, 2, LargeEntry(0, pfn), gpa, 7) == Identity(gpa)
    ensures LargePage(LargeEntry(0, pfn))
  {
    LargeEntryMeaning(pfn);
    IdentityAddress(gpa, pfn);
    IdentityBits(hw, LargeEntry(0, pfn), pfn);
  }

  lemma IdentityAddress(gpa: bv64, pfn: bv64)
    requires gpa < 0x80_0000_0000 && pfn == PfnOfPair(IndexBits(gpa, 3), IndexBits(gpa, 2))
    ensures pfn < 0x4_0000
    ensures LeafAddress(2, (pfn << 21) | 0xB7, gpa) == gpa
  {
  }

  lemma IdentityBits(hw: Hardware, w: bv64, pfn: bv64)
    requires pfn < 0x4_0000 && w == (pfn << 21) | 0xB7
    ensures Rights(hw, w) == 7 && !IllegalRights(hw, w) && !LeafReserved(2, w)
    ensures MemoryType(w) == 6 && !IgnorePat(w) && LargePage(w)
  {
  }

  lemma InitialIsSkeleton(l: Layout, mem: PhysicalMemory)
    requires Initial(l, mem)
    ensures Skeleton(l, mem)
  {
    forall base | base in mem ensures TypedTable(mem, l.Levels(), base) {
      if base == Target(l.pml4) {
        TypedTop(l, mem);
      } else if base == Target(l.pdpt) {
        TypedPdpt(l, mem);
      } else {
        var i :| 0 <= i < |l.pds| && Target(l.pds[i]) == base;
        TypedPd(l, mem, i);
      }
    }
  }

  lemma TypedTop(l: Layout, mem: PhysicalMemory)
    requires Initial(l, mem)
    ensures TypedTable(mem, l.Levels(), Target(l.pml4))
  {
    hide TableEntry, Target, RightsBits, LargePage;
    var levelOf := l.Levels();
    var w := TableEntry(0, l.pdpt);
    TableEntryDescends(Hardware(false, false), 4, l.pdpt);
    ZeroRefersNowhere();
    forall i | 0 <= i < ENTRY_COUNT ensures TypedEntry(mem, levelOf, 4, mem[Target(l.pml4)][i]) {
    }
  }

  lemma ZeroRefersNowhere()
    ensures RightsBits(0) == 0
  {
  }

  lemma TypedPdpt(l: Layout, mem: PhysicalMemory)
    requires Initial(l, mem)
    ensures TypedTable(mem, l.Levels(), Target(l.pdpt))
  {
    hide TableEntry, Target, RightsBits, LargePage;
    var levelOf := l.Levels();
    forall i | 0 <= i < ENTRY_COUNT ensures TypedEntry(mem, levelOf, 3, mem[Target(l.pdpt)][i]) {
      TableEntryDescends(Hardware(false, false), 3, l.pds[i]);
      assert Target(TableEntry(0, l.pds[i])) == l.Pd(i);
    }
  }

  lemma TypedPd(l: Layout, mem: PhysicalMemory, i: nat)
    requires Initial(l, mem) && i < ENTRY_COUNT
    ensures TypedTable(mem, l.Levels(), l.Pd(i))
  {
    hide IdentityLeaf, Target, RightsBits, LargePage;
    var levelOf := l.Levels();
    forall j | 0 <= j < ENTRY_COUNT ensures TypedEntry(mem, levelOf, 2, mem[l.Pd(i)][j]) {
      IdentityLeafIsLarge(i, j);
    }
  }

  lemma IdentityLeafIsLarge(i: nat, j: nat)
    requires i < ENTRY_COUNT && j < ENTRY_COUNT
    ensures LargePage(IdentityLeaf(i, j))
  {
    hide SlotPfn;
    LargeEntryIsLarge(SlotPfn(i, j));
  }

  lemma LargeEntryIsLarge(pfn: bv64)
    ensures LargePage(LargeEntry(0, pfn))
  {
  }

  /** Below 2^39 a walk passes through the root and the PDPT to the page directory that bits 38 to 30 select. */
  lemma WalkReachesPd(hw: Hardware, l: Layout, mem: PhysicalMemory, gpa: bv64)
    requires Skeleton(l, mem) && gpa < 0x80_0000_0000
    ensures Walk(hw, mem, Eptp(l.pml4), gpa) == WalkFrom(hw, mem, l.Pd(Index(gpa, 3)), 2, gpa, 7)
  {
    hide TableEntry, WalkFrom, Descends, EntryOutcome, IndexBits, Target, Index, Typed;
    EptpMeaning(l.pml4);
    LowAddress(gpa);
    TableEntryDescends(hw, 4, l.pdpt);
    TableEntryDescends(hw, 3, l.pds[Index(gpa, 3)]);
    var rights := Rights(hw, 0x407);
    WalkStep(hw, mem, Target(l.pml4), 4, gpa, rights, TableEntry(0, l.pdpt));
    WalkStep(hw, mem, Target(l.pdpt), 3, gpa, Meet(rights, 7), TableEntry(0, l.pds[Index(gpa, 3)]));
    AllRights(hw);
  }

  lemma AllRights(hw: Hardware)
    ensures Meet(Meet(Rights(hw, 0x407), 7), 7) == 7
  {
  }

  lemma LowAddress(gpa: bv64)
    ensures gpa < 0x80_0000_0000 ==> Index(gpa, 4) == 0
    ensures 0x80_0000_0000 <= gpa < 0x1_0000_0000_0000 ==> Index(gpa, 4) != 0
  {
  }
}
