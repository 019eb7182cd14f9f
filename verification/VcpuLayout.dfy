/**
 Where the tables of a virtual processor lie: the packed layout of `VirtualCpu` and `PagingStructures`, and
 the physical addresses that it gets from any page-granular translation.
 */
module VcpuLayout {
  import opened EptEntries
  import opened EptWalk
  import opened EptSplit
  import opened EptIdentity
  import opened VirtualCpu

  const PAGE_SIZE := 0x1000

  predicate PageAligned(a: nat) {
    a % PAGE_SIZE == 0
  }

  /** Offsets: the stack first, then `pml4`, `pdpt` and the 512 rows of `pdt`, each of 512 words of 8 bytes. */
  function Pml4At(vcpu: nat): nat {
    vcpu + 0x6000
  }

  function PdptAt(vcpu: nat): nat {
    Pml4At(vcpu) + ENTRY_COUNT * 8
  }

  function PdAt(vcpu: nat, row: nat): nat {
    PdptAt(vcpu) + ENTRY_COUNT * 8 + row * (ENTRY_COUNT * 8)
  }

  /** The virtual page addresses of the embedded tables. */
  predicate IsEmbedded(vcpu: nat, a: nat) {
    a == Pml4At(vcpu) || a == PdptAt(vcpu) || exists i :: 0 <= i < ENTRY_COUNT && PdAt(vcpu, i) == a
  }

  /**
   `MmGetPhysicalAddress` on the virtual pages that are resident: they go to physical pages, and no two to the
   same one.  Which pages are resident, and where they go, is up to the system.
   */
  ghost predicate Translates(mmu: nat -> bv64, pages: set<nat>) {
    && (forall a :: a in pages ==> PageAligned(a) && IsPageAddress(mmu(a)))
    && (forall a, b :: a in pages && b in pages && Target(mmu(a)) == Target(mmu(b)) ==> a == b)
  }

  /** The pages that a virtual processor takes up, the last one in part: stack, tables, three pointers and a number. */
  const VCPU_SIZE := 0x20_9000

  predicate InVcpu(vcpu: nat, a: nat) {
    vcpu <= a < vcpu + VCPU_SIZE
  }

  predicate IsStackPage(vcpu: nat, a: nat) {
    PageAligned(a) && vcpu <= a < vcpu + STACK_SIZE
  }

  /** A virtual processor is never paged out. */
  ghost predicate IsResident(vcpu: nat, pages: set<nat>) {
    forall a: nat :: InVcpu(vcpu, a) && PageAligned(a) ==> a in pages
  }

  function LayoutOf(vcpu: nat, mmu: nat -> bv64): Layout {
    Layout(mmu(Pml4At(vcpu)), mmu(PdptAt(vcpu)),
           seq(ENTRY_COUNT, i requires 0 <= i < ENTRY_COUNT => mmu(PdAt(vcpu, i))))
  }

  /** Dividing a page address by the page size and shifting it back into a frame field loses nothing. */
  lemma PageDivisionIsExact(a: bv64)
    requires IsPageAddress(a)
    ensures (a / 0x1000) << 12 == a && a / 0x1000 < 0x10_0000_0000
  {
  }

  /**
   In an aligned virtual processor every table starts a page of its own: the root right behind the stack, and the
   others in the order of their declaration.  So none of them shares a byte with the stack.
   */
  lemma EmbeddedPages(vcpu: nat)
    requires PageAligned(vcpu)
    ensures Pml4At(vcpu) == vcpu + STACK_SIZE && PdptAt(vcpu) == vcpu + STACK_SIZE + 0x1000
    ensures forall i: nat :: PdAt(vcpu, i) == vcpu + STACK_SIZE + 0x1000 * (i + 2)
    ensures forall a: nat :: IsEmbedded(vcpu, a) ==> vcpu + STACK_SIZE <= a && a + 0x1000 <= vcpu + VCPU_SIZE
    ensures forall a :: IsEmbedded(vcpu, a) ==> PageAligned(a)
    ensures Pml4At(vcpu) != PdptAt(vcpu)
    ensures forall i: nat :: PdAt(vcpu, i) != Pml4At(vcpu) && PdAt(vcpu, i) != PdptAt(vcpu)
    ensures forall i: nat, k: nat :: PdAt(vcpu, i) == PdAt(vcpu, k) ==> i == k
  {
    assert PageAligned(Pml4At(vcpu)) && PageAligned(PdptAt(vcpu));
    forall i: nat ensures PageAligned(PdAt(vcpu, i)) {
    }
  }

  /** Every injective page-granular translation, contiguous or not, gives the tables distinct frames. */
  lemma LayoutIsValid(vcpu: nat, mmu: nat -> bv64, pages: set<nat>)
    requires PageAligned(vcpu) && Translates(mmu, pages) && IsResident(vcpu, pages)
    ensures LayoutOf(vcpu, mmu).Valid()
  {
    hide Target, IsPageAddress, PageAligned, Pml4At, PdptAt, PdAt;
    var l := LayoutOf(vcpu, mmu);
    EmbeddedPages(vcpu);
    EmbeddedIsResident(vcpu, pages);
    assert IsEmbedded(vcpu, Pml4At(vcpu)) && IsEmbedded(vcpu, PdptAt(vcpu));
    assert forall i :: 0 <= i < ENTRY_COUNT ==> IsEmbedded(vcpu, PdAt(vcpu, i));
    forall i, k | 0 <= i < k < ENTRY_COUNT ensures Target(l.pds[i]) != Target(l.pds[k]) {
      assert PdAt(vcpu, i) != PdAt(vcpu, k);
    }
  }

  lemma EmbeddedIsResident(vcpu: nat, pages: set<nat>)
    requires PageAligned(vcpu) && IsResident(vcpu, pages)
    ensures forall a :: IsEmbedded(vcpu, a) ==> a in pages
  {
    hide PageAligned, IsEmbedded, Pml4At, PdptAt, PdAt;
    EmbeddedPages(vcpu);
  }

  /** A resident page that is none of the tables, such as one of the stack, has a frame that is none of theirs. */
  lemma OtherPageHasOtherFrame(vcpu: nat, mmu: nat -> bv64, pages: set<nat>, a: nat)
    requires PageAligned(vcpu) && Translates(mmu, pages) && IsResident(vcpu, pages)
    requires a in pages && !IsEmbedded(vcpu, a)
    ensures !LayoutOf(vcpu, mmu).IsEmbedded(Target(mmu(a)))
  {
    hide Target, IsPageAddress, Pml4At, PdptAt, PdAt, PageAligned;
    EmbeddedIsResident(vcpu, pages);
    var l := LayoutOf(vcpu, mmu);
    assert IsEmbedded(vcpu, Pml4At(vcpu)) && IsEmbedded(vcpu, PdptAt(vcpu));
    forall i | 0 <= i < |l.pds| ensures Target(l.pds[i]) != Target(mmu(a)) {
      assert IsEmbedded(vcpu, PdAt(vcpu, i));
    }
  }

  /** No frame of an embedded table, or of a page outside the virtual processor, is the frame of a page of the stack. */
  lemma StackHasItsFrames(vcpu: nat, mmu: nat -> bv64, pages: set<nat>, a: nat)
    requires PageAligned(vcpu) && Translates(mmu, pages) && IsResident(vcpu, pages) && IsStackPage(vcpu, a)
    ensures a in pages && !LayoutOf(vcpu, mmu).IsEmbedded(Target(mmu(a)))
    ensures forall b :: b in pages && !InVcpu(vcpu, b) ==> Target(mmu(b)) != Target(mmu(a))
  {
    hide Target, IsPageAddress, LayoutOf, IsEmbedded, Pml4At, PdptAt, PdAt;
    EmbeddedPages(vcpu);
    OtherPageHasOtherFrame(vcpu, mmu, pages, a);
  }

  /** A system on which this holds: 1024 resident pages from the virtual processor up, at descending frames. */
  const SAMPLE_COUNT := 1024

  function SamplePages(vcpu: nat): set<nat> {
    set n | 0 <= n < SAMPLE_COUNT :: SamplePage(vcpu, n)
  }

  function SamplePage(vcpu: nat, n: nat): nat {
    vcpu + n * PAGE_SIZE
  }

  function SampleMmu(vcpu: nat): nat -> bv64 {
    (a: nat) => if vcpu <= a < vcpu + SAMPLE_COUNT * PAGE_SIZE then SampleFrame((a - vcpu) / PAGE_SIZE) else 0
  }

  function SampleFrame(n: nat): bv64
    requires n < SAMPLE_COUNT
  {
    SlotPfn(511 - n / ENTRY_COUNT, 511 - n % ENTRY_COUNT) << 12
  }

  lemma PfnAddress(v: bv64, w: bv64)
    requires v < 0x4_0000 && w < 0x4_0000
    ensures IsPageAddress(v << 12)
    ensures Frame(v << 12) == Frame(w << 12) ==> v == w
  {
  }

  lemma SameTarget(v: bv64, w: bv64)
    ensures Target(v) == Target(w) <==> Frame(v) == Frame(w)
  {
    hide Frame;
    NatOfWord(Frame(v));
    NatOfWord(Frame(w));
  }

  lemma SlotFramesDiffer(i: nat, j: nat, i': nat, j': nat)
    requires i < ENTRY_COUNT && j < ENTRY_COUNT && i' < ENTRY_COUNT && j' < ENTRY_COUNT
    ensures IsPageAddress(SlotPfn(i, j) << 12)
    ensures Target(SlotPfn(i, j) << 12) == Target(SlotPfn(i', j') << 12) ==> i == i' && j == j'
  {
    hide SlotPfn, IsPageAddress, Frame, Target;
    SlotPfnInjective(i, j, i', j');
    SlotPfnInjective(i', j', i, j);
    PfnAddress(SlotPfn(i, j), SlotPfn(i', j'));
    SameTarget(SlotPfn(i, j) << 12, SlotPfn(i', j') << 12);
  }

  lemma SampleFramesDiffer(n: nat, m: nat)
    requires n < SAMPLE_COUNT && m < SAMPLE_COUNT
    ensures IsPageAddress(SampleFrame(n))
    ensures Target(SampleFrame(n)) == Target(SampleFrame(m)) ==> n == m
  {
    hide SlotPfn, IsPageAddress, Target;
    SlotFramesDiffer(511 - n / ENTRY_COUNT, 511 - n % ENTRY_COUNT, 511 - m / ENTRY_COUNT, 511 - m % ENTRY_COUNT);
  }

  lemma SamplePageAt(vcpu: nat, n: nat)
    requires n < SAMPLE_COUNT
    ensures SamplePage(vcpu, n) in SamplePages(vcpu) && SampleMmu(vcpu)(SamplePage(vcpu, n)) == SampleFrame(n)
    ensures PageAligned(vcpu) ==> PageAligned(SamplePage(vcpu, n))
  {
    hide SampleFrame;
  }

  /** Any aligned virtual processor can be resident in such a system, with pages to spare for split tables. */
  lemma SampleTranslates(vcpu: nat)
    requires PageAligned(vcpu)
    ensures Translates(SampleMmu(vcpu), SamplePages(vcpu)) && IsResident(vcpu, SamplePages(vcpu))
    ensures SamplePage(vcpu, 1000) in SamplePages(vcpu) && !InVcpu(vcpu, SamplePage(vcpu, 1000))
  {
    hide SampleFrame, IsPageAddress, Target, SampleMmu;
    var mmu, pages := SampleMmu(vcpu), SamplePages(vcpu);
    forall a | a in pages ensures PageAligned(a) && IsPageAddress(mmu(a)) {
      var n :| 0 <= n < SAMPLE_COUNT && SamplePage(vcpu, n) == a;
      SamplePageAt(vcpu, n);
      SampleFramesDiffer(n, n);
    }
    forall a, b | a in pages && b in pages && Target(mmu(a)) == Target(mmu(b)) ensures a == b {
      var n :| 0 <= n < SAMPLE_COUNT && SamplePage(vcpu, n) == a;
      var m :| 0 <= m < SAMPLE_COUNT && SamplePage(vcpu, m) == b;
      SamplePageAt(vcpu, n);
      SamplePageAt(vcpu, m);
      SampleFramesDiffer(n, m);
    }
    SampleIsResident(vcpu);
    SamplePageAt(vcpu, 1000);
  }

  lemma SampleIsResident(vcpu: nat)
    requires PageAligned(vcpu)
    ensures IsResident(vcpu, SamplePages(vcpu))
  {
    forall a: nat | InVcpu(vcpu, a) && PageAligned(a) ensures a in SamplePages(vcpu) {
      assert SamplePage(vcpu, (a - vcpu) / PAGE_SIZE) == a;
    }
  }
}
