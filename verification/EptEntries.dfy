/**
 Extended-page-table entries as 64-bit words.

 Every table of the hypervisor is a page of 512 such words.  The readers below are the bit-fields of the
 unions `EptPml4e`, `EptPdpte`, `EptLargePde`, `EptPde` and `EptPte`; a C++ bit-field assignment is `Put`,
 which replaces the bits under one mask and no others.
 */
module EptEntries {

  const ENTRY_COUNT := 512

  /** Bits 0, 1, 2 and 10: read, write, execute, and execute for user-mode addresses. */
  function RightsBits(w: bv64): bv64 { w & 0x407 }

  function MemoryType(w: bv64): bv64 { (w >> 3) & 7 }

  predicate IgnorePat(w: bv64) { w & 0x40 != 0 }

  predicate LargePage(w: bv64) { w & 0x80 != 0 }

  function Accessed(w: bv64): bv64 { w & 0x100 }

  function Dirty(w: bv64): bv64 { w & 0x200 }

  /** The physical address of the page or table: bits 47 to 12, 47 to 21 or 47 to 30. */
  function Frame(w: bv64): bv64 { w & 0x0000_FFFF_FFFF_F000 }

  function LargeFrame(w: bv64): bv64 { w & 0x0000_FFFF_FFE0_0000 }

  function HugeFrame(w: bv64): bv64 { w & 0x0000_FFFF_C000_0000 }

  /** The 27-bit frame number of a large PDE. */
  function LargePfn(w: bv64): bv64 { (w >> 21) & 0x7FF_FFFF }

  /** Bits 51 to 48. */
  function HighReserved(w: bv64): bv64 { w & 0x000F_0000_0000_0000 }

  /** Bits 20 to 12, reserved in a large PDE and part of the frame in a PTE. */
  function LowReserved(w: bv64): bv64 { w & 0x1F_F000 }

  predicate IsPageAddress(a: bv64) { Frame(a) == a }

  /** A bit-field assignment: the bits of `w` under `mask` become those of `v`. */
  function Put(w: bv64, mask: bv64, v: bv64): bv64 {
    (w & !mask) | (v & mask)
  }

  /** The named fields of a large PDE and its reserved and ignored bits make up the whole word. */
  lemma FieldsDetermineWord(v: bv64, w: bv64)
    requires RightsBits(v) == RightsBits(w) && MemoryType(v) == MemoryType(w) && IgnorePat(v) == IgnorePat(w)
    requires LargePage(v) == LargePage(w) && Accessed(v) == Accessed(w) && Dirty(v) == Dirty(w)
    requires LargeFrame(v) == LargeFrame(w) && LowReserved(v) == LowReserved(w) && HighReserved(v) == HighReserved(w)
    requires v & 0xFFF0_0000_0000_0800 == w & 0xFFF0_0000_0000_0800
    ensures v == w
  {
  }

  /** `address / PAGE_SIZE` stored in the 36-bit frame field, as the C++ code writes every table reference. */
  function PutFrame(w: bv64, address: bv64): bv64 {
    Put(w, 0x0000_FFFF_FFFF_F000, (address / 0x1000) << 12)
  }

  /** Write, read and execute, in the order in which every `setup_*` function sets them. */
  function PutAllRights(w: bv64): bv64 {
    Put(Put(Put(w, 0x2, 0x2), 0x1, 0x1), 0x4, 0x4)
  }

  /** What `setup_pml4` and the loop of `setup_pdpt` write to one entry. */
  function TableEntry(w: bv64, address: bv64): bv64 {
    PutFrame(PutAllRights(w), address)
  }

  /** What the loop of `setup_pdt` writes to the entry of the 2 MiB page with this frame number. */
  function LargeEntry(w: bv64, pfn: bv64): bv64 {
    Put(Put(Put(PutAllRights(w), 0x38, 6 << 3), 0x80, 0x80), 0x0000_FFFF_FFE0_0000, pfn << 21)
  }

  /** What the loop of `split_page` writes to entry `i` of a new table that holds `prior` there. */
  function SplitPte(leaf: bv64, prior: bv64, i: bv64): bv64 {
    var e := Put(prior, 0x2, leaf);
    var e := Put(e, 0x1, leaf);
    var e := Put(e, 0x4, leaf);
    var e := Put(e, 0x38, leaf);
    var e := Put(e, 0x0000_FFFF_FFFF_F000, ((LargePfn(leaf) << 21) / 0x1000 + i) << 12);
    var e := Put(e, 0x100, leaf);
    var e := Put(e, 0x200, leaf);
    var e := Put(e, 0x40, leaf);
    Put(e, 0x400, leaf)
  }

  /** What `split_page` stores over the large PDE: a table PDE built from an all-zero word. */
  function SplitPde(leaf: bv64, address: bv64): bv64 {
    var e := Put(0, 0x2, leaf);
    var e := Put(e, 0x1, leaf);
    var e := Put(e, 0x4, leaf);
    var e := PutFrame(e, address);
    var e := Put(e, 0x100, leaf);
    Put(e, 0x400, leaf)
  }

  /** The bits of a large PDE that a split reads. */
  function LeafFields(leaf: bv64): bv64 { leaf & 0x0000_FFFF_FFE0_077F }

  /** The word a split writes, bit by bit: named fields from the leaf, the rest from what was there. */
  function PteWord(fields: bv64, prior: bv64, i: bv64): bv64 {
    fields | (i << 12) | (prior & 0xFFFF_0000_0000_0880)
  }

  lemma SplitPteWord(leaf: bv64, prior: bv64, i: bv64)
    requires i < 512
    ensures SplitPte(leaf, prior, i) == PteWord(LeafFields(leaf), prior, i)
  {
  }

  /** Every named field of the leaf reaches entry `i`, whose frame is the i-th 4 KiB of the leaf's 2 MiB. */
  lemma SplitPteMeaning(leaf: bv64, prior: bv64, i: bv64)
    requires i < 512
    ensures var e := SplitPte(leaf, prior, i);
            && RightsBits(e) == RightsBits(leaf)
            && MemoryType(e) == MemoryType(leaf)
            && IgnorePat(e) == IgnorePat(leaf)
            && Accessed(e) == Accessed(leaf)
            && Dirty(e) == Dirty(leaf)
            && Frame(e) == LargeFrame(leaf) + (i << 12)
            && HighReserved(e) == HighReserved(prior)
  {
    hide SplitPte;
    SplitPteWord(leaf, prior, i);
    SplitWordMeaning(SplitPte(leaf, prior, i), leaf, prior, i);
  }

  /**
   The 512 new frames partition the leaf's 2 MiB: an address lies in the frame of entry `i` if and only if it lies
   in the leaf's range and its bits 20 to 12 are `i`.  The frame number fits its 36 bits whatever the leaf holds.
   */
  lemma ChildrenPartitionLeaf(leaf: bv64, prior: bv64, i: bv64, a: bv64)
    requires i < 512
    ensures Frame(a) == Frame(SplitPte(leaf, prior, i)) <==> LargeFrame(a) == LargeFrame(leaf) && PageIndex(a) == i
    ensures (LargePfn(leaf) << 21) / 0x1000 + i < 0x10_0000_0000
  {
    hide SplitPte;
    SplitPteMeaning(leaf, prior, i);
    ChildFrame(leaf, Frame(SplitPte(leaf, prior, i)), i, a);
  }

  lemma ChildFrame(leaf: bv64, frame: bv64, i: bv64, a: bv64)
    requires i < 512 && frame == LargeFrame(leaf) + (i << 12)
    ensures Frame(a) == frame <==> LargeFrame(a) == LargeFrame(leaf) && PageIndex(a) == i
  {
    hide Frame, LargeFrame, PageIndex, Joined;
    FrameParts(leaf, frame, i);
    JoinParts(a);
    JoinParts(frame);
  }

  /** Bits 20 to 12 of an address. */
  function PageIndex(a: bv64): bv64 { (a >> 12) & 0x1FF }

  function Joined(frame: bv64, i: bv64): bv64 { frame | (i << 12) }

  lemma FrameParts(leaf: bv64, frame: bv64, i: bv64)
    requires i < 512 && frame == LargeFrame(leaf) + (i << 12)
    ensures Frame(frame) == frame && LargeFrame(frame) == LargeFrame(leaf) && PageIndex(frame) == i
  {
  }

  lemma JoinParts(a: bv64)
    ensures Frame(a) == Joined(LargeFrame(a), PageIndex(a))
    ensures LargeFrame(Frame(a)) == LargeFrame(a) && PageIndex(Frame(a)) == PageIndex(a)
  {
  }

  lemma SplitWordMeaning(e: bv64, leaf: bv64, prior: bv64, i: bv64)
    requires i < 512
    requires e == PteWord(LeafFields(leaf), prior, i)
    ensures RightsBits(e) == RightsBits(leaf)
    ensures MemoryType(e) == MemoryType(leaf)
    ensures IgnorePat(e) == IgnorePat(leaf)
    ensures Accessed(e) == Accessed(leaf)
    ensures Dirty(e) == Dirty(leaf)
    ensures Frame(e) == LargeFrame(leaf) + (i << 12)
    ensures HighReserved(e) == HighReserved(prior)
  {
  }

  lemma SplitPdeWord(leaf: bv64, address: bv64)
    ensures SplitPde(leaf, address) == (LeafFields(leaf) & 0x507) | Frame(address)
  {
  }

  /** The table PDE has the leaf's rights, refers to the new table, and all its reserved bits are zero. */
  lemma SplitPdeMeaning(leaf: bv64, address: bv64)
    requires IsPageAddress(address)
    ensures var e := SplitPde(leaf, address);
            && RightsBits(e) == RightsBits(leaf)
            && Accessed(e) == Accessed(leaf)
            && Frame(e) == address
            && e & !0x0000_FFFF_FFFF_F507 == 0
  {
  }

  lemma TableEntryMeaning(address: bv64)
    requires IsPageAddress(address)
    ensures TableEntry(0, address) == address | 7
  {
  }

  lemma LargeEntryMeaning(pfn: bv64)
    requires pfn < 0x800_0000
    ensures LargeEntry(0, pfn) == (pfn << 21) | 0xB7
  {
  }
}
