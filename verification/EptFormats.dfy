/**
 The bit-fields of the unions `Eptp`, `EptPml4e` and `EptPdpte`, `EptLargePde`, `EptPde` and `EptPte`, declared from
 bit 0 up as in the C++ code, and the masked updates of `EptEntries` as assignments to these fields.
 */
module EptFormats {
  import opened EptEntries
  import opened EptIdentity

  /** `Eptp`. */
  datatype EptpFields = EptpFields(
    memoryType: bv64, walkLength: bv64, accessDirty: bv64, reserved1: bv64, pml4: bv64, reserved2: bv64)
  {
    predicate InRange() {
      && memoryType < 8 && walkLength < 8 && accessDirty < 2 && reserved1 < 0x20 && pml4 < 0x10_0000_0000
      && reserved2 < 0x10000
    }

    function Pack(): bv64 {
      memoryType | (walkLength << 3) | (accessDirty << 6) | (reserved1 << 7) | (pml4 << 12) | (reserved2 << 48)
    }
  }

  function UnpackEptpFields(w: bv64): EptpFields {
    EptpFields(
      w & 7, (w >> 3) & 7, (w >> 6) & 1, (w >> 7) & 0x1F, (w >> 12) & 0xF_FFFF_FFFF, (w >> 48) & 0xFFFF)
  }

  lemma EptpFieldsRoundTrip(f: EptpFields, w: bv64)
    requires f.InRange()
    ensures UnpackEptpFields(f.Pack()) == f
    ensures UnpackEptpFields(w).InRange() && UnpackEptpFields(w).Pack() == w
  {
  }

  /** `EptPml4e` and `EptPdpte`, which declare the same fields. */
  datatype TableFields = TableFields(
    read: bv64, write: bv64, execute: bv64, reserved1: bv64, accessed: bv64, ignored1: bv64, userExecute: bv64,
    ignored2: bv64, pfn: bv64, reserved2: bv64, ignored3: bv64)
  {
    predicate InRange() {
      && read < 2 && write < 2 && execute < 2 && reserved1 < 0x20 && accessed < 2 && ignored1 < 2
      && userExecute < 2 && ignored2 < 2 && pfn < 0x10_0000_0000 && reserved2 < 16 && ignored3 < 0x1000
    }

    function Pack(): bv64 {
      read | (write << 1) | (execute << 2) | (reserved1 << 3) | (accessed << 8) | (ignored1 << 9) |
      (userExecute << 10) | (ignored2 << 11) | (pfn << 12) | (reserved2 << 48) | (ignored3 << 52)
    }
  }

  function UnpackTableFields(w: bv64): TableFields {
    TableFields(
      w & 1, (w >> 1) & 1, (w >> 2) & 1, (w >> 3) & 0x1F, (w >> 8) & 1, (w >> 9) & 1, (w >> 10) & 1,
      (w >> 11) & 1, (w >> 12) & 0xF_FFFF_FFFF, (w >> 48) & 15, (w >> 52) & 0xFFF)
  }

  lemma TableFieldsRoundTrip(f: TableFields, w: bv64)
    requires f.InRange()
    ensures UnpackTableFields(f.Pack()) == f
    ensures UnpackTableFields(w).InRange() && UnpackTableFields(w).Pack() == w
  {
  }

  /** `EptLargePde`. */
  datatype LargePdeFields = LargePdeFields(
    read: bv64, write: bv64, execute: bv64, memoryType: bv64, ignorePat: bv64, largePage: bv64, accessed: bv64,
    dirty: bv64, userExecute: bv64, ignored1: bv64, reserved1: bv64, pfn: bv64, reserved2: bv64, ignored2: bv64,
    suppressVe: bv64)
  {
    predicate InRange() {
      && read < 2 && write < 2 && execute < 2 && memoryType < 8 && ignorePat < 2 && largePage < 2
      && accessed < 2 && dirty < 2 && userExecute < 2 && ignored1 < 2 && reserved1 < 0x200 && pfn < 0x800_0000
      && reserved2 < 16 && ignored2 < 0x800 && suppressVe < 2
    }

    function Pack(): bv64 {
      read | (write << 1) | (execute << 2) | (memoryType << 3) | (ignorePat << 6) | (largePage << 7) |
      (accessed << 8) | (dirty << 9) | (userExecute << 10) | (ignored1 << 11) | (reserved1 << 12) |
      (pfn << 21) | (reserved2 << 48) | (ignored2 << 52) | (suppressVe << 63)
    }
  }

  function UnpackLargePdeFields(w: bv64): LargePdeFields {
    LargePdeFields(
      w & 1, (w >> 1) & 1, (w >> 2) & 1, (w >> 3) & 7, (w >> 6) & 1, (w >> 7) & 1, (w >> 8) & 1, (w >> 9) & 1,
      (w >> 10) & 1, (w >> 11) & 1, (w >> 12) & 0x1FF, (w >> 21) & 0x7FF_FFFF, (w >> 48) & 15,
      (w >> 52) & 0x7FF, (w >> 63) & 1)
  }

  lemma LargePdeFieldsRoundTrip(f: LargePdeFields, w: bv64)
    requires f.InRange()
    ensures UnpackLargePdeFields(f.Pack()) == f
    ensures UnpackLargePdeFields(w).InRange() && UnpackLargePdeFields(w).Pack() == w
  {
  }

  /** `EptPde`. */
  datatype PdeFields = PdeFields(
    read: bv64, write: bv64, execute: bv64, reserved1: bv64, largePage: bv64, accessed: bv64, ignored1: bv64,
    userExecute: bv64, ignored2: bv64, pfn: bv64, reserved2: bv64, ignored3: bv64)
  {
    predicate InRange() {
      && read < 2 && write < 2 && execute < 2 && reserved1 < 16 && largePage < 2 && accessed < 2 && ignored1 < 2
      && userExecute < 2 && ignored2 < 2 && pfn < 0x10_0000_0000 && reserved2 < 16 && ignored3 < 0x1000
    }

    function Pack(): bv64 {
      read | (write << 1) | (execute << 2) | (reserved1 << 3) | (largePage << 7) | (accessed << 8) |
      (ignored1 << 9) | (userExecute << 10) | (ignored2 << 11) | (pfn << 12) | (reserved2 << 48) |
      (ignored3 << 52)
    }
  }

  function UnpackPdeFields(w: bv64): PdeFields {
    PdeFields(
      w & 1, (w >> 1) & 1, (w >> 2) & 1, (w >> 3) & 15, (w >> 7) & 1, (w >> 8) & 1, (w >> 9) & 1,
      (w >> 10) & 1, (w >> 11) & 1, (w >> 12) & 0xF_FFFF_FFFF, (w >> 48) & 15, (w >> 52) & 0xFFF)
  }

  lemma PdeFieldsRoundTrip(f: PdeFields, w: bv64)
    requires f.InRange()
    ensures UnpackPdeFields(f.Pack()) == f
    ensures UnpackPdeFields(w).InRange() && UnpackPdeFields(w).Pack() == w
  {
  }

  /** `EptPte`. */
  datatype PteFields = PteFields(
    read: bv64, write: bv64, execute: bv64, memoryType: bv64, ignorePat: bv64, ignored1: bv64, accessed: bv64,
    dirty: bv64, userExecute: bv64, ignored2: bv64, pfn: bv64, reserved1: bv64, ignored3: bv64, suppressVe:
    bv64)
  {
    predicate InRange() {
      && read < 2 && write < 2 && execute < 2 && memoryType < 8 && ignorePat < 2 && ignored1 < 2 && accessed < 2
      && dirty < 2 && userExecute < 2 && ignored2 < 2 && pfn < 0x10_0000_0000 && reserved1 < 16
      && ignored3 < 0x800 && suppressVe < 2
    }

    function Pack(): bv64 {
      read | (write << 1) | (execute << 2) | (memoryType << 3) | (ignorePat << 6) | (ignored1 << 7) |
      (accessed << 8) | (dirty << 9) | (userExecute << 10) | (ignored2 << 11) | (pfn << 12) |
      (reserved1 << 48) | (ignored3 << 52) | (suppressVe << 63)
    }
  }

  function UnpackPteFields(w: bv64): PteFields {
    PteFields(
      w & 1, (w >> 1) & 1, (w >> 2) & 1, (w >> 3) & 7, (w >> 6) & 1, (w >> 7) & 1, (w >> 8) & 1, (w >> 9) & 1,
      (w >> 10) & 1, (w >> 11) & 1, (w >> 12) & 0xF_FFFF_FFFF, (w >> 48) & 15, (w >> 52) & 0x7FF, (w >> 63) & 1)
  }

  lemma PteFieldsRoundTrip(f: PteFields, w: bv64)
    requires f.InRange()
    ensures UnpackPteFields(f.Pack()) == f
    ensures UnpackPteFields(w).InRange() && UnpackPteFields(w).Pack() == w
  {
  }

  /** Assignments of `setup_pml4` and `setup_pdpt`: four fields change and the other seven do not. */
  lemma TableEntryAssigns(w: bv64, address: bv64)
    requires address / 0x1000 < 0x10_0000_0000
    ensures UnpackTableFields(TableEntry(w, address)) ==
            UnpackTableFields(w).(read := 1, write := 1, execute := 1, pfn := address / 0x1000)
  {
  }

  /** Assignments of `setup_pdt`. */
  lemma LargeEntryAssigns(w: bv64, pfn: bv64)
    requires pfn < 0x800_0000
    ensures UnpackLargePdeFields(LargeEntry(w, pfn)) ==
            UnpackLargePdeFields(w).(read := 1, write := 1, execute := 1, memoryType := 6, largePage := 1, pfn := pfn)
  {
  }

  /** Assignments of the copy loop of `split_page`: nine fields from the leaf, and five as they were. */
  lemma SplitPteAssigns(leaf: bv64, prior: bv64, i: bv64)
    requires i < 512
    ensures var from := UnpackLargePdeFields(leaf);
            UnpackPteFields(SplitPte(leaf, prior, i)) ==
            UnpackPteFields(prior).(
              write := from.write, read := from.read, execute := from.execute, memoryType := from.memoryType,
              pfn := (from.pfn << 21) / 0x1000 + i, accessed := from.accessed, dirty := from.dirty,
              ignorePat := from.ignorePat, userExecute := from.userExecute)
  {
  }

  /**
   Assignments to the new `EptPde`, which starts as zero: everything not assigned, reserved bits included, stays
   zero.
   */
  lemma SplitPdeAssigns(leaf: bv64, address: bv64)
    requires address / 0x1000 < 0x10_0000_0000
    ensures var from := UnpackLargePdeFields(leaf);
            UnpackPdeFields(SplitPde(leaf, address)) ==
            PdeFields(from.read, from.write, from.execute, 0, 0, from.accessed, 0, from.userExecute, 0,
                      address / 0x1000, 0, 0)
  {
  }

  /** The bit that tells the two formats of a PDE apart, and the fields they share, lie at the same place in both. */
  lemma PdeFormatsAgree(w: bv64)
    ensures var large, table := UnpackLargePdeFields(w), UnpackPdeFields(w);
            && large.read == table.read && large.write == table.write && large.execute == table.execute
            && large.largePage == table.largePage && large.accessed == table.accessed
            && large.userExecute == table.userExecute
            && (large.largePage == 1 <==> LargePage(w))
  {
  }

  /** Assignments of `setup_eptp` to a zero word. */
  lemma EptpAssigns(pml4: bv64)
    requires pml4 / 0x1000 < 0x10_0000_0000
    ensures UnpackEptpFields(Eptp(pml4)) == EptpFields(6, 3, 0, 0, pml4 / 0x1000, 0)
  {
  }
}
