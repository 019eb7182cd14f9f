/**
 Segment bases out of the GDT: `get_segment_base` against the descriptor layout of sections 3.4.5 and 3.5.2 of
 the Intel SDM, Volume 3A.  The GDT is a sequence of 8-byte slots; a system descriptor takes two of them.
 */
module Segments {

  function SelectorIndex(selector: bv16): nat {
    (selector >> 3) as nat
  }

  /** Index 0 in the GDT, whatever the requested privilege level. */
  predicate IsNull(selector: bv16) {
    selector & 0xFFFC == 0
  }

  /** The descriptor's S bit: set for code and data, clear for system descriptors. */
  predicate IsCodeOrData(descriptor: bv64) {
    descriptor & 0x1000_0000_0000 != 0
  }

  /** `gdt` holds every slot that the selector's descriptor occupies. */
  predicate InTable(gdt: seq<bv64>, selector: bv16) {
    var i := SelectorIndex(selector);
    IsNull(selector) || (i < |gdt| && (!IsCodeOrData(gdt[i]) ==> i + 1 < |gdt|))
  }

  /** The three parts that both kinds of descriptor keep at the same place. */
  function LowBase(descriptor: bv64): bv64 {
    var base := (descriptor >> 16) & 0xFFFF;
    var base := base | (((descriptor >> 32) & 0xFF) << 16);
    base | (((descriptor >> 56) & 0xFF) << 24)
  }

  function GetSegmentBase(gdt: seq<bv64>, selector: bv16): bv64
    requires InTable(gdt, selector)
  {
    if IsNull(selector) then 0
    else
      var i := SelectorIndex(selector);
      if !IsCodeOrData(gdt[i]) then LowBase(gdt[i]) | ((gdt[i + 1] & 0xFFFF_FFFF) << 32)
      else LowBase(gdt[i])
  }

  /** The architectural encoding: the low 32 bits of a base scattered into a descriptor that keeps its other fields. */
  function Scatter(descriptor: bv64, base: bv64): bv64 {
    (descriptor & 0x00FF_FF00_0000_FFFF)
    | ((base & 0xFFFF) << 16) | (((base >> 16) & 0xFF) << 32) | (((base >> 24) & 0xFF) << 56)
  }

  /** Bits 63 to 32 of a base in the second slot of a system descriptor. */
  function ScatterUpper(slot: bv64, base: bv64): bv64 {
    (slot & 0xFFFF_FFFF_0000_0000) | (base >> 32)
  }

  lemma ScatterRoundTrip(descriptor: bv64, base: bv64)
    ensures LowBase(Scatter(descriptor, base)) == base & 0xFFFF_FFFF
    ensures IsCodeOrData(Scatter(descriptor, base)) == IsCodeOrData(descriptor)
  {
  }

  lemma GatherRoundTrip(descriptor: bv64)
    ensures Scatter(descriptor, LowBase(descriptor)) == descriptor
  {
  }

  lemma UpperRoundTrip(descriptor: bv64, slot: bv64, base: bv64)
    ensures (base & 0xFFFF_FFFF) | ((ScatterUpper(slot, base) & 0xFFFF_FFFF) << 32) == base
  {
  }

  /** Decoding inverts encoding for every 32-bit base of a code or data segment, whatever the other fields hold. */
  lemma CodeOrDataBase(gdt: seq<bv64>, selector: bv16, base: bv64)
    requires !IsNull(selector) && SelectorIndex(selector) < |gdt| && IsCodeOrData(gdt[SelectorIndex(selector)])
    requires base < 0x1_0000_0000
    ensures var i := SelectorIndex(selector);
            var gdt' := gdt[i := Scatter(gdt[i], base)];
            InTable(gdt', selector) && GetSegmentBase(gdt', selector) == base
  {
    hide IsNull, SelectorIndex, Scatter, LowBase, IsCodeOrData;
    ScatterRoundTrip(gdt[SelectorIndex(selector)], base);
    Low32(base);
  }

  lemma Low32(base: bv64)
    requires base < 0x1_0000_0000
    ensures base & 0xFFFF_FFFF == base
  {
  }

  /** The same for every 64-bit base of a system descriptor, such as the TSS's. */
  lemma SystemBase(gdt: seq<bv64>, selector: bv16, base: bv64)
    requires !IsNull(selector) && SelectorIndex(selector) + 1 < |gdt| && !IsCodeOrData(gdt[SelectorIndex(selector)])
    ensures var i := SelectorIndex(selector);
            var gdt' := gdt[i := Scatter(gdt[i], base)][i + 1 := ScatterUpper(gdt[i + 1], base)];
            InTable(gdt', selector) && GetSegmentBase(gdt', selector) == base
  {
    hide IsNull, SelectorIndex, Scatter, ScatterUpper, LowBase, IsCodeOrData;
    var i := SelectorIndex(selector);
    ScatterRoundTrip(gdt[i], base);
    UpperRoundTrip(gdt[i], gdt[i + 1], base);
  }

  /** A selector as section 3.4.2 composes it: an index into the GDT and a privilege level. */
  function GdtSelector(index: bv16, rpl: bv16): bv16 {
    (index << 3) | rpl
  }

  lemma SelectorBits(index: bv16, rpl: bv16)
    requires index < 0x2000 && rpl < 4
    ensures GdtSelector(index, rpl) >> 3 == index && (IsNull(GdtSelector(index, rpl)) <==> index == 0)
  {
  }

  lemma SelectorParts(index: bv16, rpl: bv16)
    requires index < 0x2000 && rpl < 4
    ensures SelectorIndex(GdtSelector(index, rpl)) == index as nat
    ensures IsNull(GdtSelector(index, rpl)) <==> index == 0
  {
    hide GdtSelector, IsNull;
    SelectorBits(index, rpl);
  }

  /** The S flag of a descriptor, bit 12 of its second half. */
  predicate SFlag(descriptor: bv64) {
    (descriptor >> 44) & 1 == 1
  }

  /** What the table looks like when the descriptor in slot `i`, by its S bit one slot or two, has this base. */
  function WithBase(gdt: seq<bv64>, i: nat, base: bv64): seq<bv64>
    requires i < |gdt| && (!SFlag(gdt[i]) ==> i + 1 < |gdt|)
  {
    if SFlag(gdt[i]) then gdt[i := Scatter(gdt[i], base)]
    else gdt[i := Scatter(gdt[i], base)][i + 1 := ScatterUpper(gdt[i + 1], base)]
  }

  lemma FlagIsSFlag(descriptor: bv64)
    ensures IsCodeOrData(descriptor) <==> SFlag(descriptor)
  {
  }

  /**
   `get_segment_base` for every GDT and every selector into it: 0 for the four null selectors, whatever the table
   holds, and otherwise the base that the descriptor encodes, 32 bits of it for code and data and 64 for the system.
   */
  lemma SegmentBase(gdt: seq<bv64>, index: bv16, rpl: bv16, base: bv64)
    requires index < 0x2000 && rpl < 4
    ensures var selector := GdtSelector(index, rpl);
            index == 0 ==> InTable(gdt, selector) && GetSegmentBase(gdt, selector) == 0
    ensures var selector, i := GdtSelector(index, rpl), index as nat;
            index != 0 && i < |gdt| && (!SFlag(gdt[i]) ==> i + 1 < |gdt|) &&
            (SFlag(gdt[i]) ==> base < 0x1_0000_0000) ==>
              InTable(WithBase(gdt, i, base), selector) && GetSegmentBase(WithBase(gdt, i, base), selector) == base
  {
    hide IsNull, SelectorIndex, Scatter, ScatterUpper, LowBase, IsCodeOrData, GdtSelector, SFlag;
    var selector, i := GdtSelector(index, rpl), index as nat;
    SelectorParts(index, rpl);
    if index != 0 && i < |gdt| {
      FlagIsSFlag(gdt[i]);
      if IsCodeOrData(gdt[i]) {
        if base < 0x1_0000_0000 {
          CodeOrDataBase(gdt, selector, base);
        }
      } else if i + 1 < |gdt| {
        SystemBase(gdt, selector, base);
      }
    }
  }

  /** A selector with the LDT bit set and index 0 is not taken for null: the code then reads GDT slot 0. */
  lemma NullIffIndexAndTableZero(selector: bv16)
    ensures IsNull(selector) <==> SelectorIndex(selector) == 0 && selector & 0x4 == 0
  {
    IndexZero(selector >> 3);
  }

  lemma IndexZero(w: bv16)
    ensures w as nat == 0 <==> w == 0
  {
  }
}
