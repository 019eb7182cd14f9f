/**
 The processor's side of extended paging, written from section 28.2.2 of the Intel SDM, Volume 3C, and
 knowing nothing of the code that fills the tables: a four-level walk over physical memory that checks
 presence, illegal permissions, reserved bits and memory types on the way down.
 */
module EptWalk {
  import opened EptEntries

  /** Physical memory that holds paging tables: the words of each page, by its physical address. */
  type PhysicalMemory = map<nat, seq<bv64>>

  /** The physical address in the frame field of an entry, of the EPT pointer, or of a page address itself. */
  function Target(w: bv64): nat {
    Frame(w) as nat
  }

  /** The processor features and controls on which the meaning of an entry depends. */
  datatype Hardware = Hardware(modeBasedExecute: bool, executeOnly: bool)

  datatype Outcome =
    | Mapped(address: bv64, rights: bv64, memoryType: bv64, ignorePat: bool)
    | Violation
    | Misconfigured
    | OutsideMemory

  /** The rights bits that this processor looks at; bit 10 counts under mode-based execute control only. */
  function Rights(hw: Hardware, w: bv64): bv64 {
    if hw.modeBasedExecute then w & 0x407 else w & 0x7
  }

  /** Rights granted by two levels of the walk. */
  function Meet(a: bv64, b: bv64): bv64 { a & b }

  predicate Present(hw: Hardware, w: bv64) {
    Rights(hw, w) != 0
  }

  /** Write without read, or execute without read where that is not supported. */
  predicate IllegalRights(hw: Hardware, w: bv64) {
    || w & 0x3 == 0x2
    || (!hw.executeOnly && w & 0x1 == 0 && Rights(hw, w) & 0x404 != 0)
  }

  predicate IllegalMemoryType(w: bv64) {
    MemoryType(w) == 2 || MemoryType(w) == 3 || MemoryType(w) == 7
  }

  predicate IsLeaf(level: nat, w: bv64) {
    level == 1 || (level <= 3 && LargePage(w))
  }

  predicate LeafReserved(level: nat, w: bv64) {
    if level == 1 then HighReserved(w) != 0
    else if level == 2 then HighReserved(w) != 0 || LowReserved(w) != 0
    else HighReserved(w) != 0 || w & 0x3FFF_F000 != 0
  }

  /** Bits 7 to 3 and 51 to 48 of an entry that refers to a table. */
  predicate TableReserved(w: bv64) {
    w & 0x000F_0000_0000_00F8 != 0
  }

  /** The host-physical address: the leaf's frame, and the address bits below it. */
  function LeafAddress(level: nat, w: bv64, gpa: bv64): bv64 {
    if level == 1 then Frame(w) | (gpa & 0xFFF)
    else if level == 2 then LargeFrame(w) | (gpa & 0x1F_FFFF)
    else HugeFrame(w) | (gpa & 0x3FFF_FFFF)
  }

  /** The nine address bits that select an entry at a level; level 4 is the root. */
  function IndexBits(gpa: bv64, level: nat): (i: bv64)
    ensures i < 512
  {
    if level == 1 then (gpa >> 12) & 0x1FF
    else if level == 2 then (gpa >> 21) & 0x1FF
    else if level == 3 then (gpa >> 30) & 0x1FF
    else (gpa >> 39) & 0x1FF
  }

  function Index(gpa: bv64, level: nat): (i: nat)
    ensures i < ENTRY_COUNT
  {
    IndexBits(gpa, level) as nat
  }

  /** What a leaf at a level does with an address. */
  function LeafOutcome(hw: Hardware, level: nat, w: bv64, gpa: bv64, rights: bv64): Outcome {
    if !Present(hw, w) then Violation
    else if IllegalRights(hw, w) || LeafReserved(level, w) || IllegalMemoryType(w) then Misconfigured
    else Mapped(LeafAddress(level, w, gpa), Meet(rights, Rights(hw, w)), MemoryType(w), IgnorePat(w))
  }

  /** The walk goes on to the table that this entry refers to. */
  predicate Descends(hw: Hardware, level: nat, w: bv64) {
    !IsLeaf(level, w) && Present(hw, w) && !IllegalRights(hw, w) && !TableReserved(w)
  }

  /** The outcome of a walk that ends at this entry. */
  function EntryOutcome(hw: Hardware, level: nat, w: bv64, gpa: bv64, rights: bv64): Outcome {
    if IsLeaf(level, w) then LeafOutcome(hw, level, w, gpa, rights)
    else if !Present(hw, w) then Violation
    else Misconfigured
  }

  /** Walk from the table at `base`; `rights` is the conjunction of the rights of the levels above. */
  function WalkFrom(hw: Hardware, mem: PhysicalMemory, base: nat, level: nat, gpa: bv64, rights: bv64): Outcome
    requires 1 <= level <= 4
    decreases level
  {
    if base !in mem || |mem[base]| != ENTRY_COUNT then OutsideMemory else
    var w := mem[base][Index(gpa, level)];
    if Descends(hw, level, w) then WalkFrom(hw, mem, Target(w), level - 1, gpa, Meet(rights, Rights(hw, w)))
    else EntryOutcome(hw, level, w, gpa, rights)
  }

  /** The walk that the EPT pointer in the VMCS starts. */
  function Walk(hw: Hardware, mem: PhysicalMemory, eptp: bv64, gpa: bv64): Outcome {
    WalkFrom(hw, mem, Target(eptp), 4, gpa, Rights(hw, 0x407))
  }

  /** The walk of `gpa` reads entry `j` of the table at `table`. */
  ghost predicate Reads(hw: Hardware, mem: PhysicalMemory, base: nat, level: nat, gpa: bv64, table: nat, j: nat)
    requires 1 <= level <= 4
    decreases level
  {
    base in mem && |mem[base]| == ENTRY_COUNT &&
    var w := mem[base][Index(gpa, level)];
    || (base == table && Index(gpa, level) == j)
    || (Descends(hw, level, w) && Reads(hw, mem, Target(w), level - 1, gpa, table, j))
  }

  /** One step of a walk, and of the entries it reads, at a table whose selected entry is `w`. */
  lemma WalkStep(hw: Hardware, mem: PhysicalMemory, base: nat, level: nat, gpa: bv64, rights: bv64, w: bv64)
    requires 1 <= level <= 4 && base in mem && |mem[base]| == ENTRY_COUNT && mem[base][Index(gpa, level)] == w
    ensures if Descends(hw, level, w)
            then WalkFrom(hw, mem, base, level, gpa, rights) ==
                 WalkFrom(hw, mem, Target(w), level - 1, gpa, Meet(rights, Rights(hw, w)))
            else WalkFrom(hw, mem, base, level, gpa, rights) == EntryOutcome(hw, level, w, gpa, rights)
  {
    hide Present, IllegalRights, TableReserved, EntryOutcome, Rights, Target, LargePage;
  }

  lemma ReadsStep(hw: Hardware, mem: PhysicalMemory, base: nat, level: nat, gpa: bv64, table: nat, j: nat, w: bv64)
    requires 1 <= level <= 4 && base in mem && |mem[base]| == ENTRY_COUNT && mem[base][Index(gpa, level)] == w
    ensures Reads(hw, mem, base, level, gpa, table, j) <==>
            (base == table && Index(gpa, level) == j) ||
            (Descends(hw, level, w) && Reads(hw, mem, Target(w), level - 1, gpa, table, j))
  {
    hide Present, IllegalRights, TableReserved, Rights, Target, LargePage;
  }

  /** An entry that could lead a walk to another table. */
  predicate RefersToTable(level: nat, w: bv64) {
    !IsLeaf(level, w) && RightsBits(w) != 0
  }

  /**
   Every page is a table of one level, and references lead one level down.  This is what keeps an update
   of one level from being seen as an update of another; it does not ask for a tree, so tables may be shared.
   */
  ghost predicate Typed(mem: PhysicalMemory, levelOf: nat -> nat) {
    forall base :: base in mem ==> TypedTable(mem, levelOf, base)
  }

  ghost predicate TypedTable(mem: PhysicalMemory, levelOf: nat -> nat, base: nat)
    requires base in mem
  {
    && 1 <= levelOf(base) <= 4
    && |mem[base]| == ENTRY_COUNT
    && forall i :: 0 <= i < ENTRY_COUNT ==> TypedEntry(mem, levelOf, levelOf(base), mem[base][i])
  }

  ghost predicate TypedEntry(mem: PhysicalMemory, levelOf: nat -> nat, level: nat, w: bv64) {
    RefersToTable(level, w) ==> Target(w) in mem && levelOf(Target(w)) == level - 1
  }
}
