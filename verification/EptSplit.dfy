/**
 Splitting one 2 MiB leaf into 512 4 KiB leaves, as an update of physical memory, and what it does to
 the walk of every guest-physical address.
 */
module EptSplit {
  import opened EptEntries
  import opened EptWalk

  /** `split_page` zeroes the first entry of the new table only; the others start as the pool left them. */
  function PriorEntry(pool: seq<bv64>, i: nat): bv64
    requires |pool| == ENTRY_COUNT && i < ENTRY_COUNT
  {
    if i == 0 then 0 else pool[i]
  }

  /** Entry `i` of the new table. */
  function SplitEntry(leaf: bv64, prior: bv64, i: nat): bv64
    requires i < ENTRY_COUNT
  {
    SplitPte(leaf, prior, i as bv64)
  }

  function SplitTable(leaf: bv64, pool: seq<bv64>): (table: seq<bv64>)
    requires |pool| == ENTRY_COUNT
    ensures |table| == ENTRY_COUNT
  {
    seq(ENTRY_COUNT, i requires 0 <= i < ENTRY_COUNT => SplitEntry(leaf, PriorEntry(pool, i), i))
  }

  /** The copy loop runs after bit 7 of the PDE has been cleared; it does not look at that bit. */
  lemma ClearedLeafFillsAlike(leaf: bv64, pool: seq<bv64>)
    requires |pool| == ENTRY_COUNT
    ensures SplitTable(Put(leaf, 0x80, 0), pool) == SplitTable(leaf, pool)
    ensures forall table :: SplitPde(Put(leaf, 0x80, 0), table) == SplitPde(leaf, table)
  {
    hide PriorEntry, SplitEntry, SplitPde, Put, LeafFields;
    var cleared := Put(leaf, 0x80, 0);
    ClearedBits(leaf);
    forall i, prior | 0 <= i < ENTRY_COUNT ensures SplitEntry(cleared, prior, i) == SplitEntry(leaf, prior, i) {
      SameEntry(leaf, cleared, prior, i);
    }
    forall table ensures SplitPde(cleared, table) == SplitPde(leaf, table) {
      SamePde(leaf, cleared, table);
    }
  }

  lemma SameEntry(leaf: bv64, cleared: bv64, prior: bv64, i: nat)
    requires i < ENTRY_COUNT && LeafFields(cleared) == LeafFields(leaf)
    ensures SplitEntry(cleared, prior, i) == SplitEntry(leaf, prior, i)
  {
    hide SplitPte;
    IndexIsSmall(i);
    SamePte(leaf, cleared, prior, i as bv64);
  }

  lemma IndexIsSmall(i: nat)
    requires i < ENTRY_COUNT
    ensures i as bv64 < 512
  {
    var w := WordOfIndex(i);
  }

  lemma SamePte(leaf: bv64, cleared: bv64, prior: bv64, i: bv64)
    requires i < 512 && LeafFields(cleared) == LeafFields(leaf)
    ensures SplitPte(cleared, prior, i) == SplitPte(leaf, prior, i)
  {
    hide SplitPte, PteWord, LeafFields;
    SplitPteWord(leaf, prior, i);
    SplitPteWord(cleared, prior, i);
  }

  lemma SamePde(leaf: bv64, cleared: bv64, table: bv64)
    requires LeafFields(cleared) == LeafFields(leaf)
    ensures SplitPde(cleared, table) == SplitPde(leaf, table)
  {
    hide SplitPde, LeafFields;
    SplitPdeWord(leaf, table);
    SplitPdeWord(cleared, table);
  }

  lemma ClearedBits(leaf: bv64)
    ensures LeafFields(Put(leaf, 0x80, 0)) == LeafFields(leaf)
  {
  }

  /** A table index as a word. */
  lemma WordOfIndex(n: nat) returns (w: bv64)
    requires n < ENTRY_COUNT
    ensures w < 512 && w as nat == n && n as bv64 == w
  {
    if n == 0 {
      w := 0;
    } else {
      w := WordOfIndex(n - 1);
      NextWord(w);
      w := w + 1;
      NatOfWord(w);
    }
  }

  lemma NextWord(w: bv64)
    requires w < 511
    ensures (w + 1) as nat == w as nat + 1
  {
  }

  predicate IsSlot(mem: PhysicalMemory, pd: nat, j: nat) {
    pd in mem && |mem[pd]| == ENTRY_COUNT && j < ENTRY_COUNT
  }

  /** The slot holds a large PDE and `table` is a page that no walk uses yet. */
  ghost predicate CanSplit(mem: PhysicalMemory, levelOf: nat -> nat, pd: nat, j: nat, table: bv64, pool: seq<bv64>) {
    && IsSlot(mem, pd, j) && levelOf(pd) == 2 && LargePage(mem[pd][j])
    && Target(table) !in mem && IsPageAddress(table) && levelOf(Target(table)) == 1
    && |pool| == ENTRY_COUNT
  }

  function Split(mem: PhysicalMemory, pd: nat, j: nat, table: bv64, pool: seq<bv64>): PhysicalMemory
    requires pd in mem && j < |mem[pd]| && |pool| == ENTRY_COUNT
  {
    mem[Target(table) := SplitTable(mem[pd][j], pool)][pd := mem[pd][j := SplitPde(mem[pd][j], table)]]
  }

  lemma SplitKeepsTyping(mem: PhysicalMemory, levelOf: nat -> nat, pd: nat, j: nat, table: bv64, pool: seq<bv64>)
    requires Typed(mem, levelOf) && CanSplit(mem, levelOf, pd, j, table, pool)
    ensures Typed(Split(mem, pd, j, table, pool), levelOf)
  {
    var after := Split(mem, pd, j, table, pool);
    SplitMirrorsInPde(mem[pd][j], table);
    forall base | base in after ensures TypedTable(after, levelOf, base) {
      if base == Target(table) {
      } else if base == pd {
        assert TypedTable(mem, levelOf, base);
        assert forall i :: 0 <= i < ENTRY_COUNT ==> TypedEntry(mem, levelOf, 2, mem[pd][i]);
        assert after[pd] == mem[pd][j := SplitPde(mem[pd][j], table)];
      } else {
        assert TypedTable(mem, levelOf, base);
        assert forall i :: 0 <= i < ENTRY_COUNT ==> TypedEntry(mem, levelOf, levelOf(base), mem[base][i]);
        assert after[base] == mem[base];
      }
    }
  }

  /** A walk that reaches the leaf faults on it whatever its reserved bits are. */
  predicate LeafFaults(hw: Hardware, w: bv64) {
    !Present(hw, w) || IllegalRights(hw, w) || IllegalMemoryType(w)
  }

  /** Words that agree on the rights bits agree on everything the processor derives from them. */
  lemma SameRights(hw: Hardware, v: bv64, w: bv64)
    requires RightsBits(v) == RightsBits(w)
    ensures Rights(hw, v) == Rights(hw, w)
    ensures IllegalRights(hw, v) == IllegalRights(hw, w) && Present(hw, v) == Present(hw, w)
  {
  }

  /** How a table PDE and one of its PTEs relate to the leaf they stand for, for an address below the slot. */
  predicate MirrorsInPde(leaf: bv64, pde: bv64) {
    RightsBits(pde) == RightsBits(leaf) && !TableReserved(pde)
  }

  predicate MirrorsInPte(leaf: bv64, pte: bv64, gpa: bv64) {
    && RightsBits(pte) == RightsBits(leaf)
    && MemoryType(pte) == MemoryType(leaf)
    && IgnorePat(pte) == IgnorePat(leaf)
    && LeafAddress(1, pte, gpa) == LeafAddress(2, leaf, gpa)
  }

  lemma SplitMirrorsInPde(leaf: bv64, table: bv64)
    requires IsPageAddress(table)
    ensures MirrorsInPde(leaf, SplitPde(leaf, table))
    ensures Target(SplitPde(leaf, table)) == Target(table)
    ensures !LargePage(SplitPde(leaf, table))
  {
  }

  lemma SplitMirrorsInPte(leaf: bv64, prior: bv64, gpa: bv64)
    ensures MirrorsInPte(leaf, SplitPte(leaf, prior, IndexBits(gpa, 1)), gpa)
    ensures HighReserved(SplitPte(leaf, prior, IndexBits(gpa, 1))) == HighReserved(prior)
  {
    SplitPteMeaning(leaf, prior, IndexBits(gpa, 1));
    SameAddress(leaf, SplitPte(leaf, prior, IndexBits(gpa, 1)), gpa);
  }

  lemma SameAddress(leaf: bv64, pte: bv64, gpa: bv64)
    requires Frame(pte) == LargeFrame(leaf) + (IndexBits(gpa, 1) << 12)
    ensures LeafAddress(1, pte, gpa) == LeafAddress(2, leaf, gpa)
  {
  }

  /** What a walk that arrives at the split slot with `rights` finds there and in the new table. */
  function OutcomeBelow(hw: Hardware, pde: bv64, pte: bv64, gpa: bv64, rights: bv64): Outcome {
    if !Present(hw, pde) then Violation
    else if IllegalRights(hw, pde) || TableReserved(pde) then Misconfigured
    else LeafOutcome(hw, 1, pte, gpa, Meet(rights, Rights(hw, pde)))
  }

  lemma MeetTwice(x: bv64, y: bv64)
    ensures Meet(Meet(x, y), y) == Meet(x, y)
  {
  }

  /**
   What a split does to an address below the slot.  The walk is unchanged exactly when the leaf faults anyway,
   or when reserved bits were set in the leaf, which the split drops, and are set in the new entry, which the
   split does not clear, both or neither.  An address that was mapped is never mapped elsewhere.
   */
  predicate SplitEffect(hw: Hardware, leaf: bv64, garbage: bool, before: Outcome, after: Outcome) {
    && (after == before <==> LeafFaults(hw, leaf) || LeafReserved(2, leaf) == garbage)
    && (before.Mapped? ==> after == if garbage then Misconfigured else before)
  }

  /** The pool contents leave reserved bits set in the new entry that this address selects. */
  predicate Garbage(pool: seq<bv64>, gpa: bv64)
    requires |pool| == ENTRY_COUNT
  {
    HighReserved(PriorEntry(pool, Index(gpa, 1))) != 0
  }

  /** Word by word, a split is exact: faults stay faults, and only the reserved bits of the two formats can tell. */
  lemma OutcomeOfMirror(hw: Hardware, leaf: bv64, pde: bv64, pte: bv64, gpa: bv64, rights: bv64)
    requires MirrorsInPde(leaf, pde) && MirrorsInPte(leaf, pte, gpa)
    ensures SplitEffect(hw, leaf, HighReserved(pte) != 0, LeafOutcome(hw, 2, leaf, gpa, rights),
                        OutcomeBelow(hw, pde, pte, gpa, rights))
  {
    hide Meet, LeafAddress, IllegalRights, Rights, Present, RightsBits, MemoryType, IgnorePat, TableReserved;
    hide LeafReserved;
    PteReserved(pte);
    SameRights(hw, pde, leaf);
    SameRights(hw, pte, leaf);
    MeetTwice(rights, Rights(hw, leaf));
  }

  lemma PteReserved(pte: bv64)
    ensures LeafReserved(1, pte) <==> HighReserved(pte) != 0
  {
  }

  lemma IndexRoundTrip(gpa: bv64, level: nat)
    ensures Index(gpa, level) as bv64 == IndexBits(gpa, level)
  {
    NatOfWord(IndexBits(gpa, level));
  }

  lemma NatOfWord(w: bv64)
    ensures (w as nat) as bv64 == w
  {
  }

  /** The last two steps of a walk, in terms of the two words they read. */
  lemma LastTwoSteps(hw: Hardware, mem: PhysicalMemory, pd: nat, gpa: bv64, rights: bv64, pde: bv64, pte: bv64)
    requires pd in mem && |mem[pd]| == ENTRY_COUNT && mem[pd][Index(gpa, 2)] == pde && !LargePage(pde)
    requires Target(pde) in mem && |mem[Target(pde)]| == ENTRY_COUNT && mem[Target(pde)][Index(gpa, 1)] == pte
    ensures WalkFrom(hw, mem, pd, 2, gpa, rights) == OutcomeBelow(hw, pde, pte, gpa, rights)
  {
    hide Present, IllegalRights, TableReserved, LeafOutcome, Rights, Target, LargePage, Index, IndexBits;
  }

  lemma LargeLeafEndsWalk(hw: Hardware, mem: PhysicalMemory, pd: nat, gpa: bv64, rights: bv64)
    requires IsSlot(mem, pd, Index(gpa, 2)) && LargePage(mem[pd][Index(gpa, 2)])
    ensures WalkFrom(hw, mem, pd, 2, gpa, rights) == LeafOutcome(hw, 2, mem[pd][Index(gpa, 2)], gpa, rights)
  {
    hide LeafOutcome, Index, LargePage;
  }

  lemma NewTableEntry(leaf: bv64, pool: seq<bv64>, gpa: bv64)
    requires |pool| == ENTRY_COUNT
    ensures SplitTable(leaf, pool)[Index(gpa, 1)] == SplitPte(leaf, PriorEntry(pool, Index(gpa, 1)), IndexBits(gpa, 1))
  {
    hide SplitPte, PriorEntry, Index, IndexBits;
    IndexRoundTrip(gpa, 1);
  }

  lemma SplitAtSlot(hw: Hardware, mem: PhysicalMemory, levelOf: nat -> nat, pd: nat, table: bv64, pool: seq<bv64>,
                    gpa: bv64, rights: bv64)
    requires CanSplit(mem, levelOf, pd, Index(gpa, 2), table, pool)
    ensures SplitEffect(hw, mem[pd][Index(gpa, 2)], Garbage(pool, gpa), WalkFrom(hw, mem, pd, 2, gpa, rights),
                        WalkFrom(hw, Split(mem, pd, Index(gpa, 2), table, pool), pd, 2, gpa, rights))
  {
    hide SplitPte, SplitPde, PriorEntry, SplitTable, Index, IndexBits, Target, Frame, LargePage, MirrorsInPde;
    hide MirrorsInPte;
    hide WalkFrom, OutcomeBelow, LeafOutcome, SplitEffect;
    var leaf := mem[pd][Index(gpa, 2)];
    var prior := PriorEntry(pool, Index(gpa, 1));
    var pde, pte := SplitPde(leaf, table), SplitPte(leaf, prior, IndexBits(gpa, 1));
    SplitMirrorsInPde(leaf, table);
    SplitMirrorsInPte(leaf, prior, gpa);
    NewTableEntry(leaf, pool, gpa);
    LargeLeafEndsWalk(hw, mem, pd, gpa, rights);
    LastTwoSteps(hw, Split(mem, pd, Index(gpa, 2), table, pool), pd, gpa, rights, pde, pte);
    OutcomeOfMirror(hw, leaf, pde, pte, gpa, rights);
  }

  lemma DescentIsTyped(hw: Hardware, mem: PhysicalMemory, levelOf: nat -> nat, base: nat, level: nat, gpa: bv64)
    requires Typed(mem, levelOf) && base in mem && levelOf(base) == level
    ensures 1 <= level <= 4 && |mem[base]| == ENTRY_COUNT
    ensures var w := mem[base][Index(gpa, level)];
            Descends(hw, level, w) ==> level > 1 && Target(w) in mem && levelOf(Target(w)) == level - 1
  {
    assert TypedTable(mem, levelOf, base);
    assert TypedEntry(mem, levelOf, level, mem[base][Index(gpa, level)]);
  }

  /** Entries other than the split slot are the same before and after, so a walk takes the same step at them. */
  lemma SplitKeepsOtherEntries(mem: PhysicalMemory, levelOf: nat -> nat, pd: nat, j: nat, table: bv64, pool: seq<bv64>,
                               base: nat, i: nat)
    requires CanSplit(mem, levelOf, pd, j, table, pool)
    requires base in mem && i < |mem[base]| && !(base == pd && i == j)
    ensures base in Split(mem, pd, j, table, pool) && |Split(mem, pd, j, table, pool)[base]| == |mem[base]|
    ensures Split(mem, pd, j, table, pool)[base][i] == mem[base][i]
  {
    hide SplitTable, SplitPde, Target, LargePage;
  }

  /** What a split of slot (`pd`, `j`) does to the walk that starts at one table of one level. */
  ghost predicate SplitIsExact(hw: Hardware, mem: PhysicalMemory, pd: nat, j: nat, table: bv64, pool: seq<bv64>,
                               base: nat, level: nat, gpa: bv64, rights: bv64)
    requires pd in mem && j < |mem[pd]| && |pool| == ENTRY_COUNT && 1 <= level <= 4
  {
    var before := WalkFrom(hw, mem, base, level, gpa, rights);
    var after := WalkFrom(hw, Split(mem, pd, j, table, pool), base, level, gpa, rights);
    if Reads(hw, mem, base, level, gpa, pd, j) then SplitEffect(hw, mem[pd][j], Garbage(pool, gpa), before, after)
    else after == before
  }

  lemma ExactAtOtherEntry(hw: Hardware, mem: PhysicalMemory, pd: nat, j: nat, table: bv64,
                          pool: seq<bv64>, base: nat, level: nat, gpa: bv64, rights: bv64, w: bv64)
    requires pd in mem && j < |mem[pd]| && |pool| == ENTRY_COUNT && 1 <= level <= 4
    requires base in mem && |mem[base]| == ENTRY_COUNT && !(base == pd && Index(gpa, level) == j)
    requires mem[base][Index(gpa, level)] == w
    requires var after := Split(mem, pd, j, table, pool);
             base in after && |after[base]| == ENTRY_COUNT && after[base][Index(gpa, level)] == w
    requires Descends(hw, level, w) ==>
               SplitIsExact(hw, mem, pd, j, table, pool, Target(w), level - 1, gpa, Meet(rights, Rights(hw, w)))
    ensures SplitIsExact(hw, mem, pd, j, table, pool, base, level, gpa, rights)
  {
    hide WalkFrom, Reads, Descends, EntryOutcome, Rights, Target, Index, IndexBits, Split, SplitEffect, Garbage;
    var after := Split(mem, pd, j, table, pool);
    ReadsStep(hw, mem, base, level, gpa, pd, j, w);
    WalkStep(hw, mem, base, level, gpa, rights, w);
    WalkStep(hw, after, base, level, gpa, rights, w);
  }

  /** The main theorem on one split, for any table contents of the right shape and any large PDE whatever. */
  lemma {:induction false} SplitWalk(hw: Hardware, mem: PhysicalMemory, levelOf: nat -> nat, pd: nat, j: nat,
                                     table: bv64, pool: seq<bv64>, base: nat, level: nat, gpa: bv64, rights: bv64)
    requires Typed(mem, levelOf) && CanSplit(mem, levelOf, pd, j, table, pool)
    requires base in mem && levelOf(base) == level
    ensures 1 <= level <= 4 && SplitIsExact(hw, mem, pd, j, table, pool, base, level, gpa, rights)
    decreases level
  {
    hide WalkFrom, Descends, EntryOutcome, Rights, Target, Index, LargePage, IsPageAddress, Split, SplitEffect;
    hide Typed, Garbage;
    DescentIsTyped(hw, mem, levelOf, base, level, gpa);
    var w := mem[base][Index(gpa, level)];
    if base == pd && Index(gpa, level) == j {
      SplitAtSlot(hw, mem, levelOf, pd, table, pool, gpa, rights);
    } else {
      if Descends(hw, level, w) {
        SplitWalk(hw, mem, levelOf, pd, j, table, pool, Target(w), level - 1, gpa, Meet(rights, Rights(hw, w)));
      }
      SplitKeepsOtherEntries(mem, levelOf, pd, j, table, pool, base, Index(gpa, level));
      ExactAtOtherEntry(hw, mem, pd, j, table, pool, base, level, gpa, rights, w);
    }
  }

  /** All entries of the granted page that the split does not zero have clear reserved bits. */
  predicate CleanPool(pool: seq<bv64>) {
    |pool| == ENTRY_COUNT && forall k :: 1 <= k < ENTRY_COUNT ==> HighReserved(pool[k]) == 0
  }

  lemma CleanPoolIsNoGarbage(pool: seq<bv64>, gpa: bv64)
    requires |pool| == ENTRY_COUNT
    ensures CleanPool(pool) ==> !Garbage(pool, gpa)
  {
    hide Index;
    ZeroIsClean();
  }

  lemma ZeroIsClean()
    ensures HighReserved(0) == 0
  {
  }

  /** Splitting a leaf without reserved bits into a clean page changes the walk of no address at all. */
  lemma CleanSplitKeepsEveryWalk(hw: Hardware, mem: PhysicalMemory, levelOf: nat -> nat, pd: nat, j: nat, table: bv64,
                                 pool: seq<bv64>, eptp: bv64, gpa: bv64)
    requires Typed(mem, levelOf) && CanSplit(mem, levelOf, pd, j, table, pool)
    requires Target(eptp) in mem && levelOf(Target(eptp)) == 4
    requires !LeafReserved(2, mem[pd][j]) && CleanPool(pool)
    ensures Walk(hw, Split(mem, pd, j, table, pool), eptp, gpa) == Walk(hw, mem, eptp, gpa)
  {
    hide LeafFaults, LeafReserved, Garbage, Split, WalkFrom, Reads, CleanPool, Target, Typed, Rights;
    CleanPoolIsNoGarbage(pool, gpa);
    SplitWalk(hw, mem, levelOf, pd, j, table, pool, Target(eptp), 4, gpa, Rights(hw, 0x407));
  }

  /** A split repairs a leaf whose bit 12 is set by mistake: the processor faults on the leaf and not on the table. */
  lemma SplitDropsReservedBit(hw: Hardware, table: bv64)
    requires IsPageAddress(table)
    ensures LeafOutcome(hw, 2, 0x10B7, 0, 7) == Misconfigured
    ensures OutcomeBelow(hw, SplitPde(0x10B7, table), SplitPte(0x10B7, 0, 0), 0, 7) == Mapped(0, 7, 6, false)
  {
    hide SplitPte, SplitPde;
    SplitPteWord(0x10B7, 0, 0);
    SplitPdeWord(0x10B7, table);
    DropOutcome(hw, SplitPde(0x10B7, table), SplitPte(0x10B7, 0, 0), table);
  }

  lemma DropOutcome(hw: Hardware, pde: bv64, pte: bv64, table: bv64)
    requires IsPageAddress(table) && pde == (LeafFields(0x10B7) & 0x507) | Frame(table)
    requires pte == PteWord(LeafFields(0x10B7), 0, 0)
    ensures LeafOutcome(hw, 2, 0x10B7, 0, 7) == Misconfigured
    ensures OutcomeBelow(hw, pde, pte, 0, 7) == Mapped(0, 7, 6, false)
  {
    assert pte == 0x37;
    assert RightsBits(pde) == 7 && !TableReserved(pde);
    SameRights(hw, pde, 7);
  }
}
