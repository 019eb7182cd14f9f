/**
 Which pages the tables occupy and who owns them: the frames of all tables stay pairwise distinct, and the
 split tables are in bijection with the slots whose large-page bit is clear.
 */
module EptOwnership {
  import opened EptEntries
  import opened EptWalk
  import opened EptSplit
  import opened EptIdentity
  import opened EptRuns

  datatype Slot = Slot(i: nat, j: nat)

  /** The slot has been split and leads to this table. */
  ghost predicate LeadsTo(l: Layout, mem: PhysicalMemory, s: Slot, table: bv64)
    requires l.Valid()
  {
    && s.i < ENTRY_COUNT && IsSlot(mem, l.Pd(s.i), s.j)
    && !LargePage(mem[l.Pd(s.i)][s.j])
    && Target(mem[l.Pd(s.i)][s.j]) == Target(table)
  }

  /** `tables` are the split tables, in the order of the list, and `slots` the slots they belong to. */
  ghost predicate Separated(l: Layout, mem: PhysicalMemory, tables: seq<bv64>, slots: seq<Slot>)
    requires l.Valid()
  {
    FramesDiffer(l, mem, tables) && SlotsMatch(l, mem, tables, slots)
  }

  ghost predicate FramesDiffer(l: Layout, mem: PhysicalMemory, tables: seq<bv64>) {
    && (forall b :: b in mem ==> l.IsEmbedded(b) || IsTableOf(tables, b))
    && (forall k :: 0 <= k < |tables| ==> Target(tables[k]) in mem && !l.IsEmbedded(Target(tables[k])))
    && (forall k, m :: 0 <= k < m < |tables| ==> Target(tables[k]) != Target(tables[m]))
  }

  ghost predicate SlotsMatch(l: Layout, mem: PhysicalMemory, tables: seq<bv64>, slots: seq<Slot>)
    requires l.Valid()
  {
    && |tables| == |slots|
    && (forall k, m :: 0 <= k < m < |slots| ==> slots[k] != slots[m])
    && (forall k :: 0 <= k < |slots| ==> LeadsTo(l, mem, slots[k], tables[k]))
    && (forall i: nat, j: nat :: i < ENTRY_COUNT && IsSlot(mem, l.Pd(i), j) && !LargePage(mem[l.Pd(i)][j]) ==>
          Slot(i, j) in slots)
  }

  ghost predicate IsTableOf(tables: seq<bv64>, b: nat) {
    exists k :: 0 <= k < |tables| && Target(tables[k]) == b
  }

  lemma InitialIsSeparated(l: Layout, mem: PhysicalMemory)
    requires Initial(l, mem)
    ensures Separated(l, mem, [], [])
  {
    hide LargePage, IdentityLeaf, Target;
    forall i: nat, j: nat | i < ENTRY_COUNT && IsSlot(mem, l.Pd(i), j) ensures LargePage(mem[l.Pd(i)][j]) {
      IdentityLeafIsLarge(i, j);
    }
  }

  /** A split adds one table and one slot; every other table keeps its frame and its slot. */
  lemma SplitKeepsSeparation(l: Layout, mem: PhysicalMemory, r: Request, tables: seq<bv64>, slots: seq<Slot>)
    requires l.Valid() && Skeleton(l, mem) && Separated(l, mem, tables, slots) && Admissible(l, mem, r)
    requires Effective(l, mem, r)
    ensures Separated(l, Step(l, mem, r), tables + [r.grant.table], slots + [Slot(r.i, r.j)])
  {
    hide SlotsMatch, Skeleton, Step, Target, LargePage, IsPageAddress;
    FreshPageIsOutside(l, mem, Target(r.grant.table));
    StepKeys(l, mem, r, tables);
    SplitKeepsSlots(l, mem, r, tables, slots);
  }

  lemma SplitKeepsSlots(l: Layout, mem: PhysicalMemory, r: Request, tables: seq<bv64>, slots: seq<Slot>)
    requires l.Valid() && Skeleton(l, mem) && SlotsMatch(l, mem, tables, slots) && Admissible(l, mem, r)
    requires Effective(l, mem, r)
    ensures SlotsMatch(l, Step(l, mem, r), tables + [r.grant.table], slots + [Slot(r.i, r.j)])
  {
    hide LargePage, Target, SplitPde, Skeleton, IsPageAddress, Step;
    var after, tables', slots' := Step(l, mem, r), tables + [r.grant.table], slots + [Slot(r.i, r.j)];
    OtherSlotsStay(l, mem, r, tables, slots);
    NewSlotLeadsToTable(l, mem, r);
    forall i: nat, j: nat | i < ENTRY_COUNT && IsSlot(after, l.Pd(i), j) && !LargePage(after[l.Pd(i)][j])
      ensures Slot(i, j) in slots'
    {
      SkeletonSlot(l, mem, i, 0);
      StepOnSlots(l, mem, r, i, j);
      assert slots'[|slots|] == Slot(r.i, r.j);
    }
  }

  lemma OtherSlotsStay(l: Layout, mem: PhysicalMemory, r: Request, tables: seq<bv64>, slots: seq<Slot>)
    requires l.Valid() && |tables| == |slots| && (forall k :: 0 <= k < |slots| ==> LeadsTo(l, mem, slots[k], tables[k]))
    requires Skeleton(l, mem) && Admissible(l, mem, r) && Effective(l, mem, r)
    ensures forall k :: 0 <= k < |slots| ==>
            LeadsTo(l, Step(l, mem, r), slots[k], tables[k]) && slots[k] != Slot(r.i, r.j)
  {
    hide LargePage, Target, SplitPde, Skeleton, IsPageAddress, Step;
    forall k | 0 <= k < |slots| ensures LeadsTo(l, Step(l, mem, r), slots[k], tables[k]) && slots[k] != Slot(r.i, r.j) {
      assert LeadsTo(l, mem, slots[k], tables[k]);
      StepOnSlots(l, mem, r, slots[k].i, slots[k].j);
    }
  }

  lemma NewSlotLeadsToTable(l: Layout, mem: PhysicalMemory, r: Request)
    requires Skeleton(l, mem) && Admissible(l, mem, r) && Effective(l, mem, r)
    ensures l.Valid() && LeadsTo(l, Step(l, mem, r), Slot(r.i, r.j), r.grant.table)
  {
    hide LargePage, Target, SplitPde, IsPageAddress, Step;
    StepOnSlots(l, mem, r, r.i, r.j);
    GrantedTableIsPage(l, mem, r);
    SplitMirrorsInPde(mem[l.Pd(r.i)][r.j], r.grant.table);
  }

  lemma FreshPageIsOutside(l: Layout, mem: PhysicalMemory, base: nat)
    requires Skeleton(l, mem) && base !in mem
    ensures !l.IsEmbedded(base)
  {
    FreshPageLevel(l, mem, base);
  }

  lemma StepKeys(l: Layout, mem: PhysicalMemory, r: Request, tables: seq<bv64>)
    requires l.Valid() && r.i < ENTRY_COUNT && Effective(l, mem, r)
    requires forall b :: b in mem ==> l.IsEmbedded(b) || IsTableOf(tables, b)
    requires forall k :: 0 <= k < |tables| ==> Target(tables[k]) in mem
    ensures var after, tables' := Step(l, mem, r), tables + [r.grant.table];
            && (forall b :: b in after ==> l.IsEmbedded(b) || IsTableOf(tables', b))
            && (forall k :: 0 <= k < |tables'| ==> Target(tables'[k]) in after)
  {
    hide Target, LargePage, SplitPde, SplitTable;
    var after, tables' := Step(l, mem, r), tables + [r.grant.table];
    forall b | b in after && !l.IsEmbedded(b) ensures IsTableOf(tables', b) {
      if b == Target(r.grant.table) {
        assert tables'[|tables|] == r.grant.table;
      } else {
        var k :| 0 <= k < |tables| && Target(tables[k]) == b;
        assert tables'[k] == tables[k];
      }
    }
  }
}
