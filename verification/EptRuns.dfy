/**
 Whole runs: the constructor of `Ept`, then any sequence of `split_page` requests on any slots, with repeats,
 failed allocations and any pool contents.
 */
module EptRuns {
  import opened EptEntries
  import opened EptWalk
  import opened EptSplit
  import opened EptIdentity

  /** The pool's answer to a table allocation: nothing, or a page with whatever it last held. */
  datatype Grant = Refused | Granted(table: bv64, pool: seq<bv64>)

  datatype Request = Request(i: nat, j: nat, grant: Grant)

  /** One call of `split_page`: it does nothing for a slot that is no longer large or when allocation fails. */
  ghost predicate Effective(l: Layout, mem: PhysicalMemory, r: Request)
    requires l.Valid() && r.i < ENTRY_COUNT
  {
    IsSlot(mem, l.Pd(r.i), r.j) && LargePage(mem[l.Pd(r.i)][r.j]) && r.grant.Granted? && |r.grant.pool| == ENTRY_COUNT
  }

  ghost function Step(l: Layout, mem: PhysicalMemory, r: Request): PhysicalMemory
    requires l.Valid() && r.i < ENTRY_COUNT
  {
    if Effective(l, mem, r) then Split(mem, l.Pd(r.i), r.j, r.grant.table, r.grant.pool) else mem
  }

  /** The request names a slot, and a granted page is a whole page that holds no paging table yet. */
  ghost predicate Admissible(l: Layout, mem: PhysicalMemory, r: Request)
    requires l.Valid()
  {
    && r.i < ENTRY_COUNT && r.j < ENTRY_COUNT
    && (r.grant.Granted? ==>
          |r.grant.pool| == ENTRY_COUNT && IsPageAddress(r.grant.table) && Target(r.grant.table) !in mem)
  }

  ghost predicate AdmissibleRun(l: Layout, mem: PhysicalMemory, run: seq<Request>)
    requires l.Valid()
    decreases |run|, 0
  {
    run == [] ||
    (var before := run[..|run| - 1];
     AdmissibleRun(l, mem, before) && Admissible(l, After(l, mem, before), run[|run| - 1]))
  }

  ghost function After(l: Layout, mem: PhysicalMemory, run: seq<Request>): PhysicalMemory
    requires l.Valid() && AdmissibleRun(l, mem, run)
    decreases |run|, 1
  {
    if run == [] then mem else Step(l, After(l, mem, run[..|run| - 1]), run[|run| - 1])
  }

  lemma RunStarts(l: Layout, mem: PhysicalMemory)
    requires l.Valid()
    ensures AdmissibleRun(l, mem, []) && After(l, mem, []) == mem
  {
  }

  lemma RunExtends(l: Layout, mem: PhysicalMemory, run: seq<Request>, r: Request)
    requires l.Valid() && AdmissibleRun(l, mem, run) && Admissible(l, After(l, mem, run), r)
    ensures AdmissibleRun(l, mem, run + [r])
    ensures After(l, mem, run + [r]) == Step(l, After(l, mem, run), r)
  {
    hide Step, Admissible;
    assert (run + [r])[..|run|] == run;
  }

  lemma StepIsCanSplit(l: Layout, mem: PhysicalMemory, r: Request)
    requires Skeleton(l, mem) && Admissible(l, mem, r) && Effective(l, mem, r)
    ensures CanSplit(mem, l.Levels(), l.Pd(r.i), r.j, r.grant.table, r.grant.pool)
  {
    hide LargePage, Target, TopIsSet, PdptIsSet, Typed, IsPageAddress;
    FreshPageLevel(l, mem, Target(r.grant.table));
    PdLevel(l, r.i);
  }

  lemma FreshPageLevel(l: Layout, mem: PhysicalMemory, base: nat)
    requires Skeleton(l, mem) && base !in mem
    ensures l.Levels()(base) == 1
  {
    forall i | 0 <= i < |l.pds| ensures Target(l.pds[i]) != base {
      assert l.Pd(i) in mem;
    }
  }

  lemma PdLevel(l: Layout, i: nat)
    requires l.Valid() && i < ENTRY_COUNT
    ensures l.Levels()(l.Pd(i)) == 2
  {
    hide Target, IsPageAddress;
    assert Target(l.pds[i]) == l.Pd(i);
  }

  lemma StepKeepsSkeleton(l: Layout, mem: PhysicalMemory, r: Request)
    requires Skeleton(l, mem) && Admissible(l, mem, r)
    ensures Skeleton(l, Step(l, mem, r))
  {
    hide LargePage, Target, TopIsSet, PdptIsSet, Typed, IsPageAddress, SplitPde, SplitTable;
    if Effective(l, mem, r) {
      StepIsCanSplit(l, mem, r);
      SplitKeepsTyping(mem, l.Levels(), l.Pd(r.i), r.j, r.grant.table, r.grant.pool);
    }
  }

  /** Which PDE every slot holds after a request. */
  lemma StepOnSlots(l: Layout, mem: PhysicalMemory, r: Request, i: nat, j: nat)
    requires Skeleton(l, mem) && Admissible(l, mem, r)
    requires i < ENTRY_COUNT && IsSlot(mem, l.Pd(i), j)
    ensures IsSlot(Step(l, mem, r), l.Pd(i), j)
    ensures Step(l, mem, r)[l.Pd(i)][j] ==
            if Effective(l, mem, r) && r.i == i && r.j == j then SplitPde(mem[l.Pd(i)][j], r.grant.table)
            else mem[l.Pd(i)][j]
  {
    hide LargePage, Target, TopIsSet, PdptIsSet, Typed, IsPageAddress, SplitPde, SplitTable;
  }

  /** Identity leaves: what every slot holds until it is split. */
  ghost predicate LeavesAreIdentity(l: Layout, mem: PhysicalMemory)
    requires Skeleton(l, mem)
  {
    forall i, j | 0 <= i < ENTRY_COUNT && 0 <= j < ENTRY_COUNT && IsSlot(mem, l.Pd(i), j) ::
      LargePage(mem[l.Pd(i)][j]) ==> mem[l.Pd(i)][j] == IdentityLeaf(i, j)
  }

  lemma {:induction false} RunKeepsSkeleton(l: Layout, mem: PhysicalMemory, run: seq<Request>)
    requires Skeleton(l, mem) && AdmissibleRun(l, mem, run)
    ensures Skeleton(l, After(l, mem, run))
    ensures LeavesAreIdentity(l, mem) ==> LeavesAreIdentity(l, After(l, mem, run))
    decreases |run|
  {
    if run != [] {
      hide Skeleton;
      var before, r := run[..|run| - 1], run[|run| - 1];
      RunKeepsSkeleton(l, mem, before);
      var mid := After(l, mem, before);
      StepKeepsSkeleton(l, mid, r);
      if LeavesAreIdentity(l, mid) {
        StepKeepsLeaves(l, mid, r);
      }
    }
  }

  lemma StepKeepsLeaves(l: Layout, mem: PhysicalMemory, r: Request)
    requires Skeleton(l, mem) && Admissible(l, mem, r) && LeavesAreIdentity(l, mem)
    requires Skeleton(l, Step(l, mem, r))
    ensures LeavesAreIdentity(l, Step(l, mem, r))
  {
    hide LargePage, Target, TopIsSet, PdptIsSet, Typed, IsPageAddress, SplitPde, IdentityLeaf, Effective, Step;
    var after := Step(l, mem, r);
    forall i, j | 0 <= i < ENTRY_COUNT && 0 <= j < ENTRY_COUNT && IsSlot(after, l.Pd(i), j) &&
                  LargePage(after[l.Pd(i)][j])
      ensures after[l.Pd(i)][j] == IdentityLeaf(i, j)
    {
      PdIsTable(l, mem, i);
      StepOnSlots(l, mem, r, i, j);
      if Effective(l, mem, r) && r.i == i && r.j == j {
        GrantedTableIsPage(l, mem, r);
        SplitMirrorsInPde(mem[l.Pd(i)][j], r.grant.table);
      }
    }
  }

  lemma GrantedTableIsPage(l: Layout, mem: PhysicalMemory, r: Request)
    requires l.Valid() && Admissible(l, mem, r) && Effective(l, mem, r)
    ensures r.grant.Granted? && IsPageAddress(r.grant.table)
  {
  }

  lemma PdIsTable(l: Layout, mem: PhysicalMemory, i: nat)
    requires Skeleton(l, mem) && i < ENTRY_COUNT
    ensures l.Pd(i) in mem && |mem[l.Pd(i)]| == ENTRY_COUNT
  {
    assert TypedTable(mem, l.Levels(), l.Pd(i));
  }

  predicate InSlot(gpa: bv64, i: nat, j: nat) {
    Index(gpa, 3) == i && Index(gpa, 2) == j
  }

  /** Some split of the run put left-over reserved bits of the pool into the entry for this address. */
  ghost predicate Broken(l: Layout, mem: PhysicalMemory, run: seq<Request>, gpa: bv64)
    requires l.Valid() && AdmissibleRun(l, mem, run)
    decreases |run|
  {
    run != [] &&
    var before, r := run[..|run| - 1], run[|run| - 1];
    Broken(l, mem, before, gpa) || Breaks(l, After(l, mem, before), r, gpa)
  }

  ghost predicate Breaks(l: Layout, mem: PhysicalMemory, r: Request, gpa: bv64)
    requires l.Valid() && r.i < ENTRY_COUNT
  {
    Effective(l, mem, r) && InSlot(gpa, r.i, r.j) && Garbage(r.grant.pool, gpa)
  }

  /** A walk that starts at a page directory reads one of its slots, and no slot of another directory. */
  lemma ReadsOneSlot(hw: Hardware, l: Layout, mem: PhysicalMemory, i: nat, gpa: bv64, i': nat, j: nat)
    requires Skeleton(l, mem) && i < ENTRY_COUNT && i' < ENTRY_COUNT
    ensures Reads(hw, mem, l.Pd(i), 2, gpa, l.Pd(i'), j) <==> i == i' && Index(gpa, 2) == j
  {
    hide LargePage, Target, TopIsSet, PdptIsSet, Typed, IsPageAddress, Reads, Descends, Index, IndexBits;
    PdIsTable(l, mem, i);
    PdLevel(l, i);
    PdLevel(l, i');
    DescentIsTyped(hw, mem, l.Levels(), l.Pd(i), 2, gpa);
    var w := mem[l.Pd(i)][Index(gpa, 2)];
    ReadsStep(hw, mem, l.Pd(i), 2, gpa, l.Pd(i'), j, w);
    if Descends(hw, 2, w) {
      DescentIsTyped(hw, mem, l.Levels(), Target(w), 1, gpa);
      ReadsStep(hw, mem, Target(w), 1, gpa, l.Pd(i'), j, mem[Target(w)][Index(gpa, 1)]);
      assert Target(w) != l.Pd(i');
    }
    PdsDiffer(l, i, i');
  }

  lemma PdsDiffer(l: Layout, i: nat, i': nat)
    requires l.Valid() && i < ENTRY_COUNT && i' < ENTRY_COUNT
    ensures l.Pd(i) == l.Pd(i') <==> i == i'
  {
  }

  /** One request, at an address: it matters only below its slot, and there only through garbage. */
  lemma StepWalk(hw: Hardware, l: Layout, mem: PhysicalMemory, r: Request, gpa: bv64)
    requires Skeleton(l, mem) && Admissible(l, mem, r) && LeavesAreIdentity(l, mem) && gpa < 0x80_0000_0000
    ensures Skeleton(l, Step(l, mem, r))
    ensures WalkFrom(hw, Step(l, mem, r), l.Pd(Index(gpa, 3)), 2, gpa, 7) ==
            if Breaks(l, mem, r, gpa) then Misconfigured else WalkFrom(hw, mem, l.Pd(Index(gpa, 3)), 2, gpa, 7)
  {
    hide LargePage, Target, TopIsSet, PdptIsSet, Typed, IsPageAddress, Reads, Index, IndexBits, WalkFrom, IdentityLeaf;
    hide SplitPde, SplitTable, SplitEffect, LeafFaults, LeafReserved, Garbage, Split;
    StepKeepsSkeleton(l, mem, r);
    if Effective(l, mem, r) {
      var base := l.Pd(Index(gpa, 3));
      StepIsCanSplit(l, mem, r);
      PdIsTable(l, mem, Index(gpa, 3));
      PdLevel(l, Index(gpa, 3));
      ReadsOneSlot(hw, l, mem, Index(gpa, 3), gpa, r.i, r.j);
      SplitWalk(hw, mem, l.Levels(), l.Pd(r.i), r.j, r.grant.table, r.grant.pool, base, 2, gpa, 7);
      if InSlot(gpa, r.i, r.j) {
        LargeLeafEndsWalk(hw, mem, base, gpa, 7);
        IdentityLeafIsClean(hw, gpa);
        EffectOnIdentity(hw, IdentityLeaf(r.i, r.j), Garbage(r.grant.pool, gpa), gpa,
                         WalkFrom(hw, Split(mem, l.Pd(r.i), r.j, r.grant.table, r.grant.pool), base, 2, gpa, 7));
      }
    }
  }

  lemma EffectOnIdentity(hw: Hardware, leaf: bv64, garbage: bool, gpa: bv64, after: Outcome)
    requires LeafOutcome(hw, 2, leaf, gpa, 7) == Identity(gpa)
    requires SplitEffect(hw, leaf, garbage, LeafOutcome(hw, 2, leaf, gpa, 7), after)
    ensures after == if garbage then Misconfigured else Identity(gpa)
  {
  }

  lemma IdentityLeafIsClean(hw: Hardware, gpa: bv64)
    requires gpa < 0x80_0000_0000
    ensures LeafOutcome(hw, 2, IdentityLeaf(Index(gpa, 3), Index(gpa, 2)), gpa, 7) == Identity(gpa)
  {
    hide LeafOutcome, LargeEntry, SlotPfn, Index, IndexBits;
    SlotPfnOfAddress(gpa);
    IdentityLeafOutcome(hw, gpa, SlotPfn(Index(gpa, 3), Index(gpa, 2)));
  }

  lemma SlotPfnOfAddress(gpa: bv64)
    ensures SlotPfn(Index(gpa, 3), Index(gpa, 2)) == PfnOfPair(IndexBits(gpa, 3), IndexBits(gpa, 2))
  {
    hide IndexBits, Index, PfnOfPair;
    IndexRoundTrip(gpa, 3);
    IndexRoundTrip(gpa, 2);
  }

  /** Once garbage has broken an address, its slot is no longer large, so no later request touches it. */
  lemma {:induction false} BrokenSlotIsSmall(l: Layout, mem: PhysicalMemory, run: seq<Request>, gpa: bv64)
    requires l.Valid() && Skeleton(l, mem) && AdmissibleRun(l, mem, run) && Broken(l, mem, run, gpa)
    ensures var after := After(l, mem, run);
            IsSlot(after, l.Pd(Index(gpa, 3)), Index(gpa, 2)) && !LargePage(after[l.Pd(Index(gpa, 3))][Index(gpa, 2)])
    decreases |run|
  {
    hide LargePage, Target, Index, IndexBits, Skeleton, SplitPde, IsPageAddress, Step;
    var before, r := run[..|run| - 1], run[|run| - 1];
    var mid := After(l, mem, before);
    RunKeepsSkeleton(l, mem, before);
    SkeletonSlot(l, mid, Index(gpa, 3), Index(gpa, 2));
    StepOnSlots(l, mid, r, Index(gpa, 3), Index(gpa, 2));
    if Breaks(l, mid, r, gpa) {
      GrantedTableIsPage(l, mid, r);
      SplitMirrorsInPde(mid[l.Pd(r.i)][r.j], r.grant.table);
    } else {
      BrokenSlotIsSmall(l, mem, before, gpa);
    }
  }

  lemma SkeletonSlot(l: Layout, mem: PhysicalMemory, i: nat, j: nat)
    requires Skeleton(l, mem) && i < ENTRY_COUNT && j < ENTRY_COUNT
    ensures l.Valid() && IsSlot(mem, l.Pd(i), j)
  {
    PdIsTable(l, mem, i);
  }

  /** After any run, below 2^39: the identity, except exactly where pool contents broke an entry. */
  lemma {:induction false} RunWalkBelow(hw: Hardware, l: Layout, mem: PhysicalMemory, run: seq<Request>, gpa: bv64)
    requires Initial(l, mem) && Skeleton(l, mem) && AdmissibleRun(l, mem, run) && gpa < 0x80_0000_0000
    ensures WalkFrom(hw, After(l, mem, run), l.Pd(Index(gpa, 3)), 2, gpa, 7) ==
            if Broken(l, mem, run, gpa) then Misconfigured else Identity(gpa)
    decreases |run|
  {
    hide LargePage, Target, Index, IndexBits, Skeleton, IsPageAddress, WalkFrom, Step, IdentityLeaf, LeafOutcome;
    if run == [] {
      SkeletonSlot(l, mem, Index(gpa, 3), Index(gpa, 2));
      IdentityLeafIsLarge(Index(gpa, 3), Index(gpa, 2));
      LargeLeafEndsWalk(hw, mem, l.Pd(Index(gpa, 3)), gpa, 7);
      IdentityLeafIsClean(hw, gpa);
    } else {
      var before, r := run[..|run| - 1], run[|run| - 1];
      RunWalkBelow(hw, l, mem, before, gpa);
      InitialLeaves(l, mem);
      RunKeepsSkeleton(l, mem, before);
      StepWalk(hw, l, After(l, mem, before), r, gpa);
    }
  }

  lemma InitialLeaves(l: Layout, mem: PhysicalMemory)
    requires Initial(l, mem) && Skeleton(l, mem)
    ensures LeavesAreIdentity(l, mem)
  {
  }

  /** The map of every run: identity below 2^39 wherever no garbage was left, and nothing from there up to 2^48. */
  lemma RunWalk(hw: Hardware, l: Layout, mem: PhysicalMemory, run: seq<Request>, gpa: bv64)
    requires Initial(l, mem) && AdmissibleRun(l, mem, run) && gpa < 0x1_0000_0000_0000
    ensures Walk(hw, After(l, mem, run), Eptp(l.pml4), gpa) ==
            if gpa >= 0x80_0000_0000 then Violation
            else if Broken(l, mem, run, gpa) then Misconfigured
            else Identity(gpa)
  {
    hide WalkFrom, Index, IndexBits, Skeleton, Eptp, Walk, Initial;
    InitialIsSkeleton(l, mem);
    RunKeepsSkeleton(l, mem, run);
    if gpa < 0x80_0000_0000 {
      WalkReachesPd(hw, l, After(l, mem, run), gpa);
      RunWalkBelow(hw, l, mem, run, gpa);
    } else {
      WalkAboveFaults(hw, l, After(l, mem, run), gpa);
    }
  }

  /** Every address below 2^39 is mapped to itself with all rights, write-back. */
  ghost predicate MapsIdentity(mem: PhysicalMemory, eptp: bv64) {
    forall hw: Hardware, gpa: bv64 :: gpa < 0x80_0000_0000 ==> Walk(hw, mem, eptp, gpa) == Identity(gpa)
  }

  /** So it is right after the set-up. */
  lemma InitialMapsIdentity(l: Layout, mem: PhysicalMemory)
    requires Initial(l, mem)
    ensures MapsIdentity(mem, Eptp(l.pml4))
  {
    hide Walk, Eptp, Initial;
    InitialLayout(l, mem);
    RunStarts(l, mem);
    forall hw: Hardware, gpa: bv64 | gpa < 0x80_0000_0000 ensures Walk(hw, mem, Eptp(l.pml4), gpa) == Identity(gpa) {
      RunWalk(hw, l, mem, [], gpa);
    }
  }

  lemma WalkAboveFaults(hw: Hardware, l: Layout, mem: PhysicalMemory, gpa: bv64)
    requires Skeleton(l, mem) && 0x80_0000_0000 <= gpa < 0x1_0000_0000_0000
    ensures Walk(hw, mem, Eptp(l.pml4), gpa) == Violation
  {
    hide WalkFrom, Index, IndexBits, Eptp, Target, Typed, Descends, EntryOutcome;
    EptpMeaning(l.pml4);
    LowAddress(gpa);
    WalkStep(hw, mem, Target(l.pml4), 4, gpa, Rights(hw, 0x407), 0);
    ZeroFaults(hw, gpa, Rights(hw, 0x407));
  }

  lemma ZeroFaults(hw: Hardware, gpa: bv64, rights: bv64)
    ensures !Descends(hw, 4, 0) && EntryOutcome(hw, 4, 0, gpa, rights) == Violation
  {
  }

  /** Every table that the run put to use came from the pool clean. */
  ghost predicate UsesCleanPools(l: Layout, mem: PhysicalMemory, run: seq<Request>)
    requires l.Valid() && AdmissibleRun(l, mem, run)
    decreases |run|
  {
    run == [] ||
    (var before, r := run[..|run| - 1], run[|run| - 1];
     UsesCleanPools(l, mem, before) && (Effective(l, After(l, mem, before), r) ==> CleanPool(r.grant.pool)))
  }

  /** An address below slot (`i`, `j`) in its `k`-th page. */
  lemma AddressOf(i: nat, j: nat, k: nat) returns (gpa: bv64)
    requires i < ENTRY_COUNT && j < ENTRY_COUNT && k < ENTRY_COUNT
    ensures gpa < 0x80_0000_0000 && InSlot(gpa, i, j) && Index(gpa, 1) == k
  {
    hide InSlot, Index, IndexBits;
    var a := WordOfIndex(i);
    var b := WordOfIndex(j);
    var c := WordOfIndex(k);
    gpa := (a << 30) | (b << 21) | (c << 12);
    ComposedAddress(a, b, c, gpa);
    IndicesOf(a, b, c, gpa);
  }

  lemma ComposedAddress(a: bv64, b: bv64, c: bv64, gpa: bv64)
    requires a < 512 && b < 512 && c < 512 && gpa == (a << 30) | (b << 21) | (c << 12)
    ensures gpa < 0x80_0000_0000
    ensures IndexBits(gpa, 3) == a && IndexBits(gpa, 2) == b && IndexBits(gpa, 1) == c
  {
  }

  lemma IndicesOf(a: bv64, b: bv64, c: bv64, gpa: bv64)
    requires IndexBits(gpa, 3) == a && IndexBits(gpa, 2) == b && IndexBits(gpa, 1) == c
    ensures InSlot(gpa, a as nat, b as nat) && Index(gpa, 1) == c as nat
  {
  }

  lemma {:induction false} CleanPoolsBreakNothing(l: Layout, mem: PhysicalMemory, run: seq<Request>, gpa: bv64)
    requires l.Valid() && AdmissibleRun(l, mem, run) && UsesCleanPools(l, mem, run)
    ensures !Broken(l, mem, run, gpa)
    decreases |run|
  {
    if run != [] {
      CleanPoolsBreakNothing(l, mem, run[..|run| - 1], gpa);
      if run[|run| - 1].grant.Granted? {
        CleanPoolIsNoGarbage(run[|run| - 1].grant.pool, gpa);
      }
    }
  }

  lemma {:induction false} DirtyPoolBreaksSomething(l: Layout, mem: PhysicalMemory, run: seq<Request>)
    returns (gpa: bv64)
    requires l.Valid() && AdmissibleRun(l, mem, run) && !UsesCleanPools(l, mem, run)
    ensures gpa < 0x80_0000_0000 && Broken(l, mem, run, gpa)
    decreases |run|
  {
    var before, r := run[..|run| - 1], run[|run| - 1];
    if !UsesCleanPools(l, mem, before) {
      gpa := DirtyPoolBreaksSomething(l, mem, before);
    } else {
      var k :| 1 <= k < ENTRY_COUNT && HighReserved(r.grant.pool[k]) != 0;
      gpa := AddressOf(r.i, r.j, k);
      assert Breaks(l, After(l, mem, before), r, gpa);
    }
  }

  /**
   The identity map survives a run at every address if and only if the pages that the run put to use came
   from the pool with the reserved bits of entries 1 to 511 clear: `split_page` zeroes only entry 0 itself.
   */
  lemma IdentitySurvivesIffPoolsClean(hw: Hardware, l: Layout, mem: PhysicalMemory, run: seq<Request>)
    requires Initial(l, mem) && AdmissibleRun(l, mem, run)
    ensures UsesCleanPools(l, mem, run) <==>
            forall gpa: bv64 :: gpa < 0x80_0000_0000 ==>
              Walk(hw, After(l, mem, run), Eptp(l.pml4), gpa) == Identity(gpa)
  {
    hide Walk, Eptp, Initial;
    InitialLayout(l, mem);
    if UsesCleanPools(l, mem, run) {
      forall gpa: bv64 | gpa < 0x80_0000_0000
        ensures Walk(hw, After(l, mem, run), Eptp(l.pml4), gpa) == Identity(gpa)
      {
        CleanPoolsBreakNothing(l, mem, run, gpa);
        RunWalk(hw, l, mem, run, gpa);
      }
    } else {
      var gpa := DirtyPoolBreaksSomething(l, mem, run);
      RunWalk(hw, l, mem, run, gpa);
      assert Walk(hw, After(l, mem, run), Eptp(l.pml4), gpa) != Identity(gpa);
    }
  }

  lemma InitialLayout(l: Layout, mem: PhysicalMemory)
    requires Initial(l, mem)
    ensures l.Valid()
  {
  }

  /** The least such run: one split of the first slot into a page left full of ones breaks the address 0x1000. */
  lemma DirtySplitExample(hw: Hardware, l: Layout, mem: PhysicalMemory, table: bv64)
    requires Initial(l, mem) && IsPageAddress(table) && Target(table) !in mem
    ensures var ones := seq(ENTRY_COUNT, _ => 0xFFFF_FFFF_FFFF_FFFF);
            var run := [Request(0, 0, Granted(table, ones))];
            l.Valid() && AdmissibleRun(l, mem, run) &&
            Walk(hw, After(l, mem, run), Eptp(l.pml4), 0x1000) == Misconfigured
  {
    hide Walk, Eptp, Index, LargePage, IdentityLeaf, Target, IsPageAddress;
    var ones := seq(ENTRY_COUNT, _ => 0xFFFF_FFFF_FFFF_FFFF);
    var r := Request(0, 0, Granted(table, ones));
    RunStarts(l, mem);
    RunExtends(l, mem, [], r);
    assert [] + [r] == [r];
    assert [r][..0] == [];
    IdentityLeafIsLarge(0, 0);
    ExampleAddress();
    RunWalk(hw, l, mem, [r], 0x1000);
  }

  lemma ExampleAddress()
    ensures InSlot(0x1000, 0, 0) && Index(0x1000, 1) == 1 && HighReserved(0xFFFF_FFFF_FFFF_FFFF) != 0
  {
  }
}
