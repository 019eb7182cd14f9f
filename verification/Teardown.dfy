/**
 `free_memory`: the destructors of a fully loaded context, processor by processor, over the pool that `Ept` uses.
 Releasing a block requires it to be in use, and so does following a pointer into it.
 */
module Teardown {
  import E = Ept

  /** The objects of one processor, by the blocks they occupy. */
  datatype Loaded = Loaded(
    vmxon: nat, setupVmcs: nat, eptBlock: nat, ept: E.Ept, vcpu: nat, vmxonRegion: nat, vmcsRegion: nat, msrBitmap: nat)
  {
    /** Objects, regions and the MSR bitmap. */
    function Fixed(): seq<nat> {
      [vmxon, setupVmcs, eptBlock, vcpu, vmxonRegion, vmcsRegion, msrBitmap]
    }

    ghost predicate IsLoaded()
      reads ept
    {
      && E.BlocksDiffer(ept.list)
      && (forall j, k :: 0 <= j < k < 7 ==> Fixed()[j] != Fixed()[k])
      && (forall j :: 0 <= j < 7 ==> Fixed()[j] !in E.Blocks(ept.list))
    }

    ghost function Owned(): set<nat>
      reads ept
    {
      {vmxon, setupVmcs, eptBlock, vcpu, vmxonRegion, vmcsRegion, msrBitmap} + E.Blocks(ept.list)
    }
  }

  /** A destructor or a caller follows a pointer into the block. */
  method Dereference(pool: E.Pool, a: nat)
    requires a in pool.live
    ensures a in pool.live
  {
  }

  /** `delete vmxon[i]`: the destructor reads the region's address from the virtual processor. */
  method DeleteVmxon(pool: E.Pool, p: Loaded)
    requires p.vcpu in pool.live && p.vmxonRegion in pool.live && p.vmxon in pool.live && p.vmxonRegion != p.vmxon
    modifies pool
    ensures pool.live == old(pool.live) - {p.vmxonRegion, p.vmxon}
  {
    Dereference(pool, p.vcpu);
    pool.Release(p.vmxonRegion);
    pool.Release(p.vmxon);
  }

  method DeleteSetupVmcs(pool: E.Pool, p: Loaded)
    requires p.vcpu in pool.live && p.vmcsRegion in pool.live && p.msrBitmap in pool.live && p.setupVmcs in pool.live
    requires p.vmcsRegion != p.msrBitmap && p.vmcsRegion != p.setupVmcs && p.msrBitmap != p.setupVmcs
    modifies pool
    ensures pool.live == old(pool.live) - {p.vmcsRegion, p.msrBitmap, p.setupVmcs}
  {
    Dereference(pool, p.vcpu);
    pool.Release(p.vmcsRegion);
    pool.Release(p.msrBitmap);
    pool.Release(p.setupVmcs);
  }

  method DeleteEpt(pool: E.Pool, p: Loaded)
    requires p.ept.pool == pool && E.BlocksDiffer(p.ept.list) && E.Blocks(p.ept.list) <= pool.live
    requires p.eptBlock in pool.live && p.eptBlock !in E.Blocks(p.ept.list)
    modifies pool, p.ept`list
    ensures pool.live == old(pool.live) - (old(E.Blocks(p.ept.list)) + {p.eptBlock})
  {
    p.ept.FreePteList();
    pool.Release(p.eptBlock);
  }

  /** One round of the loop of `free_memory`. */
  method FreeProcessor(pool: E.Pool, p: Loaded)
    requires p.IsLoaded() && p.ept.pool == pool && p.Owned() <= pool.live
    modifies pool, p.ept`list
    ensures pool.live == old(pool.live) - old(p.Owned())
  {
    hide E.BlocksDiffer, E.Blocks;
    assert p.vmxonRegion == p.Fixed()[4] && p.vmcsRegion == p.Fixed()[5] && p.msrBitmap == p.Fixed()[6];
    assert p.vmxon == p.Fixed()[0] && p.setupVmcs == p.Fixed()[1] && p.eptBlock == p.Fixed()[2] &&
           p.vcpu == p.Fixed()[3];
    DeleteVmxon(pool, p);
    DeleteSetupVmcs(pool, p);
    DeleteEpt(pool, p);
    pool.Release(p.vcpu);
  }

  function Union(sets: seq<set<nat>>): (u: set<nat>)
    ensures forall k :: 0 <= k < |sets| ==> sets[k] <= u
    decreases |sets|
  {
    if sets == [] then {} else Union(sets[..|sets| - 1]) + sets[|sets| - 1]
  }

  lemma UnionOfNone()
    ensures Union([]) == {}
  {
  }

  lemma UnionGrows(sets: seq<set<nat>>, i: nat)
    requires i < |sets|
    ensures Union(sets[..i + 1]) == Union(sets[..i]) + sets[i]
  {
    assert sets[..i + 1][..i] == sets[..i];
  }

  /** All processors are loaded, on one pool, and no block belongs to two of them or is the context's own. */
  ghost predicate FullyLoaded(pool: E.Pool, ps: seq<Loaded>, context: nat)
    reads pool, set k | 0 <= k < |ps| :: ps[k].ept
  {
    && context in pool.live
    && (forall k :: 0 <= k < |ps| ==>
          ps[k].ept.pool == pool && ps[k].IsLoaded() && ps[k].Owned() <= pool.live && context !in ps[k].Owned())
    && (forall j, k :: 0 <= j < k < |ps| ==> ps[j].ept != ps[k].ept && ps[j].Owned() !! ps[k].Owned())
  }

  /** Every block of every processor is released exactly once, each virtual processor after all that refers to it. */
  method FreeMemory(pool: E.Pool, ps: seq<Loaded>, context: nat, ghost owned: seq<set<nat>>)
    requires FullyLoaded(pool, ps, context)
    requires |owned| == |ps| && forall k :: 0 <= k < |ps| ==> owned[k] == ps[k].Owned()
    modifies pool, set k | 0 <= k < |ps| :: ps[k].ept
    ensures pool.live == old(pool.live) - Union(owned) - {context}
  {
    hide Loaded.IsLoaded, Union;
    assert owned[..0] == [];
    UnionOfNone();
    for i := 0 to |ps|
      invariant pool.live == old(pool.live) - Union(owned[..i])
      invariant context !in Union(owned[..i])
      invariant forall k :: i <= k < |ps| ==>
                ps[k].IsLoaded() && ps[k].Owned() == owned[k] && owned[k] !! Union(owned[..i])
    {
      Dereference(pool, context);
      UnionGrows(owned, i);
      FreeProcessor(pool, ps[i]);
    }
    assert owned[..|ps|] == owned;
    pool.Release(context);
  }
}
