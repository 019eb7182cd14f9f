/**
 Loading the hypervisor on one processor: VMX is enabled, the VMCS is set up, the context is captured, and the code
 behind the capture runs twice, once in the host and once in the guest that it launches.
 */
module Load {
  import opened Machine
  import opened Vmx
  import opened VirtualCpu
  import opened WorldSwitch
  import opened ExitHandler
  import opened RoundTrip
  import opened Life
  import Controls
  import EptIdentity
  import EptWalk
  import EptRuns
  import VcpuLayout
  import E = Ept

  /** The processor and its firmware make VMXON possible at all. */
  predicate Supports(s: VmxState) {
    && !(Controls.Locked(s.featureControl) && !Controls.OutsideSmx(s.featureControl))
    && Controls.Within(s.fixed.cr0Fixed0, s.fixed.cr0Fixed1) && Controls.Within(s.fixed.cr4Fixed0, s.fixed.cr4Fixed1)
    && Controls.Within(Controls.VMXE, s.fixed.cr4Fixed1)
  }

  /** The registers after `enable_vmx`. */
  function Enabled(s: VmxState): VmxState {
    s.(featureControl := Controls.FeatureControl(s.featureControl),
       cr0 := Controls.Clamp(s.cr0, s.fixed.cr0Fixed0, s.fixed.cr0Fixed1),
       cr4 := Controls.Clamp(Controls.WithVmxe(s.cr4), s.fixed.cr4Fixed0, s.fixed.cr4Fixed1))
  }

  /** Whatever they held before, VMXON is possible with them if and only if the processor supports it. */
  lemma EnabledIffSupported(s: VmxState)
    ensures VmxonPossible(Enabled(s)) <==> Supports(s)
  {
    hide Controls.WithVmxe, Controls.Clamp, Controls.Legal, Controls.Within, Controls.PermitsVmxon;
    hide Controls.FeatureControl, Controls.Locked, Controls.OutsideSmx;
    Controls.VmxonPermittedIff(s.featureControl);
    Controls.ClampIsLegal(s.cr0, s.fixed.cr0Fixed0, s.fixed.cr0Fixed1);
    Controls.ClampIsLegal(Controls.WithVmxe(s.cr4), s.fixed.cr4Fixed0, s.fixed.cr4Fixed1);
    Controls.VmxeIsAsked(s.cr4);
    Controls.RequestedBitSurvives(Controls.WithVmxe(s.cr4), s.fixed.cr4Fixed0, s.fixed.cr4Fixed1, Controls.VMXE);
  }

  /** Its writes: the feature-control MSR only if that is not locked, CR4 with VMXE set, then both registers clamped. */
  function EnableTrace(s: VmxState): seq<Event> {
    FeatureControlTrace(s.featureControl) + RegisterTrace(s)
  }

  function FeatureControlTrace(msr: bv64): seq<Event> {
    if Controls.Locked(msr) then [] else [WriteFeatureControl(Controls.FeatureControl(msr))]
  }

  function RegisterTrace(s: VmxState): seq<Event> {
    [WriteCr4(Controls.WithVmxe(s.cr4)), WriteCr0(Enabled(s).cr0), WriteCr4(Enabled(s).cr4)]
  }

  /** `set_feature_control`. */
  method SetFeatureControl(p: Processor)
    requires p.Sound()
    modifies p`vmx, p`trace
    ensures p.Sound() && p.vmx == old(p.vmx).(featureControl := p.vmx.featureControl)
    ensures Controls.PermitsVmxon(p.vmx.featureControl) <==>
            !(Controls.Locked(old(p.vmx.featureControl)) && !Controls.OutsideSmx(old(p.vmx.featureControl)))
    ensures p.vmx.featureControl == Controls.FeatureControl(old(p.vmx.featureControl))
    ensures Controls.IsLockedAndEnabled(old(p.vmx.featureControl), p.vmx.featureControl)
    ensures p.trace == old(p.trace) + FeatureControlTrace(old(p.vmx.featureControl))
  {
    hide Legal, After;
    var msr := Controls.SetFeatureControl(p.vmx.featureControl);
    Controls.VmxonPermittedIff(p.vmx.featureControl);
    if !Controls.Locked(p.vmx.featureControl) {
      p.Issue(WriteFeatureControl(msr));
    }
  }

  /** CR0, and CR4 with VMXE (bit 13) asked for, as near to what they were as the FIXED MSRs allow. */
  ghost predicate RegistersAreFixed(s: VmxState, cr0: bv64, cr4: bv64) {
    var f := s.fixed;
    && Controls.Nearest(cr0, s.cr0, Controls.Reconciled(f.cr0Fixed0, f.cr0Fixed1), f.cr0Fixed1)
    && Controls.Nearest(cr4, Controls.WithVmxe(s.cr4), Controls.Reconciled(f.cr4Fixed0, f.cr4Fixed1), f.cr4Fixed1)
    && (Controls.Bit(cr4, 13) <==> Controls.Bit(f.cr4Fixed1, 13))
  }

  lemma EnabledIsFixed(s: VmxState)
    ensures RegistersAreFixed(s, Enabled(s).cr0, Enabled(s).cr4)
  {
    hide Controls.WithVmxe, Controls.Clamp, Controls.Within, Controls.Nearest, Controls.Reconciled, Controls.Bit;
    var f := s.fixed;
    Controls.ClampIsTheNearest(s.cr0, f.cr0Fixed0, f.cr0Fixed1, Enabled(s).cr0);
    Controls.ClampIsTheNearest(Controls.WithVmxe(s.cr4), f.cr4Fixed0, f.cr4Fixed1, Enabled(s).cr4);
    Controls.VmxeIsAsked(s.cr4);
    Controls.RequestedBitSurvives(Controls.WithVmxe(s.cr4), f.cr4Fixed0, f.cr4Fixed1, Controls.VMXE);
    Controls.VmxeIsBit13(Enabled(s).cr4);
    Controls.VmxeIsBit13(f.cr4Fixed1);
  }

  /** `adjust_control_registers`: sets CR4.VMXE, then clamps both registers to the four FIXED MSRs. */
  method AdjustControlRegisters(p: Processor)
    requires p.Sound() && !p.vmx.on
    modifies p`vmx, p`trace
    ensures p.Sound() && p.vmx == old(p.vmx).(cr0 := Enabled(old(p.vmx)).cr0, cr4 := Enabled(old(p.vmx)).cr4)
    ensures RegistersAreFixed(old(p.vmx), p.vmx.cr0, p.vmx.cr4)
    ensures p.trace == old(p.trace) + RegisterTrace(old(p.vmx))
  {
    hide Legal, After, Controls.WithVmxe, Controls.Clamp, RegistersAreFixed, VmxonPossible, Fixed.AllowsCr0;
    hide Fixed.AllowsCr4;
    var f := p.vmx.fixed;
    EnabledIsFixed(p.vmx);
    ThreeMore(p.trace, RegisterTrace(p.vmx));
    p.Issue(WriteCr4(Controls.WithVmxe(p.vmx.cr4)));
    var cr0 := Controls.OrThenAnd(p.vmx.cr0, f.cr0Fixed0, f.cr0Fixed1);
    p.Issue(WriteCr0(cr0));
    var cr4 := Controls.OrThenAnd(p.vmx.cr4, f.cr4Fixed0, f.cr4Fixed1);
    p.Issue(WriteCr4(cr4));
  }

  lemma ThreeMore(t: seq<Event>, es: seq<Event>)
    requires |es| == 3
    ensures t + [es[0]] + [es[1]] + [es[2]] == t + es
  {
  }

  /** `enable_vmx`: afterwards VMXON is possible if and only if the processor and its firmware support it. */
  method EnableVmx(p: Processor)
    requires p.Sound() && !p.vmx.on
    modifies p`vmx, p`trace
    ensures p.Sound() && p.vmx == Enabled(old(p.vmx))
    ensures VmxonPossible(p.vmx) <==> Supports(old(p.vmx))
    ensures p.trace == old(p.trace) + EnableTrace(old(p.vmx))
  {
    hide Legal, After, Controls.WithVmxe, Controls.Clamp, RegistersAreFixed, VmxonPossible, Supports;
    hide FeatureControlTrace;
    EnabledIffSupported(p.vmx);
    SetFeatureControl(p);
    AdjustControlRegisters(p);
  }

  function SetupTrace(s: VmxState, vmxonRegion: nat, region: nat, writes: nat): seq<Event> {
    EnableTrace(s) + ([Vmxon(vmxonRegion)] + LoadTrace(region, writes))
  }

  function LoadTrace(region: nat, writes: nat): seq<Event> {
    [Vmclear(region)] + ([Vmptrld(region)] + Writes(writes))
  }

  lemma SetupTraceParts(t: seq<Event>, s: VmxState, vmxonRegion: nat, region: nat, writes: nat)
    ensures t + [Vmclear(region)] + [Vmptrld(region)] + Writes(writes) == t + LoadTrace(region, writes)
    ensures t + EnableTrace(s) + [Vmxon(vmxonRegion)] + LoadTrace(region, writes) ==
            t + SetupTrace(s, vmxonRegion, region, writes)
  {
    hide EnableTrace, Writes;
  }

  /** A VMCS has been set up and not yet launched. */
  predicate ReadyToLaunch(s: VmxState, region: nat) {
    HasCurrent(s) && s.current == Vmcs(region) && region != s.vmxonRegion && s.regions[region] == Clear
  }

  lemma EnablingIsLegal(s: VmxState)
    requires !s.on
    ensures Legal(s, EnableTrace(s)) && After(s, EnableTrace(s)) == Enabled(s)
  {
    hide Controls.WithVmxe, Controls.Clamp, Controls.Locked, VmxonPossible;
    var msr := s.(featureControl := Controls.FeatureControl(s.featureControl));
    RegistersAreWritten(msr);
    assert RegisterTrace(msr) == RegisterTrace(s);
    if Controls.Locked(s.featureControl) {
      assert EnableTrace(s) == RegisterTrace(s);
    } else {
      Unroll(s, WriteFeatureControl(msr.featureControl), RegisterTrace(s));
    }
  }

  lemma RegistersAreWritten(s: VmxState)
    requires !s.on
    ensures Legal(s, RegisterTrace(s)) && After(s, RegisterTrace(s)) == s.(cr0 := Enabled(s).cr0, cr4 := Enabled(s).cr4)
  {
    hide Controls.WithVmxe, Controls.Clamp, VmxonPossible;
    var first := Next(s, WriteCr4(Controls.WithVmxe(s.cr4)));
    var second := Next(first, WriteCr0(Enabled(s).cr0));
    assert RegisterTrace(s) ==
           [WriteCr4(Controls.WithVmxe(s.cr4))] + ([WriteCr0(Enabled(s).cr0)] + ([WriteCr4(Enabled(s).cr4)] + []));
    Unroll(second, WriteCr4(Enabled(s).cr4), []);
    Unroll(first, WriteCr0(Enabled(s).cr0), [WriteCr4(Enabled(s).cr4)] + []);
    Unroll(s, WriteCr4(Controls.WithVmxe(s.cr4)), [WriteCr0(Enabled(s).cr0)] + ([WriteCr4(Enabled(s).cr4)] + []));
  }

  /** The set-up is legal if and only if the processor and its firmware support VMX; then the VMCS is ready. */
  lemma SetupIsLegal(s: VmxState, vmxonRegion: nat, region: nat, writes: nat)
    requires !s.on && region != vmxonRegion
    ensures Legal(s, SetupTrace(s, vmxonRegion, region, writes)) <==> Supports(s)
    ensures Supports(s) ==> ReadyToLaunch(After(s, SetupTrace(s, vmxonRegion, region, writes)), region)
  {
    hide VmxonPossible, Supports, Enabled, EnableTrace, Legal, After;
    var enabled := Enabled(s);
    var rest := [Vmclear(region)] + ([Vmptrld(region)] + Writes(writes));
    EnablingIsLegal(s);
    EnabledIffSupported(s);
    EnabledIsOff(s);
    Compose(s, EnableTrace(s), [Vmxon(vmxonRegion)] + rest);
    Unroll(enabled, Vmxon(vmxonRegion), rest);
    LoadingIsLegal(Next(enabled, Vmxon(vmxonRegion)), region, writes);
  }

  lemma EnabledIsOff(s: VmxState)
    ensures Enabled(s).on == s.on
  {
  }

  lemma LoadingIsLegal(s: VmxState, region: nat, writes: nat)
    requires InRoot(s) && region != s.vmxonRegion
    ensures var t := [Vmclear(region)] + ([Vmptrld(region)] + Writes(writes));
            Legal(s, t) && ReadyToLaunch(After(s, t), region)
  {
    hide VmxonPossible;
    var cleared := Next(s, Vmclear(region));
    var loaded := Next(cleared, Vmptrld(region));
    WritesAreLegal(loaded, writes);
    Unroll(cleared, Vmptrld(region), Writes(writes));
    Unroll(s, Vmclear(region), [Vmptrld(region)] + Writes(writes));
  }

  /** What `setup_vmcs_fields` stores where host and guest go on, what the guest may do, and where its tables are. */
  datatype Plan = Plan(code: Code, vcpu: nat, words: WordField -> bv64)

  /** The VMWRITEs in their order; the first of the host's is number 48. */
  const FIRST_HOST_WRITE := 48

  function NumberOf(f: WordField): (i: nat)
    ensures 68 <= i < FIELD_COUNT
  {
    match f
    case PinControls => 68
    case ProcControls => 69
    case Proc2Controls => 70
    case EntryControls => 71
    case ExitControls => 72
    case EptPointer => 74
  }

  function FieldAt(plan: Plan, i: nat): FieldWrite
    requires plan.vcpu + STACK_SIZE < MODULUS
  {
    if i == 5 then GuestRip(plan.code.enterGuest)
    else if i == 6 then GuestRsp(plan.vcpu + STACK_SIZE - 8)
    else if i == 51 then HostRip(plan.code.vmExitHandler)
    else if i == 52 then HostRsp(plan.vcpu + STACK_SIZE - 8)
    else if i == 68 then WordOf(PinControls, plan.words(PinControls))
    else if i == 69 then WordOf(ProcControls, plan.words(ProcControls))
    else if i == 70 then WordOf(Proc2Controls, plan.words(Proc2Controls))
    else if i == 71 then WordOf(EntryControls, plan.words(EntryControls))
    else if i == 72 then WordOf(ExitControls, plan.words(ExitControls))
    else if i == 74 then WordOf(EptPointer, plan.words(EptPointer))
    else Other
  }

  /** The VMCS after the first `n` VMWRITEs, of which those fail that `fails` says. */
  function Filled(v: VmcsFields, plan: Plan, fails: nat -> bool, n: nat): VmcsFields
    requires plan.vcpu + STACK_SIZE < MODULUS
  {
    if n == 0 then v
    else
      var before := Filled(v, plan, fails, n - 1);
      if fails(n - 1) then before else Store(before, FieldAt(plan, n - 1))
  }

  /** Each field holds what was planned as soon as its own VMWRITE has succeeded, and what it held before otherwise. */
  lemma StoredWhere(v: VmcsFields, plan: Plan, i: nat)
    requires plan.vcpu + STACK_SIZE < MODULUS
    ensures var w := Store(v, FieldAt(plan, i));
            && w.guestRip == (if i == 5 then plan.code.enterGuest else v.guestRip)
            && w.guestRsp == (if i == 6 then plan.vcpu + HOST_RSP_OFFSET else v.guestRsp)
            && w.hostRip == (if i == 51 then plan.code.vmExitHandler else v.hostRip)
            && w.hostRsp == (if i == 52 then plan.vcpu + HOST_RSP_OFFSET else v.hostRsp)
  {
  }

  lemma {:induction false} FilledWhere(v: VmcsFields, plan: Plan, fails: nat -> bool, n: nat)
    requires plan.vcpu + STACK_SIZE < MODULUS
    ensures var w := Filled(v, plan, fails, n);
            && w.guestRip == (if n > 5 && !fails(5) then plan.code.enterGuest else v.guestRip)
            && w.guestRsp == (if n > 6 && !fails(6) then plan.vcpu + HOST_RSP_OFFSET else v.guestRsp)
            && w.hostRip == (if n > 51 && !fails(51) then plan.code.vmExitHandler else v.hostRip)
            && w.hostRsp == (if n > 52 && !fails(52) then plan.vcpu + HOST_RSP_OFFSET else v.hostRsp)
  {
    hide FieldAt, Store;
    if n > 0 {
      FilledWhere(v, plan, fails, n - 1);
      StoredWhere(Filled(v, plan, fails, n - 1), plan, n - 1);
    }
  }

  lemma StoredWord(v: VmcsFields, plan: Plan, i: nat, f: WordField)
    requires plan.vcpu + STACK_SIZE < MODULUS
    ensures Store(v, FieldAt(plan, i)).words(f) == if i == NumberOf(f) then plan.words(f) else v.words(f)
  {
  }

  lemma {:induction false} FilledWord(v: VmcsFields, plan: Plan, fails: nat -> bool, n: nat, f: WordField)
    requires plan.vcpu + STACK_SIZE < MODULUS
    ensures Filled(v, plan, fails, n).words(f) ==
            if n > NumberOf(f) && !fails(NumberOf(f)) then plan.words(f) else v.words(f)
  {
    hide FieldAt, Store, NumberOf;
    if n > 0 {
      FilledWord(v, plan, fails, n - 1, f);
      StoredWord(Filled(v, plan, fails, n - 1), plan, n - 1, f);
    }
  }

  /** How many of the first `n` succeed. */
  function Made(fails: nat -> bool, n: nat): nat {
    if n == 0 then 0 else Made(fails, n - 1) + if fails(n - 1) then 0 else 1
  }

  /** No VMWRITE from number `from` up to number `n` fails. */
  predicate NoneFails(fails: nat -> bool, from: nat, n: nat) {
    forall i :: from <= i < n ==> !fails(i)
  }

  lemma {:induction false} WritesSnoc(n: nat)
    ensures Writes(n + 1) == Writes(n) + [Vmwrite]
  {
    if n > 0 {
      WritesSnoc(n - 1);
    }
  }

  /**
   The VMWRITEs and `success_`.  The first host write assigns to it what the others and to it, so what the 48 guest
   writes before it report is lost.
   */
  method WriteFields(p: Processor, plan: Plan, fails: nat -> bool) returns (success: bool)
    requires plan.vcpu + STACK_SIZE < MODULUS && p.Sound() && HasCurrent(p.vmx)
    modifies p`vmx, p`trace, p`vmcs
    ensures p.Sound() && p.vmx == old(p.vmx) && p.vmcs == Filled(old(p.vmcs), plan, fails, 77)
    ensures p.trace == old(p.trace) + Writes(Made(fails, 77))
    ensures success <==> NoneFails(fails, 48, 77)
  {
    hide Legal, After, FieldAt, Store, HasCurrent;
    success := true;
    for i := 0 to FIELD_COUNT
      invariant p.Sound() && p.vmx == old(p.vmx) && p.vmcs == Filled(old(p.vmcs), plan, fails, i)
      invariant p.trace == old(p.trace) + Writes(Made(fails, i))
      invariant i > FIRST_HOST_WRITE ==> (success <==> NoneFails(fails, FIRST_HOST_WRITE, i))
    {
      WritesSnoc(Made(fails, i));
      if !fails(i) {
        p.WriteField(FieldAt(plan, i));
      }
      success := (i == FIRST_HOST_WRITE || success) && !fails(i);
    }
  }

  /** When the VMWRITE of guest RIP fails and no other, success is reported and guest RIP keeps what it held. */
  lemma FailureIsLost(v: VmcsFields, plan: Plan)
    requires plan.vcpu + STACK_SIZE < MODULUS
    ensures var fails := (i: nat) => i == 5;
            NoneFails(fails, FIRST_HOST_WRITE, FIELD_COUNT) &&
            Filled(v, plan, fails, FIELD_COUNT).guestRip == v.guestRip
  {
    hide Filled;
    var fails := (i: nat) => i == 5;
    FilledWhere(v, plan, fails, FIELD_COUNT);
  }

  /**
   How the allocations and the VMX instructions of the load turn out, what the processor's capabilities are, and
   which VMWRITEs fail.  A missing MSR bitmap counts as a failure of its VMWRITE.
   */
  datatype Environment = Environment(
    vcpuAllocated: bool, vmxonAllocated: bool, setupAllocated: bool, vmxonHasAddress: bool, vmxonFails: bool,
    vmcsHasAddress: bool, vmclearFails: bool, vmptrldFails: bool, writeFails: nat -> bool, launchFails: bool,
    capabilities: Controls.Capabilities)
  {
    predicate SetupSucceeds() {
      && vcpuAllocated && vmxonAllocated && setupAllocated && vmxonHasAddress && !vmxonFails
      && vmcsHasAddress && !vmclearFails && !vmptrldFails && NoneFails(writeFails, FIRST_HOST_WRITE, FIELD_COUNT)
    }

    /** VMXON is tried and succeeds, whatever comes after it. */
    predicate VmxonSucceeds() {
      vcpuAllocated && vmxonAllocated && setupAllocated && vmxonHasAddress && !vmxonFails
    }

    /** The VMWRITEs of guest RIP and RSP, whose failure would go unnoticed. */
    predicate EntryIsWritten() {
      !writeFails(5) && !writeFails(6)
    }
  }

  /** The virtual processor, which pages are resident and where, the VMXON region, and the assembly routines. */
  datatype Site = Site(vcpu: nat, mmu: nat -> bv64, pages: set<nat>, vmxonRegion: nat, code: Code) {
    ghost predicate IsSound() {
      && vcpu + STACK_SIZE < MODULUS && VcpuLayout.PageAligned(vcpu)
      && VcpuLayout.Translates(mmu, pages) && VcpuLayout.IsResident(vcpu, pages)
    }

    /** The physical address of the root table. */
    function Root(): bv64 {
      mmu(VcpuLayout.Pml4At(vcpu))
    }
  }

  predicate GuestIsSet(v: VmcsFields, vcpu: nat, code: Code) {
    v.guestRip == code.enterGuest && v.guestRsp == vcpu + HOST_RSP_OFFSET
  }

  function ControlsOf(v: VmcsFields): Controls.ControlWords {
    Controls.ControlWords(
      v.words(PinControls), v.words(ProcControls), v.words(Proc2Controls), v.words(EntryControls),
      v.words(ExitControls))
  }

  /** What a successful set-up leaves in the VMCS, whether or not the guest's fields were written. */
  ghost predicate VmcsIsSet(v: VmcsFields, site: Site, env: Environment) {
    && HostIsSet(v, site.vcpu, site.code)
    && Controls.ControlsAreSet(ControlsOf(v), env.capabilities)
    && v.words(EptPointer) == EptIdentity.Eptp(site.Root())
    && (env.EntryIsWritten() ==> GuestIsSet(v, site.vcpu, site.code))
  }

  function PlanOf(site: Site, w: Controls.ControlWords): Plan {
    Plan(site.code, site.vcpu, (f: WordField) =>
      match f
      case PinControls => w.pin
      case ProcControls => w.proc
      case Proc2Controls => w.proc2
      case EntryControls => w.entry
      case ExitControls => w.exit
      case EptPointer => EptIdentity.Eptp(site.Root()))
  }

  lemma AllWordsFilled(v: VmcsFields, plan: Plan, fails: nat -> bool)
    requires plan.vcpu + STACK_SIZE < MODULUS && NoneFails(fails, FIRST_HOST_WRITE, FIELD_COUNT)
    ensures forall f: WordField :: Filled(v, plan, fails, FIELD_COUNT).words(f) == plan.words(f)
  {
    hide Filled, NumberOf;
    forall f: WordField ensures Filled(v, plan, fails, FIELD_COUNT).words(f) == plan.words(f) {
      FilledWord(v, plan, fails, FIELD_COUNT, f);
    }
  }

  lemma WordsOfPlan(v: VmcsFields, site: Site, w: Controls.ControlWords)
    requires forall f: WordField :: v.words(f) == PlanOf(site, w).words(f)
    ensures ControlsOf(v) == w && v.words(EptPointer) == EptIdentity.Eptp(site.Root())
  {
    hide EptIdentity.Eptp;
  }

  lemma FilledIsSet(v: VmcsFields, site: Site, env: Environment, w: Controls.ControlWords)
    requires site.vcpu + STACK_SIZE < MODULUS && Controls.ControlsAreSet(w, env.capabilities)
    requires NoneFails(env.writeFails, FIRST_HOST_WRITE, FIELD_COUNT)
    ensures VmcsIsSet(Filled(v, PlanOf(site, w), env.writeFails, FIELD_COUNT), site, env)
  {
    hide Controls.ControlsAreSet, EptIdentity.Eptp, Filled, ControlsOf;
    var plan := PlanOf(site, w);
    AllWordsFilled(v, plan, env.writeFails);
    WordsOfPlan(Filled(v, plan, env.writeFails, FIELD_COUNT), site, w);
    FilledWhere(v, plan, env.writeFails, FIELD_COUNT);
  }

  /** What the set-up has issued when it returns: everything up to the first step that does not succeed. */
  function SetupIssued(env: Environment, s: VmxState, vmxonRegion: nat, region: nat): seq<Event> {
    if !env.vcpuAllocated || !env.vmxonAllocated then []
    else if !env.VmxonSucceeds() then EnableTrace(s)
    else EnableTrace(s) + ([Vmxon(vmxonRegion)] + LoadIssued(env, region))
  }

  function LoadIssued(env: Environment, region: nat): seq<Event> {
    if !env.vmcsHasAddress || env.vmclearFails then []
    else if env.vmptrldFails then [Vmclear(region)]
    else LoadTrace(region, Made(env.writeFails, FIELD_COUNT))
  }

  /** Where every step succeeds, that is the whole set-up. */
  lemma SucceedingIssuesAll(env: Environment, s: VmxState, vmxonRegion: nat, region: nat)
    requires env.SetupSucceeds()
    ensures env.VmxonSucceeds()
    ensures SetupIssued(env, s, vmxonRegion, region) ==
            SetupTrace(s, vmxonRegion, region, Made(env.writeFails, FIELD_COUNT))
  {
    hide EnableTrace, LoadTrace, Made, NoneFails;
  }

  /** VMCLEAR and VMPTRLD, unless the region has no physical address or one of them fails. */
  method LoadVmcs(p: Processor, env: Environment) returns (loaded: bool)
    requires p.Sound() && InRoot(p.vmx) && p.region != p.vmx.vmxonRegion
    modifies p`vmx, p`trace
    ensures p.Sound() && (loaded <==> env.vmcsHasAddress && !env.vmclearFails && !env.vmptrldFails)
    ensures p.vmx.on && (loaded ==> ReadyToLaunch(p.vmx, p.region))
    ensures if !env.vmcsHasAddress || env.vmclearFails then p.trace == old(p.trace)
            else p.trace == old(p.trace) + [Vmclear(p.region)] + if env.vmptrldFails then [] else [Vmptrld(p.region)]
  {
    hide Legal, After, VmxonPossible;
    if !env.vmcsHasAddress {
      return false;
    }
    var failed := p.Attempt(Vmclear(p.region), env.vmclearFails);
    if failed {
      return false;
    }
    failed := p.Attempt(Vmptrld(p.region), env.vmptrldFails);
    loaded := !failed;
  }

  /** `setup_vmcs_fields`, with its early returns. */
  method SetUpVmcs(p: Processor, site: Site, env: Environment) returns (success: bool)
    requires site.vcpu + STACK_SIZE < MODULUS
    requires p.Sound() && InRoot(p.vmx) && p.region != p.vmx.vmxonRegion
    modifies p`vmx, p`trace, p`vmcs
    ensures p.Sound()
    ensures success <==> env.vmcsHasAddress && !env.vmclearFails && !env.vmptrldFails &&
                         NoneFails(env.writeFails, FIRST_HOST_WRITE, FIELD_COUNT)
    ensures success ==> ReadyToLaunch(p.vmx, p.region) && VmcsIsSet(p.vmcs, site, env)
    ensures p.vmx.on && p.trace == old(p.trace) + LoadIssued(env, p.region)
  {
    hide LoadTrace, Writes, Legal, After, VmxonPossible, NoneFails, Filled, VmcsIsSet, Controls.ControlsAreSet, Made;
    hide ReadyToLaunch, PlanOf;
    SetupTraceParts(p.trace, p.vmx, 0, p.region, Made(env.writeFails, FIELD_COUNT));
    assert p.trace + [Vmclear(p.region)] + [] == p.trace + [Vmclear(p.region)];
    var loaded := LoadVmcs(p, env);
    if !loaded {
      return false;
    }
    ReadyHasCurrent(p.vmx, p.region);
    PlanIsAtSite(site);
    var controls := Controls.SetupExecutionControls(env.capabilities);
    success := WriteFields(p, PlanOf(site, controls), env.writeFails);
    if success {
      FilledIsSet(old(p.vmcs), site, env, controls);
    }
  }

  lemma ReadyHasCurrent(s: VmxState, region: nat)
    requires ReadyToLaunch(s, region)
    ensures HasCurrent(s) && s.on
  {
  }

  lemma PlanIsAtSite(site: Site)
    ensures forall w :: PlanOf(site, w).vcpu == site.vcpu
  {
  }

  /** The tables are built, belong to this virtual processor, and are the ones that the VMCS names. */
  ghost predicate TablesAreUp(ept: E.Ept, site: Site, v: VmcsFields)
    reads ept, ept.pool, ept.paging.Arrays(), E.ArraysOf(ept.list)
  {
    && ept.Valid() && ept.list == [] && ept.paging.vcpu == site.vcpu && ept.mmu == site.mmu
    && EptRuns.MapsIdentity(ept.mem, v.words(EptPointer)) && IsOffStack(ept.mem, site)
  }

  /** No page of the host stack lies in the frame of a table. */
  ghost predicate IsOffStack(mem: EptWalk.PhysicalMemory, site: Site) {
    forall a: nat :: VcpuLayout.IsStackPage(site.vcpu, a) ==> EptWalk.Target(site.mmu(a)) !in mem
  }

  /** So no byte that an exit changes belongs to a table: the tables that the guest runs on outlive every exit. */
  lemma ExitMissesTables(mem: EptWalk.PhysicalMemory, site: Site, before: Memory, after: Memory, x: Word)
    requires site.IsSound() && IsOffStack(mem, site)
    requires SameOutside(before, after, site.vcpu, STACK_SIZE) && before(x) != after(x)
    ensures EptWalk.Target(site.mmu(x - x % 0x1000)) !in mem
  {
    hide VcpuLayout.Translates, VcpuLayout.IsResident, EptWalk.Target;
    assert VcpuLayout.IsStackPage(site.vcpu, x - x % 0x1000);
  }

  /** `new Ept` on a zeroed virtual processor. */
  method BuildEpt(site: Site, pool: E.Pool) returns (ept: E.Ept)
    requires site.IsSound()
    ensures fresh(ept) && forall a :: a in ept.paging.Arrays() ==> fresh(a)
    ensures ept.Valid() && ept.list == [] && ept.paging.vcpu == site.vcpu && ept.mmu == site.mmu && ept.pool == pool
    ensures EptRuns.MapsIdentity(ept.mem, EptIdentity.Eptp(site.Root())) && IsOffStack(ept.mem, site)
  {
    hide VcpuLayout.Translates, VcpuLayout.IsResident, VcpuLayout.PageAligned, EptRuns.MapsIdentity, EptIdentity.Eptp;
    hide EptIdentity.Initial, E.Ept.Valid, VcpuLayout.IsStackPage, EptWalk.Target;
    var paging := new E.PagingStructures(site.vcpu);
    ept := new E.Ept(paging, site.mmu, site.pages, pool);
    EptRuns.InitialMapsIdentity(ept.Where(), ept.mem);
    ept.TablesAreOffStack();
  }

  lemma IssuedParts(t: seq<Event>, env: Environment, s: VmxState, vmxonRegion: nat, region: nat)
    requires env.vcpuAllocated && env.vmxonAllocated
    ensures t + SetupIssued(env, s, vmxonRegion, region) ==
            if env.VmxonSucceeds() then t + EnableTrace(s) + [Vmxon(vmxonRegion)] + LoadIssued(env, region)
            else t + EnableTrace(s)
  {
    hide EnableTrace, LoadIssued;
  }

  /**
   `load_hypervisor` up to the capture of the context, with its early returns.  None of them undoes anything: once
   VMXON has succeeded, the processor stays in VMX operation.
   */
  method SetUp(p: Processor, site: Site, env: Environment, pool: E.Pool) returns (success: bool, ept: E.Ept?)
    requires site.IsSound()
    requires p.Sound() && !p.vmx.on && site.vmxonRegion != p.region && Supports(p.vmx)
    modifies p`vmx, p`trace, p`vmcs
    ensures p.Sound()
    ensures success == env.SetupSucceeds()
    ensures success ==> ReadyToLaunch(p.vmx, p.region) && VmcsIsSet(p.vmcs, site, env)
    ensures success ==> ept != null && fresh(ept) && ept.pool == pool && TablesAreUp(ept, site, p.vmcs)
    ensures p.vmx.on <==> env.VmxonSucceeds()
    ensures p.trace == old(p.trace) + SetupIssued(env, old(p.vmx), site.vmxonRegion, p.region)
  {
    hide SetupTrace, LoadTrace, Writes, Legal, After, VmxonPossible, NoneFails, Supports, ReadyToLaunch;
    hide EnableTrace, Made;
    hide VcpuLayout.Translates, VcpuLayout.IsResident, VcpuLayout.PageAligned, EptRuns.MapsIdentity, EptIdentity.Eptp;
    hide E.Ept.Valid, HostIsSet, Controls.ControlsAreSet, GuestIsSet;
    ept := null;
    if !env.vcpuAllocated || !env.vmxonAllocated {
      return false, null;
    }
    IssuedParts(p.trace, env, p.vmx, site.vmxonRegion, p.region);
    EnabledIsOff(p.vmx);
    EnableVmx(p);
    if !env.setupAllocated || !env.vmxonHasAddress {
      return false, null;
    }
    var failed := p.Attempt(Vmxon(site.vmxonRegion), env.vmxonFails);
    if failed {
      return false, null;
    }
    ept := BuildEpt(site, pool);
    label built:
    success := SetUpVmcs(p, site, env);
    assert unchanged@built(ept, ept.pool, ept.paging.Arrays(), E.ArraysOf(ept.list));
  }

  /**
   The compiled code behind the capture: from there to the CPUID of `is_hypervisor_present`, and from behind it, when
   the signature is not found, to VMLAUNCH.  `cpuidLength` is the length of the CPUID instruction.
   */
  datatype Pass = Pass(toCpuid: GuestState -> GuestState, toLaunch: GuestState -> GuestState, cpuidLength: Word)

  /**
   What is taken for granted of memory, `inv`: with it the C functions of the exit path work, and it does not depend
   on the stack of the virtual processor or on the word below the captured stack pointer.
   */
  ghost predicate IsLoaded(inv: Memory -> bool, h: Handler, vcpu: nat, rsp: Word)
    requires vcpu + STACK_SIZE < MODULUS
  {
    && (forall m :: inv(m) ==> IsVmExitHandler(h, vcpu, m))
    && (forall m, m' :: inv(m) && SameButStackWord(m, m', vcpu, rsp) ==> inv(m'))
  }

  /** Entered behind the capture with these registers, the code reaches CPUID with leaf 0 and keeps `guest_context`. */
  ghost predicate ReachesCpuid(pass: Pass, inv: Memory -> bool, vcpu: nat, g: Gprs, rsp: Word, at: Word) {
    forall m, msrs: Msrs :: inv(m) ==>
                  var s := pass.toCpuid(GuestState(g, rsp, at, m, msrs));
                  Low32(s.g.rax) == 0 && Low32(s.g.rcx) == 0 && inv(s.mem) && SameOn(m, s.mem, vcpu, CONTEXT_SIZE)
  }

  /** And from behind CPUID it reaches VMLAUNCH with `guest_context` as it was. */
  ghost predicate ReachesLaunch(pass: Pass, inv: Memory -> bool, vcpu: nat, cpuid: Cpuid, g: Gprs, rsp: Word,
                                at: Word) {
    forall m, msrs: Msrs, answered ::
      inv(m) && IsCpuid(cpuid, pass.toCpuid(GuestState(g, rsp, at, m, msrs)).g, answered) ==>
        var s := pass.toCpuid(GuestState(g, rsp, at, m, msrs));
        var t := pass.toLaunch(s.(g := answered, rip := Add(s.rip, pass.cpuidLength)));
        inv(t.mem) && SameOn(s.mem, t.mem, vcpu, CONTEXT_SIZE)
  }

  /** CPUID in the host: the processor answers. */
  method HostCpuid(p: Processor, cpu: Cpu, length: Word)
    modifies cpu`g, cpu`rip
    ensures IsCpuid(p.native.cpuid, old(cpu.g), cpu.g) && cpu.rip == Add(old(cpu.rip), length)
  {
    var info := p.native.cpuid(Low32(cpu.g.rax), Low32(cpu.g.rcx));
    cpu.g := cpu.g.(rax := info.eax, rbx := info.ebx, rcx := info.ecx, rdx := info.edx);
    cpu.rip := Add(cpu.rip, length);
  }

  /** VMLAUNCH starts the guest where the VMCS says. */
  method LaunchGuest(p: Processor, cpu: Cpu, site: Site)
    requires site.vcpu + STACK_SIZE < MODULUS && GuestIsSet(p.vmcs, site.vcpu, site.code)
    requires p.Sound() && ReadyToLaunch(p.vmx, p.region)
    modifies p`vmx, p`trace, cpu`rip, cpu`rsp
    ensures p.Sound() && GuestRuns(p.vmx, p.region) && p.trace == old(p.trace) + [Vmlaunch]
    ensures cpu.rip == site.code.enterGuest && cpu.rsp == site.vcpu + HOST_RSP_OFFSET
  {
    hide Legal, After, VmxonPossible;
    p.VmEntry(cpu, Vmlaunch);
  }

  lemma LoadedAfterExit(inv: Memory -> bool, h: Handler, vcpu: nat, rsp: Word, m: Memory, m': Memory)
    requires vcpu + STACK_SIZE < MODULUS && IsLoaded(inv, h, vcpu, rsp) && inv(m)
    requires SameOutside(m, m', vcpu, STACK_SIZE)
    ensures inv(m')
  {
    hide IsVmExitHandler, Above, Sub;
    assert SameButStackWord(m, m', vcpu, rsp);
  }

  /** What the code behind CPUID may count on in the host. */
  ghost predicate AnsweredInHost(pass: Pass, cpuid: Cpuid, start: GuestState, now: GuestState) {
    var s := pass.toCpuid(start);
    IsCpuid(cpuid, s.g, now.g) && now == s.(g := now.g, rip := Add(s.rip, pass.cpuidLength))
  }

  /**
   `is_hypervisor_present`: in the host the processor answers CPUID leaf 0, in the guest the exit does, with the
   signature.
   */
  method IsHypervisorPresent(p: Processor, cpu: Cpu, h: Handler, site: Site, pass: Pass, ghost rsp: Word,
                             ghost inv: Memory -> bool)
    returns (present: bool)
    requires site.vcpu + STACK_SIZE < MODULUS && IsLoaded(inv, h, site.vcpu, rsp) && inv(cpu.mem)
    requires ReachesCpuid(pass, inv, site.vcpu, cpu.g, cpu.rsp, cpu.rip)
    requires p.Sound() && HostIsSet(p.vmcs, site.vcpu, site.code) && (p.vmx.guest ==> GuestRuns(p.vmx, p.region))
    modifies p`guest, p`vmx, p`trace, p`vmcs, p`contextRip, p`contextRsp, p`msrWrites, p`native, cpu
    ensures present <==> p.vmx.guest || p.native.cpuid(0, 0).ebx == 0x4141_4141
    ensures p.Sound() && p.vmx == old(p.vmx) && HostIsSet(p.vmcs, site.vcpu, site.code)
    ensures p.trace == old(p.trace) + if p.vmx.guest then ExitTrace(CPUID, p.region) else []
    ensures inv(cpu.mem) && p.native.cpuid == old(p.native.cpuid) && p.vmcs.words == old(p.vmcs.words)
    ensures !p.vmx.guest ==>
              && p.vmcs == old(p.vmcs) && SameOn(old(cpu.mem), cpu.mem, site.vcpu, CONTEXT_SIZE)
              && AnsweredInHost(pass, p.native.cpuid, old(StateOf(p, cpu)), StateOf(p, cpu))
  {
    hide Legal, After, VmxonPossible, ExitTrace, SameOn, SameOutside, Add, IsVmExitHandler, SameButStackWord;
    hide SamePreserved;
    ghost var start := StateOf(p, cpu);
    RunGuest(p, cpu, pass.toCpuid);
    ghost var m := cpu.mem;
    assert StateOf(p, cpu) == pass.toCpuid(GuestState(start.g, start.rsp, start.rip, start.mem, start.msrs));
    if p.vmx.guest {
      var r, resumed := ExitAndResume(p, cpu, h, site.vcpu, site.code, CPUID, pass.cpuidLength);
      LoadedAfterExit(inv, h, site.vcpu, rsp, m, cpu.mem);
    } else {
      HostCpuid(p, cpu, pass.cpuidLength);
    }
    present := Low32(cpu.g.rbx) == SIGNATURE;
  }

  /** From behind CPUID by way of VMLAUNCH and `_enter_guest` back to where the context was captured. */
  method LaunchAndEnter(p: Processor, cpu: Cpu, h: Handler, site: Site, pass: Pass, ghost start: GuestState,
                        ghost captured: GuestState, ghost flags: Word, ghost inv: Memory -> bool)
    requires site.vcpu + STACK_SIZE < MODULUS && IsLoaded(inv, h, site.vcpu, captured.rsp)
    requires inv(start.mem) && SameOn(start.mem, cpu.mem, site.vcpu, CONTEXT_SIZE)
    requires AnsweredInHost(pass, p.native.cpuid, start, StateOf(p, cpu))
    requires ReachesLaunch(pass, inv, site.vcpu, p.native.cpuid, start.g, start.rsp, start.rip)
    requires IsCaptured(start.mem, site.vcpu, captured.g, captured.rsp, captured.rip, flags)
    requires WordApart(Sub(captured.rsp, 8), site.vcpu + CONTEXT_RCX, 8)
    requires p.Sound() && ReadyToLaunch(p.vmx, p.region) && GuestIsSet(p.vmcs, site.vcpu, site.code)
    modifies p`vmx, p`trace, p`native, cpu
    ensures p.Sound() && GuestRuns(p.vmx, p.region) && p.trace == old(p.trace) + [Vmlaunch]
    ensures p.native.cpuid == old(p.native.cpuid)
    ensures cpu.g == captured.g && cpu.rsp == captured.rsp && cpu.rip == captured.rip && cpu.flags == flags
    ensures inv(cpu.mem)
  {
    hide Legal, After, VmxonPossible, Add, IsVmExitHandler, SameButStackWord, Read64, ContextRegs, WordApart;
    hide IsCpuid, ReadyToLaunch, GuestRuns;
    assert start == GuestState(start.g, start.rsp, start.rip, start.mem, start.msrs);
    RunGuest(p, cpu, pass.toLaunch);
    ContextOn(start.mem, cpu.mem, site.vcpu);
    LaunchGuest(p, cpu, site);
    EnterGuest(cpu, site.vcpu);
  }

  /**
   `load_hypervisor` from the capture on.  `starts` are the states in which the code behind `RtlCaptureContext` was
   entered.  VMLAUNCH starts the guest where the VMCS says, in `_enter_guest` on the stack of the virtual processor,
   and that ends in the captured state: so the code runs a second time, now as guest.  There CPUID leaf 0 exits, is
   answered with the signature, and the second pass returns true.
   */
  method LaunchHypervisor(p: Processor, cpu: Cpu, h: Handler, site: Site, env: Environment, pass: Pass, at: Word,
                          returned: Gprs, ghost inv: Memory -> bool)
    returns (success: bool, passes: nat, ghost starts: seq<GuestState>)
    requires site.vcpu + STACK_SIZE < MODULUS && IsLoaded(inv, h, site.vcpu, cpu.rsp) && inv(cpu.mem)
    requires WordApart(Sub(cpu.rsp, 8), site.vcpu + CONTEXT_RCX, 8)
    requires ReachesCpuid(pass, inv, site.vcpu, returned, cpu.rsp, at)
    requires ReachesCpuid(pass, inv, site.vcpu, cpu.g, cpu.rsp, at)
    requires ReachesLaunch(pass, inv, site.vcpu, p.native.cpuid, returned, cpu.rsp, at)
    requires p.Sound() && ReadyToLaunch(p.vmx, p.region)
    requires GuestIsSet(p.vmcs, site.vcpu, site.code) && HostIsSet(p.vmcs, site.vcpu, site.code)
    modifies p`guest, p`vmx, p`trace, p`vmcs, p`contextRip, p`contextRsp, p`msrWrites, p`native, cpu
    ensures p.Sound() && p.vmx.on && |starts| == passes && inv(cpu.mem) && p.vmcs.words == old(p.vmcs.words)
    ensures forall k :: 0 <= k < passes ==> starts[k].rip == at && starts[k].rsp == old(cpu.rsp)
    ensures var native := old(p.native).cpuid(0, 0).ebx;
            && (native == 0x4141_4141 ==> success && passes == 1 && p.trace == old(p.trace) && p.vmx == old(p.vmx))
            && (native != 0x4141_4141 && env.launchFails ==>
                  !success && passes == 1 && p.trace == old(p.trace) && p.vmx == old(p.vmx))
            && (native != 0x4141_4141 && !env.launchFails ==>
                  && success && passes == 2 && starts[1].g == old(cpu.g)
                  && GuestRuns(p.vmx, p.region) && HostIsSet(p.vmcs, site.vcpu, site.code)
                  && p.trace == old(p.trace) + [Vmlaunch] + ExitTrace(CPUID, p.region))
  {
    hide Legal, After, VmxonPossible, ExitTrace, SameOn, SameOutside, IsLoaded, ReachesCpuid, ReachesLaunch;
    hide IsCaptured, WordApart, AnsweredInHost, HostIsSet, GuestIsSet;
    ghost var captured, flags, before := GuestState(cpu.g, cpu.rsp, at, cpu.mem, p.native.msrs), cpu.flags, p.trace;
    CaptureContext(cpu, site.vcpu, at, returned);
    CapturedIsLoaded(inv, h, site.vcpu, cpu.rsp, captured.mem, cpu.mem);
    passes, starts := 0, [];
    while true
      invariant p.native.cpuid == old(p.native.cpuid) && p.vmcs.words == old(p.vmcs.words)
      invariant |starts| == passes <= 1 && p.Sound() && HostIsSet(p.vmcs, site.vcpu, site.code)
      invariant cpu.rip == at && cpu.rsp == captured.rsp && inv(cpu.mem)
      invariant forall k :: 0 <= k < passes ==> starts[k].rip == at && starts[k].rsp == captured.rsp
      invariant passes == 0 ==>
                  && cpu.g == returned && IsCaptured(cpu.mem, site.vcpu, captured.g, captured.rsp, captured.rip, flags)
                  && ReadyToLaunch(p.vmx, p.region) && GuestIsSet(p.vmcs, site.vcpu, site.code) && p.trace == before
                  && p.vmx == old(p.vmx)
      invariant passes == 1 ==>
                  && cpu.g == captured.g && GuestRuns(p.vmx, p.region) && p.trace == before + [Vmlaunch]
                  && p.native.cpuid(0, 0).ebx != 0x4141_4141 && !env.launchFails
      decreases 2 - passes
    {
      ghost var start := StateOf(p, cpu);
      passes, starts := passes + 1, starts + [start];
      var present := IsHypervisorPresent(p, cpu, h, site, pass, captured.rsp, inv);
      if present {
        return true, passes, starts;
      }
      if env.launchFails {
        return false, passes, starts;
      }
      LaunchAndEnter(p, cpu, h, site, pass, start, captured, flags, inv);
    }
  }

  lemma CapturedIsLoaded(inv: Memory -> bool, h: Handler, vcpu: nat, rsp: Word, m: Memory, m': Memory)
    requires vcpu + STACK_SIZE < MODULUS && IsLoaded(inv, h, vcpu, rsp) && inv(m)
    requires SameOutside(m, m', vcpu, CONTEXT_SIZE)
    ensures inv(m')
  {
    hide IsLoaded;
    assert SameOutside(m, m', vcpu, STACK_SIZE);
    LoadedAfterExit(inv, h, vcpu, rsp, m, m');
  }

  /**
   The whole life of a processor, as a trace: set-up, launch, the CPUID exit of the second pass, then any exits.
   It is legal from the first event on, launches exactly once, and leaves VMX operation, if at all, with the VMCLEAR of
   the region and the VMXOFF as its last instructions, so that the region can be freed.
   */
  lemma WholeLifeIsLegal(s: VmxState, vmxonRegion: nat, region: nat, writes: nat, reasons: seq<Word>)
    requires !s.on && region != vmxonRegion && Supports(s)
    ensures var t := SetupTrace(s, vmxonRegion, region, writes) + [Vmlaunch] + ExitTrace(CPUID, region) +
                     LifeTrace(reasons, region);
            && Legal(s, t)
            && Count(t, Vmlaunch) == 1
            && (After(s, t).on <==> VMXOFF !in reasons)
            && Count(t, Vmxoff) == (if VMXOFF in reasons then 1 else 0)
            && (VMXOFF in reasons ==> EndsInRelease(t, region) && Released(After(s, t), region))
  {
    hide Writes, Count, Legal, After, LifeTrace, SetupTrace, ExitTrace, Released, EndsInRelease;
    var setup, exit := SetupTrace(s, vmxonRegion, region, writes), ExitTrace(CPUID, region);
    var life := LifeTrace(reasons, region);
    var ready := After(s, setup);
    var running := Next(ready, Vmlaunch);
    SetupIsLegal(s, vmxonRegion, region, writes);
    ExitIsLegal(running, CPUID, region);
    LifeIsLegal(running, reasons, region);
    ChainIsLegal(s, setup, exit, life);
    ChainCounts(setup, exit, life, Vmlaunch);
    ChainCounts(setup, exit, life, Vmxoff);
    SetupCounts(s, vmxonRegion, region, writes);
    ExitCounts(CPUID, region);
    EndsAlike(setup + [Vmlaunch] + exit, life, region);
  }

  lemma ChainIsLegal(s: VmxState, setup: seq<Event>, exit: seq<Event>, life: seq<Event>)
    ensures var running := Next(After(s, setup), Vmlaunch);
            var t := setup + [Vmlaunch] + exit + life;
            && (Legal(s, t) <==> Legal(s, setup) && Permits(After(s, setup), Vmlaunch) && Legal(running, exit) &&
                                 Legal(After(running, exit), life))
            && After(s, t) == After(After(running, exit), life)
  {
    var running := Next(After(s, setup), Vmlaunch);
    Compose(s, setup + [Vmlaunch] + exit, life);
    Compose(s, setup + [Vmlaunch], exit);
    Compose(s, setup, [Vmlaunch]);
    Unroll(After(s, setup), Vmlaunch, []);
    assert [Vmlaunch] + [] == [Vmlaunch];
  }

  lemma ChainCounts(setup: seq<Event>, exit: seq<Event>, life: seq<Event>, x: Event)
    ensures Count(setup + [Vmlaunch] + exit + life, x) ==
            Count(setup, x) + (if x == Vmlaunch then 1 else 0) + Count(exit, x) + Count(life, x)
  {
    CountCompose(setup + [Vmlaunch] + exit, life, x);
    CountCompose(setup + [Vmlaunch], exit, x);
    CountCompose(setup, [Vmlaunch], x);
    CountFirst(Vmlaunch, [], x);
    assert [Vmlaunch] + [] == [Vmlaunch];
  }

  lemma SetupCounts(s: VmxState, vmxonRegion: nat, region: nat, writes: nat)
    ensures var t := SetupTrace(s, vmxonRegion, region, writes);
            Count(t, Vmlaunch) == 0 && Count(t, Vmxoff) == 0
  {
    hide Count, EnableTrace;
    var ws := Writes(writes);
    forall x | x == Vmlaunch || x == Vmxoff ensures Count(SetupTrace(s, vmxonRegion, region, writes), x) == 0 {
      WritesCount(writes, x);
      EnableCounts(s, x);
      CountFirst(Vmptrld(region), ws, x);
      CountFirst(Vmclear(region), [Vmptrld(region)] + ws, x);
      CountFirst(Vmxon(vmxonRegion), [Vmclear(region)] + ([Vmptrld(region)] + ws), x);
      CountCompose(EnableTrace(s), [Vmxon(vmxonRegion)] + ([Vmclear(region)] + ([Vmptrld(region)] + ws)), x);
    }
  }

  lemma EnableCounts(s: VmxState, x: Event)
    requires x == Vmlaunch || x == Vmxoff
    ensures Count(EnableTrace(s), x) == 0
  {
    hide Enabled, Controls.WithVmxe, Controls.Locked, Controls.FeatureControl;
    var write, cr4, cr0, last := WriteFeatureControl(Controls.FeatureControl(s.featureControl)),
      WriteCr4(Controls.WithVmxe(s.cr4)), WriteCr0(Enabled(s).cr0), WriteCr4(Enabled(s).cr4);
    assert RegisterTrace(s) == [cr4] + ([cr0] + ([last] + []));
    CountFirst(last, [], x);
    CountFirst(cr0, [last] + [], x);
    CountFirst(cr4, [cr0] + ([last] + []), x);
    CountFirst(write, [], x);
    assert [write] + [] == [write];
    CountCompose(FeatureControlTrace(s.featureControl), RegisterTrace(s), x);
  }

  lemma {:induction false} WritesCount(n: nat, x: Event)
    requires x != Vmwrite
    ensures Count(Writes(n), x) == 0
  {
    if n > 0 {
      WritesCount(n - 1, x);
      CountFirst(Vmwrite, Writes(n - 1), x);
    }
  }

  /** What `load_hypervisor` needs of the processor, of the code around it and of where they lie. */
  ghost predicate CanLoad(p: Processor, cpu: Cpu, h: Handler, site: Site, env: Environment, pass: Pass, at: Word,
                          returned: Gprs, inv: Memory -> bool)
    reads p, cpu
  {
    && site.IsSound() && IsLoaded(inv, h, site.vcpu, cpu.rsp) && inv(cpu.mem)
    && WordApart(Sub(cpu.rsp, 8), site.vcpu + CONTEXT_RCX, 8)
    && ReachesCpuid(pass, inv, site.vcpu, returned, cpu.rsp, at)
    && ReachesCpuid(pass, inv, site.vcpu, cpu.g, cpu.rsp, at)
    && ReachesLaunch(pass, inv, site.vcpu, p.native.cpuid, returned, cpu.rsp, at)
    && p.Sound() && !p.vmx.on && site.vmxonRegion != p.region && Supports(p.vmx) && env.EntryIsWritten()
  }

  /** `load_hypervisor` as a whole. */
  method LoadHypervisor(p: Processor, cpu: Cpu, h: Handler, site: Site, env: Environment, pool: E.Pool, pass: Pass,
                        at: Word, returned: Gprs, ghost inv: Memory -> bool)
    returns (success: bool, ept: E.Ept?, passes: nat, ghost starts: seq<GuestState>)
    requires CanLoad(p, cpu, h, site, env, pass, at, returned, inv)
    modifies p, cpu
    ensures p.Sound() && |starts| == passes && inv(cpu.mem)
    ensures forall k :: 0 <= k < passes ==> starts[k].rip == at && starts[k].rsp == old(cpu.rsp)
    ensures p.vmx.on <==> env.VmxonSucceeds()
    ensures !env.SetupSucceeds() ==>
              && !success && passes == 0
              && p.trace == old(p.trace) + SetupIssued(env, old(p.vmx), site.vmxonRegion, p.region)
    ensures env.SetupSucceeds() ==>
              ept != null && fresh(ept) && ept.pool == pool && TablesAreUp(ept, site, p.vmcs)
    ensures env.SetupSucceeds() ==>
              var native := old(p.native).cpuid(0, 0).ebx;
              var setup := SetupTrace(old(p.vmx), site.vmxonRegion, p.region, Made(env.writeFails, FIELD_COUNT));
              && (native == 0x4141_4141 ==> success && passes == 1 && p.trace == old(p.trace) + setup)
              && (native != 0x4141_4141 && env.launchFails ==>
                    !success && passes == 1 && p.trace == old(p.trace) + setup)
              && (native != 0x4141_4141 && !env.launchFails ==>
                    && success && passes == 2 && starts[1].g == old(cpu.g)
                    && GuestRuns(p.vmx, p.region) && HostIsSet(p.vmcs, site.vcpu, site.code)
                    && p.trace == old(p.trace) + setup + [Vmlaunch] + ExitTrace(CPUID, p.region))
  {
    hide Legal, After, VmxonPossible, ExitTrace, SetupTrace, IsLoaded, ReachesCpuid, ReachesLaunch, WordApart;
    hide NoneFails, Made, Supports, GuestRuns, ReadyToLaunch, Environment.SetupSucceeds;
    hide Controls.ControlsAreSet, ControlsOf, EptIdentity.Eptp, EptRuns.MapsIdentity, E.Ept.Valid;
    hide VcpuLayout.Translates, VcpuLayout.IsResident, VcpuLayout.PageAligned, SetupIssued, IsOffStack;
    ghost var s := p.vmx;
    success, ept := SetUp(p, site, env, pool);
    if !success {
      return false, ept, 0, [];
    }
    SucceedingIssuesAll(env, s, site.vmxonRegion, p.region);
    label ready:
    success, passes, starts := LaunchHypervisor(p, cpu, h, site, env, pass, at, returned, inv);
    assert unchanged@ready(ept, ept.pool, ept.paging.Arrays(), E.ArraysOf(ept.list));
  }

  /**
   The whole life of a processor: load, launch, any guest code with any exits in between, and VMXOFF if the guest asks
   for it.  Every instruction was legal from the first on, VMLAUNCH was issued exactly once, VMXOFF comes last and
   leaves a VMCS region that can be freed, the guest runs on the identity map, whose tables lie off the host stack, and
   it ends where its code and the dispatch lead.  Where every exit looks native, that is where the code leads on a
   processor without hypervisor.
   */
  method WholeLife(p: Processor, cpu: Cpu, h: Handler, readRsp: State -> State, readRip: State -> State, site: Site,
                   env: Environment, pool: E.Pool, pass: Pass, at: Word, returned: Gprs,
                   life: GuestState -> seq<Stretch>, ghost inv: Memory -> bool)
    returns (success: bool, ept: E.Ept?, loaded: GuestState)
    requires CanLoad(p, cpu, h, site, env, pass, at, returned, inv)
    requires p.trace == [] && p.native.cpuid(0, 0).ebx != 0x4141_4141
    requires forall s: GuestState :: inv(s.mem) ==> IsGuestRun(h, readRsp, readRip, site.vcpu, life(s), s)
    modifies p, cpu
    ensures p.Sound() && Legal(p.start, p.trace)
    ensures success <==> env.SetupSucceeds() && !env.launchFails
    ensures success ==> ept != null && fresh(ept) && ept.pool == pool && TablesAreUp(ept, site, p.vmcs)
    ensures success ==>
              var reasons := Reasons(life(loaded));
              && Count(p.trace, Vmlaunch) == 1 && (p.vmx.on <==> VMXOFF !in reasons)
              && Count(p.trace, Vmxoff) == (if VMXOFF in reasons then 1 else 0)
              && (VMXOFF in reasons ==> EndsInRelease(p.trace, p.region) && Released(p.vmx, p.region))
    ensures success ==>
              var end := DispatchedRun(life(loaded), loaded);
              && SeesAfter(StateOf(p, cpu), end, site.vcpu, VMXOFF in Reasons(life(loaded)))
              && (RunLooksNative(life(loaded), loaded) ==> IsNativeRun(life(loaded), loaded, end))
  {
    hide Legal, After, VmxonPossible, ExitTrace, SetupTrace, LifeTrace, Made, Supports, Count;
    hide Environment.SetupSucceeds, HostIsSet, EptRuns.MapsIdentity, E.Ept.Valid;
    hide IsLoaded, ReachesCpuid, ReachesLaunch, WordApart, IsGuestRun, SeesAfter, GuestRuns, CanLoad, AllServed;
    hide DispatchedRun, RunLooksNative, IsNativeRun;
    LoadStartsOff(p, cpu, h, site, env, pass, at, returned, inv);
    ghost var s := p.vmx;
    var passes;
    ghost var starts;
    success, ept, passes, starts := LoadHypervisor(p, cpu, h, site, env, pool, pass, at, returned, inv);
    loaded := StateOf(p, cpu);
    if success {
      ghost var setup := SetupTrace(s, site.vmxonRegion, p.region, Made(env.writeFails, FIELD_COUNT));
      assert [] + setup == setup;
      SeesItself(loaded, site.vcpu);
      label launched:
      ghost var exits := ServeExits(p, cpu, h, readRsp, readRip, site.vcpu, site.code, life(loaded), loaded);
      assert unchanged@launched(ept, ept.pool, ept.paging.Arrays(), E.ArraysOf(ept.list));
      WholeLifeIsLegal(s, site.vmxonRegion, p.region, Made(env.writeFails, FIELD_COUNT), Reasons(life(loaded)));
      if RunLooksNative(life(loaded), loaded) {
        DispatchedRunIsNative(life(loaded), loaded);
      }
    }
  }

  lemma SeesItself(s: GuestState, vcpu: nat)
    ensures Sees(s, s, vcpu)
  {
  }

  lemma LoadStartsOff(p: Processor, cpu: Cpu, h: Handler, site: Site, env: Environment, pass: Pass, at: Word,
                      returned: Gprs, inv: Memory -> bool)
    requires CanLoad(p, cpu, h, site, env, pass, at, returned, inv)
    ensures site.vcpu + STACK_SIZE < MODULUS && p.Sound() && !p.vmx.on && site.vmxonRegion != p.region &&
            Supports(p.vmx)
    ensures p.trace == [] ==> p.vmx == p.start
  {
  }
}
