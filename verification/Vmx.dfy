/**
 When a processor permits each VMX instruction, from chapter 30 and sections 23.7 and 23.8 of the Intel SDM,
 Volume 3C, the traces of such instructions, and the fields of the VMCS.
 */
module Vmx {
  import opened Machine
  import Controls

  datatype LaunchState = Clear | Launched

  /** The current-VMCS pointer: none, or a region. */
  datatype Current = NoVmcs | Vmcs(region: nat)

  /** The read-only MSRs that say which bits of CR0 and CR4 are fixed in VMX operation. */
  datatype Fixed = Fixed(cr0Fixed0: bv64, cr0Fixed1: bv64, cr4Fixed0: bv64, cr4Fixed1: bv64) {
    predicate AllowsCr0(cr0: bv64) {
      Controls.Legal(cr0, cr0Fixed0, cr0Fixed1)
    }

    predicate AllowsCr4(cr4: bv64) {
      Controls.Legal(cr4, cr4Fixed0, cr4Fixed1) && Controls.Within(Controls.VMXE, cr4)
    }
  }

  /**
   One logical processor: its control registers and feature-control MSR, whether it is in VMX operation, and there
   in non-root operation (`guest`).  `regions` holds the launch state of every VMCS region that VMCLEAR has initialised.
   */
  datatype VmxState = VmxState(
    fixed: Fixed, featureControl: bv64, cr0: bv64, cr4: bv64,
    on: bool, vmxonRegion: nat, regions: map<nat, LaunchState>, current: Current, guest: bool)

  datatype Event =
    | WriteFeatureControl(value: bv64)
    | WriteCr0(value: bv64)
    | WriteCr4(value: bv64)
    | Vmxon(region: nat)
    | Vmclear(region: nat)
    | Vmptrld(region: nat)
    | Vmread
    | Vmwrite
    | Vmlaunch
    | Vmresume
    | Exit
    | Vmxoff

  /**
   The registers let VMXON through: CR4.VMXE is set, no fixed bit is wrong, and the MSR is locked with VMX
   enabled.
   */
  predicate VmxonPossible(s: VmxState) {
    Controls.PermitsVmxon(s.featureControl) && s.fixed.AllowsCr0(s.cr0) && s.fixed.AllowsCr4(s.cr4)
  }

  predicate InRoot(s: VmxState) {
    s.on && !s.guest
  }

  predicate HasCurrent(s: VmxState) {
    InRoot(s) && s.current.Vmcs? && s.current.region in s.regions
  }

  /** The instruction neither faults nor fails in this state. */
  predicate Permits(s: VmxState, e: Event) {
    match e
    case WriteFeatureControl(value) => !Controls.Locked(s.featureControl)
    case WriteCr0(value) => s.on ==> s.fixed.AllowsCr0(value)
    case WriteCr4(value) => s.on ==> s.fixed.AllowsCr4(value)
    case Vmxon(region) => VmxonPossible(s) && !s.on
    case Vmclear(region) => InRoot(s) && region != s.vmxonRegion
    case Vmptrld(region) => InRoot(s) && region != s.vmxonRegion && region in s.regions
    case Vmread => HasCurrent(s)
    case Vmwrite => HasCurrent(s)
    case Vmlaunch => HasCurrent(s) && s.regions[s.current.region] == Clear
    case Vmresume => HasCurrent(s) && s.regions[s.current.region] == Launched
    case Exit => s.on && s.guest
    case Vmxoff => InRoot(s)
  }

  function Next(s: VmxState, e: Event): VmxState {
    match e
    case WriteFeatureControl(value) => s.(featureControl := value)
    case WriteCr0(value) => s.(cr0 := value)
    case WriteCr4(value) => s.(cr4 := value)
    case Vmxon(region) => s.(on := true, vmxonRegion := region, regions := map[], current := NoVmcs, guest := false)
    case Vmclear(region) =>
      s.(regions := s.regions[region := Clear], current := if s.current == Vmcs(region) then NoVmcs else s.current)
    case Vmptrld(region) => s.(current := Vmcs(region))
    case Vmread => s
    case Vmwrite => s
    case Vmlaunch =>
      if s.current.Vmcs? then s.(regions := s.regions[s.current.region := Launched], guest := true) else s
    case Vmresume => s.(guest := true)
    case Exit => s.(guest := false)
    case Vmxoff => s.(on := false)
  }

  /** VMX operation has been left, and the region holds no active or current VMCS, so that it can be freed. */
  predicate Released(s: VmxState, region: nat) {
    !s.on && s.current == NoVmcs && region in s.regions && s.regions[region] == Clear
  }

  function After(s: VmxState, trace: seq<Event>): VmxState
    decreases |trace|
  {
    if trace == [] then s else After(Next(s, trace[0]), trace[1..])
  }

  /** Every event of the trace comes in a state that permits it. */
  predicate Legal(s: VmxState, trace: seq<Event>)
    decreases |trace|
  {
    trace == [] || (Permits(s, trace[0]) && Legal(Next(s, trace[0]), trace[1..]))
  }

  lemma {:induction false} Compose(s: VmxState, a: seq<Event>, b: seq<Event>)
    ensures After(s, a + b) == After(After(s, a), b)
    ensures Legal(s, a + b) <==> Legal(s, a) && Legal(After(s, a), b)
    decreases |a|
  {
    if a == [] {
      assert a + b == b;
    } else {
      assert (a + b)[1..] == a[1..] + b;
      Compose(Next(s, a[0]), a[1..], b);
    }
  }

  /** The first event, then the rest. */
  lemma Unroll(s: VmxState, e: Event, rest: seq<Event>)
    ensures After(s, [e] + rest) == After(Next(s, e), rest)
    ensures Legal(s, [e] + rest) <==> Permits(s, e) && Legal(Next(s, e), rest)
  {
    assert ([e] + rest)[1..] == rest;
  }

  function Count(trace: seq<Event>, e: Event): nat {
    if trace == [] then 0 else (if trace[0] == e then 1 else 0) + Count(trace[1..], e)
  }

  lemma CountFirst(e: Event, rest: seq<Event>, x: Event)
    ensures Count([e] + rest, x) == (if e == x then 1 else 0) + Count(rest, x)
  {
    assert ([e] + rest)[1..] == rest;
  }

  lemma {:induction false} CountCompose(a: seq<Event>, b: seq<Event>, e: Event)
    ensures Count(a + b, e) == Count(a, e) + Count(b, e)
  {
    if a == [] {
      assert a + b == b;
    } else {
      assert (a + b)[1..] == a[1..] + b;
      CountCompose(a[1..], b, e);
    }
  }

  /** The fields that hold control words, and the EPT pointer. */
  datatype WordField = PinControls | ProcControls | Proc2Controls | EntryControls | ExitControls | EptPointer

  /** The VMCS fields that decide where host and guest go on, what the guest may do, and where its tables are. */
  datatype VmcsFields = VmcsFields(
    exitReason: Word, instructionLength: Word, guestRip: Word, guestRsp: Word, hostRip: Word, hostRsp: Word,
    words: WordField -> bv64)

  /** What a VMWRITE stores.  Fields without a member of `VmcsFields` are `Other`. */
  datatype FieldWrite =
    | GuestRip(value: Word)
    | GuestRsp(value: Word)
    | HostRip(value: Word)
    | HostRsp(value: Word)
    | WordOf(field: WordField, word: bv64)
    | Other

  function Store(v: VmcsFields, w: FieldWrite): VmcsFields {
    match w
    case GuestRip(value) => v.(guestRip := value)
    case GuestRsp(value) => v.(guestRsp := value)
    case HostRip(value) => v.(hostRip := value)
    case HostRsp(value) => v.(hostRsp := value)
    case WordOf(field, word) => v.(words := (f: WordField) => if f == field then word else v.words(f))
    case Other => v
  }

  /** The number of VMWRITEs that `setup_vmcs_fields` makes. */
  const FIELD_COUNT := 77

  function Writes(n: nat): seq<Event> {
    if n == 0 then [] else [Vmwrite] + Writes(n - 1)
  }

  lemma {:induction false} WritesAreLegal(s: VmxState, n: nat)
    requires HasCurrent(s)
    ensures Legal(s, Writes(n)) && After(s, Writes(n)) == s
  {
    if n > 0 {
      WritesAreLegal(s, n - 1);
      assert Writes(n)[1..] == Writes(n - 1);
    }
  }
}
