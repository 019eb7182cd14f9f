/**
 One system that meets everything the theorems on the world switch and on the load take for granted: the assumptions
 do not contradict each other, and loading, running and leaving all happen in it.
 */
module Sample {
  import opened Machine
  import opened Vmx
  import opened VirtualCpu
  import opened WorldSwitch
  import opened ExitHandler
  import opened RoundTrip
  import opened Life
  import opened Load
  import Controls
  import VcpuLayout
  import E = Ept

  const VCPU := 0x10_0000

  const HOST_STACK: Word := 0x20_0000

  const GUEST_STACK: Word := 0x30_0000

  /** Every register is 0. */
  const ZEROS := Gprs(0, 0, 0, 0, 0, 0, 0, 0, 0, 0, 0, 0, 0, 0, 0)

  /** A processor without fixed bits whose firmware has not locked the MSR. */
  const PERMISSIVE :=
    VmxState(Fixed(0, 0xFFFF_FFFF_FFFF_FFFF, 0, 0xFFFF_FFFF_FFFF_FFFF), 0, 0, 0, false, 0, map[], NoVmcs, false)

  function ClearLeaf(s: GuestState): GuestState {
    s.(g := s.g.(rax := 0, rcx := 0))
  }

  function Unchanged(s: GuestState): GuestState {
    s
  }

  /** The guest moves to its own stack and asks for CPUID leaf 1; then it counts, and asks for VMXOFF. */
  function AskForLeafOne(s: GuestState): GuestState {
    s.(g := s.g.(rax := 1, rcx := 0), rsp := GUEST_STACK)
  }

  function CountUp(s: GuestState): GuestState {
    s.(g := s.g.(r12 := Add(s.g.r12, 1)), rsp := GUEST_STACK)
  }

  /** An instruction of three bytes that does nothing. */
  function Skip(s: GuestState): GuestState {
    s.(rip := Add(s.rip, 3))
  }

  const SILENT := Native((_: Word32, _: Word32) => CpuidResult(0, 0x756E_6547, 0, 0), (_: Word32) => 0)

  const ASKING := Stretch(AskForLeafOne, CPUID, 2, SILENT.cpuid, Skip)

  const COUNTING := Stretch(CountUp, VMXOFF, 3, SILENT.cpuid, Skip)

  const SAMPLE_LIFE := (s: GuestState) => [ASKING, COUNTING]

  const ANYTHING := (m: Memory) => true

  lemma PermissiveSupports()
    ensures Supports(PERMISSIVE)
  {
  }

  lemma StacksAreApart()
    ensures WordApart(Sub(HOST_STACK, 8), VCPU + CONTEXT_RCX, 8) && IsOffFrame(GUEST_STACK, VCPU)
  {
  }

  function SampleHandler(): Handler {
    CompiledHandler(VCPU, 0x40_0000)
  }

  function SampleReader(offset: nat): State -> State
    requires offset <= CONTEXT_SIZE
  {
    Called(ReaderBody(VCPU, offset), 0x40_0000)
  }

  lemma SampleExitsWork(m: Memory)
    ensures ExitsWork(SampleHandler(), SampleReader(CONTEXT_RSP), SampleReader(CONTEXT_RIP), VCPU, m)
  {
    hide CompiledHandler, ReaderBody, Called, IsVmExitHandler, ReadsContext;
    HandlerExists(VCPU, 0x40_0000, m);
    ReaderExists(VCPU, CONTEXT_RSP, 0x40_0000, m);
    ReaderExists(VCPU, CONTEXT_RIP, 0x40_0000, m);
  }

  lemma SampleRun(s: GuestState)
    ensures IsGuestRun(SampleHandler(), SampleReader(CONTEXT_RSP), SampleReader(CONTEXT_RIP), VCPU, SAMPLE_LIFE(s), s)
    ensures Reasons(SAMPLE_LIFE(s)) == [CPUID, VMXOFF] && RunLooksNative(SAMPLE_LIFE(s), s)
  {
    hide ExitsWork, IsOffFrame, Dispatched, SampleHandler, SampleReader, SameOutside, Add;
    var life := SAMPLE_LIFE(s);
    var next := Dispatched(life[0], AskForLeafOne(s));
    SampleExitsWork(AskForLeafOne(s).mem);
    SampleExitsWork(CountUp(next).mem);
    StacksAreApart();
    assert life[1..] == [life[1]] && life[1..][1..] == [];
  }

  lemma SampleIsLoaded()
    ensures IsLoaded(ANYTHING, SampleHandler(), VCPU, HOST_STACK)
  {
    hide IsVmExitHandler, CompiledHandler, SameButStackWord;
    forall m ensures IsVmExitHandler(SampleHandler(), VCPU, m) {
      HandlerExists(VCPU, 0x40_0000, m);
    }
  }

  function SampleSite(): Site {
    Site(VCPU, VcpuLayout.SampleMmu(VCPU), VcpuLayout.SamplePages(VCPU), 0x2000, Code(0x50_0000, 0x51_0000))
  }

  lemma SampleSiteIsSound()
    ensures SampleSite().IsSound()
  {
    hide VcpuLayout.SampleMmu, VcpuLayout.SamplePages, VcpuLayout.Translates, VcpuLayout.IsResident;
    VcpuLayout.SampleTranslates(VCPU);
  }

  /** The sample is loaded, runs, leaves VMX operation, and has run as on a processor without hypervisor. */
  method SampleLife() returns (p: Processor, cpu: Cpu, ghost end: GuestState, ghost loaded: GuestState)
    ensures p.Sound() && !p.vmx.on && Count(p.trace, Vmlaunch) == 1 && Count(p.trace, Vmxoff) == 1
    ensures SameRegisters(StateOf(p, cpu), end) && IsNativeRun(SAMPLE_LIFE(loaded), loaded, end)
  {
    hide IsLoaded, IsGuestRun, Supports, WordApart, VmxonPossible, Legal, After, DispatchedRun, SampleHandler;
    hide SampleReader, Count, RunLooksNative, IsNativeRun, SameButStackWord, SampleSite, Site.IsSound, TablesAreUp;
    cpu := new Cpu(ZEROS, HOST_STACK, (_: Word) => 0);
    var fields := VmcsFields(0, 0, 0, 0, 0, 0, (_: WordField) => 0);
    p := new Processor(0x1000, SILENT, PERMISSIVE, fields, ZEROS);
    var none := Controls.Capabilities(false, 0, 0, 0, 0, 0, 0, 0, 0, 0);
    var env := Environment(true, true, true, true, false, true, false, false, _ => false, false, none);
    var pass := Pass(ClearLeaf, Unchanged, 2);
    var pool := new E.Pool();
    var readRsp, readRip := SampleReader(CONTEXT_RSP), SampleReader(CONTEXT_RIP);
    SampleCanLoad(p, cpu, env, pass);
    forall s: GuestState
      ensures IsGuestRun(SampleHandler(), readRsp, readRip, VCPU, SAMPLE_LIFE(s), s)
      ensures Reasons(SAMPLE_LIFE(s)) == [CPUID, VMXOFF] && RunLooksNative(SAMPLE_LIFE(s), s)
    {
      SampleRun(s);
    }
    var success, ept, state :=
      WholeLife(p, cpu, SampleHandler(), readRsp, readRip, SampleSite(), env, pool, pass, 0x60_0000, ZEROS, SAMPLE_LIFE,
                ANYTHING);
    loaded := state;
    end := DispatchedRun(SAMPLE_LIFE(loaded), loaded);
  }

  lemma SampleCanLoad(p: Processor, cpu: Cpu, env: Environment, pass: Pass)
    requires p.Sound() && p.vmx == PERMISSIVE && p.region == 0x1000 && cpu.rsp == HOST_STACK
    requires env.EntryIsWritten() && pass == Pass(ClearLeaf, Unchanged, 2)
    ensures CanLoad(p, cpu, SampleHandler(), SampleSite(), env, pass, 0x60_0000, ZEROS, ANYTHING)
    ensures SampleSite().vcpu == VCPU
  {
    hide IsLoaded, Supports, WordApart, VmxonPossible, Legal, After, SampleHandler, Site.IsSound, VcpuLayout.SampleMmu;
    hide VcpuLayout.SamplePages;
    SampleIsLoaded();
    SampleSiteIsSound();
    PermissiveSupports();
    StacksAreApart();
  }
}
