/**
 VM exits: the dispatch of `handle_vm_exit`, the handlers that do something, and `vm_exit_handler` around them.
 */
module ExitHandler {
  import opened Machine
  import opened Vmx

  const CPUID := 10
  const VMXOFF := 26
  const RDMSR := 31
  const WRMSR := 32
  const EPT_VIOLATION := 48

  const DWORD := 0x1_0000_0000

  type Word32 = n: nat | n < DWORD

  datatype CpuidResult = CpuidResult(eax: Word32, ebx: Word32, ecx: Word32, edx: Word32)

  /** What the CPUID instruction answers for a leaf and a sub-leaf, and what MSRs hold. */
  type Cpuid = (Word32, Word32) -> CpuidResult

  type Msrs = Word32 -> Word

  datatype Native = Native(cpuid: Cpuid, msrs: Msrs)

  /** The signature that the hypervisor puts into EBX of leaf 0. */
  const SIGNATURE: Word32 := 0x4141_4141

  function Low32(v: Word): Word32 {
    v % DWORD
  }

  function AnswerCpuid(native: Native, g: Gprs): Gprs {
    var leaf := Low32(g.rax);
    var info := native.cpuid(leaf, 0);
    g.(rax := info.eax, rbx := if leaf == 0 then SIGNATURE else info.ebx, rcx := info.ecx, rdx := info.edx)
  }

  /** The value that EDX:EAX stand for as the write path joins it. */
  function JoinHalves(rdx: Word, rax: Word): Word {
    (rdx * DWORD) % MODULUS + Low32(rax)
  }

  function AnswerRdmsr(native: Native, g: Gprs): Gprs {
    var msr := native.msrs(Low32(g.rcx));
    g.(rdx := msr / DWORD, rax := Low32(msr))
  }

  /** The guest's registers after an exit. */
  function Answer(native: Native, reason: Word, g: Gprs): Gprs {
    if reason == CPUID then AnswerCpuid(native, g)
    else if reason == RDMSR then AnswerRdmsr(native, g)
    else g
  }

  function Updated(m: Msrs, index: Word32, value: Word): Msrs {
    (i: Word32) => if i == index then value else m(i)
  }

  /** The MSRs after an exit with these registers. */
  function MsrsAfter(m: Msrs, reason: Word, g: Gprs): Msrs {
    if reason == WRMSR then Updated(m, WrittenMsr(g).0, WrittenMsr(g).1) else m
  }

  /**
   CPUID itself, from the Intel SDM, Volume 2: leaf in EAX, sub-leaf in ECX, four results without upper halves.
   */
  predicate IsCpuid(cpuid: Cpuid, g: Gprs, h: Gprs) {
    var info := cpuid(Low32(g.rax), Low32(g.rcx));
    && h.rax == info.eax && h.rbx == info.ebx && h.rcx == info.ecx && h.rdx == info.edx
    && SamePreserved(g, h)
  }

  /** RDMSR likewise: the MSR that ECX selects goes to EDX:EAX, and the upper halves of both are cleared. */
  predicate IsRdmsr(m: Msrs, g: Gprs, h: Gprs) {
    && h.rdx < DWORD && h.rax < DWORD && h.rdx * DWORD + h.rax == m(Low32(g.rcx))
    && h.rbx == g.rbx && h.rcx == g.rcx && SamePreserved(g, h)
  }

  function EdxEax(g: Gprs): Word {
    Low32(g.rdx) * DWORD + Low32(g.rax)
  }

  /** And WRMSR: the MSR that ECX selects is written with EDX:EAX. */
  predicate IsWrmsr(g: Gprs, index: Word32, value: Word) {
    index == Low32(g.rcx) && value == EdxEax(g)
  }

  /** No other MSR changes. */
  ghost predicate WritesMsr(m: Msrs, g: Gprs, m': Msrs) {
    forall i: Word32 :: if i == Low32(g.rcx) then IsWrmsr(g, i, m'(i)) else m'(i) == m(i)
  }

  /** The processor that the hypervisor shows its guest: leaf 0 carries the signature, and sub-leaves do not exist. */
  function Shown(cpuid: Cpuid): Cpuid {
    (leaf: Word32, subleaf: Word32) =>
      var info := cpuid(leaf, 0);
      if leaf == 0 then info.(ebx := SIGNATURE) else info
  }

  /** A CPUID exit answers exactly as the instruction would on the processor that is shown. */
  lemma CpuidIsShown(native: Native, g: Gprs, h: Gprs)
    ensures IsCpuid(Shown(native.cpuid), g, h) <==> h == AnswerCpuid(native, g)
  {
  }

  /** What a processor would have to answer for the exit to be its own CPUID instruction. */
  lemma CpuidAgrees(native: Native, g: Gprs)
    ensures IsCpuid(native.cpuid, g, AnswerCpuid(native, g)) <==>
            var leaf := Low32(g.rax);
            var sub0 := native.cpuid(leaf, 0);
            native.cpuid(leaf, Low32(g.rcx)) == if leaf == 0 then sub0.(ebx := SIGNATURE) else sub0
  {
  }

  /**
   On every processor a CPUID exit is the instruction, if and only if the guest asks for a leaf other than 0 and for
   sub-leaf 0: both stand in its own registers.
   */
  lemma CpuidIsNativeIff(m: Msrs, g: Gprs)
    ensures (forall cpuid: Cpuid :: IsCpuid(cpuid, g, AnswerCpuid(Native(cpuid, m), g))) <==>
            Low32(g.rax) != 0 && Low32(g.rcx) == 0
  {
    if Low32(g.rax) != 0 && Low32(g.rcx) == 0 {
      forall cpuid: Cpuid ensures IsCpuid(cpuid, g, AnswerCpuid(Native(cpuid, m), g)) {
        CpuidAgrees(Native(cpuid, m), g);
      }
    } else {
      CpuidAgrees(Native(TELLING, m), g);
      assert !IsCpuid(TELLING, g, AnswerCpuid(Native(TELLING, m), g));
    }
  }

  /** A processor without the signature whose sub-leaf 0 differs from all others. */
  const TELLING: Cpuid :=
    (leaf: Word32, subleaf: Word32) => CpuidResult(if subleaf == 0 then 0 else 1, 0, 0, 0)

  /** A guest that asks for cache parameters, sub-leaf 1 of leaf 4, gets those of sub-leaf 0. */
  lemma SubleafIsLost(native: Native, g: Gprs)
    requires g.rax == 4 && g.rcx == 1 && native.cpuid(4, 1) != native.cpuid(4, 0)
    ensures IsCpuid(native.cpuid, g.(rcx := 0), AnswerCpuid(native, g))
    ensures !IsCpuid(native.cpuid, g, AnswerCpuid(native, g))
  {
  }

  /** An RDMSR exit is the instruction, for every MSR and all registers. */
  lemma RdmsrIsNative(native: Native, g: Gprs, h: Gprs)
    ensures IsRdmsr(native.msrs, g, h) <==> h == AnswerRdmsr(native, g)
  {
  }

  /** Joining the halves of a value gives it back, and the upper halves of the registers do not matter. */
  lemma SplitThenJoin(v: Word, rdx: Word, rax: Word)
    ensures JoinHalves(v / DWORD, Low32(v)) == v
    ensures Low32(rdx) == v / DWORD && Low32(rax) == Low32(v) <==> JoinHalves(rdx, rax) == v
  {
    HighHalf(rdx);
    HighHalf(v / DWORD);
  }

  lemma HighHalf(v: Word)
    ensures (v * DWORD) % MODULUS == Low32(v) * DWORD
  {
    assert v == (v / DWORD) * DWORD + Low32(v);
    assert v * DWORD == (v / DWORD) * MODULUS + Low32(v) * DWORD;
  }

  /** What a WRMSR exit does: the index is taken from `rax`, where the read path takes it from `rcx`. */
  function WrittenMsr(g: Gprs): (Word32, Word) {
    (Low32(g.rax), JoinHalves(g.rdx, g.rax))
  }

  /** A WRMSR exit always writes the right value, and is the instruction if and only if EAX happens to equal ECX. */
  lemma WrmsrIsNativeIff(g: Gprs)
    ensures WrittenMsr(g).1 == EdxEax(g)
    ensures IsWrmsr(g, WrittenMsr(g).0, WrittenMsr(g).1) <==> Low32(g.rax) == Low32(g.rcx)
  {
    HighHalf(g.rdx);
  }

  /** Both MSRs already hold the value, so that it does not show which one is written. */
  predicate HoldsAlready(m: Msrs, g: Gprs) {
    m(Low32(g.rax)) == EdxEax(g) && m(Low32(g.rcx)) == EdxEax(g)
  }

  /**
   What the exit leaves in all MSRs is what the instruction leaves there, if and only if EAX equals ECX or it
   does not show.
   */
  lemma WrmsrLeavesIff(m: Msrs, g: Gprs)
    ensures WritesMsr(m, g, MsrsAfter(m, WRMSR, g)) <==> Low32(g.rax) == Low32(g.rcx) || HoldsAlready(m, g)
  {
    hide EdxEax, JoinHalves, Low32;
    WrmsrIsNativeIff(g);
    var m' := MsrsAfter(m, WRMSR, g);
    if WritesMsr(m, g, m') {
      assert m'(Low32(g.rax)) == EdxEax(g);
      assert IsWrmsr(g, Low32(g.rcx), m'(Low32(g.rcx)));
    }
  }

  /**
   A guest that reads an MSR and writes the value back has the value arrive intact, but in the right MSR if and
   only if the low half of the value happens to be the MSR's index.
   */
  lemma WriteBack(native: Native, g: Gprs)
    ensures var value := native.msrs(Low32(g.rcx));
            var written := WrittenMsr(AnswerRdmsr(native, g));
            written.1 == value && (written.0 == Low32(g.rcx) <==> Low32(value) == Low32(g.rcx))
  {
    var value := native.msrs(Low32(g.rcx));
    SplitThenJoin(value, 0, 0);
    SmallLow32(value);
  }

  lemma SmallLow32(v: Word)
    ensures Low32(Low32(v)) == Low32(v)
  {
  }

  /** Writing back an MSR that holds 0 hits MSR 0 instead, whatever the guest's registers. */
  lemma WriteBackMisses(g: Gprs)
    requires Low32(g.rcx) != 0
    ensures var zeros := Native((_: Word32, _: Word32) => CpuidResult(0, 0, 0, 0), (_: Word32) => 0);
            WrittenMsr(AnswerRdmsr(zeros, g)) == (0, 0) && WrittenMsr(AnswerRdmsr(zeros, g)).0 != Low32(g.rcx)
  {
  }

  /** What no exit touches: the registers that the handlers never write. */
  predicate SamePreserved(g: Gprs, h: Gprs) {
    && g.rbp == h.rbp && g.rsi == h.rsi && g.rdi == h.rdi
    && g.r8 == h.r8 && g.r9 == h.r9 && g.r10 == h.r10 && g.r11 == h.r11
    && g.r12 == h.r12 && g.r13 == h.r13 && g.r14 == h.r14 && g.r15 == h.r15
  }

  lemma AnswerPreserves(native: Native, reason: Word, g: Gprs)
    ensures SamePreserved(g, Answer(native, reason, g))
    ensures reason != CPUID && reason != RDMSR ==> Answer(native, reason, g) == g
  {
  }

  /** The VMX instructions of the handler when it leaves VMX operation, and when it makes `n` VMREADs and moves RIP. */
  function Leaving(region: nat): (t: seq<Event>)
    ensures |t| == 6
  {
    [Vmread, Vmread, Vmread, Vmread, Vmclear(region), Vmxoff]
  }

  function Moving(n: nat): seq<Event> {
    if n == 0 then [Vmwrite] else [Vmread] + Moving(n - 1)
  }

  /** The exit reason is read first; the EPT-violation handler reads two fields more; RIP and length come last. */
  function ReadCount(reason: Word): nat {
    if reason == EPT_VIOLATION then 5 else 3
  }

  function HandlerTrace(reason: Word, region: nat): seq<Event> {
    if reason == VMXOFF then Leaving(region) else Moving(ReadCount(reason))
  }

  /** One exit, from the guest to VMRESUME or out of VMX operation. */
  function ExitTrace(reason: Word, region: nat): seq<Event> {
    [Exit] + (HandlerTrace(reason, region) + if reason == VMXOFF then [] else [Vmresume])
  }

  lemma ExitTraceParts(t: seq<Event>, reason: Word, region: nat)
    ensures reason == VMXOFF ==> t + [Exit] + HandlerTrace(reason, region) == t + ExitTrace(reason, region)
    ensures reason != VMXOFF ==> t + [Exit] + HandlerTrace(reason, region) + [Vmresume] == t + ExitTrace(reason, region)
  {
    hide HandlerTrace;
  }

  /** A guest runs on this processor under the VMCS at `region`, which has been launched. */
  predicate GuestRuns(s: VmxState, region: nat) {
    && s.on && s.guest && s.current == Vmcs(region) && region != s.vmxonRegion
    && region in s.regions && s.regions[region] == Launched
  }

  /** One exit is legal for every reason; it ends with the guest running, or with VMX off if the reason is VMXOFF. */
  lemma ExitIsLegal(s: VmxState, reason: Word, region: nat)
    requires GuestRuns(s, region)
    ensures Legal(s, ExitTrace(reason, region))
    ensures var after := After(s, ExitTrace(reason, region));
            if reason == VMXOFF then Released(after, region) else after == s
  {
    var root := Next(s, Exit);
    if reason == VMXOFF {
      LeavingIsLegal(root, region);
      assert HandlerTrace(reason, region) + [] == Leaving(region);
      Unroll(s, Exit, Leaving(region));
    } else {
      MovingIsLegal(root, region, ReadCount(reason));
      Unroll(root, Vmresume, []);
      assert [Vmresume] + [] == [Vmresume];
      Compose(root, Moving(ReadCount(reason)), [Vmresume]);
      Unroll(s, Exit, Moving(ReadCount(reason)) + [Vmresume]);
    }
  }

  lemma MovingUnrolled()
    ensures Moving(3) == [Vmread, Vmread, Vmread, Vmwrite]
    ensures Moving(5) == [Vmread, Vmread, Vmread, Vmread, Vmread, Vmwrite]
  {
    assert Moving(2) == [Vmread] + ([Vmread] + [Vmwrite]);
    assert Moving(4) == [Vmread] + ([Vmread] + Moving(2));
  }

  lemma LeavingParts(t: seq<Event>, region: nat)
    ensures t + [Vmread] + [Vmread] + [Vmread] + [Vmclear(region)] + [Vmxoff] == t + Leaving(region)[1..]
  {
    assert Leaving(region)[1..] == [Vmread] + [Vmread] + [Vmread] + [Vmclear(region)] + [Vmxoff];
  }

  /** What `vm_exit_handler` and the dispatch issue, put together. */
  lemma HandlerTraceParts(t: seq<Event>, reason: Word, region: nat)
    ensures reason == VMXOFF ==> t + [Vmread] + Leaving(region)[1..] == t + HandlerTrace(reason, region)
    ensures reason != VMXOFF ==>
              t + [Vmread] + (if reason == EPT_VIOLATION then [Vmread, Vmread] else []) +
              [Vmread] + [Vmread] + [Vmwrite] ==
              t + HandlerTrace(reason, region)
  {
    MovingUnrolled();
  }

  predicate Handles(s: VmxState, region: nat) {
    HasCurrent(s) && s.current == Vmcs(region) && region != s.vmxonRegion && s.regions[region] == Launched
  }

  /** In the handler VMREADs change nothing, and VMCLEAR and VMXOFF behind them release the region. */
  lemma LeavingReleases(s: VmxState, region: nat)
    requires Handles(s, region)
    ensures Permits(s, Vmread) && Next(s, Vmread) == s && Permits(s, Vmclear(region))
    ensures var cleared := Next(s, Vmclear(region));
            Permits(cleared, Vmxoff) && Released(Next(cleared, Vmxoff), region)
  {
    hide VmxonPossible;
  }

  lemma ReadFirst(s: VmxState, region: nat, rest: seq<Event>)
    requires Handles(s, region)
    ensures After(s, [Vmread] + rest) == After(s, rest)
    ensures Legal(s, [Vmread] + rest) <==> Legal(s, rest)
  {
    hide Legal, After, VmxonPossible;
    Unroll(s, Vmread, rest);
  }

  lemma ClearAndLeave(s: VmxState, region: nat)
    requires Handles(s, region)
    ensures Legal(s, [Vmclear(region)] + [Vmxoff])
    ensures Released(After(s, [Vmclear(region)] + [Vmxoff]), region)
  {
    hide VmxonPossible;
    Unroll(s, Vmclear(region), [Vmxoff]);
  }

  lemma LeavingIsLegal(s: VmxState, region: nat)
    requires Handles(s, region)
    ensures Legal(s, Leaving(region)) && Released(After(s, Leaving(region)), region)
  {
    hide Legal, After, Handles;
    var tail := [Vmclear(region)] + [Vmxoff];
    assert Leaving(region) == [Vmread] + ([Vmread] + ([Vmread] + ([Vmread] + tail)));
    ClearAndLeave(s, region);
    ReadFirst(s, region, tail);
    ReadFirst(s, region, [Vmread] + tail);
    ReadFirst(s, region, [Vmread] + ([Vmread] + tail));
    ReadFirst(s, region, [Vmread] + ([Vmread] + ([Vmread] + tail)));
  }

  lemma {:induction false} MovingIsLegal(s: VmxState, region: nat, n: nat)
    requires Handles(s, region)
    ensures Legal(s, Moving(n)) && After(s, Moving(n)) == s
  {
    if n == 0 {
      assert Moving(0) == [Vmwrite] + [];
      Unroll(s, Vmwrite, []);
    } else {
      MovingIsLegal(s, region, n - 1);
      Unroll(s, Vmread, Moving(n - 1));
    }
  }

  /** A processor in the hands of `vm_exit_handler`: its VMX state, its VMCS, and its virtual processor. */
  class Processor {
    const region: nat
    var native: Native
    var vmx: VmxState
    var vmcs: VmcsFields
    var guest: Gprs
    var contextRip: Word
    var contextRsp: Word
    var msrWrites: seq<(Word32, Word)>
    ghost const start: VmxState
    ghost var trace: seq<Event>

    /** Everything issued so far was permitted when it was issued. */
    ghost predicate Sound()
      reads `vmx, `trace
    {
      Legal(start, trace) && After(start, trace) == vmx
    }

    constructor (region: nat, native: Native, vmx: VmxState, vmcs: VmcsFields, guest: Gprs)
      ensures this.region == region && this.native == native && this.vmx == vmx && this.vmcs == vmcs &&
              this.guest == guest
      ensures msrWrites == [] && trace == [] && start == vmx && Sound()
    {
      this.region := region;
      this.native := native;
      this.vmx := vmx;
      this.vmcs := vmcs;
      this.guest := guest;
      contextRip := 0;
      contextRsp := 0;
      msrWrites := [];
      trace := [];
      start := vmx;
    }

    /** An instruction can only be issued in a state that permits it. */
    method Issue(e: Event)
      requires Sound() && Permits(vmx, e)
      modifies `vmx, `trace
      ensures Sound() && vmx == Next(old(vmx), e) && trace == old(trace) + [e]
    {
      Compose(start, trace, [e]);
      Unroll(vmx, e, []);
      assert [e] + [] == [e];
      vmx := Next(vmx, e);
      trace := trace + [e];
    }

    /** The same, when the instruction may report a failure and then has no effect. */
    method Attempt(e: Event, fails: bool) returns (failed: bool)
      requires Sound() && Permits(vmx, e)
      modifies `vmx, `trace
      ensures Sound()
      ensures failed == fails
      ensures vmx == (if fails then old(vmx) else Next(old(vmx), e)) && trace == old(trace) + if fails then [] else [e]
    {
      if !fails {
        Issue(e);
      }
      failed := fails;
    }

    /** A VMWRITE that succeeds. */
    method WriteField(w: FieldWrite)
      requires Sound() && HasCurrent(vmx)
      modifies `vmx, `trace, `vmcs
      ensures Sound() && vmx == old(vmx) && trace == old(trace) + [Vmwrite] && vmcs == Store(old(vmcs), w)
    {
      Issue(Vmwrite);
      vmcs := Store(vmcs, w);
    }

    /** A VM exit: where the guest was goes to the VMCS, and the processor goes on in the host. */
    method VmExit(cpu: Cpu, reason: Word, length: Word)
      requires Sound() && vmx.on && vmx.guest
      modifies `vmx, `trace, `vmcs, cpu`rip, cpu`rsp
      ensures Sound() && vmx == Next(old(vmx), Exit) && trace == old(trace) + [Exit]
      ensures vmcs == old(vmcs).(exitReason := reason, instructionLength := length,
                                 guestRip := old(cpu.rip), guestRsp := old(cpu.rsp))
      ensures cpu.rip == vmcs.hostRip && cpu.rsp == vmcs.hostRsp
    {
      Issue(Exit);
      vmcs := vmcs.(exitReason := reason, instructionLength := length, guestRip := cpu.rip, guestRsp := cpu.rsp);
      cpu.rip := vmcs.hostRip;
      cpu.rsp := vmcs.hostRsp;
    }

    /** VMLAUNCH or VMRESUME: the processor goes on where the VMCS says that the guest is. */
    method VmEntry(cpu: Cpu, e: Event)
      requires Sound() && (e == Vmlaunch || e == Vmresume) && Permits(vmx, e)
      modifies `vmx, `trace, cpu`rip, cpu`rsp
      ensures Sound() && vmx == Next(old(vmx), e) && trace == old(trace) + [e]
      ensures cpu.rip == vmcs.guestRip && cpu.rsp == vmcs.guestRsp
    {
      Issue(e);
      cpu.rip := vmcs.guestRip;
      cpu.rsp := vmcs.guestRsp;
    }

    method VmexitCpuid()
      modifies `guest
      ensures IsCpuid(Shown(native.cpuid), old(guest), guest)
      ensures Low32(old(guest.rax)) == 0 ==> guest.rbx == 0x4141_4141
    {
      var leaf := Low32(guest.rax);
      var info := native.cpuid(leaf, 0);
      if leaf == 0 {
        info := info.(ebx := SIGNATURE);
      }
      guest := guest.(rax := info.eax);
      guest := guest.(rbx := info.ebx);
      guest := guest.(rcx := info.ecx);
      guest := guest.(rdx := info.edx);
    }

    method VmexitRdmsr()
      modifies `guest
      ensures IsRdmsr(native.msrs, old(guest), guest)
    {
      var msr := native.msrs(Low32(guest.rcx));
      guest := guest.(rdx := msr / DWORD);
      guest := guest.(rax := msr % DWORD);
    }

    /** `msrWrites` logs the instructions; the processor's MSRs change with them. */
    method VmexitWrmsr()
      modifies `msrWrites, `native
      ensures native == old(native).(msrs := Updated(old(native.msrs), Low32(guest.rax), EdxEax(guest)))
      ensures msrWrites == old(msrWrites) + [(Low32(guest.rax), EdxEax(guest))]
      ensures var (index, value) := msrWrites[|msrWrites| - 1];
              IsWrmsr(guest, index, value) <==> Low32(guest.rax) == Low32(guest.rcx)
    {
      HighHalf(guest.rdx);
      var index, value := Low32(guest.rax), JoinHalves(guest.rdx, guest.rax);
      msrWrites := msrWrites + [(index, value)];
      native := native.(msrs := Updated(native.msrs, index, value));
    }

    method VmexitVmxoff() returns (incrementRip: bool)
      requires Sound() && Handles(vmx, region)
      modifies `vmx, `trace, `contextRip, `contextRsp
      ensures Sound() && !incrementRip && Released(vmx, region)
      ensures contextRip == Add(vmcs.guestRip, vmcs.instructionLength) && contextRsp == vmcs.guestRsp
      ensures trace == old(trace) + Leaving(region)[1..]
    {
      hide Legal, After, Permits, Next, Handles, Released, Leaving, Add;
      LeavingParts(trace, region);
      LeavingReleases(vmx, region);
      Issue(Vmread);
      Issue(Vmread);
      contextRip := Add(vmcs.guestRip, vmcs.instructionLength);
      Issue(Vmread);
      contextRsp := vmcs.guestRsp;
      Issue(Vmclear(region));
      Issue(Vmxoff);
      incrementRip := false;
    }

    /** The dispatch.  Reasons without a case, and those whose handlers are empty, do nothing. */
    method HandleVmExit(reason: Word) returns (incrementRip: bool)
      requires Sound() && Handles(vmx, region)
      modifies `guest, `vmx, `trace, `contextRip, `contextRsp, `msrWrites, `native
      ensures reason == 10 ==> IsCpuid(Shown(old(native.cpuid)), old(guest), guest)
      ensures reason == 31 ==> IsRdmsr(old(native.msrs), old(guest), guest)
      ensures reason == 32 ==> native.msrs == Updated(old(native.msrs), Low32(old(guest.rax)), EdxEax(old(guest)))
      ensures reason != 10 && reason != 31 ==> guest == old(guest)
      ensures reason != 32 ==> native == old(native)
      ensures reason == 26 <==> !incrementRip
      ensures guest == Answer(old(native), reason, old(guest))
      ensures native == old(native).(msrs := MsrsAfter(old(native.msrs), reason, old(guest)))
      ensures Sound() && (incrementRip <==> reason != VMXOFF)
      ensures reason != VMXOFF ==>
                vmx == old(vmx) && contextRip == old(contextRip) && contextRsp == old(contextRsp) &&
                trace == old(trace) + if reason == 48 then [Vmread, Vmread] else []
      ensures reason == VMXOFF ==>
                Released(vmx, region) &&
                contextRip == Add(vmcs.guestRip, vmcs.instructionLength) && contextRsp == vmcs.guestRsp &&
                trace == old(trace) + Leaving(region)[1..]
      ensures msrWrites == old(msrWrites) + if reason == WRMSR then [WrittenMsr(old(guest))] else []
    {
      hide JoinHalves, Leaving, Legal, After, IsCpuid, IsRdmsr, IsWrmsr, Shown, Add, VmxonPossible, Updated;
      incrementRip := true;
      if reason == CPUID {
        ghost var before := guest;
        VmexitCpuid();
        CpuidIsShown(native, before, guest);
      } else if reason == VMXOFF {
        incrementRip := VmexitVmxoff();
      } else if reason == RDMSR {
        ghost var before := guest;
        VmexitRdmsr();
        RdmsrIsNative(native, before, guest);
      } else if reason == WRMSR {
        VmexitWrmsr();
        WrmsrIsNativeIff(guest);
      } else if reason == EPT_VIOLATION {
        Issue(Vmread);
        Issue(Vmread);
      }
    }

    /**
     `vm_exit_handler`.  It returns 0 if and only if RIP was moved past the instruction and the processor is still
     in VMX operation, ready to resume; it returns 1 if and only if VMX operation was left, with RIP and RSP for
     the hand-over in `guest_context`.
     */
    method VmExitHandler() returns (r: int)
      requires Sound() && Handles(vmx, region)
      modifies `guest, `vmx, `trace, `vmcs, `contextRip, `contextRsp, `msrWrites, `native
      ensures Sound() && r == if old(vmcs.exitReason) == 26 then 1 else 0
      ensures r == 0 ==>
                vmx == old(vmx) &&
                vmcs == old(vmcs).(guestRip := Add(old(vmcs.guestRip), old(vmcs.instructionLength))) &&
                contextRip == old(contextRip) && contextRsp == old(contextRsp)
      ensures r == 1 ==>
                Released(vmx, region) && vmcs == old(vmcs) &&
                contextRip == Add(old(vmcs.guestRip), old(vmcs.instructionLength)) && contextRsp == old(vmcs.guestRsp)
      ensures guest == Answer(old(native), old(vmcs.exitReason), old(guest))
      ensures native == old(native).(msrs := MsrsAfter(old(native.msrs), old(vmcs.exitReason), old(guest)))
      ensures msrWrites == old(msrWrites) + if old(vmcs.exitReason) == WRMSR then [WrittenMsr(old(guest))] else []
      ensures trace == old(trace) + HandlerTrace(old(vmcs.exitReason), region)
    {
      hide Answer, JoinHalves, Add, Legal, After, HandlerTrace, VmxonPossible, WrittenMsr, MsrsAfter;
      HandlerTraceParts(trace, vmcs.exitReason, region);
      Issue(Vmread);
      var reason := vmcs.exitReason;
      var incrementRip := HandleVmExit(reason);
      if incrementRip {
        Issue(Vmread);
        Issue(Vmread);
        WriteField(GuestRip(Add(vmcs.guestRip, vmcs.instructionLength)));
      }
      r := if reason == VMXOFF then 1 else 0;
    }
  }
}
