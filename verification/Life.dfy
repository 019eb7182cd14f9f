/**
 The life of a guest between launch and VMXOFF: arbitrary guest code, and between its pieces the exits it causes.
 The instructions issued on the way are legal, the machine does what the dispatch says and nothing else, and it is
 stated when that is what a processor without hypervisor would have done.
 */
module Life {
  import opened Machine
  import opened Vmx
  import opened VirtualCpu
  import opened WorldSwitch
  import opened ExitHandler
  import opened RoundTrip

  /** Traces of the guest's exits, one after the other, up to the first VMXOFF. */
  function LifeTrace(reasons: seq<Word>, region: nat): seq<Event> {
    if reasons == [] then []
    else ExitTrace(reasons[0], region) + if reasons[0] == VMXOFF then [] else LifeTrace(reasons[1..], region)
  }

  /** The last two instructions: the VMCS is cleared, then VMX operation is left. */
  predicate EndsInRelease(t: seq<Event>, region: nat) {
    |t| >= 2 && t[|t| - 2] == Vmclear(region) && t[|t| - 1] == Vmxoff
  }

  /**
   Whatever the exits, every VMX instruction is issued in a state that permits it; VMLAUNCH is never issued again,
   VMXOFF at most once, right behind the VMCLEAR of the region and as the last instruction, and VMX operation is left,
   with no active VMCS, if and only if the guest asked for it.
   */
  lemma {:induction false} LifeIsLegal(s: VmxState, reasons: seq<Word>, region: nat)
    requires GuestRuns(s, region)
    ensures var t := LifeTrace(reasons, region);
            && Legal(s, t)
            && (After(s, t).on <==> VMXOFF !in reasons)
            && Count(t, Vmlaunch) == 0
            && Count(t, Vmxoff) == (if VMXOFF in reasons then 1 else 0)
            && (VMXOFF in reasons ==> EndsInRelease(t, region) && Released(After(s, t), region))
  {
    if reasons != [] {
      hide ExitTrace, Legal, After, Count, GuestRuns, Released, EndsInRelease;
      var first := ExitTrace(reasons[0], region);
      RunsOrReleased(s, region);
      ExitIsLegal(s, reasons[0], region);
      ExitCounts(reasons[0], region);
      assert reasons == [reasons[0]] + reasons[1..];
      if reasons[0] == VMXOFF {
        assert first + [] == first;
      } else {
        var rest := LifeTrace(reasons[1..], region);
        LifeIsLegal(s, reasons[1..], region);
        Compose(s, first, rest);
        CountCompose(first, rest, Vmlaunch);
        CountCompose(first, rest, Vmxoff);
        EndsAlike(first, rest, region);
      }
    }
  }

  lemma EndsAlike(first: seq<Event>, rest: seq<Event>, region: nat)
    ensures EndsInRelease(rest, region) ==> EndsInRelease(first + rest, region)
  {
  }

  lemma RunsOrReleased(s: VmxState, region: nat)
    ensures GuestRuns(s, region) ==> s.on
    ensures forall after: VmxState :: Released(after, region) ==> !after.on
  {
  }

  lemma ExitCounts(reason: Word, region: nat)
    ensures var t := ExitTrace(reason, region);
            && Count(t, Vmlaunch) == 0
            && Count(t, Vmxoff) == (if reason == VMXOFF then 1 else 0)
            && (reason == VMXOFF ==> EndsInRelease(t, region))
  {
    forall x | x == Vmlaunch || x == Vmxoff
      ensures Count(ExitTrace(reason, region), x) == if reason == VMXOFF && x == Vmxoff then 1 else 0
    {
      var tail := if reason == VMXOFF then [] else [Vmresume];
      CountFirst(Exit, HandlerTrace(reason, region) + tail, x);
      CountCompose(HandlerTrace(reason, region), tail, x);
      CountFirst(Vmresume, [], x);
      MovingCounts(ReadCount(reason), x);
      LeavingCounts(region);
    }
  }

  lemma {:induction false} MovingCounts(n: nat, x: Event)
    requires x == Vmlaunch || x == Vmxoff
    ensures Count(Moving(n), x) == 0
  {
    if n == 0 {
      CountFirst(Vmwrite, [], x);
    } else {
      CountFirst(Vmread, Moving(n - 1), x);
      MovingCounts(n - 1, x);
    }
  }

  lemma LeavingCounts(region: nat)
    ensures Count(Leaving(region), Vmlaunch) == 0 && Count(Leaving(region), Vmxoff) == 1
  {
    forall x | x == Vmlaunch || x == Vmxoff ensures Count(Leaving(region), x) == if x == Vmxoff then 1 else 0 {
      assert Leaving(region) == [Vmread] + ([Vmread] + ([Vmread] + ([Vmread] + ([Vmclear(region)] + ([Vmxoff] + [])))));
      CountFirst(Vmread, [Vmread] + ([Vmread] + ([Vmread] + ([Vmclear(region)] + ([Vmxoff] + [])))), x);
      CountFirst(Vmread, [Vmread] + ([Vmread] + ([Vmclear(region)] + ([Vmxoff] + []))), x);
      CountFirst(Vmread, [Vmread] + ([Vmclear(region)] + ([Vmxoff] + [])), x);
      CountFirst(Vmread, [Vmclear(region)] + ([Vmxoff] + []), x);
      CountFirst(Vmclear(region), [Vmxoff] + [], x);
      CountFirst(Vmxoff, [], x);
    }
  }

  /** What guest code works on.  MSRs whose accesses do not exit are the business of the code itself. */
  datatype GuestState = GuestState(g: Gprs, rsp: Word, rip: Word, mem: Memory, msrs: Msrs)

  /**
   A piece of guest code up to an instruction or event that exits: what the code does, why it exits, how long the
   instruction is, what the processor's CPUID answers then, and what the processor itself would have done for any
   reason other than CPUID, RDMSR and WRMSR.
   */
  datatype Stretch = Stretch(
    code: GuestState -> GuestState, reason: Word, length: Word, cpuid: Cpuid, effect: GuestState -> GuestState)
  {
    /** The same on another processor. */
    function On(other: Cpuid): Stretch {
      this.(cpuid := other)
    }
  }

  function Reasons(stretches: seq<Stretch>): (rs: seq<Word>)
    ensures |rs| == |stretches| && forall k :: 0 <= k < |rs| ==> rs[k] == stretches[k].reason
  {
    if stretches == [] then [] else [stretches[0].reason] + Reasons(stretches[1..])
  }

  /** What the dispatch makes of the guest's state: registers and MSRs as it says, and RIP behind the instruction. */
  function Dispatched(t: Stretch, s: GuestState): GuestState {
    s.(g := Answer(Native(t.cpuid, s.msrs), t.reason, s.g), rip := Add(s.rip, t.length),
       msrs := MsrsAfter(s.msrs, t.reason, s.g))
  }

  /** The guest's code with the dispatch in between, up to the first VMXOFF. */
  function DispatchedRun(stretches: seq<Stretch>, s: GuestState): GuestState
    decreases |stretches|
  {
    if stretches == [] then s
    else
      var next := Dispatched(stretches[0], stretches[0].code(s));
      if stretches[0].reason == VMXOFF then next else DispatchedRun(stretches[1..], next)
  }

  /**
   A processor without hypervisor: CPUID, RDMSR and WRMSR are the instructions of the Intel SDM, Volume 2, on its own
   MSRs, and everything else does whatever it does.
   */
  ghost predicate IsNativeStep(t: Stretch, s: GuestState, s': GuestState) {
    var next := s.(rip := Add(s.rip, t.length));
    if t.reason == CPUID then s' == next.(g := s'.g) && IsCpuid(t.cpuid, s.g, s'.g)
    else if t.reason == RDMSR then s' == next.(g := s'.g) && IsRdmsr(s.msrs, s.g, s'.g)
    else if t.reason == WRMSR then s' == next.(msrs := s'.msrs) && WritesMsr(s.msrs, s.g, s'.msrs)
    else s' == t.effect(s)
  }

  /**
   What the guest can read off its own state: a leaf other than 0 and sub-leaf 0; EAX equal to ECX, or two MSRs that
   hold the value already; and an instruction that does nothing on the processor either.
   */
  ghost predicate LooksNative(t: Stretch, s: GuestState) {
    if t.reason == CPUID then Low32(s.g.rax) != 0 && Low32(s.g.rcx) == 0
    else if t.reason == RDMSR then true
    else if t.reason == WRMSR then Low32(s.g.rax) == Low32(s.g.rcx) || HoldsAlready(s.msrs, s.g)
    else t.effect(s) == s.(rip := Add(s.rip, t.length))
  }

  /** An exit is what every processor would have done by itself, if and only if it looks so. */
  lemma StepIsNativeIff(t: Stretch, s: GuestState)
    ensures (forall cpuid: Cpuid :: IsNativeStep(t.On(cpuid), s, Dispatched(t.On(cpuid), s))) <==> LooksNative(t, s)
  {
    hide IsCpuid, IsRdmsr, WritesMsr, Answer, MsrsAfter, HoldsAlready, Low32, Add;
    if t.reason == CPUID {
      CpuidStepIsNativeIff(t, s);
    } else {
      forall cpuid: Cpuid ensures IsNativeStep(t.On(cpuid), s, Dispatched(t.On(cpuid), s)) <==> LooksNative(t, s) {
        OtherStepIsNativeIff(t.On(cpuid), s);
      }
      assert IsNativeStep(t.On(t.cpuid), s, Dispatched(t.On(t.cpuid), s)) <==> LooksNative(t, s);
    }
  }

  lemma CpuidStepIsNativeIff(t: Stretch, s: GuestState)
    requires t.reason == CPUID
    ensures (forall cpuid: Cpuid :: IsNativeStep(t.On(cpuid), s, Dispatched(t.On(cpuid), s))) <==> LooksNative(t, s)
  {
    hide IsCpuid, AnswerCpuid, Low32, Add;
    CpuidIsNativeIff(s.msrs, s.g);
    forall cpuid: Cpuid
      ensures IsNativeStep(t.On(cpuid), s, Dispatched(t.On(cpuid), s)) <==>
              IsCpuid(cpuid, s.g, AnswerCpuid(Native(cpuid, s.msrs), s.g))
    {
    }
  }

  lemma OtherStepIsNativeIff(t: Stretch, s: GuestState)
    requires t.reason != CPUID
    ensures IsNativeStep(t, s, Dispatched(t, s)) <==> LooksNative(t, s)
  {
    hide IsRdmsr, WritesMsr, AnswerRdmsr, HoldsAlready, Low32, Add;
    RdmsrIsNative(Native(t.cpuid, s.msrs), s.g, AnswerRdmsr(Native(t.cpuid, s.msrs), s.g));
    WrmsrLeavesIff(s.msrs, s.g);
  }

  /** The same state on a processor with other MSRs. */
  function WithMsrs(s: GuestState, m: Msrs): GuestState {
    s.(msrs := m)
  }

  /** For the three instructions that the dispatch answers, the guest's registers alone decide. */
  predicate RegistersAllow(reason: Word, g: Gprs) {
    && (reason == CPUID ==> Low32(g.rax) != 0 && Low32(g.rcx) == 0)
    && (reason == WRMSR ==> Low32(g.rax) == Low32(g.rcx))
  }

  /** On every processor with any MSRs the exit is the instruction, if and only if the registers allow it. */
  lemma RegistersDecide(t: Stretch, s: GuestState)
    requires t.reason == CPUID || t.reason == RDMSR || t.reason == WRMSR
    ensures (forall m: Msrs, cpuid: Cpuid ::
               IsNativeStep(t.On(cpuid), WithMsrs(s, m), Dispatched(t.On(cpuid), WithMsrs(s, m)))) <==>
            RegistersAllow(t.reason, s.g)
  {
    hide IsNativeStep, Dispatched, Low32, EdxEax;
    forall m: Msrs
      ensures (forall cpuid: Cpuid ::
                 IsNativeStep(t.On(cpuid), WithMsrs(s, m), Dispatched(t.On(cpuid), WithMsrs(s, m)))) <==>
              LooksNative(t, WithMsrs(s, m))
    {
      StepIsNativeIff(t, WithMsrs(s, m));
    }
    var other: Msrs := _ => Add(EdxEax(s.g), 1);
    assert !HoldsAlready(other, s.g);
    assert LooksNative(t, WithMsrs(s, other)) <==> RegistersAllow(t.reason, s.g);
  }

  /** Every exit of the run looks native, whatever CPUID answered at the exits before. */
  ghost predicate AlwaysLooksNative(stretches: seq<Stretch>, s: GuestState)
    decreases |stretches|
  {
    stretches == [] ||
    (var t, before := stretches[0], stretches[0].code(s);
     && LooksNative(t, before)
     && (t.reason != VMXOFF ==>
           forall cpuid: Cpuid :: AlwaysLooksNative(stretches[1..], Dispatched(t.On(cpuid), before))))
  }

  /** Every exit of the run is what the processor would have done by itself, whichever processor it is. */
  ghost predicate IsAlwaysNative(stretches: seq<Stretch>, s: GuestState)
    decreases |stretches|
  {
    stretches == [] ||
    (var t, before := stretches[0], stretches[0].code(s);
     forall cpuid: Cpuid ::
       && IsNativeStep(t.On(cpuid), before, Dispatched(t.On(cpuid), before))
       && (t.reason != VMXOFF ==> IsAlwaysNative(stretches[1..], Dispatched(t.On(cpuid), before))))
  }

  /** A run of any length on any processor: transparent if and only if every exit looks so to the guest. */
  lemma {:induction false} RunIsNativeIff(stretches: seq<Stretch>, s: GuestState)
    ensures IsAlwaysNative(stretches, s) <==> AlwaysLooksNative(stretches, s)
    decreases |stretches|
  {
    hide IsNativeStep, LooksNative, Dispatched;
    if stretches != [] {
      var t, before := stretches[0], stretches[0].code(s);
      StepIsNativeIff(t, before);
      forall cpuid: Cpuid
        ensures IsAlwaysNative(stretches[1..], Dispatched(t.On(cpuid), before)) <==>
                AlwaysLooksNative(stretches[1..], Dispatched(t.On(cpuid), before))
      {
        RunIsNativeIff(stretches[1..], Dispatched(t.On(cpuid), before));
      }
    }
  }

  /** On the processor at hand, every exit of the run looks native. */
  ghost predicate RunLooksNative(stretches: seq<Stretch>, s: GuestState)
    decreases |stretches|
  {
    stretches == [] ||
    (var t, before := stretches[0], stretches[0].code(s);
     LooksNative(t, before) && (t.reason != VMXOFF ==> RunLooksNative(stretches[1..], Dispatched(t, before))))
  }

  /** The guest's code on a processor without hypervisor gets from one state to the other, up to the first VMXOFF. */
  ghost predicate IsNativeRun(stretches: seq<Stretch>, s: GuestState, s': GuestState)
    decreases |stretches|
  {
    if stretches == [] then s' == s
    else
      var t, before := stretches[0], stretches[0].code(s);
      exists next :: IsNativeStep(t, before, next) &&
        if t.reason == VMXOFF then s' == next else IsNativeRun(stretches[1..], next, s')
  }

  /** Then the run of the dispatch is a run of that processor. */
  lemma {:induction false} DispatchedRunIsNative(stretches: seq<Stretch>, s: GuestState)
    requires RunLooksNative(stretches, s)
    ensures IsNativeRun(stretches, s, DispatchedRun(stretches, s))
    decreases |stretches|
  {
    hide IsNativeStep, LooksNative, Dispatched;
    if stretches != [] {
      var t, before := stretches[0], stretches[0].code(s);
      StepIsNativeIff(t, before);
      assert t.On(t.cpuid) == t;
      assert IsNativeStep(t.On(t.cpuid), before, Dispatched(t.On(t.cpuid), before));
      if t.reason != VMXOFF {
        DispatchedRunIsNative(stretches[1..], Dispatched(t, before));
      }
    }
  }

  /** A guest writes `value` to an MSR and reads that MSR back. */
  function WriteThenRead(index: Word32, value: Word32): seq<Stretch> {
    var load := (s: GuestState) => s.(g := s.g.(rcx := index, rdx := 0, rax := value));
    var again := (s: GuestState) => s.(g := s.g.(rcx := index));
    var silent: Cpuid := (_: Word32, _: Word32) => CpuidResult(0, 0, 0, 0);
    [Stretch(load, WRMSR, 2, silent, load), Stretch(again, RDMSR, 2, silent, again)]
  }

  lemma RunOfOne(t: Stretch, s: GuestState)
    ensures DispatchedRun([t], s) == Dispatched(t, t.code(s))
    ensures forall s' :: IsNativeRun([t], s, s') <==> IsNativeStep(t, t.code(s), s')
  {
    hide Dispatched, IsNativeStep;
    assert [t][1..] == [];
  }

  lemma RunOfTwo(a: Stretch, b: Stretch, s: GuestState)
    requires a.reason != VMXOFF
    ensures DispatchedRun([a, b], s) == Dispatched(b, b.code(Dispatched(a, a.code(s))))
  {
    hide Dispatched;
    assert [a, b][1..] == [b];
    RunOfOne(b, Dispatched(a, a.code(s)));
  }

  lemma NativeRunOfTwo(a: Stretch, b: Stretch, s: GuestState, s': GuestState) returns (next: GuestState)
    requires a.reason != VMXOFF && IsNativeRun([a, b], s, s')
    ensures IsNativeStep(a, a.code(s), next) && IsNativeStep(b, b.code(next), s')
  {
    hide IsNativeStep;
    assert [a, b][1..] == [b];
    next :| IsNativeStep(a, a.code(s), next) && IsNativeRun([b], next, s');
    RunOfOne(b, next);
  }

  /** Without hypervisor it reads what it wrote; with it, what was there before, unless the value is the MSR's index. */
  lemma WriteIsLost(index: Word32, value: Word32, s: GuestState, s': GuestState)
    requires IsNativeRun(WriteThenRead(index, value), s, s')
    ensures EdxEax(s'.g) == value
    ensures EdxEax(DispatchedRun(WriteThenRead(index, value), s).g) == if value == index then value else s.msrs(index)
  {
    hide Add, JoinHalves, DispatchedRun, IsNativeRun;
    var ts := WriteThenRead(index, value);
    var next := NativeRunOfTwo(ts[0], ts[1], s, s');
    RunOfTwo(ts[0], ts[1], s);
    var before := ts[0].code(s);
    assert IsWrmsr(before.g, index, next.msrs(index));
    WrmsrIsNativeIff(before.g);
    SplitThenJoin(Dispatched(ts[0], before).msrs(index), 0, 0);
  }

  /** Along the run, the guest's own code leaves those registers alone. */
  ghost predicate CodePreserves(stretches: seq<Stretch>, s: GuestState)
    decreases |stretches|
  {
    stretches == [] ||
    (var before := stretches[0].code(s);
     && SamePreserved(s.g, before.g)
     && (stretches[0].reason != VMXOFF ==> CodePreserves(stretches[1..], Dispatched(stretches[0], before))))
  }

  /** Then they survive the run as a whole. */
  lemma {:induction false} RunPreserves(stretches: seq<Stretch>, s: GuestState)
    requires CodePreserves(stretches, s)
    ensures SamePreserved(s.g, DispatchedRun(stretches, s).g)
    decreases |stretches|
  {
    hide Answer, Add;
    if stretches != [] {
      var before := stretches[0].code(s);
      AnswerPreserves(Native(stretches[0].cpuid, before.msrs), stretches[0].reason, before.g);
      if stretches[0].reason != VMXOFF {
        RunPreserves(stretches[1..], Dispatched(stretches[0], before));
      }
    }
  }

  predicate SameRegisters(a: GuestState, b: GuestState) {
    a.g == b.g && a.rsp == b.rsp && a.rip == b.rip
  }

  /** The guest's view of the machine: registers, MSRs, and all memory but the stack of the virtual processor. */
  ghost predicate Sees(a: GuestState, b: GuestState, vcpu: nat) {
    SameRegisters(a, b) && a.msrs == b.msrs && SameOutside(b.mem, a.mem, vcpu, STACK_SIZE)
  }

  /** Started in `s`, the code does not look at that stack: what it does to its view depends on its view only. */
  ghost predicate CannotTell(code: GuestState -> GuestState, s: GuestState, vcpu: nat) {
    forall a :: Sees(a, s, vcpu) ==> Sees(code(a), code(s), vcpu)
  }

  /** With memory outside the stack as in `m`, the C functions of the exit path work on this virtual processor. */
  ghost predicate ExitsWork(h: Handler, readRsp: State -> State, readRip: State -> State, vcpu: nat, m: Memory)
    requires vcpu + STACK_SIZE < MODULUS
  {
    && IsVmExitHandler(h, vcpu, m)
    && ReadsContext(readRsp, vcpu, CONTEXT_RSP, m) && ReadsContext(readRip, vcpu, CONTEXT_RIP, m)
  }

  /** The stack pointer is clear of the host's frame. */
  predicate IsOffFrame(rsp: Word, vcpu: nat)
    requires vcpu + STACK_SIZE < MODULUS
  {
    WordApart(Sub(rsp, 8), vcpu + HOST_RSP_OFFSET - 0x80, 0x88)
  }

  /**
   Along the run the guest's code does not look at the stack of the virtual processor, leaves memory such that exits
   work, and when it asks for VMXOFF has its own stack elsewhere.
   */
  ghost predicate IsGuestRun(h: Handler, readRsp: State -> State, readRip: State -> State, vcpu: nat,
                             stretches: seq<Stretch>, s: GuestState)
    requires vcpu + STACK_SIZE < MODULUS
    decreases |stretches|
  {
    stretches == [] ||
    (var before := stretches[0].code(s);
     && CannotTell(stretches[0].code, s, vcpu) && ExitsWork(h, readRsp, readRip, vcpu, before.mem)
     && if stretches[0].reason == VMXOFF then IsOffFrame(before.rsp, vcpu)
        else IsGuestRun(h, readRsp, readRip, vcpu, stretches[1..], Dispatched(stretches[0], before)))
  }

  function StateOf(p: Processor, cpu: Cpu): GuestState
    reads p`native, cpu
  {
    GuestState(cpu.g, cpu.rsp, cpu.rip, cpu.mem, p.native.msrs)
  }

  method RunGuest(p: Processor, cpu: Cpu, code: GuestState -> GuestState)
    modifies p`native, cpu`g, cpu`rsp, cpu`rip, cpu`mem
    ensures StateOf(p, cpu) == code(old(StateOf(p, cpu))) && p.native.cpuid == old(p.native.cpuid)
  {
    var after := code(StateOf(p, cpu));
    cpu.g, cpu.rsp, cpu.rip, cpu.mem := after.g, after.rsp, after.rip, after.mem;
    p.native := p.native.(msrs := after.msrs);
  }

  /** After VMXOFF the word below the stack pointer has also changed. */
  ghost predicate SeesAfter(a: GuestState, b: GuestState, vcpu: nat, left: bool) {
    if left then SameRegisters(a, b) && a.msrs == b.msrs && SameButStackWord(b.mem, a.mem, vcpu, a.rsp)
    else Sees(a, b, vcpu)
  }

  /** The machine right before and right after an exit. */
  datatype Served = Served(before: GuestState, after: GuestState)

  /**
   What the exit leaves alone: the eleven registers that no handler writes, or all of them for a reason other than CPUID
   and RDMSR, the stack pointer, the MSRs for a reason other than WRMSR, and memory.
   */
  ghost predicate KeepsTheRest(t: Stretch, e: Served, vcpu: nat) {
    && SamePreserved(e.before.g, e.after.g) && (t.reason != CPUID && t.reason != RDMSR ==> e.after.g == e.before.g)
    && e.after.rsp == e.before.rsp && e.after.rip == Add(e.before.rip, t.length)
    && (t.reason != WRMSR ==> e.after.msrs == e.before.msrs)
    && if t.reason == VMXOFF then SameButStackWord(e.before.mem, e.after.mem, vcpu, e.after.rsp)
       else SameOutside(e.before.mem, e.after.mem, vcpu, STACK_SIZE)
  }

  /** One stretch of guest code and its exit, on the machine and as the dispatch says. */
  method ServeExit(p: Processor, cpu: Cpu, h: Handler, readRsp: State -> State, readRip: State -> State,
                   vcpu: nat, code: Code, t: Stretch, ghost ideal: GuestState)
    returns (ghost served: Served)
    requires vcpu + STACK_SIZE < MODULUS && Sees(StateOf(p, cpu), ideal, vcpu) && CannotTell(t.code, ideal, vcpu)
    requires ExitsWork(h, readRsp, readRip, vcpu, t.code(ideal).mem)
    requires t.reason == VMXOFF ==> IsOffFrame(t.code(ideal).rsp, vcpu)
    requires p.Sound() && GuestRuns(p.vmx, p.region) && HostIsSet(p.vmcs, vcpu, code)
    modifies p, cpu
    ensures p.Sound() && p.trace == old(p.trace) + ExitTrace(t.reason, p.region)
    ensures if t.reason == VMXOFF then Released(p.vmx, p.region)
            else p.vmx == old(p.vmx) && HostIsSet(p.vmcs, vcpu, code)
    ensures p.vmcs.words == old(p.vmcs.words)
    ensures served.after == StateOf(p, cpu) && Sees(served.before, t.code(ideal), vcpu) && KeepsTheRest(t, served, vcpu)
    ensures SeesAfter(StateOf(p, cpu), Dispatched(t, t.code(ideal)), vcpu, t.reason == VMXOFF)
  {
    hide Answer, Add, MsrsAfter, ExitTrace, Legal, After, IsVmExitHandler, ReadsContext, WordApart, SamePreserved;
    hide SameOutside, SameButStackWord;
    ghost var start := StateOf(p, cpu);
    RunGuest(p, cpu, t.code);
    p.native := p.native.(cpuid := t.cpuid);
    ghost var before, ideal' := StateOf(p, cpu), t.code(ideal);
    assert before == t.code(start);
    assert Sees(before, ideal', vcpu);
    ExitsWorkToo(h, readRsp, readRip, vcpu, ideal'.mem, cpu.mem);
    AnswerPreserves(p.native, t.reason, before.g);
    NoMsrWritten(before.msrs, t.reason, before.g);
    if t.reason == VMXOFF {
      var r, resumed := ExitAndLeave(p, cpu, h, readRsp, readRip, vcpu, code, t.length);
      LeavingIsSeen(before.mem, cpu.mem, ideal'.mem, vcpu, cpu.rsp);
    } else {
      var r, resumed := ExitAndResume(p, cpu, h, vcpu, code, t.reason, t.length);
      OutsideTwice(ideal'.mem, before.mem, cpu.mem, vcpu, STACK_SIZE);
    }
    served := Served(before, StateOf(p, cpu));
  }

  lemma NoMsrWritten(m: Msrs, reason: Word, g: Gprs)
    ensures reason != WRMSR ==> MsrsAfter(m, reason, g) == m
  {
  }

  lemma ExitsWorkToo(h: Handler, readRsp: State -> State, readRip: State -> State, vcpu: nat, m: Memory, m': Memory)
    requires vcpu + STACK_SIZE < MODULUS && SameOutside(m, m', vcpu, STACK_SIZE)
    requires ExitsWork(h, readRsp, readRip, vcpu, m)
    ensures ExitsWork(h, readRsp, readRip, vcpu, m')
  {
    hide ActsOnFrame, SameOutside, Read64;
    forall s: State | SameOutside(m', s.mem, vcpu, STACK_SIZE) ensures SameOutside(m, s.mem, vcpu, STACK_SIZE) {
      OutsideTwice(m, m', s.mem, vcpu, STACK_SIZE);
    }
  }

  lemma LeavingIsSeen(before: Memory, after: Memory, ideal: Memory, vcpu: nat, rsp: Word)
    requires SameButStackWord(before, after, vcpu, rsp) && SameOutside(ideal, before, vcpu, STACK_SIZE)
    ensures SameButStackWord(ideal, after, vcpu, rsp)
  {
    hide Above, Sub;
  }

  lemma FirstStretch(stretches: seq<Stretch>, s: GuestState, region: nat, t: seq<Event>)
    requires stretches != []
    ensures var first, rest := stretches[0], stretches[1..];
            var next := Dispatched(first, first.code(s));
            && (VMXOFF in Reasons(stretches) <==> first.reason == VMXOFF || VMXOFF in Reasons(rest))
            && t + LifeTrace(Reasons(stretches), region) ==
               t + ExitTrace(first.reason, region) +
               (if first.reason == VMXOFF then [] else LifeTrace(Reasons(rest), region))
            && DispatchedRun(stretches, s) == if first.reason == VMXOFF then next else DispatchedRun(rest, next)
  {
    hide ExitTrace, Dispatched;
    assert Reasons(stretches)[1..] == Reasons(stretches[1..]);
  }

  lemma FirstOfRun(h: Handler, readRsp: State -> State, readRip: State -> State, vcpu: nat,
                   stretches: seq<Stretch>, s: GuestState)
    requires vcpu + STACK_SIZE < MODULUS && stretches != [] && IsGuestRun(h, readRsp, readRip, vcpu, stretches, s)
    ensures var first := stretches[0];
            && CannotTell(first.code, s, vcpu) && ExitsWork(h, readRsp, readRip, vcpu, first.code(s).mem)
            && if first.reason == VMXOFF then IsOffFrame(first.code(s).rsp, vcpu)
               else IsGuestRun(h, readRsp, readRip, vcpu, stretches[1..], Dispatched(first, first.code(s)))
  {
    hide CannotTell, ExitsWork, IsOffFrame, Dispatched;
  }

  /** One exit after the other, each before which the machine is as the dispatch has it, and each keeps the rest. */
  ghost predicate AllServed(stretches: seq<Stretch>, exits: seq<Served>, s: GuestState, vcpu: nat)
    decreases |stretches|
  {
    if stretches == [] then exits == []
    else
      var t, before := stretches[0], stretches[0].code(s);
      && exits != [] && Sees(exits[0].before, before, vcpu) && KeepsTheRest(t, exits[0], vcpu)
      && if t.reason == VMXOFF then exits[1..] == []
         else AllServed(stretches[1..], exits[1..], Dispatched(t, before), vcpu)
  }

  /** In a run, every exit on the machine keeps the rest, with arbitrary guest code before and after it. */
  lemma {:induction false} EveryExitPreserves(stretches: seq<Stretch>, exits: seq<Served>, s: GuestState,
                                              vcpu: nat, k: nat)
    requires AllServed(stretches, exits, s, vcpu) && k < |exits|
    ensures k < |stretches| && KeepsTheRest(stretches[k], exits[k], vcpu)
    decreases |stretches|
  {
    hide KeepsTheRest, Sees, Dispatched;
    if k > 0 {
      EveryExitPreserves(stretches[1..], exits[1..], Dispatched(stretches[0], stretches[0].code(s)), vcpu, k - 1);
    }
  }

  /**
   Any run.  The processor issues the instructions that `LifeIsLegal` speaks of; in every register, in RIP, in all
   MSRs and in all memory it can see, the guest ends where its code and the dispatch lead; and every exit on the way
   leaves the rest of the machine alone.
   */
  method ServeExits(p: Processor, cpu: Cpu, h: Handler, readRsp: State -> State, readRip: State -> State,
                    vcpu: nat, code: Code, stretches: seq<Stretch>, ghost ideal: GuestState)
    returns (ghost exits: seq<Served>)
    requires vcpu + STACK_SIZE < MODULUS && Sees(StateOf(p, cpu), ideal, vcpu)
    requires IsGuestRun(h, readRsp, readRip, vcpu, stretches, ideal)
    requires p.Sound() && GuestRuns(p.vmx, p.region) && HostIsSet(p.vmcs, vcpu, code)
    modifies p, cpu
    ensures p.Sound() && p.trace == old(p.trace) + LifeTrace(Reasons(stretches), p.region)
    ensures if VMXOFF in Reasons(stretches) then Released(p.vmx, p.region) else p.vmx == old(p.vmx)
    ensures p.vmcs.words == old(p.vmcs.words)
    ensures SeesAfter(StateOf(p, cpu), DispatchedRun(stretches, ideal), vcpu, VMXOFF in Reasons(stretches))
    ensures AllServed(stretches, exits, ideal, vcpu)
    decreases |stretches|
  {
    hide ExitTrace, Legal, After, Sees, SeesAfter, CannotTell, ExitsWork, IsOffFrame, Dispatched, HostIsSet;
    hide KeepsTheRest;
    SeesToo(StateOf(p, cpu), ideal, vcpu);
    exits := [];
    if stretches != [] {
      hide LifeTrace, DispatchedRun, Reasons, IsGuestRun, GuestRuns, AllServed;
      ghost var t := stretches[0];
      ghost var next := Dispatched(t, t.code(ideal));
      FirstStretch(stretches, ideal, p.region, p.trace);
      FirstOfRun(h, readRsp, readRip, vcpu, stretches, ideal);
      ghost var served := ServeExit(p, cpu, h, readRsp, readRip, vcpu, code, stretches[0], ideal);
      ghost var rest := [];
      if stretches[0].reason != VMXOFF {
        SeesToo(StateOf(p, cpu), next, vcpu);
        rest := ServeExits(p, cpu, h, readRsp, readRip, vcpu, code, stretches[1..], next);
      }
      exits := [served] + rest;
      FirstServed(stretches, served, rest, ideal, vcpu);
    }
  }

  lemma FirstServed(stretches: seq<Stretch>, served: Served, rest: seq<Served>, s: GuestState, vcpu: nat)
    requires stretches != []
    requires Sees(served.before, stretches[0].code(s), vcpu) && KeepsTheRest(stretches[0], served, vcpu)
    requires if stretches[0].reason == VMXOFF then rest == []
             else AllServed(stretches[1..], rest, Dispatched(stretches[0], stretches[0].code(s)), vcpu)
    ensures AllServed(stretches, [served] + rest, s, vcpu)
  {
    hide Sees, KeepsTheRest, Dispatched;
    assert ([served] + rest)[1..] == rest;
  }

  lemma SeesToo(a: GuestState, b: GuestState, vcpu: nat)
    ensures SeesAfter(a, b, vcpu, false) <==> Sees(a, b, vcpu)
  {
  }
}
