/**
 One VM exit from beginning to end: the processor saves and loads state through the VMCS, the assembly builds the
 frame and calls the C handler, and the guest goes on, inside VMX operation or, after VMXOFF, outside it.
 */
module RoundTrip {
  import opened Machine
  import opened Vmx
  import opened VirtualCpu
  import opened WorldSwitch
  import opened ExitHandler

  /** Addresses of the assembly routines that the VMCS refers to. */
  datatype Code = Code(enterGuest: Word, vmExitHandler: Word)

  /** The host side of the VMCS leads to `_vm_exit_handler` on the stack of this virtual processor. */
  predicate HostIsSet(v: VmcsFields, vcpu: nat, code: Code) {
    v.hostRip == code.vmExitHandler && v.hostRsp == vcpu + HOST_RSP_OFFSET
  }

  /** The compiled `vm_exit_handler`: what its call makes of the machine, given the VMCS and the processor's answers. */
  type Handler = (VmcsFields, Native, State) -> State

  /**
   What the C code does to memory and registers: EAX is 1 on VMXOFF and 0 otherwise, as `Processor.VmExitHandler`
   returns; the frame is changed as the dispatch says; VMXOFF leaves the next RIP and the RSP of the guest in
   `guest_context`; and nothing is written outside the stack of the virtual processor.
   */
  ghost predicate ActsOnFrame(v: VmcsFields, native: Native, s: State, after: State, vcpu: nat)
    requires vcpu + STACK_SIZE < MODULUS && CallsHandler(s, vcpu + HOST_RSP_OFFSET)
  {
    && after.rsp == s.rsp && Read64(after.mem, s.g.rcx) == Read64(s.mem, s.g.rcx)
    && FrameRegs(after.mem, s.g.rcx) == Answer(native, v.exitReason, FrameRegs(s.mem, s.g.rcx))
    && after.g.rax % 0x1_0000_0000 == (if v.exitReason == 26 then 1 else 0)
    && (v.exitReason == VMXOFF ==> ContextIsSet(after.mem, v, vcpu))
    && SameOutside(s.mem, after.mem, vcpu, STACK_SIZE)
  }

  predicate ContextIsSet(m: Memory, v: VmcsFields, vcpu: nat)
    requires vcpu + STACK_SIZE < MODULUS
  {
    && Read64(m, vcpu + CONTEXT_RIP) == Add(v.guestRip, v.instructionLength)
    && Read64(m, vcpu + CONTEXT_RSP) == v.guestRsp
  }

  /**
   Every call that `_vm_exit_handler` makes on this virtual processor's stack ends so, as long as memory outside the
   stack is as in `m`: that is where the C code finds its globals.
   */
  ghost predicate IsVmExitHandler(h: Handler, vcpu: nat, m: Memory)
    requires vcpu + STACK_SIZE < MODULUS
  {
    forall v: VmcsFields, native: Native, s: State ::
      CallsHandler(s, vcpu + HOST_RSP_OFFSET) && SameOutside(m, s.mem, vcpu, STACK_SIZE) ==>
        ActsOnFrame(v, native, s, h(v, native, s), vcpu)
  }

  /** The call with this VMCS, as the assembly sees it. */
  function CallOf(h: Handler, v: VmcsFields, native: Native): State -> State {
    (s: State) => h(v, native, s)
  }

  lemma HandlerKeepsSavedRsp(h: Handler, v: VmcsFields, native: Native, vcpu: nat, m: Memory)
    requires vcpu + STACK_SIZE < MODULUS && IsVmExitHandler(h, vcpu, m)
    ensures KeepsSavedRsp(CallOf(h, v, native), vcpu + HOST_RSP_OFFSET, m)
  {
    hide Read64, FrameRegs, Answer, SameOutside, CallsHandler, ContextIsSet;
    var rsp := vcpu + HOST_RSP_OFFSET;
    forall s: State | CallsHandler(s, rsp) && SameOutside(m, s.mem, rsp - 0x80, 0x80)
      ensures h(v, native, s).rsp == s.rsp && Read64(h(v, native, s).mem, s.g.rcx) == Read64(s.mem, s.g.rcx)
    {
      FrameIsOnStack(m, s.mem, vcpu);
      assert ActsOnFrame(v, native, s, h(v, native, s), vcpu);
    }
  }

  lemma FrameIsOnStack(m: Memory, m': Memory, vcpu: nat)
    requires SameOutside(m, m', vcpu + HOST_RSP_OFFSET - 0x80, 0x80)
    ensures SameOutside(m, m', vcpu, STACK_SIZE)
  {
  }

  /** From the exit to the return of the C handler: what is common to both ways out. */
  method ExitToHandler(cpu: Cpu, h: Handler, v: VmcsFields, native: Native, vcpu: nat) returns (resume: bool)
    requires vcpu + STACK_SIZE < MODULUS && IsVmExitHandler(h, vcpu, cpu.mem) && cpu.rsp == vcpu + HOST_RSP_OFFSET
    modifies cpu`g, cpu`rsp, cpu`mem
    ensures resume <==> v.exitReason != VMXOFF
    ensures SameOutside(old(cpu.mem), cpu.mem, vcpu, STACK_SIZE)
    ensures var f := vcpu + HOST_RSP_OFFSET - 0x80;
            && FrameRegs(cpu.mem, f) == Answer(native, v.exitReason, old(cpu.g))
            && (resume ==> cpu.g == FrameRegs(cpu.mem, f) && cpu.rsp == old(cpu.rsp))
            && (!resume ==> cpu.rsp == f && Read64(cpu.mem, f) == f + 8 && ContextIsSet(cpu.mem, v, vcpu))
  {
    hide Read64, FrameRegs, Answer, SameOutside, ContextIsSet, KeepsSavedRsp;
    ghost var called;
    HandlerKeepsSavedRsp(h, v, native, vcpu, cpu.mem);
    resume, called := VmExitHandler(cpu, CallOf(h, v, native));
    FrameIsOnStack(old(cpu.mem), called.mem, vcpu);
    assert ActsOnFrame(v, native, called, h(v, native, called), vcpu);
    OutsideTwice(old(cpu.mem), called.mem, cpu.mem, vcpu, STACK_SIZE);
  }

  /**
   An exit that does not leave VMX operation.  The guest goes on behind its instruction with its stack pointer, with
   the registers that the dispatch gives it, and with its memory outside the virtual processor as it was.
   */
  method ExitAndResume(p: Processor, cpu: Cpu, h: Handler, vcpu: nat, code: Code, reason: Word, length: Word)
    returns (r: int, resumed: bool)
    requires vcpu + STACK_SIZE < MODULUS && IsVmExitHandler(h, vcpu, cpu.mem) && HostIsSet(p.vmcs, vcpu, code)
    requires p.Sound() && GuestRuns(p.vmx, p.region) && reason != VMXOFF
    modifies p`guest, p`vmx, p`trace, p`vmcs, p`contextRip, p`contextRsp, p`msrWrites, p`native, cpu
    ensures r == 0 && (resumed <==> r == 0)
    ensures cpu.g == Answer(old(p.native), reason, old(cpu.g)) && SamePreserved(old(cpu.g), cpu.g)
    ensures p.native == old(p.native).(msrs := MsrsAfter(old(p.native.msrs), reason, old(cpu.g)))
    ensures p.msrWrites == old(p.msrWrites) + if reason == WRMSR then [WrittenMsr(old(cpu.g))] else []
    ensures cpu.rsp == old(cpu.rsp) && cpu.rip == Add(old(cpu.rip), length)
    ensures SameOutside(old(cpu.mem), cpu.mem, vcpu, STACK_SIZE)
    ensures p.Sound() && p.vmx == old(p.vmx) && p.trace == old(p.trace) + ExitTrace(reason, p.region)
    ensures HostIsSet(p.vmcs, vcpu, code) && p.vmcs.words == old(p.vmcs.words) && p.guest == cpu.g
  {
    hide Read64, FrameRegs, Answer, SamePreserved, SameOutside, ContextIsSet, IsVmExitHandler, Add, WrittenMsr;
    hide MsrsAfter, Legal, After, HandlerTrace, ExitTrace, VmxonPossible;
    ExitTraceParts(p.trace, reason, p.region);
    p.VmExit(cpu, reason, length);
    assert cpu.rip == code.vmExitHandler;
    p.guest := cpu.g;
    resumed := ExitToHandler(cpu, h, p.vmcs, p.native, vcpu);
    r := p.VmExitHandler();
    p.VmEntry(cpu, Vmresume);
    AnswerPreserves(old(p.native), reason, old(cpu.g));
  }

  /**
   The VMXOFF exit: the code that asked for it goes on behind its instruction outside VMX operation, with its own
   stack pointer and all its registers.  Outside the virtual processor only the word below its stack pointer changes.
   Its stack must not reach into the frame of the host.
   */
  method ExitAndLeave(p: Processor, cpu: Cpu, h: Handler, readRsp: State -> State, readRip: State -> State,
                      vcpu: nat, code: Code, length: Word)
    returns (r: int, resumed: bool)
    requires vcpu + STACK_SIZE < MODULUS && IsVmExitHandler(h, vcpu, cpu.mem) && HostIsSet(p.vmcs, vcpu, code)
    requires ReadsContext(readRsp, vcpu, CONTEXT_RSP, cpu.mem) && ReadsContext(readRip, vcpu, CONTEXT_RIP, cpu.mem)
    requires p.Sound() && GuestRuns(p.vmx, p.region)
    requires WordApart(Sub(cpu.rsp, 8), vcpu + HOST_RSP_OFFSET - 0x80, 0x88)
    modifies p`guest, p`vmx, p`trace, p`vmcs, p`contextRip, p`contextRsp, p`msrWrites, p`native, cpu
    ensures r == 1 && (resumed <==> r == 0)
    ensures cpu.g == old(cpu.g) && cpu.rsp == old(cpu.rsp) && cpu.rip == Add(old(cpu.rip), length)
    ensures p.guest == cpu.g && p.contextRip == cpu.rip && p.contextRsp == cpu.rsp
    ensures SameButStackWord(old(cpu.mem), cpu.mem, vcpu, cpu.rsp)
    ensures p.native == old(p.native) && p.msrWrites == old(p.msrWrites) && p.vmcs.words == old(p.vmcs.words)
    ensures p.Sound() && Released(p.vmx, p.region) && p.trace == old(p.trace) + ExitTrace(VMXOFF, p.region)
  {
    hide Read64, FrameRegs, Answer, SameOutside, ContextIsSet, IsVmExitHandler, Add, WrittenMsr, WordApart;
    hide ReadsContext;
    hide Legal, After, HandlerTrace, ExitTrace, VmxonPossible, SameButStackWord, Released;
    ExitTraceParts(p.trace, VMXOFF, p.region);
    p.VmExit(cpu, VMXOFF, length);
    assert cpu.rip == code.vmExitHandler;
    p.guest := cpu.g;
    resumed := ExitToHandler(cpu, h, p.vmcs, p.native, vcpu);
    AnswerPreserves(p.native, VMXOFF, old(cpu.g));
    ghost var m, v := cpu.mem, p.vmcs;
    r := p.VmExitHandler();
    ContextOfVmcs(m, v, vcpu);
    VmxoffHandler(cpu, readRsp, readRip, vcpu, old(cpu.mem));
    StackWordOnly(old(cpu.mem), m, cpu.mem, vcpu, cpu.rsp);
  }

  lemma ContextOfVmcs(m: Memory, v: VmcsFields, vcpu: nat)
    requires vcpu + STACK_SIZE < MODULUS && ContextIsSet(m, v, vcpu)
    ensures Read64(m, vcpu + CONTEXT_RIP) == Add(v.guestRip, v.instructionLength) &&
            Read64(m, vcpu + CONTEXT_RSP) == v.guestRsp
  {
    hide Read64;
  }

  lemma StackWordOnly(before: Memory, between: Memory, after: Memory, vcpu: nat, rsp: Word)
    requires SameOutside(before, between, vcpu, STACK_SIZE)
    requires SameButStackWord(between, after, vcpu, rsp)
    ensures SameButStackWord(before, after, vcpu, rsp)
  {
    hide Above, Sub;
  }

  /**
   The compiled functions assumed here exist, return address and all: a `call` from `back` of a body that does
   its work.
   */
  function HandlerBody(v: VmcsFields, native: Native, vcpu: nat): State -> State
    requires vcpu + STACK_SIZE < MODULUS
  {
    (s: State) =>
      if s.g.rcx + 0x80 < MODULUS then
        var answered := Answer(native, v.exitReason, FrameRegs(s.mem, s.g.rcx));
        var framed := StoreWords(s.mem, s.g.rcx, FrameWords(Read64(s.mem, s.g.rcx), answered));
        if v.exitReason == VMXOFF then State(s.g.(rax := 1), s.rsp, StoreContext(framed, vcpu, v))
        else State(s.g.(rax := 0), s.rsp, framed)
      else s
  }

  function StoreContext(m: Memory, vcpu: nat, v: VmcsFields): Memory
    requires vcpu + STACK_SIZE < MODULUS
  {
    Write64(Write64(m, vcpu + CONTEXT_RIP, Add(v.guestRip, v.instructionLength)), vcpu + CONTEXT_RSP, v.guestRsp)
  }

  lemma ContextIsStored(m: Memory, vcpu: nat, v: VmcsFields)
    requires vcpu + STACK_SIZE < MODULUS
    ensures var m', f := StoreContext(m, vcpu, v), vcpu + HOST_RSP_OFFSET - 0x80;
            && Read64(m', f) == Read64(m, f) && FrameRegs(m', f) == FrameRegs(m, f)
            && ContextIsSet(m', v, vcpu) && SameOutside(m, m', vcpu, CONTEXT_SIZE)
  {
    hide Read64, Write64, FrameRegs, Add;
    var rip := Add(v.guestRip, v.instructionLength);
    var mid := Write64(m, vcpu + CONTEXT_RIP, rip);
    var m', f := StoreContext(m, vcpu, v), vcpu + HOST_RSP_OFFSET - 0x80;
    WriteChangesEightBytes(m, vcpu + CONTEXT_RIP, rip);
    WriteChangesEightBytes(mid, vcpu + CONTEXT_RSP, v.guestRsp);
    ReadWritten(m, vcpu + CONTEXT_RIP, rip);
    ReadWritten(mid, vcpu + CONTEXT_RSP, v.guestRsp);
    ReadOn(mid, m', vcpu + CONTEXT_RIP);
    FrameOn(m, m', f);
  }

  /** The return address below the frame changes neither the frame nor anything outside the stack. */
  lemma ReturnAddressIsBelow(m: Memory, f: nat, back: Word)
    requires 0x30 <= f && f + 0x80 < MODULUS
    ensures var m' := Write64(m, f - 0x30, back);
            Read64(m', f) == Read64(m, f) && FrameRegs(m', f) == FrameRegs(m, f) && SameOutside(m, m', f - 0x30, 8)
  {
    hide Read64, Write64, FrameRegs;
    WriteChangesEightBytes(m, f - 0x30, back);
    FrameOn(m, Write64(m, f - 0x30, back), f);
  }

  lemma FrameIsStored(m: Memory, f: nat, slot: Word, g: Gprs)
    requires f + 0x80 < MODULUS
    ensures var m' := StoreWords(m, f, FrameWords(slot, g));
            Read64(m', f) == slot && FrameRegs(m', f) == g && SameOutside(m, m', f, 0x80)
  {
    hide Read64, Write64, FrameRegs, Holds, StoreWords;
    StoredWords(m, f, FrameWords(slot, g));
    FrameOfWords(StoreWords(m, f, FrameWords(slot, g)), f, slot, g);
  }

  function CompiledHandler(vcpu: nat, back: Word): Handler
    requires vcpu + STACK_SIZE < MODULUS
  {
    (v: VmcsFields, native: Native, s: State) => Called(HandlerBody(v, native, vcpu), back)(s)
  }

  lemma HandlerBodyActs(v: VmcsFields, native: Native, s: State, vcpu: nat)
    requires vcpu + STACK_SIZE < MODULUS && s.g.rcx == vcpu + HOST_RSP_OFFSET - 0x80
    ensures var after := HandlerBody(v, native, vcpu)(s);
            && after.rsp == s.rsp && Read64(after.mem, s.g.rcx) == Read64(s.mem, s.g.rcx)
            && FrameRegs(after.mem, s.g.rcx) == Answer(native, v.exitReason, FrameRegs(s.mem, s.g.rcx))
            && after.g.rax % 0x1_0000_0000 == (if v.exitReason == 26 then 1 else 0)
            && (v.exitReason == VMXOFF ==> ContextIsSet(after.mem, v, vcpu))
            && SameOutside(s.mem, after.mem, vcpu, STACK_SIZE)
  {
    hide Read64, FrameRegs, Answer, StoreWords, FrameWords, StoreContext, ContextIsSet;
    var slot, answered := Read64(s.mem, s.g.rcx), Answer(native, v.exitReason, FrameRegs(s.mem, s.g.rcx));
    FrameIsStored(s.mem, s.g.rcx, slot, answered);
    ContextIsStored(StoreWords(s.mem, s.g.rcx, FrameWords(slot, answered)), vcpu, v);
  }

  lemma CompiledCallActs(v: VmcsFields, native: Native, s: State, vcpu: nat, back: Word)
    requires vcpu + STACK_SIZE < MODULUS && CallsHandler(s, vcpu + HOST_RSP_OFFSET)
    ensures ActsOnFrame(v, native, s, CompiledHandler(vcpu, back)(v, native, s), vcpu)
  {
    hide Read64, Write64, FrameRegs, Answer, HandlerBody, ContextIsSet, Sub, Add;
    var f := vcpu + HOST_RSP_OFFSET - 0x80;
    BelowStack(s.rsp);
    ReturnAddressIsBelow(s.mem, f, back);
    HandlerBodyActs(v, native, State(s.g, Sub(s.rsp, 8), Write64(s.mem, Sub(s.rsp, 8), back)), vcpu);
    AddUndoesSub(s.rsp);
    assert CompiledHandler(vcpu, back)(v, native, s) == Called(HandlerBody(v, native, vcpu), back)(s);
  }

  lemma BelowStack(rsp: Word)
    requires rsp >= 8
    ensures Sub(rsp, 8) == rsp - 8
  {
  }

  /** For every virtual processor and every return address there is a handler as assumed. */
  lemma HandlerExists(vcpu: nat, back: Word, m: Memory)
    requires vcpu + STACK_SIZE < MODULUS
    ensures IsVmExitHandler(CompiledHandler(vcpu, back), vcpu, m)
  {
    hide ActsOnFrame, CompiledHandler, CallsHandler;
    forall v: VmcsFields, native: Native, s: State | CallsHandler(s, vcpu + HOST_RSP_OFFSET)
      ensures ActsOnFrame(v, native, s, CompiledHandler(vcpu, back)(v, native, s), vcpu)
    {
      CompiledCallActs(v, native, s, vcpu, back);
    }
  }

  function ReaderBody(vcpu: nat, offset: nat): State -> State
    requires vcpu + offset < MODULUS
  {
    (s: State) => s.(g := s.g.(rax := Read64(s.mem, vcpu + offset)))
  }

  lemma ReaderCallReads(s: State, vcpu: nat, offset: nat, back: Word)
    requires vcpu + STACK_SIZE <= MODULUS && offset + 8 <= CONTEXT_SIZE && s.rsp == vcpu + HOST_RSP_OFFSET - 0xA8
    ensures var after := Called(ReaderBody(vcpu, offset), back)(s);
            && after.rsp == s.rsp && after.g.rax == Read64(s.mem, vcpu + offset)
            && SameOutside(s.mem, after.mem, vcpu + CONTEXT_SIZE, HOST_RSP_OFFSET - 0x88 - CONTEXT_SIZE)
  {
    hide Read64, Write64, Sub, Add;
    BelowStack(s.rsp);
    WriteChangesEightBytes(s.mem, s.rsp - 8, back);
    ReadOn(s.mem, Write64(s.mem, s.rsp - 8, back), vcpu + offset);
    AddUndoesSub(s.rsp);
  }

  /** And there are `read_rsp` and `read_rip` as assumed. */
  lemma ReaderExists(vcpu: nat, offset: nat, back: Word, m: Memory)
    requires vcpu + STACK_SIZE <= MODULUS && offset + 8 <= CONTEXT_SIZE
    ensures ReadsContext(Called(ReaderBody(vcpu, offset), back), vcpu, offset, m)
  {
    hide Read64, Called, SameOutside;
    forall s: State | s.rsp == vcpu + HOST_RSP_OFFSET - 0xA8
      ensures var after := Called(ReaderBody(vcpu, offset), back)(s);
              && after.rsp == s.rsp && after.g.rax == Read64(s.mem, vcpu + offset)
              && SameOutside(s.mem, after.mem, vcpu + CONTEXT_SIZE, HOST_RSP_OFFSET - 0x88 - CONTEXT_SIZE)
    {
      ReaderCallReads(s, vcpu, offset, back);
    }
  }
}
