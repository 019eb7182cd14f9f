/**
 The assembly of the world switch, instruction by instruction: `_vm_exit_handler`, `_vmxoff_handler` and
 `_enter_guest`.
 */
module WorldSwitch {
  import opened Machine
  import opened VirtualCpu

  /** Where the VMCS puts the host's stack pointer, and the guest's at first. */
  const HOST_RSP_OFFSET := 0x5FF8

  /** Byte offsets of the saved registers in CONTEXT. */
  const CONTEXT_SIZE := 0x4D0
  const CONTEXT_FLAGS := 0x44
  const CONTEXT_RAX := 0x78
  const CONTEXT_RCX := 0x80
  const CONTEXT_RDX := 0x88
  const CONTEXT_RBX := 0x90
  const CONTEXT_RSP := 0x98
  const CONTEXT_RBP := 0xA0
  const CONTEXT_RSI := 0xA8
  const CONTEXT_RDI := 0xB0
  const CONTEXT_R8 := 0xB8
  const CONTEXT_RIP := 0xF8

  /** A `guest_state_vmx` as the sixteen words of its frame; `slot` is its first member. */
  function FrameWords(slot: Word, g: Gprs): (ws: seq<Word>)
    ensures |ws| == 16
  {
    [slot, g.rbp, g.rax, g.rbx, g.rcx, g.rdx, g.rsi, g.rdi, g.r8, g.r9, g.r10, g.r11, g.r12, g.r13, g.r14, g.r15]
  }

  /** The registers in the `guest_state_vmx` at `f`, member by member. */
  function FrameRegs(m: Memory, f: nat): Gprs
    requires f + 0x80 < MODULUS
  {
    Gprs(Field(m, f, 0x08), Field(m, f, 0x10), Field(m, f, 0x18), Field(m, f, 0x20), Field(m, f, 0x28),
         Field(m, f, 0x30), Field(m, f, 0x38), Field(m, f, 0x40), Field(m, f, 0x48), Field(m, f, 0x50),
         Field(m, f, 0x58), Field(m, f, 0x60), Field(m, f, 0x68), Field(m, f, 0x70), Field(m, f, 0x78))
  }

  lemma FrameOfWords(m: Memory, f: nat, slot: Word, g: Gprs)
    requires f + 0x80 < MODULUS && Holds(m, f, FrameWords(slot, g))
    ensures Read64(m, f) == slot && FrameRegs(m, f) == g
  {
    hide Read64, Holds;
    var ws := FrameWords(slot, g);
    forall k | 0 <= k < 16 ensures Read64(m, f + 8 * k) == ws[k] {
      HoldsAt(m, f, ws, k);
    }
    assert Read64(m, f + 8 * 0) == ws[0];
    assert Read64(m, f + 8 * 1) == ws[1];
    assert Read64(m, f + 8 * 2) == ws[2];
    assert Read64(m, f + 8 * 3) == ws[3];
    assert Read64(m, f + 8 * 4) == ws[4];
    assert Read64(m, f + 8 * 5) == ws[5];
    assert Read64(m, f + 8 * 6) == ws[6];
    assert Read64(m, f + 8 * 7) == ws[7];
    assert Read64(m, f + 8 * 8) == ws[8];
    assert Read64(m, f + 8 * 9) == ws[9];
    assert Read64(m, f + 8 * 10) == ws[10];
    assert Read64(m, f + 8 * 11) == ws[11];
    assert Read64(m, f + 8 * 12) == ws[12];
    assert Read64(m, f + 8 * 13) == ws[13];
    assert Read64(m, f + 8 * 14) == ws[14];
    assert Read64(m, f + 8 * 15) == ws[15];
  }

  /** `push r15` to `push r8`. */
  method PushHigh(cpu: Cpu)
    requires 0x40 <= cpu.rsp < MODULUS
    modifies cpu`rsp, cpu`mem
    ensures cpu.rsp == old(cpu.rsp) - 0x40
    ensures Holds(cpu.mem, cpu.rsp, HighWords(cpu.g))
    ensures SameOutside(old(cpu.mem), cpu.mem, cpu.rsp, 0x40)
  {
    hide Read64, Holds;
    ghost var held: seq<Word> := [];
    HoldsNothing(cpu.mem, cpu.rsp);
    cpu.PushOn(cpu.g.r15, held);
    held := [cpu.g.r15] + held;
    cpu.PushOn(cpu.g.r14, held);
    held := [cpu.g.r14] + held;
    cpu.PushOn(cpu.g.r13, held);
    held := [cpu.g.r13] + held;
    cpu.PushOn(cpu.g.r12, held);
    held := [cpu.g.r12] + held;
    cpu.PushOn(cpu.g.r11, held);
    held := [cpu.g.r11] + held;
    cpu.PushOn(cpu.g.r10, held);
    held := [cpu.g.r10] + held;
    cpu.PushOn(cpu.g.r9, held);
    held := [cpu.g.r9] + held;
    cpu.PushOn(cpu.g.r8, held);
    held := [cpu.g.r8] + held;
    assert held == HighWords(cpu.g);
  }

  /** `push rdi` to `push rsp`; the last one stores the value that `rsp` has before it. */
  method PushLow(cpu: Cpu)
    requires 0x40 <= cpu.rsp && cpu.rsp + 0x40 < MODULUS && Holds(cpu.mem, cpu.rsp, HighWords(cpu.g))
    modifies cpu`rsp, cpu`mem
    ensures cpu.rsp == old(cpu.rsp) - 0x40
    ensures Holds(cpu.mem, cpu.rsp, LowWords(cpu.rsp + 8, cpu.g) + HighWords(cpu.g))
    ensures SameOutside(old(cpu.mem), cpu.mem, cpu.rsp, 0x40)
  {
    hide Read64, Holds;
    ghost var held := HighWords(cpu.g);
    cpu.PushOn(cpu.g.rdi, held);
    held := [cpu.g.rdi] + held;
    cpu.PushOn(cpu.g.rsi, held);
    held := [cpu.g.rsi] + held;
    cpu.PushOn(cpu.g.rdx, held);
    held := [cpu.g.rdx] + held;
    cpu.PushOn(cpu.g.rcx, held);
    held := [cpu.g.rcx] + held;
    cpu.PushOn(cpu.g.rbx, held);
    held := [cpu.g.rbx] + held;
    cpu.PushOn(cpu.g.rax, held);
    held := [cpu.g.rax] + held;
    cpu.PushOn(cpu.g.rbp, held);
    held := [cpu.g.rbp] + held;
    cpu.PushOn(cpu.rsp, held);
    assert [cpu.rsp + 8] + held == LowWords(cpu.rsp + 8, cpu.g) + HighWords(cpu.g);
  }

  function LowWords(slot: Word, g: Gprs): seq<Word> {
    [slot, g.rbp, g.rax, g.rbx, g.rcx, g.rdx, g.rsi, g.rdi]
  }

  function HighWords(g: Gprs): seq<Word> {
    [g.r8, g.r9, g.r10, g.r11, g.r12, g.r13, g.r14, g.r15]
  }

  /** The sixteen pushes on entry: the registers go to the frame, and nothing else in memory changes. */
  method PushAll(cpu: Cpu)
    requires 0x80 <= cpu.rsp < MODULUS
    modifies cpu`rsp, cpu`mem
    ensures cpu.rsp == old(cpu.rsp) - 0x80
    ensures Read64(cpu.mem, cpu.rsp) == cpu.rsp + 8 && FrameRegs(cpu.mem, cpu.rsp) == cpu.g
    ensures SameOutside(old(cpu.mem), cpu.mem, cpu.rsp, 0x80)
  {
    hide Read64, Holds, FrameRegs;
    PushHigh(cpu);
    PushLow(cpu);
    assert LowWords(cpu.rsp + 8, cpu.g) + HighWords(cpu.g) == FrameWords(cpu.rsp + 8, cpu.g);
    FrameOfWords(cpu.mem, cpu.rsp, cpu.rsp + 8, cpu.g);
  }

  lemma HoldsNothing(m: Memory, a: nat)
    requires a < MODULUS
    ensures Holds(m, a, [])
  {
  }

  /** `pop rsp` to `pop rdi`, and `pop r8` to `pop r15`: the frame's registers, from its first word up. */
  method PopLow(cpu: Cpu)
    requires cpu.rsp + 0x80 < MODULUS && Read64(cpu.mem, cpu.rsp) == cpu.rsp + 8
    modifies cpu`rsp, cpu`g
    ensures cpu.rsp == old(cpu.rsp) + 0x40
    ensures var f, m := old(cpu.rsp), cpu.mem;
            cpu.g == old(cpu.g).(
              rbp := Read64(m, f + 0x08), rax := Read64(m, f + 0x10), rbx := Read64(m, f + 0x18),
              rcx := Read64(m, f + 0x20), rdx := Read64(m, f + 0x28), rsi := Read64(m, f + 0x30),
              rdi := Read64(m, f + 0x38))
  {
    hide Read64;
    cpu.rsp := cpu.PopOff();
    var rbp := cpu.PopOff();
    var rax := cpu.PopOff();
    var rbx := cpu.PopOff();
    var rcx := cpu.PopOff();
    var rdx := cpu.PopOff();
    var rsi := cpu.PopOff();
    var rdi := cpu.PopOff();
    cpu.g := cpu.g.(rbp := rbp, rax := rax, rbx := rbx, rcx := rcx, rdx := rdx, rsi := rsi, rdi := rdi);
  }

  method PopHigh(cpu: Cpu)
    requires cpu.rsp + 0x40 < MODULUS
    modifies cpu`rsp, cpu`g
    ensures cpu.rsp == old(cpu.rsp) + 0x40
    ensures var f, m := old(cpu.rsp), cpu.mem;
            cpu.g == old(cpu.g).(
              r8 := Read64(m, f + 0x00), r9 := Read64(m, f + 0x08), r10 := Read64(m, f + 0x10),
              r11 := Read64(m, f + 0x18), r12 := Read64(m, f + 0x20), r13 := Read64(m, f + 0x28),
              r14 := Read64(m, f + 0x30), r15 := Read64(m, f + 0x38))
  {
    hide Read64;
    var r8 := cpu.PopOff();
    var r9 := cpu.PopOff();
    var r10 := cpu.PopOff();
    var r11 := cpu.PopOff();
    var r12 := cpu.PopOff();
    var r13 := cpu.PopOff();
    var r14 := cpu.PopOff();
    var r15 := cpu.PopOff();
    cpu.g := cpu.g.(r8 := r8, r9 := r9, r10 := r10, r11 := r11, r12 := r12, r13 := r13, r14 := r14, r15 := r15);
  }

  /** The sixteen pops: `rsp` first, then the other registers from the frame that its value points into. */
  method PopAll(cpu: Cpu)
    requires cpu.rsp + 0x80 < MODULUS && Read64(cpu.mem, cpu.rsp) == cpu.rsp + 8
    modifies cpu`rsp, cpu`g
    ensures cpu.g == FrameRegs(cpu.mem, old(cpu.rsp))
    ensures cpu.rsp == old(cpu.rsp) + 0x80
  {
    hide Read64;
    PopLow(cpu);
    PopHigh(cpu);
  }

  /**
   The call of `vm_exit_handler` from the routine entered with this `rsp`: `rcx` points to the frame, and the
   callee's home space lies between it and the callee's stack.
   */
  predicate CallsHandler(s: State, rsp: nat) {
    s.g.rcx + 0x80 == rsp && s.rsp + 0xA8 == rsp
  }

  /**
   Called so, with memory `m` below a fresh frame, the C handler returns with the stack where it was, and may change
   every member of the frame but the first.
   */
  ghost predicate KeepsSavedRsp(handler: State -> State, rsp: nat, m: Memory)
    requires 0x80 <= rsp
  {
    forall s: State :: CallsHandler(s, rsp) && SameOutside(m, s.mem, rsp - 0x80, 0x80) ==>
                         handler(s).rsp == s.rsp && Read64(handler(s).mem, s.g.rcx) == Read64(s.mem, s.g.rcx)
  }

  /**
   `_vm_exit_handler`.  `called` is the state in which the C handler is called: the frame at `rcx` holds the
   registers of the guest.  Unless the handler returns 1, the registers end as the handler left them in the
   frame, member by member, and the stack is back where the processor put it, ready for VMRESUME.
   */
  method VmExitHandler(cpu: Cpu, handler: State -> State) returns (resume: bool, ghost called: State)
    requires 0xB0 <= cpu.rsp < MODULUS
    requires KeepsSavedRsp(handler, cpu.rsp, cpu.mem)
    modifies cpu`g, cpu`rsp, cpu`mem
    ensures var f := old(cpu.rsp) - 0x80;
            && CallsHandler(called, old(cpu.rsp)) && called.g.rcx == f
            && FrameRegs(called.mem, f) == old(cpu.g) && SameOutside(old(cpu.mem), called.mem, f, 0x80)
            && cpu.mem == handler(called).mem
            && (resume <==> handler(called).g.rax % 0x1_0000_0000 != 1)
            && (resume ==> cpu.g == FrameRegs(cpu.mem, f) && cpu.rsp == old(cpu.rsp))
            && (!resume ==> cpu.g == handler(called).g && cpu.rsp == f && Read64(cpu.mem, f) == f + 8)
  {
    hide Read64, FrameRegs, SameOutside;
    called := EnterHandler(cpu);
    cpu.Call(handler);
    cpu.rsp := Add(cpu.rsp, 0x28);
    if cpu.g.rax % 0x1_0000_0000 == 1 {
      return false, called;
    }
    PopAll(cpu);
    resume := true;
  }

  /** Up to the call: the frame is built, its address goes to `rcx`, and the callee's home space is reserved. */
  method EnterHandler(cpu: Cpu) returns (ghost called: State)
    requires 0xB0 <= cpu.rsp < MODULUS
    modifies cpu`g, cpu`rsp, cpu`mem
    ensures called == State(cpu.g, cpu.rsp, cpu.mem)
    ensures var f := old(cpu.rsp) - 0x80;
            && CallsHandler(called, old(cpu.rsp)) && called.g.rcx == f && Read64(called.mem, f) == f + 8
            && FrameRegs(called.mem, f) == old(cpu.g) && SameOutside(old(cpu.mem), called.mem, f, 0x80)
  {
    hide Read64, FrameRegs, SameOutside;
    PushAll(cpu);
    cpu.g := cpu.g.(rcx := cpu.rsp);
    cpu.rsp := Sub(cpu.rsp, 0x28);
    called := State(cpu.g, cpu.rsp, cpu.mem);
  }

  /**
   `read_rsp` and `read_rip`, called from `_vmxoff_handler` with memory that agrees with `m` outside the stack: they
   return a member of `guest_context`, leave the stack where it was, and write only below it and to their home space.
   */
  ghost predicate ReadsContext(callee: State -> State, vcpu: nat, offset: nat, m: Memory)
    requires vcpu + STACK_SIZE <= MODULUS && offset + 8 <= CONTEXT_SIZE
  {
    forall s: State :: s.rsp == vcpu + HOST_RSP_OFFSET - 0xA8 && SameOutside(m, s.mem, vcpu, STACK_SIZE) ==>
                         && callee(s).rsp == s.rsp && callee(s).g.rax == Read64(s.mem, vcpu + offset)
                         && SameOutside(s.mem, callee(s).mem, vcpu + CONTEXT_SIZE,
                                        HOST_RSP_OFFSET - 0x88 - CONTEXT_SIZE)
  }

  /** One of the two calls of `_vmxoff_handler`, with the space it reserves around it. */
  method CallReader(cpu: Cpu, reader: State -> State, vcpu: nat, offset: nat, ghost m: Memory)
    requires vcpu + STACK_SIZE <= MODULUS && offset + 8 <= CONTEXT_SIZE
    requires cpu.rsp == vcpu + HOST_RSP_OFFSET - 0x80
    requires ReadsContext(reader, vcpu, offset, m) && SameOutside(m, cpu.mem, vcpu, STACK_SIZE)
    modifies cpu`g, cpu`rsp, cpu`mem
    ensures cpu.rsp == old(cpu.rsp)
    ensures cpu.g.rax == Read64(old(cpu.mem), vcpu + offset)
    ensures SameOutside(old(cpu.mem), cpu.mem, vcpu + CONTEXT_SIZE, HOST_RSP_OFFSET - 0x80 - CONTEXT_SIZE)
    ensures SameOutside(m, cpu.mem, vcpu, STACK_SIZE)
  {
    hide Read64, SameOutside;
    ghost var before := State(cpu.g, Sub(cpu.rsp, 0x28), cpu.mem);
    cpu.rsp := Sub(cpu.rsp, 0x28);
    cpu.Call(reader);
    assert State(cpu.g, cpu.rsp, cpu.mem) == reader(before);
    cpu.rsp := Add(cpu.rsp, 0x28);
    BelowFrame(before.mem, cpu.mem, vcpu);
    OutsideTwice(m, before.mem, cpu.mem, vcpu, STACK_SIZE);
  }

  lemma BelowFrame(m: Memory, m': Memory, vcpu: nat)
    requires SameOutside(m, m', vcpu + CONTEXT_SIZE, HOST_RSP_OFFSET - 0x88 - CONTEXT_SIZE)
    ensures SameOutside(m, m', vcpu + CONTEXT_SIZE, HOST_RSP_OFFSET - 0x80 - CONTEXT_SIZE)
    ensures SameOutside(m, m', vcpu, STACK_SIZE)
  {
  }

  lemma FrameOn(m: Memory, m': Memory, f: nat)
    requires f + 0x80 < MODULUS && SameOn(m, m', f, 0x80)
    ensures FrameRegs(m', f) == FrameRegs(m, f) && Read64(m', f) == Read64(m, f)
  {
    hide Read64;
    FieldsOn(m, m', f, 0x80);
    assert Field(m', f, 0) == Field(m, f, 0);
  }

  /** Memory after the writes of `_vmxoff_handler`: the frame survives, and the two words to be popped are there. */
  lemma HandBackMemory(m: Memory, f: nat, a: Word, rip: Word) returns (after: Memory)
    requires f + 0x88 < MODULUS && WordApart(a, f, 0x88)
    ensures after == Write64(Write64(m, a, rip), f + 0x80, a)
    ensures FrameRegs(after, f) == FrameRegs(m, f) && Read64(after, f) == Read64(m, f)
    ensures Read64(after, f + 0x80) == a && Read64(after, a) == rip
    ensures forall x: Word :: !(f + 0x80 <= x < f + 0x88) && Above(x, a) >= 8 ==> after(x) == m(x)
  {
    hide Read64, FrameRegs, Bytes;
    var mid := Write64(m, a, rip);
    after := Write64(mid, f + 0x80, a);
    WriteApart(m, a, rip, f, 0x88);
    WriteChangesEightBytes(mid, f + 0x80, a);
    FrameOn(m, after, f);
    ReadWritten(mid, f + 0x80, a);
    ReadWritten(m, a, rip);
    ReadElsewhere(mid, f + 0x80, a, a);
  }

  /** First half of `_vmxoff_handler`: RSP of the guest to the word above the frame, its RIP to `rax`. */
  method FetchContext(cpu: Cpu, readRsp: State -> State, readRip: State -> State, vcpu: nat, ghost m: Memory)
    requires vcpu + STACK_SIZE < MODULUS && cpu.rsp == vcpu + HOST_RSP_OFFSET - 0x80
    requires ReadsContext(readRsp, vcpu, CONTEXT_RSP, m) && ReadsContext(readRip, vcpu, CONTEXT_RIP, m)
    requires SameOutside(m, cpu.mem, vcpu, STACK_SIZE)
    modifies cpu`g, cpu`rsp, cpu`mem
    ensures cpu.rsp == old(cpu.rsp)
    ensures cpu.g.rax == old(Read64(cpu.mem, vcpu + CONTEXT_RIP))
    ensures Read64(cpu.mem, cpu.rsp + 0x80) == old(Read64(cpu.mem, vcpu + CONTEXT_RSP))
    ensures SameOn(old(cpu.mem), cpu.mem, cpu.rsp, 0x80)
    ensures SameOutside(old(cpu.mem), cpu.mem, vcpu, STACK_SIZE)
  {
    hide Read64, Write64;
    CallReader(cpu, readRsp, vcpu, CONTEXT_RSP, m);
    ghost var grsp, m1 := cpu.g.rax, cpu.mem;
    cpu.mem := Write64(cpu.mem, Add(cpu.rsp, 0x80), cpu.g.rax);
    WriteChangesEightBytes(m1, cpu.rsp + 0x80, grsp);
    ReadWritten(m1, cpu.rsp + 0x80, grsp);
    ReadOn(old(cpu.mem), cpu.mem, vcpu + CONTEXT_RIP);
    ghost var m2 := cpu.mem;
    OutsideTwice(m, m1, m2, vcpu, STACK_SIZE);
    CallReader(cpu, readRip, vcpu, CONTEXT_RIP, m);
    ReadOn(m2, cpu.mem, cpu.rsp + 0x80);
  }

  /** Second half, from `mov rdx, rsp`: the guest's RIP goes to its stack, then everything is popped. */
  method HandBack(cpu: Cpu)
    requires cpu.rsp + 0x88 < MODULUS && Read64(cpu.mem, cpu.rsp) == cpu.rsp + 8
    requires WordApart(Sub(Read64(cpu.mem, cpu.rsp + 0x80), 8), cpu.rsp, 0x88)
    modifies cpu
    ensures cpu.rip == old(cpu.g.rax)
    ensures cpu.rsp == old(Read64(cpu.mem, cpu.rsp + 0x80))
    ensures cpu.g == old(FrameRegs(cpu.mem, cpu.rsp))
    ensures forall x: Word :: !(old(cpu.rsp) + 0x80 <= x < old(cpu.rsp) + 0x88) && Above(x, Sub(cpu.rsp, 8)) >= 8 ==>
                                cpu.mem(x) == old(cpu.mem)(x)
  {
    hide Read64, Write64, FrameRegs, Above, WordApart;
    ghost var f, m, rip := cpu.rsp, cpu.mem, cpu.g.rax;
    ghost var a := Sub(Read64(m, f + 0x80), 8);
    cpu.g := cpu.g.(rdx := cpu.rsp);
    cpu.g := cpu.g.(rbx := Read64(cpu.mem, Add(cpu.rsp, 0x80)));
    cpu.rsp := cpu.g.rbx;
    cpu.Push(cpu.g.rax);
    cpu.rsp := cpu.g.rdx;
    cpu.g := cpu.g.(rbx := Sub(cpu.g.rbx, 8));
    cpu.mem := Write64(cpu.mem, Add(cpu.rsp, 0x80), cpu.g.rbx);
    ghost var after := HandBackMemory(m, f, a, rip);
    PopAll(cpu);
    cpu.rsp := cpu.Pop();
    cpu.rip := cpu.Pop();
    AddUndoesSub(Read64(m, f + 0x80));
  }

  lemma AddUndoesSub(a: Word)
    ensures Add(Sub(a, 8), 8) == a
  {
  }

  /** Nothing changes outside the stack of the virtual processor but the word below `rsp`. */
  ghost predicate SameButStackWord(m: Memory, m': Memory, vcpu: nat, rsp: Word) {
    forall x: Word :: !(vcpu <= x < vcpu + STACK_SIZE) && Above(x, Sub(rsp, 8)) >= 8 ==> m'(x) == m(x)
  }

  /**
   `_vmxoff_handler`, entered with the frame at `rsp`.  It ends in the guest's context outside VMX operation:
   RIP and RSP from `guest_context`, the other registers from the frame.  Outside the virtual processor it
   changes nothing but the word below the guest's stack pointer.
   */
  method VmxoffHandler(cpu: Cpu, readRsp: State -> State, readRip: State -> State, vcpu: nat, ghost m: Memory)
    requires vcpu + STACK_SIZE < MODULUS
    requires cpu.rsp == vcpu + HOST_RSP_OFFSET - 0x80 && Read64(cpu.mem, cpu.rsp) == cpu.rsp + 8
    requires ReadsContext(readRsp, vcpu, CONTEXT_RSP, m) && ReadsContext(readRip, vcpu, CONTEXT_RIP, m)
    requires SameOutside(m, cpu.mem, vcpu, STACK_SIZE)
    requires WordApart(Sub(Read64(cpu.mem, vcpu + CONTEXT_RSP), 8), cpu.rsp, 0x88)
    modifies cpu
    ensures cpu.rip == old(Read64(cpu.mem, vcpu + CONTEXT_RIP))
    ensures cpu.rsp == old(Read64(cpu.mem, vcpu + CONTEXT_RSP))
    ensures cpu.g == old(FrameRegs(cpu.mem, cpu.rsp))
    ensures SameButStackWord(old(cpu.mem), cpu.mem, vcpu, cpu.rsp)
  {
    hide Read64, FrameRegs, Above, WordApart;
    FetchContext(cpu, readRsp, readRip, vcpu, m);
    FrameOn(old(cpu.mem), cpu.mem, cpu.rsp);
    HandBack(cpu);
  }

  /** The registers saved in the CONTEXT record at `c`. */
  function ContextRegs(m: Memory, c: nat): Gprs
    requires c + CONTEXT_SIZE < MODULUS
  {
    Gprs(Field(m, c, CONTEXT_RBP), Field(m, c, CONTEXT_RAX), Field(m, c, CONTEXT_RBX), Field(m, c, CONTEXT_RCX),
         Field(m, c, CONTEXT_RDX), Field(m, c, CONTEXT_RSI), Field(m, c, CONTEXT_RDI),
         Field(m, c, CONTEXT_R8), Field(m, c, CONTEXT_R8 + 0x08), Field(m, c, CONTEXT_R8 + 0x10),
         Field(m, c, CONTEXT_R8 + 0x18), Field(m, c, CONTEXT_R8 + 0x20), Field(m, c, CONTEXT_R8 + 0x28),
         Field(m, c, CONTEXT_R8 + 0x30), Field(m, c, CONTEXT_R8 + 0x38))
  }

  /** The members of CONTEXT from Rax to Rip, in the order in which they lie. */
  function ContextWords(g: Gprs, rsp: Word, rip: Word): seq<Word> {
    [g.rax, g.rcx, g.rdx, g.rbx, rsp, g.rbp, g.rsi, g.rdi, g.r8, g.r9, g.r10, g.r11, g.r12, g.r13, g.r14, g.r15, rip]
  }

  /** The CONTEXT record at `c` describes this state. */
  predicate IsCaptured(m: Memory, c: nat, g: Gprs, rsp: Word, rip: Word, flags: Word)
    requires c + CONTEXT_SIZE < MODULUS
  {
    && ContextRegs(m, c) == g && Read64(m, c + CONTEXT_RSP) == rsp && Read64(m, c + CONTEXT_RIP) == rip
    && Read64(m, c + CONTEXT_FLAGS) == flags
  }

  lemma ContextOfWords(m: Memory, c: nat, g: Gprs, rsp: Word, rip: Word)
    requires c + CONTEXT_SIZE < MODULUS && Holds(m, c + CONTEXT_RAX, ContextWords(g, rsp, rip))
    ensures ContextRegs(m, c) == g && Read64(m, c + CONTEXT_RSP) == rsp && Read64(m, c + CONTEXT_RIP) == rip
  {
    hide Read64, Holds;
    var a, ws := c + CONTEXT_RAX, ContextWords(g, rsp, rip);
    forall k | 0 <= k < 17 ensures Read64(m, a + 8 * k) == ws[k] {
      HoldsAt(m, a, ws, k);
    }
    assert Read64(m, a + 8 * 0) == ws[0];
    assert Read64(m, a + 8 * 1) == ws[1];
    assert Read64(m, a + 8 * 2) == ws[2];
    assert Read64(m, a + 8 * 3) == ws[3];
    assert Read64(m, a + 8 * 4) == ws[4];
    assert Read64(m, a + 8 * 5) == ws[5];
    assert Read64(m, a + 8 * 6) == ws[6];
    assert Read64(m, a + 8 * 7) == ws[7];
    assert Read64(m, a + 8 * 8) == ws[8];
    assert Read64(m, a + 8 * 9) == ws[9];
    assert Read64(m, a + 8 * 10) == ws[10];
    assert Read64(m, a + 8 * 11) == ws[11];
    assert Read64(m, a + 8 * 12) == ws[12];
    assert Read64(m, a + 8 * 13) == ws[13];
    assert Read64(m, a + 8 * 14) == ws[14];
    assert Read64(m, a + 8 * 15) == ws[15];
    assert Read64(m, a + 8 * 16) == ws[16];
  }

  /**
   `RtlCaptureContext` on `guest_context`, as far as the members that `_enter_guest` reads: it stores the caller's
   state, with the address it will return to, and returns there.  Registers it need not keep may come back changed.
   */
  method CaptureContext(cpu: Cpu, c: nat, back: Word, returned: Gprs)
    requires c + CONTEXT_SIZE < MODULUS
    modifies cpu`g, cpu`rip, cpu`mem
    ensures IsCaptured(cpu.mem, c, old(cpu.g), cpu.rsp, back, cpu.flags)
    ensures SameOutside(old(cpu.mem), cpu.mem, c, CONTEXT_SIZE)
    ensures cpu.rip == back && cpu.g == returned
  {
    hide Read64, Write64, ContextRegs, Holds;
    ghost var ws := ContextWords(cpu.g, cpu.rsp, back);
    cpu.mem := Write64(cpu.mem, c + CONTEXT_FLAGS, cpu.flags);
    ghost var m := cpu.mem;
    WriteChangesEightBytes(old(cpu.mem), c + CONTEXT_FLAGS, cpu.flags);
    ReadWritten(old(cpu.mem), c + CONTEXT_FLAGS, cpu.flags);
    StoredWords(m, c + CONTEXT_RAX, ws);
    cpu.mem := StoreWords(cpu.mem, c + CONTEXT_RAX, ContextWords(cpu.g, cpu.rsp, back));
    ContextOfWords(cpu.mem, c, cpu.g, cpu.rsp, back);
    ReadOn(m, cpu.mem, c + CONTEXT_FLAGS);
    cpu.rip := back;
    cpu.g := returned;
  }

  lemma ContextOn(m: Memory, m': Memory, c: nat)
    requires c + CONTEXT_SIZE < MODULUS && SameOn(m, m', c, CONTEXT_SIZE)
    ensures ContextRegs(m', c) == ContextRegs(m, c)
    ensures Read64(m', c + CONTEXT_RSP) == Read64(m, c + CONTEXT_RSP)
    ensures Read64(m', c + CONTEXT_RIP) == Read64(m, c + CONTEXT_RIP)
    ensures Read64(m', c + CONTEXT_RCX) == ContextRegs(m, c).rcx
    ensures Read64(m', c + CONTEXT_FLAGS) == Read64(m, c + CONTEXT_FLAGS)
  {
    hide Read64;
    FieldsOn(m, m', c, CONTEXT_SIZE);
    assert Field(m', c, CONTEXT_RSP) == Field(m, c, CONTEXT_RSP);
    assert Field(m', c, CONTEXT_RIP) == Field(m, c, CONTEXT_RIP);
    assert Field(m', c, CONTEXT_FLAGS) == Field(m, c, CONTEXT_FLAGS);
  }

  /** Loads of `_enter_guest` up to `r15`, with `rcx` at the context. */
  method LoadContext(cpu: Cpu)
    requires cpu.g.rcx + CONTEXT_SIZE < MODULUS
    modifies cpu`g
    ensures cpu.g == ContextRegs(cpu.mem, old(cpu.g.rcx)).(rcx := old(cpu.g.rcx))
  {
    hide Read64;
    var c := cpu.g.rcx;
    cpu.g := cpu.g.(rax := Read64(cpu.mem, c + 0x78));
    cpu.g := cpu.g.(rdx := Read64(cpu.mem, c + 0x88));
    cpu.g := cpu.g.(rbx := Read64(cpu.mem, c + 0x90));
    cpu.g := cpu.g.(rbp := Read64(cpu.mem, c + 0xA0));
    cpu.g := cpu.g.(rsi := Read64(cpu.mem, c + 0xA8));
    cpu.g := cpu.g.(rdi := Read64(cpu.mem, c + 0xB0));
    cpu.g := cpu.g.(r8 := Read64(cpu.mem, c + 0xB8));
    cpu.g := cpu.g.(r9 := Read64(cpu.mem, c + 0xC0));
    cpu.g := cpu.g.(r10 := Read64(cpu.mem, c + 0xC8));
    cpu.g := cpu.g.(r11 := Read64(cpu.mem, c + 0xD0));
    cpu.g := cpu.g.(r12 := Read64(cpu.mem, c + 0xD8));
    cpu.g := cpu.g.(r13 := Read64(cpu.mem, c + 0xE0));
    cpu.g := cpu.g.(r14 := Read64(cpu.mem, c + 0xE8));
    cpu.g := cpu.g.(r15 := Read64(cpu.mem, c + 0xF0));
  }

  /**
   `_enter_guest`, entered with the RSP that the VMCS gives the guest.  From it alone it finds `guest_context`
   and ends in the captured context, provided the word it pushes below the captured RSP misses the saved RCX.
   Outside the virtual processor it changes nothing but that word.
   */
  method EnterGuest(cpu: Cpu, ghost vcpu: nat)
    requires vcpu + STACK_SIZE < MODULUS && cpu.rsp == vcpu + HOST_RSP_OFFSET
    requires WordApart(Sub(Read64(cpu.mem, vcpu + CONTEXT_RSP), 8), vcpu + CONTEXT_RCX, 8)
    modifies cpu
    ensures IsCaptured(old(cpu.mem), vcpu, cpu.g, cpu.rsp, cpu.rip, cpu.flags)
    ensures SameButStackWord(old(cpu.mem), cpu.mem, vcpu, cpu.rsp)
  {
    hide Read64, Write64, ContextRegs, WordApart;
    cpu.g := cpu.g.(rcx := cpu.rsp);
    cpu.g := cpu.g.(rcx := Sub(cpu.g.rcx, 0x5FF8));
    PushAndPopFlags(cpu);
    ghost var m := cpu.mem;
    ContextOn(old(cpu.mem), m, vcpu);
    LoadContext(cpu);
    ReturnToContext(cpu);
    WordBelow(old(cpu.mem), m, cpu.mem, vcpu, cpu.rsp);
  }

  lemma WordBelow(before: Memory, between: Memory, after: Memory, vcpu: nat, rsp: Word)
    requires SameOutside(before, between, vcpu, STACK_SIZE)
    requires forall x: Word :: Above(x, Sub(rsp, 8)) >= 8 ==> after(x) == between(x)
    ensures SameButStackWord(before, after, vcpu, rsp)
  {
    hide Above, Sub;
  }

  /** `push [rcx+44h]` and `popfq`: the stack slot is far above the context. */
  method PushAndPopFlags(cpu: Cpu)
    requires cpu.g.rcx + STACK_SIZE < MODULUS && cpu.rsp == cpu.g.rcx + HOST_RSP_OFFSET
    modifies cpu`rsp, cpu`mem, cpu`flags
    ensures cpu.rsp == old(cpu.rsp) && cpu.flags == old(Read64(cpu.mem, cpu.g.rcx + CONTEXT_FLAGS))
    ensures SameOn(old(cpu.mem), cpu.mem, cpu.g.rcx, CONTEXT_SIZE)
    ensures SameOutside(old(cpu.mem), cpu.mem, cpu.g.rcx, STACK_SIZE)
  {
    hide Read64, Write64;
    ghost var v := Read64(cpu.mem, cpu.g.rcx + CONTEXT_FLAGS);
    cpu.Push(Read64(cpu.mem, Add(cpu.g.rcx, 0x44)));
    ReadWritten(old(cpu.mem), cpu.rsp, v);
    WriteChangesEightBytes(old(cpu.mem), cpu.rsp, v);
    cpu.flags := cpu.Pop();
  }

  lemma WriteIsLocal(m: Memory, a: Word, v: Word)
    ensures forall x: Word :: Above(x, a) >= 8 ==> Write64(m, a, v)(x) == m(x)
  {
  }

  /** From `mov rsp, [rcx+098h]` to `ret`. */
  method ReturnToContext(cpu: Cpu)
    requires cpu.g.rcx + CONTEXT_SIZE < MODULUS
    requires WordApart(Sub(Read64(cpu.mem, cpu.g.rcx + CONTEXT_RSP), 8), cpu.g.rcx + CONTEXT_RCX, 8)
    modifies cpu`g, cpu`rsp, cpu`rip, cpu`mem
    ensures cpu.g == old(cpu.g).(rcx := old(Read64(cpu.mem, cpu.g.rcx + CONTEXT_RCX)))
    ensures cpu.rsp == old(Read64(cpu.mem, cpu.g.rcx + CONTEXT_RSP))
    ensures cpu.rip == old(Read64(cpu.mem, cpu.g.rcx + CONTEXT_RIP))
    ensures forall x: Word :: Above(x, Sub(cpu.rsp, 8)) >= 8 ==> cpu.mem(x) == old(cpu.mem)(x)
  {
    hide Read64, Write64, WordApart, Above;
    ghost var m, c := cpu.mem, cpu.g.rcx;
    ghost var sp, ip := Read64(m, c + CONTEXT_RSP), Read64(m, c + CONTEXT_RIP);
    cpu.rsp := Read64(cpu.mem, Add(cpu.g.rcx, 0x98));
    cpu.Push(Read64(cpu.mem, Add(cpu.g.rcx, 0xF8)));
    WriteApart(m, Sub(sp, 8), ip, c + CONTEXT_RCX, 8);
    ReadOn(m, cpu.mem, c + CONTEXT_RCX);
    ReadWritten(m, Sub(sp, 8), ip);
    WriteIsLocal(m, Sub(sp, 8), ip);
    AddUndoesSub(sp);
    cpu.g := cpu.g.(rcx := Read64(cpu.mem, Add(cpu.g.rcx, 0x80)));
    cpu.rip := cpu.Pop();
  }
}
