# ArinVisor: a Dafny model

ArinVisor is a small Intel VT-x hypervisor that virtualizes a running Windows system. This project models its three
hard parts and proves what they are for.

**Extended page tables** (`EptEntries`, `EptFormats`, `EptWalk`, `EptSplit`, `EptIdentity`, `EptRuns`, `EptOwnership`,
`VirtualCpu`, `VcpuLayout`, `Ept`). `EptWalk` is the processor: a four-level walk over physical memory with presence, permission,
memory-type and reserved-bit checks, written from section 28.2.2 of the Intel SDM, Volume 3C, for every combination of
mode-based execute control and execute-only support. It knows nothing of the hypervisor. Entries are 64-bit words and
every bit-field assignment of the C++ code is a masked update; `EptFormats` declares the fields of the five unions and
proves that the updates assign them. `EptSplit` proves what one split does to the walk of every address for any
well-typed tables and any large PDE whatever; `EptRuns` does so for whole runs from the identity map; `Ept` is the class
with its arrays, its nested loops and its list, proved to perform exactly those updates. The tables lie in the virtual
processor right behind the stack on which every exit is handled; `StackHasItsFrames`, `TablesAreOffStack` and
`ExitMissesTables` keep the two apart, in virtual and in physical memory.

**World switch** (`Machine`, `WorldSwitch`, `ExitHandler`, `RoundTrip`, `Life`). Registers and byte-addressed memory that
wraps around at 2^64, the three assembly routines instruction by instruction, the exit dispatch, and the two put together
with the VMCS into whole exits. `Life` runs arbitrary guest code between the exits, proves that the machine does what the
dispatch says and nothing else, MSRs included, and states exactly when that is what a processor without hypervisor would
have done. That processor executes CPUID, RDMSR and WRMSR as the Intel SDM, Volume 2, defines them, and for any other
reason does whatever it does. A compiled C function is an arbitrary function on machine states that is known
only in the calls that the assembly makes: on this stack, and with memory outside the stack as it is at the exit.

**Processor life** (`Vmx`, `Load`, `Controls`, `Segments`, `Teardown`). When each VMX instruction is permitted, given the
control registers and the feature-control MSR; loading, with the writes to those registers and to the VMCS, the two passes
behind the context capture, any run of exits and leaving, in one method (`Load.WholeLife`); control-word clamping, segment
bases out of the GDT, and the release of everything.

Assumptions are shown not to contradict each other by systems that meet them: `Ept.SampleEpt`, `RoundTrip.HandlerExists`,
`RoundTrip.ReaderExists` and `Sample.SampleLife`.

Words of the tables are bit-vectors; physical addresses become numbers where they select a page of memory. Registers
and addresses of the world switch are numbers below 2^64 with explicit wrap-around. Where the C++ code takes the
bitwise or of two values without a common bit (`JoinHalves`), the model adds them.

What the code does not quite do, and what is proved instead:

- `split_page` zeroes one entry of a new table and leaves the other 511 as the pool left them (`ept.cpp:78`). The
  fields it names are all written, but bits 51 to 48 are not, and the processor checks them. The identity map survives
  a run if and only if those bits were clear in every page put to use (`IdentitySurvivesIffPoolsClean`); otherwise
  exactly the dirty entries fault, and no address is ever mapped elsewhere (`RunWalk`).
- A split drops bits 20 to 12 and 51 to 48 of the large PDE, which are reserved there, so it can turn a leaf that
  faults into a table that does not. `SplitWalk` states exactly when the walk is unchanged.
- The WRMSR handler takes the MSR index from `rax` (`exit_handler.cpp:274`), the RDMSR handler from `rcx`. The value is
  always right; the exit is the instruction if and only if EAX equals ECX (`WrmsrIsNativeIff`), and writing an MSR back
  hits the right one if and only if the low half of its value is its index (`WriteBack`).
- The CPUID handler passes no sub-leaf, and the intrinsic then asks for sub-leaf 0 (`exit_handler.cpp:134`). The exit is
  the instruction on every processor if and only if EAX is not 0 and ECX is 0 (`CpuidIsNativeIff`); a guest that asks for
  sub-leaf 1 of leaf 4 gets sub-leaf 0 (`SubleafIsLost`).
- So a guest is not always run as it would run by itself. An exit does what every processor would have done if and only
  if it looks so in the guest's own state: leaf and sub-leaf, EAX against ECX, and for the reasons with empty handlers an
  instruction that does nothing (`StepIsNativeIff`, `RegistersDecide`); the same holds of runs (`RunIsNativeIff`). A guest
  that writes an MSR and reads it back finds the old value unless the new one is the MSR's index (`WriteIsLost`).
- `success_` is assigned, not accumulated, at `vmcs.cpp:191`, so what the 48 VMWRITEs before it report is lost, guest
  RIP and RSP among them (`FailureIsLost` is the case of guest RIP). `WriteFields` states that success means that the
  writes from number 48 on succeeded, and which fields then hold what was planned; the launch is proved for a processor
  on which the writes of guest RIP and RSP succeed.
- The support test accepts a processor whose locked feature-control MSR allows VMX inside SMX only, on which VMXON
  faults, and is right about every other MSR (`SupportTestIsNotEnough`); the set-up is legal if and only if the processor and its firmware support VMX
  (`SetupIsLegal`).
- The early returns of the load undo nothing: when a step behind a successful VMXON fails, VMLAUNCH included, the
  processor stays in VMX operation (`SetUp` and `LoadHypervisor` say so, and which instructions were issued).
- The shift of the 27-bit frame number by 21 at `ept.cpp:87` is taken in 64 bits, its declared type.

Assumptions: the pool hands out resident page-aligned blocks that are in use nowhere else; `MmGetPhysicalAddress` maps
the resident pages to pages injectively; physical addresses have 48 bits, as the 36-bit frame fields say; allocation of
a list node succeeds; offsets of CONTEXT members are those the assembly uses; when the guest asks for VMXOFF its stack
does not reach into the host's frame; `__cpuid` asks for sub-leaf 0; the compiled exit handler writes nothing outside
the stack of the virtual processor (logging is compiled out); guest code does not look at that stack.

## Model

| member | source | states |
|---|---|---|
| EptEntries.FieldsDetermineWord | ArinVisor/arch.h:698-720 | the fields of a large PDE together are the whole word: unpacking loses nothing |
| EptFormats.EptpFieldsRoundTrip | ArinVisor/arch.h:643-656 | the fields of `Eptp` pack into a word and unpack from it, both ways |
| EptFormats.TableFieldsRoundTrip | ArinVisor/arch.h:658-696 | the same for `EptPml4e` and `EptPdpte` |
| EptFormats.LargePdeFieldsRoundTrip | ArinVisor/arch.h:698-720 | the same for `EptLargePde` |
| EptFormats.PdeFieldsRoundTrip | ArinVisor/arch.h:722-741 | the same for `EptPde` |
| EptFormats.PteFieldsRoundTrip | ArinVisor/arch.h:743-764 | the same for `EptPte` |
| EptFormats.TableEntryAssigns | ArinVisor/ept.cpp:26-43 | the four assignments change these four fields and no other |
| EptFormats.LargeEntryAssigns | ArinVisor/ept.cpp:51-57 | the six assignments change these six fields and no other, for any 27-bit frame number |
| EptFormats.SplitPteAssigns | ArinVisor/ept.cpp:81-92 | nine fields come from the leaf and the other five stay as the pool left them |
| EptFormats.SplitPdeAssigns | ArinVisor/ept.cpp:94-103 | six fields are assigned and all others, reserved bits included, are zero |
| EptFormats.PdeFormatsAgree | ArinVisor/arch.h:698-741 | bit 7 and the shared fields lie at the same place in both formats of a PDE |
| EptFormats.EptpAssigns | ArinVisor/vmcs.cpp:388-397 | the EPT pointer has exactly the three fields set |
| EptEntries.SplitPteMeaning | ArinVisor/ept.cpp:81-92 | every named field of the leaf reaches entry i, whose frame is the i-th 4 KiB of the leaf; reserved bits stay as they were |
| EptEntries.SplitPdeMeaning | ArinVisor/ept.cpp:94-103 | the table PDE keeps the leaf's rights, refers to the new table, and has all reserved bits zero whatever the leaf's memory type |
| EptEntries.ChildrenPartitionLeaf | ArinVisor/ept.cpp:87 | the 512 new frames partition the leaf's 2 MiB exactly, and the frame number never exceeds 36 bits |
| EptEntries.TableEntryMeaning | ArinVisor/ept.cpp:26-43 | a zeroed entry becomes the table's address with all three rights and nothing else |
| EptEntries.LargeEntryMeaning | ArinVisor/ept.cpp:51-57 | a zeroed entry becomes the 2 MiB frame, read/write/execute, write-back, large; 27-bit frame numbers are not truncated |
| EptSplit.ClearedLeafFillsAlike | ArinVisor/ept.cpp:79-101 | clearing bit 7 of the PDE before the copy loop does not change what is copied |
| EptSplit.SplitKeepsTyping | ArinVisor/ept.cpp:62-113 | after a split every reference still leads exactly one level down |
| EptSplit.OutcomeOfMirror | ArinVisor/ept.cpp:81-103 | word by word: what the walk finds below the split slot against what the leaf gave, with the exact condition for equality |
| EptSplit.SplitWalk | ArinVisor/ept.cpp:62-113 | for any typed tables and any large PDE: addresses whose walk does not read the slot are unaffected, the others exactly as `SplitEffect` says |
| EptSplit.CleanSplitKeepsEveryWalk | ArinVisor/ept.cpp:62-113 | a leaf without reserved bits split into a clean page: no walk of any address changes in address, rights or memory type |
| EptSplit.SplitDropsReservedBit | ArinVisor/ept.cpp:81-103 | a concrete large PDE on which the walk faults before the split and not after |
| EptIdentity.EptpMeaning | ArinVisor/vmcs.cpp:388-397 | the EPT pointer passes the VM-entry checks and leads to the root table |
| EptIdentity.SlotPfnInjective | ArinVisor/ept.cpp:56-57 | slot numbers are distinct and below 2^18 |
| EptIdentity.SlotPfnOnto | ArinVisor/ept.cpp:56-57 | every frame number below 2^18 belongs to a slot |
| EptIdentity.InitialIsSkeleton | ArinVisor/ept.cpp:19-60 | the tables that the setup leaves are well typed and the two top levels lead to the page directories |
| EptIdentity.WalkReachesPd | ArinVisor/ept.cpp:26-43 | below 2^39 a walk passes both top levels with all rights to the directory that bits 38 to 30 select |
| EptRuns.StepKeepsSkeleton | ArinVisor/ept.cpp:62-113 | any call of `split_page`, effective or not, keeps the tables well formed |
| EptRuns.StepOnSlots | ArinVisor/ept.cpp:64-103 | a call changes the PDE of its own slot and of no other |
| EptRuns.StepWalk | ArinVisor/ept.cpp:62-113 | a call changes the walk of an identity-mapped address only below its slot, and there only through left-over reserved bits |
| EptRuns.BrokenSlotIsSmall | ArinVisor/ept.cpp:64-68 | an address broken by left-over bits stays broken: its slot is no longer large, so no later call touches it |
| EptRuns.RunWalk | ArinVisor/ept.cpp:7-113 | after the constructor and any run of calls: identity, all rights, write-back below 2^39 except at broken entries, and no mapping from there to 2^48 |
| EptRuns.IdentitySurvivesIffPoolsClean | ArinVisor/ept.cpp:70-92 | the identity map holds at every address after a run if and only if every page put to use came clean |
| EptRuns.InitialMapsIdentity | ArinVisor/ept.cpp:7-60 | right after construction every address below 2^39 maps to itself |
| EptRuns.DirtySplitExample | ArinVisor/ept.cpp:78 | one split into a page full of ones makes the address 0x1000 fault |
| EptOwnership.InitialIsSeparated | ArinVisor/ept.cpp:7-12 | with the empty list, all slots are large and all frames are the embedded ones |
| EptOwnership.SplitKeepsSeparation | ArinVisor/ept.cpp:94-108 | frames of all tables stay pairwise distinct, and listed tables stay in bijection with the slots whose bit 7 is clear |
| VcpuLayout.PageDivisionIsExact | ArinVisor/ept.cpp:31-41 | dividing a page address by the page size loses nothing and fits 36 bits |
| VcpuLayout.EmbeddedPages | ArinVisor/vcpu.h:11-31 | in an aligned virtual processor the root starts exactly at the end of the stack and every other table starts a page of its own behind it, inside the virtual processor |
| VcpuLayout.LayoutIsValid | ArinVisor/vcpu.h:11-31 | every injective translation of the resident pages, contiguous or not, gives the tables distinct frames |
| VcpuLayout.StackHasItsFrames | ArinVisor/vcpu.h:23-31 | no page of the stack shares its frame with an embedded table or with any page outside the virtual processor |
| VcpuLayout.SampleTranslates | ArinVisor/ept.cpp:26-43 | every aligned virtual processor can be resident, at descending frames and with pages to spare |
| Ept.PagingStructures.constructor | ArinVisor/load.cpp:11-26 | all embedded tables are zero and are distinct arrays |
| Ept.Ept.constructor | ArinVisor/ept.cpp:7-12 | the arrays hold the identity map at their physical addresses, with the list empty and the class invariant established |
| Ept.Ept.SetupEpt | ArinVisor/ept.cpp:19-24 | the three setup functions leave the root, the PDPT and 512 x 512 identity leaves |
| Ept.Ept.SetupPml4 | ArinVisor/ept.cpp:26-32 | entry 0 refers to the PDPT and the other entries are untouched |
| Ept.Ept.SetupPdpt | ArinVisor/ept.cpp:34-43 | the loop makes every entry refer to its page directory |
| Ept.Ept.SetupPdt | ArinVisor/ept.cpp:45-60 | the nested loops make every entry the large leaf of its own slot |
| Ept.Ept.FillTable | ArinVisor/ept.cpp:78-92 | the zeroing and the copy loop leave exactly the split table |
| Ept.Ept.WriteSplitToMemory | ArinVisor/ept.cpp:78-103 | the in-place writes are the update of physical memory that the theorems speak of |
| Ept.Ept.SplitPage | ArinVisor/ept.cpp:62-113 | for any slot and any answer of the pool: the class invariant, the memory of one `Step`, the result, the list and the pool |
| Ept.Ept.TablesAreOffStack | ArinVisor/ept.cpp:62-113 | whatever was split, no table, embedded or from the pool, lies in the frame of a page of the host stack |
| Ept.Ept.FreePteList | ArinVisor/ept.cpp:115-125 | the loop ends with the list empty and every table and node released once |
| Ept.ServeAll | ArinVisor/ept.cpp:62-113 | any calls in any order reach the memory of an admissible run; the pool lends exactly what the list owns |
| Ept.Lifetime | ArinVisor/ept.cpp:7-125 | construction, any calls, destruction: the identity theorem holds of the memory reached and the pool ends as it began |
| Ept.SampleEpt | ArinVisor/ept.cpp:7-113 | for every aligned virtual processor there is a valid `Ept`, and one with a successful split |
| Machine.ReadWritten | ArinVisor/helpers.asm:157-172 | a stored word reads back, also across the end of memory |
| Machine.ReadElsewhere | ArinVisor/helpers.asm:157-172 | a store does not change a word that shares no byte with it |
| WorldSwitch.PushAll | ArinVisor/helpers.asm:102-117 | the sixteen pushes lay the registers out as the members of `guest_state_vmx` and change nothing else |
| WorldSwitch.PopAll | ArinVisor/helpers.asm:129-144 | the sixteen pops deliver each member of the frame to its register |
| WorldSwitch.VmExitHandler | ArinVisor/helpers.asm:101-146 | for any handler that keeps the saved rsp: registers go in and come back member by member, RSP returns to its entry value, and VMRESUME is reached if and only if EAX came back other than 1 |
| WorldSwitch.FetchContext | ArinVisor/helpers.asm:153-161 | the guest's RSP and RIP are fetched with the frame intact |
| WorldSwitch.HandBack | ArinVisor/helpers.asm:163-192 | the guest's RIP goes through its own stack and all sixteen registers end as saved |
| WorldSwitch.VmxoffHandler | ArinVisor/helpers.asm:152-193 | ends at the guest's RIP and RSP with its registers; outside the virtual processor only the word below the guest's RSP changes |
| WorldSwitch.EnterGuest | ArinVisor/helpers.asm:52-99 | from RSP alone the routine finds the captured context and ends in it, registers, flags, RSP and RIP |
| WorldSwitch.CaptureContext | ArinVisor/load.cpp:86 | `guest_context` describes the caller's state with the address behind the call |
| ExitHandler.SplitThenJoin | ArinVisor/exit_handler.cpp:264-277 | splitting and joining MSR values are inverse, and the upper halves of the registers do not matter |
| ExitHandler.CpuidIsShown | ArinVisor/exit_handler.cpp:130-145 | a CPUID exit answers as the instruction would on a processor with the signature in leaf 0 and without sub-leaves |
| ExitHandler.CpuidIsNativeIff | ArinVisor/exit_handler.cpp:130-145 | it is the instruction on every processor if and only if the guest's EAX is not 0 and its ECX is 0 |
| ExitHandler.SubleafIsLost | ArinVisor/exit_handler.cpp:134 | sub-leaf 1 of leaf 4 is answered with sub-leaf 0 |
| ExitHandler.RdmsrIsNative | ArinVisor/exit_handler.cpp:264-270 | an RDMSR exit is the instruction: the MSR in EDX:EAX, upper halves clear, nothing else changed |
| ExitHandler.WrmsrIsNativeIff | ArinVisor/exit_handler.cpp:272-277 | the value written is EDX:EAX, and the MSR is the one in ECX if and only if EAX equals ECX |
| ExitHandler.WrmsrLeavesIff | ArinVisor/exit_handler.cpp:272-277 | all MSRs end as after the instruction if and only if EAX equals ECX or both MSRs hold the value already |
| ExitHandler.WriteBack | ArinVisor/exit_handler.cpp:264-277 | reading an MSR and writing it back: the value arrives, and in the right MSR exactly when its low half is the index |
| ExitHandler.WriteBackMisses | ArinVisor/exit_handler.cpp:274 | writing back an MSR that holds 0 writes MSR 0 |
| ExitHandler.ExitIsLegal | ArinVisor/vmx.cpp:165-193 | one exit for any reason: every VMX instruction is permitted, and the guest runs again unless the reason was VMXOFF, which leaves the region clear and no VMCS current |
| ExitHandler.Processor.VmexitCpuid | ArinVisor/exit_handler.cpp:130-145 | registers end as by CPUID on the processor that is shown; leaf 0 answers 0x41414141 in EBX |
| ExitHandler.Processor.VmexitRdmsr | ArinVisor/exit_handler.cpp:264-270 | registers end as by RDMSR |
| ExitHandler.Processor.VmexitWrmsr | ArinVisor/exit_handler.cpp:272-277 | EDX:EAX is written once, to the MSR in ECX if and only if EAX equals ECX |
| ExitHandler.Processor.VmExit | ArinVisor/vmcs.cpp:195-198 | an exit saves the guest's RIP and RSP and goes on at the host's |
| ExitHandler.Processor.VmEntry | ArinVisor/helpers.asm:146 | an entry goes on at the guest's RIP and RSP |
| ExitHandler.Processor.VmexitVmxoff | ArinVisor/exit_handler.cpp:222-242 | next RIP and RSP of the guest go to the context, VMX operation is left, and the VMCS region is clear and no longer current, so that it can be freed |
| ExitHandler.Processor.HandleVmExit | ArinVisor/exit_handler.cpp:7-78 | what the dispatch does for reasons 10, 26, 31, 32 and all others, and that only VMXOFF keeps RIP from moving |
| ExitHandler.Processor.VmExitHandler | ArinVisor/vmx.cpp:165-193 | 1 is returned for exit reason 26 only, with VMX operation left and the region released; otherwise 0, with RIP advanced by the instruction length; registers, MSRs and the MSR writes are those of the dispatch |
| RoundTrip.ExitAndResume | ArinVisor/helpers.asm:101-146 | a whole exit: the handler returns 0 and the assembly resumes; registers and MSRs as the dispatch says, RSP kept, RIP behind the instruction, guest memory untouched, VMX state as before |
| RoundTrip.ExitAndLeave | ArinVisor/helpers.asm:101-193 | the VMXOFF exit: the handler returns 1 and the assembly leaves; the same outside VMX operation with the VMCS region released, and only the word below the guest's RSP changes |
| RoundTrip.HandlerExists | ArinVisor/vmx.cpp:165-193 | for every virtual processor and return address there is a called function as `vm_exit_handler` is assumed to be |
| RoundTrip.ReaderExists | ArinVisor/utils.cpp:64-74 | and there are called functions as `read_rip` and `read_rsp` are assumed to be |
| Life.StepIsNativeIff | ArinVisor/exit_handler.cpp:7-78 | an exit is what every processor would have done by itself if and only if the guest's state at the exit says so |
| Life.RegistersDecide | ArinVisor/exit_handler.cpp:130-145 | for CPUID, RDMSR and WRMSR, on every processor with any MSRs: EAX not 0 and ECX 0, always, EAX equal to ECX |
| Life.RunIsNativeIff | ArinVisor/exit_handler.cpp:7-78 | the same for runs of any length with arbitrary guest code in between |
| Life.DispatchedRunIsNative | ArinVisor/exit_handler.cpp:7-78 | a run whose exits look native is a run of the processor without hypervisor |
| Life.WriteIsLost | ArinVisor/exit_handler.cpp:272-277 | WRMSR and RDMSR of one MSR: by itself the processor reads the value written, under the hypervisor the old one unless the value is the index |
| Life.RunPreserves | ArinVisor/exit_handler.cpp:7-78 | rbp, rsi, rdi and r8 to r15 survive a whole run if the guest's own code leaves them alone |
| Life.ServeExit | ArinVisor/vmx.cpp:165-193 | one stretch of guest code and its exit on the machine: registers, MSRs, RIP and memory as the dispatch says, and the rest kept |
| Life.ServeExits | ArinVisor/vmx.cpp:165-193 | any run on the machine: the instructions issued are those of `LifeIsLegal`, the guest ends where its code and the dispatch lead, and every exit keeps the rest |
| Life.EveryExitPreserves | ArinVisor/helpers.asm:101-146 | in such a run, the machine before and after each exit agrees on rbp, rsi, rdi, r8 to r15, RSP, guest memory, and MSRs but for WRMSR |
| Life.LifeIsLegal | ArinVisor/vmx.cpp:165-193 | any run of exits is legal, never launches again, and leaves VMX operation at most once and last, right behind the VMCLEAR of its region and with no VMCS active, exactly when the guest asks |
| Load.AdjustControlRegisters | ArinVisor/vmx.cpp:53-90 | CR0, and CR4 with bit 13 asked for, end at the nearest values the FIXED MSRs allow; bit 13 survives exactly when FIXED1 allows it |
| Load.EnableVmx | ArinVisor/vmx.cpp:25-90 | VMXON becomes possible if and only if the feature-control MSR and the fixed bits allow it |
| Load.SetupIsLegal | ArinVisor/load.cpp:28-79 | the set-up is legal if and only if processor and firmware support VMX, and then leaves a VMCS ready for VMLAUNCH |
| Load.FilledWhere | ArinVisor/vmcs.cpp:96-109 | after any number of VMWRITEs, failing ones included, which value guest and host RIP and RSP have |
| Load.WriteFields | ArinVisor/vmcs.cpp:75-85 | what the 77 VMWRITEs leave, and that success speaks only of those from number 48 on, the host's and the controls |
| Load.FailureIsLost | ArinVisor/vmcs.cpp:191 | when only the VMWRITE of guest RIP fails, success is reported and guest RIP keeps its old value |
| Load.BuildEpt | ArinVisor/load.cpp:69 | the `Ept` of a zeroed virtual processor is valid, and the pointer to its root maps every address below 2^39 to itself |
| Load.ExitMissesTables | ArinVisor/vcpu.h:23-31 | no byte that an exit changes belongs to a table that the guest runs on |
| Load.SetUpVmcs | ArinVisor/vmcs.cpp:38-86 | VMCLEAR, VMPTRLD and the VMWRITEs in a permitted order, and what of it was issued at each early return; host RIP and RSP, legal controls and the EPT pointer are in the VMCS |
| Load.SetUp | ArinVisor/load.cpp:28-79 | the whole set-up with its `Ept`: the EPT pointer in the VMCS walks to the identity, on tables off the stack; on every path, early returns included, which instructions were issued, and that VMX operation is on exactly when VMXON was reached and succeeded |
| Load.IsHypervisorPresent | ArinVisor/utils.cpp:76-83 | false in the host unless the processor carries the signature, true in the guest by way of an exit |
| Load.LaunchAndEnter | ArinVisor/load.cpp:90 | VMLAUNCH, `_enter_guest` on the stack in the VMCS, and back to the captured RIP, RSP, registers and flags |
| Load.LaunchHypervisor | ArinVisor/load.cpp:86-103 | unless the processor itself carries the signature 0x41414141, the code behind the capture is entered twice, the second time in the captured state by way of VMLAUNCH, which is issued once; the second pass returns true |
| Load.LoadHypervisor | ArinVisor/load.cpp:28-104 | the load as a whole: tables, VMCS and both passes, and on every path, early returns included, the trace and whether VMX operation is on |
| Load.WholeLifeIsLegal | ArinVisor/load.cpp:28-104 | from load to VMXOFF the trace is legal, launches exactly once, and ends, if the guest asks, in VMCLEAR and VMXOFF with the region released |
| Load.WholeLife | ArinVisor/load.cpp:28-104 | load, launch, any guest code with any exits, VMXOFF, of one processor as it happens: legal, on the identity map off the host stack, released at the end, ending where code and dispatch lead, which is a native run if every exit looks native |
| Sample.SampleLife | ArinVisor/load.cpp:28-104 | a system that meets all assumptions is loaded, runs natively and leaves VMX operation |
| Controls.ClampIsLegal | ArinVisor/vmcs.cpp:12-18 | the clamped value is legal if and only if any value is |
| Controls.ClampIsNearest | ArinVisor/vmcs.cpp:12-18 | no legal value is closer to the request, bit by bit |
| Controls.ClampIsStable | ArinVisor/vmcs.cpp:12-18 | exactly the legal requests are kept, and clamping twice is clamping once |
| Controls.StepsCommute | ArinVisor/vmcs.cpp:12-18 | for a consistent pair the or and the and may be taken in either order |
| Controls.ClampIsTheNearest | ArinVisor/vmcs.cpp:12-18 | the clamped value is the one nearest to the request among the values allowed, for every capability pair |
| Controls.RequestedBitSurvives | ArinVisor/vmcs.cpp:281-325 | a requested control is on if and only if the capability allows it |
| Controls.ClampIsAllowed | ArinVisor/vmcs.cpp:12-18 | for every bit b below 32: 0 if bit b+32 of the MSR is 0, 1 if bits b and b+32 are both 1, and the requested bit otherwise |
| Controls.SetControl | ArinVisor/vmcs.cpp:12-18 | the result is, bit by bit, what bits b and b+32 of the MSR allow of the request; it is legal and no legal value is closer to the request |
| Controls.SetupExecutionControls | ArinVisor/vmcs.cpp:261-369 | each of the five control words is bit by bit what its MSR allows of its request, and each requested control (31 and 28; 1, 3, 12 and 20; 9; 9) is on exactly when its MSR allows it: EPT by bit 33 of its own |
| Controls.SetFeatureControl | ArinVisor/vmx.cpp:31-51 | an unlocked MSR gets bits 0 to 2 and keeps all others; a locked one is left alone |
| Controls.VmxonPermittedIff | ArinVisor/vmx.cpp:31-51 | after the update VMXON is permitted unless firmware locked the MSR without bit 2 |
| Controls.SupportTestIsNotEnough | ArinVisor/utils.cpp:38-46 | the support test foretells whether VMXON is permitted except for an MSR with bits 0 and 1 set and bit 2 clear, such as 3, which passes it and does not permit VMXON |
| Segments.CodeOrDataBase | ArinVisor/arch.cpp:50-55 | decoding inverts the architectural encoding for every 32-bit base, whatever limit, type and flags |
| Segments.SystemBase | ArinVisor/arch.cpp:41-49 | the same for every 64-bit base of a system descriptor |
| Segments.GatherRoundTrip | ArinVisor/arch.h:542-566 | encoding the decoded base gives the descriptor back |
| Segments.SegmentBase | ArinVisor/arch.cpp:24-58 | for every GDT, the empty one included, and every selector into it: 0 for the four null selectors, else the 32- or 64-bit base that the descriptor encodes |
| Segments.NullIffIndexAndTableZero | ArinVisor/arch.cpp:32-35 | a selector counts as null exactly for index 0 in the GDT, whatever its privilege level |
| Teardown.FreeProcessor | ArinVisor/utils.cpp:55-58 | one processor's blocks are released once each, the virtual processor after all that refers to it |
| Teardown.FreeMemory | ArinVisor/utils.cpp:51-62 | for a fully loaded context nothing is released twice or followed after release, and everything is released |

## Left out

- Windows kernel services: pool, contiguous memory, affinity, IPI delivery. Their answers are parameters.
- INVEPT after a split: a walk sees the new tables at once. Issued in a launched guest, the VMREAD and INVEPT of `utils::invept` would themselves exit and do nothing.
- Walks that run concurrently with a split, and the window between `ept.cpp:79` and `ept.cpp:103`.
- Suppress-#VE and ignored bits of entries, which a split does not carry over, and five-level paging.
- MAXPHYADDR below 48: bits 47 to MAXPHYADDR of a frame are not checked as reserved.
- XMM registers, debug registers, `cli` and `sti`; the flags are captured and loaded by `_enter_guest` and otherwise not modelled. The eight bytes that it pushes at 0x44 count as flags, where CONTEXT has EFlags in the lower four and debug register bits above.
- The values of the guest and host fields other than RIP and RSP: their writes appear with their number, their order and their outcome. The control words and the EPT pointer have their values.
- `get_segment_access_rights`, a shift of what LAR returns; LDT selectors, which the code looks up in the GDT.
- The empty exit handlers, the debug break of the EPT handlers, and faults of RDMSR and WRMSR in root operation.
- Partial-load clean-up, a null list node, a null VMXON or VMCS region, a null `Ept` (`load.cpp` tests at most the object pointers of the others), and more than eight processors, none of which the code handles.
- MSRs that are not plain storage, or whose access faults: an MSR holds what was last written to it by an exit or by guest code.
- `driver_unload` and `DriverEntry` beyond the calls modelled here; per-processor state has no other sharing than the pool.
- Ept.Pool.Take: the pool does not model sizes or alignment, because only ownership is claimed.
