/**
 Clamping of VMX control words and of CR0 and CR4 to what the processor allows, and the feature-control MSR.
 Appendices A.3 to A.5, A.7 and A.8 of the Intel SDM, Volume 3: a bit that is 1 in the low half (or in FIXED0)
 must be 1, a bit that is 0 in the high half (or in FIXED1) must be 0.
 */
module Controls {

  /** Every bit of `a` is in `b`. */
  predicate Within(a: bv64, b: bv64) {
    a & !b == 0
  }

  predicate Legal(v: bv64, low: bv64, high: bv64) {
    Within(low, v) && Within(v, high)
  }

  /** The or-then-and of `set_control` and of `adjust_control_registers`. */
  function Clamp(f: bv64, low: bv64, high: bv64): bv64 {
    (f | low) & high
  }

  /** The result is legal if and only if the capability pair is consistent, that is, if anything is legal. */
  lemma ClampIsLegal(f: bv64, low: bv64, high: bv64)
    ensures Legal(Clamp(f, low, high), low, high) <==> Within(low, high)
    ensures Within(low, high) <==> exists v :: Legal(v, low, high)
  {
    if Within(low, high) {
      assert Legal(low, low, high);
    } else {
      forall v ensures !Legal(v, low, high) {
        if Legal(v, low, high) {
          LegalMeansConsistent(v, low, high);
        }
      }
    }
  }

  lemma LegalMeansConsistent(v: bv64, low: bv64, high: bv64)
    requires Legal(v, low, high)
    ensures Within(low, high)
  {
  }

  /** The bits in which two values differ. */
  function Difference(a: bv64, b: bv64): bv64 {
    a ^ b
  }

  /** No legal value is closer to the request: every bit the clamp changes, every legal value changes. */
  lemma ClampIsNearest(f: bv64, low: bv64, high: bv64, v: bv64)
    requires Legal(v, low, high)
    ensures Within(Difference(Clamp(f, low, high), f), Difference(v, f))
  {
  }

  /** A request is kept if and only if it is legal; clamping twice is clamping once. */
  lemma ClampIsStable(f: bv64, low: bv64, high: bv64)
    requires Within(low, high)
    ensures Legal(f, low, high) <==> Clamp(f, low, high) == f
    ensures Clamp(Clamp(f, low, high), low, high) == Clamp(f, low, high)
  {
    hide Clamp, Legal;
    ClampIsLegal(f, low, high);
    if Legal(f, low, high) {
      LegalIsKept(f, low, high);
    }
    LegalIsKept(Clamp(f, low, high), low, high);
  }

  lemma LegalIsKept(f: bv64, low: bv64, high: bv64)
    requires Legal(f, low, high)
    ensures Clamp(f, low, high) == f
  {
  }

  /** For a consistent pair the two steps may be taken in either order. */
  lemma StepsCommute(f: bv64, low: bv64, high: bv64)
    requires Within(low, high)
    ensures Clamp(f, low, high) == (f & high) | low
  {
    OneWay(f, low, high);
    OtherWay(f, low, high);
    SameBits(Clamp(f, low, high), (f & high) | low);
  }

  lemma OneWay(f: bv64, low: bv64, high: bv64)
    ensures Within(Clamp(f, low, high), (f & high) | low)
  {
  }

  lemma OtherWay(f: bv64, low: bv64, high: bv64)
    requires Within(low, high)
    ensures Within((f & high) | low, Clamp(f, low, high))
  {
  }

  lemma SameBits(a: bv64, b: bv64)
    requires Within(a, b) && Within(b, a)
    ensures a == b
  {
  }

  /** A requested bit is set in the result if and only if the processor allows it to be. */
  lemma RequestedBitSurvives(f: bv64, low: bv64, high: bv64, bit: bv64)
    requires Within(bit, f)
    ensures Within(bit, Clamp(f, low, high)) <==> Within(bit, high)
  {
    if Within(bit, high) {
      AllowedBitSurvives(f, low, high, bit);
    }
    if Within(bit, Clamp(f, low, high)) {
      SurvivingBitIsAllowed(f, low, high, bit);
    }
  }

  lemma AllowedBitSurvives(f: bv64, low: bv64, high: bv64, bit: bv64)
    requires Within(bit, f) && Within(bit, high)
    ensures Within(bit, Clamp(f, low, high))
  {
  }

  lemma SurvivingBitIsAllowed(f: bv64, low: bv64, high: bv64, bit: bv64)
    requires Within(bit, Clamp(f, low, high))
    ensures Within(bit, high)
  {
  }

  function LowPart(capability: bv64): bv64 {
    capability & 0xFFFF_FFFF
  }

  function HighPart(capability: bv64): bv64 {
    capability >> 32
  }

  /** A capability MSR that allows something: what must be 1 may be 1. */
  predicate Consistent(capability: bv64) {
    Within(LowPart(capability), HighPart(capability))
  }

  /** `r` is legal, and every legal value differs from the request `f` wherever `r` does. */
  ghost predicate Nearest(r: bv64, f: bv64, low: bv64, high: bv64) {
    Legal(r, low, high) && forall v :: Legal(v, low, high) ==> Within(Difference(r, f), Difference(v, f))
  }

  /** What must be 1, as far as it may be. */
  function Reconciled(low: bv64, high: bv64): bv64 {
    low & high
  }

  /**
   There is one nearest value and clamping finds it.  For an inconsistent pair it is nearest among the values that
   respect the high word, and the low word as far as the high word allows.
   */
  lemma ClampIsTheNearest(f: bv64, low: bv64, high: bv64, r: bv64)
    ensures Nearest(r, f, Reconciled(low, high), high) <==> r == Clamp(f, low, high)
    ensures Within(low, high) ==> Reconciled(low, high) == low
  {
    hide Clamp, Legal, Within, Reconciled;
    ClampReconciles(f, low, high);
    OnlyNearest(f, Reconciled(low, high), high, Clamp(f, low, high), r);
  }

  lemma OnlyNearest(f: bv64, low: bv64, high: bv64, c: bv64, r: bv64)
    requires Within(low, high) && c == Clamp(f, low, high)
    ensures Nearest(r, f, low, high) <==> r == c
  {
    hide Clamp, Legal, Within, Difference;
    ClampIsLegal(f, low, high);
    forall v | Legal(v, low, high) ensures Within(Difference(c, f), Difference(v, f)) {
      ClampIsNearest(f, low, high, v);
    }
    if Nearest(r, f, low, high) {
      SameBits(Difference(c, f), Difference(r, f));
      SameDistance(c, r, f);
    }
  }

  lemma ClampReconciles(f: bv64, low: bv64, high: bv64)
    ensures Within(Reconciled(low, high), high)
    ensures Within(low, high) ==> Reconciled(low, high) == low
    ensures Clamp(f, Reconciled(low, high), high) == Clamp(f, low, high)
  {
    hide Clamp, Reconciled, Within;
    ReconciledIsAllowed(low, high);
    if Within(low, high) {
      ConsistentStays(low, high);
    }
    ReconciledOneWay(f, low, high);
    ReconciledOtherWay(f, low, high);
    SameBits(Clamp(f, Reconciled(low, high), high), Clamp(f, low, high));
  }

  lemma ReconciledIsAllowed(low: bv64, high: bv64)
    ensures Within(Reconciled(low, high), high)
  {
  }

  lemma ConsistentStays(low: bv64, high: bv64)
    requires Within(low, high)
    ensures Reconciled(low, high) == low
  {
  }

  lemma ReconciledOneWay(f: bv64, low: bv64, high: bv64)
    ensures Within(Clamp(f, Reconciled(low, high), high), Clamp(f, low, high))
  {
  }

  lemma ReconciledOtherWay(f: bv64, low: bv64, high: bv64)
    ensures Within(Clamp(f, low, high), Clamp(f, Reconciled(low, high), high))
  {
  }

  lemma SameDistance(a: bv64, b: bv64, f: bv64)
    requires Difference(a, f) == Difference(b, f)
    ensures a == b
  {
  }

  /** The word that the capability MSR makes of a request. */
  ghost predicate NearestAllowed(r: bv64, request: bv64, capability: bv64) {
    && Nearest(r, request, Reconciled(LowPart(capability), HighPart(capability)), HighPart(capability))
    && (Consistent(capability) ==> Legal(r, LowPart(capability), HighPart(capability)))
  }

  predicate Bit(w: bv64, b: bv64)
    requires b < 64
  {
    (w >> b) & 1 == 1
  }

  /**
   The same bit by bit, from appendix A.3: bit b is 0 if bit b + 32 of the MSR is 0, else 1 if bit b of the MSR is 1,
   else as requested.
   */
  predicate BitIsAllowed(r: bv64, request: bv64, capability: bv64, b: bv64)
    requires b < 32
  {
    Bit(r, b) <==> if !Bit(capability, b + 32) then false else if Bit(capability, b) then true else Bit(request, b)
  }

  ghost predicate IsAllowed(r: bv64, request: bv64, capability: bv64) {
    r < 0x1_0000_0000 && forall b: bv64 :: b < 32 ==> BitIsAllowed(r, request, capability, b)
  }

  lemma ClampBit(f: bv64, low: bv64, high: bv64, capability: bv64, b: bv64)
    requires b < 32 && low == capability & 0xFFFF_FFFF && high == capability >> 32
    ensures BitIsAllowed((f | low) & high, f, capability, b)
  {
  }

  lemma ClampIsAllowed(f: bv64, capability: bv64)
    ensures IsAllowed(Clamp(f, LowPart(capability), HighPart(capability)), f, capability)
  {
    hide BitIsAllowed;
    var low, high := LowPart(capability), HighPart(capability);
    ClampIsNarrow(f, capability);
    forall b: bv64 | b < 32 ensures BitIsAllowed(Clamp(f, low, high), f, capability, b) {
      ClampBit(f, low, high, capability, b);
    }
  }

  lemma ClampIsNarrow(f: bv64, capability: bv64)
    ensures Clamp(f, LowPart(capability), HighPart(capability)) < 0x1_0000_0000
  {
  }

  /** The two assignments that control words and both control registers go through. */
  method OrThenAnd(value: bv64, low: bv64, high: bv64) returns (r: bv64)
    ensures r == Clamp(value, low, high)
  {
    r := value | low;
    r := r & high;
  }

  /** `field` is 32 bits wide, held in a 64-bit word. */
  method SetControl(field: bv64, capability: bv64) returns (r: bv64)
    ensures IsAllowed(r, field, capability)
    ensures NearestAllowed(r, field, capability)
  {
    hide Clamp, Legal, Within, LowPart, HighPart, Nearest, Reconciled, IsAllowed;
    ClampIsAllowed(field, capability);
    r := OrThenAnd(field, LowPart(capability), HighPart(capability));
    ClampIsTheNearest(field, LowPart(capability), HighPart(capability), r);
    NearestIsLegal(r, field, Reconciled(LowPart(capability), HighPart(capability)), HighPart(capability));
  }

  lemma NearestIsLegal(r: bv64, f: bv64, low: bv64, high: bv64)
    requires Nearest(r, f, low, high)
    ensures Legal(r, low, high)
  {
  }

  /** The capability MSRs; `hint` is bit 55 of IA32_VMX_BASIC, which says that the true versions exist. */
  datatype Capabilities = Capabilities(
    hint: bool, pin: bv64, truePin: bv64, proc: bv64, trueProc: bv64, proc2: bv64,
    entry: bv64, trueEntry: bv64, exit: bv64, trueExit: bv64)

  datatype ControlWords = ControlWords(pin: bv64, proc: bv64, proc2: bv64, entry: bv64, exit: bv64)

  /** Bits that the five setup functions ask for. */
  const PROC_REQUEST: bv64 := 0x9000_0000   // activate secondary controls, use MSR bitmaps
  const PROC2_REQUEST: bv64 := 0x10_100A    // RDTSCP, XSAVES, INVPCID, EPT
  const ENTRY_REQUEST: bv64 := 0x200        // IA-32e mode guest
  const EXIT_REQUEST: bv64 := 0x200         // host address-space size

  /** A bit that is asked for is on exactly if its upper half of the MSR allows it. */
  predicate IsOnIfAllowed(w: bv64, capability: bv64, b: bv64)
    requires b < 32
  {
    Bit(w, b) <==> Bit(capability, b + 32)
  }

  lemma RequestedBit(r: bv64, request: bv64, capability: bv64, b: bv64)
    requires b < 32 && IsAllowed(r, request, capability) && Bit(request, b)
    ensures IsOnIfAllowed(r, capability, b)
  {
    assert BitIsAllowed(r, request, capability, b);
  }

  /**
   The five control words of the VMCS, each as near to its request as the processor allows.  Of the processor controls,
   bits 31 and 28 are asked for (activate secondary controls, use MSR bitmaps); of the secondary ones bits 1, 3, 12 and
   20 (EPT, RDTSCP, INVPCID, XSAVES); of the entry controls bit 9 (IA-32e mode guest); of the exit controls bit 9 (host
   address-space size).
   */
  ghost predicate ControlsAreSet(w: ControlWords, c: Capabilities) {
    && ControlIsSet(w.pin, 0, if c.hint then c.truePin else c.pin, [])
    && ControlIsSet(w.proc, 0x9000_0000, if c.hint then c.trueProc else c.proc, [31, 28])
    && ControlIsSet(w.proc2, 0x10_100A, c.proc2, [1, 3, 12, 20])
    && ControlIsSet(w.entry, 0x200, if c.hint then c.trueEntry else c.entry, [9])
    && ControlIsSet(w.exit, 0x200, if c.hint then c.trueExit else c.exit, [9])
  }

  ghost predicate ControlIsSet(w: bv64, request: bv64, capability: bv64, asked: seq<bv64>) {
    && IsAllowed(w, request, capability) && NearestAllowed(w, request, capability)
    && forall k :: 0 <= k < |asked| ==> asked[k] < 32 && IsOnIfAllowed(w, capability, asked[k])
  }

  lemma ControlIsSetIf(w: bv64, request: bv64, capability: bv64, asked: seq<bv64>)
    requires IsAllowed(w, request, capability) && NearestAllowed(w, request, capability)
    requires forall k :: 0 <= k < |asked| ==> asked[k] < 32 && Bit(request, asked[k])
    ensures ControlIsSet(w, request, capability, asked)
  {
    hide IsAllowed, NearestAllowed, Bit;
    forall k | 0 <= k < |asked| ensures IsOnIfAllowed(w, capability, asked[k]) {
      RequestedBit(w, request, capability, asked[k]);
    }
  }

  lemma RequestsAsk()
    ensures Bit(0x9000_0000, 31) && Bit(0x9000_0000, 28)
    ensures Bit(0x10_100A, 1) && Bit(0x10_100A, 3) && Bit(0x10_100A, 12) && Bit(0x10_100A, 20) && Bit(0x200, 9)
  {
  }

  method SetupExecutionControls(c: Capabilities) returns (w: ControlWords)
    ensures ControlsAreSet(w, c)
  {
    hide IsAllowed, NearestAllowed, Bit, ControlIsSet;
    var pinMsr, procMsr := if c.hint then c.truePin else c.pin, if c.hint then c.trueProc else c.proc;
    var entryMsr, exitMsr := if c.hint then c.trueEntry else c.entry, if c.hint then c.trueExit else c.exit;
    var pin := SetControl(0, pinMsr);
    var proc := SetControl(PROC_REQUEST, procMsr);
    var proc2 := SetControl(PROC2_REQUEST, c.proc2);
    var entry := SetControl(ENTRY_REQUEST, entryMsr);
    var exit := SetControl(EXIT_REQUEST, exitMsr);
    w := ControlWords(pin, proc, proc2, entry, exit);
    RequestsAsk();
    ControlIsSetIf(pin, 0, pinMsr, []);
    ControlIsSetIf(proc, 0x9000_0000, procMsr, [31, 28]);
    ControlIsSetIf(proc2, 0x10_100A, c.proc2, [1, 3, 12, 20]);
    ControlIsSetIf(entry, 0x200, entryMsr, [9]);
    ControlIsSetIf(exit, 0x200, exitMsr, [9]);
  }

  const VMXE: bv64 := 0x2000

  /** CR4 as first written: VMXE set and nothing else changed. */
  function WithVmxe(cr4: bv64): bv64 {
    cr4 | VMXE
  }

  lemma VmxeIsAsked(cr4: bv64)
    ensures Within(VMXE, WithVmxe(cr4)) && WithVmxe(cr4) == cr4 | 0x2000
  {
  }

  lemma VmxeIsBit13(cr4: bv64)
    ensures Within(VMXE, cr4) <==> Bit(cr4, 13)
  {
  }

  /** IA32_FEATURE_CONTROL: lock is bit 0, VMX inside SMX bit 1, VMX outside SMX bit 2. */
  predicate Locked(msr: bv64) { msr & 0x1 != 0 }

  predicate InSmx(msr: bv64) { msr & 0x2 != 0 }

  predicate OutsideSmx(msr: bv64) { msr & 0x4 != 0 }

  /** VMXON outside SMX operation needs a locked MSR with bit 2 set. */
  predicate PermitsVmxon(msr: bv64) {
    Locked(msr) && OutsideSmx(msr)
  }

  /** The test of `is_vmx_supported`. */
  predicate FirmwareAllows(msr: bv64) {
    !(Locked(msr) && !OutsideSmx(msr) && !InSmx(msr))
  }

  /** Of an unlocked MSR bits 0 to 2 are set and all others kept; a locked one stays as it is. */
  predicate IsLockedAndEnabled(msr: bv64, r: bv64) {
    if msr & 1 != 0 then r == msr else r & 7 == 7 && r & !7 == msr & !7
  }

  /**
   `set_feature_control`: an unlocked MSR gets both enable bits and the lock and keeps all others, a locked one stays.
   */
  method SetFeatureControl(msr: bv64) returns (r: bv64)
    ensures r == FeatureControl(msr) && IsLockedAndEnabled(msr, r)
  {
    hide FeatureControl, IsLockedAndEnabled, Locked;
    FeatureControlBits(msr);
    r := msr;
    if !Locked(r) {
      r := r | 0x1;
      r := r | 0x4;
      r := r | 0x2;
      ThreeBits(msr, r);
    }
  }

  function FeatureControl(msr: bv64): bv64 {
    if Locked(msr) then msr else msr | 0x7
  }

  lemma ThreeBits(msr: bv64, r: bv64)
    requires !Locked(msr) && r == ((msr | 0x1) | 0x4) | 0x2
    ensures r == FeatureControl(msr)
  {
  }

  lemma FeatureControlBits(msr: bv64)
    ensures Locked(msr) ==> FeatureControl(msr) == msr
    ensures IsLockedAndEnabled(msr, FeatureControl(msr))
  {
  }

  /** VMXON is permitted afterwards unless firmware locked the MSR without bit 2. */
  lemma VmxonPermittedIff(msr: bv64)
    ensures PermitsVmxon(FeatureControl(msr)) <==> !(Locked(msr) && !OutsideSmx(msr))
    ensures PermitsVmxon(FeatureControl(msr)) <==> !(msr & 1 != 0 && msr & 4 == 0)
    ensures !FirmwareAllows(msr) ==> !PermitsVmxon(FeatureControl(msr))
  {
  }

  /**
   The support test answers whether VMXON outside SMX will be permitted, except for an MSR that is locked with bit 1
   and without bit 2: then it lets the processor through and VMXON faults.
   */
  lemma SupportTestIsNotEnough(msr: bv64)
    ensures (FirmwareAllows(msr) <==> PermitsVmxon(FeatureControl(msr))) <==> msr & 7 != 3
    ensures FirmwareAllows(0x3) && !PermitsVmxon(FeatureControl(0x3))
  {
  }
}
