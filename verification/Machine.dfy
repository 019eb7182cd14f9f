/**
 Registers and byte-addressed memory of one processor, and the instructions that the world switch uses.
 Addresses and register values are 64-bit words and wrap around.
 */
module Machine {

  const MODULUS := 0x1_0000_0000_0000_0000

  type Word = n: nat | n < MODULUS

  type Byte = n: nat | n < 256

  type Memory = Word -> Byte

  function Add(a: Word, n: nat): Word {
    (a + n) % MODULUS
  }

  function Sub(a: Word, n: nat): Word {
    (a - n) % MODULUS
  }

  /** How far above `a` the address `x` lies, counting around the end of the address space. */
  function Above(x: Word, a: Word): Word {
    (x - a) % MODULUS
  }

  function Power(n: nat): nat {
    if n == 0 then 1 else 256 * Power(n - 1)
  }

  /** The `n` low bytes of `v`, least significant first. */
  function Bytes(v: nat, n: nat): (bs: seq<Byte>)
    ensures |bs| == n
  {
    if n == 0 then [] else [v % 256] + Bytes(v / 256, n - 1)
  }

  function Value(bs: seq<Byte>): (v: nat)
    ensures v < Power(|bs|)
  {
    if bs == [] then 0 else bs[0] + 256 * Value(bs[1..])
  }

  lemma {:induction false} BytesRoundTrip(v: nat, n: nat)
    requires v < Power(n)
    ensures Value(Bytes(v, n)) == v
  {
    if n > 0 {
      BytesRoundTrip(v / 256, n - 1);
      assert Bytes(v, n)[1..] == Bytes(v / 256, n - 1);
    }
  }

  lemma WordIsEightBytes()
    ensures Power(8) == MODULUS
  {
    assert Power(4) == 0x1_0000_0000;
  }

  /** The eight bytes at `a`, around the end of the address space if need be. */
  function BytesAt(m: Memory, a: Word): (bs: seq<Byte>)
    ensures |bs| == 8
  {
    seq<Byte>(8, k requires 0 <= k < 8 => m(Add(a, k)))
  }

  function Read64(m: Memory, a: Word): Word {
    WordIsEightBytes();
    Value(BytesAt(m, a))
  }

  /** The word at offset `o` of a structure at `base`. */
  function Field(m: Memory, base: nat, o: nat): Word
    requires base + o < MODULUS
  {
    Read64(m, base + o)
  }

  function Write64(m: Memory, a: Word, v: Word): Memory {
    (x: Word) => if Above(x, a) < 8 then Bytes(v, 8)[Above(x, a)] else m(x)
  }

  /** The word at `a`, which may wrap around, has no byte among the `len` bytes from `lo` up. */
  predicate WordApart(a: Word, lo: Word, len: nat) {
    len <= Above(a, lo) <= MODULUS - 8
  }

  lemma AboveOwn(a: Word, k: nat)
    requires k < 8
    ensures Above(Add(a, k), a) == k
  {
  }

  lemma AboveOther(b: Word, a: Word, k: nat)
    requires WordApart(b, a, 8) && k < 8
    ensures Above(Add(b, k), a) >= 8
  {
  }

  lemma ReadWritten(m: Memory, a: Word, v: Word)
    ensures Read64(Write64(m, a, v), a) == v
  {
    hide Bytes, Value, Power, Above, Add;
    WordIsEightBytes();
    BytesRoundTrip(v, 8);
    forall k | 0 <= k < 8 ensures BytesAt(Write64(m, a, v), a)[k] == Bytes(v, 8)[k] {
      AboveOwn(a, k);
    }
    assert BytesAt(Write64(m, a, v), a) == Bytes(v, 8);
  }

  lemma ReadElsewhere(m: Memory, a: Word, v: Word, b: Word)
    requires WordApart(b, a, 8)
    ensures Read64(Write64(m, a, v), b) == Read64(m, b)
  {
    hide Bytes, Value, Power, Above, Add, WordApart;
    forall k | 0 <= k < 8 ensures BytesAt(Write64(m, a, v), b)[k] == BytesAt(m, b)[k] {
      AboveOther(b, a, k);
    }
    assert BytesAt(Write64(m, a, v), b) == BytesAt(m, b);
  }

  /** Nothing changes outside the `len` bytes from `lo` up. */
  ghost predicate SameOutside(m: Memory, m': Memory, lo: nat, len: nat) {
    forall x: Word :: !(lo <= x < lo + len) ==> m'(x) == m(x)
  }

  lemma OutsideTwice(a: Memory, b: Memory, c: Memory, lo: nat, len: nat)
    requires SameOutside(a, b, lo, len) && SameOutside(b, c, lo, len)
    ensures SameOutside(a, c, lo, len) && SameOutside(c, a, lo, len)
  {
  }

  lemma ReadOutside(m: Memory, m': Memory, lo: Word, len: nat, a: Word)
    requires SameOutside(m, m', lo, len) && lo + len <= MODULUS && WordApart(a, lo, len)
    ensures Read64(m', a) == Read64(m, a)
  {
    hide Value, Power;
    forall k | 0 <= k < 8 ensures BytesAt(m', a)[k] == BytesAt(m, a)[k] {
      assert !(lo <= Add(a, k) < lo + len);
    }
    assert BytesAt(m', a) == BytesAt(m, a);
  }

  /** Nothing changes among the `len` bytes from `lo` up. */
  ghost predicate SameOn(m: Memory, m': Memory, lo: nat, len: nat) {
    forall x: Word :: lo <= x < lo + len ==> m'(x) == m(x)
  }

  lemma ReadOn(m: Memory, m': Memory, a: nat)
    requires a + 8 <= MODULUS && SameOn(m, m', a, 8)
    ensures Read64(m', a) == Read64(m, a)
  {
    hide Value, Power;
    forall k | 0 <= k < 8 ensures BytesAt(m', a)[k] == BytesAt(m, a)[k] {
      assert a <= Add(a, k) < a + 8;
    }
    assert BytesAt(m', a) == BytesAt(m, a);
  }

  lemma FieldsOn(m: Memory, m': Memory, base: nat, len: nat)
    requires base + len < MODULUS && SameOn(m, m', base, len)
    ensures forall o :: 0 <= o <= len - 8 ==> Field(m', base, o) == Field(m, base, o)
  {
    hide Read64;
    forall o | 0 <= o <= len - 8 ensures Field(m', base, o) == Field(m, base, o) {
      ReadOn(m, m', base + o);
    }
  }

  lemma WriteApart(m: Memory, a: Word, v: Word, lo: Word, len: nat)
    requires WordApart(a, lo, len) && lo + len <= MODULUS
    ensures SameOn(m, Write64(m, a, v), lo, len)
  {
    hide Bytes;
    forall x: Word | lo <= x < lo + len ensures Above(x, a) >= 8 {
    }
  }

  /** The words `vs` lie one after the other from `a` up. */
  ghost predicate Holds(m: Memory, a: nat, vs: seq<Word>)
    requires a + 8 * |vs| < MODULUS
    decreases |vs|
  {
    vs == [] || (Read64(m, a) == vs[0] && Holds(m, a + 8, vs[1..]))
  }

  lemma {:induction false} HoldsAt(m: Memory, a: nat, vs: seq<Word>, k: nat)
    requires a + 8 * |vs| < MODULUS && Holds(m, a, vs) && k < |vs|
    ensures Read64(m, a + 8 * k) == vs[k]
    decreases |vs|
  {
    if k > 0 {
      HoldsAt(m, a + 8, vs[1..], k - 1);
    }
  }

  lemma {:induction false} HoldsAfterChangeBelow(m: Memory, m': Memory, lo: nat, a: nat, vs: seq<Word>)
    requires lo <= a && a + 8 * |vs| < MODULUS && Holds(m, a, vs) && SameOutside(m, m', lo, a - lo)
    ensures Holds(m', a, vs)
    decreases |vs|
  {
    if vs != [] {
      ReadOutside(m, m', lo, a - lo, a);
      assert SameOutside(m, m', lo, a + 8 - lo);
      HoldsAfterChangeBelow(m, m', lo, a + 8, vs[1..]);
    }
  }

  /** The words `vs` stored one after the other from `a` up. */
  function StoreWords(m: Memory, a: nat, vs: seq<Word>): Memory
    requires a + 8 * |vs| < MODULUS
    decreases |vs|
  {
    if vs == [] then m else Write64(StoreWords(m, a + 8, vs[1..]), a, vs[0])
  }

  lemma {:induction false} StoredWords(m: Memory, a: nat, vs: seq<Word>)
    requires a + 8 * |vs| < MODULUS
    ensures Holds(StoreWords(m, a, vs), a, vs) && SameOutside(m, StoreWords(m, a, vs), a, 8 * |vs|)
    decreases |vs|
  {
    hide Read64, Write64;
    if vs != [] {
      var rest := StoreWords(m, a + 8, vs[1..]);
      StoredWords(m, a + 8, vs[1..]);
      WriteChangesEightBytes(rest, a, vs[0]);
      ReadWritten(rest, a, vs[0]);
      HoldsAfterChangeBelow(rest, StoreWords(m, a, vs), a, a + 8, vs[1..]);
    }
  }

  lemma WriteChangesEightBytes(m: Memory, a: nat, v: Word)
    requires a + 8 <= MODULUS
    ensures SameOutside(m, Write64(m, a, v), a, 8)
  {
    hide Bytes;
  }

  datatype Gprs = Gprs(
    rbp: Word, rax: Word, rbx: Word, rcx: Word, rdx: Word, rsi: Word, rdi: Word,
    r8: Word, r9: Word, r10: Word, r11: Word, r12: Word, r13: Word, r14: Word, r15: Word)

  /** What a called C function starts from and leaves behind. */
  datatype State = State(g: Gprs, rsp: Word, mem: Memory)

  /** A `call` of a function with this body: it starts on the return address, and its `ret` takes that off again. */
  function Called(body: State -> State, back: Word): State -> State {
    (s: State) =>
      var after := body(State(s.g, Sub(s.rsp, 8), Write64(s.mem, Sub(s.rsp, 8), back)));
      State(after.g, Add(after.rsp, 8), after.mem)
  }

  class Cpu {
    var g: Gprs
    var rsp: Word
    var rip: Word
    var flags: Word
    var mem: Memory

    constructor (g: Gprs, rsp: Word, mem: Memory)
      ensures this.g == g && this.rsp == rsp && this.mem == mem
    {
      this.g, this.rsp, this.mem := g, rsp, mem;
      rip, flags := 0, 0;
    }

    method Push(v: Word)
      modifies `rsp, `mem
      ensures rsp == Sub(old(rsp), 8)
      ensures mem == Write64(old(mem), rsp, v)
    {
      rsp := Sub(rsp, 8);
      mem := Write64(mem, rsp, v);
    }

    /** A push on a stack whose contents are known and that does not wrap. */
    method PushOn(v: Word, ghost held: seq<Word>)
      requires 8 <= rsp && rsp + 8 * |held| < MODULUS && Holds(mem, rsp, held)
      modifies `rsp, `mem
      ensures rsp == old(rsp) - 8
      ensures Holds(mem, rsp, [v] + held)
      ensures SameOutside(old(mem), mem, rsp, 8)
    {
      hide Read64, Write64, Holds, SameOutside;
      Push(v);
      WriteChangesEightBytes(old(mem), rsp, v);
      ReadWritten(old(mem), rsp, v);
      HoldsAfterChangeBelow(old(mem), mem, rsp, rsp + 8, held);
      HoldsCons(mem, rsp, v, held);
    }

    method Pop() returns (v: Word)
      modifies `rsp
      ensures v == Read64(mem, old(rsp))
      ensures rsp == Add(old(rsp), 8)
    {
      v := Read64(mem, rsp);
      rsp := Add(rsp, 8);
    }

    /** A pop on a stack that does not wrap. */
    method PopOff() returns (v: Word)
      requires rsp + 8 < MODULUS
      modifies `rsp
      ensures v == Read64(mem, old(rsp)) && rsp == old(rsp) + 8
    {
      v := Pop();
    }

    /** A call of C code: `callee` relates the state before the call instruction to the one after it. */
    method Call(callee: State -> State)
      modifies `g, `rsp, `mem
      ensures State(g, rsp, mem) == callee(State(old(g), old(rsp), old(mem)))
    {
      var after := callee(State(g, rsp, mem));
      g, rsp, mem := after.g, after.rsp, after.mem;
    }
  }

  lemma HoldsCons(m: Memory, a: nat, v: Word, vs: seq<Word>)
    requires a + 8 * (|vs| + 1) < MODULUS && Read64(m, a) == v && Holds(m, a + 8, vs)
    ensures Holds(m, a, [v] + vs)
  {
    assert ([v] + vs)[1..] == vs;
  }
}
