/** Running the in-line flag sequence: it leaves exactly the flags in `need` as the interpreter's
    routine would, and every other bit of the flags word unchanged. */
module InlineRuns {
  import opened Words
  import opened StatusFlags
  import opened A64
  import opened Execution
  import opened CodeGen
  import opened Fragments
  import opened InlineFlags

  /** The interpreter's flag routine behind a helper. */
  function Routine(fn: Helper, f: Flags, a: u64, b: u64, r: u64, size: Size): Flags {
    match fn
    case HAdd => FlagsAdd(f, a, b, r, size)
    case HSub => FlagsSub(f, a, b, r, size)
    case HInc => FlagsInc(f, a, r, size)
    case HDec => FlagsDec(f, a, r, size)
    case _ => FlagsLogic(f, r, size)
  }

  /** The operands and the result of an operation, as left in x1, x2 and x3. */
  predicate OperandsFit(fn: Helper, a: u64, b: u64, r: u64, size: Size) {
    match fn
    case HAdd => Trunc(r, size) == Trunc(a + b, size)
    case HSub => Trunc(r, size) == Trunc(a - b, size)
    case HInc => b == 1 && Trunc(r, size) == Trunc(a + b, size)
    case HDec => b == 1 && Trunc(r, size) == Trunc(a - b, size)
    case HLogic => r < Modulus(size)
    case _ => false
  }

  /** Everything but x9 to x12 and the condition flags is as it was. */
  predicate FlagScratch(m: Machine, m': Machine) {
    && m' == m.(x := m'.x, f := m'.f)
    && X(m', 1) == X(m, 1) && X(m', 2) == X(m, 2) && X(m', 3) == X(m, 3) && X(m', CPU) == X(m, CPU)
  }

  /** The condition flags give the x86 flags t, with the carry inverted after a subtraction. */
  predicate Matches(fn: Helper, n: Nzcv, t: Flags) {
    && n.z == t.zf && n.n == t.sf
    && (fn.HLogic? ==> !t.cf && !t.of)
    && (!fn.HLogic? ==> n.v == t.of)
    && (fn.HAdd? ==> n.c == t.cf) && (fn.HSub? ==> n.c == !t.cf)
  }

  lemma NzcvMatches(fn: Helper, f: Flags, a: u64, b: u64, r: u64, w: bool)
    requires OperandsFit(fn, a, b, r, if w then 4 else 8)
    ensures var n := if fn.HAdd? || fn.HInc? then AddsFlags(a, b, if w then 4 else 8)
                     else if fn.HSub? || fn.HDec? then SubsFlags(a, b, if w then 4 else 8)
                     else AndsFlags(r, r, w);
      Matches(fn, n, Routine(fn, f, a, b, r, if w then 4 else 8))
  {
    hide AddsFlags, SubsFlags, AndsFlags, FlagsAdd, FlagsSub, FlagsLogic, Trunc;
    if fn.HAdd? || fn.HInc? {
      AddsAgrees(f, a, b, r, if w then 4 else 8);
    } else if fn.HSub? || fn.HDec? {
      SubsAgrees(f, a, b, r, if w then 4 else 8);
    } else {
      AndsAgrees(f, r, w);
    }
  }

  lemma StepSetFlags(env: Env, fop: FlagOp, w: bool, n: int, k: int, m: Machine)
    ensures Step(env, SetFlagsZr(fop, w, n, k), m) == m.(f := SetNzcv(fop, w, X(m, n), X(m, k)))
  {
    hide SetNzcv, Value, StepCall, StepLoad, StepStore;
  }

  lemma RepeatRuns(env: Env, fn: Helper, wanted: bool, w: bool, f: Flags, m: Machine)
    requires OperandsFit(fn, X(m, 1), X(m, 2), X(m, 3), if w then 4 else 8)
    ensures var out := Exec(env, When(wanted, [Repeat(fn, w)]), m);
      out.At? && out.k == 0 && FlagScratch(m, out.m)
      && (wanted ==> Matches(fn, out.m.f, Routine(fn, f, X(m, 1), X(m, 2), X(m, 3), if w then 4 else 8)))
  {
    hide Step, Exec, AddsFlags, SubsFlags, AndsFlags, Routine, Matches, OperandsFit;
    if wanted {
      NzcvMatches(fn, f, X(m, 1), X(m, 2), X(m, 3), w);
      var i := Repeat(fn, w);
      StepSetFlags(env, i.fop, w, i.n, i.m, m);
      Run1(env, i, m);
    } else {
      EmptyRuns(env, m);
    }
  }

  // --- collecting flag bits in x10 -----------------------------------------------------------

  function Single(bit: nat, on: bool): FlagSet {
    FlagSet(bit == 0 && on, bit == 2 && on, bit == 4 && on, bit == 6 && on, bit == 7 && on, bit == 11 && on)
  }

  lemma OrFlag(acc: FlagSet, bit: nat, on: bool)
    requires FlagBit(bit)
    ensures Bits(Or, acc.Mask(), Shl(if on then 1 else 0, bit)) == acc.Join(Single(bit, on)).Mask()
  {
    hide Bits, Word, Shl;
    SingleMask(bit, on);
    WordOp(Or, Bare(acc), Single(bit, on));
    assert Combine(Or, Bare(acc), Single(bit, on)) == Bare(acc.Join(Single(bit, on)));
  }

  lemma SingleMask(bit: nat, on: bool)
    requires FlagBit(bit)
    ensures Single(bit, on).Mask() == Shl(if on then 1 else 0, bit)
  {
    hide FlagSet.Mask, Shl;
    MaskValues();
    ShlValues();
    if !on {
      ShlZero(bit);
      assert Single(bit, on) == NONE;
    } else if bit == 0 {
      assert Single(bit, on) == NONE.(cf := true);
    } else if bit == 2 {
      assert Single(bit, on) == NONE.(pf := true);
    } else if bit == 4 {
      assert Single(bit, on) == NONE.(af := true);
    } else if bit == 6 {
      assert Single(bit, on) == NONE.(zf := true);
    } else if bit == 7 {
      assert Single(bit, on) == NONE.(sf := true);
    } else {
      assert Single(bit, on) == NONE.(of := true);
    }
  }

  lemma MaskSum(s: FlagSet)
    ensures s.Mask() == Weight(s.cf, 1) + 4 * Weight(s.pf, 1) + 16 * Weight(s.af, 1) + 64 * Weight(s.zf, 1)
                        + 128 * Weight(s.sf, 1) + 2048 * Weight(s.of, 1)
  {
    hide Weight, TopWord, UpperWord, FlagSet.Mask, Word, Bare;
    var f := Bare(s);
    BareIs(s);
    TopSum(f);
    UpperSum(f);
    LowerSum(f);
    MaskWord(s);
    MaskParts(Weight(s.cf, 1), Weight(s.pf, 1), Weight(s.af, 1), Weight(s.zf, 1), Weight(s.sf, 1), Weight(s.of, 1),
              TopWord(f), UpperWord(f), s.Mask());
  }

  lemma MaskParts(c: int, p: int, a: int, z: int, n: int, o: int, top: int, upper: int, word: int)
    requires top == 8 * o && upper == a + 4 * z + 8 * n + 16 * top && word == c + 4 * p + 16 * upper
    ensures word == c + 4 * p + 16 * a + 64 * z + 128 * n + 2048 * o
  {
  }

  lemma BareIs(s: FlagSet)
    ensures var f := Bare(s);
      f.other == Reserved(0, 0, 0, 0,
          0) && f.cf == s.cf && f.pf == s.pf && f.af == s.af && f.zf == s.zf && f.sf == s.sf && f.of == s.of
  {
  }

  lemma MaskWord(s: FlagSet)
    ensures s.Mask() == Word(Bare(s))
  {
    hide Word;
  }

  lemma TopSum(f: Flags)
    ensures TopWord(f) == f.other.b8 + 8 * Weight(f.of, 1) + 16 * f.other.b12
  {
    hide Weight;
  }

  lemma UpperSum(f: Flags)
    ensures UpperWord(f)
         == Weight(f.af, 1) + 2 * f.other.b5 + 4 * Weight(f.zf, 1) + 8 * Weight(f.sf, 1) + 16 * TopWord(f)
  {
    hide Weight, TopWord;
  }

  lemma LowerSum(f: Flags)
    ensures Word(f) == Weight(f.cf, 1) + 2 * f.other.b1 + 4 * Weight(f.pf, 1) + 8 * f.other.b3 + 16 * UpperWord(f)
  {
    hide Weight, UpperWord;
  }

  lemma MaskValues()
    ensures NONE.Mask() == 0
    ensures NONE.(cf := true).Mask() == 1
    ensures NONE.(pf := true).Mask() == 4
    ensures NONE.(af := true).Mask() == 16
    ensures NONE.(zf := true).Mask() == 64
    ensures NONE.(sf := true).Mask() == 128
    ensures NONE.(of := true).Mask() == 2048
  {
    hide FlagSet.Mask;
    MaskSum(NONE);
    MaskSum(NONE.(cf := true));
    MaskSum(NONE.(pf := true));
    MaskSum(NONE.(af := true));
    MaskSum(NONE.(zf := true));
    MaskSum(NONE.(sf := true));
    MaskSum(NONE.(of := true));
  }

  lemma ShlValues()
    ensures Shl(1, 0) == 1 && Shl(1, 2) == 4 && Shl(1, 4) == 16 && Shl(1, 6) == 64 && Shl(1, 7) == 128
        && Shl(1, 11) == 2048
  {
  }

  lemma ShlZero(bit: nat)
    requires bit < 64
    ensures Shl(0, bit) == 0
  {
    hide Pow2;
    var p := Pow2(bit);
    assert 0 * p == 0;
  }

  /** x10 holds the flags collected so far. */
  predicate Holding(m: Machine, acc: FlagSet) { X(m, 10) == acc.Mask() }

  /** acc' is acc with flag `bit` added if `on`. */
  predicate Adds(acc: FlagSet, acc': FlagSet, bit: nat, on: bool) { acc' == acc.Join(Single(bit, on)) }

  /** A piece of the sequence after which x10 holds acc'. */
  predicate Collects(m: Machine, out: Outcome, acc': FlagSet) {
    out.At? && out.k == 0 && FlagScratch(m, out.m) && out.m.f == m.f && Holding(out.m, acc')
  }

  lemma AddsNothing(acc: FlagSet, acc': FlagSet, bit: nat)
    requires Adds(acc, acc', bit, false)
    ensures acc' == acc
  {
  }

  lemma StepCset(env: Env, d: int, c: int, on: bool, m: Machine)
    requires Holds(m.f, c) == on
    ensures Step(env, Set(d, Cset(c)), m) == SetX(m, d, if on then 1 else 0)
  {
    hide Step, Holds;
    StepSet(env, d, Cset(c), m);
  }

  lemma CollectRuns(env: Env, bit: nat, on: bool, acc: FlagSet, acc': FlagSet, m: Machine)
    requires FlagBit(bit) && Holding(m, acc) && X(m, 11) == (if on then 1 else 0) && Adds(acc, acc', bit, on)
    ensures Step(env, Set(10, OrrLsl(10, 11, bit)), m) == SetX(m, 10, acc'.Mask())
  {
    hide Step, Bits, Shl, FlagSet.Mask, FlagSet.Join, Single;
    StepSet(env, 10, OrrLsl(10, 11, bit), m);
    OrFlag(acc, bit, on);
  }

  lemma GatherRuns(env: Env, wanted: bool, c: int, bit: nat, on: bool, acc: FlagSet, acc': FlagSet, m: Machine)
    requires FlagBit(bit) && Holding(m, acc) && Adds(acc, acc', bit, wanted && on)
    requires wanted ==> Holds(m.f, c) == on
    ensures Collects(m, Exec(env, When(wanted, Gather(c, bit)), m), acc')
  {
    hide Step, Exec, Holds, FlagSet.Mask, Adds;
    if wanted {
      StepCset(env, 11, c, on, m);
      CollectRuns(env, bit, on, acc, acc', SetX(m, 11, if on then 1 else 0));
      Run2(env, Set(11, Cset(c)), Set(10, OrrLsl(10, 11, bit)), m);
    } else {
      EmptyRuns(env, m);
      AddsNothing(acc, acc', bit);
    }
  }

  // --- parity and the nibble carry -------------------------------------------------------------

  /** Odd parity of the low n bits. */
  predicate OddBits(v: nat, n: nat) {
    n > 0 && ((v % 2 == 1) != OddBits(v / 2, n - 1))
  }

  lemma {:induction false} OnesOdd(v: nat, n: nat)
    requires v < Pow2(n)
    ensures (Ones(v) % 2 == 1) == OddBits(v, n)
    decreases n
  {
    if n > 0 { OnesOdd(v / 2, n - 1); }
    if v == 0 { OddZero(n); }
  }

  lemma {:induction false} OddZero(n: nat)
    ensures !OddBits(0, n)
  {
    if n > 0 { OddZero(n - 1); }
  }

  lemma OddByBits(v: nat)
    ensures OddBits(v, 8) == (((Bit(v, 0) != Bit(v, 1)) != (Bit(v, 2) != Bit(v, 3)))
                              != ((Bit(v, 4) != Bit(v, 5)) != (Bit(v, 6) != Bit(v, 7))))
  {
    assert !OddBits(v, 0);
    OddPair(v, 8);
    OddPair(v / 4, 6);
    OddPair(v / 4 / 4, 4);
    OddPair(v / 4 / 4 / 4, 2);
    BitQuarter(v, 2);
    BitQuarter(v, 3);
    BitQuarter(v, 4);
    BitQuarter(v, 5);
    BitQuarter(v, 6);
    BitQuarter(v, 7);
    BitQuarter(v / 4, 2);
    BitQuarter(v / 4, 3);
    BitQuarter(v / 4, 4);
    BitQuarter(v / 4, 5);
    BitQuarter(v / 4 / 4, 2);
    BitQuarter(v / 4 / 4, 3);
  }

  lemma OddPair(v: nat, n: nat)
    requires n >= 2
    ensures OddBits(v, n) == ((Bit(v, 0) != Bit(v, 1)) != OddBits(v / 4, n - 2))
  {
    assert v / 2 / 2 == v / 4;
  }

  lemma BitQuarter(v: nat, i: nat)
    requires i >= 2
    ensures Bit(v, i) == Bit(v / 4, i - 2)
  {
    assert v / 2 / 2 == v / 4;
  }

  function Fold(v: u64, k: int): u64 { Bits(Xor, v, Shr(v, k)) }

  lemma FoldBit(v: u64, k: nat, i: nat)
    requires k < 64 && i < 64
    ensures Bit(Fold(v, k), i) == (Bit(v, i) != Bit(v, i + k))
  {
    BitwiseBit(Xor, v, Shr(v, k), 64, i);
    BitShift(v, k, i);
  }

  /** Three folds leave the parity of the low byte in bit 0. */
  lemma FoldsParity(v: u64)
    ensures Bit(Fold(Fold(Fold(v, 4), 2), 1), 0) == OddBits(v, 8)
  {
    hide Fold, Bit;
    var v1 := Fold(v, 4);
    var v2 := Fold(v1, 2);
    FoldBit(v2, 1, 0);
    FoldBit(v1, 2, 0);
    FoldBit(v1, 2, 1);
    FoldBit(v, 4, 0);
    FoldBit(v, 4, 1);
    FoldBit(v, 4, 2);
    FoldBit(v, 4, 3);
    OddByBits(v);
  }

  lemma {:induction false} OddLow(v: nat, n: nat)
    ensures OddBits(v, n) == OddBits(v % Pow2(n), n)
    decreases n
  {
    if n > 0 {
      HalfMod(v, Pow2(n - 1));
      OddLow(v / 2, n - 1);
      assert (v % Pow2(n)) / 2 == (v / 2) % Pow2(n - 1);
    }
  }

  lemma ParityValue(v: u64)
    ensures Bits(Xor, Field(Fold(Fold(Fold(v, 4), 2), 1), 0, 1), Shl(1, 0)) == if EvenParity(v) then 1 else 0
  {
    hide Fold, OddBits, Ones, Bits, Bit;
    var p := Fold(Fold(Fold(v, 4), 2), 1);
    FoldsParity(v);
    OddLow(v, 8);
    OnesOdd(v % 0x100, 8);
    Pow2Values();
    BitZeroIsLow(p);
    XorOne(p % 2);
  }

  lemma BitZeroIsLow(p: u64)
    ensures Field(p, 0, 1) == p % 2 && Bit(p, 0) == (p % 2 == 1)
  {
    assert Pow2(1) == 2 && Pow2(0) == 1;
  }

  lemma XorOne(b: u64)
    requires b < 2
    ensures Bits(Xor, b, Shl(1, 0)) == 1 - b
  {
    ShlValues();
    Pow2Values();
    var r := Bitwise(Xor, b / 2, 1 / 2, 63);
    assert b / 2 == 0 && 1 / 2 == 0;
    XorZeros(63);
  }

  lemma {:induction false} XorZeros(n: nat)
    ensures Bitwise(Xor, 0, 0, n) == 0
  {
    if n > 0 { XorZeros(n - 1); }
  }

  lemma StepFold(env: Env, d: int, n: int, k: int, m: Machine)
    ensures Step(env, Set(d, EorLsr(n, n, k)), m) == SetX(m, d, Fold(X(m, n), k))
  {
    hide Step, Bits, Shr;
    StepSet(env, d, EorLsr(n, n, k), m);
  }

  /** The parity flag, into x11. */
  lemma ParityBit(env: Env, m: Machine)
    ensures Exec(env, [Set(11, EorLsr(3, 3, 4)), Set(11, EorLsr(11, 11, 2)), Set(11, EorLsr(11, 11, 1))], m)
         == At(0, SetX(m, 11, Fold(Fold(Fold(X(m, 3), 4), 2), 1)))
  {
    hide Step, Exec, Fold;
    var v1 := Fold(X(m, 3), 4);
    var m1 := SetX(m, 11, v1);
    StepFold(env, 11, 3, 4, m);
    var m2 := SetX(m1, 11, Fold(v1, 2));
    StepFold(env, 11, 11, 2, m1);
    StepFold(env, 11, 11, 1, m2);
    Run3(env, Set(11, EorLsr(3, 3, 4)), Set(11, EorLsr(11, 11, 2)), Set(11, EorLsr(11, 11, 1)), m);
  }

  /** The last three steps: bit 0, inverted, into the collected word. */
  lemma ParityTail(env: Env, v: u64, acc: FlagSet, acc': FlagSet, m: Machine)
    requires Holding(m, acc) && X(m, 11) == Fold(Fold(Fold(v, 4), 2), 1) && Adds(acc, acc', 2, EvenParity(v))
    ensures Collects(m, Exec(env, [Set(11, Ubfx(11, 0, 1)), Set(11, EorBit(11, 0)), Set(10, OrrLsl(10, 11, 2))], m),
        acc')
  {
    hide Step, Exec, Fold, FlagSet.Mask, Adds, EvenParity, Field, Bits, Shl;
    var on := EvenParity(v);
    var m2 := SetX(m, 11, Field(X(m, 11), 0, 1));
    StepUbfx(env, 11, 11, 0, 1, m);
    ParityValue(v);
    var m3 := SetX(m2, 11, if on then 1 else 0);
    StepEorBit(env, 11, 11, 0, m2);
    CollectRuns(env, 2, on, acc, acc', m3);
    Run3(env, Set(11, Ubfx(11, 0, 1)), Set(11, EorBit(11, 0)), Set(10, OrrLsl(10, 11, 2)), m);
  }

  lemma ParityRuns(env: Env, wanted: bool, acc: FlagSet, acc': FlagSet, m: Machine)
    requires Holding(m, acc) && Adds(acc, acc', 2, wanted && EvenParity(X(m, 3)))
    ensures Collects(m, Exec(env, When(wanted, ParityCode()), m), acc')
  {
    hide Step, Exec, Fold, FlagSet.Mask, Adds, EvenParity;
    if wanted {
      var head := [Set(11, EorLsr(3, 3, 4)), Set(11, EorLsr(11, 11, 2)), Set(11, EorLsr(11, 11, 1))];
      var tail := [Set(11, Ubfx(11, 0, 1)), Set(11, EorBit(11, 0)), Set(10, OrrLsl(10, 11, 2))];
      var m1 := SetX(m, 11, Fold(Fold(Fold(X(m, 3), 4), 2), 1));
      ParityBit(env, m);
      ParityTail(env, X(m, 3), acc, acc', m1);
      Then(env, head, tail, m, m1);
    } else {
      EmptyRuns(env, m);
      AddsNothing(acc, acc', 2);
    }
  }

  lemma StepUbfx(env: Env, d: int, n: int, lsb: int, width: int, m: Machine)
    ensures Step(env, Set(d, Ubfx(n, lsb, width)), m) == SetX(m, d, Field(X(m, n), lsb, width))
  {
    hide Step, Field;
    StepSet(env, d, Ubfx(n, lsb, width), m);
  }

  lemma StepEorBit(env: Env, d: int, n: int, k: int, m: Machine)
    ensures Step(env, Set(d, EorBit(n, k)), m) == SetX(m, d, Bits(Xor, X(m, n), Shl(1, k)))
  {
    hide Step, Bits, Shl;
    StepSet(env, d, EorBit(n, k), m);
  }

  lemma StepArith(env: Env, op: Op3, d: int, n: int, k: int, m: Machine)
    ensures Step(env, Set(d, Arith(op, false, n, k)), m) == SetX(m, d, Op3Result(op, false, X(m, n), X(m, k)))
  {
    hide Step, Op3Result;
    StepSet(env, d, Arith(op, false, n, k), m);
  }

  /** Bit 4 of a ^ b ^ r, as the interpreter tests it. */
  predicate NibbleCarry(a: u64, b: u64, r: u64) { (Nibble(a) != Nibble(b)) != Nibble(r) }

  lemma NibbleValue(a: u64, b: u64, r: u64)
    ensures Field(Bits(Xor, Bits(Xor, a, b), r), 4, 1) == if NibbleCarry(a, b, r) then 1 else 0
  {
    var x := Bits(Xor, a, b);
    BitwiseBit(Xor, x, r, 64, 4);
    BitwiseBit(Xor, a, b, 64, 4);
    FourthBit(a);
    FourthBit(b);
    FourthBit(r);
    FourthBit(Bits(Xor, x, r));
    FourthField(Bits(Xor, x, r));
  }

  lemma FourthBit(v: u64)
    ensures Bit(v, 4) == Nibble(v)
  {
    assert Pow2(4) == 16;
    BitDiv(v, 4);
  }

  lemma FourthField(v: u64)
    ensures Field(v, 4, 1) == (v / 16) % 2
  {
    assert Pow2(4) == 16 && Pow2(1) == 2;
  }

  lemma NibbleHead(env: Env, m: Machine)
    ensures Exec(env, [Set(11, Arith(OpEor, false, 1, 2)), Set(11, Arith(OpEor, false, 11, 3))], m)
         == At(0, SetX(m, 11, Bits(Xor, Bits(Xor, X(m, 1), X(m, 2)), X(m, 3))))
  {
    hide Step, Exec, Bits;
    StepArith(env, OpEor, 11, 1, 2, m);
    StepArith(env, OpEor, 11, 11, 3, SetX(m, 11, Bits(Xor, X(m, 1), X(m, 2))));
    Run2(env, Set(11, Arith(OpEor, false, 1, 2)), Set(11, Arith(OpEor, false, 11, 3)), m);
  }

  lemma NibbleTail(env: Env, on: bool, acc: FlagSet, acc': FlagSet, m: Machine)
    requires Holding(m, acc) && Field(X(m, 11), 4, 1) == (if on then 1 else 0) && Adds(acc, acc', 4, on)
    ensures Collects(m, Exec(env, [Set(11, Ubfx(11, 4, 1)), Set(10, OrrLsl(10, 11, 4))], m), acc')
  {
    hide Step, Exec, FlagSet.Mask, Adds, Field;
    StepUbfx(env, 11, 11, 4, 1, m);
    CollectRuns(env, 4, on, acc, acc', SetX(m, 11, if on then 1 else 0));
    Run2(env, Set(11, Ubfx(11, 4, 1)), Set(10, OrrLsl(10, 11, 4)), m);
  }

  lemma NibbleRuns(env: Env, wanted: bool, acc: FlagSet, acc': FlagSet, m: Machine)
    requires Holding(m, acc) && Adds(acc, acc', 4, wanted && NibbleCarry(X(m, 1), X(m, 2), X(m, 3)))
    ensures Collects(m, Exec(env, When(wanted, NibbleCode()), m), acc')
  {
    hide Step, Exec, FlagSet.Mask, Adds, NibbleCarry, Bits, Field;
    if wanted {
      var m1 := SetX(m, 11, Bits(Xor, Bits(Xor, X(m, 1), X(m, 2)), X(m, 3)));
      NibbleHead(env, m);
      NibbleValue(X(m, 1), X(m, 2), X(m, 3));
      NibbleTail(env, NibbleCarry(X(m, 1), X(m, 2), X(m, 3)), acc, acc', m1);
      Then(env, [Set(11, Arith(OpEor, false, 1, 2)), Set(11, Arith(OpEor, false, 11, 3))],
           [Set(11, Ubfx(11, 4, 1)), Set(10, OrrLsl(10, 11, 4))], m, m1);
    } else {
      EmptyRuns(env, m);
      AddsNothing(acc, acc', 4);
    }
  }

  // --- merging into the flags word ----------------------------------------------------------------

  /** x9 after bic and orr: the flags in `need` from acc, the rest from f. */
  lemma MergeWord(f: Flags, need: FlagSet, acc: FlagSet)
    requires acc.Subset(need)
    ensures FromWord(Bits(Or, Bits(Bic, Word(f), need.Mask()), acc.Mask())) == Select(f, Bare(acc), need)
  {
    hide Bits, Word, FlagSet.Mask, FromWord;
    var cleared := Combine(Bic, f, need);
    WordOp(Bic, f, need);
    WordOp(Or, cleared, acc);
    WordRoundTrip(Combine(Or, cleared, acc));
  }

  lemma StepLdrFlags(env: Env, m: Machine)
    requires X(m, CPU) == env.host.cpu
    ensures Step(env, Ldr(4, 9, CPU, OFF_FLAGS), m) == SetX(m, 9, Word(m.g.flags))
  {
    hide Word, Value, StepStore, StepCall, SetNzcv;
  }

  lemma StepStrFlags(env: Env, m: Machine)
    requires X(m, CPU) == env.host.cpu
    ensures Step(env, Str(4, 9, CPU, OFF_FLAGS), m) == SetFlags(m, FromWord(X(m, 9)))
  {
    hide FromWord, Value, StepLoad, StepCall, SetNzcv;
  }

  /** Only the flags and scratch registers differ, and x1 to x3 are intact. */
  predicate FlagsSet(m: Machine, m': Machine, f: Flags) {
    && m' == SetFlags(m, f).(x := m'.x, f := m'.f)
    && X(m', 1) == X(m, 1) && X(m', 2) == X(m, 2) && X(m', 3) == X(m, 3) && X(m', CPU) == X(m, CPU)
  }

  lemma MergeRuns(env: Env, need: FlagSet, acc: FlagSet, m: Machine)
    requires X(m, CPU) == env.host.cpu && Holding(m, acc) && acc.Subset(need)
    ensures var out := Exec(env, MergeCode(need), m);
      out.At? && out.k == 0 && FlagsSet(m, out.m, Select(m.g.flags, Bare(acc), need))
  {
    hide Step, Exec, PutImm, FlagSet.Mask, Bits, Word, FromWord, Select;
    var m1 := SetX(m, 9, Word(m.g.flags));
    StepLdrFlags(env, m);
    Run1(env, Ldr(4, 9, CPU, OFF_FLAGS), m);
    var m2 := SetX(m1, 12, need.Mask());
    ImmLoads(env, 12, need.Mask(), m1);
    Then(env, [Ldr(4, 9, CPU, OFF_FLAGS)], PutImm(12, need.Mask()), m, m1);
    MergeTail(env, need, acc, m.g.flags, m2);
    Then(env, [Ldr(4, 9, CPU, OFF_FLAGS)] + PutImm(12, need.Mask()),
         [Set(9, Arith(OpBic, false, 9, 12)), Set(9, Arith(OpOrr, false, 9, 10)), Str(4, 9, CPU, OFF_FLAGS)], m, m2);
  }

  lemma MergeTail(env: Env, need: FlagSet, acc: FlagSet, f: Flags, m: Machine)
    requires X(m, CPU) == env.host.cpu && Holding(m, acc) && acc.Subset(need)
    requires X(m, 9) == Word(f) && X(m, 12) == need.Mask()
    ensures var out := Exec(env,
        [Set(9, Arith(OpBic, false, 9, 12)), Set(9, Arith(OpOrr, false, 9, 10)), Str(4, 9, CPU, OFF_FLAGS)], m);
      out.At? && out.k == 0 && FlagsSet(m, out.m, Select(f, Bare(acc), need))
  {
    hide Step, Exec, FlagSet.Mask, Bits, Word, FromWord, Select;
    var v1 := Bits(Bic, Word(f), need.Mask());
    var m1 := SetX(m, 9, v1);
    StepArith(env, OpBic, 9, 9, 12, m);
    var m2 := SetX(m1, 9, Bits(Or, v1, acc.Mask()));
    StepArith(env, OpOrr, 9, 9, 10, m1);
    StepStrFlags(env, m2);
    MergeWord(f, need, acc);
    Run3(env, Set(9, Arith(OpBic, false, 9, 12)), Set(9, Arith(OpOrr, false, 9, 10)), Str(4, 9, CPU, OFF_FLAGS), m);
  }

  // --- the whole sequence ------------------------------------------------------------------------

  /** The flags a helper writes: all but CF for inc and dec, all but AF for a logical operation. */
  function HelperWrites(fn: Helper): FlagSet {
    match fn
    case HAdd => ALL
    case HSub => ALL
    case HInc => INCDEC
    case HDec => INCDEC
    case _ => LOGIC
  }

  lemma RoutineBits(fn: Helper, f: Flags, a: u64, b: u64, r: u64, size: Size)
    requires size != 1 && OperandsFit(fn, a, b, r, size)
    ensures var t := Routine(fn, f, a, b, r, size);
      t.pf == EvenParity(r) && t.other == f.other && (!fn.HLogic? ==> t.af == NibbleCarry(a, b, r))
  {
    hide Ones, Half, Trunc;
    LowKept(a, size);
    LowKept(b, size);
    LowKept(r, size);
    LowKept(Trunc(r, size), size);
  }

  lemma LowKept(v: u64, size: Size)
    requires size != 1
    ensures Trunc(v, size) % 0x100 == v % 0x100 && Nibble(Trunc(v, size)) == Nibble(v)
  {
    LowByteKept(v, size);
    NibbleOfByte(v);
    NibbleOfByte(Trunc(v, size));
  }

  lemma LowByteKept(v: u64, size: Size)
    requires size != 1
    ensures Trunc(v, size) % 0x100 == v % 0x100
  {
    TruncMod(v, size);
    if size == 2 {
      ModShift(v % 0x1_0000, 0x100 * (v / 0x1_0000), 0x100);
    } else if size == 4 {
      ModShift(v % 0x1_0000_0000, 0x100_0000 * (v / 0x1_0000_0000), 0x100);
    }
  }

  lemma NibbleOfByte(v: u64)
    ensures Nibble(v) == Nibble(v % 0x100)
  {
    var t, q := v % 0x100, v / 0x100;
    assert v == t + 0x100 * q;
    DivModUnique(v, 16, t / 16 + 16 * q, t % 16);
  }

  /** The NZCV flags a sequence collects, and then all of them: those needed that come out set. */
  function CollectedNzcv(fn: Helper, need: FlagSet, t: Flags): FlagSet {
    FlagSet(need.cf && !fn.HLogic? && t.cf, false, false, need.zf && t.zf, need.sf && t.sf,
            need.of && !fn.HLogic? && t.of)
  }

  function Collected(fn: Helper, need: FlagSet, t: Flags): FlagSet {
    CollectedNzcv(fn, need, t).(pf := need.pf && t.pf, af := need.af && t.af)
  }

  lemma CollectedSubset(fn: Helper, need: FlagSet, t: Flags)
    ensures Collected(fn, need, t).Subset(need)
  {
  }

  lemma CollectedSelect(fn: Helper, need: FlagSet, f: Flags, t: Flags)
    requires fn.HLogic? ==> !t.cf && !t.of
    ensures Select(f, Bare(Collected(fn, need, t)), need) == Select(f, t, need)
  {
  }

  lemma AddsSteps(a: FlagSet, on: bool)
    ensures !a.cf ==> Adds(a, a.(cf := on), 0, on)
    ensures !a.zf ==> Adds(a, a.(zf := on), 6, on)
    ensures !a.sf ==> Adds(a, a.(sf := on), 7, on)
    ensures !a.of ==> Adds(a, a.(of := on), 11, on)
    ensures !a.pf ==> Adds(a, a.(pf := on), 2, on)
    ensures !a.af ==> Adds(a, a.(af := on), 4, on)
  {
  }

  lemma CondMatches(fn: Helper, n: Nzcv, t: Flags)
    requires Matches(fn, n, t)
    ensures fn.HAdd? ==> Holds(n, CS) == t.cf
    ensures fn.HSub? ==> Holds(n, CC) == t.cf
    ensures Holds(n, EQ) == t.zf && Holds(n, MI) == t.sf
    ensures !fn.HLogic? ==> Holds(n, VS) == t.of
  {
  }

  lemma NeedsCarry(fn: Helper, need: FlagSet)
    requires need.Subset(HelperWrites(fn)) && !fn.HLd? && !fn.HSt? && !fn.HWlog? && !fn.HShift?
    ensures need.cf && !fn.HLogic? ==> fn.HAdd? || fn.HSub?
    ensures need.af ==> !fn.HLogic?
  {
  }

  lemma CollectThen(env: Env, a: seq<Instr>, b: seq<Instr>, m: Machine, acc: FlagSet, acc': FlagSet)
    requires Collects(m, Exec(env, a, m), acc)
    requires Collects(Exec(env, a, m).m, Exec(env, b, Exec(env, a, m).m), acc')
    ensures Collects(m, Exec(env, a + b, m), acc')
  {
    hide Step, Exec, FlagSet.Mask;
    Then(env, a, b, m, Exec(env, a, m).m);
  }

  lemma GatherAll(env: Env, fn: Helper, need: FlagSet, t: Flags, m: Machine)
    requires need.Subset(HelperWrites(fn)) && !fn.HLd? && !fn.HSt? && !fn.HWlog? && !fn.HShift?
    requires Holding(m, NONE)
    requires (need.cf || need.zf || need.sf || need.of) ==> Matches(fn, m.f, t)
    ensures Collects(m, Exec(env, GatherCode(fn, need), m), CollectedNzcv(fn, need, t))
  {
    hide Step, Exec, FlagSet.Mask, FlagSet.Subset, HelperWrites, Gather, Adds, Matches, Holds, When, CarryCond;
    var c0 := CarryCond(fn);
    var w0, w3 := need.cf && !fn.HLogic?, need.of && !fn.HLogic?;
    var g0, g1, g2, g3 := When(w0, Gather(c0, 0)), When(need.zf, Gather(EQ, 6)), When(need.sf, Gather(MI, 7)),
        When(w3, Gather(VS, 11));
    GatherConds(fn, need, t, m);
    var a1 := NONE.(cf := w0 && t.cf);
    var a2 := a1.(zf := need.zf && t.zf);
    var a3 := a2.(sf := need.sf && t.sf);
    AddsSteps(NONE, w0 && t.cf);
    AddsSteps(a1, need.zf && t.zf);
    AddsSteps(a2, need.sf && t.sf);
    AddsSteps(a3, w3 && t.of);
    GatherRuns(env, w0, c0, 0, t.cf, NONE, a1, m);
    GatherNext(env, g0, need.zf, EQ, 6, t.zf, a1, a2, m);
    GatherNext(env, g0 + g1, need.sf, MI, 7, t.sf, a2, a3, m);
    GatherNext(env, g0 + g1 + g2, w3, VS, 11, t.of, a3, CollectedNzcv(fn, need, t), m);
  }

  /** Each flag wanted is what its condition says. */
  lemma GatherConds(fn: Helper, need: FlagSet, t: Flags, m: Machine)
    requires need.Subset(HelperWrites(fn)) && !fn.HLd? && !fn.HSt? && !fn.HWlog? && !fn.HShift?
    requires (need.cf || need.zf || need.sf || need.of) ==> Matches(fn, m.f, t)
    ensures need.cf && !fn.HLogic? ==> Holds(m.f, CarryCond(fn)) == t.cf
    ensures (need.zf ==> Holds(m.f, EQ) == t.zf) && (need.sf ==> Holds(m.f, MI) == t.sf)
    ensures need.of && !fn.HLogic? ==> Holds(m.f, VS) == t.of
  {
    hide FlagSet.Subset, HelperWrites, Matches, Holds;
    NeedsCarry(fn, need);
    if need.cf || need.zf || need.sf || need.of { CondMatches(fn, m.f, t); }
  }

  /** One more flag gathered after a piece that has gathered some. */
  lemma GatherNext(env: Env, a: seq<Instr>, wanted: bool, c: int, bit: nat, on: bool, acc: FlagSet, acc': FlagSet,
      m: Machine)
    requires Collects(m, Exec(env, a, m), acc)
    requires FlagBit(bit) && Adds(acc, acc', bit, wanted && on)
    requires wanted ==> Holds(m.f, c) == on
    ensures Collects(m, Exec(env, a + When(wanted, Gather(c, bit)), m), acc')
  {
    hide Step, Exec, FlagSet.Mask, Gather, Adds, Holds, When;
    GatherRuns(env, wanted, c, bit, on, acc, acc', Exec(env, a, m).m);
    CollectThen(env, a, When(wanted, Gather(c, bit)), m, acc, acc');
  }

  predicate FlagRoutine(fn: Helper) { fn.HAdd? || fn.HSub? || fn.HInc? || fn.HDec? || fn.HLogic? }

  /** put_flags_inline: exactly the flags in `need`, as the interpreter's routine computes them. */
  lemma InlineFlagsRun(env: Env, fn: Helper, need: FlagSet, w: bool, m: Machine)
    requires X(m, CPU) == env.host.cpu && FlagRoutine(fn) && need.Subset(HelperWrites(fn))
    requires OperandsFit(fn, X(m, 1), X(m, 2), X(m, 3), if w then 4 else 8)
    ensures var t := Routine(fn, m.g.flags, X(m, 1), X(m, 2), X(m, 3), if w then 4 else 8);
      var out := Exec(env, PutFlagsInline(fn, need, w), m);
      out.At? && out.k == 0 && FlagsSet(m, out.m, Select(m.g.flags, t, need))
  {
    hide Step, Exec, FlagSet.Mask, Select, Routine, GatherCode, OperandsFit, Matches, Repeat, FlagSet.Subset,
         HelperWrites, Holding, CollectedNzcv, FinishCode, PutFlagsInline, Gather, When;
    var f := m.g.flags;
    var t := Routine(fn, f, X(m, 1), X(m, 2), X(m, 3), if w then 4 else 8);
    var any := need.cf || need.zf || need.sf || need.of;
    var head, zero := When(any, [Repeat(fn, w)]), [Set(10, MovZ(0, 0))];
    InlineShape(fn, need, w);
    RepeatRuns(env, fn, any, w, f, m);
    var m1 := Exec(env, head, m).m;
    var m2 := SetX(m1, 10, 0);
    ZeroRuns(env, m1);
    ZeroHolds(m1);
    Then(env, head, zero, m, m1);
    GatherAll(env, fn, need, t, m2);
    var m3 := Exec(env, GatherCode(fn, need), m2).m;
    Then(env, head + zero, GatherCode(fn, need), m, m2);
    FinishRuns(env, fn, need, w, t, m, m3);
    Then(env, head + zero + GatherCode(fn, need), FinishCode(need), m, m3);
  }

  lemma InlineShape(fn: Helper, need: FlagSet, w: bool)
    ensures PutFlagsInline(fn, need, w)
         == When(need.cf || need.zf || need.sf || need.of, [Repeat(fn, w)]) + [Set(10, MovZ(0, 0))]
            + GatherCode(fn, need) + FinishCode(need)
  {
    hide GatherCode, FinishCode, Repeat, When;
  }

  lemma ZeroRuns(env: Env, m: Machine)
    ensures Exec(env, [Set(10, MovZ(0, 0))], m) == At(0, SetX(m, 10, 0))
  {
    hide Step, Exec;
    RunSet(env, 10, MovZ(0, 0), m);
  }

  lemma ZeroHolds(m: Machine)
    ensures Holding(SetX(m, 10, 0), NONE)
  {
    hide FlagSet.Mask;
    MaskValues();
  }

  /** Parity, nibble carry and the merge, with the NZCV bits already collected. */
  lemma FinishRuns(env: Env, fn: Helper, need: FlagSet, w: bool, t: Flags, m: Machine, m3: Machine)
    requires X(m, CPU) == env.host.cpu && FlagRoutine(fn) && need.Subset(HelperWrites(fn)) && FlagScratch(m, m3)
    requires OperandsFit(fn, X(m, 1), X(m, 2), X(m, 3), if w then 4 else 8)
    requires t == Routine(fn, m.g.flags, X(m, 1), X(m, 2), X(m, 3), if w then 4 else 8)
    requires Holding(m3, CollectedNzcv(fn, need, t))
    ensures var out := Exec(env, FinishCode(need), m3);
      out.At? && out.k == 0 && FlagsSet(m, out.m, Select(m.g.flags, t, need))
  {
    hide Step, Exec, FlagSet.Mask, Select, Routine, ParityCode, NibbleCode, MergeCode, When, Collected,
         CollectedNzcv, OperandsFit, EvenParity, NibbleCarry, FlagSet.Subset, HelperWrites;
    RoutineBits(fn, m.g.flags, X(m, 1), X(m, 2), X(m, 3), if w then 4 else 8);
    NeedsCarry(fn, need);
    LogicClears(fn, m.g.flags, X(m, 1), X(m, 2), X(m, 3), if w then 4 else 8);
    ParityNibble(env, fn, need, t, m3);
    CollectedSubset(fn, need, t);
    CollectedSelect(fn, need, m.g.flags, t);
    MergeNext(env, When(need.pf, ParityCode()) + When(need.af, NibbleCode()), need, Collected(fn, need, t), m, m3);
  }

  lemma ParityNibble(env: Env, fn: Helper, need: FlagSet, t: Flags, m: Machine)
    requires Holding(m, CollectedNzcv(fn, need, t))
    requires EvenParity(X(m, 3)) == t.pf && (need.af ==> NibbleCarry(X(m, 1), X(m, 2), X(m, 3)) == t.af)
    ensures Collects(m, Exec(env, When(need.pf, ParityCode()) + When(need.af, NibbleCode()), m), Collected(fn, need, t))
  {
    hide Step, Exec, FlagSet.Mask, ParityCode, NibbleCode, Adds, When, EvenParity, NibbleCarry;
    var acc := CollectedNzcv(fn, need, t);
    var acc1 := acc.(pf := need.pf && t.pf);
    AddsSteps(acc, need.pf && t.pf);
    AddsSteps(acc1, need.af && t.af);
    ParityRuns(env, need.pf, acc, acc1, m);
    NibbleRuns(env, need.af, acc1, Collected(fn, need, t), Exec(env, When(need.pf, ParityCode()), m).m);
    CollectThen(env, When(need.pf, ParityCode()), When(need.af, NibbleCode()), m, acc1, Collected(fn, need, t));
  }

  lemma MergeNext(env: Env, a: seq<Instr>, need: FlagSet, acc: FlagSet, m: Machine, m3: Machine)
    requires X(m, CPU) == env.host.cpu && FlagScratch(m, m3) && Collects(m3, Exec(env, a, m3), acc) && acc.Subset(need)
    ensures var out := Exec(env, a + MergeCode(need), m3);
      out.At? && out.k == 0 && FlagsSet(m, out.m, Select(m.g.flags, Bare(acc), need))
  {
    hide Step, Exec, FlagSet.Mask, Select, MergeCode, FlagSet.Subset;
    var m5 := Exec(env, a, m3).m;
    MergeRuns(env, need, acc, m5);
    Then(env, a, MergeCode(need), m3, m5);
  }

  lemma LogicClears(fn: Helper, f: Flags, a: u64, b: u64, r: u64, size: Size)
    ensures fn.HLogic? ==> !Routine(fn, f, a, b, r, size).cf && !Routine(fn, f, a, b, r, size).of
  {
  }
}
