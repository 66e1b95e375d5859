/** The flags computed in line from NZCV and the operands are the interpreter's flags. */
module InlineFlags {
  import opened Words
  import opened StatusFlags
  import opened A64

  // --- condition flags ---------------------------------------------------------------

  /** Negative, zero, carry and overflow of ta + tb + carry, with the sum written out. */
  function SumFlags(ta: int, tb: int, carry: int, size: Size): Nzcv {
    var m, h := Modulus(size), Half(size);
    var t := ta + tb + carry;
    var r := if t < m then t else t - m;
    Nzcv(r >= h, r == 0, t >= m, (ta >= h) == (tb >= h) && (ta >= h) != (r >= h))
  }

  lemma ArmSum(ta: int, tb: int, carry: int, size: Size)
    requires 0 <= ta < Modulus(size) && 0 <= tb < Modulus(size) && 0 <= carry <= 1
    ensures AddWithCarry(ta, tb, carry, size) == SumFlags(ta, tb, carry, size)
  {
    hide Trunc, Modulus, Half, Signed;
    var t := ta + tb + carry;
    TruncNear(t, size);
    SignedOf(ta, size);
    SignedOf(tb, size);
    TruncMod(t, size);
    SignedOf(Trunc(t, size), size);
    OverflowBySigns(ta, tb, carry, Modulus(size), Half(size));
  }

  lemma SignedOf(v: int, size: Size)
    requires 0 <= v < Modulus(size)
    ensures Signed(v, size) == if v < Half(size) then v else v - Modulus(size)
  {
    hide Trunc, Modulus, Half;
    TruncNear(v, size);
  }

  /** The signed sum is out of range exactly when the operands' signs agree and the result's does not. */
  lemma OverflowBySigns(ta: int, tb: int, carry: int, m: int, h: int)
    requires m == 2 * h && 0 <= ta < m && 0 <= tb < m && 0 <= carry <= 1
    ensures var t := ta + tb + carry;
      var r := if t < m then t else t - m;
      var signed := (x: int) => if x < h then x else x - m;
      signed(r) != signed(ta) + signed(tb) + carry <==> (ta >= h) == (tb >= h) && (ta >= h) != (r >= h)
  {
  }

  lemma X86Add(f: Flags, a: u64, b: u64, r: u64, size: Size)
    requires Trunc(r, size) == Trunc(a + b, size)
    ensures var x := FlagsAdd(f, a, b, r, size);
      Nzcv(x.sf, x.zf, x.cf, x.of) == SumFlags(Trunc(a, size), Trunc(b, size), 0, size)
  {
    hide EvenParity, Nibble, Trunc, Modulus, Half;
    TruncOfSum(a, b, size);
    TruncOnce(r, size);
  }

  lemma X86Sub(f: Flags, a: u64, b: u64, r: u64, size: Size)
    requires Trunc(r, size) == Trunc(a - b, size)
    ensures var x := FlagsSub(f, a, b, r, size);
      Nzcv(x.sf, x.zf, !x.cf, x.of) == SumFlags(Trunc(a, size), Modulus(size) - 1 - Trunc(b, size), 1, size)
  {
    hide EvenParity, Nibble, Trunc, Modulus, Half;
    TruncOfDifference(a, b, size);
    TruncOnce(r, size);
  }

  lemma TruncOnce(r: int, size: Size)
    ensures Trunc(Trunc(r, size), size) == Trunc(r, size)
  {
    hide Trunc, Modulus, Half;
    TruncMod(r, size);
    TruncNear(Trunc(r, size), size);
  }

  /** The truncated sum, and why comparing it with an operand tells whether it wrapped. */
  lemma TruncOfSum(a: u64, b: u64, size: Size)
    ensures var t, m, r := Trunc(a, size) + Trunc(b, size), Modulus(size), Trunc(a + b, size);
      r == (if t < m then t else t - m) && (r < Trunc(a, size) <==> t >= m)
  {
    hide Trunc, Modulus, Half;
    TruncSum(a, b, size);
    TruncMod(a, size);
    TruncMod(b, size);
    TruncNear(Trunc(a, size) + Trunc(b, size), size);
  }

  lemma TruncOfDifference(a: u64, b: u64, size: Size)
    ensures var ta, tb, m, r := Trunc(a, size), Trunc(b, size), Modulus(size), Trunc(a - b, size);
      0 <= tb < m && m == 2 * Half(size) && r == (if ta < tb then ta - tb + m else ta - tb)
  {
    hide Trunc, Modulus, Half;
    TruncSum(a, b, size);
    TruncMod(a, size);
    TruncMod(b, size);
    var d: int := (Trunc(a, size) as int) - Trunc(b, size);
    TruncNear(d, size);
  }

  /** cmn: carry, zero, negative and overflow are x86's CF, ZF, SF and OF of the addition. */
  lemma AddsAgrees(f: Flags, a: u64, b: u64, r: u64, size: Size)
    requires Trunc(r, size) == Trunc(a + b, size)
    ensures var n := AddsFlags(a, b, size); var x := FlagsAdd(f, a, b, r, size);
      n.c == x.cf && n.z == x.zf && n.n == x.sf && n.v == x.of
  {
    hide FlagsAdd, Trunc, Modulus, AddWithCarry, SumFlags;
    TruncMod(a, size);
    TruncMod(b, size);
    ArmSum(Trunc(a, size), Trunc(b, size), 0, size);
    X86Add(f, a, b, r, size);
  }

  /** cmp: the same for subtraction, a borrow being arm64's carry clear. */
  lemma SubsAgrees(f: Flags, a: u64, b: u64, r: u64, size: Size)
    requires Trunc(r, size) == Trunc(a - b, size)
    ensures var n := SubsFlags(a, b, size); var x := FlagsSub(f, a, b, r, size);
      n.c == !x.cf && n.z == x.zf && n.n == x.sf && n.v == x.of
  {
    hide FlagsSub, Trunc, Modulus, AddWithCarry, SumFlags;
    TruncMod(a, size);
    TruncMod(b, size);
    ArmSum(Trunc(a, size), Modulus(size) - 1 - Trunc(b, size), 1, size);
    X86Sub(f, a, b, r, size);
  }

  /** tst: zero and negative of a logical result, at either width. */
  lemma AndsAgrees(f: Flags, r: u64, w: bool)
    requires w ==> r < 0x1_0000_0000
    ensures var n := AndsFlags(r, r, w); var x := FlagsLogic(f, r, if w then 4 else 8);
      n.z == x.zf && n.n == x.sf && !x.cf && !x.of
  {
    hide EvenParity, Bitwise, Trunc;
    AndSelf(r, 64);
    AndSelf(r % 0x1_0000_0000, 32);
    Pow2Values();
    TruncNear(r, if w then 4 else 8);
    TruncOnce(r, if w then 4 else 8);
    assert w ==> r % 0x1_0000_0000 == r;
  }

  lemma {:induction false} AndSelf(r: nat, n: nat)
    ensures r < Pow2(n) ==> Bitwise(And, r, r, n) == r
    decreases n
  {
    if n > 0 { AndSelf(r / 2, n - 1); }
  }

  // --- the flags word bit by bit ---------------------------------------------------------

  /** The set as a flags word with every other bit clear. */
  function Bare(s: FlagSet): Flags { Flags(s.cf, s.pf, s.af, s.zf, s.sf, s.of, Reserved(0, 0, 0, 0, 0)) }

  /** The flag at bit i of the word. */
  predicate FlagAt(f: Flags, i: nat) {
    match i
    case 0 => f.cf
    case 2 => f.pf
    case 4 => f.af
    case 6 => f.zf
    case 7 => f.sf
    case 11 => f.of
    case _ => false
  }

  predicate FlagBit(i: nat) { i == 0 || i == 2 || i == 4 || i == 6 || i == 7 || i == 11 }

  lemma Digit(d: int, q: nat)
    requires 0 <= d < 2
    ensures Below(d, q) >= 0 && Below(d, q) / 2 == q && Below(d, q) % 2 == d
  {
  }

  lemma UpperDigits(f: Flags)
    ensures var t := TopWord(f);
      var q7 := Below(Weight(f.sf, 1), t);
      var q6 := Below(Weight(f.zf, 1), q7);
      var q5 := Below(f.other.b5, q6);
      var u := UpperWord(f);
      q7 >= 0 && q6 >= 0 && q5 >= 0 && u >= 0
      && u / 2 == q5 && q5 / 2 == q6 && q6 / 2 == q7 && q7 / 2 == t
      && u % 2 == Weight(f.af, 1) && q5 % 2 == f.other.b5 && q6 % 2 == Weight(f.zf, 1) && q7 % 2 == Weight(f.sf, 1)
  {
    hide Below, TopWord;
    var t := TopWord(f);
    var q7 := Below(Weight(f.sf, 1), t);
    Digit(Weight(f.sf, 1), t);
    var q6 := Below(Weight(f.zf, 1), q7);
    Digit(Weight(f.zf, 1), q7);
    Digit(f.other.b5, q6);
    Digit(Weight(f.af, 1), Below(f.other.b5, q6));
  }

  lemma LowerDigits(f: Flags)
    ensures var u := UpperWord(f);
      var q3 := Below(f.other.b3, u);
      var q2 := Below(Weight(f.pf, 1), q3);
      var q1 := Below(f.other.b1, q2);
      var w := Word(f);
      q3 >= 0 && q2 >= 0 && q1 >= 0
      && w / 2 == q1 && q1 / 2 == q2 && q2 / 2 == q3 && q3 / 2 == u
      && w % 2 == Weight(f.cf, 1) && q1 % 2 == f.other.b1 && q2 % 2 == Weight(f.pf, 1) && q3 % 2 == f.other.b3
  {
    hide Below, UpperWord;
    var u := UpperWord(f);
    Digit(f.other.b3, u);
    var q3 := Below(f.other.b3, u);
    Digit(Weight(f.pf, 1), q3);
    var q2 := Below(Weight(f.pf, 1), q3);
    Digit(f.other.b1, q2);
    Digit(Weight(f.cf, 1), Below(f.other.b1, q2));
  }

  lemma TopDigits(f: Flags)
    ensures var t := TopWord(f);
      var q11 := Below(Weight(f.of, 1), f.other.b12);
      q11 >= 0 && t / 8 == q11 && t % 8 == f.other.b8 && q11 / 2 == f.other.b12 && q11 % 2 == Weight(f.of, 1)
      && t / 2 / 2 / 2 == q11
  {
    Digit(Weight(f.of, 1), f.other.b12);
  }

  lemma WordRoundTrip(f: Flags)
    ensures FromWord(Word(f)) == f
  {
    hide Below, UpperWord, TopWord, Word;
    UpperDigits(f);
    LowerDigits(f);
    TopDigits(f);
  }

  lemma WordBit(f: Flags, i: nat)
    requires FlagBit(i)
    ensures Bit(Word(f), i) == FlagAt(f, i)
  {
    hide Below, UpperWord, TopWord, Word;
    LowerDigits(f);
    var q3 := Below(f.other.b3, UpperWord(f));
    var q2 := Below(Weight(f.pf, 1), q3);
    var q1 := Below(f.other.b1, q2);
    if i >= 4 {
      assert Bit(Word(f), i) == Bit(q1, i - 1) == Bit(q2, i - 2) == Bit(q3, i - 3) == Bit(UpperWord(f), i - 4);
      UpperBit(f, i);
    } else if i == 2 {
      assert Bit(Word(f), i) == Bit(q1, i - 1) == Bit(q2, i - 2);
    }
  }

  lemma UpperBit(f: Flags, i: nat)
    requires i == 4 || i == 6 || i == 7 || i == 11
    ensures Bit(UpperWord(f), i - 4) == FlagAt(f, i)
  {
    hide Below, UpperWord, TopWord;
    UpperDigits(f);
    TopDigits(f);
    var t := TopWord(f);
    var q7 := Below(Weight(f.sf, 1), t);
    var q6 := Below(Weight(f.zf, 1), q7);
    var q5 := Below(f.other.b5, q6);
    if i > 4 {
      assert Bit(UpperWord(f), i - 4) == Bit(q5, i - 5) == Bit(q6, i - 6);
      if i > 6 {
        assert Bit(q6, i - 6) == Bit(q7, i - 7);
        if i == 11 {
          assert Bit(q7, 4) == Bit(t, 3) == Bit(t / 2, 2) == Bit(t / 2 / 2, 1) == Bit(t / 2 / 2 / 2, 0);
        }
      }
    }
  }

  // --- masks over the flags word ------------------------------------------------------------

  predicate Keeps(op: BitOp) { !op.On(false, false) && op.On(true, false) }

  lemma BelowOp(op: BitOp, d: int, e: int, q: nat, r: nat, n: nat)
    requires 0 <= d < 2 && 0 <= e < 2 && n >= 1
    ensures Below(d, q) >= 0 && Below(e, r) >= 0
    ensures Bitwise(op, Below(d, q), Below(e, r), n)
         == Below(Weight(op.On(d == 1, e == 1), 1), Bitwise(op, q, r, n - 1))
  {
    var a, b := Below(d, q), Below(e, r);
    DivModUnique(a, 2, q, d);
    DivModUnique(b, 2, r, e);
  }

  lemma {:induction false} OpZero(op: BitOp, x: nat, n: nat)
    requires Keeps(op) && x < Pow2(n)
    ensures Bitwise(op, x, 0, n) == x
    decreases n
  {
    if n > 0 { OpZero(op, x / 2, n - 1); }
  }

  lemma TopAsDigits(f: Flags)
    ensures var b := f.other.b8;
      TopWord(f) == Below(b % 2, Below(b / 2 % 2, Below(b / 4, Below(Weight(f.of, 1), f.other.b12))))
  {
  }

  /** f with each flag combined with its membership of s. */
  function Combine(op: BitOp, f: Flags, s: FlagSet): Flags {
    Flags(op.On(f.cf, s.cf), op.On(f.pf, s.pf), op.On(f.af, s.af), op.On(f.zf, s.zf), op.On(f.sf, s.sf),
          op.On(f.of, s.of), f.other)
  }

  lemma HighZero(op: BitOp, o: bits20, n: nat)
    requires Keeps(op) && n >= 20
    ensures Bitwise(op, o, 0, n) == o
  {
    hide Bitwise;
    Pow2Values();
    Pow2Add(16, 4);
    Pow2Mono(20, n);
    OpZero(op, o, n);
  }

  lemma TopOp(op: BitOp, f: Flags, s: FlagSet, n: nat)
    requires Keeps(op) && n >= 24
    ensures Bitwise(op, TopWord(f), TopWord(Bare(s)), n) == TopWord(Combine(op, f, s))
  {
    hide Below, TopWord, Bitwise;
    var b, o := f.other.b8, f.other.b12;
    TopAsDigits(f);
    TopAsDigits(Bare(s));
    TopAsDigits(Combine(op, f, s));
    var x3, y3 := Below(Weight(f.of, 1), o), Below(Weight(s.of, 1), 0);
    BelowOp(op, Weight(f.of, 1), Weight(s.of, 1), o, 0, n - 3);
    HighZero(op, o, n - 4);
    var x2, y2 := Below(b / 4, x3), Below(0, y3);
    BelowOp(op, b / 4, 0, x3, y3, n - 2);
    var x1, y1 := Below(b / 2 % 2, x2), Below(0, y2);
    BelowOp(op, b / 2 % 2, 0, x2, y2, n - 1);
    BelowOp(op, b % 2, 0, x1, y1, n);
  }

  lemma UpperOp(op: BitOp, f: Flags, s: FlagSet, n: nat)
    requires Keeps(op) && n >= 28
    ensures Bitwise(op, UpperWord(f), UpperWord(Bare(s)), n) == UpperWord(Combine(op, f, s))
  {
    hide Below, TopWord, Bitwise;
    TopOp(op, f, s, n - 4);
    var x3, y3 := Below(Weight(f.sf, 1), TopWord(f)), Below(Weight(s.sf, 1), TopWord(Bare(s)));
    BelowOp(op, Weight(f.sf, 1), Weight(s.sf, 1), TopWord(f), TopWord(Bare(s)), n - 3);
    var x2, y2 := Below(Weight(f.zf, 1), x3), Below(Weight(s.zf, 1), y3);
    BelowOp(op, Weight(f.zf, 1), Weight(s.zf, 1), x3, y3, n - 2);
    var x1, y1 := Below(f.other.b5, x2), Below(0, y2);
    BelowOp(op, f.other.b5, 0, x2, y2, n - 1);
    BelowOp(op, Weight(f.af, 1), Weight(s.af, 1), x1, y1, n);
  }

  /** The word shifted right by two. */
  function MiddleWord(f: Flags): (r: int)
    ensures 0 <= r < 0x4000_0000
  {
    Below(Weight(f.pf, 1), Below(f.other.b3, UpperWord(f)))
  }

  lemma MiddleOp(op: BitOp, f: Flags, s: FlagSet, n: nat)
    requires Keeps(op) && n >= 30
    ensures Bitwise(op, MiddleWord(f), MiddleWord(Bare(s)), n) == MiddleWord(Combine(op, f, s))
  {
    hide Below, UpperWord, Bitwise;
    UpperOp(op, f, s, n - 2);
    var x3, y3 := Below(f.other.b3, UpperWord(f)), Below(0, UpperWord(Bare(s)));
    BelowOp(op, f.other.b3, 0, UpperWord(f), UpperWord(Bare(s)), n - 1);
    BelowOp(op, Weight(f.pf, 1), Weight(s.pf, 1), x3, y3, n);
  }

  /** orr and bic of the flags word with a mask act flag by flag. */
  lemma WordOp(op: BitOp, f: Flags, s: FlagSet)
    requires Keeps(op)
    ensures Bits(op, Word(f), s.Mask()) == Word(Combine(op, f, s))
  {
    hide Below, MiddleWord, Bitwise, Word, FlagSet.Mask, Combine;
    CombineCarry(op, f, s);
    MaskBare(s);
    MiddleOp(op, f, s, 62);
    WordMiddle(f);
    WordMiddle(Bare(s));
    WordMiddle(Combine(op, f, s));
    var x1, y1 := Below(f.other.b1, MiddleWord(f)), Below(0, MiddleWord(Bare(s)));
    BelowOp(op, f.other.b1, 0, MiddleWord(f), MiddleWord(Bare(s)), 63);
    BelowOp(op, Weight(f.cf, 1), Weight(s.cf, 1), x1, y1, 64);
  }

  lemma CombineCarry(op: BitOp, f: Flags, s: FlagSet)
    ensures Combine(op, f, s).cf == op.On(f.cf, s.cf) && Combine(op, f, s).other == f.other
  {
  }

  lemma MaskBare(s: FlagSet)
    ensures s.Mask() == Word(Bare(s)) && Bare(s).cf == s.cf && Bare(s).other.b1 == 0
  {
  }

  lemma WordMiddle(f: Flags)
    ensures Word(f) == Below(Weight(f.cf, 1), Below(f.other.b1, MiddleWord(f)))
  {
    hide UpperWord, Below;
  }
}
