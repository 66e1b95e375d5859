/** A shift by many is that many shifts by one. */
module ShiftMeanings {
  import opened Words
  import opened StatusFlags

  /** n one-bit shifts, each of what the one before it left. */
  function Times(a: u64, n: nat, size: Size, ext: ShiftExt): Shifted
    requires n >= 1
    decreases n
  {
    var s := ShiftCalc(a, 1, size, ext);
    if n == 1 then s else Times(s.res, n - 1, size, ext)
  }

  predicate SameOut(s: Shifted, t: Shifted) { s.res == t.res && s.cf == t.cf }

  lemma PowerNext(n: nat)
    ensures Pow2(n + 1) == 2 * Pow2(n) && Pow2(1) == 2 && Pow2(0) == 1
  {
  }

  // --- left ----------------------------------------------------------------------------------------------

  /** Bits below w do not depend on what lies above. */
  lemma {:induction false} BitMod(v: nat, w: nat, i: nat)
    requires i < w
    ensures v % Pow2(w) >= 0 && Bit(v % Pow2(w), i) == Bit(v, i)
    decreases w
  {
    HalfMod(v, Pow2(w - 1));
    var m := v % Pow2(w);
    assert m % 2 == v % 2 && m / 2 == (v / 2) % Pow2(w - 1);
    if i > 0 { BitMod(v / 2, w - 1, i - 1); }
  }

  lemma WidthPower(size: Size)
    ensures Modulus(size) == Pow2(8 * size) && Half(size) == Pow2(8 * size - 1)
  {
    Pow2Values();
    PowerNext(8 * size - 1);
  }

  /** The low bytes of a product by a power of two. */
  lemma ShlRes(a: u64, n: Count, size: Size)
    ensures ShiftCalc(a, n, size, 4).res == Trunc(Trunc(a, size) * Pow2(n), size)
    ensures ShiftCalc(a, n, size, 6) == ShiftCalc(a, n, size, 4)
  {
    hide Trunc, Pow2, Half;
    var x: int := Trunc(a, size) * Pow2(n);
    WrapIs(x);
    TruncWrap(x, size);
  }

  lemma WrapIs(x: int)
    ensures Trunc(x, 8) == Wrap(x)
  {
  }

  lemma ShlTwice(x: u64, n: nat, size: Size)
    requires Trunc(x, size) == x
    ensures Trunc(Trunc(2 * x, size) * Pow2(n), size) == Trunc(x * Pow2(n + 1), size)
  {
    hide Trunc, Pow2, Modulus;
    var p, m := Pow2(n), Modulus(size);
    PowerNext(n);
    TruncMod(2 * x, size);
    TruncMod(Trunc(2 * x, size) * p, size);
    TruncMod(x * Pow2(n + 1), size);
    assert x * (2 * p) == (2 * x) * p;
    MulModLeft(Trunc(2 * x, size), 2 * x, p, m) by { TruncTwice2(2 * x, size); }
  }

  lemma TruncTwice2(x: int, size: Size)
    ensures Trunc(x, size) % Modulus(size) == x % Modulus(size)
  {
    hide Trunc, Modulus;
    TruncMod(x, size);
  }

  /** The bit shifted out of a left shift, by its place in the operand. */
  predicate LeftOut(x: nat, n: nat, w: nat) { n <= w && (x / Pow2(w - n)) % 2 == 1 }

  lemma LeftOutNext(x: nat, n: nat, w: nat)
    requires n >= 1 && w >= 1
    ensures (2 * x) % Pow2(w) >= 0 && LeftOut((2 * x) % Pow2(w), n, w) == LeftOut(x, n + 1, w)
  {
    hide Pow2;
    var y := 2 * x;
    Positive(w);
    if n + 1 <= w {
      BitDiv(y % Pow2(w), w - n);
      BitDiv(x, w - n - 1);
      BitMod(y, w, w - n);
    } else if n == w {
      BitDiv(y % Pow2(w), 0);
      BitMod(y, w, 0);
    }
  }

  lemma Positive(n: nat)
    ensures Pow2(n) >= 1
  {
  }

  lemma LeftNext(a: u64, n: Count, size: Size)
    requires n < 63
    ensures SameOut(ShiftCalc(ShiftCalc(a, 1, size, 4).res, n, size, 4), ShiftCalc(a, n + 1, size, 4))
  {
    hide Trunc, Pow2, Half, Modulus, ShiftCalc, LeftOut;
    var x: int := Trunc(a, size);
    var w := 8 * size;
    var y := ShiftCalc(a, 1, size, 4).res;
    PowerNext(0);
    ShlRes(a, 1, size);
    ShlRes(a, n + 1, size);
    ShlRes(y, n, size);
    ShlOut(a, n + 1, size);
    ShlOut(y, n, size);
    TruncTwice(a, size);
    TruncTwiceInt(2 * x, size);
    ShlTwice(x, n, size);
    LeftOutNext(x, n, w);
    WidthPower(size);
    TruncMod(2 * x, size);
  }

  lemma ShlOut(a: u64, n: Count, size: Size)
    ensures ShiftCalc(a, n, size, 4).cf == LeftOut(Trunc(a, size), n, 8 * size)
  {
    hide Trunc, Pow2, Half;
  }

  lemma TruncTwiceInt(x: int, size: Size)
    ensures Trunc(Trunc(x, size), size) == Trunc(x, size)
  {
    hide Trunc;
    TruncTwice(Trunc(x, size), size);
    TruncMod(x, size);
    TruncNear(Trunc(x, size), size);
  }

  // --- right ---------------------------------------------------------------------------------------------

  lemma HalfDivInt(x: int, p: int)
    requires p >= 1
    ensures (x / 2) / p == x / (2 * p)
  {
    var q, r := (x / 2) / p, (x / 2) % p;
    assert x / 2 == p * q + r;
    assert x == 2 * (p * q) + (2 * r + x % 2);
    assert (2 * p) * q == 2 * (p * q);
    DivModUnique(x, 2 * p, q, 2 * r + x % 2);
  }

  lemma RightNext(a: u64, n: Count, size: Size)
    requires n < 63
    ensures SameOut(ShiftCalc(ShiftCalc(a, 1, size, 5).res, n, size, 5), ShiftCalc(a, n + 1, size, 5))
  {
    hide Trunc, Pow2, Half, Modulus;
    var x := Trunc(a, size);
    PowerNext(0);
    PowerNext(n);
    PowerNext(n - 1);
    HalfDivInt(x, Pow2(n));
    HalfDivInt(x, Pow2(n - 1));
    HalfNarrow(a, size);
    if n == 8 * size { TopGone(a, size); }
  }

  lemma HalfNarrow(a: u64, size: Size)
    ensures var x := Trunc(a, size); Trunc(x / 2, size) == x / 2 && Trunc(x, size) == x
  {
    TruncTwice(a, size);
  }

  lemma TopGone(a: u64, size: Size)
    ensures (Trunc(a, size) / 2) / Pow2(8 * size - 1) == 0
  {
    hide Trunc;
    WidthPower(size);
    TruncMod(a, size);
    HalfDivInt(Trunc(a, size), Pow2(8 * size - 1));
    PowerNext(8 * size - 1);
    DivModUnique(Trunc(a, size), Modulus(size), 0, Trunc(a, size));
  }

  // --- arithmetic right --------------------------------------------------------------------------------------

  lemma SignedHalf(a: u64, size: Size)
    ensures Signed(Trunc(Signed(a, size) / 2, size), size) == Signed(a, size) / 2
    ensures -Half(size) <= Signed(a, size) < Half(size)
  {
    var s := Signed(a, size) / 2;
    SignedRange(a, size);
    TruncNear(s, size);
    TruncTwiceInt(s, size);
  }

  lemma SignedRange(a: u64, size: Size)
    ensures -Half(size) <= Signed(a, size) < Half(size) && Modulus(size) == 2 * Half(size) && Half(size) >= 1
  {
    hide Trunc;
    TruncMod(a, size);
  }

  /** Far enough right there is only the sign. */
  lemma AllSign(s: int, h: int)
    requires h >= 1 && -h <= s < h
    ensures (s / 2) / h == s / h
  {
    if s >= 0 {
      DivModUnique(s, h, 0, s);
      DivModUnique(s / 2, h, 0, s / 2);
    } else {
      DivModUnique(s, h, -1, s + h);
      DivModUnique(s / 2, h, -1, s / 2 + h);
    }
  }

  function Clamp(n: int, w: int): int { if n >= w then w - 1 else n }

  lemma SarNext(s: int, n: nat, w: nat)
    requires w >= 2 && -(Pow2(w - 1) as int) <= s < Pow2(w - 1)
    ensures (s / 2) / Pow2(Clamp(n, w)) == s / Pow2(Clamp(n + 1, w))
  {
    hide Pow2;
    Positive(w - 1);
    if n + 1 < w {
      PowerNext(n);
      Positive(n);
      HalfDivInt(s, Pow2(n));
    } else {
      AllSign(s, Pow2(w - 1));
    }
  }

  lemma ArithmeticNext(a: u64, n: Count, size: Size)
    requires n < 63
    ensures SameOut(ShiftCalc(ShiftCalc(a, 1, size, 7).res, n, size, 7), ShiftCalc(a, n + 1, size, 7))
  {
    hide Trunc, Pow2, Half, Modulus, Signed;
    var s, w := Signed(a, size), 8 * size;
    PowerNext(0);
    WidthPower(size);
    SignedHalf(a, size);
    SarNext(s, n, w);
    SarNext(s, n - 1, w);
    PowerNext(n - 1);
  }

  // --- by one ------------------------------------------------------------------------------------------------

  function BitOf(b: bool): nat { if b then 1 else 0 }

  lemma TopBit(x: int, h: int)
    requires h >= 1 && 0 <= x < 2 * h
    ensures x / h == BitOf(x >= h)
  {
    if x >= h { DivModUnique(x, h, 1, x - h); } else { DivModUnique(x, h, 0, x); }
  }

  /** The low bytes as a number below 2^(8 * size), and what they read as two's complement. */
  lemma Low(a: u64, size: Size)
    ensures var x := Trunc(a, size);
      0 <= x < Modulus(size) == 2 * Half(size) && Half(size) >= 1
      && Signed(a, size) == x - BitOf(x >= Half(size)) * Modulus(size)
  {
    hide Trunc;
    TruncMod(a, size);
  }

  lemma Doubled(a: u64, size: Size)
    ensures var x := Trunc(a, size);
      Trunc(2 * x, size) == 2 * x - BitOf(x >= Half(size)) * Modulus(size)
  {
    hide Trunc, Modulus, Half;
    var x := Trunc(a, size);
    Low(a, size);
    TruncMod(2 * x, size);
    DivModUnique(2 * x, Modulus(size), BitOf(x >= Half(size)), 2 * x - BitOf(x >= Half(size)) * Modulus(size));
  }

  lemma LeftOne(a: u64, size: Size)
    ensures var s, x := ShiftCalc(a, 1, size, 4), Trunc(a, size);
      && s.res + BitOf(s.cf) * Modulus(size) == 2 * x
      && (s.of <==> !(-Half(size) <= 2 * Signed(a, size) < Half(size)))
  {
    hide Trunc, Modulus, Half, Pow2, Signed;
    var s, x := ShiftCalc(a, 1, size, 4), Trunc(a, size);
    Low(a, size);
    PowerNext(0);
    WidthPower(size);
    TopBit(x, Half(size));
    ShlRes(a, 1, size);
    Doubled(a, size);
    LeftOf(a, size);
  }

  lemma LeftOf(a: u64, size: Size)
    ensures var s := ShiftCalc(a, 1, size, 4); s.of == ((s.res >= Half(size)) != s.cf)
  {
    hide Trunc, Pow2;
  }

  lemma RightOne(a: u64, size: Size)
    ensures var s, x := ShiftCalc(a, 1, size, 5), Trunc(a, size);
      2 * s.res + BitOf(s.cf) == x && s.of == (Signed(a, size) < 0)
  {
    hide Trunc, Modulus, Half, Signed, Pow2;
    PowerNext(0);
    Low(a, size);
    HalfNarrow(a, size);
  }

  lemma ArithmeticOne(a: u64, size: Size)
    ensures var s := ShiftCalc(a, 1, size, 7);
      2 * Signed(s.res, size) + BitOf(s.cf) == Signed(a, size) && !s.of
  {
    hide Trunc, Modulus, Half, Signed, Pow2;
    PowerNext(0);
    SignedHalf(a, size);
  }

  /** What one shift does. Left: twice the operand is the result and the carry above it, and OF says that
      the signed doubling does not fit. Right: the operand is twice the result and the bit shifted out, and
      OF is its old sign. Arithmetic right: the same of the signed operand, without OF. */
  lemma ShiftsByOne(a: u64, size: Size, ext: ShiftExt)
    ensures var s, x := ShiftCalc(a, 1, size, ext), Trunc(a, size);
      if ext == 5 then 2 * s.res + BitOf(s.cf) == x && s.of == (Signed(a, size) < 0)
      else if ext == 7 then 2 * Signed(s.res, size) + BitOf(s.cf) == Signed(a, size) && !s.of
      else
        && s.res + BitOf(s.cf) * Modulus(size) == 2 * x
        && (s.of <==> !(-Half(size) <= 2 * Signed(a, size) < Half(size)))
  {
    hide ShiftCalc, Trunc, Modulus, Half, Signed;
    LeftOne(a, size);
    RightOne(a, size);
    ArithmeticOne(a, size);
    ShlRes(a, 1, size);
  }

  /** OF after any count: whether the sign a left shift leaves differs from the bit it pushed out, the old sign
      after a right shift, and clear after an arithmetic one. */
  lemma ShiftOverflow(a: u64, n: Count, size: Size, ext: ShiftExt)
    ensures var s := ShiftCalc(a, n, size, ext);
      s.of == if ext == 5 then Signed(a, size) < 0 else if ext == 7 then false else (Signed(s.res, size) < 0) != s.cf
  {
    hide Trunc, Modulus, Half, Pow2;
    Low(a, size);
    var r := if ext == 4 || ext == 6 then Trunc(Trunc(a, size) * Pow2(n), 8) else 0;
    TruncTwice(r, size);
    Low(r, size);
  }

  // --- all ------------------------------------------------------------------------------------------------------

  lemma Next(a: u64, n: Count, size: Size, ext: ShiftExt)
    requires n < 63
    ensures SameOut(ShiftCalc(ShiftCalc(a, 1, size, ext).res, n, size, ext), ShiftCalc(a, n + 1, size, ext))
  {
    hide ShiftCalc;
    if ext == 5 {
      RightNext(a, n, size);
    } else if ext == 7 {
      ArithmeticNext(a, n, size);
    } else {
      LeftNext(a, n, size);
      ShlRes(a, 1, size);
      ShlRes(a, n + 1, size);
      ShlRes(ShiftCalc(a, 1, size, 4).res, n, size);
    }
  }

  /** For every width, operand and masked nonzero count, counts past the width included: the result and CF,
      and with them ZF, SF and PF, are those of that many one-bit shifts, and so is OF for a count of one. */
  lemma {:induction false} ShiftIterates(f: Flags, a: u64, n: Count, size: Size, ext: ShiftExt)
    ensures var s, t := ShiftCalc(a, n, size, ext), Times(a, n, size, ext);
      SameOut(s, t) && ShiftFlags(f, s, size).(of := t.of) == ShiftFlags(f, t, size) && (n == 1 ==> s == t)
    decreases n
  {
    hide ShiftCalc, SetPzs;
    if n > 1 {
      Next(a, n - 1, size, ext);
      ShiftIterates(f, ShiftCalc(a, 1, size, ext).res, n - 1, size, ext);
    }
    SameFlags(f, ShiftCalc(a, n, size, ext), Times(a, n, size, ext), size);
  }

  lemma SameFlags(f: Flags, s: Shifted, t: Shifted, size: Size)
    requires SameOut(s, t)
    ensures ShiftFlags(f, s, size).(of := t.of) == ShiftFlags(f, t, size)
  {
    hide Trunc, EvenParity;
  }
}
