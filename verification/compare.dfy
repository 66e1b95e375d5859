/** What the flags mean: comparisons after a subtraction, and carries along a chain of limbs. */
module FlagMeanings {
  import opened Words
  import opened StatusFlags

  // --- comparisons -----------------------------------------------------------------------------------

  /** The low bytes of a difference. */
  lemma Difference(a: u64, b: u64, size: Size)
    ensures var ta, tb := Trunc(a, size), Trunc(b, size);
      Trunc(Wrap(a - b), size) == if ta >= tb then ta - tb else ta - tb + Modulus(size)
    ensures 0 <= Trunc(a, size) < Modulus(size) && 0 <= Trunc(b, size) < Modulus(size)
        && Modulus(size) == 2 * Half(size)
  {
    hide Trunc, Half, Modulus;
    TruncMod(a, size);
    TruncMod(b, size);
    TruncWrap(a - b, size);
    TruncSum(a, b, size);
    var t: int := (Trunc(a, size) as int) - Trunc(b, size);
    TruncNear(t, size);
  }

  /** Sign differs from overflow exactly when the signed difference is negative. */
  lemma SignedBorrow(x: int, y: int, r: int, h: int)
    requires h > 0 && 0 <= x < 2 * h && 0 <= y < 2 * h && r == if x >= y then x - y else x - y + 2 * h
    ensures (r >= h) != ((x >= h) != (y >= h) && (x >= h) != (r >= h))
        <==> (if x >= h then x - 2 * h else x) < (if y >= h then y - 2 * h else y)
    ensures r == 0 <==> x == y
  {
  }

  /** After comparing a with b, at any size, the condition codes are the comparisons their names promise:
      below, equal and below-or-equal unsigned, less and less-or-equal signed, each with its negation. */
  lemma ConditionsCompare(f: Flags, a: u64, b: u64, size: Size)
    ensures var g := FlagsSub(f, a, b, Wrap(a - b), size);
      var x, y, p, q := Trunc(a, size), Trunc(b, size), Signed(a, size), Signed(b, size);
      && (Cond(g, 2) <==> x < y) && (Cond(g, 3) <==> x >= y)
      && (Cond(g, 4) <==> x == y) && (Cond(g, 5) <==> x != y)
      && (Cond(g, 6) <==> x <= y) && (Cond(g, 7) <==> x > y)
      && (Cond(g, 12) <==> p < q) && (Cond(g, 13) <==> p >= q)
      && (Cond(g, 14) <==> p <= q) && (Cond(g, 15) <==> p > q)
  {
    hide Trunc, Half, Modulus, Wrap, Cond, FlagsSub;
    var x, y, r := Trunc(a, size), Trunc(b, size), Trunc(Wrap(a - b), size);
    Difference(a, b, size);
    SubFlags(f, a, b, Wrap(a - b), size);
    SignedBorrow(x, y, r, Half(size));
    CondsOf(FlagsSub(f, a, b, Wrap(a - b), size));
  }

  lemma SubFlags(f: Flags, a: u64, b: u64, res: u64, size: Size)
    ensures var g := FlagsSub(f, a, b, res, size);
      var x, y, r, h := Trunc(a, size), Trunc(b, size), Trunc(res, size), Half(size);
      g.cf == (x < y) && g.zf == (r == 0) && g.sf == (r >= h) && g.of == ((x >= h) != (y >= h) && (x >= h) != (r >= h))
  {
    hide Trunc, Half, EvenParity, Nibble;
    TruncTwice(res, size);
  }

  lemma CondsOf(g: Flags)
    ensures Cond(g, 2) == g.cf && Cond(g, 3) == !g.cf && Cond(g, 4) == g.zf && Cond(g, 5) == !g.zf
    ensures Cond(g, 6) == (g.cf || g.zf) && Cond(g, 7) == !(g.cf || g.zf)
    ensures Cond(g, 12) == (g.sf != g.of) && Cond(g, 13) == (g.sf == g.of)
    ensures Cond(g, 14) == (g.zf || g.sf != g.of) && Cond(g, 15) == !(g.zf || g.sf != g.of)
  {
  }

  // --- carries ----------------------------------------------------------------------------------------

  function FlagsAdc(f: Flags, a: u64, b: u64, cf: bool, res: u64, size: Size): Flags {
    var ta, tb, r := Trunc(a, size), Trunc(b, size), Trunc(res, size);
    var sa, sb, sr := ta >= Half(size), tb >= Half(size), r >= Half(size);
    SetPzs(f.(cf := r < ta || (cf && r == ta), of := sa == sb && sa != sr,
              af := (Nibble(ta) != Nibble(tb)) != Nibble(r)), r, size)
  }

  function FlagsSbb(f: Flags, a: u64, b: u64, cf: bool, res: u64, size: Size): Flags {
    var ta, tb, r := Trunc(a, size), Trunc(b, size), Trunc(res, size);
    var sa, sb, sr := ta >= Half(size), tb >= Half(size), r >= Half(size);
    SetPzs(f.(cf := ta < tb || (cf && ta == tb), of := sa != sb && sa != sr,
              af := (Nibble(ta) != Nibble(tb)) != Nibble(r)), r, size)
  }

  function Bit1(b: bool): int { if b then 1 else 0 }

  /** adc and sbb: the low bytes kept, and the flags. */
  function Adc(f: Flags, a: u64, b: u64, size: Size): (u64, Flags) {
    var r := Wrap(a + b + Bit1(f.cf));
    (Trunc(r, size), FlagsAdc(f, a, b, f.cf, r, size))
  }

  function Sbb(f: Flags, a: u64, b: u64, size: Size): (u64, Flags) {
    var r := Wrap(a - b - Bit1(f.cf));
    (Trunc(r, size), FlagsSbb(f, a, b, f.cf, r, size))
  }

  /** A sum or difference of three, cut to size. */
  lemma CutSum(a: u64, b: u64, c: int, size: Size)
    requires c == 0 || c == 1 || c == -1
    ensures var t := Trunc(a, size) + Trunc(b, size) + c;
      Trunc(Wrap(a + b + c), size)
          == if t < 0 then t + Modulus(size) else if t < Modulus(size) then t else t - Modulus(size)
    ensures var t: int := Trunc(a, size) - Trunc(b, size) + c;
      c <= 0 ==> Trunc(Wrap(a - b + c), size) == if t < 0 then t + Modulus(size) else t
  {
    hide Trunc, Modulus, Wrap;
    var m := Modulus(size);
    var p := Quotient(a, size);
    var q := Quotient(b, size);
    Spread(m, p, q);
    CutNear(a + b + c, (Trunc(a, size) as int) + Trunc(b, size) + c, p + q, size);
    CutNear((a as int) - b + c, (Trunc(a, size) as int) - Trunc(b, size) + c, p - q, size);
  }

  lemma Quotient(a: u64, size: Size) returns (q: int)
    ensures a == Trunc(a, size) + Modulus(size) * q && 0 <= Trunc(a, size) < Modulus(size) && Modulus(size) >= 0x100
  {
    q := a / Modulus(size);
    TruncMod(a, size);
  }

  lemma CutNear(x: int, t: int, k: int, size: Size)
    requires x == t + Modulus(size) * k && -Modulus(size) <= t < 2 * Modulus(size)
    ensures Trunc(Wrap(x), size)
         == if t < 0 then t + Modulus(size) else if t < Modulus(size) then t else t - Modulus(size)
  {
    hide Trunc, Wrap;
    TruncWrap(x, size);
    TruncMod(x, size);
    TruncMod(t, size);
    ModShift(t, k, Modulus(size));
    TruncNear(t, size);
  }

  lemma AdcFlags(f: Flags, a: u64, b: u64, c: bool, res: u64, size: Size)
    ensures var g := FlagsAdc(f, a, b, c, res, size);
      var x, y, r, h := Trunc(a, size), Trunc(b, size), Trunc(res, size), Half(size);
      g.cf == (r < x || (c && r == x)) && g.of == ((x >= h) == (y >= h) && (x >= h) != (r >= h))
  {
    hide Trunc, Half, EvenParity, Nibble;
  }

  lemma SbbFlags(f: Flags, a: u64, b: u64, c: bool, res: u64, size: Size)
    ensures var g := FlagsSbb(f, a, b, c, res, size);
      var x, y, r, h := Trunc(a, size), Trunc(b, size), Trunc(res, size), Half(size);
      g.cf == (x < y || (c && x == y)) && g.of == ((x >= h) != (y >= h) && (x >= h) != (r >= h))
  {
    hide Trunc, Half, EvenParity, Nibble;
  }

  /** One limb: the carry in and out are exact, and OF is the signed overflow. */
  lemma AdcExact(f: Flags, a: u64, b: u64, size: Size)
    ensures var (r, g) := Adc(f, a, b, size);
      var m := Modulus(size);
      Trunc(a, size) + Trunc(b, size) + Bit1(f.cf) == r + m * Bit1(g.cf) && 0 <= r < m
      && (g.of <==> !(-Half(size) <= Signed(a, size) + Signed(b, size) + Bit1(f.cf) < Half(size)))
  {
    hide Trunc, Half, Modulus, Wrap, FlagsAdc;
    CutSum(a, b, Bit1(f.cf), size);
    var r := Wrap(a + b + Bit1(f.cf));
    AdcFlags(f, a, b, f.cf, r, size);
    TruncMod(a, size);
    TruncMod(b, size);
    CarryOut(Trunc(a, size), Trunc(b, size), f.cf, Trunc(r, size), Half(size));
  }

  lemma CarryOut(x: int, y: int, c: bool, r: int, h: int)
    requires h > 0 && 0 <= x < 2 * h && 0 <= y < 2 * h
    requires var t := x + y + Bit1(c); r == if t < 2 * h then t else t - 2 * h
    ensures x + y + Bit1(c) == r + 2 * h * Bit1(r < x || (c && r == x)) && 0 <= r < 2 * h
    ensures ((x >= h) == (y >= h) && (x >= h) != (r >= h))
        <==> !(-h <= (if x < h then x else x - 2 * h) + (if y < h then y else y - 2 * h) + Bit1(c) < h)
  {
  }

  lemma SbbExact(f: Flags, a: u64, b: u64, size: Size)
    ensures var (r, g) := Sbb(f, a, b, size);
      var m := Modulus(size);
      Trunc(a, size) - Trunc(b, size) - Bit1(f.cf) == r - m * Bit1(g.cf) && 0 <= r < m
      && (g.of <==> !(-Half(size) <= Signed(a, size) - Signed(b, size) - Bit1(f.cf) < Half(size)))
  {
    hide Trunc, Half, Modulus, Wrap, FlagsSbb;
    CutSum(a, b, -Bit1(f.cf), size);
    var r := Wrap(a - b - Bit1(f.cf));
    SbbFlags(f, a, b, f.cf, r, size);
    TruncMod(a, size);
    TruncMod(b, size);
    BorrowOut(Trunc(a, size), Trunc(b, size), f.cf, Trunc(r, size), Half(size));
  }

  lemma BorrowOut(x: int, y: int, c: bool, r: int, h: int)
    requires h > 0 && 0 <= x < 2 * h && 0 <= y < 2 * h
    requires var t := x - y - Bit1(c); r == if t < 0 then t + 2 * h else t
    ensures x - y - Bit1(c) == r - 2 * h * Bit1(x < y || (c && x == y)) && 0 <= r < 2 * h
    ensures ((x >= h) != (y >= h) && (x >= h) != (r >= h))
        <==> !(-h <= (if x < h then x else x - 2 * h) - (if y < h then y else y - 2 * h) - Bit1(c) < h)
  {
  }

  // --- chains of limbs ----------------------------------------------------------------------------------

  /** The number a list of limbs writes, lowest first, and the same read as two's complement. */
  function Value(s: seq<u64>, size: Size): int {
    if s == [] then 0 else Trunc(s[0], size) + Modulus(size) * Value(s[1..], size)
  }

  function SignedValue(s: seq<u64>, size: Size): int
    requires s != []
  {
    if |s| == 1 then Signed(s[0], size) else Trunc(s[0], size) + Modulus(size) * SignedValue(s[1..], size)
  }

  function Span(n: nat, size: Size): int { if n == 0 then 1 else Modulus(size) * Span(n - 1, size) }

  /** Half of Span(n). */
  function HalfSpan(n: nat, size: Size): int
    requires n > 0
  {
    if n == 1 then Half(size) else Modulus(size) * HalfSpan(n - 1, size)
  }

  /** adc (or sbb) from the lowest limb up, each taking the carry the one below it left. */
  function Chain(f: Flags, a: seq<u64>, b: seq<u64>, size: Size, sub: bool): Chained
    requires |a| == |b|
    decreases |a|
  {
    if a == [] then Chained([], f)
    else
      var (r, g) := Limb(f, a[0], b[0], size, sub);
      var rest := Chain(g, a[1..], b[1..], size, sub);
      rest.(r := [r] + rest.r)
  }

  datatype Chained = Chained(r: seq<u64>, f: Flags)

  function Limb(f: Flags, a: u64, b: u64, size: Size, sub: bool): (u64, Flags) {
    if sub then Sbb(f, a, b, size) else Adc(f, a, b, size)
  }

  function Sign(sub: bool): int { if sub then -1 else 1 }

  lemma Scale(m: int, x: int, y: int, c: int, r: int, p: int, k: int, s: int)
    requires (s == 1 || s == -1) && x + s * y + s * c == r + s * (p * k)
    ensures m * x + s * (m * y) + s * (m * c) == m * r + s * (m * p * k)
  {
    assert m * (x + s * y + s * c) == m * x + s * (m * y) + s * (m * c);
    assert m * (r + s * (p * k)) == m * r + s * (m * p * k);
  }

  /** One limb of either chain. */
  lemma LimbExact(f: Flags, a: u64, b: u64, size: Size, sub: bool)
    ensures var (r, g) := Limb(f, a, b, size, sub);
      var m, s := Modulus(size), Sign(sub);
      Trunc(a, size) + s * Trunc(b, size) + s * Bit1(f.cf) == r + s * (m * Bit1(g.cf)) && 0 <= r < m
          && Trunc(r, size) == r
      && (g.of <==> !(-Half(size) <= Signed(a, size) + s * Signed(b, size) + s * Bit1(f.cf) < Half(size)))
  {
    hide Trunc, Half, Modulus, Signed, Wrap, FlagsAdc, FlagsSbb;
    AdcExact(f, a, b, size);
    SbbExact(f, a, b, size);
    TruncTwice(Wrap(a + b + Bit1(f.cf)), size);
    TruncTwice(Wrap(a - b - Bit1(f.cf)), size);
  }

  /** A chain of any length gives the exact sum or difference of the whole numbers, with the last carry (or
      borrow) as CF. */
  lemma {:induction false} ChainExact(f: Flags, a: seq<u64>, b: seq<u64>, size: Size, sub: bool)
    requires |a| == |b|
    ensures var e, s := Chain(f, a, b, size, sub), Sign(sub);
      |e.r| == |a|
      && Value(a, size) + s * Value(b, size) + s * Bit1(f.cf) == Value(e.r, size) + s * (Span(|a|, size) * Bit1(e.f.cf))
    decreases |a|
  {
    hide Trunc, Modulus, Limb;
    if a != [] {
      var s, m := Sign(sub), Modulus(size);
      var (r, g) := Limb(f, a[0], b[0], size, sub);
      var rest := Chain(g, a[1..], b[1..], size, sub);
      LimbExact(f, a[0], b[0], size, sub);
      ChainExact(g, a[1..], b[1..], size, sub);
      Scale(m, Value(a[1..], size), Value(b[1..], size), Bit1(g.cf), Value(rest.r, size), Span(|a| - 1, size),
          Bit1(rest.f.cf), s);
      assert ([r] + rest.r)[1..] == rest.r;
    }
  }

  /** OF at the end says whether the signed result fits in the limbs. */
  lemma {:induction false} ChainOverflow(f: Flags, a: seq<u64>, b: seq<u64>, size: Size, sub: bool)
    requires |a| == |b| > 0
    ensures var total := SignedValue(a, size) + Sign(sub) * SignedValue(b, size) + Sign(sub) * Bit1(f.cf);
      Chain(f, a, b, size, sub).f.of <==> !(-HalfSpan(|a|, size) <= total < HalfSpan(|a|, size))
    decreases |a|
  {
    hide Trunc, Modulus, Half, Limb, Signed, HalfSpan;
    var s, m := Sign(sub), Modulus(size);
    var (r, g) := Limb(f, a[0], b[0], size, sub);
    LimbExact(f, a[0], b[0], size, sub);
    SpanIs(|a|, size);
    if |a| == 1 {
      assert Chain(g, a[1..], b[1..], size, sub) == Chained([], g);
    } else {
      ChainOverflow(g, a[1..], b[1..], size, sub);
      TotalIs(m, s, Trunc(a[0], size), Trunc(b[0], size), Bit1(f.cf), r, Bit1(g.cf), SignedValue(a[1..], size),
              SignedValue(b[1..], size), HalfSpan(|a| - 1, size));
    }
  }

  /** One limb below the rest: the whole fits exactly when the rest, with the carry, does. */
  lemma TotalIs(m: int, s: int, x0: int, y0: int, c0: int, r: int, c1: int, x: int, y: int, h: int)
    requires (s == 1 || s == -1) && x0 + s * y0 + s * c0 == r + s * (m * c1) && 0 <= r < m
    ensures var total := (x0 + m * x) + s * (y0 + m * y) + s * c0;
      -(m * h) <= total < m * h <==> -h <= x + s * y + s * c1 < h
  {
    var t := x + s * y + s * c1;
    Scale(m, x, y, c1, t, 0, 0, s);
    assert s * (y0 + m * y) == s * y0 + s * (m * y);
    InSpan(m, r, t, h);
  }

  lemma SpanIs(n: nat, size: Size)
    requires n > 0
    ensures HalfSpan(n, size) == if n == 1 then Half(size) else Modulus(size) * HalfSpan(n - 1, size)
  {
  }

  lemma InSpan(m: int, r: int, t: int, h: int)
    requires 0 <= r < m
    ensures -(m * h) <= r + m * t < m * h <==> -h <= t < h
  {
    if t >= h {
      Grows(m, h, t);
    } else if t < -h {
      Grows(m, t + 1, -h);
      Minus(m, h);
    } else {
      Grows(m, t + 1, h);
      Grows(m, -h, t);
      Minus(m, h);
    }
  }

  lemma Grows(m: int, x: int, y: int)
    requires m >= 0 && x <= y
    ensures m * x <= m * y && m * (x + 1) == m * x + m
  {
  }

  lemma Minus(m: int, x: int)
    ensures m * -x == -(m * x)
  {
  }
}
