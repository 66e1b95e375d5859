/** Machine words. Guest and host values are mathematical integers below 2^64, so that wrap-around
    is always written out; the bitwise operations are defined one bit at a time. */
module Words {

  type u64 = x: int | 0 <= x < 0x1_0000_0000_0000_0000
  type byte = x: int | 0 <= x < 0x100

  /** Operand sizes in bytes. */
  type Size = s: int | s == 1 || s == 2 || s == 4 || s == 8 witness 8

  datatype Option<+T> = None | Some(value: T)

  function Wrap(x: int): u64 { x % 0x1_0000_0000_0000_0000 }

  function Trunc(v: int, size: Size): u64 {
    if size == 1 then v % 0x100
    else if size == 2 then v % 0x1_0000
    else if size == 4 then v % 0x1_0000_0000
    else v % 0x1_0000_0000_0000_0000
  }

  /** 2^(8 * size) */
  function Modulus(size: Size): int {
    if size == 1 then 0x100
    else if size == 2 then 0x1_0000
    else if size == 4 then 0x1_0000_0000
    else 0x1_0000_0000_0000_0000
  }

  /** 2^(8 * size - 1), the weight of the sign bit. */
  function Half(size: Size): int {
    if size == 1 then 0x80
    else if size == 2 then 0x8000
    else if size == 4 then 0x8000_0000
    else 0x8000_0000_0000_0000
  }

  /** The two's complement reading of the low `size` bytes. */
  function Signed(v: int, size: Size): int {
    var t := Trunc(v, size);
    if t < Half(size) then t else t - Modulus(size)
  }

  function Sext(v: u64, size: Size): u64 { Wrap(Signed(v, size)) }

  /** Bits 0..7 or bits 8..15 of a word replaced by the low byte of v. */
  function WithLowByte(was: u64, v: u64): u64 { was - was % 0x100 + v % 0x100 }

  function WithHighByte(was: u64, v: u64): u64 { was - (was / 0x100) % 0x100 * 0x100 + v % 0x100 * 0x100 }

  // --- bits --------------------------------------------------------------

  function Pow2(n: nat): (p: nat)
    ensures p >= 1
  {
    if n == 0 then 1 else 2 * Pow2(n - 1)
  }

  predicate Bit(v: nat, i: nat) {
    if i == 0 then v % 2 == 1 else Bit(v / 2, i - 1)
  }

  datatype BitOp = And | Or | Xor | Bic {
    predicate On(p: bool, q: bool) {
      match this
      case And => p && q
      case Or => p || q
      case Xor => p != q
      case Bic => p && !q
    }
  }

  /** op applied to the low n bits of a and b. */
  function Bitwise(op: BitOp, a: nat, b: nat, n: nat): (r: nat)
    ensures r < Pow2(n)
    decreases n
  {
    if n == 0 then 0
    else (if op.On(a % 2 == 1, b % 2 == 1) then 1 else 0) + 2 * Bitwise(op, a / 2, b / 2, n - 1)
  }

  lemma Pow2Values()
    ensures Pow2(8) == 0x100 && Pow2(16) == 0x1_0000 && Pow2(32) == 0x1_0000_0000
    ensures Pow2(64) == 0x1_0000_0000_0000_0000
  {
    assert Pow2(4) == 16;
    Pow2Add(4, 4);
    Pow2Add(8, 8);
    Pow2Add(16, 16);
    Pow2Add(32, 32);
  }

  lemma {:induction false} Pow2Add(i: nat, j: nat)
    ensures Pow2(i + j) == Pow2(i) * Pow2(j)
  {
    if i > 0 {
      Pow2Add(i - 1, j);
      assert Pow2(i) * Pow2(j) == 2 * (Pow2(i - 1) * Pow2(j));
    }
  }

  function Bits(op: BitOp, a: u64, b: u64): u64 {
    Pow2Values();
    Bitwise(op, a, b, 64)
  }

  /** op on 32-bit registers, zero-extended. */
  function BitsW(op: BitOp, a: u64, b: u64): u64 {
    Pow2Values();
    Bitwise(op, a % 0x1_0000_0000, b % 0x1_0000_0000, 32)
  }

  lemma {:induction false} BitwiseBit(op: BitOp, a: nat, b: nat, n: nat, i: nat)
    requires i < n
    ensures Bit(Bitwise(op, a, b, n), i) == op.On(Bit(a, i), Bit(b, i))
    decreases n
  {
    var r := Bitwise(op, a / 2, b / 2, n - 1);
    assert Bitwise(op, a, b, n) / 2 == r;
    if i > 0 {
      BitwiseBit(op, a / 2, b / 2, n - 1, i - 1);
    }
  }

  lemma SmallMultiple(d: int, t: int)
    requires -d < d * t < d
    ensures t == 0
  {
    if t >= 1 {
      MulGrows(d, t);
    } else if t <= -1 {
      MulGrows(d, -t);
    }
  }

  lemma MulGrows(d: int, t: int)
    requires d >= 1 && t >= 1
    ensures d * t >= d
  {
  }

  lemma DivModUnique(x: int, d: int, q: int, r: int)
    requires 0 <= r < d && x == d * q + r
    ensures x / d == q && x % d == r
  {
    var q', r' := x / d, x % d;
    assert x == d * q' + r';
    assert d * (q - q') == r' - r;
    SmallMultiple(d, q - q');
  }

  lemma HalfMod(x: nat, p: nat)
    requires p >= 1
    ensures (x % (2 * p)) == x % 2 + 2 * ((x / 2) % p)
  {
    var q, r := (x / 2) / p, (x / 2) % p;
    assert x / 2 == p * q + r;
    assert x == 2 * (p * q) + (2 * r + x % 2);
    assert (2 * p) * q == 2 * (p * q);
    DivModUnique(x, 2 * p, q, 2 * r + x % 2);
  }

  /** The low k bits of a bitwise result depend on the low k bits of the operands only. */
  lemma {:induction false} BitwiseLow(op: BitOp, a: nat, b: nat, n: nat, k: nat)
    requires k <= n
    ensures Bitwise(op, a, b, n) % Pow2(k) == Bitwise(op, a % Pow2(k), b % Pow2(k), k)
    decreases n
  {
    if k > 0 {
      var p := Pow2(k - 1);
      HalfMod(a, p);
      HalfMod(b, p);
      HalfMod(Bitwise(op, a, b, n), p);
      BitwiseLow(op, a / 2, b / 2, n - 1, k - 1);
      assert (a % Pow2(k)) / 2 == (a / 2) % p;
      assert (b % Pow2(k)) / 2 == (b / 2) % p;
      assert Bitwise(op, a, b, n) / 2 == Bitwise(op, a / 2, b / 2, n - 1);
    }
  }

  lemma BitwiseTrunc(op: BitOp, a: nat, b: nat, n: nat, size: Size)
    requires size != 8 && 8 * size <= n
    ensures Trunc(Bitwise(op, a, b, n), size) == Bitwise(op, Trunc(a, size), Trunc(b, size), 8 * size)
  {
    ModulusPow2(size);
    BitwiseLow(op, a, b, n, 8 * size);
  }

  /** A bitwise operation truncates to the same thing whether or not its operands were truncated
      first, and whichever register width it was done at. */
  lemma BitsTrunc(op: BitOp, a: u64, b: u64, size: Size)
    ensures Trunc(Bits(op, a, b), size) == Trunc(Bits(op, Trunc(a, size), Trunc(b, size)), size)
  {
    var ta, tb := Trunc(a, size), Trunc(b, size);
    TruncTwice(a, size);
    TruncTwice(b, size);
    if size != 8 {
      BitwiseTrunc(op, a, b, 64, size);
      BitwiseTrunc(op, ta, tb, 64, size);
    }
  }

  lemma BitsWTrunc(op: BitOp, a: u64, b: u64, size: Size)
    requires size != 8
    ensures Trunc(BitsW(op, a, b), size) == Trunc(Bits(op, a, b), size)
  {
    BitwiseTrunc(op, a, b, 64, size);
    BitwiseTrunc(op, a % 0x1_0000_0000, b % 0x1_0000_0000, 32, size);
    LowOfLow(a, size);
    LowOfLow(b, size);
  }

  lemma ModulusPow2(size: Size)
    requires size != 8
    ensures Modulus(size) == Pow2(8 * size)
    ensures forall v: nat :: Trunc(v, size) == v % Pow2(8 * size)
  {
    Pow2Values();
  }

  lemma LowOfLow(a: int, size: Size)
    requires size != 8
    ensures Trunc(a % 0x1_0000_0000, size) == Trunc(a, size)
  {
    var q := a / 0x1_0000_0000;
    if size == 1 {
      ModShift(a, -q * 0x100_0000, 0x100);
    } else if size == 2 {
      ModShift(a, -q * 0x1_0000, 0x1_0000);
    } else {
      DivModUnique(a % 0x1_0000_0000, 0x1_0000_0000, 0, a % 0x1_0000_0000);
    }
  }

  lemma TruncWrap(a: int, size: Size)
    ensures Trunc(Wrap(a), size) == Trunc(a, size)
  {
    var q := a / 0x1_0000_0000_0000_0000;
    if size == 1 {
      ModShift(a, -q * 0x100_0000_0000_0000, 0x100);
    } else if size == 2 {
      ModShift(a, -q * 0x1_0000_0000_0000, 0x1_0000);
    } else if size == 4 {
      ModShift(a, -q * 0x1_0000_0000, 0x1_0000_0000);
    }
  }

  lemma TruncTwice(a: u64, size: Size)
    ensures Trunc(Trunc(a, size), size) == Trunc(a, size)
    ensures size == 8 ==> Trunc(a, size) == a
  {
  }

  // Or and Bic as sums and differences, for masks built one bit at a time.

  lemma {:induction false} Pow2Mono(i: nat, j: nat)
    requires i <= j
    ensures Pow2(i) <= Pow2(j)
    decreases j
  {
    if i < j { Pow2Mono(i, j - 1); }
  }

  lemma {:induction false} OrZero(x: nat, n: nat)
    requires x < Pow2(n)
    ensures Bitwise(Or, x, 0, n) == x
    decreases n
  {
    if n > 0 { OrZero(x / 2, n - 1); }
  }

  /** Multiplication modulo m sees only the residues of its operands. */
  lemma MulMod(a: int, b: int, a': int, b': int, m: int)
    requires m >= 1 && a % m == a' % m && b % m == b' % m
    ensures (a * b) % m == (a' * b') % m
  {
    MulModLeft(a, a', b, m);
    MulModLeft(b, b', a', m);
    assert a' * b == b * a' && b' * a' == a' * b';
  }

  lemma MulModLeft(a: int, a': int, b: int, m: int)
    requires m >= 1 && a % m == a' % m
    ensures (a * b) % m == (a' * b) % m
  {
    var t := a / m - a' / m;
    assert a == a' + m * t by { DivSplit(a, a', m); }
    assert a * b == a' * b + m * (t * b) by { Distribute(a', m, t, b); }
    ModShift(a' * b, t * b, m);
  }

  lemma DivSplit(a: int, a': int, m: int)
    requires m >= 1 && a % m == a' % m
    ensures a == a' + m * (a / m - a' / m)
  {
    assert a == m * (a / m) + a % m;
    assert a' == m * (a' / m) + a' % m;
    assert m * (a / m - a' / m) == m * (a / m) - m * (a' / m);
  }

  lemma Distribute(x: int, m: int, t: int, b: int)
    ensures (x + m * t) * b == x * b + m * (t * b)
  {
    assert (m * t) * b == m * (t * b);
  }

  lemma ModShift(x: int, k: int, m: int)
    requires m >= 1
    ensures (x + m * k) % m == x % m
  {
    assert m * (x / m + k) == m * (x / m) + m * k;
    DivModUnique(x + m * k, m, x / m + k, x % m);
  }

  lemma DivShrinks(v: nat, d: nat)
    requires d >= 1
    ensures 0 <= v / d <= v
  {
    var q := v / d;
    assert v == d * q + v % d;
    if q > 0 {
      MulGrows(q, d);
      assert d * q == q * d;
    }
  }

  lemma ModBelow(v: nat, d: nat)
    requires d >= 1
    ensures 0 <= v % d <= v
  {
    DivShrinks(v, d);
    assert v == d * (v / d) + v % d;
  }

  lemma WrapAdd(x: int, y: int)
    ensures Wrap(Wrap(x) + y) == Wrap(x + y)
    ensures Wrap(y + Wrap(x)) == Wrap(x + y)
  {
  }

  lemma TruncMod(x: int, size: Size)
    ensures Trunc(x, size) == x % Modulus(size) && 0 <= Trunc(x, size) < Modulus(size)
    ensures Modulus(size) == 2 * Half(size)
  {
  }

  /** A value within one modulus of the range truncates by a single step. */
  lemma TruncNear(t: int, size: Size)
    requires -Modulus(size) <= t < 2 * Modulus(size)
    ensures Trunc(t, size) == if t < 0 then t + Modulus(size) else if t < Modulus(size) then t else t - Modulus(size)
  {
    var m := Modulus(size);
    TruncMod(t, size);
    if t < 0 {
      DivModUnique(t, m, -1, t + m);
    } else if t < m {
      DivModUnique(t, m, 0, t);
    } else {
      DivModUnique(t, m, 1, t - m);
    }
  }

  lemma TruncSum(a: int, b: int, size: Size)
    ensures Trunc(Trunc(a, size) + Trunc(b, size), size) == Trunc(a + b, size)
    ensures Trunc(Trunc(a, size) - Trunc(b, size), size) == Trunc(a - b, size)
  {
    hide Trunc, Modulus;
    var m := Modulus(size);
    TruncMod(a, size);
    TruncMod(b, size);
    TruncMod(a + b, size);
    TruncMod(a - b, size);
    TruncMod((Trunc(a, size) as int) + Trunc(b, size), size);
    TruncMod((Trunc(a, size) as int) - Trunc(b, size), size);
    SumMod(a, b, m);
    DifferenceMod(a, b, m);
  }

  lemma SumMod(a: int, b: int, m: int)
    requires m >= 1
    ensures (a % m + b % m) % m == (a + b) % m
  {
    var p, q, r, s := a / m, b / m, a % m, b % m;
    assert m * p + r == a && m * q + s == b;
    Spread(m, p, q);
    ModShift(r + s, p + q, m);
  }

  lemma DifferenceMod(a: int, b: int, m: int)
    requires m >= 1
    ensures (a % m - b % m) % m == (a - b) % m
  {
    var p, q, r, s := a / m, b / m, a % m, b % m;
    assert m * p + r == a && m * q + s == b;
    Spread(m, p, q);
    ModShift(r - s, p - q, m);
  }

  lemma Spread(m: int, p: int, q: int)
    ensures m * (p + q) == m * p + m * q && m * (p - q) == m * p - m * q
  {
  }

  // --- bits by position --------------------------------------------------------

  lemma HalfDiv(v: nat, p: nat)
    requires p >= 1
    ensures v / (2 * p) == (v / 2) / p
  {
    var q, r := (v / 2) / p, (v / 2) % p;
    assert v / 2 == p * q + r;
    assert v == 2 * (p * q) + (2 * r + v % 2);
    assert (2 * p) * q == 2 * (p * q);
    DivModUnique(v, 2 * p, q, 2 * r + v % 2);
  }

  lemma {:induction false} BitDiv(v: nat, i: nat)
    ensures Bit(v, i) <==> (v / Pow2(i)) % 2 == 1
    decreases i
  {
    if i > 0 {
      HalfDiv(v, Pow2(i - 1));
      BitDiv(v / 2, i - 1);
    }
  }

  lemma {:induction false} BitShift(v: nat, k: nat, i: nat)
    ensures v / Pow2(k) >= 0 && Bit(v / Pow2(k), i) == Bit(v, i + k)
    decreases k
  {
    DivShrinks(v, Pow2(k));
    if k > 0 {
      HalfDiv(v, Pow2(k - 1));
      BitShift(v / 2, k - 1, i);
    }
  }
}
