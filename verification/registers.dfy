/** What registers hold: bits, sign, and the bytes an operand of each size names in them. */
module RegisterMeanings {
  import opened Words
  import opened GuestState

  // --- bits and sign -----------------------------------------------------------------------------------------

  /** Bit i of a word, counted from the lowest. */
  ghost predicate Digit(v: u64, i: nat) { v / Pow2(i) % 2 == 1 }

  /** The bitwise operations, bit by bit. */
  lemma BitTables(a: u64, b: u64, i: nat)
    requires i < 64
    ensures Digit(Bits(And, a, b), i) <==> Digit(a, i) && Digit(b, i)
    ensures Digit(Bits(Or, a, b), i) <==> Digit(a, i) || Digit(b, i)
    ensures Digit(Bits(Xor, a, b), i) <==> Digit(a, i) != Digit(b, i)
    ensures Digit(Bits(Bic, a, b), i) <==> Digit(a, i) && !Digit(b, i)
  {
    hide Bitwise, Bit;
    BitDiv(a, i);
    BitDiv(b, i);
    forall op: BitOp ensures Digit(Bits(op, a, b), i) <==> op.On(Digit(a, i), Digit(b, i)) {
      BitwiseBit(op, a, b, 64, i);
      BitDiv(Bits(op, a, b), i);
    }
  }

  /** Sign extension keeps the number that the low bytes stand for. */
  lemma SextMeans(v: u64, size: Size)
    ensures Signed(Sext(v, size), 8) == Signed(v, size)
    ensures -Half(size) <= Signed(v, size) < Half(size) && (Signed(v, size) - v) % Modulus(size) == 0
  {
    hide Trunc;
    var s, m := Signed(v, size), Modulus(size);
    TruncMod(v, size);
    var q := v / m;
    assert v == m * q + v % m;
    TruncMod(Sext(v, size), 8);
    if v % m < Half(size) { DivModUnique(s - v, m, -q, 0); } else { DivModUnique(s - v, m, -q - 1, 0); }
    TruncWrap(s, 8);
    TruncNear(s, 8);
  }

  // --- operands in registers ----------------------------------------------------------------------------------

  /** What an operand names: ah, ch, dh and bh are numbers 4 to 7 at one byte, but not beside a REX prefix. */
  function View(r: RegFile, i: int, size: Size, rex: bool): int {
    if size == 1 && !rex && 4 <= i < 8 then Get(r, i - 4) / 0x100 % 0x100
    else if size == 1 then Get(r, i) % 0x100
    else if size == 2 then Get(r, i) % 0x1_0000
    else if size == 4 then Get(r, i) % 0x1_0000_0000
    else Get(r, i)
  }

  /** Writing v to an operand: it holds v's low bytes, a 32-bit write clears the upper half of its register,
      a shorter one leaves the rest of it, and no other register changes. */
  ghost predicate Writes(r: RegFile, r': RegFile, i: int, size: Size, rex: bool, v: u64) {
    var high := size == 1 && !rex && 4 <= i < 8;
    var at := if high then i - 4 else i;
    && View(r', i, size, rex) == v % Modulus(size)
    && (forall j: int :: j != at ==> Get(r', j) == Get(r, j))
    && (high ==> Get(r', at) % 0x100 == Get(r, at) % 0x100 && Get(r', at) / 0x1_0000 == Get(r, at) / 0x1_0000)
    && (size == 1 && !high ==> Get(r', at) / 0x100 == Get(r, at) / 0x100)
    && (size == 2 ==> Get(r', at) / 0x1_0000 == Get(r, at) / 0x1_0000)
    && (size == 4 ==> Get(r', at) / 0x1_0000_0000 == 0)
  }

  lemma OperandReads(g: Guest, i: int, size: Size, rex: bool)
    ensures RegOperand(g, i, size, rex) == View(g.r, i, size, rex)
  {
  }

  lemma LowByteWritten(was: u64, v: u64)
    ensures WithLowByte(was, v) % 0x100 == v % 0x100 && WithLowByte(was, v) / 0x100 == was / 0x100
  {
    DivModUnique(WithLowByte(was, v), 0x100, was / 0x100, v % 0x100);
  }

  lemma HighByteWritten(was: u64, v: u64)
    ensures var now := WithHighByte(was, v);
      now / 0x100 % 0x100 == v % 0x100 && now % 0x100 == was % 0x100 && now / 0x1_0000 == was / 0x1_0000
  {
    var now := WithHighByte(was, v);
    var top, low := was / 0x1_0000, was % 0x100;
    assert was == 0x1_0000 * top + 0x100 * (was / 0x100 % 0x100) + low;
    assert now == 0x1_0000 * top + 0x100 * (v % 0x100) + low;
    DivModUnique(now, 0x1_0000, top, 0x100 * (v % 0x100) + low);
    DivModUnique(now, 0x100, 0x100 * top + v % 0x100, low);
    DivModUnique(0x100 * top + v % 0x100, 0x100, top, v % 0x100);
  }

  lemma HighWrites(g: Guest, i: int, v: u64)
    requires 4 <= i < 8
    ensures var g' := SetOperand(g, i, v, 1, false);
      Writes(g.r, g'.r, i, 1, false, v) && g' == g.(r := g'.r)
  {
    hide WithHighByte;
    HighByteWritten(Get(g.r, i - 4), v);
  }

  lemma OperandWrites(g: Guest, i: int, size: Size, rex: bool, v: u64)
    ensures var g' := SetOperand(g, i, v, size, rex);
      Writes(g.r, g'.r, i, size, rex, v) && g' == g.(r := g'.r)
  {
    if size == 1 && !rex && 4 <= i < 8 {
      HighWrites(g, i, v);
    } else {
      hide SetReg, Get;
      RegisterWrites(g, i, size, v);
    }
  }

  lemma WordWritten(was: u64, v: u64)
    ensures var now := was - was % 0x1_0000 + v % 0x1_0000;
      now % 0x1_0000 == v % 0x1_0000 && now / 0x1_0000 == was / 0x1_0000
  {
    DivModUnique(was - was % 0x1_0000 + v % 0x1_0000, 0x1_0000, was / 0x1_0000, v % 0x1_0000);
  }

  /** The accumulator and the general registers of the immediate forms are written at their size alone. */
  lemma RegisterWrites(g: Guest, i: int, size: Size, v: u64)
    ensures var g' := SetReg(g, i, v, size); Writes(g.r, g'.r, i, size, true, v) && g' == g.(r := g'.r)
  {
    hide WithLowByte;
    LowByteWritten(Get(g.r, i), v);
    WordWritten(Get(g.r, i), v);
  }
}
