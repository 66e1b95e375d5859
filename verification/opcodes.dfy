/** What the arithmetic opcodes do, said of the bytes themselves: which operation each opcode is, where its
    operands are and what it leaves, against numbers, bits and bytes rather than the interpreter's tables. */
module OpcodeMeanings {
  import opened Words
  import opened StatusFlags
  import opened Regions
  import opened GuestState
  import opened Insns
  import opened Decoder
  import opened Interpreter
  import opened RegisterMeanings
  import FlagMeanings

  // --- operations -------------------------------------------------------------------------------------

  /** add, or, and, sub, xor, cmp, test and mov. */
  datatype Told = Sum | Union | Common | Difference | Differing | Compared | Tested | Copied

  /** The operation an opcode of the one-byte map is for. */
  function OpcodeTells(op: byte): Told {
    if 0x00 <= op <= 0x05 then Sum
    else if 0x08 <= op <= 0x0d then Union
    else if 0x20 <= op <= 0x25 then Common
    else if 0x28 <= op <= 0x2d then Difference
    else if 0x30 <= op <= 0x35 then Differing
    else if 0x38 <= op <= 0x3d then Compared
    else if 0x88 <= op <= 0x8b then Copied
    else Tested
  }

  /** The operation the register field of a ModRM byte selects after 80, 81 or 83. */
  function DigitTells(ext: int): Told {
    if ext == 0 then Sum
    else if ext == 1 then Union
    else if ext == 4 then Common
    else if ext == 5 then Difference
    else if ext == 6 then Differing
    else Compared
  }

  /** Zero, sign and parity of a result. */
  ghost predicate Signs(f: Flags, r: int, size: Size) {
    r >= 0 && f.zf == (r == 0) && f.sf == (r >= Half(size)) && f.pf == EvenParity(r)
  }

  /** CF is the carry, OF tells of a signed sum that does not fit, AF is the carry out of the low four bits. */
  ghost predicate SumFlags(f: Flags, a: int, b: int, size: Size) {
    var s := Signed(a, size) + Signed(b, size);
    f.cf == (a + b >= Modulus(size)) && f.of == !(-Half(size) <= s < Half(size)) && f.af == (a % 16 + b % 16 >= 16)
  }

  /** The same with borrows. */
  ghost predicate DifferenceFlags(f: Flags, a: int, b: int, size: Size) {
    var s := Signed(a, size) - Signed(b, size);
    f.cf == (a < b) && f.of == !(-Half(size) <= s < Half(size)) && f.af == (a % 16 < b % 16)
  }

  /** What an operation makes of two operand values: its result and the flags after it. */
  ghost predicate Leaves(k: Told, a: u64, b: u64, size: Size, f: Flags, f': Flags, r: int) {
    && f'.other == f.other
    && match k
       case Sum => r == (a + b) % Modulus(size) && Signs(f', r, size) && SumFlags(f', a, b, size)
       case Difference => r == (a - b) % Modulus(size) && Signs(f', r, size) && DifferenceFlags(f', a, b, size)
       case Compared => r == (a - b) % Modulus(size) && Signs(f', r, size) && DifferenceFlags(f', a, b, size)
       case Union => r == Bits(Or, a, b) % Modulus(size) && Signs(f', r, size) && !f'.cf && !f'.of && f'.af == f.af
       case Common => r == Bits(And, a, b) % Modulus(size) && Signs(f', r, size) && !f'.cf && !f'.of && f'.af == f.af
       case Tested => r == Bits(And, a, b) % Modulus(size) && Signs(f', r, size) && !f'.cf && !f'.of && f'.af == f.af
       case Differing => r == Bits(Xor, a, b) % Modulus(size) && Signs(f', r, size) && !f'.cf && !f'.of && f'.af == f.af
       case Copied => r == b && f' == f
  }

  ghost predicate IsFor(alu: Alu, k: Told) {
    match k
    case Sum => alu.AAdd?
    case Union => alu.AOr?
    case Common => alu.AAnd?
    case Difference => alu.ASub?
    case Differing => alu.AXor?
    case Compared => alu.ACmp?
    case Tested => alu.ATest?
    case Copied => alu.AMov?
  }

  // --- the fourth bit ------------------------------------------------------------------------------------

  lemma Nibbles(x: int, h: int, b: int, l: int)
    requires x == 32 * h + 16 * b + l && 0 <= b < 2 && 0 <= l < 16
    ensures x / 16 % 2 == b && x % 16 == l
  {
    DivModUnique(x, 16, 2 * h + b, l);
    DivModUnique(2 * h + b, 2, h, b);
  }

  lemma NibbleSplit(x: int) returns (h: int, b: int, l: int)
    ensures x == 32 * h + 16 * b + l && 0 <= b < 2 && 0 <= l < 16 && b == x / 16 % 2 && l == x % 16
  {
    h, b, l := x / 32, x / 16 % 2, x % 16;
  }

  /** Bit 4 of a sum is the two bits and the carry into them, whatever is taken off above it. */
  lemma NibbleCarry(x: int, y: int, c: int, r: int, t: int)
    requires r == x + y + c - 32 * t && 0 <= c < 2
    ensures ((x / 16 % 2 == 1) != (y / 16 % 2 == 1)) != (r / 16 % 2 == 1) <==> x % 16 + y % 16 + c >= 16
  {
    var xh, xb, xl := NibbleSplit(x);
    var yh, yb, yl := NibbleSplit(y);
    var up := if xl + yl + c >= 16 then 1 else 0;
    var k := if xb + yb + up >= 2 then 1 else 0;
    Nibbles(r, xh + yh - t + k, xb + yb + up - 2 * k, xl + yl + c - 16 * up);
  }

  lemma NibbleBorrow(x: int, y: int, c: int, r: int, t: int)
    requires r == x - y - c + 32 * t && 0 <= c < 2
    ensures ((x / 16 % 2 == 1) != (y / 16 % 2 == 1)) != (r / 16 % 2 == 1) <==> x % 16 < y % 16 + c
  {
    var xh, xb, xl := NibbleSplit(x);
    var yh, yb, yl := NibbleSplit(y);
    var up := if xl < yl + c then 1 else 0;
    var k := if xb - yb - up < 0 then -1 else 0;
    Nibbles(r, xh - yh + t + k, xb - yb - up - 2 * k, xl - yl - c + 16 * up);
  }

  lemma ModulusOver32(size: Size)
    ensures Modulus(size) == 32 * (Modulus(size) / 32) && Modulus(size) == 2 * Half(size) && Half(size) >= 1
  {
  }

  // --- flags -----------------------------------------------------------------------------------------------

  /** Carry and overflow of a sum, from the signs. */
  lemma SumOverflows(x: int, y: int, r: int, h: int)
    requires h > 0 && 0 <= x < 2 * h && 0 <= y < 2 * h && r == if x + y >= 2 * h then x + y - 2 * h else x + y
    ensures var s := (if x >= h then x - 2 * h else x) + (if y >= h then y - 2 * h else y);
      (r < x <==> x + y >= 2 * h) && ((x >= h) == (y >= h) && (x >= h) != (r >= h) <==> !(-h <= s < h))
  {
  }

  lemma DifferenceOverflows(x: int, y: int, r: int, h: int)
    requires h > 0 && 0 <= x < 2 * h && 0 <= y < 2 * h && r == if x < y then x - y + 2 * h else x - y
    ensures var s := (if x >= h then x - 2 * h else x) - (if y >= h then y - 2 * h else y);
      (x >= h) != (y >= h) && (x >= h) != (r >= h) <==> !(-h <= s < h)
  {
  }

  lemma LowValue(v: u64, size: Size)
    ensures var x := Trunc(v, size);
      x == v % Modulus(size) && 0 <= x < Modulus(size) && Trunc(x, size) == x
      && Signed(v, size) == (if x >= Half(size) then x - Modulus(size) else x) && Signed(x, size) == Signed(v, size)
  {
    hide Trunc;
    TruncMod(v, size);
    TruncTwice(v, size);
  }

  lemma SumLow(a: u64, b: u64, size: Size)
    ensures var x, y, m := Trunc(a, size), Trunc(b, size), Modulus(size);
      Trunc(Wrap(a + b), size) == (if x + y >= m then x + y - m else x + y) && (x + y) % m == Trunc(Wrap(a + b), size)
  {
    hide Trunc;
    LowValue(a, size);
    LowValue(b, size);
    TruncWrap(a + b, size);
    TruncSum(a, b, size);
    TruncNear(Trunc(a, size) + Trunc(b, size), size);
    TruncMod(Trunc(a, size) + Trunc(b, size), size);
  }

  lemma DifferenceLow(a: u64, b: u64, size: Size)
    ensures var x, y, m := Trunc(a, size), Trunc(b, size), Modulus(size);
      Trunc(Wrap(a - b), size) == (if x < y then x - y + m else x - y) && (x - y) % m == Trunc(Wrap(a - b), size)
  {
    hide Trunc;
    LowValue(a, size);
    LowValue(b, size);
    TruncWrap(a - b, size);
    TruncSum(a, b, size);
    var d: int := (Trunc(a, size) as int) - Trunc(b, size);
    TruncNear(d, size);
    TruncMod(d, size);
  }

  lemma SumNibbles(x: int, y: int, c: int, z: int, size: Size)
    requires 0 <= c < 2 && z == if x + y + c >= Modulus(size) then x + y + c - Modulus(size) else x + y + c
    ensures ((x / 16 % 2 == 1) != (y / 16 % 2 == 1)) != (z / 16 % 2 == 1) <==> x % 16 + y % 16 + c >= 16
  {
    hide Modulus;
    ModulusOver32(size);
    NibbleCarry(x, y, c, z, if x + y + c >= Modulus(size) then Modulus(size) / 32 else 0);
  }

  lemma DifferenceNibbles(x: int, y: int, c: int, z: int, size: Size)
    requires 0 <= c < 2 && z == if x < y + c then x - y - c + Modulus(size) else x - y - c
    ensures ((x / 16 % 2 == 1) != (y / 16 % 2 == 1)) != (z / 16 % 2 == 1) <==> x % 16 < y % 16 + c
  {
    hide Modulus;
    ModulusOver32(size);
    NibbleBorrow(x, y, c, z, if x < y + c then Modulus(size) / 32 else 0);
  }

  lemma HalfOf(size: Size)
    ensures Modulus(size) == 2 * Half(size) && Half(size) >= 1
  {
  }

  /** The fields the addition routine sets. */
  lemma AddParts(f: Flags, a: u64, b: u64, res: u64, size: Size)
    ensures var g, h := FlagsAdd(f, a, b, res, size), Half(size);
      var x, y, z := Trunc(a, size), Trunc(b, size), Trunc(res, size);
      && g.cf == (z < x) && g.of == ((x >= h) == (y >= h) && (x >= h) != (z >= h))
      && g.af == (((x / 16 % 2 == 1) != (y / 16 % 2 == 1)) != (z / 16 % 2 == 1))
      && g.zf == (z == 0) && g.sf == (z >= h) && g.pf == EvenParity(z) && g.other == f.other
  {
    hide Trunc, Half, EvenParity;
    TruncTwice(res, size);
  }

  lemma SubParts(f: Flags, a: u64, b: u64, res: u64, size: Size)
    ensures var g, h := FlagsSub(f, a, b, res, size), Half(size);
      var x, y, z := Trunc(a, size), Trunc(b, size), Trunc(res, size);
      && g.cf == (x < y) && g.of == ((x >= h) != (y >= h) && (x >= h) != (z >= h))
      && g.af == (((x / 16 % 2 == 1) != (y / 16 % 2 == 1)) != (z / 16 % 2 == 1))
      && g.zf == (z == 0) && g.sf == (z >= h) && g.pf == EvenParity(z) && g.other == f.other
  {
    hide Trunc, Half, EvenParity;
    TruncTwice(res, size);
  }

  lemma LogicParts(f: Flags, res: u64, size: Size)
    ensures var g, z := FlagsLogic(f, res, size), Trunc(res, size);
      g == f.(cf := false, of := false, zf := z == 0, sf := z >= Half(size), pf := EvenParity(z))
  {
    hide Trunc, Half, EvenParity;
  }

  lemma SumFlagsMean(f: Flags, a: u64, b: u64, size: Size)
    ensures SumFlags(FlagsAdd(f, a, b, Wrap(a + b), size), Trunc(a, size), Trunc(b, size), size)
  {
    hide Trunc, Modulus, Half, Signed, EvenParity, FlagsAdd, Wrap;
    var x, y, z := Trunc(a, size), Trunc(b, size), Trunc(Wrap(a + b), size);
    AddParts(f, a, b, Wrap(a + b), size);
    LowValue(a, size);
    LowValue(b, size);
    HalfOf(size);
    SumLow(a, b, size);
    SumOverflows(x, y, z, Half(size));
    SumNibbles(x, y, 0, z, size);
  }

  lemma SumMeans(f: Flags, a: u64, b: u64, size: Size)
    ensures var r := Wrap(a + b);
      Leaves(Sum, Trunc(a, size), Trunc(b, size), size, f, FlagsAdd(f, a, b, r, size), Trunc(r, size))
  {
    hide Trunc, Modulus, Half, EvenParity, FlagsAdd, SumFlags, Wrap;
    AddParts(f, a, b, Wrap(a + b), size);
    SumLow(a, b, size);
    SumFlagsMean(f, a, b, size);
  }

  lemma DifferenceFlagsMean(f: Flags, a: u64, b: u64, size: Size)
    ensures DifferenceFlags(FlagsSub(f, a, b, Wrap(a - b), size), Trunc(a, size), Trunc(b, size), size)
  {
    hide Trunc, Modulus, Half, Signed, EvenParity, FlagsSub, Wrap;
    var x, y, z := Trunc(a, size), Trunc(b, size), Trunc(Wrap(a - b), size);
    SubParts(f, a, b, Wrap(a - b), size);
    LowValue(a, size);
    LowValue(b, size);
    HalfOf(size);
    DifferenceLow(a, b, size);
    DifferenceOverflows(x, y, z, Half(size));
    DifferenceNibbles(x, y, 0, z, size);
  }

  lemma DifferenceMeans(f: Flags, a: u64, b: u64, size: Size)
    ensures var r := Wrap(a - b);
      Leaves(Difference, Trunc(a, size), Trunc(b, size), size, f, FlagsSub(f, a, b, r, size), Trunc(r, size))
  {
    hide Trunc, Modulus, Half, EvenParity, FlagsSub, DifferenceFlags, Wrap;
    SubParts(f, a, b, Wrap(a - b), size);
    DifferenceLow(a, b, size);
    DifferenceFlagsMean(f, a, b, size);
  }

  lemma LogicMeans(k: Told, op: BitOp, f: Flags, a: u64, b: u64, size: Size)
    requires (k.Union? && op.Or?) || ((k.Common? || k.Tested?) && op.And?) || (k.Differing? && op.Xor?)
    ensures var r := Bits(op, a, b);
      Leaves(k, Trunc(a, size), Trunc(b, size), size, f, FlagsLogic(f, r, size), Trunc(r, size))
  {
    hide Trunc, Modulus, Half, EvenParity, FlagsLogic, Bits;
    LogicParts(f, Bits(op, a, b), size);
    BitsTrunc(op, a, b, size);
    TruncMod(Bits(op, Trunc(a, size), Trunc(b, size)), size);
  }

  /** The result and the flags the interpreter works out for an operation are those it is for. */
  lemma AluMeans(k: Told, alu: Alu, f: Flags, a: u64, b: u64, size: Size)
    requires IsFor(alu, k)
    ensures var r := AluResult(alu, a, b);
      Leaves(k, Trunc(a, size), Trunc(b, size), size, f, AluFlags(f, alu, a, b, r, size), Trunc(r, size))
  {
    hide Trunc, Modulus, Half, EvenParity, FlagsLogic, FlagsAdd, FlagsSub, Bits, Signed;
    match k
    case Sum => SumMeans(f, a, b, size);
    case Union => LogicMeans(k, Or, f, a, b, size);
    case Common => LogicMeans(k, And, f, a, b, size);
    case Differing => LogicMeans(k, Xor, f, a, b, size);
    case Tested => LogicMeans(k, And, f, a, b, size);
    case Difference => DifferenceMeans(f, a, b, size);
    case Compared => DifferenceMeans(f, a, b, size);
    case Copied =>
  }

  /** The flags of adc that tell of the result itself, and AF with the carry taken in. */
  lemma AdcSigns(f: Flags, a: u64, b: u64, size: Size)
    ensures var (r, g) := FlagMeanings.Adc(f, a, b, size);
      Signs(g, r, size) && g.other == f.other
      && g.af == (Trunc(a, size) % 16 + Trunc(b, size) % 16 + (if f.cf then 1 else 0) >= 16)
  {
    hide Trunc, Modulus, Half, EvenParity, Wrap, FlagMeanings.FlagsAdc;
    var c := if f.cf then 1 else 0;
    LowValue(a, size);
    LowValue(b, size);
    FlagMeanings.CutSum(a, b, c, size);
    SumNibbles(Trunc(a, size), Trunc(b, size), c, Trunc(Wrap(a + b + c), size), size);
    AdcParts(f, a, b, f.cf, Wrap(a + b + c), size);
  }

  /** And of sbb, with the borrow. */
  lemma SbbSigns(f: Flags, a: u64, b: u64, size: Size)
    ensures var (r, g) := FlagMeanings.Sbb(f, a, b, size);
      Signs(g, r, size) && g.other == f.other
      && g.af == (Trunc(a, size) % 16 < Trunc(b, size) % 16 + (if f.cf then 1 else 0))
  {
    hide Trunc, Modulus, Half, EvenParity, Wrap, FlagMeanings.FlagsSbb;
    var c := if f.cf then 1 else 0;
    LowValue(a, size);
    LowValue(b, size);
    FlagMeanings.CutSum(a, b, -c, size);
    DifferenceNibbles(Trunc(a, size), Trunc(b, size), c, Trunc(Wrap(a - b - c), size), size);
    SbbParts(f, a, b, f.cf, Wrap(a - b - c), size);
  }

  lemma AdcParts(f: Flags, a: u64, b: u64, c: bool, res: u64, size: Size)
    ensures var g, z := FlagMeanings.FlagsAdc(f, a, b, c, res, size), Trunc(res, size);
      && g.af == (((Trunc(a, size) / 16 % 2 == 1) != (Trunc(b, size) / 16 % 2 == 1)) != (z / 16 % 2 == 1))
      && g.zf == (z == 0) && g.sf == (z >= Half(size)) && g.pf == EvenParity(z) && g.other == f.other
  {
    hide Trunc, Half, EvenParity;
    TruncTwice(res, size);
  }

  lemma SbbParts(f: Flags, a: u64, b: u64, c: bool, res: u64, size: Size)
    ensures var g, z := FlagMeanings.FlagsSbb(f, a, b, c, res, size), Trunc(res, size);
      && g.af == (((Trunc(a, size) / 16 % 2 == 1) != (Trunc(b, size) / 16 % 2 == 1)) != (z / 16 % 2 == 1))
      && g.zf == (z == 0) && g.sf == (z >= Half(size)) && g.pf == EvenParity(z) && g.other == f.other
  {
    hide Trunc, Half, EvenParity;
    TruncTwice(res, size);
  }

  // --- where an instruction's bytes are -------------------------------------------------------------------

  /** At most the operand size prefix and a REX prefix, then the opcode. */
  ghost predicate Begins(code: Mem, rip: u64, short: bool, rex: Option<byte>, op: byte) {
    var k := if short then 1 else 0;
    && (short ==> Peek(code, rip) == 0x66)
    && (rex.Some? ==> 0x40 <= rex.value <= 0x4f && Peek(code, rip + k) == rex.value)
    && Peek(code, rip + k + (if rex.Some? then 1 else 0)) == op
  }

  function HeadLength(short: bool, rex: Option<byte>): nat {
    (if short then 2 else 1) + (if rex.Some? then 1 else 0)
  }

  function Bits4(rex: Option<byte>): byte { if rex.Some? then rex.value else 0 }

  /** REX.W is bit 3; without it the operand size prefix means 16 bits. */
  function Wide4(short: bool, rex: Option<byte>): Size {
    if rex.Some? && rex.value / 8 % 2 == 1 then 8 else if short then 2 else 4
  }

  predicate NotPrefix(op: byte) {
    op != 0x66 && op != 0x67 && op != 0xf2 && op != 0xf3 && op != 0x26 && op != 0x2e && op != 0x36 && op != 0x3e
    && op != 0x64 && op != 0x65 && !(0x40 <= op <= 0x4f)
  }

  lemma HeadStep(regs: seq<Region>, code: Mem, rip: u64, g: Guest, short: bool, rex: Option<byte>, op: byte)
    requires Ok(regs, rip, 1, EXEC) && Begins(code, rip, short, rex, op) && NotPrefix(op)
    ensures Interpreter.Step(regs, code, rip, g)
         == StepOp(At(regs, code, rip, HeadLength(short, rex), Bits4(rex), rex.Some?, Wide4(short, rex), g), op)
  {
    hide Ok, StepOp;
    var d := Dec(if short then 1 else 0, if short then 2 else 4, if short then 0x66 else 0, true);
    assert Byte(code, rip, d.n) == if rex.Some? then rex.value else op;
    assert Prefixes(code, rip, d, MAX_PREFIXES - 1) == Some(d) == Prefixes(code, rip, d, MAX_PREFIXES);
    assert Prefixes(code, rip, Dec(0, 4, 0, true), MAX_PREFIXES) == Some(d);
  }

  // --- operands ---------------------------------------------------------------------------------------------

  /** A register or an address. */
  datatype Spot = InRegister(i: int) | InMemory(a: u64)

  function SignedByte(b: byte): int { if b < 0x80 then b else b - 0x100 }

  /** Four bytes, lowest first, as a signed number. */
  function SignedWord(m: Mem, a: int): int {
    var v := Peek(m, a) + 0x100 * Peek(m, a + 1) + 0x1_0000 * Peek(m, a + 2) + 0x100_0000 * Peek(m, a + 3);
    if v < 0x8000_0000 then v else v - 0x1_0000_0000
  }

  /** How many bytes ModRM, SIB and displacement take. */
  function OperandLength(code: Mem, a: int): nat {
    var m := Peek(code, a);
    var sib := m < 0xc0 && m % 8 == 4;
    var disp :=
      if m >= 0xc0 then 0
      else if m >= 0x80 then 4
      else if m >= 0x40 then 1
      else if m % 8 == 5 || (sib && Peek(code, a + 1) % 8 == 5) then 4
      else 0;
    1 + (if sib then 1 else 0) + disp
  }

  /** The address a ModRM byte below c0 names, as tables 2-2 and 2-3 of volume 2A of the manual lay it out:
      base plus scaled index plus displacement, with rip, no base and no index where the tables say so. */
  function NamedAddress(code: Mem, a: int, rex: byte, r: RegFile, next: u64): u64 {
    var m, sib := Peek(code, a), Peek(code, a + 1);
    var at := if m % 8 == 4 then a + 2 else a + 1;
    var bare := m < 0x40 && (m % 8 == 5 || (m % 8 == 4 && sib % 8 == 5));
    var base :=
      if m % 8 == 4 then if bare then 0 else Get(r, sib % 8 + 8 * (rex % 2))
      else if bare then next
      else Get(r, m % 8 + 8 * (rex % 2));
    var i := sib / 8 % 8 + 8 * (rex / 2 % 2);
    var index := if m % 8 == 4 && i != 4 then Get(r, i) * Pow2(sib / 0x40) else 0;
    var disp :=
      if bare || m >= 0x80 then SignedWord(code, at) else if m >= 0x40 then SignedByte(Peek(code, at)) else 0;
    (base + index + disp) % 0x1_0000_0000_0000_0000
  }

  function NamedSpot(code: Mem, a: int, rex: byte, r: RegFile, next: u64): Spot {
    var m := Peek(code, a);
    if m >= 0xc0 then InRegister(m % 8 + 8 * (rex % 2)) else InMemory(NamedAddress(code, a, rex, r, next))
  }

  function NamedRegister(m: byte, rex: byte): Spot { InRegister(m / 8 % 8 + 8 * (rex / 4 % 2)) }

  function SpotOf(o: Opnd): Spot
    requires !o.Pending?
  {
    if o.AtReg? then InRegister(o.reg) else InMemory(o.a)
  }

  lemma ByteIs(code: Mem, rip: u64, n: nat)
    ensures Sbytes(code, rip, n, 1) == SignedByte(Peek(code, rip + n))
  {
    assert Load(code, rip + n, 1) == Peek(code, rip + n) + 0x100 * Load(code, rip + n + 1, 0);
  }

  lemma WordIs(code: Mem, rip: u64, n: nat)
    ensures Sbytes(code, rip, n, 4) == SignedWord(code, rip + n)
  {
    hide Load, Peek;
    var a := rip + n;
    LoadStep(code, a, 3);
    LoadStep(code, a + 1, 2);
    LoadStep(code, a + 2, 1);
    LoadStep(code, a + 3, 0);
  }

  lemma LoadStep(m: Mem, a: int, n: nat)
    ensures Load(m, a, n + 1) == Peek(m, a) + 0x100 * Load(m, a + 1, n) && Load(m, a, 0) == 0
  {
  }

  lemma FieldsAre(m: byte, rex: byte)
    ensures m == 0x40 * ModOf(m) + 8 * RegOf(m) + m % 8 && 0 <= ModOf(m) < 4 && 0 <= RegOf(m) < 8
    ensures RegField(m, rex) == m / 8 % 8 + 8 * (rex / 4 % 2) && RmField(m, rex) == m % 8 + 8 * (rex % 2)
    ensures Wide(RegOf(m), RexX(rex)) == m / 8 % 8 + 8 * (rex / 2 % 2) && ModOf(m) == m / 0x40
  {
  }

  lemma ScaledIs(v: u64, scale: Scale)
    ensures Scaled(v, scale) == v * Pow2(scale)
  {
    assert Pow2(1) == 2 * Pow2(0) && Pow2(2) == 2 * Pow2(1) && Pow2(3) == 2 * Pow2(2);
  }

  /** An address worked up step by step, wrapping each time, wraps to the same. */
  lemma WrapSteps(x: int, y: int, z: int)
    ensures Wrap(Wrap(Wrap(x) + y) + z) == (y + x + z) % 0x1_0000_0000_0000_0000
    ensures Wrap(Wrap(x) + z) == (x + z) % 0x1_0000_0000_0000_0000
  {
    hide Wrap;
    WrapAdd(x, y);
    WrapAdd(x + y, z);
    WrapAdd(x, z);
    WrapIs(x + y + z);
    WrapIs(x + z);
  }

  lemma WrapIs(x: int)
    ensures Wrap(x) == x % 0x1_0000_0000_0000_0000
  {
  }

  /** What WithDisp adds, and how long it is. */
  lemma DisplacementIs(code: Mem, rip: u64, n: nat, m: byte, reg: Reg, a: u64)
    requires m < 0xc0
    ensures var w := Interpreter.WithDisp(code, rip, n, m / 0x40, reg, a);
      var disp :=
        if m >= 0x80 then SignedWord(code, rip + n) else if m >= 0x40 then SignedByte(Peek(code, rip + n)) else 0;
      w.reg == reg && w.n == n + (if m >= 0x80 then 4 else if m >= 0x40 then 1 else 0) && w.o == AtMem(Wrap(a + disp))
  {
    hide Sbytes, SignedByte, SignedWord;
    ByteIs(code, rip, n);
    WordIs(code, rip, n);
  }

  lemma SibMeans(code: Mem, rip: u64, n: nat, rex: byte, r: RegFile, next: u64)
    requires Peek(code, rip + n) < 0xc0 && Peek(code, rip + n) % 8 == 4
    ensures var rm := Modrm(code, rip, n, rex, r);
      rm.n == n + OperandLength(code, rip + n) && rm.o == AtMem(NamedAddress(code, rip + n, rex, r, next))
  {
    hide Sbytes, SignedByte, SignedWord, RegField, RmField, RegOf, ModOf, RexX, Scaled, Wrap, Pow2;
    var m, sib := Peek(code, rip + n), Peek(code, rip + n + 1);
    FieldsAre(m, rex);
    FieldsAre(sib, rex);
    WordIs(code, rip, n + 2);
    var i := Wide(RegOf(sib), RexX(rex));
    ScaledIs(Get(r, i), ModOf(sib));
    var scaled := if i != 4 then Scaled(Get(r, i), ModOf(sib)) else 0;
    var base := Get(r, RmField(sib, rex));
    WrapIs(0);
    assert (if i != 4 then Wrap(Scaled(Get(r, i), ModOf(sib))) else 0) == Wrap(scaled);
    DisplacementIs(code, rip, n + 2, m, RegField(m, rex), Wrap(Wrap(scaled) + base));
    var disp :=
      if m >= 0x80 then SignedWord(code, rip + n + 2) else if m >= 0x40 then SignedByte(Peek(code, rip + n + 2)) else 0;
    WrapSteps(scaled, base, disp);
    WrapSteps(scaled, 0, SignedWord(code, rip + n + 2));
  }

  lemma PlainMeans(code: Mem, rip: u64, n: nat, rex: byte, r: RegFile, next: u64)
    requires Peek(code, rip + n) < 0xc0 && Peek(code, rip + n) % 8 != 4
    ensures var rm := Modrm(code, rip, n, rex, r);
      rm.n == n + OperandLength(code, rip + n)
      && Fixup(rm.o, next) == AtMem(NamedAddress(code, rip + n, rex, r, next))
  {
    hide Sbytes, SignedByte, SignedWord, RegField, RmField, ModOf, Wrap;
    var m := Peek(code, rip + n);
    FieldsAre(m, rex);
    WordIs(code, rip, n + 1);
    DisplacementIs(code, rip, n + 1, m, RegField(m, rex), Get(r, RmField(m, rex)));
    WrapIs(next + SignedWord(code, rip + n + 1));
    WrapIs(Get(r, RmField(m, rex)) + SignedWord(code, rip + n + 1));
    WrapIs(Get(r, RmField(m, rex)) + SignedByte(Peek(code, rip + n + 1)));
    WrapIs(Get(r, RmField(m, rex)));
  }

  /** ModRM, SIB and displacement name the register and the operand of the manual's tables, and end where they
      say. */
  lemma ModrmMeans(code: Mem, rip: u64, n: nat, rex: byte, r: RegFile, next: u64)
    ensures var m, rm := Peek(code, rip + n), Modrm(code, rip, n, rex, r);
      rm.n == n + OperandLength(code, rip + n) && InRegister(rm.reg) == NamedRegister(m, rex)
      && !Fixup(rm.o, next).Pending? && SpotOf(Fixup(rm.o, next)) == NamedSpot(code, rip + n, rex, r, next)
  {
    hide NamedAddress, RegField, RmField, RegOf, ModOf, Sbytes, Wrap;
    var m := Peek(code, rip + n);
    FieldsAre(m, rex);
    RegFieldIs(code, rip, n, rex, r);
    if m < 0xc0 {
      if m % 8 == 4 { SibMeans(code, rip, n, rex, r, next); } else { PlainMeans(code, rip, n, rex, r, next); }
    }
  }

  lemma RegFieldIs(code: Mem, rip: u64, n: nat, rex: byte, r: RegFile)
    ensures Modrm(code, rip, n, rex, r).reg == RegField(Peek(code, rip + n), rex)
  {
    hide RegField, RmField, RegOf, Sbytes, Wrap, Scaled, RexX;
  }

  // --- what the opcodes do ------------------------------------------------------------------------------------

  /** What an operand holds; None if reading it faults. */
  function Held(regs: seq<Region>, g: Guest, o: Spot, size: Size, rex: bool): Option<int> {
    match o
    case InRegister(i) => Some(View(g.r, i, size, rex))
    case InMemory(a) => Ld(regs, g, a, size)
  }

  /** The step carries out operation k on the values a and b: cmp and test leave flags alone, the others also
      write the result, which v ends in, to dst, or fault there. */
  ghost predicate CarriesOut(regs: seq<Region>, g: Guest, k: Told, dst: Spot, a: u64, b: u64, size: Size, rex: bool,
      next: u64, s: Stepped, v: u64, f: Flags)
  {
    && Leaves(k, a, b, size, g.flags, f, v % Modulus(size))
    && if k.Compared? || k.Tested? then s == Ran(Done(g.(flags := f), next))
       else
         match dst
         case InRegister(i) =>
           && s.Ran? && s.r.Done? && s.r.rip == next && s.r.g == g.(flags := f, r := s.r.g.r)
           && Writes(g.r, s.r.g.r, i, size, rex, v)
         case InMemory(at) =>
           var w := St(regs, g.(flags := f), at, v, size);
           s == Ran(if w.Some? then Done(w.value, next) else Fault)
  }

  lemma OperateMeans(regs: seq<Region>, g: Guest, k: Told, alu: Alu, dst: Opnd, a: u64, b: u64, size: Size, rex: bool,
      next: u64) returns (v: u64, f: Flags)
    requires IsFor(alu, k) && !dst.Pending?
    ensures CarriesOut(regs, g, k, SpotOf(dst), Trunc(a, size), Trunc(b, size), size, rex, next,
      Ran(Operate(regs, g, alu, dst, a, b, size, rex, next)), v, f)
  {
    hide Trunc, Modulus, AluResult, AluFlags, Leaves, SetOperand, Writes, St;
    v := AluResult(alu, a, b);
    f := AluFlags(g.flags, alu, a, b, v, size);
    AluMeans(k, alu, g.flags, a, b, size);
    TruncMod(v, size);
    if dst.AtReg? { OperandWrites(g.(flags := f), dst.reg, size, rex, v); }
  }

  lemma HeldIs(regs: seq<Region>, g: Guest, o: Opnd, size: Size, rex: bool)
    requires !o.Pending?
    ensures var h := Held(regs, g, SpotOf(o), size, rex);
      Rd(regs, g, o, size, rex) == (if h.Some? then Some(h.value) else None)
      && (h.Some? ==> 0 <= h.value < Modulus(size) && Trunc(h.value, size) == h.value)
  {
    hide AccessOk, Load, RegOperand;
    ByteLimits(size);
    if o.AtReg? { OperandReads(g, o.reg, size, rex); }
    var h := Held(regs, g, SpotOf(o), size, rex);
    if h.Some? { TruncNear(h.value, size); }
  }

  /** The rows of operations between a register and a register or memory operand, test and mov among them. */
  predicate RowOpcode(op: byte) {
    0x00 <= op <= 0x03 || 0x08 <= op <= 0x0b || 0x20 <= op <= 0x23 || 0x28 <= op <= 0x2b || 0x30 <= op <= 0x33
    || 0x38 <= op <= 0x3b || op == 0x84 || op == 0x85 || 0x88 <= op <= 0x8b
  }

  /** The register is the destination in the upper half of each row. */
  predicate IntoRegister(op: byte) {
    op == 0x02 || op == 0x03 || op == 0x0a || op == 0x0b || op == 0x22 || op == 0x23 || op == 0x2a || op == 0x2b
    || op == 0x32 || op == 0x33 || op == 0x3a || op == 0x3b || op == 0x8a || op == 0x8b
  }

  predicate ByteOpcode(op: byte) { op % 2 == 0 }

  lemma RowTables(op: byte)
    requires RowOpcode(op)
    ensures IsFor(RowAlu(op), OpcodeTells(op)) && !(op < 0x40 && (op / 8 == 2 || op / 8 == 3)) && NotPrefix(op)
    ensures IntoRegister(op) <==> (op / 2) % 2 == 1 && op != 0x84 && op != 0x85
  {
  }

  lemma RowIsRow(s: At, op: byte)
    requires RowOpcode(op)
    ensures StepOp(s, op) == StepRow(s, op)
  {
    hide StepRow, StepAcc, StepStack, StepImulImm, StepJump, StepImmGroup, StepLea, StepMovImm, StepShift,
         StepMovRmImm, StepGroup5, StepTwo;
  }

  /** The operand the register field names, and the one the rest of ModRM does. */
  lemma RowOperands(s: At, op: byte, m: Rm, next: u64)
    requires RowOpcode(op) && m == Modrm(s.code, s.rip, s.n, s.rex, s.g.r) && next == Wrap(s.rip + m.n)
    requires !Fixup(m.o, next).Pending?
    ensures var size: Size := if ByteOpcode(op) then 1 else s.size;
      var rm, reg := Fixup(m.o, next), AtReg(m.reg);
      var dst, src := if IntoRegister(op) then reg else rm, if IntoRegister(op) then rm else reg;
      StepRow(s, op)
        == match Rd(s.regs, s.g, dst, size, s.hasRex)
           case None => Ran(Fault)
           case Some(a) =>
             (match Rd(s.regs, s.g, src, size, s.hasRex)
              case None => Ran(Fault)
              case Some(b) => Ran(Operate(s.regs, s.g, RowAlu(op), dst, a, b, size, s.hasRex, next)))
  {
    hide Modrm, Fixup, Rd, Operate, RowAlu, Wrap, RowOpcode, IntoRegister;
    RowTables(op);
  }

  /** add, or, and, sub, xor, cmp, test and mov between a register and a register or memory operand, from the
      bytes: at every size, with or without prefixes, in both directions. */
  lemma RowMeans(regs: seq<Region>, code: Mem, rip: u64, g: Guest, short: bool, rex: Option<byte>, op: byte)
    returns (v: u64, f: Flags)
    requires Ok(regs, rip, 1, EXEC) && Begins(code, rip, short, rex, op) && RowOpcode(op)
    ensures var n := HeadLength(short, rex);
      var size: Size := if ByteOpcode(op) then 1 else Wide4(short, rex);
      var next := Wrap(rip + n + OperandLength(code, rip + n));
      var rm, reg := NamedSpot(code, rip + n, Bits4(rex), g.r, next), NamedRegister(Peek(code, rip + n), Bits4(rex));
      var dst, src := if IntoRegister(op) then reg else rm, if IntoRegister(op) then rm else reg;
      var a, b := Held(regs, g, dst, size, rex.Some?), Held(regs, g, src, size, rex.Some?);
      var s := Interpreter.Step(regs, code, rip, g);
      if a.None? || b.None? then s == Ran(Fault)
      else CarriesOut(regs, g, OpcodeTells(op), dst, a.value, b.value, size, rex.Some?, next, s, v, f)
  {
    hide Ok, Interpreter.Step, StepOp, StepRow, Modrm, Fixup, Rd, Operate, NamedSpot, Held, OperandLength, CarriesOut,
         IsFor, Begins, RowOpcode, IntoRegister, Trunc, Wrap;
    RowTables(op);
    HeadStep(regs, code, rip, g, short, rex, op);
    var n := HeadLength(short, rex);
    var s := At(regs, code, rip, n, Bits4(rex), rex.Some?, Wide4(short, rex), g);
    var m := Modrm(code, rip, n, Bits4(rex), g.r);
    var next := Wrap(rip + m.n);
    var size: Size := if ByteOpcode(op) then 1 else Wide4(short, rex);
    ModrmMeans(code, rip, n, Bits4(rex), g.r, next);
    RowIsRow(s, op);
    RowOperands(s, op, m, next);
    var rm, reg := Fixup(m.o, next), AtReg(m.reg);
    var dst, src := if IntoRegister(op) then reg else rm, if IntoRegister(op) then rm else reg;
    HeldIs(regs, g, dst, size, rex.Some?);
    HeldIs(regs, g, src, size, rex.Some?);
    var a, b := Rd(regs, g, dst, size, rex.Some?), Rd(regs, g, src, size, rex.Some?);
    v, f := 0, g.flags;
    if a.Some? && b.Some? {
      v, f := OperateMeans(regs, g, OpcodeTells(op), RowAlu(op), dst, a.value, b.value, size, rex.Some?, next);
    }
  }

  predicate GroupOpcode(op: byte) { op == 0x80 || op == 0x81 || op == 0x83 }

  /** The immediate after an operand: one byte, or four after 81, sign-extended; its low bytes count. */
  function GroupImmediate(code: Mem, a: int, op: byte): int {
    if op == 0x81 then SignedWord(code, a) else SignedByte(Peek(code, a))
  }

  lemma GroupTables(s: At, op: byte)
    requires GroupOpcode(op)
    ensures StepOp(s, op) == StepImmGroup(s, op) && NotPrefix(op)
  {
    hide StepRow, StepAcc, StepStack, StepImulImm, StepJump, StepImmGroup, StepLea, StepMovImm, StepShift,
         StepMovRmImm, StepGroup5, StepTwo;
  }

  lemma DigitTables(m: byte)
    ensures RegOf(m) == m / 8 % 8
    ensures RegOf(m) != 2 && RegOf(m) != 3 ==> IsFor(GroupAlu(RegOf(m)), DigitTells(m / 8 % 8))
  {
  }

  lemma GroupOperands(s: At, op: byte, m: Rm, next: u64)
    requires GroupOpcode(op) && m == Modrm(s.code, s.rip, s.n, s.rex, s.g.r)
    requires next == Wrap(s.rip + m.n + if op == 0x81 then 4 else 1)
    ensures var size: Size := if op == 0x80 then 1 else s.size;
      var ext, rm := RegOf(Peek(s.code, s.rip + s.n)), Fixup(m.o, next);
      var b := Wrap(GroupImmediate(s.code, s.rip + m.n, op));
      StepImmGroup(s, op)
        == if ext == 2 || ext == 3 then Other
           else
             match Rd(s.regs, s.g, rm, size, s.hasRex)
             case None => Ran(Fault)
             case Some(a) => Ran(Operate(s.regs, s.g, GroupAlu(ext), rm, a, b, size, s.hasRex, next))
  {
    hide Modrm, Fixup, Rd, Operate, GroupAlu, Wrap, Sbytes, SignedByte, SignedWord, RegOf;
    ByteIs(s.code, s.rip, m.n);
    WordIs(s.code, s.rip, m.n);
  }

  /** The same operations with an immediate, /0, /1 and /4 to /7 of 80, 81 and 83. */
  lemma GroupMeans(regs: seq<Region>, code: Mem, rip: u64, g: Guest, short: bool, rex: Option<byte>, op: byte)
    returns (v: u64, f: Flags)
    requires Ok(regs, rip, 1, EXEC) && Begins(code, rip, short, rex, op) && GroupOpcode(op)
    requires var ext := Peek(code, rip + HeadLength(short, rex)) / 8 % 8; ext != 2 && ext != 3
    ensures var n := HeadLength(short, rex);
      var size: Size := if op == 0x80 then 1 else Wide4(short, rex);
      var at := rip + n + OperandLength(code, rip + n);
      var next := Wrap(at + if op == 0x81 then 4 else 1);
      var dst := NamedSpot(code, rip + n, Bits4(rex), g.r, next);
      var a, b := Held(regs, g, dst, size, rex.Some?), Trunc(Wrap(GroupImmediate(code, at, op)), size);
      var s := Interpreter.Step(regs, code, rip, g);
      if a.None? then s == Ran(Fault)
      else CarriesOut(regs, g, DigitTells(Peek(code, rip + n) / 8 % 8), dst, a.value, b, size, rex.Some?, next, s, v, f)
  {
    hide Ok, Interpreter.Step, StepOp, StepImmGroup, Modrm, Fixup, Rd, Operate, NamedSpot, Held, OperandLength,
         CarriesOut, IsFor, Begins, GroupOpcode, GroupImmediate, Trunc, Wrap, RegOf, GroupAlu, DigitTells;
    var n := HeadLength(short, rex);
    var s := At(regs, code, rip, n, Bits4(rex), rex.Some?, Wide4(short, rex), g);
    var m := Modrm(code, rip, n, Bits4(rex), g.r);
    var next := Wrap(rip + m.n + if op == 0x81 then 4 else 1);
    var size: Size := if op == 0x80 then 1 else Wide4(short, rex);
    GroupTables(s, op);
    DigitTables(Peek(code, rip + n));
    HeadStep(regs, code, rip, g, short, rex, op);
    ModrmMeans(code, rip, n, Bits4(rex), g.r, next);
    GroupOperands(s, op, m, next);
    var dst, k := Fixup(m.o, next), DigitTells(Peek(code, rip + n) / 8 % 8);
    HeldIs(regs, g, dst, size, rex.Some?);
    var a, b := Rd(regs, g, dst, size, rex.Some?), Wrap(GroupImmediate(code, rip + m.n, op));
    v, f := 0, g.flags;
    if a.Some? {
      v, f := OperateMeans(regs, g, k, GroupAlu(RegOf(Peek(code, rip + n))), dst, a.value, b, size, rex.Some?, next);
    }
  }

  // --- the accumulator ----------------------------------------------------------------------------------------

  predicate AccOpcode(op: byte) {
    op == 0x04 || op == 0x05 || op == 0x0c || op == 0x0d || op == 0x24 || op == 0x25 || op == 0x2c || op == 0x2d
    || op == 0x34 || op == 0x35 || op == 0x3c || op == 0x3d || op == 0xa8 || op == 0xa9
  }

  /** One byte, two after the operand size prefix, or four sign-extended. */
  function AccImmediate(code: Mem, a: int, size: Size): int {
    if size == 1 then Peek(code, a)
    else if size == 2 then Peek(code, a) + 0x100 * Peek(code, a + 1)
    else SignedWord(code, a)
  }

  lemma AccTables(s: At, op: byte)
    requires AccOpcode(op)
    ensures StepOp(s, op) == StepAcc(s, op) && NotPrefix(op) && !(op < 0x40 && (op / 8 == 2 || op / 8 == 3))
    ensures IsFor(AccAlu(op), OpcodeTells(op))
    ensures NoWrite(AccAlu(op)) == (OpcodeTells(op).Compared? || OpcodeTells(op).Tested?)
  {
    hide StepRow, StepAcc, StepStack, StepImulImm, StepJump, StepImmGroup, StepLea, StepMovImm, StepShift,
         StepMovRmImm, StepGroup5, StepTwo;
  }

  lemma AccBytes(code: Mem, rip: u64, n: nat, size: Size)
    ensures (if size == 4 || size == 8 then Wrap(Sbytes(code, rip, n, 4)) else Wrap(Bytes(code, rip, n, size)))
         == Wrap(AccImmediate(code, rip + n, size))
  {
    hide Wrap;
    WordIs(code, rip, n);
    var a := rip + n;
    assert Load(code, a, 1) == Peek(code, a) + 0x100 * Load(code, a + 1, 0);
    assert Load(code, a + 1, 1) == Peek(code, a + 1) + 0x100 * Load(code, a + 2, 0);
    assert Load(code, a, 2) == Peek(code, a) + 0x100 * Load(code, a + 1, 1);
  }

  /** And with the accumulator: al, ax, eax or rax, with no other byte of it read or written. */
  lemma AccMeans(regs: seq<Region>, code: Mem, rip: u64, g: Guest, short: bool, rex: Option<byte>, op: byte)
    returns (v: u64, f: Flags)
    requires Ok(regs, rip, 1, EXEC) && Begins(code, rip, short, rex, op) && AccOpcode(op)
    ensures var size: Size := if ByteOpcode(op) then 1 else Wide4(short, rex);
      var at := rip + HeadLength(short, rex);
      var next := Wrap(at + if size == 8 then 4 else size);
      var a, b := View(g.r, 0, size, rex.Some?), Trunc(Wrap(AccImmediate(code, at, size)), size);
      var s := Interpreter.Step(regs, code, rip, g);
      CarriesOut(regs, g, OpcodeTells(op), InRegister(0), a, b, size, rex.Some?, next, s, v, f)
  {
    hide Ok, Interpreter.Step, StepOp, Leaves, IsFor, Begins, AccOpcode, AccImmediate, AccAlu, AluResult, AluFlags,
         Writes, NoWrite, SetReg, Sbytes, Bytes, Modulus;
    var n := HeadLength(short, rex);
    var s := At(regs, code, rip, n, Bits4(rex), rex.Some?, Wide4(short, rex), g);
    var size: Size := if ByteOpcode(op) then 1 else Wide4(short, rex);
    AccTables(s, op);
    HeadStep(regs, code, rip, g, short, rex, op);
    AccBytes(code, rip, n, size);
    var a, b := Trunc(Get(g.r, 0), size), Wrap(AccImmediate(code, rip + n, size));
    v := AluResult(AccAlu(op), a, b);
    f := AluFlags(g.flags, AccAlu(op), a, b, v, size);
    AluMeans(OpcodeTells(op), AccAlu(op), g.flags, a, b, size);
    TruncTwice(Get(g.r, 0), size);
    TruncMod(v, size);
    AccWrites(g.(flags := f), size, rex.Some?, v);
  }

  lemma AccWrites(g: Guest, size: Size, rex: bool, v: u64)
    ensures var g' := SetReg(g, 0, v, size); Writes(g.r, g'.r, 0, size, rex, v) && g' == g.(r := g'.r)
    ensures View(g.r, 0, size, rex) == Trunc(Get(g.r, 0), size)
  {
    hide SetReg;
    RegisterWrites(g, 0, size, v);
  }

  // --- what the compiler's decoder takes ------------------------------------------------------------------

  /** After at most one of 66, f2 and f3, which only a nop may have, and a REX prefix: the opcodes the decoder
      takes, by their bytes. */
  predicate Taken(op: byte, m: byte, rex: Option<byte>) {
    var ext, extended := m / 8 % 8, rex.Some? && rex.value % 2 == 1;
    || RowOpcode(op) || AccOpcode(op) || (GroupOpcode(op) && ext != 2 && ext != 3)
    || ((op == 0xc6 || op == 0xc7) && ext == 0) || 0xb0 <= op <= 0xbf || op == 0x69 || op == 0x6b
    || ((op == 0xc0 || op == 0xc1 || 0xd0 <= op <= 0xd3) && ext >= 4)
    || (op == 0x8d && m < 0xc0)
    || (0x50 <= op <= 0x5f && (op % 8 != 4 || extended))
    || (op == 0x90 && rex.None?)
    || 0x70 <= op <= 0x7f || op == 0xc3 || op == 0xe8 || op == 0xe9 || op == 0xeb
    || (op == 0x0f && (0x80 <= m <= 0x9f || m == 0xaf || m == 0xb6 || m == 0xb7 || m == 0xbe || m == 0xbf || m == 0x1f))
    || (op == 0xfe && ext < 2)
    || (op == 0xff && (ext < 2 || ((ext == 2 || ext == 4) && !(m >= 0xc0 && m % 8 == 4 && !extended))))
  }

  ghost predicate Accepted(p: CodeWindow) {
    var short := p[0] == 0x66 || p[0] == 0xf2 || p[0] == 0xf3;
    var k := if short then 1 else 0;
    var rex := if 0x40 <= p[k] <= 0x4f then Some(p[k]) else None;
    var n := if rex.Some? then k + 1 else k;
    if short then p[0] == 0x66 && p[n] == 0x0f && p[n + 1] == 0x1f else Taken(p[n], p[n + 1], rex)
  }

  lemma LowTaken(p: CodeWindow, n: nat, rex: Option<byte>, op: byte, size: Size)
    requires n + 10 <= WINDOW && (rex.Some? ==> 0x40 <= rex.value <= 0x4f) && op < 0x50
    ensures Operation(p, n, Bits4(rex), 0, op, size, rex.Some?).Some? <==> Taken(op, p[n], rex)
  {
    hide DecodeRow, DecodeAcc, DecodeMovImm, DecodeImulImm, DecodeJump, Operand, ImmInsn, WithImm, ShiftInsn, ModrmMem,
         WithMem, Group5Insn, TwoInsn, Sle, Finish, RexB, Wide, RmField, RegOf, ModOf, Bits4;
    RexLow(rex, op, p[n]);
  }

  lemma MidTaken(p: CodeWindow, n: nat, rex: Option<byte>, op: byte, size: Size)
    requires n + 10 <= WINDOW && (rex.Some? ==> 0x40 <= rex.value <= 0x4f) && 0x50 <= op < 0x80
    ensures Operation(p, n, Bits4(rex), 0, op, size, rex.Some?).Some? <==> Taken(op, p[n], rex)
  {
    hide DecodeRow, DecodeAcc, DecodeMovImm, DecodeImulImm, DecodeJump, Operand, ImmInsn, WithImm, ShiftInsn, ModrmMem,
         WithMem, Group5Insn, TwoInsn, Sle, Finish, RexB, Wide, RmField, RegOf, ModOf, Bits4;
    RexLow(rex, op, p[n]);
  }

  lemma UpperTaken(p: CodeWindow, n: nat, rex: Option<byte>, op: byte, size: Size)
    requires n + 10 <= WINDOW && (rex.Some? ==> 0x40 <= rex.value <= 0x4f) && 0x80 <= op < 0xc0
    ensures Operation(p, n, Bits4(rex), 0, op, size, rex.Some?).Some? <==> Taken(op, p[n], rex)
  {
    hide DecodeRow, DecodeAcc, DecodeMovImm, DecodeImulImm, DecodeJump, Operand, ImmInsn, WithImm, ShiftInsn, ModrmMem,
         WithMem, Group5Insn, TwoInsn, Sle, Finish, RexB, Wide, RmField, RegOf, ModOf, Bits4;
    RexLow(rex, op, p[n]);
  }

  lemma TopTaken(p: CodeWindow, n: nat, rex: Option<byte>, op: byte, size: Size)
    requires n + 10 <= WINDOW && (rex.Some? ==> 0x40 <= rex.value <= 0x4f) && 0xc0 <= op
    ensures Operation(p, n, Bits4(rex), 0, op, size, rex.Some?).Some? <==> Taken(op, p[n], rex)
  {
    hide DecodeRow, DecodeAcc, DecodeMovImm, DecodeImulImm, DecodeJump, Operand, ImmInsn, WithImm, ShiftInsn, ModrmMem,
         WithMem, Group5Insn, TwoInsn, Sle, Finish, RexB, Wide, RmField, RegOf, ModOf, Bits4;
    RexLow(rex, op, p[n]);
  }

  lemma OperationTaken(p: CodeWindow, n: nat, rex: Option<byte>, op: byte, size: Size)
    requires n + 10 <= WINDOW && (rex.Some? ==> 0x40 <= rex.value <= 0x4f)
    ensures Operation(p, n, Bits4(rex), 0, op, size, rex.Some?).Some? <==> Taken(op, p[n], rex)
  {
    hide Operation, Taken, Bits4;
    if op < 0x50 {
      LowTaken(p, n, rex, op, size);
    } else if op < 0x80 {
      MidTaken(p, n, rex, op, size);
    } else if op < 0xc0 {
      UpperTaken(p, n, rex, op, size);
    } else {
      TopTaken(p, n, rex, op, size);
    }
  }

  /** The decoder takes exactly those windows. */
  lemma DecodesExactly(p: CodeWindow, rip: u64)
    ensures Decode(p, rip).Some? <==> Accepted(p)
  {
    hide Operation, Taken, Finish;
    var h := HeadOf(p);
    var rex := if h.hasRex then Some(h.rex) else None;
    assert Bits4(rex) == h.rex;
    if h.mand == 0 {
      OperationTaken(p, h.n + 1, rex, p[h.n], if RexW(h.rex) then 8 else 4);
    } else if p[h.n] == 0x0f {
      MandTaken(p, h.n + 1, h.rex, h.mand, if RexW(h.rex) then 8 else 4, h.hasRex);
    }
  }

  lemma MandTaken(p: CodeWindow, n: nat, rex: byte, mand: byte, size: Size, hasRex: bool)
    requires n + 10 <= WINDOW && mand != 0
    ensures Operation(p, n, rex, mand, 0x0f, size, hasRex).Some? <==> mand == 0x66 && p[n] == 0x1f
  {
    hide DecodeRow, DecodeImmGroup, DecodeAcc, DecodeMovImm, DecodeShift, DecodeImulImm, DecodeLea, DecodeStack,
         DecodeJump, DecodeGroup5, Operand, ModrmMem, TwoInsn, Sle;
  }

  lemma RexLow(rex: Option<byte>, op: byte, m: byte)
    requires rex.Some? ==> 0x40 <= rex.value <= 0x4f
    ensures RexB(Bits4(rex)) <==> rex.Some? && rex.value % 2 == 1
    ensures Wide(op % 8, RexB(Bits4(rex))) == 4 <==> op % 8 == 4 && !RexB(Bits4(rex))
    ensures RmField(m, Bits4(rex)) == 4 <==> m % 8 == 4 && !RexB(Bits4(rex))
    ensures RegOf(m) == m / 8 % 8 && (ModOf(m) == 3 <==> m >= 0xc0) && (Bits4(rex) != 0 <==> rex.Some?)
  {
  }
}
