/** The 32-bit words of the instructions the compiler emits, and reading them back. */
module Encoding {
  import opened Words
  import opened A64

  predicate R(x: int) { 0 <= x < 32 }

  /** Operands an encoder is meant for. Register 31 is the stack pointer where a base or an immediate is
      added, so it is not among those forms' operands; the two conditions that always hold have no opposite. */
  predicate InRange(i: Instr) {
    match i
    case Set(d, v) => R(d) && ValInRange(d, v)
    case Ldr(size, t, n, off) => R(t) && 0 <= n < 31 && off >= 0 && off % size == 0 && off / size < 4096
    case Str(size, t, n, off) => R(t) && 0 <= n < 31 && off >= 0 && off % size == 0 && off / size < 4096
    case PushX(t) => R(t)
    case PopX(t) => R(t)
    case SetFlagsZr(_, _, n, m) => R(n) && R(m)
    case Cmp0(n) => 0 <= n < 31
    case Blr(n) => R(n)
    case B(off) => -0x200_0000 <= off < 0x200_0000
    case BCond(c, off) => 0 <= c < 16 && -0x4_0000 <= off < 0x4_0000
    case CbzW(t, off) => R(t) && -0x4_0000 <= off < 0x4_0000
    case Ret => true
  }

  predicate ValInRange(d: int, v: Val) {
    match v
    case MovZ(imm, hw) => 0 <= imm < 0x1_0000 && 0 <= hw < 4
    case MovK(imm, hw) => 0 <= imm < 0x1_0000 && 0 <= hw < 4
    case Arith(op, w, n, m) => R(n) && R(m) && !(op.OpBic? && w)
    case AddImm(n, imm) => 0 <= n < 31 && d != 31 && 0 <= imm < 4096
    case SubImm(n, imm) => 0 <= n < 31 && d != 31 && 0 <= imm < 4096
    case AddLsl(n, m, sh) => R(n) && R(m) && 0 <= sh < 64
    case OrrLsl(n, m, sh) => R(n) && R(m) && 0 <= sh < 64
    case EorLsr(n, m, sh) => R(n) && R(m) && 0 <= sh < 64
    case EorBit(n, k) => R(n) && d != 31 && 0 <= k < 64
    case Mul(_, n, m) => R(n) && R(m)
    case Ubfx(n, lsb, width) => R(n) && 0 <= lsb && 0 < width && lsb + width <= 64
    case Bfi(n, lsb, width) => R(n) && 0 < lsb && 0 < width && lsb + width <= 64 && width <= 64 - lsb
    case Sxt(_, n, bits) => R(n) && (bits == 8 || bits == 16)
    case Cset(c) => 0 <= c < 14
    case Csetm(_, c) => 0 <= c < 14
    case Csel(n, m, c) => R(n) && R(m) && 0 <= c < 16
    case Csinc(n, m, c) => R(n) && R(m) && 0 <= c < 16
    case Csinv(_, n, m, c) => R(n) && R(m) && 0 <= c < 16
  }

  // --- the encoders -----------------------------------------------------------------------------------

  const S22 := 0x40_0000
  const S21 := 0x20_0000
  const S16 := 0x1_0000
  const S12 := 0x1000
  const S10 := 0x400
  const S5 := 0x20

  function Flip(c: int): int { if c % 2 == 0 then c + 1 else c - 1 }

  function ArithBase(op: Op3, w: bool): int {
    (if w then 0 else 0x8000_0000) +
    match op
    case OpAdd => 0x0B00_0000
    case OpSub => 0x4B00_0000
    case OpAnd => 0x0A00_0000
    case OpOrr => 0x2A00_0000
    case OpEor => 0x4A00_0000
    case OpBic => 0x0A20_0000
  }

  function EncodeVal(d: int, v: Val): int {
    match v
    case MovZ(imm, hw) => 0xD280_0000 + hw * S21 + imm * S5 + d
    case MovK(imm, hw) => 0xF280_0000 + hw * S21 + imm * S5 + d
    case Arith(op, w, n, m) => ArithBase(op, w) + m * S16 + n * S5 + d
    case AddImm(n, imm) => 0x9100_0000 + imm * S10 + n * S5 + d
    case SubImm(n, imm) => 0xD100_0000 + imm * S10 + n * S5 + d
    case AddLsl(n, m, sh) => 0x8B00_0000 + m * S16 + sh * S10 + n * S5 + d
    case OrrLsl(n, m, sh) => 0xAA00_0000 + m * S16 + sh * S10 + n * S5 + d
    case EorLsr(n, m, sh) => 0xCA40_0000 + m * S16 + sh * S10 + n * S5 + d
    case EorBit(n, k) => 0xD240_0000 + (64 - k) % 64 * S16 + n * S5 + d
    case Mul(w, n, m) => (if w then 0x1B00_7C00 else 0x9B00_7C00) + m * S16 + n * S5 + d
    case Ubfx(n, lsb, width) => 0xD340_0000 + lsb * S16 + (lsb + width - 1) * S10 + n * S5 + d
    case Bfi(n, lsb, width) => 0xB340_0000 + (64 - lsb) % 64 * S16 + (width - 1) * S10 + n * S5 + d
    case Sxt(w, n, bits) => (if w then 0x1300_0000 else 0x9340_0000) + (bits - 1) * S10 + n * S5 + d
    case Cset(c) => 0x9A9F_07E0 + Flip(c) * S12 + d
    case Csetm(w, c) => (if w then 0x5A9F_03E0 else 0xDA9F_03E0) + Flip(c) * S12 + d
    case Csel(n, m, c) => 0x9A80_0000 + m * S16 + c * S12 + n * S5 + d
    case Csinc(n, m, c) => 0x9A80_0400 + m * S16 + c * S12 + n * S5 + d
    case Csinv(w, n, m, c) => (if w then 0x5A80_0000 else 0xDA80_0000) + m * S16 + c * S12 + n * S5 + d
  }

  function LoadBase(size: Size): int {
    if size == 1 then 0x3940_0000 else if size == 2 then 0x7940_0000 else if size == 4 then 0xB940_0000 else 0xF940_0000
  }

  function FlagsBase(fop: FlagOp, w: bool): int {
    (if w then 0 else 0x8000_0000) +
    match fop
    case FAdds => 0x2B00_001F
    case FSubs => 0x6B00_001F
    case FAnds => 0x6A00_001F
  }

  /** The word for an instruction. The fields do not overlap, so adding them is or-ing them. */
  function Encode(i: Instr): int {
    match i
    case Set(d, v) => EncodeVal(d, v)
    case Ldr(size, t, n, off) => LoadBase(size) + off / size * S10 + n * S5 + t
    case Str(size, t, n, off) => LoadBase(size) - S22 + off / size * S10 + n * S5 + t
    case PushX(t) => 0xF800_0C00 + 0x1F0 * S12 + 31 * S5 + t
    case PopX(t) => 0xF840_0400 + 16 * S12 + 31 * S5 + t
    case SetFlagsZr(fop, w, n, m) => FlagsBase(fop, w) + m * S16 + n * S5
    case Cmp0(n) => 0xF100_001F + n * S5
    case Blr(n) => 0xD63F_0000 + n * S5
    case B(off) => 0x1400_0000 + off % 0x400_0000
    case BCond(c, off) => 0x5400_0000 + off % 0x8_0000 * S5 + c
    case CbzW(t, off) => 0x3400_0000 + off % 0x8_0000 * S5 + t
    case Ret => 0xD65F_03C0
  }

  // --- fields -------------------------------------------------------------------------------------------

  /** A word cut at bits 5, 10, 16 and 22. */
  datatype Fields = Fields(top: int, q: int, s: int, n: int, d: int)

  predicate Fits(f: Fields) { 0 <= f.top < 1024 && 0 <= f.q < 64 && 0 <= f.s < 64 && 0 <= f.n < 32 && 0 <= f.d < 32 }

  function Join(f: Fields): int { f.top * S22 + f.q * S16 + f.s * S10 + f.n * S5 + f.d }

  function Split(w: int): Fields {
    Fields(w / 0x40_0000, w / 0x1_0000 % 64, w / 0x400 % 64, w / 0x20 % 32, w % 32)
  }

  lemma SplitJoin(f: Fields)
    requires Fits(f)
    ensures Split(Join(f)) == f && 0 <= Join(f) < 0x1_0000_0000
  {
    var w := Join(f);
    var a := f.top * 64 + f.q;
    var b := a * 64 + f.s;
    var c := b * 32 + f.n;
    DivModUnique(w, 32, c, f.d);
    DivModUnique(w, 0x400, b, f.n * 32 + f.d);
    DivModUnique(w, 0x1_0000, a, f.s * 0x400 + f.n * 32 + f.d);
    DivModUnique(w, 0x40_0000, f.top, f.q * 0x1_0000 + f.s * 0x400 + f.n * 32 + f.d);
    LowField(a, f.top, f.q, 64);
    LowField(b, a, f.s, 64);
    LowField(c, b, f.n, 32);
  }

  lemma LowField(x: int, hi: int, lo: int, k: int)
    requires k > 0 && x == hi * k + lo && 0 <= lo < k
    ensures x % k == lo
  {
    assert hi * k == k * hi;
    DivModUnique(x, k, hi, lo);
  }

  // --- reading words ----------------------------------------------------------------------------------------

  /** A signed field of the given weight. */
  function Sx(u: int, half: int): int { if u >= half then u - 2 * half else u }

  /** 12 bits from bit 10, 16 and 19 bits from bit 5, 26 bits from bit 0, less what `top` holds of them. */
  function Imm12(f: Fields): int { f.q * 64 + f.s }
  function Imm16(f: Fields): int { f.q % 32 * 0x800 + f.s * 32 + f.n }
  function Imm19(f: Fields, high: int): int { high * 0x2_0000 + f.q * 0x800 + f.s * 32 + f.n }
  function Imm26(f: Fields, high: int): int { high * 0x40_0000 + f.q * 0x1_0000 + f.s * 0x400 + f.n * 32 + f.d }

  function LoadSizeOf(top: int): Option<Size> {
    if top == 0x0E5 || top == 0x0E4 then Some(1)
    else if top == 0x1E5 || top == 0x1E4 then Some(2)
    else if top == 0x2E5 || top == 0x2E4 then Some(4)
    else if top == 0x3E5 || top == 0x3E4 then Some(8)
    else None
  }

  /** Loads and stores, branches, and the forms that set flags. */
  function DecodeOther(f: Fields): Option<Instr> {
    var size := LoadSizeOf(f.top);
    if size.Some? then
      Some(if f.top % 2 == 1 then Ldr(size.value, f.d, f.n, Imm12(f) * size.value)
          else Str(size.value, f.d, f.n, Imm12(f) * size.value))
    else if f.top == 0x3E0 && f.q == 31 && f.s == 3 && f.n == 31 then Some(PushX(f.d))
    else if f.top == 0x3E1 && f.q == 1 && f.s == 1 && f.n == 31 then Some(PopX(f.d))
    else if f.top == 0x2AC || f.top == 0x0AC then Some(SetFlagsZr(FAdds, f.top < 0x200, f.n, f.q))
    else if f.top == 0x3AC || f.top == 0x1AC then Some(SetFlagsZr(FSubs, f.top < 0x200, f.n, f.q))
    else if f.top == 0x3A8 || f.top == 0x1A8 then Some(SetFlagsZr(FAnds, f.top < 0x200, f.n, f.q))
    else if f.top == 0x3C4 then Some(Cmp0(f.n))
    else if f.top == 0x358 then Some(Blr(f.n))
    else if f.top == 0x359 then Some(Ret)
    else if 0x050 <= f.top < 0x060 then Some(B(Sx(Imm26(f, f.top - 0x050), 0x200_0000)))
    else if 0x150 <= f.top < 0x154 then Some(BCond(f.d, Sx(Imm19(f, f.top - 0x150), 0x4_0000)))
    else if 0x0D0 <= f.top < 0x0D4 then Some(CbzW(f.d, Sx(Imm19(f, f.top - 0x0D0), 0x4_0000)))
    else None
  }

  /** Three-register arithmetic; bit 21 tells bic from and. */
  function DecodeArith(f: Fields): Option<Val> {
    if f.top == 0x22C then Some(if f.s == 0 then Arith(OpAdd, false, f.n, f.q) else AddLsl(f.n, f.q, f.s))
    else if f.top == 0x02C then Some(Arith(OpAdd, true, f.n, f.q))
    else if f.top == 0x32C || f.top == 0x12C then Some(Arith(OpSub, f.top < 0x200, f.n, f.q))
    else if f.top == 0x228 then Some(if f.q >= 32 then Arith(OpBic, false, f.n, f.q - 32)
        else Arith(OpAnd, false, f.n, f.q))
    else if f.top == 0x028 then Some(Arith(OpAnd, true, f.n, f.q))
    else if f.top == 0x2A8 then Some(if f.s == 0 then Arith(OpOrr, false, f.n, f.q) else OrrLsl(f.n, f.q, f.s))
    else if f.top == 0x0A8 then Some(Arith(OpOrr, true, f.n, f.q))
    else if f.top == 0x328 || f.top == 0x128 then Some(Arith(OpEor, f.top < 0x200, f.n, f.q))
    else None
  }

  function DecodeVal(f: Fields): Option<Val> {
    if f.top == 0x34A || f.top == 0x34B then Some(MovZ(Imm16(f), f.top % 2 * 2 + f.q / 32))
    else if f.top == 0x3CA || f.top == 0x3CB then Some(MovK(Imm16(f), f.top % 2 * 2 + f.q / 32))
    else if f.top == 0x244 then Some(AddImm(f.n, Imm12(f)))
    else if f.top == 0x344 then Some(SubImm(f.n, Imm12(f)))
    else if f.top == 0x329 then Some(EorLsr(f.n, f.q, f.s))
    else if f.top == 0x349 then Some(EorBit(f.n, (64 - f.q) % 64))
    else if f.top == 0x26C || f.top == 0x06C then Some(Mul(f.top < 0x200, f.n, f.q))
    else if f.top == 0x34D then Some(Ubfx(f.n, f.q, f.s - f.q + 1))
    else if f.top == 0x2CD then Some(Bfi(f.n, 64 - f.q, f.s + 1))
    else if f.top == 0x24D || f.top == 0x04C then Some(Sxt(f.top < 0x200, f.n, f.s + 1))
    else if f.top == 0x26A then Some(if f.s % 4 == 1 then Csinc(f.n, f.q, f.s / 4) else Csel(f.n, f.q, f.s / 4))
    else if f.top == 0x36A || f.top == 0x16A then Some(Csinv(f.top < 0x200, f.n, f.q, f.s / 4))
    else DecodeArith(f)
  }

  function DecodeWord(w: int): Option<Instr> {
    var f := Split(w);
    var v := DecodeVal(f);
    if v.Some? then Some(Set(f.d, v.value)) else DecodeOther(f)
  }

  // --- the fields of each word ----------------------------------------------------------------------------------

  function ArithTop(op: Op3, w: bool): int {
    (if w then 0 else 0x200) +
    match op
    case OpAdd => 0x02C
    case OpSub => 0x12C
    case OpAnd => 0x028
    case OpOrr => 0x0A8
    case OpEor => 0x128
    case OpBic => 0x028
  }

  function ValFields(d: int, v: Val): Fields {
    match v
    case MovZ(imm, hw) => Fields(0x34A + hw / 2, hw % 2 * 32 + imm / 0x800, imm / 32 % 64, imm % 32, d)
    case MovK(imm, hw) => Fields(0x3CA + hw / 2, hw % 2 * 32 + imm / 0x800, imm / 32 % 64, imm % 32, d)
    case Arith(op, w, n, m) => Fields(ArithTop(op, w), if op.OpBic? then 32 + m else m, 0, n, d)
    case AddImm(n, imm) => Fields(0x244, imm / 64, imm % 64, n, d)
    case SubImm(n, imm) => Fields(0x344, imm / 64, imm % 64, n, d)
    case AddLsl(n, m, sh) => Fields(0x22C, m, sh, n, d)
    case OrrLsl(n, m, sh) => Fields(0x2A8, m, sh, n, d)
    case EorLsr(n, m, sh) => Fields(0x329, m, sh, n, d)
    case EorBit(n, k) => Fields(0x349, (64 - k) % 64, 0, n, d)
    case Mul(w, n, m) => Fields(if w then 0x06C else 0x26C, m, 31, n, d)
    case Ubfx(n, lsb, width) => Fields(0x34D, lsb, lsb + width - 1, n, d)
    case Bfi(n, lsb, width) => Fields(0x2CD, (64 - lsb) % 64, width - 1, n, d)
    case Sxt(w, n, bits) => Fields(if w then 0x04C else 0x24D, 0, bits - 1, n, d)
    case Cset(c) => Fields(0x26A, 31, Flip(c) * 4 + 1, 31, d)
    case Csetm(w, c) => Fields(if w then 0x16A else 0x36A, 31, Flip(c) * 4, 31, d)
    case Csel(n, m, c) => Fields(0x26A, m, c * 4, n, d)
    case Csinc(n, m, c) => Fields(0x26A, m, c * 4 + 1, n, d)
    case Csinv(w, n, m, c) => Fields(if w then 0x16A else 0x36A, m, c * 4, n, d)
  }

  function LoadTop(size: Size): int {
    if size == 1 then 0x0E5 else if size == 2 then 0x1E5 else if size == 4 then 0x2E5 else 0x3E5
  }

  function FlagsTop(fop: FlagOp, w: bool): int {
    (if w then 0 else 0x200) + match fop case FAdds => 0x0AC case FSubs => 0x1AC case FAnds => 0x1A8
  }

  function OtherFields(i: Instr): Fields
    requires !i.Set?
  {
    match i
    case Ldr(size, t, n, off) => Fields(LoadTop(size), off / size / 64, off / size % 64, n, t)
    case Str(size, t, n, off) => Fields(LoadTop(size) - 1, off / size / 64, off / size % 64, n, t)
    case PushX(t) => Fields(0x3E0, 31, 3, 31, t)
    case PopX(t) => Fields(0x3E1, 1, 1, 31, t)
    case SetFlagsZr(fop, w, n, m) => Fields(FlagsTop(fop, w), m, 0, n, 31)
    case Cmp0(n) => Fields(0x3C4, 0, 0, n, 31)
    case Blr(n) => Fields(0x358, 63, 0, n, 0)
    case B(off) => BranchFields(0x050, off % 0x400_0000)
    case BCond(c, off) => CondFields(0x150, off % 0x8_0000, c)
    case CbzW(t, off) => CondFields(0x0D0, off % 0x8_0000, t)
    case Ret => Fields(0x359, 31, 0, 30, 0)
  }

  function BranchFields(top: int, u: int): Fields {
    Fields(top + u / 0x40_0000, u / 0x1_0000 % 64, u / 0x400 % 64, u / 32 % 32, u % 32)
  }

  function CondFields(top: int, u: int, d: int): Fields {
    Fields(top + u / 0x2_0000, u / 0x800 % 64, u / 32 % 64, u % 32, d)
  }

  lemma Pieces26(u: int)
    requires 0 <= u < 0x400_0000
    ensures var f := BranchFields(0, u);
      Fits(f) && f.top < 16 && Imm26(f, f.top) == u && Join(f) == u
  {
    var a := u / 32;
    var b := a / 32;
    var c := b / 64;
    assert u / 0x400 == b && u / 0x1_0000 == c && u / 0x40_0000 == c / 64;
  }

  lemma Pieces19(u: int, d: int)
    requires 0 <= u < 0x8_0000 && R(d)
    ensures var f := CondFields(0, u, d);
      Fits(f) && f.top < 4 && Imm19(f, f.top) == u && Join(f) == u * 32 + d
  {
    var a := u / 32;
    var b := a / 64;
    assert u / 0x800 == b && u / 0x2_0000 == b / 64;
  }

  lemma Pieces16(imm: int)
    requires 0 <= imm < 0x1_0000
    ensures imm / 0x800 < 32 && imm / 0x800 * 0x800 + imm / 32 % 64 * 32 + imm % 32 == imm
  {
    var a := imm / 32;
    assert imm / 0x800 == a / 64;
  }

  /** Each encoder's word is made of these fields. */
  lemma ValJoins(d: int, v: Val)
    requires R(d) && ValInRange(d, v)
    ensures Fits(ValFields(d, v)) && EncodeVal(d, v) == Join(ValFields(d, v))
  {
    if v.MovZ? || v.MovK? { Pieces16(v.imm); }
  }

  lemma OtherJoins(i: Instr)
    requires InRange(i) && !i.Set?
    ensures Fits(OtherFields(i)) && Encode(i) == Join(OtherFields(i))
  {
    match i
    case B(off) => Pieces26(off % 0x400_0000);
    case BCond(c, off) => Pieces19(off % 0x8_0000, c);
    case CbzW(t, off) => Pieces19(off % 0x8_0000, t);
    case _ =>
  }

  // --- the round trip ---------------------------------------------------------------------------------------------

  /** The condition that holds when c does not: the other one of the pair. */
  function Opposite(c: int): int { c / 2 * 2 + (1 - c % 2) }

  /** The one of two spellings a word is read back as: a shift by zero is no shift, and a conditional set is
      csinc or csinv of the zero register on the opposite condition. */
  function Canon(i: Instr): Instr {
    match i
    case Set(d, AddLsl(n, m, sh)) => if sh == 0 then Set(d, Arith(OpAdd, false, n, m)) else i
    case Set(d, OrrLsl(n, m, sh)) => if sh == 0 then Set(d, Arith(OpOrr, false, n, m)) else i
    case Set(d, Cset(c)) => Set(d, Csinc(31, 31, Opposite(c)))
    case Set(d, Csetm(w, c)) => Set(d, Csinv(w, 31, 31, Opposite(c)))
    case _ => i
  }

  predicate Reads(d: int, v: Val) { DecodeVal(ValFields(d, v)).Some?
      && Set(d, DecodeVal(ValFields(d, v)).value) == Canon(Set(d, v)) }

  lemma ArithReads(d: int, v: Val)
    requires R(d) && ValInRange(d, v) && (v.Arith? || v.AddLsl? || v.OrrLsl?)
    ensures Reads(d, v)
  {
  }

  lemma MoveReads(d: int, v: Val)
    requires R(d) && ValInRange(d, v) && (v.MovZ? || v.MovK? || v.AddImm? || v.SubImm?)
    ensures Reads(d, v)
  {
    hide DecodeArith, Imm16, Imm12;
    if v.MovZ? || v.MovK? {
      MoveFields(v.imm, v.hw, d);
    } else {
      ImmFields(v.imm);
    }
  }

  lemma MoveFields(imm: int, hw: int, d: int)
    requires 0 <= imm < 0x1_0000 && 0 <= hw < 4
    ensures var f := Fields(hw / 2, hw % 2 * 32 + imm / 0x800, imm / 32 % 64, imm % 32, d);
      Imm16(f) == imm && hw / 2 * 2 + f.q / 32 == hw && 0 <= hw / 2 < 2
    ensures Imm16(ValFields(d, MovZ(imm, hw))) == imm && Imm16(ValFields(d, MovK(imm, hw))) == imm
  {
    Pieces16(imm);
    var hi := imm / 0x800;
    DivModUnique(hw % 2 * 32 + hi, 32, hw % 2, hi);
  }

  lemma ImmFields(imm: int)
    requires 0 <= imm < 4096
    ensures forall top: int, n: int,
        d: int {:trigger Fields(top, imm / 64, imm % 64, n, d)} :: Imm12(Fields(top, imm / 64, imm % 64, n, d)) == imm
  {
  }

  lemma FieldReads(d: int, v: Val)
    requires R(d) && ValInRange(d, v) && (v.EorLsr? || v.EorBit? || v.Mul? || v.Ubfx? || v.Bfi? || v.Sxt?)
    ensures Reads(d, v)
  {
    hide DecodeArith;
  }

  lemma SelectReads(d: int, v: Val)
    requires R(d) && ValInRange(d, v) && (v.Cset? || v.Csetm? || v.Csel? || v.Csinc? || v.Csinv?)
    ensures Reads(d, v)
  {
    hide DecodeArith;
  }

  lemma ValReads(d: int, v: Val)
    requires R(d) && ValInRange(d, v)
    ensures Reads(d, v)
  {
    hide Reads, ValInRange;
    if v.Arith? || v.AddLsl? || v.OrrLsl? {
      ArithReads(d, v);
    } else if v.MovZ? || v.MovK? || v.AddImm? || v.SubImm? {
      MoveReads(d, v);
    } else if v.Cset? || v.Csetm? || v.Csel? || v.Csinc? || v.Csinv? {
      SelectReads(d, v);
    } else {
      FieldReads(d, v);
    }
  }

  predicate ReadsBack(i: Instr)
    requires !i.Set?
  {
    DecodeVal(OtherFields(i)).None? && DecodeOther(OtherFields(i)) == Some(i)
  }

  /** An offset in units of the access's size, cut in two fields. */
  lemma OffsetBack(off: int, size: Size)
    requires off >= 0 && off % size == 0 && off / size < 4096
    ensures (off / size / 64 * 64 + off / size % 64) * size == off
  {
    var k := off / size;
    assert k / 64 * 64 + k % 64 == k && off == k * size;
  }

  lemma LoadTops(size: Size)
    ensures LoadSizeOf(LoadTop(size)) == Some(size) && LoadTop(size) % 2 == 1
    ensures LoadSizeOf(LoadTop(size) - 1) == Some(size) && (LoadTop(size) - 1) % 2 == 0
  {
  }

  lemma NoVal(f: Fields)
    requires LoadSizeOf(f.top).Some? || f.top == 0x3E0 || f.top == 0x3E1
    ensures DecodeVal(f).None?
  {
    hide Imm12, Imm16;
  }

  lemma MemoryReads(i: Instr)
    requires InRange(i) && (i.Ldr? || i.Str?)
    ensures ReadsBack(i)
  {
    hide LoadSizeOf, LoadTop, DecodeVal, Imm16, Imm19, Imm26, Sx;
    LoadTops(i.size);
    OffsetBack(i.off, i.size);
    NoVal(OtherFields(i));
  }

  lemma StackReads(i: Instr)
    requires InRange(i) && (i.PushX? || i.PopX?)
    ensures ReadsBack(i)
  {
    hide DecodeVal, Imm12, Imm16, Imm19, Imm26, Sx;
    NoVal(OtherFields(i));
  }

  lemma FlagsRead(i: Instr)
    requires InRange(i) && i.SetFlagsZr?
    ensures ReadsBack(i)
  {
    var f := OtherFields(i);
    assert f.n == i.n && f.q == i.m && f.top == FlagsTop(i.fop, i.w);
    hide OtherFields, Sx;
  }

  lemma FixedTop(f: Fields)
    ensures f.top == 0x3C4 ==> DecodeVal(f).None? && DecodeOther(f) == Some(Cmp0(f.n))
    ensures f.top == 0x358 ==> DecodeVal(f).None? && DecodeOther(f) == Some(Blr(f.n))
    ensures f.top == 0x359 ==> DecodeVal(f).None? && DecodeOther(f) == Some(Ret)
  {
    hide Imm26, Sx, Imm12, Imm16, Imm19;
  }

  lemma FixedReads(i: Instr)
    requires InRange(i) && (i.Cmp0? || i.Blr? || i.Ret?)
    ensures ReadsBack(i)
  {
    hide DecodeVal, DecodeOther;
    FixedTop(OtherFields(i));
  }

  lemma BranchTop(f: Fields)
    requires 0x050 <= f.top < 0x060
    ensures DecodeVal(f).None? && DecodeOther(f) == Some(B(Sx(Imm26(f, f.top - 0x050), 0x200_0000)))
  {
    hide Imm26, Sx, Imm12, Imm16, Imm19;
  }

  lemma BranchReads(i: Instr)
    requires InRange(i) && i.B?
    ensures ReadsBack(i)
  {
    hide DecodeVal, DecodeOther, Sx, Imm26, BranchFields;
    BranchIs(i.off % 0x400_0000);
    BranchTop(OtherFields(i));
    SignBack(i.off, 0x200_0000);
  }

  lemma BranchIs(u: int)
    requires 0 <= u < 0x400_0000
    ensures var f := BranchFields(0x050, u); 0x050 <= f.top < 0x060 && Imm26(f, f.top - 0x050) == u
  {
    Pieces26(u);
  }

  lemma SignBack(off: int, half: int)
    requires half > 0 && -half <= off < half
    ensures Sx(off % (2 * half), half) == off
  {
    if off < 0 { DivModUnique(off, 2 * half, -1, off + 2 * half); } else { DivModUnique(off, 2 * half, 0, off); }
  }

  lemma CondReads(i: Instr)
    requires InRange(i) && (i.BCond? || i.CbzW?)
    ensures ReadsBack(i)
  {
    hide DecodeVal, DecodeOther, Sx, Imm19, CondFields;
    var d := if i.BCond? then i.c else i.t;
    CondIs(0x150, i.off % 0x8_0000, d);
    CondIs(0x0D0, i.off % 0x8_0000, d);
    CondTop(OtherFields(i));
    SignBack(i.off, 0x4_0000);
  }

  lemma CondIs(top: int, u: int, d: int)
    requires 0 <= u < 0x8_0000 && R(d)
    ensures var f := CondFields(top, u, d); top <= f.top < top + 4 && Imm19(f, f.top - top) == u && f.d == d
  {
    Pieces19(u, d);
  }

  lemma CondTop(f: Fields)
    requires 0x150 <= f.top < 0x154 || 0x0D0 <= f.top < 0x0D4
    ensures DecodeVal(f).None?
    ensures DecodeOther(f)
         == Some(if f.top >= 0x150 then BCond(f.d, Sx(Imm19(f, f.top - 0x150), 0x4_0000))
                 else CbzW(f.d, Sx(Imm19(f, f.top - 0x0D0), 0x4_0000)))
  {
    hide Sx, Imm12, Imm16, Imm19, Imm26;
  }

  lemma OtherReads(i: Instr)
    requires InRange(i) && !i.Set?
    ensures ReadsBack(i)
  {
    hide ReadsBack, InRange;
    if i.Ldr? || i.Str? {
      MemoryReads(i);
    } else if i.PushX? || i.PopX? {
      StackReads(i);
    } else if i.B? {
      BranchReads(i);
    } else if i.BCond? || i.CbzW? {
      CondReads(i);
    } else if i.SetFlagsZr? {
      FlagsRead(i);
    } else {
      FixedReads(i);
    }
  }

  /** Reading an encoder's word gives back its instruction and operands, for all operands in range. */
  lemma RoundTrip(i: Instr)
    requires InRange(i)
    ensures 0 <= Encode(i) < 0x1_0000_0000 && DecodeWord(Encode(i)) == Some(Canon(i))
  {
    hide DecodeVal, DecodeOther, ValFields, OtherFields, EncodeVal, ValInRange, Split, Join;
    if i.Set? {
      ValJoins(i.d, i.v);
      ValReads(i.d, i.v);
      SplitJoin(ValFields(i.d, i.v));
      FieldD(i.d, i.v);
    } else {
      OtherJoins(i);
      OtherReads(i);
      SplitJoin(OtherFields(i));
    }
  }

  lemma FieldD(d: int, v: Val)
    ensures ValFields(d, v).d == d
  {
  }

  /** Whichever spelling a word is read back as, it does the same. */
  lemma CanonSteps(env: Env, i: Instr, m: Machine)
    requires !IsBranch(i) && InRange(i)
    ensures !IsBranch(Canon(i)) && Step(env, Canon(i), m) == Step(env, i, m)
  {
    hide StepLoad, StepStore, StepCall, SetNzcv, Bits, Holds, Opposite;
    if i.Set? && (i.v.AddLsl? || i.v.OrrLsl?) { NoShift(X(m, i.v.m)); }
    if i.Set? && i.v.Cset? { CsetIsCsinc(i.d, i.v.c, m); }
    if i.Set? && i.v.Csetm? { CsetmIsCsinv(i.d, i.v.w, i.v.c, m); }
  }

  lemma OppositeHolds(f: Nzcv, c: int)
    requires 0 <= c < 16
    ensures Holds(f, Opposite(c)) == (if c < 14 then !Holds(f, c) else Holds(f, c)) && (c >= 14 ==> Holds(f, c))
  {
    assert Opposite(c) / 2 == c / 2 && Opposite(c) % 2 == 1 - c % 2;
  }

  /** Incrementing or complementing zero on the opposite condition sets what was meant, exactly where there is
      an opposite. */
  lemma CsetIsCsinc(d: int, c: int, m: Machine)
    requires 0 <= c < 16
    ensures Value(d, Csinc(31, 31, Opposite(c)), m) == Value(d, Cset(c), m) <==> c < 14
  {
    hide Holds, Opposite;
    OppositeHolds(m.f, c);
  }

  lemma CsetmIsCsinv(d: int, w: bool, c: int, m: Machine)
    requires 0 <= c < 16
    ensures Value(d, Csinv(w, 31, 31, Opposite(c)), m) == Value(d, Csetm(w, c), m) <==> c < 14
  {
    hide Holds, Opposite;
    OppositeHolds(m.f, c);
  }

  lemma NoShift(v: u64)
    ensures Shl(v, 0) == v
  {
    assert Pow2(0) == 1;
  }
}
