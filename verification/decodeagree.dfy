/** The rest of the opcodes, and the agreement of the two decoders as a whole. */
module DecoderAgreement {
  import opened Words
  import opened StatusFlags
  import opened Regions
  import opened GuestState
  import opened Insns
  import opened AluRuns
  import opened Simulation
  import opened Decoder
  import opened Interpreter
  import opened OperandAgreement

  // --- moves of immediates ------------------------------------------------------------------------

  lemma MovMeaning(regs: seq<Region>, o: Insn, g: Guest)
    requires ((o.kind.KRI? && !o.mem) || (o.kind.KMI? && o.mem)) && o.op.AMov? && !o.noWrite
    ensures Meaning(regs, o, ALL, true, g) == Wr(regs, g, OpndOf(o, o.reg, g.r), o.imm, o.size, o.hasRex, o.next)
  {
    hide Address, Store2, SetOperand, RegOperand;
    SelectSame(g.flags);
  }

  lemma SelectSame(f: Flags)
    ensures Select(f, f, ALL) == f
  {
  }

  lemma WrLow(regs: seq<Region>, g: Guest, dst: Opnd, v: u64, v': u64, size: Size, rex: bool, next: u64)
    requires Same(v, v', size)
    ensures Wr(regs, g, dst, v, size, rex, next) == Wr(regs, g, dst, v', size, rex, next)
  {
    hide Same, St, SetOperand;
    match dst
    case AtReg(r) => SetOperandLow(g, r, v, v', size, rex);
    case AtMem(a) => StLow(regs, g, a, v, v', size);
    case Pending(_) =>
  }

  lemma MovRmAgrees(s: At, op: byte)
    requires Roomy(s) && s.size != 2 && IsMovImm(op)
    requires DecodeImmGroup(CodeAt(s.code, s.rip), s.n, s.rex, op, s.size, s.hasRex).Some?
    ensures StepMovRmImm(s, op) == Ran(Meaning(s.regs, ImmGroup(s, op), ALL, true, s.g))
  {
    hide CodeAt, Byte, Meaning, Modrm, ModOf, RegOf, Sle, Sbytes, Clip, ImmInsn, Operand, DecodeImmGroup, OpndOf, Fixup,
        Same, Wrap, Wr;
    var p, o, width := CodeAt(s.code, s.rip), ImmGroup(s, op), ImmWidth(op, s.size);
    var m := Byte(s.code, s.rip, s.n);
    CodeByte(s.code, s.rip, s.n);
    ImmGroupIs(s, op);
    ImmInsnIs(m, op, width, s.hasRex);
    var o0 := ImmInsn(m, op, width, s.hasRex);
    OperandKeeps(p, s.n + 1, s.rex, m, InReg, o0);
    EitherAgrees(s, m, o0, o, o.next);
    var n := Operand(p, s.n + 1, s.rex, m, InReg, o0).n;
    ImmAgrees(s, op, n, o.imm);
    MovMeaning(s.regs, o, s.g);
    if op == 0xc7 { WrLow(s.regs, s.g, OpndOf(o, o.reg, s.g.r), o.imm, Wrap(Sbytes(s.code, s.rip, n, 4)), o.size,
        o.hasRex, o.next); }
  }

  function Acc(s: At, op: byte): Insn
    requires Roomy(s)
  {
    Finish(DecodeAcc(CodeAt(s.code, s.rip), s.n, op, s.size, s.hasRex), s.rip)
  }

  lemma AccIs(g: Guest, v: u64, size: Size, rex: bool)
    ensures RegOperand(g, 0, size, rex) == Trunc(Get(g.r, 0), size)
        && SetOperand(g, 0, v, size, rex) == SetReg(g, 0, v, size)
  {
    hide WithLowByte;
  }

  lemma BytesWrap(code: Mem, rip: u64, n: nat, k: Size)
    ensures Wrap(Bytes(code, rip, n, k)) == Bytes(code, rip, n, k)
  {
    hide Load;
    ByteLimits(k);
  }

  lemma AccImm(s: At, op: byte)
    requires Roomy(s) && s.size != 2
    ensures Acc(s, op).size == 1 ==> Same(Acc(s, op).imm, Wrap(Bytes(s.code, s.rip, s.n, 1)), 1)
    ensures Acc(s, op).size != 1 ==> Same(Acc(s, op).imm, Wrap(Sbytes(s.code, s.rip, s.n, 4)), Acc(s, op).size)
  {
    hide CodeAt, Byte, Sle, Sbytes, Bytes, Wrap, Clip, Same, AccAlu;
    CodeByte(s.code, s.rip, s.n);
    CodeSle(s.code, s.rip, s.n, 4);
    LoadByte(s.code, s.rip, s.n);
    BytesWrap(s.code, s.rip, s.n, 1);
    SameSelf(Byte(s.code, s.rip, s.n), 1);
    ClipLow(Wrap(Sle(CodeAt(s.code, s.rip), s.n, 4)), s.size);
  }

  lemma AccAgrees(s: At, op: byte)
    requires Roomy(s) && s.size != 2 && IsAcc(op)
    ensures StepAcc(s, op) == Ran(Meaning(s.regs, Acc(s, op), ALL, true, s.g))
  {
    hide CodeAt, Bytes, Sbytes, Sle, Clip, AccAlu, AluResult, AluFlags, Meaning, RegOperand, SetOperand, SetReg, Same,
        Wrap;
    var o := Acc(s, op);
    AccImm(s, op);
    RegMeaning(s.regs, o, s.g);
    var b' := if o.size == 1 then Wrap(Bytes(s.code, s.rip, s.n, 1)) else Wrap(Sbytes(s.code, s.rip, s.n, 4));
    OperateLow(s.regs, s.g, o.op, AtReg(0), RegOperand(s.g, 0, o.size, o.hasRex), o.imm, b', o.size, o.hasRex, o.next);
    AccIs(s.g, 0, o.size, o.hasRex);
    var r := AluResult(o.op, Trunc(Get(s.g.r, 0), o.size), b');
    AccIs(s.g.(flags := AluFlags(s.g.flags, o.op, Trunc(Get(s.g.r, 0), o.size), b', r, o.size)), r, o.size, o.hasRex);
  }

  function MovImm(s: At, op: byte): Insn
    requires Roomy(s)
  {
    Finish(DecodeMovImm(CodeAt(s.code, s.rip), s.n, s.rex, op, s.size, s.hasRex), s.rip)
  }

  lemma MovImmAgrees(s: At, op: byte)
    requires Roomy(s) && s.size != 2 && s.size != 1 && 0xb0 <= op <= 0xbf
    ensures StepMovImm(s, op) == Ran(Meaning(s.regs, MovImm(s, op), ALL, true, s.g))
  {
    hide CodeAt, Byte, Bytes, Le, Load, Wide, RexB, Meaning, SetReg, SetReg8;
    var o := MovImm(s, op);
    CodeByte(s.code, s.rip, s.n);
    CodeLe(s.code, s.rip, s.n, 4);
    CodeLe(s.code, s.rip, s.n, 8);
    BytesAre(s.code, s.rip, s.n, 4);
    BytesAre(s.code, s.rip, s.n, 8);
    BytesWrap(s.code, s.rip, s.n, 4);
    BytesWrap(s.code, s.rip, s.n, 8);
    MovMeaning(s.regs, o, s.g);
  }

  lemma BytesAre(code: Mem, rip: u64, n: nat, k: Size)
    ensures Bytes(code, rip, n, k) == Load(code, rip + n, k)
  {
  }

  // --- shifts ---------------------------------------------------------------------------------------

  function Shift(s: At, op: byte): Insn
    requires Roomy(s) && DecodeShift(CodeAt(s.code, s.rip), s.n, s.rex, op, s.size, s.hasRex).Some?
  {
    Finish(DecodeShift(CodeAt(s.code, s.rip), s.n, s.rex, op, s.size, s.hasRex).value, s.rip)
  }

  lemma ShiftIs(s: At, op: byte)
    requires Roomy(s) && IsShift(op) && DecodeShift(CodeAt(s.code, s.rip), s.n, s.rex, op, s.size, s.hasRex).Some?
    ensures var p := CodeAt(s.code, s.rip);
      RegOf(p[s.n]) >= 4 &&
      var o, c0 := Shift(s, op), Operand(p, s.n + 1, s.rex, p[s.n], InReg, ShiftInsn(p[s.n], op, s.size, s.hasRex));
      o == c0.o.(imm := o.imm, byCl := o.byCl, len := o.len, next := o.next, target := 0)
      && o.next == Wrap(s.rip + (c0.n + if op < 0xd0 then 1 else 0))
      && (op < 0xd0 ==> o.imm == p[c0.n] && !o.byCl) && (0xd0 <= op < 0xd2 ==> o.imm == 1 && !o.byCl)
          && (op >= 0xd2 ==> o.byCl)
  {
    hide CodeAt, RegOf, Wrap, Operand, ShiftInsn;
    var p := CodeAt(s.code, s.rip);
    RegOfRange(p[s.n]);
    ShiftInsnIs(p[s.n], op, s.size, s.hasRex);
    OperandKeeps(p, s.n + 1, s.rex, p[s.n], InReg, ShiftInsn(p[s.n], op, s.size, s.hasRex));
  }

  lemma ShiftInsnIs(m: byte, op: byte, size: Size, hasRex: bool)
    requires RegOf(m) >= 4
    ensures var o := ShiftInsn(m, op, size, hasRex);
      o.kind.KShift? && o.size == (if op % 2 == 0 then 1 else size) && o.hasRex == hasRex && !o.mem && o.ext == RegOf(m)
          && !o.byCl
  {
    hide RegOf;
  }

  /** The interpreter's shift by `cnt` of an operand. */
  function ShiftAt(regs: seq<Region>, g: Guest, rm: Opnd, cnt: int, size: Size, ext: ShiftExt, rex: bool,
      next: u64): Res
    requires 0 <= cnt < 64
  {
    if cnt == 0 then Done(g, next)
    else
      match Rd(regs, g, rm, size, rex)
      case None => Fault
      case Some(a) =>
        var d := ShiftCalc(a, cnt, size, ext);
        Wr(regs, g.(flags := ShiftFlags(g.flags, d, size)), rm, d.res, size, rex, next)
  }

  lemma ShiftMeaningAt(regs: seq<Region>, o: Insn, g: Guest)
    requires o.kind.KShift?
    ensures 0 <= ShiftCount(o, g.r) < 64
    ensures Meaning(regs, o, ALL, true, g)
        == ShiftAt(regs, g, OpndOf(o, o.reg, g.r), ShiftCount(o, g.r), o.size, o.ext, o.hasRex, o.next)
  {
    hide Ld, Address, Store2, SetOperand, RegOperand, ShiftCalc, ShiftFlags, Select, ShiftCount;
    CountRange(o, g.r);
    var v := if o.mem then Ld(regs, g, Address(o, g.r), o.size) else Some(RegOperand(g, o.reg, o.size, o.hasRex));
    if ShiftCount(o, g.r) != 0 && v.Some? {
      var d := ShiftCalc(v.value, ShiftCount(o, g.r), o.size, o.ext);
      ShiftFlagsKeep(g.flags, d, o.size);
      SelectAll(g.flags, ShiftFlags(g.flags, d, o.size));
    }
  }

  lemma CountRange(o: Insn, r: RegFile)
    ensures 0 <= ShiftCount(o, r) < 64
  {
  }

  lemma ShiftFlagsKeep(f: Flags, d: Shifted, size: Size)
    ensures ShiftFlags(f, d, size).other == f.other
  {
    hide Trunc, EvenParity;
  }

  lemma StepShiftIs(s: At, op: byte, rm: Opnd, raw: int, n: nat, next: u64)
    requires IsShift(op)
    requires RegOf(Byte(s.code, s.rip, s.n)) >= 4 && Modrm(s.code, s.rip, s.n, s.rex, s.g.r).n == n
    requires next == Wrap(s.rip + (n + if op < 0xd0 then 1 else 0))
        && Fixup(Modrm(s.code, s.rip, s.n, s.rex, s.g.r).o, next) == rm
    requires raw == if op < 0xd0 then Byte(s.code, s.rip, n) else if op < 0xd2 then 1 else Get(s.g.r, RCX) % 0x100
    ensures var size := if op % 2 == 0 then 1 else s.size;
      var ext := RegOf(Byte(s.code, s.rip, s.n));
      ext < 8 && StepShift(s, op)
          == Ran(ShiftAt(s.regs, s.g, rm, raw % (if size == 8 then 64 else 32), size, ext, s.hasRex, next))
  {
    hide Byte, Modrm, RegOf, Rd, Wr, Fixup, ShiftCalc, ShiftFlags, Wrap;
    RegOfRange(Byte(s.code, s.rip, s.n));
  }

  lemma CountAgrees(o: Insn, r: RegFile, raw: int)
    requires raw == if o.byCl then Get(r, RCX) % 0x100 else o.imm
    ensures ShiftCount(o, r) == raw % (if o.size == 8 then 64 else 32)
  {
    if o.byCl { LowCount(Get(r, RCX)); }
  }

  lemma LowCount(v: u64)
    ensures (v % 0x100) % 64 == v % 64 && (v % 0x100) % 32 == v % 32
  {
    ModShift(v % 0x100, 4 * (v / 0x100), 64);
    ModShift(v % 0x100, 8 * (v / 0x100), 32);
  }

  lemma ShiftAgrees(s: At, op: byte)
    requires Roomy(s) && s.size != 2 && IsShift(op)
    requires DecodeShift(CodeAt(s.code, s.rip), s.n, s.rex, op, s.size, s.hasRex).Some?
    ensures StepShift(s, op) == Ran(Meaning(s.regs, Shift(s, op), ALL, true, s.g))
  {
    hide CodeAt, Byte, Meaning, Modrm, ModOf, RegOf, Operand, DecodeShift, OpndOf, Fixup, Wrap, StepShift, ShiftAt,
         Shift, ShiftCount, ShiftInsn, IsShift;
    var p, o, m := CodeAt(s.code, s.rip), Shift(s, op), Byte(s.code, s.rip, s.n);
    CodeByte(s.code, s.rip, s.n);
    ShiftIs(s, op);
    ShiftInsnIs(m, op, s.size, s.hasRex);
    var o0 := ShiftInsn(m, op, s.size, s.hasRex);
    OperandKeeps(p, s.n + 1, s.rex, m, InReg, o0);
    EitherAgrees(s, m, o0, o, o.next);
    var n := Operand(p, s.n + 1, s.rex, m, InReg, o0).n;
    CodeByte(s.code, s.rip, n);
    var raw := if op < 0xd0 then Byte(s.code, s.rip, n) else if op < 0xd2 then 1 else Get(s.g.r, RCX) % 0x100;
    StepShiftIs(s, op, OpndOf(o, o.reg, s.g.r), raw, n, o.next);
    CountAgrees(o, s.g.r, raw);
    ShiftMeaningAt(s.regs, o, s.g);
  }

  // --- imul, lea ------------------------------------------------------------------------------------

  lemma MultipliedIs(g: Guest, reg: Reg, product: int, size: Size)
    ensures Multiplied(g, reg, product, size)
         == SetReg(g.(flags := Select(g.flags, FlagsLogic(g.flags, Wrap(product), size), ALL)), reg, Wrap(product),
             size)
  {
    hide WithLowByte, Wrap;
    LogicKeeps(g.flags, Wrap(product), size);
    SelectAll(g.flags, FlagsLogic(g.flags, Wrap(product), size));
    hide FlagsLogic;
  }

  lemma LogicKeeps(f: Flags, r: u64, size: Size)
    ensures FlagsLogic(f, r, size).other == f.other
  {
    hide Trunc, EvenParity;
  }

  /** The interpreter's product, with the other operand's value given. */
  lemma ImulMeaningAt(regs: seq<Region>, o: Insn, g: Guest)
    requires o.kind.KImul? && (o.size == 4 || o.size == 8)
    ensures Meaning(regs, o, ALL, true, g)
         == match Rd(regs, g, OpndOf(o, o.src, g.r), o.size, o.hasRex)
            case None => Fault
            case Some(a) => Done(Multiplied(g, o.reg,
                Signed(a, o.size) * Signed(if o.immSrc then o.imm else Get(g.r, o.reg), o.size), o.size), o.next)
  {
    hide Ld, Address, Multiplied, FlagsLogic, Select, Signed, SetReg, Trunc;
    match Rd(regs, g, OpndOf(o, o.src, g.r), o.size, o.hasRex)
    case None =>
    case Some(a) =>
      MultipliedIs(g, o.reg, Signed(a, o.size) * Signed(if o.immSrc then o.imm else Get(g.r, o.reg), o.size),
        o.size);
  }

  /** A sign-extended immediate reads the same at 32 and 64 bits. */
  lemma SignedImm(x: int, size: Size)
    requires -0x8000_0000 <= x < 0x8000_0000 && (size == 4 || size == 8)
    ensures Signed(Wrap(x), size) == x
  {
    TruncNear(x, size);
    if size == 4 {
      TruncWrap(x, 4);
      FourNear(x);
    }
  }

  lemma FourNear(x: int)
    requires -0x8000_0000 <= x < 0x8000_0000
    ensures Trunc(x, 4) == if x < 0 then x + 0x1_0000_0000 else x
  {
  }

  function ImulImm(s: At, op: byte): Insn
    requires Roomy(s)
  {
    Finish(DecodeImulImm(CodeAt(s.code, s.rip), s.n, s.rex, op, s.size, s.hasRex), s.rip)
  }

  lemma ImulImmIs(s: At, op: byte)
    requires Roomy(s) && (op == 0x69 || op == 0x6b)
    ensures var p := CodeAt(s.code, s.rip);
      var o, c0 := ImulImm(s, op),
          Operand(p, s.n + 1, s.rex, p[s.n], InSrc, ImulInsn(p[s.n], s.rex, s.size, s.hasRex, true));
      o == c0.o.(imm := o.imm, len := o.len, next := o.next, target := 0)
      && o.next == Wrap(s.rip + (c0.n + if op == 0x6b then 1 else 4))
      && o.imm == Wrap(if op == 0x6b then Sle(p, c0.n, 1) else Sle(p, c0.n, 4))
  {
    hide CodeAt, Wrap, Operand, Sle, ImulInsn;
    var p := CodeAt(s.code, s.rip);
    ImulInsnIs(p[s.n], s.rex, s.size, s.hasRex, true);
    OperandKeeps(p, s.n + 1, s.rex, p[s.n], InSrc, ImulInsn(p[s.n], s.rex, s.size, s.hasRex, true));
  }

  lemma ImulInsnIs(m: byte, rex: byte, size: Size, hasRex: bool, imm: bool)
    ensures var o := ImulInsn(m, rex, size, hasRex, imm);
      o.kind.KImul? && o.size == size && o.hasRex == hasRex && !o.mem && o.immSrc == imm && o.reg == RegField(m, rex)
  {
    hide RegField;
  }

  lemma ImulImmAgrees(s: At, op: byte)
    requires Roomy(s) && (s.size == 4 || s.size == 8) && (op == 0x69 || op == 0x6b)
    ensures StepImulImm(s, op) == Ran(Meaning(s.regs, ImulImm(s, op), ALL, true, s.g))
  {
    hide CodeAt, Byte, Meaning, Modrm, Operand, OpndOf, Fixup, Wrap, Rd, Multiplied, Sle, Sbytes, Signed, ImulImm,
        ImulInsn, RegField;
    var p, o, m := CodeAt(s.code, s.rip), ImulImm(s, op), Byte(s.code, s.rip, s.n);
    CodeByte(s.code, s.rip, s.n);
    ImulImmIs(s, op);
    ImulInsnIs(m, s.rex, s.size, s.hasRex, true);
    var o0 := ImulInsn(m, s.rex, s.size, s.hasRex, true);
    OperandKeeps(p, s.n + 1, s.rex, m, InSrc, o0);
    SourceAgrees(s, s.n, m, o0, o, o.next);
    var n := Operand(p, s.n + 1, s.rex, m, InSrc, o0).n;
    CodeSle(s.code, s.rip, n, 1);
    CodeSle(s.code, s.rip, n, 4);
    var x := if op == 0x6b then Sbytes(s.code, s.rip, n, 1) else Sbytes(s.code, s.rip, n, 4);
    SbytesRange(s.code, s.rip, n, 1);
    SbytesRange(s.code, s.rip, n, 4);
    SignedImm(x, o.size);
    ImulMeaningAt(s.regs, o, s.g);
  }

  lemma SbytesRange(code: Mem, rip: u64, n: nat, k: Size)
    requires k <= 4
    ensures -0x8000_0000 <= Sbytes(code, rip, n, k) < 0x8000_0000
  {
    hide Bytes;
  }

  function Lea(s: At): Insn
    requires Roomy(s) && DecodeLea(CodeAt(s.code, s.rip), s.n, s.rex, s.size, s.hasRex).Some?
  {
    Finish(DecodeLea(CodeAt(s.code, s.rip), s.n, s.rex, s.size, s.hasRex).value, s.rip)
  }

  lemma LeaAgrees(s: At)
    requires Roomy(s) && DecodeLea(CodeAt(s.code, s.rip), s.n, s.rex, s.size, s.hasRex).Some?
    ensures StepLea(s) == Ran(Meaning(s.regs, Lea(s), ALL, true, s.g))
  {
    hide CodeAt, Byte, Modrm, ModrmMem, ModOf, RegField, Address, RefAddress, Wrap, SetReg;
    var o, m := Lea(s), Byte(s.code, s.rip, s.n);
    CodeByte(s.code, s.rip, s.n);
    var c := ModrmMem(CodeAt(s.code, s.rip), s.n + 1, s.rex, m);
    OperandAgrees(s.code, s.rip, s.n, s.rex, m, c.a, o.next, s.g.r);
    RefIs(o, c.a, o.next, s.g.r);
  }

  // --- the stack and jumps ------------------------------------------------------------------------------

  lemma StackAgrees(s: At, op: byte)
    requires 0x50 <= op <= 0x5f && DecodeStack(s.n, s.rex, op, s.size, s.hasRex).Some?
    ensures StepStack(s, op)
        == Ran(Meaning(s.regs, Finish(DecodeStack(s.n, s.rex, op, s.size, s.hasRex).value, s.rip), ALL, true, s.g))
  {
    hide Push, Ld, PopSp, Wide, Wrap, Address;
  }

  function JumpInsn(s: At, op: byte): Insn
    requires Roomy(s)
  {
    Finish(DecodeJump(CodeAt(s.code, s.rip), s.n, op, s.size, s.hasRex), s.rip)
  }

  lemma JumpAgrees(s: At, op: byte)
    requires Roomy(s) && IsJump(op)
    ensures StepJump(s, op) == Ran(Meaning(s.regs, JumpInsn(s, op), ALL, true, s.g))
  {
    hide CodeAt, Push, Ld, PopSp, Wrap, Address, Sle, Sbytes, Cond, JumpInsn;
    JumpIs(s, op);
  }

  /** What the decoder makes of each jump. */
  lemma JumpIs(s: At, op: byte)
    requires Roomy(s) && IsJump(op)
    ensures var o := JumpInsn(s, op);
      var k: Size := if op == 0xe8 || op == 0xe9 then 4 else 1;
      (op == 0xc3 ==> o.kind.KRet?) && (op == 0xe8 ==> o.kind.KCall?) && (op == 0xe9 || op == 0xeb ==> o.kind.KJmp?)
      && (op < 0x80 ==> o.kind.KJcc? && o.cc == op % 16)
      && (op != 0xc3 ==> o.next == Wrap(s.rip + s.n + k) && o.target == Wrap(o.next + Sbytes(s.code, s.rip, s.n, k)))
  {
    hide CodeAt, Wrap, Sle, Sbytes;
    var k: Size := if op == 0xe8 || op == 0xe9 then 4 else 1;
    CodeSle(s.code, s.rip, s.n, 1);
    CodeSle(s.code, s.rip, s.n, 4);
    var rel, next := Sbytes(s.code, s.rip, s.n, k), Wrap(s.rip + (s.n + k));
    TargetIs(next, rel);
  }

  lemma TargetIs(next: u64, rel: int)
    ensures Wrap(next + Wrap(rel)) == Wrap(next + rel)
  {
    hide Wrap;
    WrapAdd(rel, next);
  }

  // --- the last group -----------------------------------------------------------------------------------

  function Group5(s: At, op: byte): Insn
    requires Roomy(s) && DecodeGroup5(CodeAt(s.code, s.rip), s.n, s.rex, op, s.size, s.hasRex).Some?
  {
    Finish(DecodeGroup5(CodeAt(s.code, s.rip), s.n, s.rex, op, s.size, s.hasRex).value, s.rip)
  }

  lemma Group5Is(s: At, op: byte)
    requires Roomy(s) && (op == 0xfe || op == 0xff)
    requires DecodeGroup5(CodeAt(s.code, s.rip), s.n, s.rex, op, s.size, s.hasRex).Some?
    ensures var p := CodeAt(s.code, s.rip);
      var ext := RegOf(p[s.n]);
      var o, c0 := Group5(s, op), Operand(p, s.n + 1, s.rex, p[s.n], InReg, Group5Insn(p[s.n], op, s.size, s.hasRex));
      o == c0.o.(len := c0.n, next := Wrap(s.rip + c0.n), target := 0)
      && (ext == 0 || ext == 1 || (op == 0xff && (ext == 2 || ext == 4)))
  {
    hide CodeAt, RegOf, ModOf, RmField, Wrap, Operand, Group5Insn;
    var p := CodeAt(s.code, s.rip);
    Group5InsnIs(p[s.n], op, s.size, s.hasRex);
    OperandKeeps(p, s.n + 1, s.rex, p[s.n], InReg, Group5Insn(p[s.n], op, s.size, s.hasRex));
  }

  lemma Group5InsnIs(m: byte, op: byte, size: Size, hasRex: bool)
    ensures var o, ext := Group5Insn(m, op, size, hasRex), RegOf(m);
      !o.mem && o.hasRex == hasRex && !o.noWrite
      && (ext == 0 || ext == 1 ==> o.size == (if op == 0xfe then 1 else size) && o.imm == 1)
      && (ext == 0 || ext == 1 ==>
            o.op == (if ext == 0 then AInc else ADec) && o.kind == if ModOf(m) == 3 then KRI else KMI)
      && (ext != 0 && ext != 1 ==> o.size == size && o.kind == if ext == 2 then KCallM else KJmpM)
  {
    hide RegOf, ModOf;
  }

  lemma GoToIs(regs: seq<Region>, o: Insn, ea: u64, g: Guest)
    ensures GoTo(regs, g, if o.mem then AtMem(ea) else AtReg(o.reg), o.hasRex) == Ran(Jump(regs, o, ea, g))
  {
    hide Ld;
  }

  lemma IndirectMeaning(regs: seq<Region>, o: Insn, g: Guest)
    requires o.kind.KCallM? || o.kind.KJmpM?
    ensures Meaning(regs, o, ALL, true, g)
         == match Rd(regs, g, OpndOf(o, o.reg, g.r), o.size, o.hasRex)
            case None => Fault
            case Some(_) =>
              if o.kind.KJmpM? then Jump(regs, o, Address(o, g.r), g)
              else match Push(regs, g, o.next)
                case None => Fault
                case Some(g1) => Jump(regs, o, Address(o, g.r), g1)
  {
    hide Ld, Push, Jump, Address, RegOperand;
  }

  lemma StepGroup5Is(s: At, op: byte, o: Insn, rm: Opnd)
    requires op == 0xfe || op == 0xff
    requires Fixup(Modrm(s.code, s.rip, s.n, s.rex, s.g.r).o, o.next) == rm
        && o.next == Wrap(s.rip + Modrm(s.code, s.rip, s.n, s.rex, s.g.r).n)
    requires o.hasRex == s.hasRex && o.size == if op == 0xfe then 1 else s.size
    ensures var ext := RegOf(Byte(s.code, s.rip, s.n));
      (ext == 0 || ext == 1 ==> StepGroup5(s, op) == Ran(match Rd(s.regs, s.g, rm, o.size, o.hasRex)
          case None => Fault
          case Some(a) => Operate(s.regs, s.g, if ext == 0 then AInc else ADec, rm, a, 1, o.size, o.hasRex, o.next)))
      && (ext == 2 ==> StepGroup5(s, op) == match Rd(s.regs, s.g, rm, o.size, o.hasRex)
          case None => Ran(Fault)
          case Some(_) => (match Push(s.regs, s.g, o.next) case None => Ran(Fault) case Some(g1) => GoTo(s.regs, g1, rm,
              o.hasRex)))
      && (ext == 4 ==> StepGroup5(s, op) == match Rd(s.regs, s.g, rm, o.size, o.hasRex)
          case None => Ran(Fault)
          case Some(_) => GoTo(s.regs, s.g, rm, o.hasRex))
  {
    hide Byte, Modrm, RegOf, Rd, Push, GoTo, Fixup, Operate, Wrap;
  }

  lemma Group5Agrees(s: At, op: byte)
    requires Roomy(s) && s.size != 2 && (op == 0xfe || op == 0xff)
    requires DecodeGroup5(CodeAt(s.code, s.rip), s.n, s.rex, op, s.size, s.hasRex).Some?
    ensures StepGroup5(s, op) == Ran(Meaning(s.regs, Group5(s, op), ALL, true, s.g))
  {
    hide CodeAt, Byte, Meaning, Modrm, Operand, OpndOf, Fixup, Wrap, Rd, RegOf, ModOf, Group5, Group5Insn, StepGroup5,
        Operate, GoTo,
         Jump, Push, DecodeGroup5, Address;
    var p, o, m := CodeAt(s.code, s.rip), Group5(s, op), Byte(s.code, s.rip, s.n);
    CodeByte(s.code, s.rip, s.n);
    Group5Is(s, op);
    Group5InsnIs(m, op, s.size, s.hasRex);
    var o0 := Group5Insn(m, op, s.size, s.hasRex);
    OperandKeeps(p, s.n + 1, s.rex, m, InReg, o0);
    EitherAgrees(s, m, o0, o, o.next);
    StepGroup5Is(s, op, o, OpndOf(o, o.reg, s.g.r));
    if RegOf(m) == 0 || RegOf(m) == 1 {
      ImmMeaning(s.regs, o, s.g);
    } else {
      IndirectMeaning(s.regs, o, s.g);
      IndirectGoes(s.regs, o, s.g, s.g);
      if Push(s.regs, s.g, o.next).Some? { IndirectGoes(s.regs, o, s.g, Push(s.regs, s.g, o.next).value); }
    }
  }

  lemma IndirectGoes(regs: seq<Region>, o: Insn, g: Guest, g1: Guest)
    ensures GoTo(regs, g1, OpndOf(o, o.reg, g.r), o.hasRex) == Ran(Jump(regs, o, Address(o, g.r), g1))
  {
    hide GoTo, Jump, Address;
    GoToIs(regs, o, Address(o, g.r), g1);
  }

  // --- two-byte opcodes -------------------------------------------------------------------------------

  function Two(s: At, mand: byte): Insn
    requires Roomy(s) && DecodeTwo(CodeAt(s.code, s.rip), s.n, s.rex, mand, s.size, s.hasRex).Some?
  {
    Finish(DecodeTwo(CodeAt(s.code, s.rip), s.n, s.rex, mand, s.size, s.hasRex).value, s.rip)
  }

  lemma NopAgrees(s: At, mand: byte)
    requires Roomy(s) && DecodeTwo(CodeAt(s.code, s.rip), s.n, s.rex, mand, s.size, s.hasRex).Some?
    requires Byte(s.code, s.rip, s.n) == 0x1f
    ensures StepTwo(s) == Ran(Meaning(s.regs, Two(s, mand), ALL, true, s.g))
  {
    hide CodeAt, Byte, Modrm, ModrmMem, ModOf, RegField, Wrap, Address, Operand, Sle, RefAddress;
    var m, next := Byte(s.code, s.rip, s.n + 1), Two(s, mand).next;
    CodeByte(s.code, s.rip, s.n);
    CodeByte(s.code, s.rip, s.n + 1);
    if ModOf(m) == 3 {
      RegisterAgrees(s.code, s.rip, s.n + 1, s.rex, m, next, s.g.r);
    } else {
      OperandAgrees(s.code, s.rip, s.n + 1, s.rex, m, ModrmMem(CodeAt(s.code, s.rip), s.n + 2, s.rex, m).a, next,
          s.g.r);
    }
  }

  lemma JccAgrees(s: At, mand: byte)
    requires Roomy(s) && DecodeTwo(CodeAt(s.code, s.rip), s.n, s.rex, mand, s.size, s.hasRex).Some?
    requires 0x80 <= Byte(s.code, s.rip, s.n) <= 0x8f
    ensures StepTwo(s) == Ran(Meaning(s.regs, Two(s, mand), ALL, true, s.g))
  {
    hide CodeAt, Byte, Modrm, ModrmMem, Operand, Wrap, Address, Sle, Sbytes, Cond;
    CodeByte(s.code, s.rip, s.n);
    CodeSle(s.code, s.rip, s.n + 1, 4);
    TargetIs(Wrap(s.rip + (s.n + 5)), Sbytes(s.code, s.rip, s.n + 1, 4));
  }

  lemma SetccMeaning(regs: seq<Region>, o: Insn, g: Guest)
    requires o.kind.KSetcc? && o.size == 1
    ensures Meaning(regs, o, ALL, true, g)
         == Wr(regs, g, OpndOf(o, o.reg, g.r), if Cond(g.flags, o.cc) then 1 else 0, 1, o.hasRex, o.next)
  {
    hide Address, Cond, SetReg8, Store2;
  }

  lemma TwoIs(s: At, mand: byte)
    requires Roomy(s) && DecodeTwo(CodeAt(s.code, s.rip), s.n, s.rex, mand, s.size, s.hasRex).Some?
    requires IsEither(CodeAt(s.code, s.rip)[s.n])
    ensures var p := CodeAt(s.code, s.rip);
      var op2, m := p[s.n], p[s.n + 1];
      var c0 := Operand(p, s.n + 2, s.rex, m, PlaceOf(op2), TwoInsn(op2, m, s.rex, s.size, s.hasRex));
      Two(s, mand) == c0.o.(len := c0.n, next := Wrap(s.rip + c0.n), target := 0)
  {
    hide CodeAt, RegField, Wrap, Operand, TwoInsn;
    var p := CodeAt(s.code, s.rip);
    var op2, m := p[s.n], p[s.n + 1];
    TwoInsnIs(op2, m, s.rex, s.size, s.hasRex);
    OperandKeeps(p, s.n + 2, s.rex, m, PlaceOf(op2), TwoInsn(op2, m, s.rex, s.size, s.hasRex));
  }

  lemma TwoInsnIs(op2: byte, m: byte, rex: byte, size: Size, hasRex: bool)
    requires IsEither(op2)
    ensures var o := TwoInsn(op2, m, rex, size, hasRex);
      !o.mem && o.hasRex == hasRex && (o.kind.KImul? || o.kind.KSetcc? || o.kind.KMovx?) && !o.immSrc
    ensures var o := TwoInsn(op2, m, rex, size, hasRex);
      op2 == 0xaf ==> o.kind.KImul? && o.reg == RegField(m, rex) && o.size == size
    ensures var o := TwoInsn(op2, m, rex, size, hasRex);
      op2 < 0xa0 ==> o.kind.KSetcc? && o.cc == op2 % 16 && o.size == 1
    ensures var o := TwoInsn(op2, m, rex, size, hasRex);
      op2 > 0xaf ==> (o.kind.KMovx? && o.reg == RegField(m, rex) && o.size == size
                      && o.ssize == (if op2 % 2 == 1 then 2 else 1) && o.sign == (op2 >= 0xbe))
  {
    hide RegField;
  }

  lemma SetccAgrees(s: At, mand: byte)
    requires Roomy(s) && DecodeTwo(CodeAt(s.code, s.rip), s.n, s.rex, mand, s.size, s.hasRex).Some?
    requires 0x90 <= Byte(s.code, s.rip, s.n) <= 0x9f
    ensures StepTwo(s) == Ran(Meaning(s.regs, Two(s, mand), ALL, true, s.g))
  {
    hide CodeAt, Byte, Modrm, Operand, OpndOf, Fixup, Wrap, Wr, Meaning, Two, TwoInsn, DecodeTwo, Cond;
    var p, o, m, op2 := CodeAt(s.code, s.rip), Two(s, mand), Byte(s.code, s.rip, s.n + 1), Byte(s.code, s.rip, s.n);
    CodeByte(s.code, s.rip, s.n);
    CodeByte(s.code, s.rip, s.n + 1);
    TwoIs(s, mand);
    TwoInsnIs(op2, m, s.rex, s.size, s.hasRex);
    var o0 := TwoInsn(op2, m, s.rex, s.size, s.hasRex);
    OperandKeeps(p, s.n + 2, s.rex, m, InReg, o0);
    EitherAgrees(s.(n := s.n + 1), m, o0, o, o.next);
    SetccMeaning(s.regs, o, s.g);
  }

  lemma MovxMeaningAt(regs: seq<Region>, o: Insn, g: Guest)
    requires o.kind.KMovx?
    ensures Meaning(regs, o, ALL, true, g)
         == match Rd(regs, g, OpndOf(o, o.src, g.r), o.ssize, o.hasRex)
            case None => Fault
            case Some(v) => Done(SetReg(g, o.reg, if o.sign then Sext(v, o.ssize) else v, o.size), o.next)
  {
    hide Ld, Address, SetReg, Sext, RegOperand;
  }

  lemma ProductSwap(a: int, b: int)
    ensures a * b == b * a
  {
  }

  lemma WideAgrees(s: At, mand: byte)
    requires Roomy(s) && (s.size == 4 || s.size == 8)
    requires DecodeTwo(CodeAt(s.code, s.rip), s.n, s.rex, mand, s.size, s.hasRex).Some?
    requires IsEither(Byte(s.code, s.rip, s.n)) && Byte(s.code, s.rip, s.n) >= 0xa0
    ensures StepTwo(s) == Ran(Meaning(s.regs, Two(s, mand), ALL, true, s.g))
  {
    hide CodeAt, Byte, Modrm, Operand, OpndOf, Fixup, Wrap, Rd, Meaning, Two, TwoInsn, DecodeTwo, Multiplied, Signed,
        Sext, SetReg, RegField;
    var p, o, m, op2 := CodeAt(s.code, s.rip), Two(s, mand), Byte(s.code, s.rip, s.n + 1), Byte(s.code, s.rip, s.n);
    CodeByte(s.code, s.rip, s.n);
    CodeByte(s.code, s.rip, s.n + 1);
    TwoIs(s, mand);
    TwoInsnIs(op2, m, s.rex, s.size, s.hasRex);
    var o0 := TwoInsn(op2, m, s.rex, s.size, s.hasRex);
    OperandKeeps(p, s.n + 2, s.rex, m, InSrc, o0);
    SourceAgrees(s, s.n + 1, m, o0, o, o.next);
    if op2 == 0xaf {
      ImulMeaningAt(s.regs, o, s.g);
      var v := Rd(s.regs, s.g, OpndOf(o, o.src, s.g.r), o.size, o.hasRex);
      if v.Some? { ProductSwap(Signed(Get(s.g.r, o.reg), o.size), Signed(v.value, o.size)); }
    } else {
      MovxMeaningAt(s.regs, o, s.g);
    }
  }

  lemma TwoAgrees(s: At, mand: byte)
    requires Roomy(s) && (s.size == 4 || s.size == 8 || Byte(s.code, s.rip, s.n) == 0x1f)
    requires DecodeTwo(CodeAt(s.code, s.rip), s.n, s.rex, mand, s.size, s.hasRex).Some?
    ensures StepTwo(s) == Ran(Meaning(s.regs, Two(s, mand), ALL, true, s.g))
  {
    hide CodeAt, Byte, Meaning, Two, StepTwo;
    var op2 := Byte(s.code, s.rip, s.n);
    CodeByte(s.code, s.rip, s.n);
    TwoAccepts(CodeAt(s.code, s.rip), s.n, s.rex, mand, s.size, s.hasRex);
    if op2 == 0x1f {
      NopAgrees(s, mand);
    } else if op2 < 0x90 {
      JccAgrees(s, mand);
    } else if op2 < 0xa0 {
      SetccAgrees(s, mand);
    } else {
      WideAgrees(s, mand);
    }
  }

  lemma TwoAccepts(p: CodeWindow, n: nat, rex: byte, mand: byte, size: Size, hasRex: bool)
    requires n + 10 <= WINDOW && DecodeTwo(p, n, rex, mand, size, hasRex).Some?
    ensures p[n] == 0x1f || 0x80 <= p[n] <= 0x8f || IsEither(p[n])
    ensures mand != 0 ==> p[n] == 0x1f && mand == 0x66
  {
    hide Operand, ModrmMem, ModOf, Sle;
  }

  // --- all opcodes --------------------------------------------------------------------------------------

  function Op(s: At, mand: byte, op: byte): Insn
    requires Roomy(s) && Operation(CodeAt(s.code, s.rip), s.n, s.rex, mand, op, s.size, s.hasRex).Some?
  {
    Finish(Operation(CodeAt(s.code, s.rip), s.n, s.rex, mand, op, s.size, s.hasRex).value, s.rip)
  }

  lemma PlainNopAgrees(s: At)
    ensures Ran(Done(s.g, Wrap(s.rip + s.n)))
        == Ran(Meaning(s.regs, Finish(Cur(s.n, Blank(s.size, s.hasRex).(kind := KNop)), s.rip), ALL, true, s.g))
  {
    hide Address, Wrap;
  }

  lemma OpAgrees(s: At, mand: byte, op: byte)
    requires Roomy(s) && (s.size == 4 || s.size == 8) && op != 0x0f
    requires Operation(CodeAt(s.code, s.rip), s.n, s.rex, mand, op, s.size, s.hasRex).Some?
    ensures StepOp(s, op) == Ran(Meaning(s.regs, Op(s, mand, op), ALL, true, s.g))
  {
    hide CodeAt, Byte, Meaning, Finish, StepRow, StepAcc, StepStack, StepImulImm, StepJump, StepImmGroup, StepLea,
        StepMovImm, StepShift,
         StepMovRmImm, StepGroup5, StepTwo, DecodeRow, DecodeImmGroup, DecodeAcc, DecodeMovImm, DecodeShift,
         DecodeImulImm, DecodeLea,
         DecodeStack, DecodeJump, DecodeTwo, DecodeGroup5, Wrap, Blank, ModOf;
    if IsRow(op) {
      if ModOf(Byte(s.code, s.rip, s.n)) == 3 { RowRegAgrees(s, op); } else { RowMemAgrees(s, op); }
    } else if op == 0x80 || op == 0x81 || op == 0x83 {
      ImmGroupAgrees(s, op);
    } else if IsMovImm(op) {
      MovRmAgrees(s, op);
    } else if IsAcc(op) {
      AccAgrees(s, op);
    } else if 0xb0 <= op <= 0xbf {
      MovImmAgrees(s, op);
    } else if IsShift(op) {
      ShiftAgrees(s, op);
    } else if op == 0x69 || op == 0x6b {
      ImulImmAgrees(s, op);
    } else if op == 0x8d {
      LeaAgrees(s);
    } else if 0x50 <= op <= 0x5f {
      StackAgrees(s, op);
    } else if op == 0x90 {
      PlainNopAgrees(s);
    } else if IsJump(op) {
      JumpAgrees(s, op);
    } else {
      Group5Agrees(s, op);
    }
  }

  // --- the whole instruction ------------------------------------------------------------------------

  predicate IsPrefix(b: byte) {
    b == 0x66 || b == 0xf2 || b == 0xf3 || b == 0x2e || b == 0x36 || b == 0x3e || b == 0x26 || b == 0x64
    || b == 0x65 || b == 0x67
  }

  /** No accepted opcode is a prefix, or a REX prefix. */
  lemma AcceptedOpcode(p: CodeWindow, n: nat, rex: byte, mand: byte, op: byte, size: Size, hasRex: bool)
    requires n + 10 <= WINDOW && Operation(p, n, rex, mand, op, size, hasRex).Some?
    ensures !IsPrefix(op) && !IsRex(op)
  {
    hide DecodeRow, DecodeImmGroup, DecodeAcc, DecodeMovImm, DecodeShift, DecodeImulImm, DecodeLea, DecodeStack,
         DecodeJump, DecodeTwo, DecodeGroup5;
  }

  lemma NoPrefix(code: Mem, rip: u64, d: Dec, fuel: nat)
    requires fuel > 0 && !IsPrefix(Byte(code, rip, d.n))
    ensures Prefixes(code, rip, d, fuel) == Some(d)
  {
    hide Byte;
  }

  lemma OnePrefix(code: Mem, rip: u64)
    requires Byte(code, rip, 0) == 0x66 && !IsPrefix(Byte(code, rip, 1))
    ensures Prefixes(code, rip, Dec(0, 4, 0, true), MAX_PREFIXES) == Some(Dec(1, 2, 0x66, true))
  {
    hide Byte;
    NoPrefix(code, rip, Dec(1, 2, 0x66, true), MAX_PREFIXES - 1);
  }

  /** What the interpreter sees once it is past the prefixes the decoder accepts. */
  lemma PrefixesAgree(code: Mem, rip: u64)
    requires Decode(CodeAt(code, rip), rip).Some?
    ensures var h := HeadOf(CodeAt(code, rip));
      var d := Prefixes(code, rip, Dec(0, 4, 0, true), MAX_PREFIXES);
      d.Some? && d.value.plain && d.value.n == (if h.mand == 0 then 0 else 1)
      && d.value.size == (if h.mand == 0 then 4 else 2)
      && IsRex(Byte(code, rip, d.value.n)) == h.hasRex && (h.hasRex ==> h.rex == Byte(code, rip, d.value.n))
          && (!h.hasRex ==> h.rex == 0)
      && h.n == d.value.n + (if h.hasRex then 1 else 0)
      && (h.mand != 0 ==> CodeAt(code, rip)[h.n] == 0x0f && CodeAt(code, rip)[h.n + 1] == 0x1f)
  {
    hide CodeAt, Byte, Operation, Prefixes, DecodeTwo;
    var p, h := CodeAt(code, rip), HeadOf(CodeAt(code, rip));
    CodeByte(code, rip, 0);
    CodeByte(code, rip, 1);
    var size: Size := if RexW(h.rex) then 8 else 4;
    AcceptedOpcode(p, h.n + 1, h.rex, h.mand, p[h.n], size, h.hasRex);
    if h.mand != 0 {
      OnlyTwo(p, h.n + 1, h.rex, h.mand, size, h.hasRex);
      TwoAccepts(p, h.n + 1, h.rex, h.mand, size, h.hasRex);
      if h.hasRex { RexNotPrefix(p[1]); }
      OnePrefix(code, rip);
    } else {
      if h.hasRex { RexNotPrefix(p[0]); }
      NoPrefix(code, rip, Dec(0, 4, 0, true), MAX_PREFIXES);
    }
  }

  lemma RexNotPrefix(b: byte)
    requires IsRex(b)
    ensures !IsPrefix(b)
  {
  }

  lemma OnlyTwo(p: CodeWindow, n: nat, rex: byte, mand: byte, size: Size, hasRex: bool)
    requires n + 10 <= WINDOW
    ensures Operation(p, n, rex, mand, 0x0f, size, hasRex) == DecodeTwo(p, n, rex, mand, size, hasRex)
  {
    hide DecodeTwo, DecodeRow, DecodeAcc;
  }

  /** A multi-byte nop does the same under the operand-size prefix. */
  lemma NopAnySize(s: At, size: Size)
    requires Byte(s.code, s.rip, s.n) == 0x1f
    ensures StepTwo(s.(size := size)) == StepTwo(s)
  {
    hide Byte, Modrm, Wrap;
  }

  lemma StepTwoIs(s: At)
    ensures StepOp(s, 0x0f) == StepTwo(s)
  {
    hide StepTwo, StepRow, StepAcc, StepStack, StepImulImm, StepJump, StepImmGroup, StepLea, StepMovImm, StepShift,
        StepMovRmImm, StepGroup5;
  }

  /** Whatever the decoder accepts, the interpreter executes as the decoded instruction's meaning: from
      the same bytes, with the same operands, and continuing after the same number of bytes. */
  lemma StepAgrees(regs: seq<Region>, code: Mem, rip: u64, g: Guest)
    requires Decode(CodeAt(code, rip), rip).Some?
    ensures Interpreter.Step(regs, code, rip, g)
         == Ran(if !Ok(regs, rip, 1, EXEC) then Fault
               else Meaning(regs, Decode(CodeAt(code, rip), rip).value, ALL, true, g))
  {
    hide Ok, CodeAt, Byte, Operation, Prefixes, DecodeTwo, Meaning, StepOp, StepTwo, HeadOf, Finish;
    var p, h := CodeAt(code, rip), HeadOf(CodeAt(code, rip));
    PrefixesAgree(code, rip);
    CodeByte(code, rip, h.n);
    CodeByte(code, rip, h.n + 1);
    var size: Size := if RexW(h.rex) then 8 else 4;
    var s := At(regs, code, rip, h.n + 1, h.rex, h.hasRex, size, g);
    if p[h.n] == 0x0f {
      OnlyTwo(p, h.n + 1, h.rex, h.mand, size, h.hasRex);
      TwoAgrees(s, h.mand);
      StepTwoIs(s);
      StepTwoIs(s.(size := 2));
      if h.mand != 0 { NopAnySize(s, 2); }
    } else {
      OpAgrees(s, h.mand, p[h.n]);
    }
  }
}
