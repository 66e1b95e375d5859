/** The write log is only written: what the interpreter does to everything else is the same without it. */
module Unlogged {
  import opened Words
  import opened StatusFlags
  import opened Regions
  import opened GuestState
  import opened Insns
  import opened Decoder
  import opened Interpreter
  import opened BlockSource

  /** The guest with its log taken away. */
  function Silent(g: Guest): Guest { g.(log := Off) }

  function SilentRes(r: Res): Res {
    match r
    case Fault => Fault
    case Done(g, rip) => Done(Silent(g), rip)
  }

  function SilentStep(s: Stepped): Stepped {
    match s
    case Other => Other
    case Ran(r) => Ran(SilentRes(r))
  }

  function SilentAt(s: At): At { s.(g := Silent(s.g)) }

  /** Two runs of an opcode, one of them without the log. */
  ghost predicate Same(s: Stepped, t: Stepped) { t == SilentStep(s) }

  lemma RdSilent(regs: seq<Region>, g: Guest, o: Opnd, size: Size, rex: bool)
    ensures Rd(regs, Silent(g), o, size, rex) == Rd(regs, g, o, size, rex)
  {
    hide AccessOk, LoadSize;
  }

  lemma SetSilent(g: Guest, r: int, v: u64, size: Size, rex: bool)
    ensures SetReg(Silent(g), r, v, size) == Silent(SetReg(g, r, v, size))
    ensures SetReg8(Silent(g), r, v, rex) == Silent(SetReg8(g, r, v, rex))
    ensures SetOperand(Silent(g), r, v, size, rex) == Silent(SetOperand(g, r, v, size, rex))
  {
    hide WithLowByte, WithHighByte;
  }

  lemma StoreSilent(regs: seq<Region>, g: Guest, a: u64, v: u64, size: Size, rip: u64)
    ensures Store2(regs, Silent(g), a, v, size, rip) == SilentRes(Store2(regs, g, a, v, size, rip))
  {
    hide AccessOk, Store, LoadSize, Window, Ok;
  }

  lemma WrSilent(regs: seq<Region>, g: Guest, o: Opnd, v: u64, size: Size, rex: bool, next: u64)
    ensures Wr(regs, Silent(g), o, v, size, rex, next) == SilentRes(Wr(regs, g, o, v, size, rex, next))
  {
    hide Store2, SetOperand;
    match o
    case AtReg(r) => SetSilent(g, r, v, size, rex);
    case AtMem(a) => StoreSilent(regs, g, a, v, size, next);
    case Pending(_) =>
  }

  lemma OperateSilent(regs: seq<Region>, g: Guest, op: Alu, dst: Opnd, a: u64, b: u64, size: Size, rex: bool, next: u64)
    ensures Operate(regs, Silent(g), op, dst, a, b, size, rex, next)
         == SilentRes(Operate(regs, g, op, dst, a, b, size, rex, next))
  {
    hide AluResult, AluFlags, Wr;
    var r := AluResult(op, a, b);
    WrSilent(regs, g.(flags := AluFlags(g.flags, op, a, b, r, size)), dst, r, size, rex, next);
  }

  lemma PushSilent(regs: seq<Region>, g: Guest, v: u64)
    ensures Push(regs, Silent(g), v).Some? <==> Push(regs, g, v).Some?
    ensures Push(regs, g, v).Some? ==> Push(regs, Silent(g), v).value == Silent(Push(regs, g, v).value)
  {
    hide AccessOk, Store, LoadSize, Window, Ok;
  }

  // --- opcodes ------------------------------------------------------------------------------------------------

  lemma RowSilent(s: At, op: byte)
    ensures Same(StepRow(s, op), StepRow(SilentAt(s), op))
  {
    hide Modrm, Fixup, Operate, Rd, RowAlu;
    var size: Size := if op % 2 == 0 then 1 else s.size;
    var toReg := (op / 2) % 2 == 1 && op != 0x84 && op != 0x85;
    var m := Modrm(s.code, s.rip, s.n, s.rex, s.g.r);
    var next := Wrap(s.rip + m.n);
    var rm := Fixup(m.o, next);
    var dst := if toReg then AtReg(m.reg) else rm;
    var src := if toReg then rm else AtReg(m.reg);
    RdSilent(s.regs, s.g, dst, size, s.hasRex);
    RdSilent(s.regs, s.g, src, size, s.hasRex);
    var a, b := Rd(s.regs, s.g, dst, size, s.hasRex), Rd(s.regs, s.g, src, size, s.hasRex);
    if a.Some? && b.Some? { OperateSilent(s.regs, s.g, RowAlu(op), dst, a.value, b.value, size, s.hasRex, next); }
  }

  lemma ImmGroupSilent(s: At, op: byte)
    ensures Same(StepImmGroup(s, op), StepImmGroup(SilentAt(s), op))
  {
    hide Modrm, Fixup, Operate, Rd, GroupAlu, Sbytes, RegOf, Byte;
    var size: Size := if op == 0x80 then 1 else s.size;
    var m := Modrm(s.code, s.rip, s.n, s.rex, s.g.r);
    var ext := RegOf(Byte(s.code, s.rip, s.n));
    var b := if op == 0x81 then Wrap(Sbytes(s.code, s.rip, m.n, 4)) else Wrap(Sbytes(s.code, s.rip, m.n, 1));
    var next := Wrap(s.rip + m.n + if op == 0x81 then 4 else 1);
    var rm := Fixup(m.o, next);
    RdSilent(s.regs, s.g, rm, size, s.hasRex);
    var a := Rd(s.regs, s.g, rm, size, s.hasRex);
    if a.Some? { OperateSilent(s.regs, s.g, GroupAlu(ext), rm, a.value, b, size, s.hasRex, next); }
  }

  lemma MovRmImmSilent(s: At, op: byte)
    ensures Same(StepMovRmImm(s, op), StepMovRmImm(SilentAt(s), op))
  {
    hide Modrm, Fixup, Wr, Sbytes, Byte;
    var size: Size := if op == 0xc6 then 1 else s.size;
    var m := Modrm(s.code, s.rip, s.n, s.rex, s.g.r);
    var v := if op == 0xc6 then Byte(s.code, s.rip, m.n) else Wrap(Sbytes(s.code, s.rip, m.n, 4));
    var next := Wrap(s.rip + m.n + if op == 0xc6 then 1 else 4);
    WrSilent(s.regs, s.g, Fixup(m.o, next), v, size, s.hasRex, next);
  }

  lemma AccSilent(s: At, op: byte)
    ensures Same(StepAcc(s, op), StepAcc(SilentAt(s), op))
  {
    hide AluResult, AluFlags, Bytes, Sbytes, WithLowByte, AccAlu;
  }

  lemma MovImmSilent(s: At, op: byte)
    ensures Same(StepMovImm(s, op), StepMovImm(SilentAt(s), op))
  {
    hide Byte, Bytes, WithLowByte, WithHighByte, Wide;
  }

  lemma ShiftSilent(s: At, op: byte)
    ensures Same(StepShift(s, op), StepShift(SilentAt(s), op))
  {
    hide Modrm, Fixup, Wr, Rd, Byte, RegOf, ShiftCalc, ShiftFlags;
    var size: Size := if op % 2 == 0 then 1 else s.size;
    var m := Modrm(s.code, s.rip, s.n, s.rex, s.g.r);
    var ext := RegOf(Byte(s.code, s.rip, s.n));
    RegOfRange(Byte(s.code, s.rip, s.n));
    var raw := if op < 0xd0 then Byte(s.code, s.rip, m.n) else if op < 0xd2 then 1 else Get(s.g.r, RCX) % 0x100;
    var cnt := raw % (if size == 8 then 64 else 32);
    var next := Wrap(s.rip + m.n + if op < 0xd0 then 1 else 0);
    var rm := Fixup(m.o, next);
    RdSilent(s.regs, s.g, rm, size, s.hasRex);
    var a := Rd(s.regs, s.g, rm, size, s.hasRex);
    if cnt != 0 && ext >= 4 && a.Some? {
      var d := ShiftCalc(a.value, cnt, size, ext);
      WrSilent(s.regs, s.g.(flags := ShiftFlags(s.g.flags, d, size)), rm, d.res, size, s.hasRex, next);
    }
  }

  lemma MultipliedSilent(g: Guest, reg: Reg, product: int, size: Size)
    ensures Multiplied(Silent(g), reg, product, size) == Silent(Multiplied(g, reg, product, size))
  {
    hide SetReg, FlagsLogic;
    SetSilent(g, reg, Wrap(product), size, false);
  }

  lemma ImulImmSilent(s: At, op: byte)
    ensures Same(StepImulImm(s, op), StepImulImm(SilentAt(s), op))
  {
    hide Modrm, Fixup, Rd, Sbytes, Signed, Multiplied;
    var m := Modrm(s.code, s.rip, s.n, s.rex, s.g.r);
    var imm := if op == 0x6b then Sbytes(s.code, s.rip, m.n, 1) else Sbytes(s.code, s.rip, m.n, 4);
    var next := Wrap(s.rip + m.n + if op == 0x6b then 1 else 4);
    RdSilent(s.regs, s.g, Fixup(m.o, next), s.size, s.hasRex);
    var a := Rd(s.regs, s.g, Fixup(m.o, next), s.size, s.hasRex);
    if a.Some? { MultipliedSilent(s.g, m.reg, Signed(a.value, s.size) * imm, s.size); }
  }

  lemma LeaSilent(s: At)
    ensures Same(StepLea(s), StepLea(SilentAt(s)))
  {
    hide Modrm, Fixup, SetReg;
    var m := Modrm(s.code, s.rip, s.n, s.rex, s.g.r);
    var o := Fixup(m.o, Wrap(s.rip + m.n));
    if o.AtMem? { SetSilent(s.g, m.reg, o.a, s.size, false); }
  }

  lemma StackSilent(s: At, op: byte)
    ensures Same(StepStack(s, op), StepStack(SilentAt(s), op))
  {
    hide Push, AccessOk, LoadSize, Wide;
    PushSilent(s.regs, s.g, Get(s.g.r, Wide(op % 8, RexB(s.rex))));
  }

  lemma JumpSilent(s: At, op: byte)
    ensures Same(StepJump(s, op), StepJump(SilentAt(s), op))
  {
    hide Push, AccessOk, LoadSize, Cond, Sbytes;
    var k: Size := if op == 0xe8 || op == 0xe9 then 4 else 1;
    PushSilent(s.regs, s.g, Wrap(s.rip + s.n + k));
  }

  lemma GoToSilent(regs: seq<Region>, g: Guest, rm: Opnd, rex: bool)
    ensures Same(GoTo(regs, g, rm, rex), GoTo(regs, Silent(g), rm, rex))
  {
    hide Rd;
    RdSilent(regs, g, rm, 8, rex);
  }

  /** What group 5 does with its operand once it is read. */
  function Group5On(s: At, ext: int, rm: Opnd, a: u64, size: Size, next: u64): Stepped {
    if ext == 0 then Ran(Operate(s.regs, s.g, AInc, rm, a, 1, size, s.hasRex, next))
    else if ext == 1 then Ran(Operate(s.regs, s.g, ADec, rm, a, 1, size, s.hasRex, next))
    else if ext == 2 then
      match Push(s.regs, s.g, next)
      case None => Ran(Fault)
      case Some(g) => GoTo(s.regs, g, rm, s.hasRex)
    else if ext == 4 then GoTo(s.regs, s.g, rm, s.hasRex)
    else Other
  }

  lemma Group5OnSilent(s: At, ext: int, rm: Opnd, a: u64, size: Size, next: u64)
    ensures Same(Group5On(s, ext, rm, a, size, next), Group5On(SilentAt(s), ext, rm, a, size, next))
  {
    hide Operate, Push, GoTo;
    GoToSilent(s.regs, s.g, rm, s.hasRex);
    PushSilent(s.regs, s.g, next);
    if Push(s.regs, s.g, next).Some? { GoToSilent(s.regs, Push(s.regs, s.g, next).value, rm, s.hasRex); }
    OperateSilent(s.regs, s.g, AInc, rm, a, 1, size, s.hasRex, next);
    OperateSilent(s.regs, s.g, ADec, rm, a, 1, size, s.hasRex, next);
  }

  lemma Group5Silent(s: At, op: byte)
    ensures Same(StepGroup5(s, op), StepGroup5(SilentAt(s), op))
  {
    hide Modrm, Fixup, Operate, Rd, Push, GoTo, RegOf, Byte;
    var size: Size := if op == 0xfe then 1 else s.size;
    var m := Modrm(s.code, s.rip, s.n, s.rex, s.g.r);
    var next := Wrap(s.rip + m.n);
    var rm := Fixup(m.o, next);
    RdSilent(s.regs, s.g, rm, size, s.hasRex);
    var a := Rd(s.regs, s.g, rm, size, s.hasRex);
    if a.Some? { Group5OnSilent(s, RegOf(Byte(s.code, s.rip, s.n)), rm, a.value, size, next); }
  }

  lemma SetccSilent(s: At)
    requires 0x90 <= Byte(s.code, s.rip, s.n) <= 0x9f
    ensures Same(StepTwo(s), StepTwo(SilentAt(s)))
  {
    hide Modrm, Fixup, Wr, Rd, Byte, Cond, Sbytes, Signed, Multiplied, SetReg, Sext;
    var m := Modrm(s.code, s.rip, s.n + 1, s.rex, s.g.r);
    var next := Wrap(s.rip + m.n);
    var v := if Cond(s.g.flags, Byte(s.code, s.rip, s.n) % 16) then 1 else 0;
    WrSilent(s.regs, s.g, Fixup(m.o, next), v, 1, s.hasRex, next);
  }

  lemma ImulSilent(s: At)
    requires Byte(s.code, s.rip, s.n) == 0xaf
    ensures Same(StepTwo(s), StepTwo(SilentAt(s)))
  {
    hide Modrm, Fixup, Wr, Rd, Byte, Cond, Sbytes, Signed, Multiplied, SetReg, Sext;
    var m := Modrm(s.code, s.rip, s.n + 1, s.rex, s.g.r);
    var rm := Fixup(m.o, Wrap(s.rip + m.n));
    RdSilent(s.regs, s.g, rm, s.size, s.hasRex);
    var a := Rd(s.regs, s.g, rm, s.size, s.hasRex);
    if a.Some? {
      MultipliedSilent(s.g, m.reg, Signed(Get(s.g.r, m.reg), s.size) * Signed(a.value, s.size), s.size);
    }
  }

  predicate IsMovx(op2: byte) { op2 == 0xb6 || op2 == 0xb7 || op2 == 0xbe || op2 == 0xbf }

  lemma MovxSilent(s: At)
    requires IsMovx(Byte(s.code, s.rip, s.n))
    ensures Same(StepTwo(s), StepTwo(SilentAt(s)))
  {
    hide Modrm, Fixup, Wr, Rd, Byte, Cond, Sbytes, Signed, Multiplied, SetReg, Sext;
    var op2 := Byte(s.code, s.rip, s.n);
    var m := Modrm(s.code, s.rip, s.n + 1, s.rex, s.g.r);
    var rm := Fixup(m.o, Wrap(s.rip + m.n));
    var from: Size := if op2 % 2 == 1 then 2 else 1;
    RdSilent(s.regs, s.g, rm, from, s.hasRex);
    var v := Rd(s.regs, s.g, rm, from, s.hasRex);
    if v.Some? { SetSilent(s.g, m.reg, if op2 >= 0xbe then Sext(v.value, from) else v.value, s.size, false); }
  }

  lemma PlainTwoSilent(s: At)
    requires var b := Byte(s.code, s.rip, s.n); !(0x90 <= b <= 0x9f) && b != 0xaf && !IsMovx(b)
    ensures Same(StepTwo(s), StepTwo(SilentAt(s)))
  {
    hide Modrm, Fixup, Wr, Rd, Byte, Cond, Sbytes, Signed, Multiplied, SetReg, Sext;
  }

  lemma TwoSilent(s: At)
    ensures Same(StepTwo(s), StepTwo(SilentAt(s)))
  {
    hide StepTwo, Same, Byte;
    var op2 := Byte(s.code, s.rip, s.n);
    if 0x90 <= op2 <= 0x9f {
      SetccSilent(s);
    } else if op2 == 0xaf {
      ImulSilent(s);
    } else if IsMovx(op2) {
      MovxSilent(s);
    } else {
      PlainTwoSilent(s);
    }
  }

  lemma OpSilent(s: At, op: byte)
    ensures Same(StepOp(s, op), StepOp(SilentAt(s), op))
  {
    hide StepRow, StepAcc, StepStack, StepImulImm, StepJump, StepImmGroup, StepLea, StepMovImm, StepShift, StepMovRmImm,
         StepGroup5, StepTwo, IsJump, IsShift;
    RowSilent(s, op);
    AccSilent(s, op);
    StackSilent(s, op);
    ImulImmSilent(s, op);
    JumpSilent(s, op);
    ImmGroupSilent(s, op);
    LeaSilent(s);
    MovImmSilent(s, op);
    ShiftSilent(s, op);
    MovRmImmSilent(s, op);
    Group5Silent(s, op);
    TwoSilent(s);
  }

  lemma StepSilent(regs: seq<Region>, code: Mem, rip: u64, g: Guest)
    ensures Same(Interpreter.Step(regs, code, rip, g), Interpreter.Step(regs, code, rip, Silent(g)))
  {
    hide Ok, StepOp, Prefixes, Byte;
    var d := Prefixes(code, rip, Dec(0, 4, 0, true), MAX_PREFIXES);
    if d.Some? {
      var b := Byte(code, rip, d.value.n);
      var rex: byte := if IsRex(b) then b else 0;
      var n := if IsRex(b) then d.value.n + 1 else d.value.n;
      var size: Size := if RexW(rex) then 8 else d.value.size;
      OpSilent(At(regs, code, rip, n + 1, rex, IsRex(b), size, g), Byte(code, rip, n));
    }
  }

  /** A run of the interpreter with a log and one without pass through the same states. */
  lemma {:induction false} InterpretSilent(regs: seq<Region>, code: Mem, rip: u64, g: Guest, n: nat)
    ensures Interpret(regs, code, rip, Silent(g), n) == SilentRes(Interpret(regs, code, rip, g, n))
    decreases n
  {
    hide Interpreter.Step;
    if n > 0 {
      StepSilent(regs, code, rip, g);
      match Interpreter.Step(regs, code, rip, g)
      case Ran(Done(g1, rip1)) => InterpretSilent(regs, code, rip1, g1, n - 1);
      case _ =>
    }
  }
}
