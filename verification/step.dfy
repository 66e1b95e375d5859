/** The interpreter's own decoding and execution of one instruction, from bytes in memory. */
module Interpreter {
  import opened Words
  import opened StatusFlags
  import opened Regions
  import opened GuestState
  import opened Insns
  import opened Decoder

  // --- operands ---------------------------------------------------------------------------------

  /** Pending is a RIP-relative address, waiting for the length of the instruction. */
  datatype Opnd = AtReg(reg: Reg) | AtMem(a: u64) | Pending(disp: int)

  /** The offset after the operand's bytes, the register field and the operand. */
  datatype Rm = Rm(n: nat, reg: Reg, o: Opnd)

  function Byte(code: Mem, rip: u64, n: nat): byte { Peek(code, rip + n) }

  function Bytes(code: Mem, rip: u64, n: nat, k: Size): nat { Load(code, rip + n, k) }

  function Sbytes(code: Mem, rip: u64, n: nat, k: Size): int { Signed(Bytes(code, rip, n, k), k) }

  /** ModRM, SIB and displacement, worked into an address as they are read. */
  function Modrm(code: Mem, rip: u64, n: nat, rex: byte, r: RegFile): Rm {
    var m := Byte(code, rip, n);
    var mod, reg := ModOf(m), RegField(m, rex);
    if mod == 3 then Rm(n + 1, reg, AtReg(RmField(m, rex)))
    else if m % 8 == 4 then
      var sib := Byte(code, rip, n + 1);
      var index := Wide(RegOf(sib), RexX(rex));
      var scaled := if index != 4 then Wrap(Scaled(Get(r, index), ModOf(sib))) else 0;
      if sib % 8 == 5 && mod == 0 then Rm(n + 6, reg, AtMem(Wrap(scaled + Sbytes(code, rip, n + 2, 4))))
      else WithDisp(code, rip, n + 2, mod, reg, Wrap(scaled + Get(r, RmField(sib, rex))))
    else if m % 8 == 5 && mod == 0 then Rm(n + 5, reg, Pending(Sbytes(code, rip, n + 1, 4)))
    else WithDisp(code, rip, n + 1, mod, reg, Get(r, RmField(m, rex)))
  }

  function WithDisp(code: Mem, rip: u64, n: nat, mod: int, reg: Reg, a: u64): Rm {
    if mod == 1 then Rm(n + 1, reg, AtMem(Wrap(a + Sbytes(code, rip, n, 1))))
    else if mod == 2 then Rm(n + 4, reg, AtMem(Wrap(a + Sbytes(code, rip, n, 4))))
    else Rm(n, reg, AtMem(a))
  }

  /** The displacement counts from the end of the instruction, immediates included. */
  function Fixup(o: Opnd, next: u64): Opnd {
    match o
    case Pending(d) => AtMem(Wrap(next + d))
    case _ => o
  }

  function Rd(regs: seq<Region>, g: Guest, o: Opnd, size: Size, rex: bool): Option<u64> {
    match o
    case AtReg(r) => Some(RegOperand(g, r, size, rex))
    case AtMem(a) => Ld(regs, g, a, size)
    case Pending(_) => None
  }

  function Wr(regs: seq<Region>, g: Guest, o: Opnd, v: u64, size: Size, rex: bool, next: u64): Res {
    match o
    case AtReg(r) => Done(SetOperand(g, r, v, size, rex), next)
    case AtMem(a) => Store2(regs, g, a, v, size, next)
    case Pending(_) => Fault
  }

  /** dst = a op b, with all the flags the operation sets. */
  function Operate(regs: seq<Region>, g: Guest, op: Alu, dst: Opnd, a: u64, b: u64, size: Size, rex: bool,
      next: u64): Res {
    var r := AluResult(op, a, b);
    var g1 := g.(flags := AluFlags(g.flags, op, a, b, r, size));
    if NoWrite(op) then Done(g1, next) else Wr(regs, g1, dst, r, size, rex, next)
  }

  // --- opcodes ------------------------------------------------------------------------------------

  /** Other: an opcode or prefix that is not part of this model. */
  datatype Stepped = Other | Ran(r: Res)

  /** The offset so far, the operand size and the prefixes. */
  datatype Dec = Dec(n: nat, size: Size, mand: byte, plain: bool)

  /** Prefixes are taken as they come, fewer than `fuel` of them; `plain` records that none of them moves an address. */
  function Prefixes(code: Mem, rip: u64, d: Dec, fuel: nat): Option<Dec>
    decreases fuel
  {
    if fuel == 0 then None
    else
      var b := Byte(code, rip, d.n);
      if b == 0x66 then Prefixes(code, rip, Dec(d.n + 1, 2, 0x66, d.plain), fuel - 1)
      else if b == 0xf2 || b == 0xf3 then Prefixes(code, rip, Dec(d.n + 1, d.size, b, d.plain), fuel - 1)
      else if b == 0x2e || b == 0x36 || b == 0x3e || b == 0x26 then
        Prefixes(code, rip, Dec(d.n + 1, d.size, d.mand, d.plain), fuel - 1)
      else if b == 0x64 || b == 0x65 || b == 0x67 then
        Prefixes(code, rip, Dec(d.n + 1, d.size, d.mand, false), fuel - 1)
      else Some(d)
  }

  /** What an opcode's case sees. */
  datatype At = At(regs: seq<Region>, code: Mem, rip: u64, n: nat, rex: byte, hasRex: bool, size: Size, g: Guest)

  function StepRow(s: At, op: byte): Stepped {
    if op < 0x40 && (op / 8 == 2 || op / 8 == 3) then Other
    else
      var size: Size := if op % 2 == 0 then 1 else s.size;
      var toReg := (op / 2) % 2 == 1 && op != 0x84 && op != 0x85;
      var m := Modrm(s.code, s.rip, s.n, s.rex, s.g.r);
      var next := Wrap(s.rip + m.n);
      var rm := Fixup(m.o, next);
      var dst := if toReg then AtReg(m.reg) else rm;
      var src := if toReg then rm else AtReg(m.reg);
      match Rd(s.regs, s.g, dst, size, s.hasRex)
      case None => Ran(Fault)
      case Some(a) =>
        match Rd(s.regs, s.g, src, size, s.hasRex)
        case None => Ran(Fault)
        case Some(b) => Ran(Operate(s.regs, s.g, RowAlu(op), dst, a, b, size, s.hasRex, next))
  }

  function StepImmGroup(s: At, op: byte): Stepped {
    var size: Size := if op == 0x80 then 1 else s.size;
    var m := Modrm(s.code, s.rip, s.n, s.rex, s.g.r);
    var ext := RegOf(Byte(s.code, s.rip, s.n));
    var b := if op == 0x81 then Wrap(Sbytes(s.code, s.rip, m.n, 4)) else Wrap(Sbytes(s.code, s.rip, m.n, 1));
    var next := Wrap(s.rip + m.n + if op == 0x81 then 4 else 1);
    var rm := Fixup(m.o, next);
    if ext == 2 || ext == 3 then Other
    else
      match Rd(s.regs, s.g, rm, size, s.hasRex)
      case None => Ran(Fault)
      case Some(a) => Ran(Operate(s.regs, s.g, GroupAlu(ext), rm, a, b, size, s.hasRex, next))
  }

  function StepMovRmImm(s: At, op: byte): Stepped {
    var size: Size := if op == 0xc6 then 1 else s.size;
    var m := Modrm(s.code, s.rip, s.n, s.rex, s.g.r);
    var v := if op == 0xc6 then Byte(s.code, s.rip, m.n) else Wrap(Sbytes(s.code, s.rip, m.n, 4));
    var next := Wrap(s.rip + m.n + if op == 0xc6 then 1 else 4);
    Ran(Wr(s.regs, s.g, Fixup(m.o, next), v, size, s.hasRex, next))
  }

  /** The accumulator is read and written without regard to ah..bh. */
  function StepAcc(s: At, op: byte): Stepped {
    if op < 0x40 && (op / 8 == 2 || op / 8 == 3) then Other
    else
      var size: Size := if op % 2 == 0 then 1 else s.size;
      var k: Size := if size == 1 then 1 else if size == 2 then 2 else 4;
      var b := if size == 4 || size == 8 then Wrap(Sbytes(s.code, s.rip, s.n, 4))
               else Wrap(Bytes(s.code, s.rip, s.n, size));
      var next := Wrap(s.rip + s.n + k);
      var a := Trunc(Get(s.g.r, 0), size);
      var op := AccAlu(op);
      var r := AluResult(op, a, b);
      var g1 := s.g.(flags := AluFlags(s.g.flags, op, a, b, r, size));
      Ran(Done(if NoWrite(op) then g1 else SetReg(g1, 0, r, size), next))
  }

  function StepMovImm(s: At, op: byte): Stepped {
    var reg := Wide(op % 8, RexB(s.rex));
    if op < 0xb8 then
      Ran(Done(SetReg8(s.g, reg, Byte(s.code, s.rip, s.n), s.hasRex), Wrap(s.rip + s.n + 1)))
    else
      var k: Size := if s.size == 8 then 8 else if s.size == 2 then 2 else 4;
      Ran(Done(SetReg(s.g, reg, Wrap(Bytes(s.code, s.rip, s.n, k)), s.size), Wrap(s.rip + s.n + k)))
  }

  function StepShift(s: At, op: byte): Stepped {
    var size: Size := if op % 2 == 0 then 1 else s.size;
    var m := Modrm(s.code, s.rip, s.n, s.rex, s.g.r);
    var ext := RegOf(Byte(s.code, s.rip, s.n));
    var raw := if op < 0xd0 then Byte(s.code, s.rip, m.n) else if op < 0xd2 then 1 else Get(s.g.r, RCX) % 0x100;
    var cnt := raw % (if size == 8 then 64 else 32);
    var next := Wrap(s.rip + m.n + if op < 0xd0 then 1 else 0);
    var rm := Fixup(m.o, next);
    if cnt == 0 then Ran(Done(s.g, next))
    else if ext < 4 then Ran(Fault)
    else
      match Rd(s.regs, s.g, rm, size, s.hasRex)
      case None => Ran(Fault)
      case Some(a) =>
        var d := ShiftCalc(a, cnt, size, ext);
        Ran(Wr(s.regs, s.g.(flags := ShiftFlags(s.g.flags, d, size)), rm, d.res, size, s.hasRex, next))
  }

  function StepImulImm(s: At, op: byte): Stepped {
    var m := Modrm(s.code, s.rip, s.n, s.rex, s.g.r);
    var imm := if op == 0x6b then Sbytes(s.code, s.rip, m.n, 1) else Sbytes(s.code, s.rip, m.n, 4);
    var next := Wrap(s.rip + m.n + if op == 0x6b then 1 else 4);
    match Rd(s.regs, s.g, Fixup(m.o, next), s.size, s.hasRex)
    case None => Ran(Fault)
    case Some(a) => Ran(Done(Multiplied(s.g, m.reg, Signed(a, s.size) * imm, s.size), next))
  }

  function Multiplied(g: Guest, reg: Reg, product: int, size: Size): Guest {
    var r := Wrap(product);
    var g1 := SetReg(g, reg, r, size);
    g1.(flags := FlagsLogic(g1.flags, r, size))
  }

  function StepLea(s: At): Stepped {
    var m := Modrm(s.code, s.rip, s.n, s.rex, s.g.r);
    var next := Wrap(s.rip + m.n);
    match Fixup(m.o, next)
    case AtMem(a) => Ran(Done(SetReg(s.g, m.reg, a, s.size), next))
    case _ => Ran(Fault)
  }

  function StepStack(s: At, op: byte): Stepped {
    var reg, next := Wide(op % 8, RexB(s.rex)), Wrap(s.rip + s.n);
    if op < 0x58 then
      (match Push(s.regs, s.g, Get(s.g.r, reg))
       case None => Ran(Fault)
       case Some(g) => Ran(Done(g, next)))
    else
      match Ld(s.regs, s.g, Get(s.g.r, RSP), 8)
      case None => Ran(Fault)
      case Some(v) => var g := PopSp(s.g); Ran(Done(g.(r := g.r[reg := v]), next))
  }

  /** jcc, jmp, call and ret; rip is moved to the next instruction first. */
  function StepJump(s: At, op: byte): Stepped {
    if op == 0xc3 then
      (match Ld(s.regs, s.g, Get(s.g.r, RSP), 8)
       case None => Ran(Fault)
       case Some(v) => Ran(Done(PopSp(s.g), v)))
    else
      var k: Size := if op == 0xe8 || op == 0xe9 then 4 else 1;
      var rel, next := Sbytes(s.code, s.rip, s.n, k), Wrap(s.rip + s.n + k);
      if op == 0xe8 then
        match Push(s.regs, s.g, next)
        case None => Ran(Fault)
        case Some(g) => Ran(Done(g, Wrap(next + rel)))
      else if op == 0xe9 || op == 0xeb then Ran(Done(s.g, Wrap(next + rel)))
      else Ran(Done(s.g, if Cond(s.g.flags, op % 16) then Wrap(next + rel) else next))
  }

  /** The operand is read at the operand size before the group is told apart. */
  function StepGroup5(s: At, op: byte): Stepped {
    var size: Size := if op == 0xfe then 1 else s.size;
    var m := Modrm(s.code, s.rip, s.n, s.rex, s.g.r);
    var ext, next := RegOf(Byte(s.code, s.rip, s.n)), Wrap(s.rip + m.n);
    var rm := Fixup(m.o, next);
    match Rd(s.regs, s.g, rm, size, s.hasRex)
    case None => Ran(Fault)
    case Some(a) =>
      if ext == 0 then Ran(Operate(s.regs, s.g, AInc, rm, a, 1, size, s.hasRex, next))
      else if ext == 1 then Ran(Operate(s.regs, s.g, ADec, rm, a, 1, size, s.hasRex, next))
      else if ext == 2 then
        match Push(s.regs, s.g, next)
        case None => Ran(Fault)
        case Some(g) => GoTo(s.regs, g, rm, s.hasRex)
      else if ext == 4 then GoTo(s.regs, s.g, rm, s.hasRex)
      else Other
  }

  function GoTo(regs: seq<Region>, g: Guest, rm: Opnd, rex: bool): Stepped {
    match Rd(regs, g, rm, 8, rex)
    case None => Ran(Fault)
    case Some(t) => Ran(Done(g, t))
  }

  function StepTwo(s: At): Stepped {
    var op2 := Byte(s.code, s.rip, s.n);
    if op2 == 0x1e || op2 == 0x1f then
      Ran(Done(s.g, Wrap(s.rip + Modrm(s.code, s.rip, s.n + 1, s.rex, s.g.r).n)))
    else if 0x80 <= op2 <= 0x8f then
      var next := Wrap(s.rip + s.n + 5);
      Ran(Done(s.g, if Cond(s.g.flags, op2 % 16) then Wrap(next + Sbytes(s.code, s.rip, s.n + 1, 4)) else next))
    else if 0x90 <= op2 <= 0x9f then
      var m := Modrm(s.code, s.rip, s.n + 1, s.rex, s.g.r);
      var next := Wrap(s.rip + m.n);
      Ran(Wr(s.regs, s.g, Fixup(m.o, next), if Cond(s.g.flags, op2 % 16) then 1 else 0, 1, s.hasRex, next))
    else if op2 == 0xaf then
      var m := Modrm(s.code, s.rip, s.n + 1, s.rex, s.g.r);
      var next := Wrap(s.rip + m.n);
      match Rd(s.regs, s.g, Fixup(m.o, next), s.size, s.hasRex)
      case None => Ran(Fault)
      case Some(a) =>
        Ran(Done(Multiplied(s.g, m.reg, Signed(Get(s.g.r, m.reg), s.size) * Signed(a, s.size), s.size), next))
    else if op2 == 0xb6 || op2 == 0xb7 || op2 == 0xbe || op2 == 0xbf then
      var m := Modrm(s.code, s.rip, s.n + 1, s.rex, s.g.r);
      var next := Wrap(s.rip + m.n);
      var from: Size := if op2 % 2 == 1 then 2 else 1;
      match Rd(s.regs, s.g, Fixup(m.o, next), from, s.hasRex)
      case None => Ran(Fault)
      case Some(v) => Ran(Done(SetReg(s.g, m.reg, if op2 >= 0xbe then Sext(v, from) else v, s.size), next))
    else Other
  }

  function StepOp(s: At, op: byte): Stepped {
    if (op < 0x40 && op % 8 < 4) || op == 0x84 || op == 0x85 || 0x88 <= op <= 0x8b then StepRow(s, op)
    else if (op < 0x40 && (op % 8 == 4 || op % 8 == 5)) || op == 0xa8 || op == 0xa9 then StepAcc(s, op)
    else if 0x50 <= op <= 0x5f then StepStack(s, op)
    else if op == 0x69 || op == 0x6b then StepImulImm(s, op)
    else if IsJump(op) then StepJump(s, op)
    else if op == 0x80 || op == 0x81 || op == 0x83 then StepImmGroup(s, op)
    else if op == 0x8d then StepLea(s)
    else if op == 0x90 then Ran(Done(s.g, Wrap(s.rip + s.n)))
    else if 0xb0 <= op <= 0xbf then StepMovImm(s, op)
    else if IsShift(op) then StepShift(s, op)
    else if op == 0xc6 || op == 0xc7 then StepMovRmImm(s, op)
    else if op == 0xfe || op == 0xff then StepGroup5(s, op)
    else if op == 0x0f then StepTwo(s)
    else Other
  }

  const MAX_PREFIXES := 15

  /** One interpreter step at rip, over code bytes that stay as they are: a fault where the first of them may
      not be executed. */
  function Step(regs: seq<Region>, code: Mem, rip: u64, g: Guest): Stepped {
    if !Ok(regs, rip, 1, EXEC) then Ran(Fault) else StepBytes(regs, code, rip, g)
  }

  function StepBytes(regs: seq<Region>, code: Mem, rip: u64, g: Guest): Stepped {
    match Prefixes(code, rip, Dec(0, 4, 0, true), MAX_PREFIXES)
    case None => Other
    case Some(d) =>
      if !d.plain then Other
      else
        var b := Byte(code, rip, d.n);
        var rex: byte := if IsRex(b) then b else 0;
        var n := if IsRex(b) then d.n + 1 else d.n;
        var size: Size := if RexW(rex) then 8 else d.size;
        StepOp(At(regs, code, rip, n + 1, rex, IsRex(b), size, g), Byte(code, rip, n))
  }
}
