/** A step of the interpreter, whatever the opcode, makes at most one store and logs it. */
module StepStores {
  import opened Words
  import opened StatusFlags
  import opened Regions
  import opened GuestState
  import opened Insns
  import opened Decoder
  import opened Interpreter
  import opened Stores

  ghost predicate StepsOnce(regs: seq<Region>, g: Guest, s: Stepped) { s.Ran? ==> StoresOnce(regs, g, s.r) }

  lemma WrOnce(regs: seq<Region>, g: Guest, g1: Guest, o: Opnd, v: u64, size: Size, rex: bool, next: u64)
    requires SameMem(g, g1)
    ensures StoresOnce(regs, g, Wr(regs, g1, o, v, size, rex, next))
  {
    hide Store2, SetOperand, StoresOnce;
    match o
    case AtReg(r) =>
      WriteKeeps(g1, r, v, size, rex);
      QuietOnce(regs, g, SetOperand(g1, r, v, size, rex), next);
    case AtMem(a) => StoreOnce(regs, g, g1, a, v, size, next);
    case Pending(_) => FaultStores(regs, g);
  }

  lemma OperateOnce(regs: seq<Region>, g: Guest, op: Alu, dst: Opnd, a: u64, b: u64, size: Size, rex: bool, next: u64)
    ensures StoresOnce(regs, g, Operate(regs, g, op, dst, a, b, size, rex, next))
  {
    hide AluResult, AluFlags, Wr, StoresOnce;
    var r := AluResult(op, a, b);
    var g1 := g.(flags := AluFlags(g.flags, op, a, b, r, size));
    WrOnce(regs, g, g1, dst, r, size, rex, next);
    QuietOnce(regs, g, g1, next);
  }

  lemma RowOnce(s: At, op: byte)
    ensures StepsOnce(s.regs, s.g, StepRow(s, op))
  {
    hide Modrm, Fixup, Operate, Rd, RowAlu, StoresOnce;
    FaultStores(s.regs, s.g);
    var size: Size := if op % 2 == 0 then 1 else s.size;
    var toReg := (op / 2) % 2 == 1 && op != 0x84 && op != 0x85;
    var m := Modrm(s.code, s.rip, s.n, s.rex, s.g.r);
    var next := Wrap(s.rip + m.n);
    var rm := Fixup(m.o, next);
    var dst := if toReg then AtReg(m.reg) else rm;
    var src := if toReg then rm else AtReg(m.reg);
    var a, b := Rd(s.regs, s.g, dst, size, s.hasRex), Rd(s.regs, s.g, src, size, s.hasRex);
    if a.Some? && b.Some? { OperateOnce(s.regs, s.g, RowAlu(op), dst, a.value, b.value, size, s.hasRex, next); }
  }

  lemma ImmGroupOnce(s: At, op: byte)
    ensures StepsOnce(s.regs, s.g, StepImmGroup(s, op))
  {
    hide Modrm, Fixup, Operate, Rd, GroupAlu, StoresOnce, Sbytes, RegOf, Byte;
    FaultStores(s.regs, s.g);
    var size: Size := if op == 0x80 then 1 else s.size;
    var m := Modrm(s.code, s.rip, s.n, s.rex, s.g.r);
    var ext := RegOf(Byte(s.code, s.rip, s.n));
    var b := if op == 0x81 then Wrap(Sbytes(s.code, s.rip, m.n, 4)) else Wrap(Sbytes(s.code, s.rip, m.n, 1));
    var next := Wrap(s.rip + m.n + if op == 0x81 then 4 else 1);
    var rm := Fixup(m.o, next);
    var a := Rd(s.regs, s.g, rm, size, s.hasRex);
    if a.Some? { OperateOnce(s.regs, s.g, GroupAlu(ext), rm, a.value, b, size, s.hasRex, next); }
  }

  lemma MovRmImmOnce(s: At, op: byte)
    ensures StepsOnce(s.regs, s.g, StepMovRmImm(s, op))
  {
    hide Modrm, Fixup, Wr, StoresOnce, Sbytes, Byte;
    var size: Size := if op == 0xc6 then 1 else s.size;
    var m := Modrm(s.code, s.rip, s.n, s.rex, s.g.r);
    var v := if op == 0xc6 then Byte(s.code, s.rip, m.n) else Wrap(Sbytes(s.code, s.rip, m.n, 4));
    var next := Wrap(s.rip + m.n + if op == 0xc6 then 1 else 4);
    WrOnce(s.regs, s.g, s.g, Fixup(m.o, next), v, size, s.hasRex, next);
  }

  /** Steps that touch no memory. */
  predicate Quiet(s: At, r: Stepped) { r.Ran? && r.r.Done? ==> SameMem(s.g, r.r.g) }

  lemma QuietSteps(s: At, r: Stepped)
    requires Quiet(s, r)
    ensures StepsOnce(s.regs, s.g, r)
  {
    hide Store, LogWrite;
  }

  lemma AccOnce(s: At, op: byte)
    ensures Quiet(s, StepAcc(s, op))
  {
    hide AluResult, AluFlags, Bytes, Sbytes, WithLowByte, AccAlu;
  }

  lemma MovImmOnce(s: At, op: byte)
    ensures Quiet(s, StepMovImm(s, op))
  {
    hide Byte, Bytes, WithLowByte, WithHighByte, Wide;
  }

  lemma ShiftOnce(s: At, op: byte)
    ensures StepsOnce(s.regs, s.g, StepShift(s, op))
  {
    hide Modrm, Fixup, Wr, Rd, StoresOnce, Byte, RegOf, ShiftCalc, ShiftFlags;
    FaultStores(s.regs, s.g);
    var size: Size := if op % 2 == 0 then 1 else s.size;
    var m := Modrm(s.code, s.rip, s.n, s.rex, s.g.r);
    var ext := RegOf(Byte(s.code, s.rip, s.n));
    RegOfRange(Byte(s.code, s.rip, s.n));
    var raw := if op < 0xd0 then Byte(s.code, s.rip, m.n) else if op < 0xd2 then 1 else Get(s.g.r, RCX) % 0x100;
    var cnt := raw % (if size == 8 then 64 else 32);
    var next := Wrap(s.rip + m.n + if op < 0xd0 then 1 else 0);
    var rm := Fixup(m.o, next);
    QuietOnce(s.regs, s.g, s.g, next);
    var a := Rd(s.regs, s.g, rm, size, s.hasRex);
    if cnt != 0 && ext >= 4 && a.Some? {
      var d := ShiftCalc(a.value, cnt, size, ext);
      WrOnce(s.regs, s.g, s.g.(flags := ShiftFlags(s.g.flags, d, size)), rm, d.res, size, s.hasRex, next);
    }
  }

  lemma ImulImmOnce(s: At, op: byte)
    ensures Quiet(s, StepImulImm(s, op))
  {
    hide Modrm, Fixup, Rd, Sbytes, Signed, FlagsLogic, WithLowByte;
  }

  lemma LeaOnce(s: At)
    ensures Quiet(s, StepLea(s))
  {
    hide Modrm, Fixup, WithLowByte;
  }

  lemma StackOnce(s: At, op: byte)
    ensures StepsOnce(s.regs, s.g, StepStack(s, op))
  {
    hide Push, Ld, OneStore, Wide;
    var reg := Wide(op % 8, RexB(s.rex));
    PushOnce(s.regs, s.g, Get(s.g.r, reg));
    var v := Ld(s.regs, s.g, Get(s.g.r, RSP), 8);
    PopStores(s.regs, s.g, reg, if v.Some? then v.value else 0);
  }

  lemma JumpOnce(s: At, op: byte)
    ensures StepsOnce(s.regs, s.g, StepJump(s, op))
  {
    hide Push, Ld, OneStore, Cond, Sbytes;
    var k: Size := if op == 0xe8 || op == 0xe9 then 4 else 1;
    PushOnce(s.regs, s.g, Wrap(s.rip + s.n + k));
    PopStores(s.regs, s.g, 0, 0);
    SelfStore(s.regs, s.g);
  }

  lemma GoToOnce(regs: seq<Region>, g: Guest, g1: Guest, rm: Opnd, rex: bool)
    requires OneStore(regs, g, g1)
    ensures StepsOnce(regs, g, GoTo(regs, g1, rm, rex))
  {
    hide OneStore, Rd;
  }

  lemma Group5Once(s: At, op: byte)
    ensures StepsOnce(s.regs, s.g, StepGroup5(s, op))
  {
    hide Modrm, Fixup, Operate, Rd, Push, GoTo, OneStore, RegOf, Byte;
    var size: Size := if op == 0xfe then 1 else s.size;
    var m := Modrm(s.code, s.rip, s.n, s.rex, s.g.r);
    var next := Wrap(s.rip + m.n);
    var rm := Fixup(m.o, next);
    var a := Rd(s.regs, s.g, rm, size, s.hasRex);
    SelfStore(s.regs, s.g);
    GoToOnce(s.regs, s.g, s.g, rm, s.hasRex);
    PushOnce(s.regs, s.g, next);
    if Push(s.regs, s.g, next).Some? { GoToOnce(s.regs, s.g, Push(s.regs, s.g, next).value, rm, s.hasRex); }
    if a.Some? {
      OperateOnce(s.regs, s.g, AInc, rm, a.value, 1, size, s.hasRex, next);
      OperateOnce(s.regs, s.g, ADec, rm, a.value, 1, size, s.hasRex, next);
    }
  }

  predicate IsSetcc(s: At) { 0x90 <= Byte(s.code, s.rip, s.n) <= 0x9f }

  lemma SetccOnce(s: At)
    requires IsSetcc(s)
    ensures StepsOnce(s.regs, s.g, StepTwo(s))
  {
    hide Modrm, Fixup, Wr, StoresOnce, Byte, Cond;
    var m := Modrm(s.code, s.rip, s.n + 1, s.rex, s.g.r);
    var next := Wrap(s.rip + m.n);
    WrOnce(s.regs, s.g, s.g, Fixup(m.o, next),
      if Cond(s.g.flags, Byte(s.code, s.rip, s.n) % 16) then 1 else 0, 1, s.hasRex,
        next);
  }

  lemma TwoOnce(s: At)
    requires !IsSetcc(s)
    ensures Quiet(s, StepTwo(s))
  {
    hide Modrm, Fixup, Wr, Rd, Byte, Cond, Sbytes, Signed, FlagsLogic, WithLowByte, Sext;
  }

  lemma OpOnce(s: At, op: byte)
    ensures StepsOnce(s.regs, s.g, StepOp(s, op))
  {
    hide StepRow, StepAcc, StepStack, StepImulImm, StepJump, StepImmGroup, StepLea, StepMovImm, StepShift, StepMovRmImm,
        StepGroup5,
         StepTwo, Quiet, StepsOnce, IsSetcc, IsJump, IsShift;
    RowOnce(s, op);
    AccOnce(s, op);
    QuietSteps(s, StepAcc(s, op));
    StackOnce(s, op);
    ImulImmOnce(s, op);
    QuietSteps(s, StepImulImm(s, op));
    JumpOnce(s, op);
    ImmGroupOnce(s, op);
    LeaOnce(s);
    QuietSteps(s, StepLea(s));
    MovImmOnce(s, op);
    QuietSteps(s, StepMovImm(s, op));
    ShiftOnce(s, op);
    MovRmImmOnce(s, op);
    Group5Once(s, op);
    if IsSetcc(s) {
      SetccOnce(s);
    } else {
      TwoOnce(s);
      QuietSteps(s, StepTwo(s));
    }
    RestOnce(s);
  }

  lemma RestOnce(s: At)
    ensures StepsOnce(s.regs, s.g, Other) && StepsOnce(s.regs, s.g, Ran(Done(s.g, Wrap(s.rip + s.n))))
  {
    hide Store, LogWrite;
  }

  lemma StepOnce(regs: seq<Region>, code: Mem, rip: u64, g: Guest)
    ensures StepsOnce(regs, g, Interpreter.Step(regs, code, rip, g))
  {
    hide Ok, StepOp, StepsOnce, Prefixes, Byte;
    var d := Prefixes(code, rip, Dec(0, 4, 0, true), MAX_PREFIXES);
    IdleOnce(regs, g);
    if d.Some? {
      var b := Byte(code, rip, d.value.n);
      var rex: byte := if IsRex(b) then b else 0;
      var n := if IsRex(b) then d.value.n + 1 else d.value.n;
      var size: Size := if RexW(rex) then 8 else d.value.size;
      OpOnce(At(regs, code, rip, n + 1, rex, IsRex(b), size, g), Byte(code, rip, n));
    }
  }

  lemma IdleOnce(regs: seq<Region>, g: Guest)
    ensures StepsOnce(regs, g, Other) && StepsOnce(regs, g, Ran(Fault))
  {
  }

  /** A log stays on, or stays off. */
  lemma StepLog(regs: seq<Region>, code: Mem, rip: u64, g: Guest)
    ensures var s := Interpreter.Step(regs, code, rip, g);
      s.Ran? && s.r.Done? ==> s.r.g.log.On? == g.log.On?
  {
    hide Interpreter.Step, LoadSize, Window, Ok;
    StepOnce(regs, code, rip, g);
  }
}
