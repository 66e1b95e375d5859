/** The emitting routines, word by word and patch by patch, against the code they are to leave behind. */
module Emitter {
  import opened Words
  import opened StatusFlags
  import opened GuestState
  import opened Insns
  import opened A64
  import opened CodeGen
  import opened OutputBuffer

  // --- composition ------------------------------------------------------------------------------

  lemma Add3(t: Text, a: seq<Instr>, b: seq<Instr>, c: seq<Instr>, max: nat)
    ensures t.Add(a, max).Add(b, max).Add(c, max) == t.Add(a + b + c, max)
  {
    hide Text.Add;
    AddAdd(t, a, b, max);
    AddAdd(t, a + b, c, max);
  }

  lemma Add4(t: Text, a: seq<Instr>, b: seq<Instr>, c: seq<Instr>, d: seq<Instr>, max: nat)
    ensures t.Add(a, max).Add(b, max).Add(c, max).Add(d, max) == t.Add(a + b + c + d, max)
  {
    hide Text.Add;
    Add3(t, a, b, c, max);
    AddAdd(t, a + b + c, d, max);
  }

  lemma Words2(t: Text, a: Instr, b: Instr, max: nat)
    ensures t.Add([a], max).Add([b], max) == t.Add([a, b], max)
  {
    hide Text.Add;
    AddAdd(t, [a], [b], max);
    assert [a] + [b] == [a, b];
  }

  lemma Words3(t: Text, a: Instr, b: Instr, c: Instr, max: nat)
    ensures t.Add([a], max).Add([b], max).Add([c], max) == t.Add([a, b, c], max)
  {
    hide Text.Add;
    Words2(t, a, b, max);
    AddAdd(t, [a, b], [c], max);
    assert [a, b] + [c] == [a, b, c];
  }

  lemma Words4(t: Text, a: Instr, b: Instr, c: Instr, d: Instr, max: nat)
    ensures t.Add([a], max).Add([b], max).Add([c], max).Add([d], max) == t.Add([a, b, c, d], max)
  {
    hide Text.Add;
    Words3(t, a, b, c, max);
    AddAdd(t, [a, b, c], [d], max);
    assert [a, b, c] + [d] == [a, b, c, d];
  }

  lemma Words5(t: Text, a: Instr, b: Instr, c: Instr, d: Instr, e: Instr, max: nat)
    ensures t.Add([a], max).Add([b], max).Add([c], max).Add([d], max).Add([e], max) == t.Add([a, b, c, d, e], max)
  {
    hide Text.Add;
    Words4(t, a, b, c, d, max);
    AddAdd(t, [a, b, c, d], [e], max);
    assert [a, b, c, d] + [e] == [a, b, c, d, e];
  }

  lemma ValidText(b: Buffer)
    requires b.Valid()
    ensures b.Emitted().Add([], b.max) == b.Emitted()
  {
    AddNothing(b.Emitted(), b.max);
  }

  // --- small pieces --------------------------------------------------------------------------------

  method EmitImm(b: Buffer, reg: int, v: u64)
    requires b.Valid()
    modifies b, b.out, b.fix
    ensures b.Valid() && b.max == old(b.max) && b.Emitted() == old(b.Emitted()).Add(PutImm(reg, v), b.max)
  {
    hide Text.Add;
    ghost var t := b.Emitted();
    ghost var c0, c1 := [Set(reg, MovZ(v % 0x1_0000, 0))], [Set(reg, MovK(v / 0x1_0000 % 0x1_0000, 1))];
    ghost var c2, c3 := [Set(reg, MovK(v / 0x1_0000_0000 % 0x1_0000, 2))], [Set(reg, MovK(v / 0x1_0000_0000_0000, 3))];
    b.Put(Set(reg, MovZ(v % 0x1_0000, 0)));
    ValidText(b);
    if v / 0x1_0000 != 0 { b.Put(Set(reg, MovK(v / 0x1_0000 % 0x1_0000, 1))); } else { c1 := []; }
    ValidText(b);
    if v / 0x1_0000_0000 != 0 { b.Put(Set(reg, MovK(v / 0x1_0000_0000 % 0x1_0000, 2))); } else { c2 := []; }
    ValidText(b);
    if v / 0x1_0000_0000_0000 != 0 { b.Put(Set(reg, MovK(v / 0x1_0000_0000_0000, 3))); } else { c3 := []; }
    Add4(t, c0, c1, c2, c3, b.max);
  }

  method EmitCall(b: Buffer, fn: u64)
    requires b.Valid()
    modifies b, b.out, b.fix
    ensures b.Valid() && b.max == old(b.max) && b.Emitted() == old(b.Emitted()).Add(PutCall(fn), b.max)
  {
    hide Text.Add, PutImm;
    ghost var t := b.Emitted();
    EmitImm(b, 9, fn);
    b.Put(Blr(9));
    AddAdd(t, PutImm(9, fn), [Blr(9)], b.max);
  }

  method EmitSetRip(b: Buffer, rip: u64)
    requires b.Valid()
    modifies b, b.out, b.fix
    ensures b.Valid() && b.max == old(b.max) && b.Emitted() == old(b.Emitted()).Add(PutSetRip(rip), b.max)
  {
    hide Text.Add, PutImm;
    ghost var t := b.Emitted();
    EmitImm(b, 9, rip);
    b.Put(Str(8, 9, CPU, OFF_CURRIP));
    AddAdd(t, PutImm(9, rip), [Str(8, 9, CPU, OFF_CURRIP)], b.max);
  }

  method EmitFaultCheck(b: Buffer)
    requires b.Valid()
    modifies b, b.out, b.fix
    ensures b.Valid() && b.max == old(b.max) && b.Emitted() == old(b.Emitted()).Add(PutFaultCheck(), b.max)
  {
    hide Text.Add;
    ghost var t := b.Emitted();
    b.Put(Ldr(1, 9, CPU, OFF_RUNNING));
    b.PutFaultBranch();
    Words2(t, Ldr(1, 9, CPU, OFF_RUNNING), CbzW(9, 0), b.max);
  }

  method EmitLeave(b: Buffer)
    requires b.Valid()
    modifies b, b.out, b.fix
    ensures b.Valid() && b.max == old(b.max) && b.Emitted() == old(b.Emitted()).Add(PutLeave(), b.max)
  {
    hide Text.Add;
    ghost var t := b.Emitted();
    b.Put(PopX(LR));
    b.Put(Ret);
    Words2(t, PopX(LR), Ret, b.max);
  }

  // --- conditions and registers -------------------------------------------------------------------

  method EmitCondEven(b: Buffer, cc: CondCode)
    requires b.Valid()
    modifies b, b.out, b.fix
    ensures b.Valid() && b.max == old(b.max) && b.Emitted() == old(b.Emitted()).Add(PutCondEven(cc), b.max)
  {
    hide Text.Add;
    ghost var t := b.Emitted();
    b.Put(Ldr(4, 9, CPU, OFF_FLAGS));
    EmitCondBits(b, cc);
    b.Put(Cmp0(0));
    Add3(t, [Ldr(4, 9, CPU, OFF_FLAGS)], CondBits(cc), [Cmp0(0)], b.max);
  }

  method EmitCondBits(b: Buffer, cc: CondCode)
    requires b.Valid()
    modifies b, b.out, b.fix
    ensures b.Valid() && b.max == old(b.max) && b.Emitted() == old(b.Emitted()).Add(CondBits(cc), b.max)
  {
    hide Text.Add;
    ghost var t := b.Emitted();
    match cc / 2
    case 0 => b.Put(Set(0, Ubfx(9, 11, 1)));
    case 1 => b.Put(Set(0, Ubfx(9, 0, 1)));
    case 2 => b.Put(Set(0, Ubfx(9, 6, 1)));
    case 3 => EmitTwoBits(b, 0, 6, OpOrr);
    case 4 => b.Put(Set(0, Ubfx(9, 7, 1)));
    case 5 => b.Put(Set(0, Ubfx(9, 2, 1)));
    case 6 => EmitTwoBits(b, 7, 11, OpEor);
    case _ =>
      EmitTwoBits(b, 7, 11, OpEor);
      b.Put(Set(10, Ubfx(9, 6, 1)));
      b.Put(Set(0, Arith(OpOrr, false, 0, 10)));
      Add3(t, [Set(0, Ubfx(9, 7, 1)), Set(10, Ubfx(9, 11, 1)), Set(0, Arith(OpEor, false, 0, 10))],
           [Set(10, Ubfx(9, 6, 1))], [Set(0, Arith(OpOrr, false, 0, 10))], b.max);
      assert CondBits(cc) == [Set(0, Ubfx(9, 7, 1)), Set(10, Ubfx(9, 11, 1)), Set(0, Arith(OpEor, false, 0, 10))]
        + [Set(10, Ubfx(9, 6, 1))] + [Set(0, Arith(OpOrr, false, 0, 10))];
  }

  method EmitTwoBits(b: Buffer, i: int, j: int, op: Op3)
    requires b.Valid()
    modifies b, b.out, b.fix
    ensures b.Valid() && b.max == old(b.max)
        && b.Emitted() == old(b.Emitted()).Add([Set(0, Ubfx(9, i, 1)), Set(10, Ubfx(9, j, 1)),
        Set(0, Arith(op, false, 0, 10))], b.max)
  {
    hide Text.Add;
    ghost var t := b.Emitted();
    b.Put(Set(0, Ubfx(9, i, 1)));
    b.Put(Set(10, Ubfx(9, j, 1)));
    b.Put(Set(0, Arith(op, false, 0, 10)));
    Words3(t, Set(0, Ubfx(9, i, 1)), Set(10, Ubfx(9, j, 1)), Set(0, Arith(op, false, 0, 10)), b.max);
  }

  method EmitRdReg(b: Buffer, dst: int, o: Insn, reg: Reg, size: Size)
    requires b.Valid()
    modifies b, b.out, b.fix
    ensures b.Valid() && b.max == old(b.max) && b.Emitted() == old(b.Emitted()).Add(PutRdReg(dst, o, reg, size), b.max)
  {
    hide Text.Add;
    ghost var t := b.Emitted();
    if size == 1 && HighByte(reg, o.hasRex) {
      b.Put(Ldr(8, dst, CPU, OffR(reg - 4)));
      b.Put(Set(dst, Ubfx(dst, 8, 8)));
      Words2(t, Ldr(8, dst, CPU, OffR(reg - 4)), Set(dst, Ubfx(dst, 8, 8)), b.max);
    } else {
      b.Put(Ldr(8, dst, CPU, OffR(reg)));
    }
  }

  method EmitWrReg(b: Buffer, src: int, o: Insn, reg: Reg, size: Size)
    requires b.Valid()
    modifies b, b.out, b.fix
    ensures b.Valid() && b.max == old(b.max) && b.Emitted() == old(b.Emitted()).Add(PutWrReg(src, o, reg, size), b.max)
  {
    hide Text.Add;
    ghost var t := b.Emitted();
    if size == 1 {
      if HighByte(reg, o.hasRex) {
        b.Put(Ldr(8, 9, CPU, OffR(reg - 4)));
        b.Put(Set(9, Bfi(src, 8, 8)));
        b.Put(Str(8, 9, CPU, OffR(reg - 4)));
        Words3(t, Ldr(8, 9, CPU, OffR(reg - 4)), Set(9, Bfi(src, 8, 8)), Str(8, 9, CPU, OffR(reg - 4)), b.max);
      } else {
        b.Put(Str(1, src, CPU, OffR(reg)));
      }
    } else {
      b.Put(Str(8, src, CPU, OffR(reg)));
    }
  }

  method EmitDisp(b: Buffer, disp: int)
    requires b.Valid()
    modifies b, b.out, b.fix
    ensures b.Valid() && b.max == old(b.max) && b.Emitted() == old(b.Emitted()).Add(PutDisp(disp), b.max)
  {
    hide Text.Add, PutImm;
    ghost var t := b.Emitted();
    ValidText(b);
    if 0 < disp < 4096 {
      b.Put(Set(1, AddImm(1, disp)));
    } else if -4096 < disp < 0 {
      b.Put(Set(1, SubImm(1, -disp)));
    } else if disp != 0 {
      EmitImm(b, 6, Wrap(disp));
      b.Put(Set(1, Arith(OpAdd, false, 1, 6)));
      AddAdd(t, PutImm(6, Wrap(disp)), [Set(1, Arith(OpAdd, false, 1, 6))], b.max);
    }
  }

  method EmitEa(b: Buffer, o: Insn)
    requires b.Valid()
    modifies b, b.out, b.fix
    ensures b.Valid() && b.max == old(b.max) && b.Emitted() == old(b.Emitted()).Add(PutEa(o), b.max)
  {
    hide Text.Add, PutImm, PutDisp;
    if o.riprel {
      EmitImm(b, 1, Wrap(o.next + o.disp));
    } else if !o.hasBase && !o.hasIndex {
      EmitImm(b, 1, Wrap(o.disp));
    } else {
      ghost var t := b.Emitted();
      ghost var base := if o.hasBase then [Ldr(8, 1, CPU, OffR(o.base))] else [Set(1, MovZ(0, 0))];
      ghost var index := if o.hasIndex then [Ldr(8, 6, CPU, OffR(o.index)), Set(1, AddLsl(1, 6, o.scale))] else [];
      if o.hasBase { b.Put(Ldr(8, 1, CPU, OffR(o.base))); } else { b.Put(Set(1, MovZ(0, 0))); }
      ValidText(b);
      if o.hasIndex {
        ghost var t1 := b.Emitted();
        b.Put(Ldr(8, 6, CPU, OffR(o.index)));
        b.Put(Set(1, AddLsl(1, 6, o.scale)));
        Words2(t1, Ldr(8, 6, CPU, OffR(o.index)), Set(1, AddLsl(1, 6, o.scale)), b.max);
      }
      EmitDisp(b, o.disp);
      Add3(t, base, index, PutDisp(o.disp), b.max);
    }
  }

  /** The operation; the flag routine it needs is FlagHelper's answer. */
  method EmitOp(b: Buffer, o: Insn) returns (fn: Option<Helper>)
    requires b.Valid()
    modifies b, b.out, b.fix
    ensures b.Valid() && b.max == old(b.max) && b.Emitted() == old(b.Emitted()).Add([PutOp(o)], b.max)
    ensures fn == FlagHelper(o.op)
  {
    b.Put(PutOp(o));
    fn := FlagHelper(o.op);
  }

  // --- flags ------------------------------------------------------------------------------------------

  /** One flag gathered from a condition, if it is wanted. */
  method EmitGather(b: Buffer, wanted: bool, cond: int, bit: int)
    requires b.Valid()
    modifies b, b.out, b.fix
    ensures b.Valid() && b.max == old(b.max)
        && b.Emitted() == old(b.Emitted()).Add(When(wanted, Gather(cond, bit)), b.max)
  {
    hide Text.Add;
    ghost var t := b.Emitted();
    ValidText(b);
    if wanted {
      b.Put(Set(11, Cset(cond)));
      b.Put(Set(10, OrrLsl(10, 11, bit)));
      Words2(t, Set(11, Cset(cond)), Set(10, OrrLsl(10, 11, bit)), b.max);
    }
  }

  method EmitParity(b: Buffer, wanted: bool)
    requires b.Valid()
    modifies b, b.out, b.fix
    ensures b.Valid() && b.max == old(b.max) && b.Emitted() == old(b.Emitted()).Add(When(wanted, ParityCode()), b.max)
  {
    hide Text.Add;
    ghost var t := b.Emitted();
    ValidText(b);
    if wanted {
      b.Put(Set(11, EorLsr(3, 3, 4)));
      b.Put(Set(11, EorLsr(11, 11, 2)));
      b.Put(Set(11, EorLsr(11, 11, 1)));
      Words3(t, Set(11, EorLsr(3, 3, 4)), Set(11, EorLsr(11, 11, 2)), Set(11, EorLsr(11, 11, 1)), b.max);
      ghost var t1 := b.Emitted();
      b.Put(Set(11, Ubfx(11, 0, 1)));
      b.Put(Set(11, EorBit(11, 0)));
      b.Put(Set(10, OrrLsl(10, 11, 2)));
      Words3(t1, Set(11, Ubfx(11, 0, 1)), Set(11, EorBit(11, 0)), Set(10, OrrLsl(10, 11, 2)), b.max);
      AddAdd(t, [Set(11, EorLsr(3, 3, 4)), Set(11, EorLsr(11, 11, 2)), Set(11, EorLsr(11, 11, 1))],
             [Set(11, Ubfx(11, 0, 1)), Set(11, EorBit(11, 0)), Set(10, OrrLsl(10, 11, 2))], b.max);
    }
  }

  method EmitNibble(b: Buffer, wanted: bool)
    requires b.Valid()
    modifies b, b.out, b.fix
    ensures b.Valid() && b.max == old(b.max) && b.Emitted() == old(b.Emitted()).Add(When(wanted, NibbleCode()), b.max)
  {
    hide Text.Add;
    ghost var t := b.Emitted();
    ValidText(b);
    if wanted {
      b.Put(Set(11, Arith(OpEor, false, 1, 2)));
      b.Put(Set(11, Arith(OpEor, false, 11, 3)));
      b.Put(Set(11, Ubfx(11, 4, 1)));
      b.Put(Set(10, OrrLsl(10, 11, 4)));
      Words4(t, Set(11, Arith(OpEor, false, 1, 2)), Set(11, Arith(OpEor, false, 11, 3)), Set(11, Ubfx(11, 4, 1)),
             Set(10, OrrLsl(10, 11, 4)), b.max);
      assert NibbleCode() == [Set(11, Arith(OpEor, false, 1, 2)), Set(11, Arith(OpEor, false, 11, 3)),
          Set(11, Ubfx(11, 4, 1)),
             Set(10, OrrLsl(10, 11, 4))];
    }
  }

  method EmitMerge(b: Buffer, need: FlagSet)
    requires b.Valid()
    modifies b, b.out, b.fix
    ensures b.Valid() && b.max == old(b.max) && b.Emitted() == old(b.Emitted()).Add(MergeCode(need), b.max)
  {
    hide Text.Add, PutImm, FlagSet.Mask;
    ghost var t := b.Emitted();
    b.Put(Ldr(4, 9, CPU, OFF_FLAGS));
    EmitImm(b, 12, need.Mask());
    ghost var t1 := b.Emitted();
    b.Put(Set(9, Arith(OpBic, false, 9, 12)));
    b.Put(Set(9, Arith(OpOrr, false, 9, 10)));
    b.Put(Str(4, 9, CPU, OFF_FLAGS));
    Words3(t1, Set(9, Arith(OpBic, false, 9, 12)), Set(9, Arith(OpOrr, false, 9, 10)), Str(4, 9, CPU, OFF_FLAGS),
        b.max);
    Add3(t, [Ldr(4, 9, CPU, OFF_FLAGS)], PutImm(12, need.Mask()),
         [Set(9, Arith(OpBic, false, 9, 12)), Set(9, Arith(OpOrr, false, 9, 10)), Str(4, 9, CPU, OFF_FLAGS)], b.max);
  }

  method EmitGatherAll(b: Buffer, fn: Helper, need: FlagSet)
    requires b.Valid()
    modifies b, b.out, b.fix
    ensures b.Valid() && b.max == old(b.max) && b.Emitted() == old(b.Emitted()).Add(GatherCode(fn, need), b.max)
  {
    hide Text.Add, Gather, When;
    ghost var t := b.Emitted();
    var logic := fn.HLogic?;
    EmitGather(b, need.cf && !logic, CarryCond(fn), 0);
    EmitGather(b, need.zf, EQ, 6);
    EmitGather(b, need.sf, MI, 7);
    EmitGather(b, need.of && !logic, VS, 11);
    Add4(t, When(need.cf && !logic, Gather(CarryCond(fn), 0)), When(need.zf, Gather(EQ, 6)),
         When(need.sf, Gather(MI, 7)), When(need.of && !logic, Gather(VS, 11)), b.max);
  }

  method EmitFinish(b: Buffer, need: FlagSet)
    requires b.Valid()
    modifies b, b.out, b.fix
    ensures b.Valid() && b.max == old(b.max) && b.Emitted() == old(b.Emitted()).Add(FinishCode(need), b.max)
  {
    hide Text.Add, ParityCode, NibbleCode, MergeCode;
    ghost var t := b.Emitted();
    EmitParity(b, need.pf);
    EmitNibble(b, need.af);
    EmitMerge(b, need);
    Add3(t, When(need.pf, ParityCode()), When(need.af, NibbleCode()), MergeCode(need), b.max);
  }

  method EmitFlagsInline(b: Buffer, fn: Helper, need: FlagSet, w: bool)
    requires b.Valid()
    modifies b, b.out, b.fix
    ensures b.Valid() && b.max == old(b.max) && b.Emitted() == old(b.Emitted()).Add(PutFlagsInline(fn, need, w), b.max)
  {
    hide Text.Add, GatherCode, FinishCode, Repeat;
    ghost var t := b.Emitted();
    ghost var again := When(need.cf || need.zf || need.sf || need.of, [Repeat(fn, w)]);
    ValidText(b);
    if need.cf || need.zf || need.sf || need.of {
      NotHole(fn, w);
      b.Put(Repeat(fn, w));
    }
    b.Put(Set(10, MovZ(0, 0)));
    EmitGatherAll(b, fn, need);
    EmitFinish(b, need);
    Add4(t, again, [Set(10, MovZ(0, 0))], GatherCode(fn, need), FinishCode(need), b.max);
  }

  lemma NotHole(fn: Helper, w: bool)
    ensures !IsHole(Repeat(fn, w))
  {
  }

  method EmitFlagArgs(b: Buffer, fn: Helper, size: Size)
    requires b.Valid()
    modifies b, b.out, b.fix
    ensures b.Valid() && b.max == old(b.max) && b.Emitted() == old(b.Emitted()).Add(FlagArgs(fn, size), b.max)
  {
    hide Text.Add, PutImm;
    ghost var t := b.Emitted();
    if fn.HLogic? {
      b.Put(Mov(1, 3));
      EmitImm(b, 2, size);
      AddAdd(t, [Mov(1, 3)], PutImm(2, size), b.max);
    } else if fn.HInc? || fn.HDec? {
      b.Put(Mov(2, 3));
      EmitImm(b, 3, size);
      AddAdd(t, [Mov(2, 3)], PutImm(3, size), b.max);
    } else {
      EmitImm(b, 4, size);
    }
  }

  method EmitFlags(b: Buffer, host: Host, fn: Option<Helper>, need: FlagSet, size: Size)
    requires b.Valid()
    modifies b, b.out, b.fix
    ensures b.Valid() && b.max == old(b.max)
        && b.Emitted() == old(b.Emitted()).Add(PutFlags(host, fn, need, size), b.max)
  {
    hide Text.Add, FlagArgs, PutFlagsInline, PutCall, Host.At;
    ghost var t := b.Emitted();
    ValidText(b);
    if fn.None? || need.Empty() {
    } else if size != 1 {
      EmitFlagsInline(b, fn.value, need, size == 4);
    } else {
      b.Put(Mov(0, CPU));
      EmitFlagArgs(b, fn.value, size);
      EmitCall(b, host.At(fn.value));
      Add3(t, [Mov(0, CPU)], FlagArgs(fn.value, size), PutCall(host.At(fn.value)), b.max);
    }
  }

  // --- memory -----------------------------------------------------------------------------------------

  method EmitEntry(b: Buffer, e: int)
    requires b.Valid()
    modifies b, b.out, b.fix
    ensures b.Valid() && b.max == old(b.max) && b.Emitted() == old(b.Emitted()).Add(CheckEntry(e), b.max)
  {
    hide Text.Add;
    ghost var t := b.Emitted();
    b.Put(Ldr(8, 10, 9, e));
    b.Put(Ldr(8, 11, 9, e + 8));
    b.Put(Set(12, Arith(OpSub, false, 1, 10)));
    b.Put(SetFlagsZr(FSubs, false, 12, 11));
    Words4(t, Ldr(8, 10, 9, e), Ldr(8, 11, 9, e + 8), Set(12, Arith(OpSub, false, 1, 10)),
        SetFlagsZr(FSubs, false, 12, 11), b.max);
  }

  // --- branches patched once the code they skip is known ------------------------------------------

  /** A branch emitted with no distance, and the same branch with one. */
  function Aimed(w: Instr, dist: int): Instr {
    match w
    case B(_) => B(dist)
    case BCond(c, _) => BCond(c, dist)
    case CbzW(r, _) => CbzW(r, dist)
    case _ => w
  }

  predicate Aimable(w: Instr) { w.B? || w.BCond? || (w.CbzW? && w.t != 9) }

  /** If more follows, what came before is there too, where it was put. */
  lemma Earlier(t: Text, pre: seq<Instr>, more: seq<Instr>, max: nat)
    ensures t.Add(pre + more, max).Text? ==> t.Add(pre, max).Text? && t.Add(pre, max).Size() == t.Size() + |pre|
  {
    hide HoleCount;
    HoleCountCat(pre, more);
  }

  lemma SizeIs(b: Buffer)
    requires b.Valid()
    ensures b.Emitted().Text? ==> b.n == b.Emitted().Size()
  {
  }

  /** Point the branch at index `at` here. */
  method PatchTo(b: Buffer, at: nat, w: Instr, ghost t: Text, ghost pre: seq<Instr>, ghost post: seq<Instr>)
    requires b.Valid() && Aimable(w)
    requires b.Emitted() == t.Add(pre + [w] + post, b.max)
    requires b.Emitted().Text? ==> at == t.Size() + |pre|
    modifies b.out
    ensures b.Valid() && b.Emitted() == t.Add(pre + [Aimed(w, |post| + 1)] + post, b.max)
  {
    hide HoleCount;
    PatchAdd(t, pre, w, Aimed(w, |post| + 1), post, b.max);
    SameHoles(pre, w, Aimed(w, |post| + 1), post);
    if !b.full {
      assert b.out[..b.n] == t.code + (pre + [w] + post);
      assert (t.code + (pre + [w] + post))[at] == w;
      assert b.out[at] == w;
      b.Patch(at, Aimed(w, b.n - at));
    }
  }

  // --- loads and stores -----------------------------------------------------------------------------

  function CheckHead(e: int): seq<Instr> { [Ldr(8, 9, CPU, OFF_AS)] + CheckEntry(e) }

  /** The region check up to its branch to the slow path. */
  function CheckCode(e: int): seq<Instr> { CheckHead(e) + [BCond(CC, 6)] + CheckEntry(e + 16) }

  /** Leaves the branch to the slow path unpatched, at the index returned. */
  method EmitRegionCheck(b: Buffer, e: int) returns (slow: nat)
    requires b.Valid()
    modifies b, b.out, b.fix
    ensures b.Valid() && b.max == old(b.max)
        && b.Emitted() == old(b.Emitted()).Add(CheckCode(e) + [BCond(CS, 0)], b.max)
    ensures b.Emitted().Text? ==> slow == old(b.Emitted()).Size() + |CheckCode(e)|
  {
    hide CheckEntry, Text.Add, Text.Size;
    ghost var t, max := b.Emitted(), b.max;
    ghost var head, entry := CheckHead(e), CheckEntry(e + 16);
    b.Put(Ldr(8, 9, CPU, OFF_AS));
    EmitEntry(b, e);
    AddAdd(t, [Ldr(8, 9, CPU, OFF_AS)], CheckEntry(e), max);
    SizeIs(b);
    var hit := b.n;
    b.Put(BCond(CC, 0));
    EmitEntry(b, e + 16);
    Add3(t, head, [BCond(CC, 0)], entry, max);
    SizeIs(b);
    slow := b.n;
    b.Put(BCond(CS, 0));
    AddAdd(t, head + [BCond(CC, 0)] + entry, [BCond(CS, 0)], max);
    Earlier(t, head, [BCond(CC, 0)] + entry + [BCond(CS, 0)], max);
    Earlier(t, head + [BCond(CC, 0)] + entry, [BCond(CS, 0)], max);
    CheckTails(head, BCond(CC, 0), entry);
    CheckTails(head, BCond(CC, 6), entry);
    EntrySize(e + 16);
    PatchTo(b, hit, BCond(CC, 0), t, head, entry + [BCond(CS, 0)]);
  }

  lemma CheckTails(head: seq<Instr>, w: Instr, entry: seq<Instr>)
    ensures head + [w] + entry + [BCond(CS, 0)] == head + [w] + (entry + [BCond(CS, 0)])
    ensures head + [w] + entry + [BCond(CS, 0)] == head + ([w] + entry + [BCond(CS, 0)])
  {
  }

  lemma EntrySize(e: int)
    ensures |CheckEntry(e)| == 4
  {
  }

  /** The jump over the slow path, and the branch to that path pointed here. */
  method EmitFastEnd(b: Buffer, slow: nat, ghost t: Text, ghost e: int, ghost fast: seq<Instr>) returns (done: nat)
    requires b.Valid() && b.Emitted() == t.Add(CheckCode(e) + [BCond(CS, 0)] + fast, b.max)
    requires b.Emitted().Text? ==> slow == t.Size() + |CheckCode(e)|
    modifies b, b.out, b.fix
    ensures b.Valid() && b.max == old(b.max)
    ensures b.Emitted() == t.Add(CheckCode(e) + [BCond(CS, |fast| + 2)] + fast + [B(0)], b.max)
    ensures b.Emitted().Text? ==> done == t.Size() + |CheckCode(e) + [BCond(CS, |fast| + 2)] + fast|
  {
    hide CheckCode, Text.Add, Text.Size;
    ghost var head, max := CheckCode(e), b.max;
    SizeIs(b);
    done := b.n;
    b.Put(B(0));
    AddAdd(t, head + [BCond(CS, 0)] + fast, [B(0)], max);
    FastTails(head, BCond(CS, 0), fast);
    FastTails(head, BCond(CS, |fast| + 2), fast);
    Earlier(t, head + [BCond(CS, 0)] + fast, [B(0)], max);
    PatchTo(b, slow, BCond(CS, 0), t, head, fast + [B(0)]);
  }

  lemma FastTails(head: seq<Instr>, w: Instr, fast: seq<Instr>)
    ensures head + [w] + fast + [B(0)] == head + [w] + (fast + [B(0)])
  {
  }

  lemma AccessIs(e: int, fast: seq<Instr>, slow: seq<Instr>)
    ensures CheckCode(e) + [BCond(CS, |fast| + 2)] + fast + [B(|slow| + 1)] + slow == PutAccess(e, fast, slow)
  {
    hide CheckEntry;
  }

  /** The jump over the slow path pointed past it. */
  method EndSlow(b: Buffer, done: nat, ghost t: Text, ghost e: int, ghost fast: seq<Instr>, ghost slow: seq<Instr>)
    requires b.Valid() && b.Emitted() == t.Add(CheckCode(e) + [BCond(CS, |fast| + 2)] + fast + [B(0)] + slow, b.max)
    requires b.Emitted().Text? ==> done == t.Size() + |CheckCode(e) + [BCond(CS, |fast| + 2)] + fast|
    modifies b.out
    ensures b.Valid() && b.Emitted() == t.Add(PutAccess(e, fast, slow), b.max)
  {
    hide CheckCode, Text.Add, Text.Size, PutAccess;
    PatchTo(b, done, B(0), t, CheckCode(e) + [BCond(CS, |fast| + 2)] + fast, slow);
    AccessIs(e, fast, slow);
  }

  method EmitLoadSlow(b: Buffer, host: Host, size: Size)
    requires b.Valid()
    modifies b, b.out, b.fix
    ensures b.Valid() && b.max == old(b.max) && b.Emitted() == old(b.Emitted()).Add(LoadSlow(host, size), b.max)
  {
    hide Text.Add, PutImm, PutCall, PutFaultCheck;
    ghost var t := b.Emitted();
    b.Put(Mov(0, CPU));
    EmitImm(b, 2, size);
    EmitCall(b, host.ld);
    EmitFaultCheck(b);
    Add4(t, [Mov(0, CPU)], PutImm(2, size), PutCall(host.ld), PutFaultCheck(), b.max);
  }

  /** x1 = address; x0 = value. */
  method EmitLoad(b: Buffer, host: Host, size: Size)
    requires b.Valid()
    modifies b, b.out, b.fix
    ensures b.Valid() && b.max == old(b.max) && b.Emitted() == old(b.Emitted()).Add(PutLoad(host, size), b.max)
  {
    hide Text.Add, Text.Size, CheckCode, LoadSlow, PutAccess;
    ghost var t, max, fast := b.Emitted(), b.max, [LoadFast(size)];
    var slow := EmitRegionCheck(b, OFF_RD);
    b.Put(LoadFast(size));
    AddAdd(t, CheckCode(OFF_RD) + [BCond(CS, 0)], fast, max);
    Earlier(t, CheckCode(OFF_RD) + [BCond(CS, 0)], fast, max);
    var done := EmitFastEnd(b, slow, t, OFF_RD, fast);
    ghost var head := CheckCode(OFF_RD) + [BCond(CS, |fast| + 2)] + fast;
    EmitLoadSlow(b, host, size);
    AddAdd(t, head + [B(0)], LoadSlow(host, size), max);
    Earlier(t, head + [B(0)], LoadSlow(host, size), max);
    EndSlow(b, done, t, OFF_RD, fast, LoadSlow(host, size));
  }

  method EmitStoreSlow(b: Buffer, host: Host, size: Size)
    requires b.Valid()
    modifies b, b.out, b.fix
    ensures b.Valid() && b.max == old(b.max) && b.Emitted() == old(b.Emitted()).Add(StoreSlow(host, size), b.max)
  {
    hide Text.Add, PutImm, PutCall, PutFaultCheck;
    ghost var t := b.Emitted();
    b.Put(Mov(0, CPU));
    EmitImm(b, 3, size);
    EmitCall(b, host.st);
    EmitFaultCheck(b);
    Add4(t, [Mov(0, CPU)], PutImm(3, size), PutCall(host.st), PutFaultCheck(), b.max);
  }

  method EmitStoreLogged(b: Buffer, host: Host, size: Size)
    requires b.Valid()
    modifies b, b.out, b.fix
    ensures b.Valid() && b.max == old(b.max) && b.Emitted() == old(b.Emitted()).Add(StoreLogged(host, size), b.max)
  {
    hide Text.Add, PutImm, PutCall;
    ghost var t := b.Emitted();
    b.Put(Str(8, 1, CPU, OffTmp(6)));
    b.Put(Str(8, 2, CPU, OffTmp(7)));
    b.Put(Mov(0, CPU));
    Words3(t, Str(8, 1, CPU, OffTmp(6)), Str(8, 2, CPU, OffTmp(7)), Mov(0, CPU), b.max);
    EmitImm(b, 3, size);
    EmitCall(b, host.wlog);
    ghost var t1 := b.Emitted();
    b.Put(Ldr(8, 1, CPU, OffTmp(6)));
    b.Put(Ldr(8, 2, CPU, OffTmp(7)));
    Words2(t1, Ldr(8, 1, CPU, OffTmp(6)), Ldr(8, 2, CPU, OffTmp(7)), b.max);
    Add4(t, [Str(8, 1, CPU, OffTmp(6)), Str(8, 2, CPU, OffTmp(7)), Mov(0, CPU)], PutImm(3, size), PutCall(host.wlog),
         [Ldr(8, 1, CPU, OffTmp(6)), Ldr(8, 2, CPU, OffTmp(7))], b.max);
  }

  method EmitStoreFast(b: Buffer, host: Host, size: Size)
    requires b.Valid()
    modifies b, b.out, b.fix
    ensures b.Valid() && b.max == old(b.max)
        && b.Emitted() == old(b.Emitted()).Add(When(b.check, StoreLogged(host, size)) + [StoreFast(size)], b.max)
  {
    hide Text.Add, StoreLogged;
    ghost var t := b.Emitted();
    ValidText(b);
    if b.check { EmitStoreLogged(b, host, size); }
    b.Put(StoreFast(size));
    AddAdd(t, When(b.check, StoreLogged(host, size)), [StoreFast(size)], b.max);
  }

  /** x1 = address, x2 = value. */
  method EmitStore(b: Buffer, host: Host, size: Size)
    requires b.Valid()
    modifies b, b.out, b.fix
    ensures b.Valid() && b.max == old(b.max)
        && b.Emitted() == old(b.Emitted()).Add(PutStore(host, b.check, size), b.max)
  {
    hide Text.Add, Text.Size, CheckCode, StoreSlow, StoreLogged, StoreFast, PutAccess;
    ghost var t, max, fast := b.Emitted(), b.max, When(b.check, StoreLogged(host, size)) + [StoreFast(size)];
    var slow := EmitRegionCheck(b, OFF_WR);
    EmitStoreFast(b, host, size);
    AddAdd(t, CheckCode(OFF_WR) + [BCond(CS, 0)], fast, max);
    Earlier(t, CheckCode(OFF_WR) + [BCond(CS, 0)], fast, max);
    var done := EmitFastEnd(b, slow, t, OFF_WR, fast);
    ghost var head := CheckCode(OFF_WR) + [BCond(CS, |fast| + 2)] + fast;
    EmitStoreSlow(b, host, size);
    AddAdd(t, head + [B(0)], StoreSlow(host, size), max);
    Earlier(t, head + [B(0)], StoreSlow(host, size), max);
    EndSlow(b, done, t, OFF_WR, fast, StoreSlow(host, size));
  }

  // --- instructions ----------------------------------------------------------------------------------

  method EmitAddress(b: Buffer, c: Ctx, o: Insn)
    requires b.Valid()
    modifies b, b.out, b.fix
    ensures b.Valid() && b.max == old(b.max) && b.Emitted() == old(b.Emitted()).Add(PutAddress(c, o), b.max)
  {
    hide Text.Add, PutSetRip, PutEa;
    ghost var t := b.Emitted();
    EmitSetRip(b, c.rip);
    EmitEa(b, o);
    AddAdd(t, PutSetRip(c.rip), PutEa(o), b.max);
  }

  method EmitOperandLoad(b: Buffer, c: Ctx, o: Insn, size: Size)
    requires b.Valid()
    modifies b, b.out, b.fix
    ensures b.Valid() && b.max == old(b.max) && b.Emitted() == old(b.Emitted()).Add(PutOperandLoad(c, o, size), b.max)
  {
    hide Text.Add, PutAddress, PutLoad;
    ghost var t := b.Emitted();
    EmitAddress(b, c, o);
    EmitLoad(b, c.host, size);
    AddAdd(t, PutAddress(c, o), PutLoad(c.host, size), b.max);
  }

  method EmitAluTail(b: Buffer, c: Ctx, o: Insn)
    requires b.Valid()
    modifies b, b.out, b.fix
    ensures b.Valid() && b.max == old(b.max) && b.Emitted() == old(b.Emitted()).Add(AluTail(c, o), b.max)
  {
    hide Text.Add, PutOp, PutWrReg, PutFlags, FlagHelper;
    ghost var t, write := b.Emitted(), When(!o.noWrite, PutWrReg(3, o, o.reg, o.size));
    var fn := EmitOp(b, o);
    ValidText(b);
    if !o.noWrite { EmitWrReg(b, 3, o, o.reg, o.size); }
    EmitFlags(b, c.host, fn, c.need, o.size);
    Add3(t, [PutOp(o)], write, PutFlags(c.host, fn, c.need, o.size), b.max);
  }

  method EmitOperands(b: Buffer, c: Ctx, o: Insn)
    requires b.Valid() && (o.kind.KRR? || o.kind.KRI? || o.kind.KRM?)
    modifies b, b.out, b.fix
    ensures b.Valid() && b.max == old(b.max) && b.Emitted() == old(b.Emitted()).Add(OperandsCode(c, o), b.max)
  {
    hide Text.Add, PutRdReg, PutImm, PutOperandLoad;
    ghost var t := b.Emitted();
    if o.kind.KRM? {
      EmitOperandLoad(b, c, o, o.size);
      ghost var t1 := b.Emitted();
      b.Put(Mov(2, 0));
      EmitRdReg(b, 1, o, o.reg, o.size);
      AddAdd(t1, [Mov(2, 0)], PutRdReg(1, o, o.reg, o.size), b.max);
      AddAdd(t, PutOperandLoad(c, o, o.size), [Mov(2, 0)] + PutRdReg(1, o, o.reg, o.size), b.max);
    } else {
      EmitRdReg(b, 1, o, o.reg, o.size);
      if o.kind.KRI? {
        EmitImm(b, 2, o.imm);
        AddAdd(t, PutRdReg(1, o, o.reg, o.size), PutImm(2, o.imm), b.max);
      } else {
        EmitRdReg(b, 2, o, o.src, o.size);
        AddAdd(t, PutRdReg(1, o, o.reg, o.size), PutRdReg(2, o, o.src, o.size), b.max);
      }
    }
  }

  function OperandsCode(c: Ctx, o: Insn): seq<Instr> {
    if o.kind.KRM? then PutOperandLoad(c, o, o.size) + ([Mov(2, 0)] + PutRdReg(1, o, o.reg, o.size))
    else if o.kind.KRI? then PutRdReg(1, o, o.reg, o.size) + PutImm(2, o.imm)
    else PutRdReg(1, o, o.reg, o.size) + PutRdReg(2, o, o.src, o.size)
  }

  method EmitRegAlu(b: Buffer, c: Ctx, o: Insn)
    requires b.Valid() && (o.kind.KRR? || o.kind.KRI? || o.kind.KRM?)
    modifies b, b.out, b.fix
    ensures b.Valid() && b.max == old(b.max) && b.Emitted() == old(b.Emitted()).Add(PutInsn(c, o), b.max)
  {
    hide Text.Add, OperandsCode, AluTail, PutInsn;
    ghost var t := b.Emitted();
    EmitOperands(b, c, o);
    EmitAluTail(b, c, o);
    AddAdd(t, OperandsCode(c, o), AluTail(c, o), b.max);
    RegAluIs(c, o);
  }

  lemma RegAluIs(c: Ctx, o: Insn)
    requires o.kind.KRR? || o.kind.KRI? || o.kind.KRM?
    ensures PutInsn(c, o) == OperandsCode(c, o) + AluTail(c, o)
  {
    hide AluTail, PutRdReg, PutImm, PutOperandLoad;
  }

  method EmitOperand(b: Buffer, o: Insn)
    requires b.Valid()
    modifies b, b.out, b.fix
    ensures b.Valid() && b.max == old(b.max) && b.Emitted() == old(b.Emitted()).Add(OperandCode(o), b.max)
  {
    hide Text.Add, PutRdReg, PutImm;
    if o.kind.KMI? { EmitImm(b, 2, o.imm); } else { EmitRdReg(b, 2, o, o.reg, o.size); }
  }

  method EmitKeepAndLoad(b: Buffer, c: Ctx, o: Insn)
    requires b.Valid()
    modifies b, b.out, b.fix
    ensures b.Valid() && b.max == old(b.max) && b.Emitted() == old(b.Emitted()).Add(KeepAndLoad(c, o), b.max)
  {
    hide Text.Add, PutAddress, PutLoad;
    ghost var t := b.Emitted();
    EmitAddress(b, c, o);
    b.Put(Str(8, 1, CPU, OffTmp(0)));
    EmitLoad(b, c.host, o.size);
    Add3(t, PutAddress(c, o), [Str(8, 1, CPU, OffTmp(0))], PutLoad(c.host, o.size), b.max);
  }

  method EmitWriteBack(b: Buffer, c: Ctx, o: Insn)
    requires b.Valid() && b.check == c.check
    modifies b, b.out, b.fix
    ensures b.Valid() && b.max == old(b.max) && b.Emitted() == old(b.Emitted()).Add(PutWriteBack(c, o), b.max)
  {
    hide Text.Add, PutStore;
    ghost var t := b.Emitted();
    b.Put(Str(8, 1, CPU, OffTmp(1)));
    b.Put(Str(8, 2, CPU, OffTmp(2)));
    b.Put(Str(8, 3, CPU, OffTmp(3)));
    b.Put(Mov(2, 3));
    b.Put(Ldr(8, 1, CPU, OffTmp(0)));
    Words5(t, Str(8, 1, CPU, OffTmp(1)), Str(8, 2, CPU, OffTmp(2)), Str(8, 3, CPU, OffTmp(3)), Mov(2, 3),
        Ldr(8, 1, CPU, OffTmp(0)), b.max);
    EmitStore(b, c.host, o.size);
    EmitRestore(b);
    Add3(t, SaveCode(), PutStore(c.host, c.check, o.size), RestoreCode(), b.max);
  }

  method EmitRestore(b: Buffer)
    requires b.Valid()
    modifies b, b.out, b.fix
    ensures b.Valid() && b.max == old(b.max) && b.Emitted() == old(b.Emitted()).Add(RestoreCode(), b.max)
  {
    hide Text.Add;
    ghost var t := b.Emitted();
    b.Put(Ldr(8, 1, CPU, OffTmp(1)));
    b.Put(Ldr(8, 2, CPU, OffTmp(2)));
    b.Put(Ldr(8, 3, CPU, OffTmp(3)));
    Words3(t, Ldr(8, 1, CPU, OffTmp(1)), Ldr(8, 2, CPU, OffTmp(2)), Ldr(8, 3, CPU, OffTmp(3)), b.max);
  }

  method EmitRmwTail(b: Buffer, c: Ctx, o: Insn)
    requires b.Valid() && b.check == c.check
    modifies b, b.out, b.fix
    ensures b.Valid() && b.max == old(b.max) && b.Emitted() == old(b.Emitted()).Add(RmwTail(c, o), b.max)
  {
    hide Text.Add, PutOp, PutWriteBack, PutFlags, FlagHelper;
    ghost var t, write := b.Emitted(), When(!o.noWrite, PutWriteBack(c, o));
    var fn := EmitOp(b, o);
    ValidText(b);
    if !o.noWrite { EmitWriteBack(b, c, o); }
    EmitFlags(b, c.host, fn, c.need, o.size);
    Add3(t, [PutOp(o)], write, PutFlags(c.host, fn, c.need, o.size), b.max);
  }

  method EmitRmw(b: Buffer, c: Ctx, o: Insn)
    requires b.Valid() && b.check == c.check
    modifies b, b.out, b.fix
    ensures b.Valid() && b.max == old(b.max) && b.Emitted() == old(b.Emitted()).Add(PutRmw(c, o), b.max)
  {
    hide Text.Add, PutAddress, OperandCode, PutStore, KeepAndLoad, RmwTail;
    ghost var t := b.Emitted();
    if o.op.AMov? {
      EmitAddress(b, c, o);
      ghost var t1 := b.Emitted();
      EmitOperand(b, o);
      EmitStore(b, c.host, o.size);
      AddAdd(t1, OperandCode(o), PutStore(c.host, c.check, o.size), b.max);
      AddAdd(t, PutAddress(c, o), OperandCode(o) + PutStore(c.host, c.check, o.size), b.max);
    } else {
      EmitKeepAndLoad(b, c, o);
      ghost var t1 := b.Emitted();
      b.Put(Mov(1, 0));
      EmitOperand(b, o);
      EmitRmwTail(b, c, o);
      Add3(t1, [Mov(1, 0)], OperandCode(o), RmwTail(c, o), b.max);
      AddAdd(t, KeepAndLoad(c, o), LoadedOperands(o) + RmwTail(c, o), b.max);
    }
  }

  method EmitShiftOperand(b: Buffer, c: Ctx, o: Insn)
    requires b.Valid()
    modifies b, b.out, b.fix
    ensures b.Valid() && b.max == old(b.max) && b.Emitted() == old(b.Emitted()).Add(PutShiftOperand(c, o), b.max)
  {
    hide Text.Add, KeepAndLoad, PutRdReg;
    ghost var t := b.Emitted();
    if o.mem {
      ValidText(b);
      if o.byCl { b.Put(Str(8, 5, CPU, OffTmp(1))); }
      EmitKeepAndLoad(b, c, o);
      ghost var t1 := b.Emitted();
      b.Put(Mov(1, 0));
      ValidText(b);
      if o.byCl { b.Put(Ldr(8, 5, CPU, OffTmp(1))); }
      AddAdd(t1, [Mov(1, 0)], When(o.byCl, [Ldr(8, 5, CPU, OffTmp(1))]), b.max);
      Add3(t, SaveCount(o), KeepAndLoad(c, o), TakeLoaded(o), b.max);
    } else {
      EmitRdReg(b, 1, o, o.reg, o.size);
    }
  }

  method EmitShiftArgs(b: Buffer, o: Insn)
    requires b.Valid()
    modifies b, b.out, b.fix
    ensures b.Valid() && b.max == old(b.max) && b.Emitted() == old(b.Emitted()).Add(ShiftArgs(o), b.max)
  {
    hide Text.Add, PutImm, MaskedImm;
    ghost var t := b.Emitted();
    if o.byCl { b.Put(Mov(2, 5)); } else { EmitImm(b, 2, MaskedImm(o)); }
    b.Put(Mov(0, CPU));
    EmitImm(b, 3, o.size);
    EmitImm(b, 4, o.ext);
    Add4(t, CountCode(o), [Mov(0, CPU)], PutImm(3, o.size), PutImm(4, o.ext), b.max);
  }

  method EmitShiftResult(b: Buffer, c: Ctx, o: Insn)
    requires b.Valid() && b.check == c.check
    modifies b, b.out, b.fix
    ensures b.Valid() && b.max == old(b.max) && b.Emitted() == old(b.Emitted()).Add(ShiftResult(c, o), b.max)
  {
    hide Text.Add, PutStore, PutWrReg;
    ghost var t := b.Emitted();
    if o.mem {
      b.Put(Mov(2, 0));
      b.Put(Ldr(8, 1, CPU, OffTmp(0)));
      Words2(t, Mov(2, 0), Ldr(8, 1, CPU, OffTmp(0)), b.max);
      EmitStore(b, c.host, o.size);
      AddAdd(t, [Mov(2, 0), Ldr(8, 1, CPU, OffTmp(0))], PutStore(c.host, c.check, o.size), b.max);
    } else {
      EmitWrReg(b, 0, o, o.reg, o.size);
    }
  }

  method EmitShiftBody(b: Buffer, c: Ctx, o: Insn)
    requires b.Valid() && b.check == c.check
    modifies b, b.out, b.fix
    ensures b.Valid() && b.max == old(b.max) && b.Emitted() == old(b.Emitted()).Add(PutShiftBody(c, o), b.max)
  {
    hide Text.Add, PutShiftOperand, ShiftArgs, PutCall, ShiftResult;
    ghost var t := b.Emitted();
    EmitShiftOperand(b, c, o);
    ghost var t1 := b.Emitted();
    EmitShiftArgs(b, o);
    EmitCall(b, c.host.shift);
    EmitShiftResult(b, c, o);
    Add3(t1, ShiftArgs(o), PutCall(c.host.shift), ShiftResult(c, o), b.max);
    AddAdd(t, PutShiftOperand(c, o), (ShiftArgs(o) + PutCall(c.host.shift)) + ShiftResult(c, o), b.max);
  }

  /** A count from cl that turns out zero skips everything after the test. */
  method EmitShiftCl(b: Buffer, c: Ctx, o: Insn)
    requires b.Valid() && b.check == c.check && o.byCl
    modifies b, b.out, b.fix
    ensures b.Valid() && b.max == old(b.max) && b.Emitted() == old(b.Emitted()).Add(PutShift(c, o), b.max)
  {
    hide Text.Add, Text.Size, PutShiftBody;
    ghost var t, max, cl, body := b.Emitted(), b.max, ClCode(o), PutShiftBody(c, o);
    b.Put(Ldr(8, 5, CPU, OffR(RCX)));
    b.Put(Set(5, Ubfx(5, 0, if o.size == 8 then 6 else 5)));
    Words2(t, Ldr(8, 5, CPU, OffR(RCX)), Set(5, Ubfx(5, 0, if o.size == 8 then 6 else 5)), max);
    SizeIs(b);
    var skip := b.n;
    b.Put(CbzW(5, 0));
    EmitShiftBody(b, c, o);
    Add3(t, cl, [CbzW(5, 0)], body, max);
    assert cl + [CbzW(5, 0)] + body == cl + ([CbzW(5, 0)] + body);
    Earlier(t, cl, [CbzW(5, 0)] + body, max);
    PatchTo(b, skip, CbzW(5, 0), t, cl, body);
    assert cl + [CbzW(5, |body| + 1)] + body == cl + ([CbzW(5, |body| + 1)] + body);
  }

  method EmitShift(b: Buffer, c: Ctx, o: Insn)
    requires b.Valid() && b.check == c.check
    modifies b, b.out, b.fix
    ensures b.Valid() && b.max == old(b.max) && b.Emitted() == old(b.Emitted()).Add(PutShift(c, o), b.max)
  {
    hide Text.Add, PutShiftBody, ClCode;
    ValidText(b);
    if o.byCl {
      EmitShiftCl(b, c, o);
    } else if MaskedImm(o) != 0 {
      EmitShiftBody(b, c, o);
    }
  }

  method EmitImulSource(b: Buffer, c: Ctx, o: Insn)
    requires b.Valid()
    modifies b, b.out, b.fix
    ensures b.Valid() && b.max == old(b.max) && b.Emitted() == old(b.Emitted()).Add(ImulSource(c, o), b.max)
  {
    hide Text.Add, PutOperandLoad;
    ghost var t := b.Emitted();
    if o.mem {
      EmitOperandLoad(b, c, o, o.size);
      b.Put(Mov(1, 0));
      AddAdd(t, PutOperandLoad(c, o, o.size), [Mov(1, 0)], b.max);
    } else {
      b.Put(Ldr(8, 1, CPU, OffR(o.src)));
    }
  }

  method EmitImulOther(b: Buffer, o: Insn)
    requires b.Valid()
    modifies b, b.out, b.fix
    ensures b.Valid() && b.max == old(b.max) && b.Emitted() == old(b.Emitted()).Add(ImulOther(o), b.max)
  {
    hide Text.Add, PutImm;
    if o.immSrc { EmitImm(b, 2, o.imm); } else { b.Put(Ldr(8, 2, CPU, OffR(o.reg))); }
  }

  method EmitImul(b: Buffer, c: Ctx, o: Insn)
    requires b.Valid()
    modifies b, b.out, b.fix
    ensures b.Valid() && b.max == old(b.max) && b.Emitted() == old(b.Emitted()).Add(PutImul(c, o), b.max)
  {
    hide Text.Add, ImulSource, ImulOther, PutFlags;
    ghost var t := b.Emitted();
    EmitImulSource(b, c, o);
    ghost var t1 := b.Emitted();
    EmitImulOther(b, o);
    ghost var t2 := b.Emitted();
    b.Put(Set(3, Mul(o.size != 8, 1, 2)));
    b.Put(Str(8, 3, CPU, OffR(o.reg)));
    Words2(t2, Set(3, Mul(o.size != 8, 1, 2)), Str(8, 3, CPU, OffR(o.reg)), b.max);
    EmitFlags(b, c.host, Some(HLogic), c.need, o.size);
    ghost var flags := PutFlags(c.host, Some(HLogic), c.need, o.size);
    AddAdd(t2, ImulResult(o), flags, b.max);
    AddAdd(t1, ImulOther(o), ImulResult(o) + flags, b.max);
    AddAdd(t, ImulSource(c, o), ImulOther(o) + (ImulResult(o) + flags), b.max);
  }

  method EmitSetccMem(b: Buffer, c: Ctx, o: Insn)
    requires b.Valid() && b.check == c.check
    modifies b, b.out, b.fix
    ensures b.Valid() && b.max == old(b.max) && b.Emitted() == old(b.Emitted()).Add(SetccMem(c, o), b.max)
  {
    hide Text.Add, PutAddress, PutStore;
    ghost var t := b.Emitted();
    b.Put(Str(8, 0, CPU, OffTmp(0)));
    ghost var t1 := b.Emitted();
    EmitAddress(b, c, o);
    ghost var t2 := b.Emitted();
    b.Put(Ldr(8, 2, CPU, OffTmp(0)));
    EmitStore(b, c.host, 1);
    ghost var rest := [Ldr(8, 2, CPU, OffTmp(0))] + PutStore(c.host, c.check, 1);
    AddAdd(t2, [Ldr(8, 2, CPU, OffTmp(0))], PutStore(c.host, c.check, 1), b.max);
    AddAdd(t1, PutAddress(c, o), rest, b.max);
    AddAdd(t, [Str(8, 0, CPU, OffTmp(0))], PutAddress(c, o) + rest, b.max);
  }

  method EmitSetcc(b: Buffer, c: Ctx, o: Insn)
    requires b.Valid() && b.check == c.check
    modifies b, b.out, b.fix
    ensures b.Valid() && b.max == old(b.max) && b.Emitted() == old(b.Emitted()).Add(PutSetcc(c, o), b.max)
  {
    hide Text.Add, PutCondEven, SetccMem, PutWrReg;
    ghost var t := b.Emitted();
    EmitCondEven(b, o.cc);
    b.Put(Set(0, Cset(Sense(o.cc))));
    AddAdd(t, PutCondEven(o.cc), [Set(0, Cset(Sense(o.cc)))], b.max);
    if o.mem { EmitSetccMem(b, c, o); } else { EmitWrReg(b, 0, o, o.reg, 1); }
    AddAdd(t, CondValue(o), if o.mem then SetccMem(c, o) else PutWrReg(0, o, o.reg, 1), b.max);
  }

  method EmitMovx(b: Buffer, c: Ctx, o: Insn)
    requires b.Valid()
    modifies b, b.out, b.fix
    ensures b.Valid() && b.max == old(b.max) && b.Emitted() == old(b.Emitted()).Add(PutMovx(c, o), b.max)
  {
    hide Text.Add, PutOperandLoad, PutRdReg, Extend;
    ghost var t := b.Emitted();
    if o.mem { EmitOperandLoad(b, c, o, o.ssize); } else { EmitRdReg(b, 0, o, o.src, o.ssize); }
    ghost var t1 := b.Emitted();
    ExtendNotHole(o);
    b.Put(Extend(o));
    b.Put(Str(8, 0, CPU, OffR(o.reg)));
    Words2(t1, Extend(o), Str(8, 0, CPU, OffR(o.reg)), b.max);
    AddAdd(t, MovxSource(c, o), MovxResult(o), b.max);
  }

  lemma ExtendNotHole(o: Insn)
    ensures !IsHole(Extend(o))
  {
  }

  method EmitLea(b: Buffer, o: Insn)
    requires b.Valid()
    modifies b, b.out, b.fix
    ensures b.Valid() && b.max == old(b.max) && b.Emitted() == old(b.Emitted()).Add(PutEa(o) + PutLeaResult(o), b.max)
  {
    hide Text.Add, PutEa;
    ghost var t := b.Emitted();
    EmitEa(b, o);
    ghost var t1 := b.Emitted();
    if o.size == 4 {
      b.Put(MovW(3, 1));
      b.Put(Str(8, 3, CPU, OffR(o.reg)));
      Words2(t1, MovW(3, 1), Str(8, 3, CPU, OffR(o.reg)), b.max);
    } else {
      b.Put(Str(8, 1, CPU, OffR(o.reg)));
    }
    AddAdd(t, PutEa(o), PutLeaResult(o), b.max);
  }

  // --- the stack, and block ends -------------------------------------------------------------------------

  method EmitLower(b: Buffer)
    requires b.Valid()
    modifies b, b.out, b.fix
    ensures b.Valid() && b.max == old(b.max) && b.Emitted() == old(b.Emitted()).Add(LowerCode(), b.max)
  {
    hide Text.Add;
    ghost var t := b.Emitted();
    b.Put(Ldr(8, 1, CPU, OffR(RSP)));
    b.Put(Set(1, SubImm(1, 8)));
    b.Put(Str(8, 1, CPU, OffR(RSP)));
    Words3(t, Ldr(8, 1, CPU, OffR(RSP)), Set(1, SubImm(1, 8)), Str(8, 1, CPU, OffR(RSP)), b.max);
  }

  method EmitRaise(b: Buffer)
    requires b.Valid()
    modifies b, b.out, b.fix
    ensures b.Valid() && b.max == old(b.max) && b.Emitted() == old(b.Emitted()).Add(RaiseCode(), b.max)
  {
    hide Text.Add;
    ghost var t := b.Emitted();
    b.Put(Ldr(8, 1, CPU, OffR(RSP)));
    b.Put(Set(1, AddImm(1, 8)));
    b.Put(Str(8, 1, CPU, OffR(RSP)));
    Words3(t, Ldr(8, 1, CPU, OffR(RSP)), Set(1, AddImm(1, 8)), Str(8, 1, CPU, OffR(RSP)), b.max);
  }

  /** The return address, or a register, pushed. */
  method EmitPushBody(b: Buffer, c: Ctx, o: Insn)
    requires b.Valid() && b.check == c.check
    modifies b, b.out, b.fix
    ensures b.Valid() && b.max == old(b.max) && b.Emitted() == old(b.Emitted()).Add(PutPushBody(c, Pushing(o)), b.max)
  {
    hide Text.Add, PutImm, LowerCode, PutStore;
    ghost var t := b.Emitted();
    EmitLower(b);
    if o.kind.KPush? { b.Put(Ldr(8, 2, CPU, OffR(o.reg))); } else { EmitImm(b, 2, o.next); }
    EmitStore(b, c.host, 8);
    Add3(t, LowerCode(), Pushing(o), PutStore(c.host, c.check, 8), b.max);
  }

  function Pushing(o: Insn): seq<Instr> { if o.kind.KPush? then [Ldr(8, 2, CPU, OffR(o.reg))] else PutImm(2, o.next) }

  method EmitPush(b: Buffer, c: Ctx, o: Insn)
    requires b.Valid() && b.check == c.check
    modifies b, b.out, b.fix
    ensures b.Valid() && b.max == old(b.max) && b.Emitted() == old(b.Emitted()).Add(PutPush(c, Pushing(o)), b.max)
  {
    hide Text.Add, PutSetRip, PutPushBody, Pushing;
    ghost var t := b.Emitted();
    EmitSetRip(b, c.rip);
    EmitPushBody(b, c, o);
    AddAdd(t, PutSetRip(c.rip), PutPushBody(c, Pushing(o)), b.max);
  }

  method EmitPopLoad(b: Buffer, c: Ctx)
    requires b.Valid()
    modifies b, b.out, b.fix
    ensures b.Valid() && b.max == old(b.max) && b.Emitted() == old(b.Emitted()).Add(PopLoad(c), b.max)
  {
    hide Text.Add, PutSetRip, PutLoad;
    ghost var t := b.Emitted();
    EmitSetRip(b, c.rip);
    b.Put(Ldr(8, 1, CPU, OffR(RSP)));
    EmitLoad(b, c.host, 8);
    Add3(t, PutSetRip(c.rip), [Ldr(8, 1, CPU, OffR(RSP))], PutLoad(c.host, 8), b.max);
  }

  method EmitPop(b: Buffer, c: Ctx, o: Insn)
    requires b.Valid()
    modifies b, b.out, b.fix
    ensures b.Valid() && b.max == old(b.max)
        && b.Emitted() == old(b.Emitted()).Add(PutPop(c, [Str(8, 0, CPU, OffR(o.reg))]), b.max)
  {
    hide Text.Add, PopLoad, RaiseCode;
    ghost var t := b.Emitted();
    EmitPopLoad(b, c);
    ghost var t1 := b.Emitted();
    b.Put(Str(8, 0, CPU, OffR(o.reg)));
    EmitRaise(b);
    AddAdd(t1, [Str(8, 0, CPU, OffR(o.reg))], RaiseCode(), b.max);
    AddAdd(t, PopLoad(c), [Str(8, 0, CPU, OffR(o.reg))] + RaiseCode(), b.max);
  }

  method EmitRet(b: Buffer, c: Ctx)
    requires b.Valid()
    modifies b, b.out, b.fix
    ensures b.Valid() && b.max == old(b.max) && b.Emitted() == old(b.Emitted()).Add(PopLoad(c) + RetTail(), b.max)
  {
    hide Text.Add, PopLoad, RaiseCode;
    ghost var t := b.Emitted();
    EmitPopLoad(b, c);
    ghost var t1 := b.Emitted();
    b.Put(Str(8, 0, CPU, OffTmp(0)));
    EmitRaise(b);
    b.Put(Ldr(8, 0, CPU, OffTmp(0)));
    Add3(t1, RetSave(), RaiseCode(), [Ldr(8, 0, CPU, OffTmp(0))], b.max);
    AddAdd(t, PopLoad(c), RetTail(), b.max);
  }

  method EmitJcc(b: Buffer, o: Insn)
    requires b.Valid()
    modifies b, b.out, b.fix
    ensures b.Valid() && b.max == old(b.max) && b.Emitted() == old(b.Emitted()).Add(JccCode(o), b.max)
  {
    hide Text.Add, PutCondEven, PutImm;
    ghost var t := b.Emitted();
    EmitCondEven(b, o.cc);
    EmitImm(b, 2, o.target);
    EmitImm(b, 3, o.next);
    b.Put(Set(0, Csel(2, 3, Sense(o.cc))));
    Add4(t, PutCondEven(o.cc), PutImm(2, o.target), PutImm(3, o.next), [Set(0, Csel(2, 3, Sense(o.cc)))], b.max);
  }

  method EmitCallTarget(b: Buffer, c: Ctx, o: Insn)
    requires b.Valid() && b.check == c.check && o.kind.KCall?
    modifies b, b.out, b.fix
    ensures b.Valid() && b.max == old(b.max)
        && b.Emitted() == old(b.Emitted()).Add(PutPush(c, PutImm(2, o.next)) + PutImm(0, o.target), b.max)
  {
    hide Text.Add, PutImm, PutPush;
    ghost var t := b.Emitted();
    EmitPush(b, c, o);
    EmitImm(b, 0, o.target);
    AddAdd(t, PutPush(c, PutImm(2, o.next)), PutImm(0, o.target), b.max);
  }

  method EmitJmpTarget(b: Buffer, c: Ctx, o: Insn)
    requires b.Valid()
    modifies b, b.out, b.fix
    ensures b.Valid() && b.max == old(b.max) && b.Emitted() == old(b.Emitted()).Add(JmpTarget(c, o), b.max)
  {
    hide Text.Add, PutOperandLoad;
    if o.mem { EmitOperandLoad(b, c, o, 8); } else { b.Put(Ldr(8, 0, CPU, OffR(o.reg))); }
  }

  method EmitCallMAddress(b: Buffer, c: Ctx, o: Insn)
    requires b.Valid()
    modifies b, b.out, b.fix
    ensures b.Valid() && b.max == old(b.max) && b.Emitted() == old(b.Emitted()).Add(CallMAddress(c, o), b.max)
  {
    hide Text.Add, PutSetRip, PutEa;
    ghost var t := b.Emitted();
    EmitSetRip(b, c.rip);
    ghost var t1 := b.Emitted();
    ValidText(b);
    if o.mem {
      EmitEa(b, o);
      b.Put(Str(8, 1, CPU, OffTmp(0)));
      AddAdd(t1, PutEa(o), [Str(8, 1, CPU, OffTmp(0))], b.max);
    }
    AddAdd(t, PutSetRip(c.rip), When(o.mem, PutEa(o) + [Str(8, 1, CPU, OffTmp(0))]), b.max);
  }

  method EmitCallMTarget(b: Buffer, c: Ctx, o: Insn)
    requires b.Valid()
    modifies b, b.out, b.fix
    ensures b.Valid() && b.max == old(b.max) && b.Emitted() == old(b.Emitted()).Add(CallMTarget(c, o), b.max)
  {
    hide Text.Add, PutLoad;
    ghost var t := b.Emitted();
    if o.mem {
      b.Put(Ldr(8, 1, CPU, OffTmp(0)));
      EmitLoad(b, c.host, 8);
      AddAdd(t, [Ldr(8, 1, CPU, OffTmp(0))], PutLoad(c.host, 8), b.max);
    } else {
      b.Put(Ldr(8, 0, CPU, OffR(o.reg)));
    }
  }

  method EmitCallM(b: Buffer, c: Ctx, o: Insn)
    requires b.Valid() && b.check == c.check && o.kind.KCallM?
    modifies b, b.out, b.fix
    ensures b.Valid() && b.max == old(b.max)
        && b.Emitted() == old(b.Emitted()).Add(CallMAddress(c, o) + (CallMPush(c, o) + CallMTarget(c, o)), b.max)
  {
    hide Text.Add, PutImm, PutPushBody, CallMAddress, CallMTarget;
    ghost var t := b.Emitted();
    EmitCallMAddress(b, c, o);
    ghost var t1 := b.Emitted();
    EmitPushBody(b, c, o);
    EmitCallMTarget(b, c, o);
    AddAdd(t1, CallMPush(c, o), CallMTarget(c, o), b.max);
    AddAdd(t, CallMAddress(c, o), CallMPush(c, o) + CallMTarget(c, o), b.max);
  }

  /** x0 says where to continue. */
  function EndCode(c: Ctx, o: Insn): seq<Instr>
    requires Terminates(o.kind)
  {
    match o.kind
    case KJmp => PutImm(0, o.target)
    case KJcc => JccCode(o)
    case KCall => PutPush(c, PutImm(2, o.next)) + PutImm(0, o.target)
    case KRet => PopLoad(c) + RetTail()
    case KCallM => CallMAddress(c, o) + (CallMPush(c, o) + CallMTarget(c, o))
    case KJmpM => JmpTarget(c, o)
  }

  method EmitEnd(b: Buffer, c: Ctx, o: Insn)
    requires b.Valid() && b.check == c.check && Terminates(o.kind)
    modifies b, b.out, b.fix
    ensures b.Valid() && b.max == old(b.max) && b.Emitted() == old(b.Emitted()).Add(PutInsn(c, o), b.max)
  {
    hide Text.Add, PutImm, PutLeave, JccCode, PutPush, PopLoad, RetTail, CallMAddress, CallMPush, CallMTarget,
        JmpTarget;
    ghost var t := b.Emitted();
    match o.kind {
      case KJmp => EmitImm(b, 0, o.target);
      case KJcc => EmitJcc(b, o);
      case KCall => EmitCallTarget(b, c, o);
      case KRet => EmitRet(b, c);
      case KCallM => EmitCallM(b, c, o);
      case KJmpM => EmitJmpTarget(b, c, o);
    }
    EmitLeave(b);
    AddAdd(t, EndCode(c, o), PutLeave(), b.max);
  }

  /** One guest instruction. */
  method EmitInsn(b: Buffer, c: Ctx, o: Insn)
    requires b.Valid() && b.check == c.check
    modifies b, b.out, b.fix
    ensures b.Valid() && b.max == old(b.max) && b.Emitted() == old(b.Emitted()).Add(PutInsn(c, o), b.max)
  {
    hide Text.Add, PutImm, PutRmw, PutShift, PutImul, PutSetcc, PutMovx, PutEa, PutLeaResult, PutPush, PutPop,
         PutRegAlu, PutRdReg, PutOperandLoad, PutLeave, JccCode, PopLoad, RetTail, CallMAddress, CallMPush,
         CallMTarget, JmpTarget;
    ValidText(b);
    match o.kind {
      case KNop =>
      case KRR => EmitRegAlu(b, c, o);
      case KRI => EmitRegAlu(b, c, o);
      case KRM => EmitRegAlu(b, c, o);
      case KMR => EmitRmw(b, c, o);
      case KMI => EmitRmw(b, c, o);
      case KShift => EmitShift(b, c, o);
      case KImul => EmitImul(b, c, o);
      case KSetcc => EmitSetcc(b, c, o);
      case KMovx => EmitMovx(b, c, o);
      case KLea => EmitLea(b, o);
      case KPush => EmitPush(b, c, o);
      case KPop => EmitPop(b, c, o);
      case _ => EmitEnd(b, c, o);
    }
  }
}
