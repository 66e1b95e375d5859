/** Where emitted branches go: forward, inside the code, or out through a branch still to be patched. */
module ControlFlow {
  import opened Words
  import opened StatusFlags
  import opened GuestState
  import opened Insns
  import opened A64
  import opened CodeGen
  import opened OutputBuffer
  import opened Emitter
  import opened Encoding

  predicate Branches(w: Instr) { w.B? || w.BCond? || w.CbzW? }

  /** With `left` words from here to the end, the branch goes forward and no further than the end. */
  predicate Lands(w: Instr, left: nat) {
    match w
    case B(off) => 1 <= off <= left
    case BCond(_, off) => 1 <= off <= left
    case CbzW(_, off) => IsHole(w) || 1 <= off <= left
    case _ => true
  }

  predicate Forward(code: seq<Instr>) { forall i :: 0 <= i < |code| ==> Lands(code[i], |code| - i) }

  /** No branch but returns, and every operand one its encoder is meant for. */
  predicate Plain(code: seq<Instr>) { forall i :: 0 <= i < |code| ==> !Branches(code[i]) && InRange(code[i]) }

  /** A word its encoder is meant for, whatever its distance if it is a branch. */
  predicate Meant(w: Instr) { if Branches(w) then (w.BCond? ==> 0 <= w.c < 16) && (w.CbzW? ==> R(w.t)) else InRange(w) }

  predicate AllMeant(code: seq<Instr>) { forall i :: 0 <= i < |code| ==> Meant(code[i]) }

  /** Forward, with at most h branches to the fault exit, and all its words meant for their encoders. */
  predicate Shaped(code: seq<Instr>, h: nat) { Forward(code) && HoleCount(code) <= h && AllMeant(code) }

  lemma ShapedCat(a: seq<Instr>, b: seq<Instr>, h: nat, k: nat)
    requires Shaped(a, h) && Shaped(b, k)
    ensures Shaped(a + b, h + k)
  {
    hide HoleCount;
    HoleCountCat(a, b);
    forall i | 0 <= i < |a + b| ensures Lands((a + b)[i], |a + b| - i) {
      if i < |a| { assert Lands(a[i], |a| - i); } else { assert Lands(b[i - |a|], |b| - (i - |a|)); }
    }
  }

  lemma {:induction false} PlainShaped(code: seq<Instr>)
    requires Plain(code)
    ensures Shaped(code, 0)
    decreases |code|
  {
    if code != [] {
      PlainShaped(code[1..]);
      HoleCountAt(code[1..], 1);
    }
  }

  // --- pieces without branches --------------------------------------------------------------------

  lemma PlainImm(reg: int, v: u64)
    requires R(reg)
    ensures Plain(PutImm(reg, v))
  {
  }

  lemma PlainCall(fn: u64)
    ensures Plain(PutCall(fn))
  {
    hide PutImm;
    PlainImm(9, fn);
  }

  lemma PlainSetRip(rip: u64)
    ensures Plain(PutSetRip(rip))
  {
    hide PutImm;
    PlainImm(9, rip);
  }

  lemma PlainCond(cc: CondCode)
    ensures Plain(PutCondEven(cc))
  {
  }

  lemma PlainRegs(r: int, o: Insn, reg: Reg, size: Size)
    requires 0 <= r < 31
    ensures Plain(PutRdReg(r, o, reg, size)) && Plain(PutWrReg(r, o, reg, size))
  {
    hide PutRdReg, PutWrReg, Plain;
    PlainRead(r, o, reg, size);
    PlainWrite(r, o, reg, size);
  }

  lemma PlainRead(r: int, o: Insn, reg: Reg, size: Size)
    requires 0 <= r < 31
    ensures Plain(PutRdReg(r, o, reg, size))
  {
  }

  lemma PlainWrite(r: int, o: Insn, reg: Reg, size: Size)
    requires 0 <= r < 31
    ensures Plain(PutWrReg(r, o, reg, size))
  {
  }

  lemma PlainEa(o: Insn)
    ensures Plain(PutEa(o))
  {
    hide PutImm;
    PlainImm(1, Wrap(o.next + o.disp));
    PlainImm(1, Wrap(o.disp));
    PlainImm(6, Wrap(o.disp));
  }

  lemma PlainAddress(c: Ctx, o: Insn)
    ensures Plain(PutAddress(c, o))
  {
    hide PutSetRip, PutEa;
    PlainSetRip(c.rip);
    PlainEa(o);
  }

  lemma PlainGather(fn: Helper, need: FlagSet)
    ensures Plain(GatherCode(fn, need))
  {
    hide Gather, When;
    PlainOne(need.cf && !fn.HLogic?, CarryCond(fn), 0);
    PlainOne(need.zf, EQ, 6);
    PlainOne(need.sf, MI, 7);
    PlainOne(need.of && !fn.HLogic?, VS, 11);
  }

  lemma PlainOne(wanted: bool, c: int, bit: int)
    requires 0 <= c < 14 && 0 <= bit < 64
    ensures Plain(When(wanted, Gather(c, bit)))
  {
  }

  lemma PlainFinish(need: FlagSet)
    ensures Plain(FinishCode(need))
  {
    hide PutImm, FlagSet.Mask;
    PlainImm(12, need.Mask());
  }

  lemma PlainInline(fn: Helper, need: FlagSet, w: bool)
    ensures Plain(PutFlagsInline(fn, need, w))
  {
    hide GatherCode, FinishCode;
    PlainGather(fn, need);
    PlainFinish(need);
  }

  lemma PlainFlags(host: Host, fn: Option<Helper>, need: FlagSet, size: Size)
    ensures Plain(PutFlags(host, fn, need, size))
  {
    hide PutFlagsInline, PutCall, PutImm, Host.At, FlagSet.Empty;
    if fn.Some? {
      PlainInline(fn.value, need, size == 4);
      PlainCall(host.At(fn.value));
      PlainImm(2, size);
      PlainImm(3, size);
      PlainImm(4, size);
    }
  }

  // --- loads and stores ------------------------------------------------------------------------------

  lemma FaultCheckShaped()
    ensures Shaped(PutFaultCheck(), 1)
  {
    assert PutFaultCheck()[1..][1..] == [];
    assert Holes(PutFaultCheck()[1..][1..], 2) == [];
    assert Holes(PutFaultCheck()[1..], 1) == [1];
  }

  lemma LoadSlowShaped(host: Host, size: Size)
    ensures Shaped(LoadSlow(host, size), 1)
  {
    hide PutImm, PutCall, PutFaultCheck, Shaped;
    PlainImm(2, size);
    PlainCall(host.ld);
    SlowShaped([Mov(0, CPU)] + PutImm(2, size) + PutCall(host.ld));
  }

  lemma StoreSlowShaped(host: Host, size: Size)
    ensures Shaped(StoreSlow(host, size), 1)
  {
    hide PutImm, PutCall, PutFaultCheck, Shaped;
    PlainImm(3, size);
    PlainCall(host.st);
    SlowShaped([Mov(0, CPU)] + PutImm(3, size) + PutCall(host.st));
  }

  lemma SlowShaped(call: seq<Instr>)
    requires Plain(call)
    ensures Shaped(call + PutFaultCheck(), 1)
  {
    hide PutFaultCheck, Shaped;
    PlainShaped(call);
    FaultCheckShaped();
    ShapedCat(call, PutFaultCheck(), 0, 1);
  }

  /** A branch over the code that follows it, all of it or as far as the last word but one. */
  lemma BranchShaped(w: Instr, off: nat, rest: seq<Instr>, h: nat)
    requires Shaped(rest, h) && 1 <= off <= |rest| + 1
    requires w == B(off) || (w.BCond? && w.off == off) || (w.CbzW? && w.t != 9 && w.off == off)
    requires Meant(w)
    ensures Shaped([w] + rest, h)
  {
    SkipWord(w, rest, 0);
    HoleCountAt(rest, 1);
    forall i | 0 <= i < |[w] + rest| ensures Lands(([w] + rest)[i], |[w] + rest| - i) {
      if i > 0 { assert Lands(rest[i - 1], |rest| - (i - 1)); }
    }
  }

  lemma AccessShaped(e: int, fast: seq<Instr>, slow: seq<Instr>, h: nat)
    requires 0 <= e < 2048 && e % 8 == 0
    requires Plain(fast) && Shaped(slow, h)
    ensures Shaped(PutAccess(e, fast, slow), h)
  {
    hide Shaped, Plain, CheckEntry, PutAccess;
    var tail := fast + ([B(|slow| + 1)] + slow);
    var far := CheckEntry(e + 16) + ([BCond(CS, |fast| + 2)] + tail);
    BranchShaped(B(|slow| + 1), |slow| + 1, slow, h);
    PlainShaped(fast);
    ShapedCat(fast, [B(|slow| + 1)] + slow, 0, h);
    BranchShaped(BCond(CS, |fast| + 2), |fast| + 2, tail, h);
    PlainEntry(e + 16);
    PlainEntry(e);
    PlainShaped(CheckEntry(e + 16));
    ShapedCat(CheckEntry(e + 16), [BCond(CS, |fast| + 2)] + tail, 0, h);
    BranchShaped(BCond(CC, 6), 6, far, h);
    PlainHead(e);
    PlainShaped([Ldr(8, 9, CPU, OFF_AS)] + CheckEntry(e));
    ShapedCat([Ldr(8, 9, CPU, OFF_AS)] + CheckEntry(e), [BCond(CC, 6)] + far, 0, h);
    AccessIsTail(e, fast, slow);
  }

  lemma AccessIsTail(e: int, fast: seq<Instr>, slow: seq<Instr>)
    ensures PutAccess(e, fast, slow) == ([Ldr(8, 9, CPU, OFF_AS)] + CheckEntry(e))
      + ([BCond(CC, 6)] + (CheckEntry(e + 16) + ([BCond(CS, |fast| + 2)] + (fast + ([B(|slow| + 1)] + slow)))))
  {
    hide CheckEntry;
  }

  lemma PlainEntry(e: int)
    requires 0 <= e < 4096 && e % 8 == 0
    ensures Plain(CheckEntry(e)) && |CheckEntry(e)| == 4
  {
  }

  lemma PlainHead(e: int)
    requires 0 <= e < 4096 && e % 8 == 0
    ensures Plain([Ldr(8, 9, CPU, OFF_AS)] + CheckEntry(e))
  {
    hide CheckEntry;
    PlainEntry(e);
  }

  lemma LoadShaped(host: Host, size: Size)
    ensures Shaped(PutLoad(host, size), 1)
  {
    hide Shaped, LoadSlow, PutAccess;
    LoadSlowShaped(host, size);
    AccessShaped(OFF_RD, [LoadFast(size)], LoadSlow(host, size), 1);
  }

  lemma StoreShaped(host: Host, check: bool, size: Size)
    ensures Shaped(PutStore(host, check, size), 1)
  {
    hide Shaped, StoreSlow, StoreLogged, PutAccess;
    StoreSlowShaped(host, size);
    PlainFast(host, check, size);
    AccessShaped(OFF_WR, When(check, StoreLogged(host, size)) + [StoreFast(size)], StoreSlow(host, size), 1);
  }

  lemma PlainFast(host: Host, check: bool, size: Size)
    ensures Plain(When(check, StoreLogged(host, size)) + [StoreFast(size)])
  {
    hide PutImm, PutCall;
    PlainImm(3, size);
    PlainCall(host.wlog);
  }

  // --- instructions ------------------------------------------------------------------------------------

  lemma OperandLoadShaped(c: Ctx, o: Insn, size: Size)
    ensures Shaped(PutOperandLoad(c, o, size), 1)
  {
    hide Shaped, Plain, PutAddress, PutLoad;
    PlainAddress(c, o);
    PlainShaped(PutAddress(c, o));
    LoadShaped(c.host, size);
    ShapedCat(PutAddress(c, o), PutLoad(c.host, size), 0, 1);
  }

  lemma AluTailShaped(c: Ctx, o: Insn)
    ensures Shaped(AluTail(c, o), 0)
  {
    hide Shaped, PutWrReg, PutFlags, FlagHelper;
    PlainRegs(3, o, o.reg, o.size);
    PlainFlags(c.host, FlagHelper(o.op), c.need, o.size);
    PlainOp(o);
    PlainShaped(AluTail(c, o));
  }

  lemma PlainOp(o: Insn)
    ensures Plain([PutOp(o)])
  {
  }

  lemma RegAluShaped(c: Ctx, o: Insn)
    requires o.kind.KRR? || o.kind.KRI? || o.kind.KRM?
    ensures Shaped(PutInsn(c, o), 2)
  {
    hide Shaped, AluTail, PutInsn, OperandsCode;
    RegAluIs(c, o);
    OperandsShaped(c, o);
    AluTailShaped(c, o);
    ShapedCat(OperandsCode(c, o), AluTail(c, o), 1, 0);
    AtMost(PutInsn(c, o), 1, 2);
  }

  lemma AtMost(code: seq<Instr>, h: nat, k: nat)
    requires Shaped(code, h) && h <= k
    ensures Shaped(code, k)
  {
  }

  lemma OperandsShaped(c: Ctx, o: Insn)
    ensures Shaped(OperandsCode(c, o), 1)
  {
    hide Shaped, PutRdReg, PutImm, PutOperandLoad;
    PlainRegs(1, o, o.reg, o.size);
    PlainRegs(2, o, o.src, o.size);
    PlainImm(2, o.imm);
    if o.kind.KRM? {
      OperandLoadShaped(c, o, o.size);
      PlainShaped([Mov(2, 0)] + PutRdReg(1, o, o.reg, o.size));
      ShapedCat(PutOperandLoad(c, o, o.size), [Mov(2, 0)] + PutRdReg(1, o, o.reg, o.size), 1, 0);
    } else {
      PlainShaped(OperandsCode(c, o));
      AtMost(OperandsCode(c, o), 0, 1);
    }
  }

  lemma PlainOperand(o: Insn)
    ensures Plain(OperandCode(o))
  {
    hide PutRdReg, PutImm;
    PlainRegs(2, o, o.reg, o.size);
    PlainImm(2, o.imm);
  }

  lemma KeepAndLoadShaped(c: Ctx, o: Insn)
    ensures Shaped(KeepAndLoad(c, o), 1)
  {
    hide Shaped, PutAddress, PutLoad;
    PlainAddress(c, o);
    PlainShaped(PutAddress(c, o) + [Str(8, 1, CPU, OffTmp(0))]);
    LoadShaped(c.host, o.size);
    ShapedCat(PutAddress(c, o) + [Str(8, 1, CPU, OffTmp(0))], PutLoad(c.host, o.size), 0, 1);
  }

  lemma WriteBackShaped(c: Ctx, o: Insn)
    ensures Shaped(PutWriteBack(c, o), 1)
  {
    hide Shaped, PutStore;
    StoreShaped(c.host, c.check, o.size);
    PlainShaped(SaveCode());
    PlainShaped(RestoreCode());
    ShapedCat(SaveCode(), PutStore(c.host, c.check, o.size), 0, 1);
    ShapedCat(SaveCode() + PutStore(c.host, c.check, o.size), RestoreCode(), 1, 0);
  }

  lemma RmwTailShaped(c: Ctx, o: Insn)
    ensures Shaped(RmwTail(c, o), 1)
  {
    hide Shaped, Plain, PutWriteBack, PutFlags, FlagHelper;
    var w, fl := When(!o.noWrite, PutWriteBack(c, o)), PutFlags(c.host, FlagHelper(o.op), c.need, o.size);
    PlainOp(o);
    PlainShaped([PutOp(o)]);
    WhenShaped(!o.noWrite, c, o);
    ShapedCat([PutOp(o)], w, 0, 1);
    PlainFlags(c.host, FlagHelper(o.op), c.need, o.size);
    PlainShaped(fl);
    ShapedCat([PutOp(o)] + w, fl, 1, 0);
  }

  lemma WhenShaped(b: bool, c: Ctx, o: Insn)
    ensures Shaped(When(b, PutWriteBack(c, o)), 1)
  {
    hide PutWriteBack;
    if b { WriteBackShaped(c, o); }
  }

  lemma RmwShaped(c: Ctx, o: Insn)
    ensures Shaped(PutRmw(c, o), 2)
  {
    hide Shaped, Plain, PutAddress, OperandCode, PutStore, KeepAndLoad, RmwTail;
    PlainOperand(o);
    if o.op.AMov? {
      PlainAddress(c, o);
      PlainShaped(PutAddress(c, o));
      PlainShaped(OperandCode(o));
      StoreShaped(c.host, c.check, o.size);
      ShapedCat(OperandCode(o), PutStore(c.host, c.check, o.size), 0, 1);
      ShapedCat(PutAddress(c, o), OperandCode(o) + PutStore(c.host, c.check, o.size), 0, 1);
      AtMost(PutRmw(c, o), 1, 2);
    } else {
      KeepAndLoadShaped(c, o);
      PlainLoaded(o);
      PlainShaped(LoadedOperands(o));
      RmwTailShaped(c, o);
      ShapedCat(LoadedOperands(o), RmwTail(c, o), 0, 1);
      ShapedCat(KeepAndLoad(c, o), LoadedOperands(o) + RmwTail(c, o), 1, 1);
    }
  }

  lemma PlainLoaded(o: Insn)
    ensures Plain(LoadedOperands(o))
  {
    hide OperandCode;
    PlainOperand(o);
  }

  lemma ShiftOperandShaped(c: Ctx, o: Insn)
    ensures Shaped(PutShiftOperand(c, o), 1)
  {
    hide Shaped, KeepAndLoad, PutRdReg;
    if o.mem {
      PlainShaped(SaveCount(o));
      PlainShaped(TakeLoaded(o));
      KeepAndLoadShaped(c, o);
      ShapedCat(SaveCount(o), KeepAndLoad(c, o), 0, 1);
      ShapedCat(SaveCount(o) + KeepAndLoad(c, o), TakeLoaded(o), 1, 0);
    } else {
      PlainRegs(1, o, o.reg, o.size);
      PlainShaped(PutRdReg(1, o, o.reg, o.size));
      AtMost(PutRdReg(1, o, o.reg, o.size), 0, 1);
    }
  }

  lemma PlainShiftCall(c: Ctx, o: Insn)
    ensures Plain(ShiftArgs(o) + PutCall(c.host.shift))
  {
    hide PutImm, PutCall, MaskedImm;
    PlainImm(2, MaskedImm(o));
    PlainImm(3, o.size);
    PlainImm(4, o.ext);
    PlainCall(c.host.shift);
  }

  lemma ShiftResultShaped(c: Ctx, o: Insn)
    ensures Shaped(ShiftResult(c, o), 1)
  {
    hide Shaped, PutStore, PutWrReg;
    if o.mem {
      StoreShaped(c.host, c.check, o.size);
      PlainShaped([Mov(2, 0), Ldr(8, 1, CPU, OffTmp(0))]);
      ShapedCat([Mov(2, 0), Ldr(8, 1, CPU, OffTmp(0))], PutStore(c.host, c.check, o.size), 0, 1);
    } else {
      PlainRegs(0, o, o.reg, o.size);
      PlainShaped(PutWrReg(0, o, o.reg, o.size));
      AtMost(PutWrReg(0, o, o.reg, o.size), 0, 1);
    }
  }

  lemma ShiftBodyShaped(c: Ctx, o: Insn)
    ensures Shaped(PutShiftBody(c, o), 2)
  {
    hide Shaped, Plain, PutShiftOperand, ShiftArgs, PutCall, ShiftResult;
    ShiftOperandShaped(c, o);
    PlainShiftCall(c, o);
    PlainShaped(ShiftArgs(o) + PutCall(c.host.shift));
    ShiftResultShaped(c, o);
    ShapedCat(ShiftArgs(o) + PutCall(c.host.shift), ShiftResult(c, o), 0, 1);
    ShapedCat(PutShiftOperand(c, o), (ShiftArgs(o) + PutCall(c.host.shift)) + ShiftResult(c, o), 1, 1);
  }

  lemma ShiftShaped(c: Ctx, o: Insn)
    ensures Shaped(PutShift(c, o), 2)
  {
    hide Shaped, PutShiftBody;
    var body := PutShiftBody(c, o);
    ShiftBodyShaped(c, o);
    BranchShaped(CbzW(5, |body| + 1), |body| + 1, body, 2);
    PlainShaped(ClCode(o));
    ShapedCat(ClCode(o), [CbzW(5, |body| + 1)] + body, 0, 2);
    PlainShaped([]);
    AtMost([], 0, 2);
  }

  lemma ImulShaped(c: Ctx, o: Insn)
    ensures Shaped(PutImul(c, o), 2)
  {
    hide Shaped, ImulSource, PutImm, PutFlags;
    PlainImm(2, o.imm);
    PlainFlags(c.host, Some(HLogic), c.need, o.size);
    ImulSourceShaped(c, o);
    var rest := ImulOther(o) + (ImulResult(o) + PutFlags(c.host, Some(HLogic), c.need, o.size));
    PlainShaped(rest);
    ShapedCat(ImulSource(c, o), rest, 1, 0);
    AtMost(PutImul(c, o), 1, 2);
  }

  lemma ImulSourceShaped(c: Ctx, o: Insn)
    ensures Shaped(ImulSource(c, o), 1)
  {
    hide Shaped, PutOperandLoad;
    OperandLoadShaped(c, o, o.size);
    PlainShaped([Mov(1, 0)]);
    ShapedCat(PutOperandLoad(c, o, o.size), [Mov(1, 0)], 1, 0);
    PlainShaped([Ldr(8, 1, CPU, OffR(o.src))]);
    AtMost([Ldr(8, 1, CPU, OffR(o.src))], 0, 1);
  }

  lemma PlainCondValue(o: Insn)
    ensures Plain(CondValue(o))
  {
    hide PutCondEven;
    PlainCond(o.cc);
  }

  lemma SetccShaped(c: Ctx, o: Insn)
    ensures Shaped(PutSetcc(c, o), 2)
  {
    hide Shaped, Plain, CondValue, SetccMem, PutWrReg;
    PlainCondValue(o);
    PlainShaped(CondValue(o));
    SetccMemShaped(c, o);
    PlainRegs(0, o, o.reg, 1);
    PlainShaped(PutWrReg(0, o, o.reg, 1));
    AtMost(PutWrReg(0, o, o.reg, 1), 0, 1);
    ShapedCat(CondValue(o), if o.mem then SetccMem(c, o) else PutWrReg(0, o, o.reg, 1), 0, 1);
    AtMost(PutSetcc(c, o), 1, 2);
  }

  lemma SetccMemShaped(c: Ctx, o: Insn)
    ensures Shaped(SetccMem(c, o), 1)
  {
    hide Shaped, PutAddress, PutStore;
    var l, st := [Ldr(8, 2, CPU, OffTmp(0))], PutStore(c.host, c.check, 1);
    PlainShaped([Str(8, 0, CPU, OffTmp(0))]);
    PlainAddress(c, o);
    PlainShaped(PutAddress(c, o));
    PlainShaped(l);
    StoreShaped(c.host, c.check, 1);
    ShapedCat(l, st, 0, 1);
    ShapedCat(PutAddress(c, o), l + st, 0, 1);
    ShapedCat([Str(8, 0, CPU, OffTmp(0))], PutAddress(c, o) + (l + st), 0, 1);
  }

  lemma MovxShaped(c: Ctx, o: Insn)
    requires o.kind.KMovx? && WellFormed(o)
    ensures Shaped(PutMovx(c, o), 2)
  {
    hide Shaped, PutOperandLoad, PutRdReg;
    OperandLoadShaped(c, o, o.ssize);
    PlainRegs(0, o, o.src, o.ssize);
    PlainShaped(PutRdReg(0, o, o.src, o.ssize));
    AtMost(PutRdReg(0, o, o.src, o.ssize), 0, 1);
    PlainShaped(MovxResult(o));
    ShapedCat(MovxSource(c, o), MovxResult(o), 1, 0);
    AtMost(PutMovx(c, o), 1, 2);
  }

  lemma LeaShaped(c: Ctx, o: Insn)
    ensures Shaped(PutEa(o) + PutLeaResult(o), 2)
  {
    hide Shaped, PutEa;
    PlainEa(o);
    PlainShaped(PutEa(o) + PutLeaResult(o));
    AtMost(PutEa(o) + PutLeaResult(o), 0, 2);
  }

  lemma PushBodyShaped(c: Ctx, value: seq<Instr>)
    requires Plain(value)
    ensures Shaped(PutPushBody(c, value), 1)
  {
    hide Shaped, PutStore;
    PlainShaped(LowerCode() + value);
    StoreShaped(c.host, c.check, 8);
    ShapedCat(LowerCode() + value, PutStore(c.host, c.check, 8), 0, 1);
  }

  lemma PushShaped(c: Ctx, value: seq<Instr>)
    requires Plain(value)
    ensures Shaped(PutPush(c, value), 1)
  {
    hide Shaped, Plain, PutSetRip, PutPushBody;
    PlainSetRip(c.rip);
    PlainShaped(PutSetRip(c.rip));
    PushBodyShaped(c, value);
    ShapedCat(PutSetRip(c.rip), PutPushBody(c, value), 0, 1);
  }

  lemma PopLoadShaped(c: Ctx)
    ensures Shaped(PopLoad(c), 1)
  {
    hide Shaped, PutSetRip, PutLoad;
    PlainSetRip(c.rip);
    PlainShaped(PutSetRip(c.rip) + [Ldr(8, 1, CPU, OffR(RSP))]);
    LoadShaped(c.host, 8);
    ShapedCat(PutSetRip(c.rip) + [Ldr(8, 1, CPU, OffR(RSP))], PutLoad(c.host, 8), 0, 1);
  }

  lemma PopShaped(c: Ctx, save: seq<Instr>)
    requires Plain(save)
    ensures Shaped(PutPop(c, save), 1)
  {
    hide Shaped, PopLoad;
    PopLoadShaped(c);
    PlainShaped(save + RaiseCode());
    ShapedCat(PopLoad(c), save + RaiseCode(), 1, 0);
  }

  lemma RetShaped(c: Ctx)
    ensures Shaped(PopLoad(c) + RetTail(), 1)
  {
    hide Shaped, PopLoad;
    PopLoadShaped(c);
    PlainShaped(RetTail());
    ShapedCat(PopLoad(c), RetTail(), 1, 0);
  }

  lemma JccShaped(o: Insn)
    ensures Shaped(JccCode(o), 0)
  {
    hide Shaped, PutCondEven, PutImm;
    PlainCond(o.cc);
    PlainImm(2, o.target);
    PlainImm(3, o.next);
    PlainShaped(JccCode(o));
  }

  lemma CallShaped(c: Ctx, o: Insn)
    ensures Shaped(PutPush(c, PutImm(2, o.next)) + PutImm(0, o.target), 1)
  {
    hide Shaped, Plain, PutPush, PutImm;
    PlainImm(2, o.next);
    PlainImm(0, o.target);
    PushShaped(c, PutImm(2, o.next));
    PlainShaped(PutImm(0, o.target));
    ShapedCat(PutPush(c, PutImm(2, o.next)), PutImm(0, o.target), 1, 0);
  }

  lemma JmpTargetShaped(c: Ctx, o: Insn)
    ensures Shaped(JmpTarget(c, o), 1)
  {
    hide Shaped, PutOperandLoad;
    OperandLoadShaped(c, o, 8);
    PlainShaped([Ldr(8, 0, CPU, OffR(o.reg))]);
    AtMost([Ldr(8, 0, CPU, OffR(o.reg))], 0, 1);
  }

  lemma PlainCallMAddress(c: Ctx, o: Insn)
    ensures Plain(CallMAddress(c, o))
  {
    hide PutSetRip, PutEa;
    PlainSetRip(c.rip);
    PlainEa(o);
  }

  lemma CallMTargetShaped(c: Ctx, o: Insn)
    ensures Shaped(CallMTarget(c, o), 1)
  {
    hide Shaped, PutLoad;
    LoadShaped(c.host, 8);
    PlainShaped([Ldr(8, 1, CPU, OffTmp(0))]);
    ShapedCat([Ldr(8, 1, CPU, OffTmp(0))], PutLoad(c.host, 8), 0, 1);
    PlainShaped([Ldr(8, 0, CPU, OffR(o.reg))]);
    AtMost([Ldr(8, 0, CPU, OffR(o.reg))], 0, 1);
  }

  lemma CallMShaped(c: Ctx, o: Insn)
    ensures Shaped(CallMAddress(c, o) + (CallMPush(c, o) + CallMTarget(c, o)), 2)
  {
    hide Shaped, Plain, PutImm, PutPushBody, CallMAddress, CallMTarget;
    PlainCallMAddress(c, o);
    PlainShaped(CallMAddress(c, o));
    PlainImm(2, o.next);
    PushBodyShaped(c, PutImm(2, o.next));
    CallMTargetShaped(c, o);
    ShapedCat(CallMPush(c, o), CallMTarget(c, o), 1, 1);
    ShapedCat(CallMAddress(c, o), CallMPush(c, o) + CallMTarget(c, o), 0, 2);
  }

  lemma EndShaped(c: Ctx, o: Insn)
    requires Terminates(o.kind)
    ensures Shaped(EndCode(c, o), 2)
  {
    hide Shaped, PutImm, JccCode, PutPush, PopLoad, RetTail, CallMAddress, CallMPush, CallMTarget, JmpTarget;
    match o.kind
    case KJmp =>
      PlainImm(0, o.target);
      PlainShaped(PutImm(0, o.target));
      AtMost(EndCode(c, o), 0, 2);
    case KJcc =>
      JccShaped(o);
      AtMost(EndCode(c, o), 0, 2);
    case KCall =>
      CallShaped(c, o);
      AtMost(EndCode(c, o), 1, 2);
    case KRet =>
      RetShaped(c);
      AtMost(EndCode(c, o), 1, 2);
    case KCallM => CallMShaped(c, o);
    case KJmpM =>
      JmpTargetShaped(c, o);
      AtMost(EndCode(c, o), 1, 2);
  }

  lemma LeaveShaped()
    ensures Shaped(PutLeave(), 0)
  {
    PlainShaped(PutLeave());
  }

  lemma EndIs(c: Ctx, o: Insn)
    requires Terminates(o.kind)
    ensures PutInsn(c, o) == EndCode(c, o) + PutLeave()
  {
    hide PutImm, JccCode, PutPush, PopLoad, RetTail, CallMAddress, CallMPush, CallMTarget, JmpTarget, PutLeave;
  }

  /** Every branch an instruction emits goes forward and inside its own words, but for at most two to the
      fault exit. */
  lemma InsnShaped(c: Ctx, o: Insn)
    requires WellFormed(o)
    ensures Shaped(PutInsn(c, o), 2)
  {
    hide Shaped, PutImm, PutRmw, PutShift, PutImul, PutSetcc, PutMovx, PutEa, PutLeaResult, PutPush, PutPop, PutRegAlu,
         PutRdReg, PutOperandLoad, PutLeave, EndCode, JccCode, PopLoad, RetTail, CallMAddress, CallMPush, CallMTarget,
         JmpTarget;
    match o.kind
    case KNop =>
      PlainShaped([]);
      AtMost([], 0, 2);
    case KRR => RegAluShaped(c, o);
    case KRI => RegAluShaped(c, o);
    case KRM => RegAluShaped(c, o);
    case KMR => RmwShaped(c, o);
    case KMI => RmwShaped(c, o);
    case KShift => ShiftShaped(c, o);
    case KImul => ImulShaped(c, o);
    case KSetcc => SetccShaped(c, o);
    case KMovx => MovxShaped(c, o);
    case KLea => LeaShaped(c, o);
    case KPush =>
      PushShaped(c, [Ldr(8, 2, CPU, OffR(o.reg))]);
      AtMost(PutInsn(c, o), 1, 2);
    case KPop =>
      PopShaped(c, [Str(8, 0, CPU, OffR(o.reg))]);
      AtMost(PutInsn(c, o), 1, 2);
    case _ =>
      EndIs(c, o);
      EndShaped(c, o);
      LeaveShaped();
      ShapedCat(EndCode(c, o), PutLeave(), 2, 0);
  }
}
