/** Shifts, in the order of their code: the count, the operand, the call, the result. */
module ShiftSimulation {
  import opened Words
  import opened StatusFlags
  import opened Regions
  import opened GuestState
  import opened Insns
  import opened A64
  import opened Execution
  import opened CodeGen
  import opened Fragments
  import opened Accesses
  import opened AluRuns
  import opened Simulation
  import opened MemorySimulation

  // --- the operand ----------------------------------------------------------------------------

  function ShiftOperand(env: Env, o: Insn, g: Guest): Option<u64> {
    if o.mem then Ld(env.regs, g, Address(o, g.r), o.size) else Some(RegOperand(g, o.reg, o.size, o.hasRex))
  }

  /** The operand in x1, its address in slot 0 if it has one, a count taken from cl still in x5. */
  ghost predicate ShiftReady(env: Env, o: Insn, m: Machine, out: Outcome) {
    match ShiftOperand(env, o, m.g)
    case Some(a) => out.At? && out.k == 0 && Ready(env, out.m) && out.m.stack == m.stack && out.m.g == m.g
      && Same(X(out.m, 1), a, o.size) && (o.mem ==> Get(out.m.tmp, 0) == Address(o, m.g.r))
      && (o.byCl ==> X(out.m, 5) == X(m, 5))
    case None => Faults(env, m, out)
  }

  lemma SaveCountRuns(env: Env, o: Insn, m: Machine)
    requires X(m, CPU) == env.host.cpu
    ensures Exec(env, SaveCount(o), m) == At(0, if o.byCl then m.(tmp := m.tmp[1 := X(m, 5)]) else m)
  {
    hide Step, Exec;
    if o.byCl {
      StepStrTmp(env, 5, 1, m);
      Run1(env, Str(8, 5, CPU, OffTmp(1)), m);
    } else {
      EmptyRuns(env, m);
    }
  }

  lemma TakeLoadedRuns(env: Env, o: Insn, m: Machine)
    requires X(m, CPU) == env.host.cpu
    ensures Exec(env, TakeLoaded(o), m)
         == At(0, if o.byCl then SetX(SetX(m, 1, X(m, 0)), 5, Get(m.tmp, 1)) else SetX(m, 1, X(m, 0)))
  {
    hide Step, Exec;
    var m1 := SetX(m, 1, X(m, 0));
    StepMov(env, 1, 0, m);
    Run1(env, Mov(1, 0), m);
    Then(env, [Mov(1, 0)], When(o.byCl, [Ldr(8, 5, CPU, OffTmp(1))]), m, m1);
    if o.byCl {
      StepLdrTmp(env, 5, 1, m1);
      Run1(env, Ldr(8, 5, CPU, OffTmp(1)), m1);
    } else {
      EmptyRuns(env, m1);
    }
  }

  lemma ShiftMemRuns(env: Env, c: Ctx, o: Insn, m: Machine)
    requires EnvOk(env) && Ready(env, m) && WellFormed(o) && c.host == env.host && o.mem
    ensures ShiftReady(env, o, m, Exec(env, SaveCount(o) + KeepAndLoad(c, o) + TakeLoaded(o), m))
  {
    hide Step, Exec, SaveCount, KeepAndLoad, TakeLoaded, Address, HitsValid, WellFormed, Ld, Same;
    SaveCountRuns(env, o, m);
    var m1 := Exec(env, SaveCount(o), m).m;
    Then(env, SaveCount(o), KeepAndLoad(c, o), m, m1);
    KeepAndLoadRuns(env, c, o, m1);
    match Ld(env.regs, m.g, Address(o, m.g.r), o.size)
    case Some(v) =>
      var m2 := Exec(env, KeepAndLoad(c, o), m1).m;
      Then(env, SaveCount(o) + KeepAndLoad(c, o), TakeLoaded(o), m, m2);
      TakeLoadedRuns(env, o, m2);
      SameSelf(v, o.size);
    case None => Cut(env, SaveCount(o) + KeepAndLoad(c, o), TakeLoaded(o), m);
  }

  lemma ShiftOperandRuns(env: Env, c: Ctx, o: Insn, m: Machine)
    requires EnvOk(env) && Ready(env, m) && WellFormed(o) && c.host == env.host
    ensures ShiftReady(env, o, m, Exec(env, PutShiftOperand(c, o), m))
  {
    hide Step, Exec, SaveCount, KeepAndLoad, TakeLoaded, PutRdReg, Address, HitsValid, Ld, Same, Fetched, RegOperand;
    if o.mem {
      ShiftMemRuns(env, c, o, m);
    } else {
      RdRegRuns(env, 1, o, o.reg, o.size, m);
      FetchedSame(m.g, o.reg, o.size, o.hasRex);
    }
  }

  // --- the call ---------------------------------------------------------------------------------

  lemma CountCodeRuns(env: Env, o: Insn, cnt: u64, m: Machine)
    requires cnt == if o.byCl then X(m, 5) else MaskedImm(o)
    ensures Exec(env, CountCode(o), m) == At(0, SetX(m, 2, cnt))
  {
    hide Step, Exec, PutImm;
    if o.byCl {
      StepMov(env, 2, 5, m);
      Run1(env, Mov(2, 5), m);
    } else {
      ImmLoads(env, 2, cnt, m);
    }
  }

  lemma ShiftArgsRun(env: Env, o: Insn, cnt: u64, m: Machine)
    requires cnt == if o.byCl then X(m, 5) else MaskedImm(o)
    ensures Exec(env, ShiftArgs(o), m)
         == At(0, SetX(SetX(SetX(SetX(m, 2, cnt), 0, X(m, CPU)), 3, o.size), 4, o.ext))
  {
    hide Step, Exec, PutImm, CountCode, MaskedImm;
    CountCodeRuns(env, o, cnt, m);
    var m1 := SetX(m, 2, cnt);
    Then(env, CountCode(o), [Mov(0, CPU)], m, m1);
    StepMov(env, 0, CPU, m1);
    Run1(env, Mov(0, CPU), m1);
    var m2 := SetX(m1, 0, X(m, CPU));
    Then(env, CountCode(o) + [Mov(0, CPU)], PutImm(3, o.size), m, m2);
    ImmLoads(env, 3, o.size, m2);
    var m3 := SetX(m2, 3, o.size);
    Then(env, CountCode(o) + [Mov(0, CPU)] + PutImm(3, o.size), PutImm(4, o.ext), m, m3);
    ImmLoads(env, 4, o.ext, m3);
  }

  lemma ShiftLow(a: u64, a': u64, cnt: Count, size: Size, ext: ShiftExt)
    requires Same(a, a', size)
    ensures ShiftCalc(a, cnt, size, ext) == ShiftCalc(a', cnt, size, ext)
  {
    hide Pow2, Trunc;
  }

  lemma HelpedShift(env: Env, a: u64, cnt: Count, size: Size, ext: ShiftExt, m: Machine)
    requires X(m, 0) == env.host.cpu && X(m, 1) == a && X(m, 2) == cnt && X(m, 3) == size && X(m, 4) == ext
    ensures var s := ShiftCalc(a, cnt, size, ext);
      Help(env, HShift, SetX(m, 9, env.host.shift))
        == Some((SetFlags(SetX(m, 9, env.host.shift), ShiftFlags(m.g.flags, s, size)), s.res))
  {
    hide HelpLd, HelpSt, HelpWlog, HelpFlags, ShiftCalc, ShiftFlags;
  }

  /** The routine has run on the operand in x1. */
  ghost predicate Shifting(env: Env, s: Shifted, size: Size, m: Machine, out: Outcome) {
    && out.At? && out.k == 0 && Ready(env, out.m) && out.m.stack == m.stack && out.m.tmp == m.tmp
    && X(out.m, 0) == s.res && out.m.g == m.g.(flags := ShiftFlags(m.g.flags, s, size))
  }

  lemma ShiftCallRuns(env: Env, c: Ctx, o: Insn, cnt: Count, m: Machine)
    requires EnvOk(env) && Ready(env, m) && c.host == env.host
    requires cnt == if o.byCl then X(m, 5) else MaskedImm(o)
    ensures Shifting(env, ShiftCalc(X(m, 1), cnt, o.size, o.ext), o.size, m,
                     Exec(env, ShiftArgs(o) + PutCall(c.host.shift), m))
  {
    hide Step, Exec, ShiftArgs, PutCall, HitsValid, AfterCall, Help, ShiftCalc, ShiftFlags, MaskedImm;
    ShiftArgsRun(env, o, cnt, m);
    var m1 := SetX(SetX(SetX(SetX(m, 2, cnt), 0, X(m, CPU)), 3, o.size), 4, o.ext);
    Then(env, ShiftArgs(o), PutCall(c.host.shift), m, m1);
    var s := ShiftCalc(X(m, 1), cnt, o.size, o.ext);
    var m2 := SetFlags(SetX(m1, 9, env.host.shift), ShiftFlags(m.g.flags, s, o.size));
    HelpedShift(env, X(m, 1), cnt, o.size, o.ext, m1);
    CallRuns(env, HShift, m1, m2, s.res);
    AfterCallRegs(env, m2, s.res);
  }

  // --- the result ---------------------------------------------------------------------------------

  function ShiftWritten(env: Env, o: Insn, ea: u64, v: u64, g: Guest): Res {
    if o.mem then Store2(env.regs, g, ea, v, o.size, o.next)
    else Done(SetOperand(g, o.reg, v, o.size, o.hasRex), o.next)
  }

  lemma ShiftResultRuns(env: Env, c: Ctx, o: Insn, m: Machine)
    requires Starts(env, c, o, m) && (o.size == 4 ==> X(m, 0) < 0x1_0000_0000)
    ensures match ShiftWritten(env, o, Get(m.tmp, 0), X(m, 0), m.g)
      case Done(g, _) => GoesOn(env, m, Exec(env, ShiftResult(c, o), m), g)
      case Fault => Faults(env, m, Exec(env, ShiftResult(c, o), m))
  {
    hide Step, Exec, PutWrReg, PutStore, SetOperand, HitsValid, St, NeedFits, Same;
    if o.mem {
      var m1 := SetX(m, 2, X(m, 0));
      StepMov(env, 2, 0, m);
      var m2 := SetX(m1, 1, Get(m.tmp, 0));
      StepLdrTmp(env, 1, 0, m1);
      Run2(env, Mov(2, 0), Ldr(8, 1, CPU, OffTmp(0)), m);
      Then(env, [Mov(2, 0), Ldr(8, 1, CPU, OffTmp(0))], PutStore(c.host, c.check, o.size), m, m2);
      SameSelf(X(m, 0), o.size);
      StoreAfter(env, c, o.size, X(m, 0), m2);
    } else {
      WrRegRuns(env, 0, o, o.reg, o.size, m);
    }
  }

  // --- the whole ------------------------------------------------------------------------------------

  lemma ShiftSelect(f: Flags, s: Shifted, size: Size)
    ensures Select(f, ShiftFlags(f, s, size), LOGIC) == ShiftFlags(f, s, size)
  {
    hide Trunc, EvenParity;
  }

  lemma ResultNarrow(a: u64, cnt: Count, ext: ShiftExt)
    ensures ShiftCalc(a, cnt, 4, ext).res < 0x1_0000_0000
  {
    hide Pow2;
  }

  /** What a shift by a nonzero count means, in terms of its pieces. */
  function Shifts(env: Env, o: Insn, cnt: Count, g: Guest): Res {
    match ShiftOperand(env, o, g)
    case None => Fault
    case Some(a) =>
      var s := ShiftCalc(a, cnt, o.size, o.ext);
      ShiftWritten(env, o, Address(o, g.r), s.res, g.(flags := ShiftFlags(g.flags, s, o.size)))
  }

  lemma ShiftMeaning(env: Env, o: Insn, need: FlagSet, g: Guest)
    requires o.kind.KShift?
    ensures 0 <= ShiftCount(o, g.r) < 64
    ensures Compiled(env, o, need, g)
         == if ShiftCount(o, g.r) == 0 then Done(g, o.next) else Shifts(env, o, ShiftCount(o, g.r), g)
  {
    hide Ld, Address, St, SetOperand, ShiftCalc, ShiftFlags, RegOperand, Select;
    if ShiftCount(o, g.r) != 0 {
      match ShiftOperand(env, o, g)
      case None =>
      case Some(a) => ShiftSelect(g.flags, ShiftCalc(a, ShiftCount(o, g.r), o.size, o.ext), o.size);
    }
  }

  lemma ShiftTailRuns(env: Env, c: Ctx, o: Insn, a: u64, cnt: Count, m: Machine)
    requires Starts(env, c, o, m) && Same(X(m, 1), a, o.size)
    requires cnt == if o.byCl then X(m, 5) else MaskedImm(o)
    ensures var s := ShiftCalc(a, cnt, o.size, o.ext);
      var out := Exec(env, (ShiftArgs(o) + PutCall(c.host.shift)) + ShiftResult(c, o), m);
      match ShiftWritten(env, o, Get(m.tmp, 0), s.res, m.g.(flags := ShiftFlags(m.g.flags, s, o.size)))
      case Done(g, _) => GoesOn(env, m, out, g)
      case Fault => Faults(env, m, out)
  {
    hide Step, Exec, ShiftArgs, PutCall, HitsValid, ShiftCalc, ShiftFlags, MaskedImm, ShiftResult, ShiftWritten,
        NeedFits, WellFormed, Same;
    var call := ShiftArgs(o) + PutCall(c.host.shift);
    ShiftLow(X(m, 1), a, cnt, o.size, o.ext);
    ShiftCallRuns(env, c, o, cnt, m);
    var m1 := Exec(env, call, m).m;
    Then(env, call, ShiftResult(c, o), m, m1);
    if o.size == 4 { ResultNarrow(a, cnt, o.ext); }
    ShiftResultRuns(env, c, o, m1);
  }

  ghost predicate ShiftsAs(env: Env, m: Machine, out: Outcome, r: Res) {
    match r
    case Done(g, _) => GoesOn(env, m, out, g)
    case Fault => Faults(env, m, out)
  }

  lemma ShiftBodyRuns(env: Env, c: Ctx, o: Insn, cnt: Count, m: Machine)
    requires Starts(env, c, o, m)
    requires cnt == if o.byCl then X(m, 5) else MaskedImm(o)
    ensures ShiftsAs(env, m, Exec(env, PutShiftBody(c, o), m), Shifts(env, o, cnt, m.g))
  {
    hide Step, Exec, ShiftArgs, PutCall, HitsValid, ShiftCalc, ShiftFlags, MaskedImm, ShiftResult, NeedFits, WellFormed,
         PutShiftOperand, Address, Ld, St, SetOperand, RegOperand, Same;
    var rest := (ShiftArgs(o) + PutCall(c.host.shift)) + ShiftResult(c, o);
    ShiftOperandRuns(env, c, o, m);
    match ShiftOperand(env, o, m.g)
    case Some(a) =>
      var m1 := Exec(env, PutShiftOperand(c, o), m).m;
      Then(env, PutShiftOperand(c, o), rest, m, m1);
      ShiftTailRuns(env, c, o, a, cnt, m1);
    case None => Cut(env, PutShiftOperand(c, o), rest, m);
  }

  lemma ClRuns(env: Env, o: Insn, m: Machine)
    requires X(m, CPU) == env.host.cpu && o.byCl
    ensures Exec(env, ClCode(o), m) == At(0, SetX(SetX(m, 5, Get(m.g.r, RCX)), 5, ShiftCount(o, m.g.r)))
  {
    hide Step, Exec;
    var m1 := SetX(m, 5, Get(m.g.r, RCX));
    StepLdrReg(env, 5, RCX, m);
    StepSet(env, 5, Ubfx(5, 0, if o.size == 8 then 6 else 5), m1);
    Run2(env, Ldr(8, 5, CPU, OffR(RCX)), Set(5, Ubfx(5, 0, if o.size == 8 then 6 else 5)), m);
    CountField(Get(m.g.r, RCX));
  }

  lemma CountField(v: u64)
    ensures Field(v, 0, 6) == v % 64 && Field(v, 0, 5) == v % 32
  {
    assert Pow2(3) == 8 && Pow2(6) == 64 && Pow2(5) == 32;
  }

  /** cbz over the whole of the code that follows it. */
  lemma SkipRuns(env: Env, t: int, body: seq<Instr>, m: Machine)
    ensures Exec(env, [CbzW(t, |body| + 1)] + body, m)
         == if X(m, t) % 0x1_0000_0000 == 0 then At(0, m) else Exec(env, body, m)
  {
    hide Step;
    var code := [CbzW(t, |body| + 1)] + body;
    assert code[1..] == body && code[|body| + 1..] == [];
    EmptyRuns(env, m);
  }

  lemma ByClRuns(env: Env, c: Ctx, o: Insn, m: Machine)
    requires Starts(env, c, o, m) && o.byCl && o.kind.KShift?
    ensures ShiftsAs(env, m, Exec(env, PutShift(c, o), m), Compiled(env, o, c.need, m.g))
  {
    hide Step, Exec, PutShiftBody, HitsValid, WellFormed, NeedFits, Compiled, Shifts, ClCode, ShiftCount;
    var cnt := ShiftCount(o, m.g.r);
    var body := PutShiftBody(c, o);
    ShiftMeaning(env, o, c.need, m.g);
    var m1 := SetX(SetX(m, 5, Get(m.g.r, RCX)), 5, cnt);
    ClRuns(env, o, m);
    Then(env, ClCode(o), [CbzW(5, |body| + 1)] + body, m, m1);
    SkipRuns(env, 5, body, m1);
    if cnt != 0 { ShiftBodyRuns(env, c, o, cnt, m1); }
  }

  lemma ShiftSimulates(env: Env, c: Ctx, o: Insn, m: Machine)
    requires Starts(env, c, o, m) && o.kind.KShift?
    ensures Simulates(env, o, m, Exec(env, PutInsn(c, o), m), Compiled(env, o, c.need, m.g))
  {
    hide Step, Exec, PutShiftBody, PutShift, HitsValid, WellFormed, NeedFits, Shifts, ShiftCount, Address, Effective;
    ShiftMeaning(env, o, c.need, m.g);
    ShiftRip(env, o, c.need, m.g);
    if o.byCl {
      ByClRuns(env, c, o, m);
    } else {
      ImmRuns(env, c, o, m);
    }
  }

  lemma ShiftRip(env: Env, o: Insn, need: FlagSet, g: Guest)
    requires o.kind.KShift?
    ensures var r := Compiled(env, o, need, g);
      r.Done? ==> r.rip == o.next
  {
    hide Ld, Address, St, SetOperand, ShiftCalc, ShiftFlags, RegOperand, Select;
  }

  lemma ImmRuns(env: Env, c: Ctx, o: Insn, m: Machine)
    requires Starts(env, c, o, m) && !o.byCl && o.kind.KShift?
    ensures ShiftsAs(env, m, Exec(env, PutShift(c, o), m), Compiled(env, o, c.need, m.g))
  {
    hide Step, Exec, PutShiftBody, HitsValid, WellFormed, NeedFits, Compiled, Shifts;
    ShiftMeaning(env, o, c.need, m.g);
    if MaskedImm(o) == 0 {
      EmptyRuns(env, m);
    } else {
      ShiftBodyRuns(env, c, o, MaskedImm(o), m);
    }
  }
}
