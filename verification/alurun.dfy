/** Running the arithmetic, the flag routines and the condition reads. */
module AluRuns {
  import opened Words
  import opened StatusFlags
  import opened Regions
  import opened GuestState
  import opened Insns
  import opened A64
  import opened Execution
  import opened CodeGen
  import opened Fragments
  import opened Accesses
  import opened InlineFlags
  import opened InlineRuns

  // --- results depend on the low bytes of the operands only ----------------------------------

  predicate Same(a: u64, b: u64, size: Size) { Trunc(a, size) == Trunc(b, size) }

  lemma RoutineLow(fn: Helper, f: Flags, a: u64, b: u64, r: u64, a': u64, b': u64, r': u64, size: Size)
    requires Same(a, a', size) && Same(b, b', size) && Same(r, r', size)
    ensures Routine(fn, f, a, b, r, size) == Routine(fn, f, a', b', r', size)
  {
    hide Trunc, Nibble, EvenParity, Half;
  }

  lemma SetOperandLow(g: Guest, reg: Reg, v: u64, v': u64, size: Size, rex: bool)
    requires Same(v, v', size)
    ensures SetOperand(g, reg, v, size, rex) == SetOperand(g, reg, v', size, rex)
  {
    hide WithLowByte, WithHighByte;
    if size == 1 {
      WithByteLow(Get(g.r, reg), v, v');
      if HighByte(reg, rex) { WithByteLow(Get(g.r, reg - 4), v, v'); }
    }
  }

  lemma WithByteLow(was: u64, v: u64, v': u64)
    requires v % 0x100 == v' % 0x100
    ensures WithLowByte(was, v) == WithLowByte(was, v') && WithHighByte(was, v) == WithHighByte(was, v')
  {
  }

  lemma SumLow(a: u64, b: u64, a': u64, b': u64, size: Size)
    requires Same(a, a', size) && Same(b, b', size)
    ensures Trunc(a + b, size) == Trunc(a' + b', size) && Trunc(a - b, size) == Trunc(a' - b', size)
  {
    hide Trunc;
    TruncSum(a, b, size);
    TruncSum(a', b', size);
  }

  lemma BitsLow(op: BitOp, a: u64, b: u64, a': u64, b': u64, size: Size)
    requires Same(a, a', size) && Same(b, b', size)
    ensures Same(Bits(op, a, b), Bits(op, a', b'), size)
  {
    hide Trunc, Bits;
    BitsTrunc(op, a, b, size);
    BitsTrunc(op, a', b', size);
  }

  /** The operation on whole registers, at the width chosen for the operand size, has the same low
      bytes as the interpreter's result. */
  predicate OpFits(v: u64, r: u64, size: Size) { Same(v, r, size) && (size == 4 ==> v < 0x1_0000_0000) }

  function OpValue(o: Insn, a: u64, b: u64): u64 {
    match PutOp(o).v
    case Arith(op, w, n, k) => Op3Result(op, w, if n == ZR then 0 else a, b)
  }

  lemma ArithLow(o: Insn, a: u64, b: u64, a': u64, b': u64)
    requires o.size != 2 && Same(a, a', o.size) && Same(b, b', o.size)
    ensures OpFits(OpValue(o, a, b), AluResult(o.op, a', b'), o.size)
  {
    hide Trunc, Bits, BitsW, OpFits;
    match o.op
    case AMov => MovLow(b, b', o.size);
    case AAdd => AddLow(a, b, a', b', o.size);
    case AInc => AddLow(a, b, a', b', o.size);
    case ASub => SubLow(a, b, a', b', o.size);
    case ACmp => SubLow(a, b, a', b', o.size);
    case ADec => SubLow(a, b, a', b', o.size);
    case AAnd => LogicLow(And, OpAnd, a, b, a', b', o.size);
    case ATest => LogicLow(And, OpAnd, a, b, a', b', o.size);
    case AOr => LogicLow(Or, OpOrr, a, b, a', b', o.size);
    case AXor => LogicLow(Xor, OpEor, a, b, a', b', o.size);
  }

  lemma MovLow(b: u64, b': u64, size: Size)
    requires size != 2 && Same(b, b', size)
    ensures OpFits(Op3Result(OpOrr, size != 8, 0, b), b', size)
  {
    hide Bits, BitsW;
    OrZeroLeft(b);
    if size != 8 { LowOfLow(b, size); }
  }

  lemma AddLow(a: u64, b: u64, a': u64, b': u64, size: Size)
    requires size != 2 && Same(a, a', size) && Same(b, b', size)
    ensures OpFits(Op3Result(OpAdd, size != 8, a, b), Wrap(a' + b'), size)
  {
    hide Trunc;
    SumLow(a, b, a', b', size);
    TruncWrap(a' + b', size);
    TruncWrap(a + b, size);
    if size != 8 { LowOfLow(a + b, size); }
  }

  lemma SubLow(a: u64, b: u64, a': u64, b': u64, size: Size)
    requires size != 2 && Same(a, a', size) && Same(b, b', size)
    ensures OpFits(Op3Result(OpSub, size != 8, a, b), Wrap(a' - b'), size)
  {
    hide Trunc;
    SumLow(a, b, a', b', size);
    TruncWrap(a' - b', size);
    TruncWrap(a - b, size);
    if size != 8 { LowOfLow(a - b, size); }
  }

  lemma LogicLow(op: BitOp, op3: Op3, a: u64, b: u64, a': u64, b': u64, size: Size)
    requires size != 2 && Same(a, a', size) && Same(b, b', size)
    requires (op == And && op3 == OpAnd) || (op == Or && op3 == OpOrr) || (op == Xor && op3 == OpEor)
    ensures OpFits(Op3Result(op3, size != 8, a, b), Bits(op, a', b'), size)
  {
    hide Trunc, Bitwise;
    BitsLow(op, a, b, a', b', size);
    if size != 8 {
      BitsWTrunc(op, a, b, size);
      Pow2Values();
    }
  }

  lemma OpRuns(env: Env, o: Insn, m: Machine)
    ensures Exec(env, [PutOp(o)], m) == At(0, SetX(m, 3, OpValue(o, X(m, 1), X(m, 2))))
  {
    hide Step, Exec, Op3Result;
    RunSet(env, 3, PutOp(o).v, m);
  }

  /** x1, x2 and x3 suit the in-line flag sequence. */
  lemma OpOperands(o: Insn, a: u64, b: u64)
    requires o.size != 2 && o.size != 1 && FlagHelper(o.op).Some?
    requires o.op.AInc? || o.op.ADec? ==> b == 1
    ensures OperandsFit(FlagHelper(o.op).value, a, b, OpValue(o, a, b), o.size)
  {
    hide Trunc, Bits, BitsW;
    ArithLow(o, a, b, a, b);
    TruncWrap(a + b, o.size);
    TruncWrap(a - b, o.size);
  }

  // --- flags -------------------------------------------------------------------------------

  /** The flags put_flags leaves computed: what is needed in line, all of the routine's for a byte. */
  function Kept(fn: Option<Helper>, need: FlagSet, size: Size): FlagSet {
    if fn.None? || need.Empty() then NONE else if size == 1 then HelperWrites(fn.value) else need
  }

  function RoutineOf(fn: Option<Helper>, f: Flags, a: u64, b: u64, r: u64, size: Size): Flags {
    if fn.None? then f else Routine(fn.value, f, a, b, r, size)
  }

  /** Going on with the same guest but for its flags. */
  ghost predicate FlagsDone(env: Env, m: Machine, out: Outcome, f: Flags) {
    out.At? && out.k == 0 && Continues(env, m, out.m) && out.m.g == m.g.(flags := f)
  }

  lemma SelectWrites(fn: Helper, f: Flags, a: u64, b: u64, r: u64, size: Size)
    requires FlagRoutine(fn)
    ensures Select(f, Routine(fn, f, a, b, r, size), HelperWrites(fn)) == Routine(fn, f, a, b, r, size)
  {
    hide Trunc, Nibble, EvenParity, Half;
  }

  lemma SelectNone(f: Flags, t: Flags)
    ensures Select(f, t, NONE) == f
  {
  }

  /** put_flags with the operands in x1 and x2 and the result in x3. */
  lemma FlagsRun(env: Env, fn: Option<Helper>, need: FlagSet, size: Size, m: Machine)
    requires EnvOk(env) && Ready(env, m) && size != 2
    requires fn.Some? ==> FlagRoutine(fn.value) && need.Subset(HelperWrites(fn.value))
    requires fn.Some? && size != 1 ==> OperandsFit(fn.value, X(m, 1), X(m, 2), X(m, 3), size)
    ensures FlagsDone(env, m, Exec(env, PutFlags(env.host, fn, need, size), m),
                      Select(m.g.flags, RoutineOf(fn, m.g.flags, X(m, 1), X(m, 2), X(m, 3), size),
                          Kept(fn, need, size)))
  {
    hide Step, Exec, PutFlagsInline, Select, Routine, OperandsFit, HelperWrites, FlagSet.Subset, HitsValid, PutFlagCall,
        FlagRoutine;
    if fn.None? || need.Empty() {
      EmptyRuns(env, m);
      SelectNone(m.g.flags, RoutineOf(fn, m.g.flags, X(m, 1), X(m, 2), X(m, 3), size));
    } else if size != 1 {
      InlineFlagsRun(env, fn.value, need, size == 4, m);
    } else {
      FlagCallRuns(env, fn.value, size, m);
      SelectWrites(fn.value, m.g.flags, X(m, 1), X(m, 2), X(m, 3), size);
      FlagCallShape(env.host, fn.value, need, size);
    }
  }

  /** The arguments a flag routine finds. */
  predicate ArgsFor(fn: Helper, m: Machine, a: u64, b: u64, r: u64, size: Size) {
    match fn
    case HLogic => X(m, 1) == r && X(m, 2) == size
    case HInc => X(m, 1) == a && X(m, 2) == r && X(m, 3) == size
    case HDec => X(m, 1) == a && X(m, 2) == r && X(m, 3) == size
    case _ => X(m, 1) == a && X(m, 2) == b && X(m, 3) == r && X(m, 4) == size
  }

  lemma FlagArgsRun(env: Env, fn: Helper, size: Size, m: Machine)
    requires FlagRoutine(fn)
    ensures var out := Exec(env, FlagArgs(fn, size), m);
      out.At? && out.k == 0 && OnlyRegs(m, out.m) && X(out.m, 0) == X(m, 0)
      && ArgsFor(fn, out.m, X(m, 1), X(m, 2), X(m, 3), size)
  {
    hide Step, Exec, PutImm, ArgsFor;
    if fn.HLogic? {
      LogicArgsRun(env, size, m);
    } else if fn.HInc? || fn.HDec? {
      IncArgsRun(env, fn, size, m);
    } else {
      ImmLoads(env, 4, size, m);
      FourArgs(fn, SetX(m, 4, size), size);
    }
  }

  lemma FourArgs(fn: Helper, m: Machine, size: Size)
    requires FlagRoutine(fn) && !fn.HLogic? && !fn.HInc? && !fn.HDec? && X(m, 4) == size
    ensures ArgsFor(fn, m, X(m, 1), X(m, 2), X(m, 3), size)
  {
  }

  lemma LogicArgsRun(env: Env, size: Size, m: Machine)
    ensures var out := Exec(env, FlagArgs(HLogic, size), m);
      out.At? && out.k == 0 && OnlyRegs(m, out.m) && X(out.m, 0) == X(m, 0)
      && ArgsFor(HLogic, out.m, X(m, 1), X(m, 2), X(m, 3), size)
  {
    hide Step, Exec, PutImm;
    var m1 := SetX(m, 1, X(m, 3));
    StepMov(env, 1, 3, m);
    Run1(env, Mov(1, 3), m);
    ImmLoads(env, 2, size, m1);
    Then(env, [Mov(1, 3)], PutImm(2, size), m, m1);
  }

  lemma IncArgsRun(env: Env, fn: Helper, size: Size, m: Machine)
    requires fn.HInc? || fn.HDec?
    ensures var out := Exec(env, FlagArgs(fn, size), m);
      out.At? && out.k == 0 && OnlyRegs(m, out.m) && X(out.m, 0) == X(m, 0)
      && ArgsFor(fn, out.m, X(m, 1), X(m, 2), X(m, 3), size)
  {
    hide Step, Exec, PutImm;
    var m1 := SetX(m, 2, X(m, 3));
    StepMov(env, 2, 3, m);
    Run1(env, Mov(2, 3), m);
    ImmLoads(env, 3, size, m1);
    Then(env, [Mov(2, 3)], PutImm(3, size), m, m1);
  }

  function PutFlagCall(host: Host, fn: Helper, size: Size): seq<Instr> {
    [Mov(0, CPU)] + FlagArgs(fn, size) + PutCall(host.At(fn))
  }

  lemma FlagCallShape(host: Host, fn: Helper, need: FlagSet, size: Size)
    requires !need.Empty() && size == 1
    ensures PutFlags(host, Some(fn), need, size) == PutFlagCall(host, fn, size)
  {
    hide FlagArgs, PutCall, Host.At;
  }

  lemma FlagCallRuns(env: Env, fn: Helper, size: Size, m: Machine)
    requires EnvOk(env) && Ready(env, m) && FlagRoutine(fn)
    ensures FlagsDone(env, m, Exec(env, PutFlagCall(env.host, fn, size), m),
                      Routine(fn, m.g.flags, X(m, 1), X(m, 2), X(m, 3), size))
  {
    hide Step, Exec, FlagArgs, PutCall, Routine, ArgsFor, HitsValid, AfterCall, Help, Host.At;
    var m1 := SetX(m, 0, env.host.cpu);
    StepMov(env, 0, CPU, m);
    Run1(env, Mov(0, CPU), m);
    FlagArgsRun(env, fn, size, m1);
    var m2 := Exec(env, FlagArgs(fn, size), m1).m;
    Then(env, [Mov(0, CPU)], FlagArgs(fn, size), m, m1);
    var t := Routine(fn, m.g.flags, X(m, 1), X(m, 2), X(m, 3), size);
    var m3 := SetFlags(SetX(m2, 9, env.host.At(fn)), t);
    HelpedFlags(env, fn, X(m, 1), X(m, 2), X(m, 3), size, m2);
    CallRuns(env, fn, m2, m3, 0);
    var v := Get(env.junk(m2.calls), 0);
    NotReturning(fn);
    AfterCallRegs(env, m3, v);
    Then(env, [Mov(0, CPU)] + FlagArgs(fn, size), PutCall(env.host.At(fn)), m, m2);
  }

  lemma NotReturning(fn: Helper)
    requires FlagRoutine(fn)
    ensures !Returns(fn)
  {
  }

  lemma HelpedFlags(env: Env, fn: Helper, a: u64, b: u64, r: u64, size: Size, m: Machine)
    requires FlagRoutine(fn) && X(m, 0) == env.host.cpu && ArgsFor(fn, m, a, b, r, size)
    ensures Help(env, fn, SetX(m, 9, env.host.At(fn)))
         == Some((SetFlags(SetX(m, 9, env.host.At(fn)), Routine(fn, m.g.flags, a, b, r, size)), 0))
  {
    hide HelpLd, HelpSt, HelpWlog, HelpShift, FlagsAdd, FlagsSub, FlagsLogic, FlagsInc, FlagsDec;
  }

  // --- conditions ------------------------------------------------------------------------------

  function AsBit(b: bool): u64 { if b then 1 else 0 }

  /** ubfx of one flag bit reads that flag. */
  lemma FieldFlag(f: Flags, i: nat)
    requires FlagBit(i)
    ensures Field(Word(f), i, 1) == AsBit(FlagAt(f, i))
  {
    hide Word;
    WordBit(f, i);
    BitDiv(Word(f), i);
    assert Pow2(1) == 2;
  }

  /** A register that shows the flags: each bit-field of one flag's bit is that flag. */
  ghost predicate Shows(v: u64, f: Flags) { forall i: nat :: FlagBit(i) ==> Field(v, i, 1) == AsBit(FlagAt(f, i)) }

  lemma WordShows(f: Flags)
    ensures Shows(Word(f), f)
  {
    hide Word, Field, FlagAt, AsBit;
    forall i: nat | FlagBit(i) ensures Field(Word(f), i, 1) == AsBit(FlagAt(f, i)) { FieldFlag(f, i); }
  }

  lemma StepUbfxFlag(env: Env, d: int, i: nat, f: Flags, m: Machine)
    requires FlagBit(i) && Shows(X(m, 9), f)
    ensures Step(env, Set(d, Ubfx(9, i, 1)), m) == SetX(m, d, AsBit(FlagAt(f, i)))
  {
    hide Step, Field, FlagAt;
    StepUbfx(env, d, 9, i, 1, m);
  }

  lemma BitOfBits(op: BitOp, p: bool, q: bool)
    requires op == Or || op == Xor
    ensures Bits(op, AsBit(p), AsBit(q)) == AsBit(op.On(p, q))
  {
    hide Bitwise;
    ZeroOp(op, 63);
    BelowOp(op, AsBit(p), AsBit(q), 0, 0, 64);
  }

  lemma {:induction false} ZeroOp(op: BitOp, n: nat)
    requires op == Or || op == Xor
    ensures Bitwise(op, 0, 0, n) == 0
  {
    if n > 0 { ZeroOp(op, n - 1); }
  }

  lemma StepBits(env: Env, xor: bool, p: bool, q: bool, m: Machine)
    requires X(m, 0) == AsBit(p) && X(m, 10) == AsBit(q)
    ensures Step(env, Set(0, Arith(if xor then OpEor else OpOrr, false, 0, 10)), m)
         == SetX(m, 0, AsBit(if xor then p != q else p || q))
  {
    hide Step, Bits;
    BitOfBits(if xor then Xor else Or, p, q);
    StepArith(env, if xor then OpEor else OpOrr, 0, 0, 10, m);
  }

  /** Only x0, x10 and the condition flags may have changed. */
  predicate CondState(m: Machine, m': Machine) {
    && m' == m.(x := m'.x, f := m'.f) && X(m', 9) == X(m, 9) && X(m', CPU) == X(m, CPU)
  }

  /** One flag, and two flags combined, into x0. */
  lemma OneFlag(env: Env, i: nat, m: Machine)
    requires FlagBit(i) && Shows(X(m, 9), m.g.flags)
    ensures var out := Exec(env, [Set(0, Ubfx(9, i, 1))], m);
      out.At? && out.k == 0 && CondState(m, out.m) && X(out.m, 0) == AsBit(FlagAt(m.g.flags, i))
  {
    hide Step, Exec, Shows, FlagAt;
    StepUbfxFlag(env, 0, i, m.g.flags, m);
    Run1(env, Set(0, Ubfx(9, i, 1)), m);
  }

  lemma AddFlag(env: Env, j: nat, xor: bool, p: bool, m: Machine)
    requires FlagBit(j) && Shows(X(m, 9), m.g.flags) && X(m, 0) == AsBit(p)
    ensures var out := Exec(env, [Set(10, Ubfx(9, j, 1)), Set(0, Arith(if xor then OpEor else OpOrr, false, 0, 10))],
        m);
      var q := FlagAt(m.g.flags, j);
      out.At? && out.k == 0 && CondState(m, out.m) && X(out.m, 0) == AsBit(if xor then p != q else p || q)
  {
    hide Step, Exec, Shows, FlagAt, AsBit;
    var q := FlagAt(m.g.flags, j);
    var m1 := SetX(m, 10, AsBit(q));
    StepUbfxFlag(env, 10, j, m.g.flags, m);
    StepBits(env, xor, p, q, m1);
    Run2(env, Set(10, Ubfx(9, j, 1)), Set(0, Arith(if xor then OpEor else OpOrr, false, 0, 10)), m);
  }

  lemma TwoFlags(env: Env, i: nat, j: nat, xor: bool, m: Machine)
    requires FlagBit(i) && FlagBit(j) && Shows(X(m, 9), m.g.flags)
    ensures var out := Exec(env, [Set(0, Ubfx(9, i, 1)), Set(10, Ubfx(9, j, 1)), Set(0,
        Arith(if xor then OpEor else OpOrr, false, 0, 10))], m);
      var p, q := FlagAt(m.g.flags, i), FlagAt(m.g.flags, j);
      out.At? && out.k == 0 && CondState(m, out.m) && X(out.m, 0) == AsBit(if xor then p != q else p || q)
  {
    hide Step, Exec, Shows, FlagAt, AsBit;
    var a, b := [Set(0, Ubfx(9, i, 1))],
        [Set(10, Ubfx(9, j, 1)), Set(0, Arith(if xor then OpEor else OpOrr, false, 0, 10))];
    OneFlag(env, i, m);
    var m1 := Exec(env, a, m).m;
    AddFlag(env, j, xor, FlagAt(m.g.flags, i), m1);
    Then(env, a, b, m, m1);
    assert a + b == [Set(0, Ubfx(9, i, 1)), Set(10, Ubfx(9, j, 1)),
        Set(0, Arith(if xor then OpEor else OpOrr, false, 0, 10))];
  }

  /** The even condition of a pair. */
  predicate EvenCond(f: Flags, cc: CondCode) { Cond(f, cc - cc % 2) }

  lemma CondBitsRun(env: Env, cc: CondCode, m: Machine)
    requires Shows(X(m, 9), m.g.flags)
    ensures var out := Exec(env, CondBits(cc), m);
      out.At? && out.k == 0 && CondState(m, out.m) && X(out.m, 0) == AsBit(EvenCond(m.g.flags, cc))
  {
    hide Step, Exec, Shows;
    if cc / 2 == 0 {
      OneFlag(env, 11, m);
    } else if cc / 2 == 1 {
      OneFlag(env, 0, m);
    } else if cc / 2 == 2 {
      OneFlag(env, 6, m);
    } else if cc / 2 == 3 {
      TwoFlags(env, 0, 6, false, m);
    } else if cc / 2 == 4 {
      OneFlag(env, 7, m);
    } else if cc / 2 == 5 {
      OneFlag(env, 2, m);
    } else if cc / 2 == 6 {
      TwoFlags(env, 7, 11, true, m);
    } else {
      LessOrEqual(env, m);
    }
  }

  lemma LessOrEqual(env: Env, m: Machine)
    requires Shows(X(m, 9), m.g.flags)
    ensures var out := Exec(env, [Set(0, Ubfx(9, 7, 1)), Set(10, Ubfx(9, 11, 1)), Set(0, Arith(OpEor, false, 0, 10)),
                                  Set(10, Ubfx(9, 6, 1)), Set(0, Arith(OpOrr, false, 0, 10))], m);
      out.At? && out.k == 0 && CondState(m, out.m) && X(out.m, 0) == AsBit(EvenCond(m.g.flags, 14))
  {
    hide Step, Exec, Shows, AsBit;
    var a := [Set(0, Ubfx(9, 7, 1)), Set(10, Ubfx(9, 11, 1)), Set(0, Arith(OpEor, false, 0, 10))];
    var b := [Set(10, Ubfx(9, 6, 1)), Set(0, Arith(OpOrr, false, 0, 10))];
    TwoFlags(env, 7, 11, true, m);
    var m1 := Exec(env, a, m).m;
    AddFlag(env, 6, false, m.g.flags.sf != m.g.flags.of, m1);
    Then(env, a, b, m, m1);
    assert a + b == [Set(0, Ubfx(9, 7, 1)), Set(10, Ubfx(9, 11, 1)), Set(0, Arith(OpEor, false, 0, 10)),
                     Set(10, Ubfx(9, 6, 1)), Set(0, Arith(OpOrr, false, 0, 10))];
  }

  /** put_cond_even and the select on its sense agree with cond, for all 16 codes and any flags. */
  lemma CondRuns(env: Env, cc: CondCode, m: Machine)
    requires X(m, CPU) == env.host.cpu
    ensures var out := Exec(env, PutCondEven(cc), m);
      out.At? && out.k == 0 && out.m == m.(x := out.m.x, f := out.m.f) && X(out.m, CPU) == X(m, CPU)
      && Holds(out.m.f, Sense(cc)) == Cond(m.g.flags, cc)
  {
    hide Step, Exec, Word, CondBits, Cond, Holds, SubsFlags;
    var m1 := SetX(m, 9, Word(m.g.flags));
    StepLdrFlags(env, m);
    Run1(env, Ldr(4, 9, CPU, OFF_FLAGS), m);
    WordShows(m.g.flags);
    CondBitsRun(env, cc, m1);
    var m2 := Exec(env, CondBits(cc), m1).m;
    Then(env, [Ldr(4, 9, CPU, OFF_FLAGS)], CondBits(cc), m, m1);
    var m3 := m2.(f := SubsFlags(X(m2, 0), 0, 8));
    StepCmp0(env, m2);
    Run1(env, Cmp0(0), m2);
    Then(env, [Ldr(4, 9, CPU, OFF_FLAGS)] + CondBits(cc), [Cmp0(0)], m, m2);
    SenseHolds(m.g.flags, cc);
  }

  lemma StepCmp0(env: Env, m: Machine)
    ensures Step(env, Cmp0(0), m) == m.(f := SubsFlags(X(m, 0), 0, 8))
  {
    hide SubsFlags, Value, StepCall, StepLoad, StepStore;
  }

  lemma SenseHolds(f: Flags, cc: CondCode)
    ensures Holds(SubsFlags(AsBit(EvenCond(f, cc)), 0, 8), Sense(cc)) == Cond(f, cc)
  {
    hide SubsFlags;
    ZeroFlag(EvenCond(f, cc));
    OddCond(f, cc);
  }

  lemma ZeroFlag(b: bool)
    ensures SubsFlags(AsBit(b), 0, 8).z == !b
  {
    assert Modulus(8) > 1;
    hide Trunc, Modulus, Half, Signed;
    TruncNear(0, 8);
    TruncNear(AsBit(b), 8);
    TruncNear(AsBit(b) + Modulus(8), 8);
  }

  lemma OddCond(f: Flags, cc: CondCode)
    ensures Cond(f, cc) == if cc % 2 == 1 then !EvenCond(f, cc) else EvenCond(f, cc)
  {
    assert (cc - cc % 2) / 2 == cc / 2;
  }
}
