/** Each instruction's words do to the guest what the instruction means, flags outside `need` aside. */
module Simulation {
  import opened Words
  import opened StatusFlags
  import opened Regions
  import opened GuestState
  import opened Insns
  import opened A64
  import opened Execution
  import opened CodeGen
  import opened Fragments
  import opened Accesses
  import opened InlineRuns
  import opened AluRuns

  /** The flags an instruction's words compute when `need` is asked of them. A shift always calls its
      routine, and a byte operation's routine computes everything it writes. */
  function Effective(o: Insn, need: FlagSet): FlagSet {
    if IsAlu(o.kind) then Kept(FlagHelper(o.op), need, o.size)
    else if o.kind.KImul? then Kept(Some(HLogic), need, o.size)
    else if o.kind.KShift? then LOGIC
    else NONE
  }

  /** What compiled code means by an instruction. */
  function Compiled(env: Env, o: Insn, need: FlagSet, g: Guest): Res {
    Meaning(env.regs, o, Effective(o, need), false, g)
  }

  /** Only flags an instruction writes are ever asked of it. */
  predicate NeedFits(o: Insn, need: FlagSet) {
    && (IsAlu(o.kind) && FlagHelper(o.op).Some? ==> need.Subset(HelperWrites(FlagHelper(o.op).value)))
    && (o.kind.KImul? ==> need.Subset(LOGIC))
  }

  ghost predicate Starts(env: Env, c: Ctx, o: Insn, m: Machine) {
    && EnvOk(env) && Ready(env, m) && c.host == env.host && m.g.log.On? == c.check && m.stack != []
    && WellFormed(o) && NeedFits(o, c.need)
  }

  /** The state after an instruction that falls through, or leaves the block for `rip`. */
  ghost predicate GoesOn(env: Env, m: Machine, out: Outcome, g: Guest) {
    out.At? && out.k == 0 && Ready(env, out.m) && out.m.stack == m.stack && out.m.g == g
  }

  ghost predicate Leaves(env: Env, m: Machine, out: Outcome, g: Guest, rip: u64) {
    && out.Left? && out.m.ok && out.m.running && out.m.g == g && X(out.m, 0) == rip
    && HitsValid(env.regs, out.m.rd, READ) && HitsValid(env.regs, out.m.wr, WRITE) && X(out.m, CPU) == env.host.cpu
    && m.stack != [] && X(out.m, LR) == m.stack[0] && out.m.stack == m.stack[1..]
  }

  ghost predicate Faults(env: Env, m: Machine, out: Outcome) { out.Unpatched? && Stops(env, m, out.m) }

  ghost predicate Simulates(env: Env, o: Insn, m: Machine, out: Outcome, r: Res) {
    match r
    case Done(g, rip) =>
      if Terminates(o.kind) then Leaves(env, m, out, g, rip) else GoesOn(env, m, out, g) && rip == o.next
    case Fault => Faults(env, m, out)
  }

  // --- composition --------------------------------------------------------------------------

  lemma Cut(env: Env, a: seq<Instr>, b: seq<Instr>, m: Machine)
    requires !Exec(env, a, m).At?
    ensures Exec(env, a + b, m) == Exec(env, a, m)
  {
    hide Step, Exec;
    ExecCat(env, a, b, m);
  }

  // --- operands -----------------------------------------------------------------------------

  /** Only curRip, scratch registers and nothing else. */
  lemma AddressRuns(env: Env, c: Ctx, o: Insn, m: Machine)
    requires Ready(env, m) && WellFormed(o)
    ensures var out := Exec(env, PutAddress(c, o), m);
      out.At? && out.k == 0 && Continues(env, m, out.m) && out.m.g == m.g && X(out.m, 1) == Address(o, m.g.r)
      && out.m.tmp == m.tmp
  {
    hide Step, Exec, PutSetRip, PutEa, Address, HitsValid;
    SetRipRuns(env, c.rip, m);
    var m1 := SetX(m, 9, c.rip).(curRip := c.rip);
    Then(env, PutSetRip(c.rip), PutEa(o), m, m1);
    EaRuns(env, o, m1);
  }

  ghost predicate LoadedAt(env: Env, a: u64, size: Size, m: Machine, out: Outcome) {
    match Ld(env.regs, m.g, a, size)
    case Some(v) => out.At? && out.k == 0 && Continues(env, m, out.m) && out.m.g == m.g && X(out.m, 0) == v
    case None => Faults(env, m, out)
  }

  lemma OperandLoadRuns(env: Env, c: Ctx, o: Insn, size: Size, m: Machine)
    requires EnvOk(env) && Ready(env, m) && WellFormed(o) && c.host == env.host
    ensures LoadedAt(env, Address(o, m.g.r), size, m, Exec(env, PutOperandLoad(c, o, size), m))
  {
    hide Step, Exec, PutSetRip, PutEa, PutLoad, Address, HitsValid, Ld;
    AddressRuns(env, c, o, m);
    var m1 := Exec(env, PutAddress(c, o), m).m;
    Then(env, PutAddress(c, o), PutLoad(c.host, size), m, m1);
    LoadRuns(env, size, m1);
  }

  // --- the operation ----------------------------------------------------------------------

  function AluGuest(o: Insn, a: u64, b: u64, need: FlagSet, g: Guest): Guest {
    var (r, g1) := AluStep(o, a, b, Effective(o, need), g);
    if o.noWrite then g1 else SetOperand(g1, o.reg, r, o.size, o.hasRex)
  }

  lemma AluFlagsRoutine(f: Flags, op: Alu, a: u64, b: u64, r: u64, size: Size)
    ensures AluFlags(f, op, a, b, r, size) == RoutineOf(FlagHelper(op), f, a, b, r, size)
    ensures FlagHelper(op).Some? ==> FlagRoutine(FlagHelper(op).value)
  {
    hide FlagsAdd, FlagsSub, FlagsLogic, FlagsInc, FlagsDec;
  }

  lemma FlagsOverOperand(g: Guest, reg: Reg, v: u64, size: Size, rex: bool, f: Flags)
    ensures SetOperand(g.(flags := f), reg, v, size, rex) == SetOperand(g, reg, v, size, rex).(flags := f)
    ensures SetOperand(g, reg, v, size, rex).flags == g.flags
  {
    hide WithLowByte, WithHighByte;
  }

  lemma RoutineOfLow(fn: Option<Helper>, f: Flags, a: u64, b: u64, r: u64, a': u64, b': u64, r': u64, size: Size)
    requires Same(a, a', size) && Same(b, b', size) && Same(r, r', size)
    ensures RoutineOf(fn, f, a, b, r, size) == RoutineOf(fn, f, a', b', r', size)
  {
    hide Routine, Same;
    if fn.Some? { RoutineLow(fn.value, f, a, b, r, a', b', r', size); }
  }

  /** The result written back to its register, or nothing. */
  lemma WriteRuns(env: Env, o: Insn, m: Machine)
    requires Ready(env, m) && o.size != 2 && (o.size == 4 ==> X(m, 3) < 0x1_0000_0000)
    ensures var out := Exec(env, When(!o.noWrite, PutWrReg(3, o, o.reg, o.size)), m);
      out.At? && out.k == 0 && KeepsOperands(m, out.m)
      && out.m == m.(x := out.m.x, g := if o.noWrite then m.g else SetOperand(m.g, o.reg, X(m, 3), o.size, o.hasRex))
  {
    hide Step, Exec, PutWrReg, SetOperand, HitsValid;
    if o.noWrite {
      EmptyRuns(env, m);
    } else {
      WrRegRuns(env, 3, o, o.reg, o.size, m);
    }
  }

  /** With operands equal in their low bytes to a and b in x1 and x2, the tail does what the interpreter does. */
  lemma AluTailRuns(env: Env, c: Ctx, o: Insn, a: u64, b: u64, m: Machine)
    requires EnvOk(env) && Ready(env, m) && c.host == env.host && WellFormed(o) && NeedFits(o, c.need) && IsAlu(o.kind)
    requires Same(X(m, 1), a, o.size) && Same(X(m, 2), b, o.size) && (o.op.AInc? || o.op.ADec? ==> X(m, 2) == 1)
    ensures GoesOn(env, m, Exec(env, AluTail(c, o), m), AluGuest(o, a, b, c.need, m.g))
  {
    hide Step, Exec, PutWrReg, PutFlags, HitsValid, OpValue, Same, SetOperand, WellFormed, NeedFits, AluResult, Select,
         RoutineOf, AluFlags, PutOp, FlagHelper, Kept, OperandsFit;
    var v, r := OpValue(o, X(m, 1), X(m, 2)), AluResult(o.op, a, b);
    var size := o.size;
    var m1 := SetX(m, 3, v);
    var w, fl := When(!o.noWrite, PutWrReg(3, o, o.reg, size)), PutFlags(c.host, FlagHelper(o.op), c.need, size);
    OpRuns(env, o, m);
    Then(env, [PutOp(o)], w, m, m1);
    AluPieces(o, c.need);
    ArithLow(o, X(m, 1), X(m, 2), a, b);
    WriteRuns(env, o, m1);
    var m2 := Exec(env, w, m1).m;
    Then(env, [PutOp(o)] + w, fl, m, m2);
    if FlagHelper(o.op).Some? && size != 1 { OpOperands(o, X(m, 1), X(m, 2)); }
    FlagsRun(env, FlagHelper(o.op), c.need, size, m2);
    RoutineOfLow(FlagHelper(o.op), m.g.flags, X(m, 1), X(m, 2), v, a, b, r, size);
    AluFlagsRoutine(m.g.flags, o.op, a, b, r, size);
    AluGuestIs(o, a, b, v, c.need, m.g);
  }

  lemma AluPieces(o: Insn, need: FlagSet)
    requires WellFormed(o) && NeedFits(o, need) && IsAlu(o.kind)
    ensures o.size != 2
    ensures FlagHelper(o.op).Some? ==> FlagRoutine(FlagHelper(o.op).value)
    ensures FlagHelper(o.op).Some? ==> need.Subset(HelperWrites(FlagHelper(o.op).value))
  {
  }

  lemma AluGuestIs(o: Insn, a: u64, b: u64, v: u64, need: FlagSet, g: Guest)
    requires IsAlu(o.kind) && Same(v, AluResult(o.op, a, b), o.size)
    ensures var f := Select(g.flags, AluFlags(g.flags, o.op, a, b, AluResult(o.op, a, b), o.size),
        Kept(FlagHelper(o.op), need, o.size));
      var g1 := if o.noWrite then g else SetOperand(g, o.reg, v, o.size, o.hasRex);
      AluGuest(o, a, b, need, g) == g1.(flags := f) && g1.flags == g.flags
  {
    hide SetOperand, AluResult, AluFlags, Select, Kept, Same;
    SetOperandLow(g, o.reg, v, AluResult(o.op, a, b), o.size, o.hasRex);
    var f := Select(g.flags, AluFlags(g.flags, o.op, a, b, AluResult(o.op, a, b), o.size),
        Kept(FlagHelper(o.op), need, o.size));
    FlagsOverOperand(g, o.reg, AluResult(o.op, a, b), o.size, o.hasRex, f);
  }

  // --- register destinations ------------------------------------------------------------------

  /** The operands are in place: equal in their low bytes to a and b. */
  ghost predicate Placed(env: Env, o: Insn, a: u64, b: u64, m: Machine, out: Outcome) {
    && out.At? && out.k == 0 && Continues(env, m, out.m) && out.m.g == m.g
    && Same(X(out.m, 1), a, o.size) && Same(X(out.m, 2), b, o.size) && (o.op.AInc? || o.op.ADec? ==> X(out.m, 2) == 1)
  }

  lemma RegAluRuns(env: Env, c: Ctx, o: Insn, operands: seq<Instr>, a: u64, b: u64, m: Machine)
    requires Starts(env, c, o, m) && IsAlu(o.kind)
    requires Placed(env, o, a, b, m, Exec(env, operands, m))
    ensures GoesOn(env, m, Exec(env, PutRegAlu(c, o, operands), m), AluGuest(o, a, b, c.need, m.g))
  {
    hide Step, Exec, AluTail, HitsValid, Same, AluGuest, WellFormed, NeedFits;
    var m1 := Exec(env, operands, m).m;
    Then(env, operands, AluTail(c, o), m, m1);
    AluTailRuns(env, c, o, a, b, m1);
  }

  lemma FetchedSame(g: Guest, reg: Reg, size: Size, rex: bool)
    requires size != 2
    ensures Same(Fetched(g, reg, size, rex), RegOperand(g, reg, size, rex), size)
  {
    hide Trunc, Fetched, RegOperand;
    FetchedLow(g, reg, size, rex);
    OperandLow(g, reg, size, rex);
  }

  lemma OperandLow(g: Guest, reg: Reg, size: Size, rex: bool)
    requires size != 2
    ensures Trunc(RegOperand(g, reg, size, rex), size) == RegOperand(g, reg, size, rex)
  {
    TruncTwice(Get(g.r, reg), size);
  }

  lemma TwoRegs(env: Env, o: Insn, m: Machine)
    requires Ready(env, m) && WellFormed(o) && o.kind.KRR?
    ensures Placed(env, o, RegOperand(m.g, o.reg, o.size, o.hasRex), RegOperand(m.g, o.src, o.size, o.hasRex), m,
                   Exec(env, PutRdReg(1, o, o.reg, o.size) + PutRdReg(2, o, o.src, o.size), m))
  {
    hide Step, Exec, PutRdReg, HitsValid, Same, Fetched, RegOperand;
    var m1 := SetX(m, 1, Fetched(m.g, o.reg, o.size, o.hasRex));
    RdRegRuns(env, 1, o, o.reg, o.size, m);
    Then(env, PutRdReg(1, o, o.reg, o.size), PutRdReg(2, o, o.src, o.size), m, m1);
    RdRegRuns(env, 2, o, o.src, o.size, m1);
    FetchedSame(m.g, o.reg, o.size, o.hasRex);
    FetchedSame(m.g, o.src, o.size, o.hasRex);
  }

  lemma RegImm(env: Env, o: Insn, m: Machine)
    requires Ready(env, m) && WellFormed(o) && o.kind.KRI?
    ensures Placed(env, o, RegOperand(m.g, o.reg, o.size, o.hasRex), o.imm, m,
                   Exec(env, PutRdReg(1, o, o.reg, o.size) + PutImm(2, o.imm), m))
  {
    hide Step, Exec, PutRdReg, PutImm, HitsValid, Same, Fetched, RegOperand;
    var m1 := SetX(m, 1, Fetched(m.g, o.reg, o.size, o.hasRex));
    RdRegRuns(env, 1, o, o.reg, o.size, m);
    Then(env, PutRdReg(1, o, o.reg, o.size), PutImm(2, o.imm), m, m1);
    ImmLoads(env, 2, o.imm, m1);
    FetchedSame(m.g, o.reg, o.size, o.hasRex);
    SameSelf(o.imm, o.size);
  }

  lemma SameSelf(v: u64, size: Size)
    ensures Same(v, v, size)
  {
  }

  lemma RrSimulates(env: Env, c: Ctx, o: Insn, m: Machine)
    requires Starts(env, c, o, m) && o.kind.KRR?
    ensures Simulates(env, o, m, Exec(env, PutInsn(c, o), m), Compiled(env, o, c.need, m.g))
  {
    hide Step, Exec, PutRdReg, PutRegAlu, HitsValid, RegOperand, AluStep, SetOperand, Same, Effective;
    TwoRegs(env, o, m);
    RegAluRuns(env, c, o, PutRdReg(1, o, o.reg, o.size) + PutRdReg(2, o, o.src, o.size),
               RegOperand(m.g, o.reg, o.size, o.hasRex), RegOperand(m.g, o.src, o.size, o.hasRex), m);
  }

  lemma RiSimulates(env: Env, c: Ctx, o: Insn, m: Machine)
    requires Starts(env, c, o, m) && o.kind.KRI?
    ensures Simulates(env, o, m, Exec(env, PutInsn(c, o), m), Compiled(env, o, c.need, m.g))
  {
    hide Step, Exec, PutRdReg, PutImm, PutRegAlu, HitsValid, RegOperand, AluStep, SetOperand, Same, Effective;
    RegImm(env, o, m);
    RegAluRuns(env, c, o, PutRdReg(1, o, o.reg, o.size) + PutImm(2, o.imm),
               RegOperand(m.g, o.reg, o.size, o.hasRex), o.imm, m);
  }

  /** A loaded operand moved to x2, the register operand into x1. */
  lemma MemReg(env: Env, c: Ctx, o: Insn, v: u64, m: Machine)
    requires EnvOk(env) && Ready(env, m) && WellFormed(o) && o.kind.KRM? && c.host == env.host
    requires Ld(env.regs, m.g, Address(o, m.g.r), o.size) == Some(v)
    ensures Placed(env, o, RegOperand(m.g, o.reg, o.size, o.hasRex), v, m,
                   Exec(env, PutOperandLoad(c, o, o.size) + ([Mov(2, 0)] + PutRdReg(1, o, o.reg, o.size)), m))
  {
    hide Step, Exec, PutRdReg, PutOperandLoad, HitsValid, Same, Fetched, RegOperand, Ld, Address;
    OperandLoadRuns(env, c, o, o.size, m);
    var m1 := Exec(env, PutOperandLoad(c, o, o.size), m).m;
    Then(env, PutOperandLoad(c, o, o.size), [Mov(2, 0)] + PutRdReg(1, o, o.reg, o.size), m, m1);
    var m2 := SetX(m1, 2, v);
    StepMov(env, 2, 0, m1);
    Run1(env, Mov(2, 0), m1);
    Then(env, [Mov(2, 0)], PutRdReg(1, o, o.reg, o.size), m1, m2);
    RdRegRuns(env, 1, o, o.reg, o.size, m2);
    FetchedSame(m.g, o.reg, o.size, o.hasRex);
    SameSelf(v, o.size);
  }

  lemma RmSimulates(env: Env, c: Ctx, o: Insn, m: Machine)
    requires Starts(env, c, o, m) && o.kind.KRM?
    ensures Simulates(env, o, m, Exec(env, PutInsn(c, o), m), Compiled(env, o, c.need, m.g))
  {
    hide Step, Exec, PutRdReg, PutOperandLoad, AluTail, HitsValid, RegOperand, AluStep, SetOperand, Same, Effective, Ld,
         Address, NeedFits, Stops;
    var load, rest := PutOperandLoad(c, o, o.size), [Mov(2, 0)] + PutRdReg(1, o, o.reg, o.size);
    match Ld(env.regs, m.g, Address(o, m.g.r), o.size)
    case Some(v) =>
      MemReg(env, c, o, v, m);
      RegAluRuns(env, c, o, load + rest, RegOperand(m.g, o.reg, o.size, o.hasRex), v, m);
    case None =>
      OperandLoadRuns(env, c, o, o.size, m);
      Cut(env, load, rest, m);
      Cut(env, load + rest, AluTail(c, o), m);
  }

  // --- memory destinations -------------------------------------------------------------------

  lemma {:induction false} StoreLow(mem: Mem, a: int, v: nat, v': nat, n: nat)
    requires v % ByteLimit(n) == v' % ByteLimit(n)
    ensures Store(mem, a, v, n) == Store(mem, a, v', n)
    decreases n
  {
    if n > 0 {
      ByteSplit(v, ByteLimit(n - 1));
      ByteSplit(v', ByteLimit(n - 1));
      StoreLow(Poke(mem, a, v % 0x100), a + 1, v / 0x100, v' / 0x100, n - 1);
    }
  }

  lemma ByteSplit(v: nat, k: nat)
    requires k >= 1
    ensures v % (0x100 * k) == v % 0x100 + 0x100 * ((v / 0x100) % k)
    ensures (v % (0x100 * k)) % 0x100 == v % 0x100 && (v % (0x100 * k)) / 0x100 == (v / 0x100) % k
  {
    var q, r := (v / 0x100) / k, (v / 0x100) % k;
    assert v / 0x100 == k * q + r;
    assert v == 0x100 * (k * q) + (0x100 * r + v % 0x100);
    assert (0x100 * k) * q == 0x100 * (k * q);
    DivModUnique(v, 0x100 * k, q, 0x100 * r + v % 0x100);
  }

  lemma StLow(regs: seq<Region>, g: Guest, a: u64, v: u64, v': u64, size: Size)
    requires Same(v, v', size)
    ensures St(regs, g, a, v, size) == St(regs, g, a, v', size)
  {
    hide Store, AccessOk, Window, LoadSize, Ok;
    ByteLimits(size);
    TruncMod(v, size);
    TruncMod(v', size);
    StoreLow(g.mem, a, v, v', size);
  }

  /** A store does not look at the flags, or touch them. */
  lemma StFlags(regs: seq<Region>, g: Guest, f: Flags, a: u64, v: u64, size: Size)
    ensures St(regs, g, a, v, size).None? == St(regs, g.(flags := f), a, v, size).None?
    ensures St(regs, g, a, v, size).Some? ==>
      St(regs, g.(flags := f), a, v, size).value == St(regs, g, a, v, size).value.(flags := f)
      && St(regs, g, a, v, size).value.flags == g.flags && St(regs, g, a, v, size).value.r == g.r
  {
    hide Store, AccessOk, Window, LoadSize, Ok;
  }

  ghost predicate StoredAt(env: Env, a: u64, v: u64, size: Size, m: Machine, out: Outcome) {
    match St(env.regs, m.g, a, v, size)
    case Some(g) => out.At? && out.k == 0 && Continues(env, m, out.m) && out.m.g == g
    case None => Faults(env, m, out)
  }

  /** The value from a register or an immediate, into x2. */
  function StoreOperand(o: Insn, g: Guest): u64 {
    if o.kind.KMI? then o.imm else RegOperand(g, o.reg, o.size, o.hasRex)
  }

  lemma OperandRuns(env: Env, o: Insn, m: Machine)
    requires Ready(env, m) && WellFormed(o) && (o.kind.KMI? || o.kind.KMR?)
    ensures var out := Exec(env, OperandCode(o), m);
      out.At? && out.k == 0 && OnlyRegs(m, out.m) && X(out.m, 1) == X(m, 1)
      && Same(X(out.m, 2), StoreOperand(o, m.g), o.size)
      && (IsAlu(o.kind) && (o.op.AInc? || o.op.ADec?) ==> X(out.m, 2) == 1)
  {
    hide Step, Exec, PutRdReg, PutImm, HitsValid, Same, Fetched, RegOperand;
    if o.kind.KMI? {
      ImmLoads(env, 2, o.imm, m);
      SameSelf(o.imm, o.size);
    } else {
      RdRegRuns(env, 2, o, o.reg, o.size, m);
      FetchedSame(m.g, o.reg, o.size, o.hasRex);
    }
  }

  lemma StoreAfter(env: Env, c: Ctx, size: Size, v: u64, m: Machine)
    requires EnvOk(env) && Ready(env, m) && m.g.log.On? == c.check && c.host == env.host && Same(X(m, 2), v, size)
    ensures StoredAt(env, X(m, 1), v, size, m, Exec(env, PutStore(c.host, c.check, size), m))
  {
    hide Step, Exec, PutStore, HitsValid, Same, St;
    StoreRuns(env, c.check, size, m);
    StLow(env.regs, m.g, X(m, 1), X(m, 2), v, size);
  }

  lemma MovStoreRuns(env: Env, c: Ctx, o: Insn, m: Machine)
    requires EnvOk(env) && Ready(env, m) && m.g.log.On? == c.check && c.host == env.host && WellFormed(o)
    requires o.kind.KMI? || o.kind.KMR?
    ensures StoredAt(env, X(m, 1), StoreOperand(o, m.g), o.size, m,
        Exec(env, OperandCode(o) + PutStore(c.host, c.check, o.size), m))
  {
    hide Step, Exec, PutStore, HitsValid, Same, St, OperandCode, StoreOperand;
    OperandRuns(env, o, m);
    var m1 := Exec(env, OperandCode(o), m).m;
    Then(env, OperandCode(o), PutStore(c.host, c.check, o.size), m, m1);
    StoreAfter(env, c, o.size, StoreOperand(o, m.g), m1);
  }

  // --- read-modify-write ---------------------------------------------------------------------

  lemma SaveRun(env: Env, m: Machine)
    requires X(m, CPU) == env.host.cpu
    ensures Exec(env, SaveCode(), m)
         == At(0, SetX(SetX(m.(tmp := m.tmp[1 := X(m, 1)][2 := X(m, 2)][3 := X(m, 3)]), 2, X(m, 3)), 1, Get(m.tmp, 0)))
  {
    hide Step, Exec;
    var m1 := m.(tmp := m.tmp[1 := X(m, 1)]);
    StepStrTmp(env, 1, 1, m);
    var m2 := m1.(tmp := m1.tmp[2 := X(m, 2)]);
    StepStrTmp(env, 2, 2, m1);
    var m3 := m2.(tmp := m2.tmp[3 := X(m, 3)]);
    StepStrTmp(env, 3, 3, m2);
    var m4 := SetX(m3, 2, X(m, 3));
    StepMov(env, 2, 3, m3);
    StepLdrTmp(env, 1, 0, m4);
    Run5(env, Str(8, 1, CPU, OffTmp(1)), Str(8, 2, CPU, OffTmp(2)), Str(8, 3, CPU, OffTmp(3)), Mov(2, 3),
        Ldr(8, 1, CPU, OffTmp(0)), m);
  }

  lemma RestoreRun(env: Env, m: Machine)
    requires X(m, CPU) == env.host.cpu
    ensures Exec(env, RestoreCode(), m)
         == At(0, SetX(SetX(SetX(m, 1, Get(m.tmp, 1)), 2, Get(m.tmp, 2)), 3, Get(m.tmp, 3)))
  {
    hide Step, Exec;
    var m1 := SetX(m, 1, Get(m.tmp, 1));
    StepLdrTmp(env, 1, 1, m);
    var m2 := SetX(m1, 2, Get(m.tmp, 2));
    StepLdrTmp(env, 2, 2, m1);
    StepLdrTmp(env, 3, 3, m2);
    Run3(env, Ldr(8, 1, CPU, OffTmp(1)), Ldr(8, 2, CPU, OffTmp(2)), Ldr(8, 3, CPU, OffTmp(3)), m);
  }

  /** The result stored at the address kept in slot 0, with the operands and the result back in place. */
  ghost predicate WrittenBack(env: Env, size: Size, m: Machine, out: Outcome) {
    match St(env.regs, m.g, Get(m.tmp, 0), X(m, 3), size)
    case Some(g) => out.At? && out.k == 0 && Ready(env, out.m) && out.m.stack == m.stack && out.m.g == g
      && X(out.m, 1) == X(m, 1) && X(out.m, 2) == X(m, 2) && X(out.m, 3) == X(m, 3)
    case None => Faults(env, m, out)
  }

  lemma WriteBackRuns(env: Env, c: Ctx, o: Insn, m: Machine)
    requires EnvOk(env) && Ready(env, m) && m.g.log.On? == c.check && c.host == env.host
    ensures WrittenBack(env, o.size, m, Exec(env, PutWriteBack(c, o), m))
  {
    hide Step, Exec, PutStore, HitsValid, Same, St, SaveCode, RestoreCode, EnvOk;
    var store := PutStore(c.host, c.check, o.size);
    var m1 := SetX(SetX(m.(tmp := m.tmp[1 := X(m, 1)][2 := X(m, 2)][3 := X(m, 3)]), 2, X(m, 3)), 1, Get(m.tmp, 0));
    SaveRun(env, m);
    Then(env, SaveCode(), store, m, m1);
    SameSelf(X(m, 3), o.size);
    StoreAfter(env, c, o.size, X(m, 3), m1);
    if Exec(env, store, m1).At? {
      var m2 := Exec(env, store, m1).m;
      Then(env, SaveCode() + store, RestoreCode(), m, m2);
      RestoreRun(env, m2);
    } else {
      Cut(env, SaveCode() + store, RestoreCode(), m);
    }
  }

  /** What a read-modify-write does once its operands are known. */
  function RmwRes(env: Env, o: Insn, ea: u64, a: u64, b: u64, need: FlagSet, g: Guest): Res {
    var (r, g1) := AluStep(o, a, b, Effective(o, need), g);
    if o.noWrite then Done(g1, o.next) else Store2(env.regs, g1, ea, r, o.size, o.next)
  }

  lemma RmwResIs(env: Env, o: Insn, ea: u64, a: u64, b: u64, v: u64, need: FlagSet, g: Guest)
    requires IsAlu(o.kind) && Same(v, AluResult(o.op, a, b), o.size)
    ensures var f := Select(g.flags, AluFlags(g.flags, o.op, a, b, AluResult(o.op, a, b), o.size),
        Kept(FlagHelper(o.op), need, o.size));
      RmwRes(env, o, ea, a, b, need, g)
        == if o.noWrite then Done(g.(flags := f), o.next)
           else match St(env.regs, g, ea, v, o.size) case Some(g') => Done(g'.(flags := f), o.next) case None => Fault
    ensures St(env.regs, g, ea, v, o.size).Some? ==> St(env.regs, g, ea, v, o.size).value.flags == g.flags
  {
    hide AluResult, AluFlags, Select, Kept, Same, St;
    var r := AluResult(o.op, a, b);
    var f := Select(g.flags, AluFlags(g.flags, o.op, a, b, r, o.size), Kept(FlagHelper(o.op), need, o.size));
    StLow(env.regs, g, ea, v, r, o.size);
    StFlags(env.regs, g, f, ea, r, o.size);
  }

  lemma RmwTailRuns(env: Env, c: Ctx, o: Insn, a: u64, b: u64, m: Machine)
    requires Starts(env, c, o, m) && IsAlu(o.kind)
    requires Same(X(m, 1), a, o.size) && Same(X(m, 2), b, o.size) && (o.op.AInc? || o.op.ADec? ==> X(m, 2) == 1)
    ensures match RmwRes(env, o, Get(m.tmp, 0), a, b, c.need, m.g)
      case Done(g, _) => GoesOn(env, m, Exec(env, RmwTail(c, o), m), g)
      case Fault => Faults(env, m, Exec(env, RmwTail(c, o), m))
  {
    hide Step, Exec, PutWriteBack, PutFlags, HitsValid, OpValue, Same, WellFormed, NeedFits, AluResult, Select, RmwRes,
         RoutineOf, AluFlags, PutOp, FlagHelper, Kept, OperandsFit, St;
    var v, r := OpValue(o, X(m, 1), X(m, 2)), AluResult(o.op, a, b);
    var size := o.size;
    var m1 := SetX(m, 3, v);
    var w, fl := When(!o.noWrite, PutWriteBack(c, o)), PutFlags(c.host, FlagHelper(o.op), c.need, size);
    OpRuns(env, o, m);
    Then(env, [PutOp(o)], w, m, m1);
    AluPieces(o, c.need);
    ArithLow(o, X(m, 1), X(m, 2), a, b);
    RmwResIs(env, o, Get(m.tmp, 0), a, b, v, c.need, m.g);
    RmwWriteRuns(env, c, o, m1);
    if Exec(env, w, m1).At? {
      var m2 := Exec(env, w, m1).m;
      Then(env, [PutOp(o)] + w, fl, m, m2);
      if FlagHelper(o.op).Some? && size != 1 { OpOperands(o, X(m, 1), X(m, 2)); }
      FlagsRun(env, FlagHelper(o.op), c.need, size, m2);
      RoutineOfLow(FlagHelper(o.op), m.g.flags, X(m, 1), X(m, 2), v, a, b, r, size);
      AluFlagsRoutine(m.g.flags, o.op, a, b, r, size);
    } else {
      Cut(env, [PutOp(o)] + w, fl, m);
    }
  }

  lemma RmwWriteRuns(env: Env, c: Ctx, o: Insn, m: Machine)
    requires EnvOk(env) && Ready(env, m) && m.g.log.On? == c.check && c.host == env.host
    ensures var out := Exec(env, When(!o.noWrite, PutWriteBack(c, o)), m);
      if o.noWrite then out == At(0, m) else WrittenBack(env, o.size, m, out)
  {
    hide Step, Exec, PutWriteBack, WrittenBack, HitsValid;
    if o.noWrite {
      EmptyRuns(env, m);
    } else {
      WriteBackRuns(env, c, o, m);
    }
  }
}
