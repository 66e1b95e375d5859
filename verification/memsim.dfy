/** Instructions with a memory destination, shifts and multiplications. */
module MemorySimulation {
  import opened Words
  import opened StatusFlags
  import opened Regions
  import opened GuestState
  import opened Insns
  import opened A64
  import opened Execution
  import opened CodeGen
  import opened Fragments
  import opened Accesses
  import opened AluRuns
  import opened Simulation

  // --- read-modify-write ---------------------------------------------------------------------

  /** The operand loaded into x0, its address kept in slot 0. */
  ghost predicate Kept0(env: Env, a: u64, size: Size, m: Machine, out: Outcome) {
    match Ld(env.regs, m.g, a, size)
    case Some(v) => out.At? && out.k == 0 && Ready(env,
        out.m) && out.m.stack == m.stack && out.m.g == m.g && X(out.m, 0) == v
      && Get(out.m.tmp, 0) == a && Get(out.m.tmp, 1) == Get(m.tmp, 1)
    case None => Faults(env, m, out)
  }

  lemma KeepAndLoadRuns(env: Env, c: Ctx, o: Insn, m: Machine)
    requires EnvOk(env) && Ready(env, m) && WellFormed(o) && c.host == env.host
    ensures Kept0(env, Address(o, m.g.r), o.size, m, Exec(env, KeepAndLoad(c, o), m))
  {
    hide Step, Exec, PutSetRip, PutEa, PutLoad, Address, HitsValid, Ld, WellFormed;
    var ea, s := PutAddress(c, o), [Str(8, 1, CPU, OffTmp(0))];
    AddressRuns(env, c, o, m);
    var m1 := Exec(env, ea, m).m;
    Then(env, ea, s, m, m1);
    var m2 := m1.(tmp := m1.tmp[0 := X(m1, 1)]);
    StepStrTmp(env, 1, 0, m1);
    Run1(env, s[0], m1);
    Then(env, ea + s, PutLoad(c.host, o.size), m, m2);
    LoadRuns(env, o.size, m2);
  }

  lemma LoadedOperandsRun(env: Env, o: Insn, m: Machine)
    requires Ready(env, m) && WellFormed(o) && (o.kind.KMI? || o.kind.KMR?)
    ensures var out := Exec(env, LoadedOperands(o), m);
      out.At? && out.k == 0 && OnlyRegs(m, out.m) && X(out.m, 1) == X(m, 0)
      && Same(X(out.m, 2), StoreOperand(o, m.g), o.size)
      && (o.op.AInc? || o.op.ADec? ==> X(out.m, 2) == 1)
  {
    hide Step, Exec, OperandCode, StoreOperand, Same, HitsValid;
    var m1 := SetX(m, 1, X(m, 0));
    StepMov(env, 1, 0, m);
    Run1(env, Mov(1, 0), m);
    Then(env, [Mov(1, 0)], OperandCode(o), m, m1);
    OperandRuns(env, o, m1);
  }

  lemma RmwMeaning(env: Env, o: Insn, need: FlagSet, g: Guest)
    requires o.kind.KMR? || o.kind.KMI?
    ensures Compiled(env, o, need, g)
         == if o.op.AMov? then Store2(env.regs, g, Address(o, g.r), StoreOperand(o, g), o.size, o.next)
            else match Ld(env.regs, g, Address(o, g.r), o.size)
              case None => Fault
              case Some(a) => RmwRes(env, o, Address(o, g.r), a, StoreOperand(o, g), need, g)
  {
    hide Ld, St, AluStep, Address, Effective, Select, RegOperand;
  }

  lemma MovSimulates(env: Env, c: Ctx, o: Insn, m: Machine)
    requires Starts(env, c, o, m) && (o.kind.KMR? || o.kind.KMI?) && o.op.AMov?
    ensures Simulates(env, o, m, Exec(env, PutInsn(c, o), m), Compiled(env, o, c.need, m.g))
  {
    hide Step, Exec, PutSetRip, PutEa, PutStore, OperandCode, StoreOperand, Address, HitsValid, St, WellFormed,
         NeedFits, Compiled;
    var ea := PutAddress(c, o);
    RmwMeaning(env, o, c.need, m.g);
    AddressRuns(env, c, o, m);
    var m1 := Exec(env, ea, m).m;
    Then(env, ea, OperandCode(o) + PutStore(c.host, c.check, o.size), m, m1);
    MovStoreRuns(env, c, o, m1);
  }

  lemma RmwResRip(env: Env, o: Insn, ea: u64, a: u64, b: u64, need: FlagSet, g: Guest)
    ensures var r := RmwRes(env, o, ea, a, b, need, g);
      r.Done? ==> r.rip == o.next
  {
    hide AluStep, St;
  }

  /** The rest of a read-modify-write, from the loaded operand on. */
  lemma RmwRest(env: Env, c: Ctx, o: Insn, v: u64, m: Machine)
    requires Starts(env, c, o, m) && (o.kind.KMR? || o.kind.KMI?) && X(m, 0) == v
    ensures match RmwRes(env, o, Get(m.tmp, 0), v, StoreOperand(o, m.g), c.need, m.g)
      case Done(g, _) => GoesOn(env, m, Exec(env, LoadedOperands(o) + RmwTail(c, o), m), g)
      case Fault => Faults(env, m, Exec(env, LoadedOperands(o) + RmwTail(c, o), m))
  {
    hide Step, Exec, LoadedOperands, RmwTail, StoreOperand, HitsValid, WellFormed, NeedFits, RmwRes, Same;
    LoadedOperandsRun(env, o, m);
    var m1 := Exec(env, LoadedOperands(o), m).m;
    Then(env, LoadedOperands(o), RmwTail(c, o), m, m1);
    SameSelf(v, o.size);
    RmwTailRuns(env, c, o, v, StoreOperand(o, m.g), m1);
  }

  lemma RmwSimulates(env: Env, c: Ctx, o: Insn, m: Machine)
    requires Starts(env, c, o, m) && (o.kind.KMR? || o.kind.KMI?)
    ensures Simulates(env, o, m, Exec(env, PutInsn(c, o), m), Compiled(env, o, c.need, m.g))
  {
    hide Step, Exec, KeepAndLoad, LoadedOperands, RmwTail, StoreOperand, Address, HitsValid, WellFormed, NeedFits,
         Compiled, RmwRes, Ld;
    if o.op.AMov? {
      MovSimulates(env, c, o, m);
    } else {
      var rest := LoadedOperands(o) + RmwTail(c, o);
      RmwMeaning(env, o, c.need, m.g);
      KeepAndLoadRuns(env, c, o, m);
      match Ld(env.regs, m.g, Address(o, m.g.r), o.size)
      case Some(v) =>
        var m1 := Exec(env, KeepAndLoad(c, o), m).m;
        Then(env, KeepAndLoad(c, o), rest, m, m1);
        RmwRest(env, c, o, v, m1);
        RmwResRip(env, o, Address(o, m.g.r), v, StoreOperand(o, m.g), c.need, m.g);
      case None => Cut(env, KeepAndLoad(c, o), rest, m);
    }
  }
}
