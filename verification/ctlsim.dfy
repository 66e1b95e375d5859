/** The stack, and the instructions that end a block. */
module ControlSimulation {
  import opened Words
  import opened StatusFlags
  import opened Regions
  import opened GuestState
  import opened Insns
  import opened A64
  import opened Execution
  import opened CodeGen
  import opened Fragments
  import opened Accesses
  import opened AluRuns
  import opened Simulation
  import opened MemorySimulation
  import opened ShiftSimulation
  import opened MiscSimulation

  // --- push -----------------------------------------------------------------------------------

  function LowerSp(g: Guest): u64 { Wrap(Get(g.r, RSP) - 8) }

  function Lowered(g: Guest): Guest { g.(r := g.r[RSP := LowerSp(g)]) }

  /** The stack pointer lowered, its new value in x1. */
  function PushSp(m: Machine): Machine { SetX(m, 1, LowerSp(m.g)).(g := Lowered(m.g)) }

  lemma LowerRuns(env: Env, m: Machine)
    requires X(m, CPU) == env.host.cpu
    ensures Exec(env, LowerCode(), m) == At(0, PushSp(m))
  {
    hide Step, Exec;
    var m1 := SetX(m, 1, Get(m.g.r, RSP));
    StepLdrReg(env, 1, RSP, m);
    StepSet(env, 1, SubImm(1, 8), m1);
    var m2 := SetX(m1, 1, LowerSp(m.g));
    StepStrReg(env, 1, RSP, m2);
    Run3(env, Ldr(8, 1, CPU, OffR(RSP)), Set(1, SubImm(1, 8)), Str(8, 1, CPU, OffR(RSP)), m);
    assert m2.x == m.x[1 := LowerSp(m.g)];
  }

  ghost predicate Pushed(env: Env, v: u64, m: Machine, out: Outcome) {
    match Push(env.regs, m.g, v)
    case Some(g) => out.At? && out.k == 0 && Continues(env, m, out.m) && out.m.g == g
    case None => Faults(env, m, out)
  }

  lemma PushBodyRuns(env: Env, c: Ctx, value: seq<Instr>, v: u64, m: Machine)
    requires EnvOk(env) && Ready(env, m) && m.g.log.On? == c.check && c.host == env.host
    requires Exec(env, value, PushSp(m)) == At(0, SetX(PushSp(m), 2, v))
    ensures Pushed(env, v, m, Exec(env, PutPushBody(c, value), m))
  {
    hide Step, Exec, LowerCode, PutStore, HitsValid, St, Same;
    var st := PutStore(c.host, c.check, 8);
    var m1 := PushSp(m);
    var m2 := SetX(m1, 2, v);
    LowerRuns(env, m);
    Then(env, LowerCode(), value, m, m1);
    Then(env, LowerCode() + value, st, m, m2);
    SameSelf(v, 8);
    StoreAfter(env, c, 8, v, m2);
  }

  lemma PushRuns(env: Env, c: Ctx, value: seq<Instr>, v: u64, m: Machine)
    requires EnvOk(env) && Ready(env, m) && m.g.log.On? == c.check && c.host == env.host
    requires var m1 := SetX(m, 9, c.rip).(curRip := c.rip);
      Exec(env, value, PushSp(m1)) == At(0, SetX(PushSp(m1), 2, v))
    ensures Pushed(env, v, m, Exec(env, PutPush(c, value), m))
  {
    hide Step, Exec, PutSetRip, PutPushBody, HitsValid, Push;
    var m1 := SetX(m, 9, c.rip).(curRip := c.rip);
    SetRipRuns(env, c.rip, m);
    Then(env, PutSetRip(c.rip), PutPushBody(c, value), m, m1);
    PushBodyRuns(env, c, value, v, m1);
  }

  lemma PushSimulates(env: Env, c: Ctx, o: Insn, m: Machine)
    requires Starts(env, c, o, m) && o.kind.KPush?
    ensures Simulates(env, o, m, Exec(env, PutInsn(c, o), m), Compiled(env, o, c.need, m.g))
  {
    hide Step, Exec, PutPush, HitsValid, Push, Effective, Address, NeedFits;
    var m1 := PushSp(SetX(m, 9, c.rip).(curRip := c.rip));
    StepLdrReg(env, 2, o.reg, m1);
    Run1(env, Ldr(8, 2, CPU, OffR(o.reg)), m1);
    PushRuns(env, c, [Ldr(8, 2, CPU, OffR(o.reg))], Get(m.g.r, o.reg), m);
  }

  // --- pop ------------------------------------------------------------------------------------

  lemma PopLoadRuns(env: Env, c: Ctx, m: Machine)
    requires EnvOk(env) && Ready(env, m) && c.host == env.host
    ensures LoadedAt(env, Get(m.g.r, RSP), 8, m, Exec(env, PopLoad(c), m))
  {
    hide Step, Exec, PutSetRip, PutLoad, HitsValid, Ld;
    var l := [Ldr(8, 1, CPU, OffR(RSP))];
    var m1 := SetX(m, 9, c.rip).(curRip := c.rip);
    SetRipRuns(env, c.rip, m);
    Then(env, PutSetRip(c.rip), l, m, m1);
    var m2 := SetX(m1, 1, Get(m.g.r, RSP));
    StepLdrReg(env, 1, RSP, m1);
    Run1(env, l[0], m1);
    Then(env, PutSetRip(c.rip) + l, PutLoad(c.host, 8), m, m2);
    LoadRuns(env, 8, m2);
  }

  lemma RaiseRuns(env: Env, m: Machine)
    requires X(m, CPU) == env.host.cpu
    ensures Exec(env, RaiseCode(), m) == At(0, SetX(m, 1, Wrap(Get(m.g.r, RSP) + 8)).(g := PopSp(m.g)))
  {
    hide Step, Exec;
    var m1 := SetX(m, 1, Get(m.g.r, RSP));
    var sp := Wrap(Get(m.g.r, RSP) + 8);
    StepLdrReg(env, 1, RSP, m);
    StepSet(env, 1, AddImm(1, 8), m1);
    var m2 := SetX(m1, 1, sp);
    StepStrReg(env, 1, RSP, m2);
    Run3(env, Ldr(8, 1, CPU, OffR(RSP)), Set(1, AddImm(1, 8)), Str(8, 1, CPU, OffR(RSP)), m);
    assert m2.x == m.x[1 := sp];
  }

  lemma PopSimulates(env: Env, c: Ctx, o: Insn, m: Machine)
    requires Starts(env, c, o, m) && o.kind.KPop?
    ensures Simulates(env, o, m, Exec(env, PutInsn(c, o), m), Compiled(env, o, c.need, m.g))
  {
    hide Step, Exec, PopLoad, RaiseCode, HitsValid, Ld, Effective, Address, NeedFits;
    var save := [Str(8, 0, CPU, OffR(o.reg))];
    PopLoadRuns(env, c, m);
    match Ld(env.regs, m.g, Get(m.g.r, RSP), 8)
    case Some(v) =>
      var m1 := Exec(env, PopLoad(c), m).m;
      Then(env, PopLoad(c), save + RaiseCode(), m, m1);
      PopTailRuns(env, o, v, m1);
    case None => Cut(env, PopLoad(c), save + RaiseCode(), m);
  }

  lemma PopTailRuns(env: Env, o: Insn, v: u64, m: Machine)
    requires Ready(env, m) && o.reg != RSP && X(m, 0) == v
    ensures var g := PopSp(m.g);
      GoesOn(env, m, Exec(env, [Str(8, 0, CPU, OffR(o.reg))] + RaiseCode(), m), g.(r := g.r[o.reg := v]))
  {
    hide Step, Exec, RaiseCode, HitsValid;
    var save := [Str(8, 0, CPU, OffR(o.reg))];
    var m1 := m.(g := m.g.(r := m.g.r[o.reg := v]));
    StepStrReg(env, 0, o.reg, m);
    Run1(env, save[0], m);
    Then(env, save, RaiseCode(), m, m1);
    RaiseRuns(env, m1);
    var sp := Wrap(Get(m.g.r, RSP) + 8);
    assert m.g.r[o.reg := v][RSP := sp] == m.g.r[RSP := sp][o.reg := v];
  }

  // --- leaving --------------------------------------------------------------------------------

  lemma LeaveRuns(env: Env, m: Machine)
    requires m.stack != []
    ensures Exec(env, PutLeave(), m) == Left(SetX(m.(stack := m.stack[1..]), LR, m.stack[0]))
  {
    hide StepLoad, StepStore, StepCall, Value, SetNzcv;
    var code := PutLeave();
    assert code[1..] == [Ret];
  }

  /** Code that puts the next rip in x0, followed by the way out. */
  lemma LeavesBy(env: Env, code: seq<Instr>, m: Machine, g: Guest, rip: u64)
    requires m.stack != [] && GoesOn(env, m, Exec(env, code, m), g) && X(Exec(env, code, m).m, 0) == rip
    ensures Leaves(env, m, Exec(env, code + PutLeave(), m), g, rip)
  {
    hide Step, Exec, PutLeave, HitsValid;
    var m1 := Exec(env, code, m).m;
    Then(env, code, PutLeave(), m, m1);
    LeaveRuns(env, m1);
  }

  lemma JmpSimulates(env: Env, c: Ctx, o: Insn, m: Machine)
    requires Starts(env, c, o, m) && o.kind.KJmp?
    ensures Simulates(env, o, m, Exec(env, PutInsn(c, o), m), Compiled(env, o, c.need, m.g))
  {
    hide Step, Exec, PutImm, PutLeave, HitsValid, Effective, Address, NeedFits;
    ImmLoads(env, 0, o.target, m);
    LeavesBy(env, PutImm(0, o.target), m, m.g, o.target);
  }

  lemma JccCodeRuns(env: Env, o: Insn, m: Machine)
    requires Ready(env, m)
    ensures var out := Exec(env, JccCode(o), m);
      GoesOn(env, m, out, m.g) && X(out.m, 0) == if Cond(m.g.flags, o.cc) then o.target else o.next
  {
    hide Step, Exec, PutCondEven, PutImm, HitsValid, Cond, Holds, Sense;
    CondRuns(env, o.cc, m);
    var m1 := Exec(env, PutCondEven(o.cc), m).m;
    Then(env, PutCondEven(o.cc), PutImm(2, o.target), m, m1);
    ImmLoads(env, 2, o.target, m1);
    var m2 := SetX(m1, 2, o.target);
    Then(env, PutCondEven(o.cc) + PutImm(2, o.target), PutImm(3, o.next), m, m2);
    ImmLoads(env, 3, o.next, m2);
    var m3 := SetX(m2, 3, o.next);
    Then(env, PutCondEven(o.cc) + PutImm(2, o.target) + PutImm(3, o.next), [Set(0, Csel(2, 3, Sense(o.cc)))], m, m3);
    RunSet(env, 0, Csel(2, 3, Sense(o.cc)), m3);
  }

  lemma JccSimulates(env: Env, c: Ctx, o: Insn, m: Machine)
    requires Starts(env, c, o, m) && o.kind.KJcc?
    ensures Simulates(env, o, m, Exec(env, PutInsn(c, o), m), Compiled(env, o, c.need, m.g))
  {
    hide Step, Exec, JccCode, PutLeave, HitsValid, Effective, Address, NeedFits, Cond;
    JccCodeRuns(env, o, m);
    LeavesBy(env, JccCode(o), m, m.g, if Cond(m.g.flags, o.cc) then o.target else o.next);
  }

  // --- call and ret ---------------------------------------------------------------------------

  lemma CallCodeRuns(env: Env, c: Ctx, o: Insn, m: Machine)
    requires Starts(env, c, o, m)
    ensures Pushed(env, o.next, m, Exec(env, PutPush(c, PutImm(2, o.next)), m))
  {
    hide Step, Exec, PutPush, PutImm, HitsValid, Push, WellFormed, NeedFits;
    ImmLoads(env, 2, o.next, PushSp(SetX(m, 9, c.rip).(curRip := c.rip)));
    PushRuns(env, c, PutImm(2, o.next), o.next, m);
  }

  lemma CallSimulates(env: Env, c: Ctx, o: Insn, m: Machine)
    requires Starts(env, c, o, m) && o.kind.KCall?
    ensures Simulates(env, o, m, Exec(env, PutInsn(c, o), m), Compiled(env, o, c.need, m.g))
  {
    hide Step, Exec, PutPush, PutImm, PutLeave, HitsValid, Push, Effective, Address, NeedFits, WellFormed;
    var p, t := PutPush(c, PutImm(2, o.next)), PutImm(0, o.target);
    CallCodeRuns(env, c, o, m);
    if Exec(env, p, m).At? {
      var m1 := Exec(env, p, m).m;
      Then(env, p, t, m, m1);
      ImmLoads(env, 0, o.target, m1);
      LeavesBy(env, p + t, m, m1.g, o.target);
    } else {
      Cut(env, p, t, m);
      Cut(env, p + t, PutLeave(), m);
    }
  }

  lemma RetTailRuns(env: Env, v: u64, m: Machine)
    requires Ready(env, m) && X(m, 0) == v
    ensures var out := Exec(env, RetTail(), m);
      GoesOn(env, m, out, PopSp(m.g)) && X(out.m, 0) == v
  {
    hide Step, Exec, RaiseCode, HitsValid;
    var m1 := m.(tmp := m.tmp[0 := v]);
    StepStrTmp(env, 0, 0, m);
    Run1(env, Str(8, 0, CPU, OffTmp(0)), m);
    Then(env, RetSave(), RaiseCode(), m, m1);
    RaiseRuns(env, m1);
    var m2 := SetX(m1, 1, Wrap(Get(m.g.r, RSP) + 8)).(g := PopSp(m.g));
    Then(env, RetSave() + RaiseCode(), [Ldr(8, 0, CPU, OffTmp(0))], m, m2);
    StepLdrTmp(env, 0, 0, m2);
    Run1(env, Ldr(8, 0, CPU, OffTmp(0)), m2);
  }

  lemma RetSimulates(env: Env, c: Ctx, o: Insn, m: Machine)
    requires Starts(env, c, o, m) && o.kind.KRet?
    ensures Simulates(env, o, m, Exec(env, PutInsn(c, o), m), Compiled(env, o, c.need, m.g))
  {
    hide Step, Exec, PopLoad, RetTail, PutLeave, HitsValid, Ld, Effective, Address, NeedFits, WellFormed;
    PopLoadRuns(env, c, m);
    match Ld(env.regs, m.g, Get(m.g.r, RSP), 8)
    case Some(v) =>
      var m1 := Exec(env, PopLoad(c), m).m;
      Then(env, PopLoad(c), RetTail(), m, m1);
      RetTailRuns(env, v, m1);
      LeavesBy(env, PopLoad(c) + RetTail(), m, PopSp(m.g), v);
    case None =>
      Cut(env, PopLoad(c), RetTail(), m);
      Cut(env, PopLoad(c) + RetTail(), PutLeave(), m);
  }

  // --- indirect jumps and calls ---------------------------------------------------------------

  /** The target in x0, or a fault reading it. */
  ghost predicate TargetReady(env: Env, o: Insn, ea: u64, m: Machine, out: Outcome) {
    match Jump(env.regs, o, ea, m.g)
    case Done(g, t) => GoesOn(env, m, out, g) && X(out.m, 0) == t
    case Fault => Faults(env, m, out)
  }

  lemma JmpTargetRuns(env: Env, c: Ctx, o: Insn, m: Machine)
    requires Starts(env, c, o, m)
    ensures TargetReady(env, o, Address(o, m.g.r), m, Exec(env, JmpTarget(c, o), m))
  {
    hide Step, Exec, PutOperandLoad, HitsValid, Ld, Address, NeedFits;
    if o.mem {
      OperandLoadRuns(env, c, o, 8, m);
    } else {
      StepLdrReg(env, 0, o.reg, m);
      Run1(env, Ldr(8, 0, CPU, OffR(o.reg)), m);
    }
  }

  lemma JmpMSimulates(env: Env, c: Ctx, o: Insn, m: Machine)
    requires Starts(env, c, o, m) && o.kind.KJmpM?
    ensures Simulates(env, o, m, Exec(env, PutInsn(c, o), m), Compiled(env, o, c.need, m.g))
  {
    hide Step, Exec, JmpTarget, PutLeave, HitsValid, Ld, Effective, Address, NeedFits, WellFormed, Jump;
    JmpTargetRuns(env, c, o, m);
    match Jump(env.regs, o, Address(o, m.g.r), m.g)
    case Done(g, t) => LeavesBy(env, JmpTarget(c, o), m, g, t);
    case Fault => Cut(env, JmpTarget(c, o), PutLeave(), m);
  }

  lemma CallMAddressRuns(env: Env, c: Ctx, o: Insn, m: Machine)
    requires Ready(env, m) && WellFormed(o)
    ensures var out := Exec(env, CallMAddress(c, o), m);
      GoesOn(env, m, out, m.g) && (o.mem ==> Get(out.m.tmp, 0) == Address(o, m.g.r))
  {
    hide Step, Exec, PutSetRip, PutEa, HitsValid, Address, WellFormed;
    if o.mem {
      var ea, s := PutAddress(c, o), [Str(8, 1, CPU, OffTmp(0))];
      AddressRuns(env, c, o, m);
      var m1 := Exec(env, ea, m).m;
      Then(env, ea, s, m, m1);
      StepStrTmp(env, 1, 0, m1);
      Run1(env, s[0], m1);
      assert CallMAddress(c, o) == ea + s;
    } else {
      SetRipRuns(env, c.rip, m);
      assert CallMAddress(c, o) == PutSetRip(c.rip);
    }
  }

  lemma CallMPushRuns(env: Env, c: Ctx, o: Insn, m: Machine)
    requires Starts(env, c, o, m)
    ensures Pushed(env, o.next, m, Exec(env, CallMPush(c, o), m))
  {
    hide Step, Exec, PutImm, PutPushBody, HitsValid, Push, WellFormed, NeedFits;
    ImmLoads(env, 2, o.next, PushSp(m));
    PushBodyRuns(env, c, PutImm(2, o.next), o.next, m);
  }

  lemma CallMTargetRuns(env: Env, c: Ctx, o: Insn, ea: u64, m: Machine)
    requires EnvOk(env) && Ready(env, m) && c.host == env.host && (o.mem ==> Get(m.tmp, 0) == ea)
    ensures TargetReady(env, o, ea, m, Exec(env, CallMTarget(c, o), m))
  {
    hide Step, Exec, PutLoad, HitsValid, Ld;
    if o.mem {
      var l := [Ldr(8, 1, CPU, OffTmp(0))];
      var m1 := SetX(m, 1, ea);
      StepLdrTmp(env, 1, 0, m);
      Run1(env, l[0], m);
      Then(env, l, PutLoad(c.host, 8), m, m1);
      LoadRuns(env, 8, m1);
    } else {
      StepLdrReg(env, 0, o.reg, m);
      Run1(env, Ldr(8, 0, CPU, OffR(o.reg)), m);
    }
  }

  /** Push and target together. */
  ghost predicate CalledM(env: Env, o: Insn, ea: u64, m: Machine, out: Outcome) {
    match Push(env.regs, m.g, o.next)
    case None => Faults(env, m, out)
    case Some(g1) =>
      match Jump(env.regs, o, ea, g1)
      case Done(g, t) => GoesOn(env, m, out, g) && X(out.m, 0) == t
      case Fault => Faults(env, m, out)
  }

  lemma CallMBodyRuns(env: Env, c: Ctx, o: Insn, ea: u64, m: Machine)
    requires Starts(env, c, o, m) && (o.mem ==> Get(m.tmp, 0) == ea)
    ensures CalledM(env, o, ea, m, Exec(env, CallMPush(c, o) + CallMTarget(c, o), m))
  {
    hide Step, Exec, CallMPush, CallMTarget, HitsValid, Push, Jump, WellFormed, NeedFits;
    CallMPushRuns(env, c, o, m);
    if Exec(env, CallMPush(c, o), m).At? {
      var m1 := Exec(env, CallMPush(c, o), m).m;
      Then(env, CallMPush(c, o), CallMTarget(c, o), m, m1);
      CallMTargetRuns(env, c, o, ea, m1);
    } else {
      Cut(env, CallMPush(c, o), CallMTarget(c, o), m);
    }
  }

  lemma CallMMeaning(env: Env, o: Insn, need: FlagSet, g: Guest)
    requires o.kind.KCallM?
    ensures Compiled(env, o, need, g)
         == match Push(env.regs, g, o.next)
            case None => Fault
            case Some(g1) => Jump(env.regs, o, Address(o, g.r), g1)
  {
    hide Push, Jump, Address, Effective, Ld;
  }

  lemma CallMSimulates(env: Env, c: Ctx, o: Insn, m: Machine)
    requires Starts(env, c, o, m) && o.kind.KCallM?
    ensures Simulates(env, o, m, Exec(env, PutInsn(c, o), m), Compiled(env, o, c.need, m.g))
  {
    hide Step, Exec, CallMAddress, CallMPush, CallMTarget, PutLeave, HitsValid, Push, Jump, Address, WellFormed,
         NeedFits, Compiled;
    var ad, body := CallMAddress(c, o), CallMPush(c, o) + CallMTarget(c, o);
    CallMMeaning(env, o, c.need, m.g);
    CallMAddressRuns(env, c, o, m);
    var m1 := Exec(env, ad, m).m;
    Then(env, ad, body, m, m1);
    CallMBodyRuns(env, c, o, Address(o, m.g.r), m1);
    if Exec(env, body, m1).At? {
      LeavesBy(env, ad + body, m, Exec(env, body, m1).m.g, X(Exec(env, body, m1).m, 0));
    } else {
      Cut(env, ad + body, PutLeave(), m);
    }
  }

  // --- every instruction ----------------------------------------------------------------------

  /** Whatever the instruction and whatever the state, its words do what it means. */
  lemma InsnSimulates(env: Env, c: Ctx, o: Insn, m: Machine)
    requires Starts(env, c, o, m)
    ensures Simulates(env, o, m, Exec(env, PutInsn(c, o), m), Compiled(env, o, c.need, m.g))
  {
    hide Starts, Simulates, Exec, PutInsn, Compiled;
    match o.kind
    case KRR => RrSimulates(env, c, o, m);
    case KRI => RiSimulates(env, c, o, m);
    case KRM => RmSimulates(env, c, o, m);
    case KMR => RmwSimulates(env, c, o, m);
    case KMI => RmwSimulates(env, c, o, m);
    case KLea => LeaSimulates(env, c, o, m);
    case KPush => PushSimulates(env, c, o, m);
    case KPop => PopSimulates(env, c, o, m);
    case KNop => NopSimulates(env, c, o, m);
    case KMovx => MovxSimulates(env, c, o, m);
    case KShift => ShiftSimulates(env, c, o, m);
    case KImul => ImulSimulates(env, c, o, m);
    case KSetcc => SetccSimulates(env, c, o, m);
    case KJcc => JccSimulates(env, c, o, m);
    case KJmp => JmpSimulates(env, c, o, m);
    case KCall => CallSimulates(env, c, o, m);
    case KRet => RetSimulates(env, c, o, m);
    case KCallM => CallMSimulates(env, c, o, m);
    case KJmpM => JmpMSimulates(env, c, o, m);
  }
}
