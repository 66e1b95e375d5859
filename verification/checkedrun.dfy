/** A block run under the validator, for the dispatcher: whatever it left, the log it left is in order, and
    what the check says fits what the interpreter does. */
module CheckedRuns {
  import opened Words
  import opened StatusFlags
  import opened Regions
  import opened GuestState
  import opened A64
  import opened Execution
  import opened Engines
  import opened BlockSource
  import opened CodeCache
  import opened Unlogged
  import opened Validator

  // --- the log through a run ---------------------------------------------------------------------------

  lemma WriteSane(regs: seq<Region>, g: Guest, a: u64, v: u64, size: Size)
    requires LogSane(g)
    ensures LogSane(g.(log := LogWrite(regs, g, a, v, size)))
  {
    hide Ok, LoadSize, Window;
  }

  lemma HelpSane(env: Env, h: Helper, m: Machine)
    requires LogSane(m.g)
    ensures var r := Help(env, h, m); r.Some? ==> LogSane(r.value.0.g)
  {
    hide LogWrite, Store, AccessOk, LoadSize, Note, ShiftCalc, ShiftFlags, FlagsAdd, FlagsSub, FlagsLogic,
         FlagsInc, FlagsDec, LogSane;
    var size := X(m, if h.HLd? then 2 else 3);
    if IsSize(size) { WriteSane(env.regs, m.g, X(m, 1), X(m, 2), size); }
    forall g: Guest | g.log == m.g.log || (IsSize(size) && g.log == LogWrite(env.regs, m.g, X(m, 1), X(m, 2), size))
      ensures LogSane(g)
    {
      if g.log == m.g.log {
        LogSaneMoves(m.g, g);
      } else {
        LogSaneMoves(m.g.(log := LogWrite(env.regs, m.g, X(m, 1), X(m, 2), size)), g);
      }
    }
  }

  lemma LoadKeepsLog(env: Env, m: Machine, size: Size, t: int, n: int, off: int)
    ensures StepLoad(env, m, size, t, n, off).g.log == m.g.log
  {
    hide LoadSize, CpuField, TableField;
  }

  lemma StoreCpuKeepsLog(m: Machine, size: Size, v: u64, off: int)
    ensures StoreCpu(m, size, v, off).g.log == m.g.log
  {
    hide SlotAt, FromWord, WithLowByte;
    var slot := SlotAt(off);
    if slot.GuestReg? {
      assert StoreCpu(m, size, v, off).g.log == m.g.log;
    } else if slot.FlagsWord? {
      assert StoreCpu(m, size, v, off).g.log == m.g.log;
    } else {
      assert StoreCpu(m, size, v, off).g == m.g;
    }
  }

  lemma StoreKeepsLog(env: Env, m: Machine, size: Size, t: int, n: int, off: int)
    ensures StepStore(env, m, size, t, n, off).g.log == m.g.log
  {
    hide StoreCpu, Store;
    StoreCpuKeepsLog(m, size, X(m, t), off);
  }

  lemma StoresKeepLog(env: Env, i: Instr, m: Machine)
    requires !IsBranch(i) && !i.Blr?
    ensures Step(env, i, m).g.log == m.g.log
  {
    hide Value, SetNzcv, SubsFlags, StepLoad, StepStore, Modelled;
    match i
    case Ldr(size, t, n, off) => LoadKeepsLog(env, m, size, t, n, off);
    case Str(size, t, n, off) => StoreKeepsLog(env, m, size, t, n, off);
    case _ =>
  }

  lemma CallSane(env: Env, m: Machine, target: u64)
    requires LogSane(m.g)
    ensures LogSane(StepCall(env, m, target).g)
  {
    hide Help, Host.Named, LogSane;
    var h := env.host.Named(target);
    if h.Some? { HelpSane(env, h.value, m); }
    forall g: Guest | g.log == m.g.log ensures LogSane(g) { LogSaneMoves(m.g, g); }
  }

  /** No emitted instruction, in whatever state, spoils the log. */
  lemma StepSane(env: Env, i: Instr, m: Machine)
    requires !IsBranch(i) && LogSane(m.g)
    ensures LogSane(Step(env, i, m).g)
  {
    hide LogSane, StepCall, StepLoad, StepStore, Value, SetNzcv, SubsFlags;
    if i.Blr? {
      CallSane(env, m, X(m, i.n));
    } else {
      StoresKeepLog(env, i, m);
      LogSaneMoves(m.g, Step(env, i, m).g);
    }
  }

  lemma {:induction false} ExecSane(env: Env, code: seq<Instr>, m: Machine)
    requires LogSane(m.g)
    ensures LogSane(Exec(env, code, m).m.g)
    decreases |code|
  {
    hide Step, LogSane, Holds;
    if code != [] {
      match code[0]
      case Ret =>
      case B(off) => if 0 < off <= |code| { ExecSane(env, code[off..], m); }
      case BCond(_, off) =>
        ExecSane(env, code[1..], m);
        if 0 < off <= |code| { ExecSane(env, code[off..], m); }
      case CbzW(_, off) =>
        ExecSane(env, code[1..], m);
        if 0 < off <= |code| { ExecSane(env, code[off..], m); }
      case i =>
        StepSane(env, i, m);
        ExecSane(env, code[1..], Step(env, i, m));
    }
  }

  // --- the verdict ------------------------------------------------------------------------------------------

  /** A block entered with an empty log that agrees with the interpreter over n instructions, and the check
      made of it: what the check leaves agrees with the interpreter too, and it only lets a run go on if the
      block got through. */
  lemma CheckAgrees(regs: seq<Region>, code: Mem, g: Guest, rip: u64, n: nat, jit: End, int_: End)
    requires g.log.Off? && n <= LOG_MAX && LogSane(jit.g) && LogSane(int_.g)
    requires Agrees(regs, Interpret(regs, code, rip, g.(log := CLEAN), n), jit.g, jit.rip, !jit.faulted)
    requires int_ == Replay(regs, code, Rewound(g.(log := CLEAN), jit.g), rip, n)
    ensures var goes := Accepts(jit, int_) && !int_.faulted;
      (goes ==> !jit.faulted) && Agrees(regs, Interpret(regs, code, rip, g, n), Silent(int_.g), int_.rip, goes)
  {
    hide Interpret, Replay, Rewound, LogSane, AllReadable, SameWrites, SameCount;
    var entered := g.(log := CLEAN);
    var r := Interpret(regs, code, rip, entered, n);
    InterpretSilent(regs, code, rip, entered, n);
    assert Silent(entered) == g;
    if r.Done? {
      CheckComplete(regs, code, entered, rip, n, jit);
    }
  }
}
