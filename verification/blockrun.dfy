/** Running a finished block: the same registers, flags, memory, log and next rip as the interpreter. */
module BlockRuns {
  import opened Words
  import opened StatusFlags
  import opened Regions
  import opened GuestState
  import opened Insns
  import opened A64
  import opened Execution
  import opened CodeGen
  import opened Fragments
  import opened Accesses
  import opened Simulation
  import opened ControlSimulation
  import opened Liveness
  import opened Stores
  import opened Engines
  import opened OutputBuffer
  import opened ControlFlow
  import opened Encoding
  import opened Block

  // --- control flow ---------------------------------------------------------------------------

  predicate AllWell(v: seq<Insn>) { forall i :: 0 <= i < |v| ==> WellFormed(v[i]) }

  lemma {:induction false} EmitAllShaped(host: Host, check: bool, v: seq<Insn>, rip: u64)
    requires AllWell(v)
    ensures Shaped(EmitAll(host, check, v, rip), 2 * |v|)
    decreases |v|
  {
    hide Shaped, PutInsn, WellFormed;
    if v == [] {
      PlainShaped([]);
    } else {
      assert forall i :: 0 <= i < |v[1..]| ==> v[1..][i] == v[i + 1];
      var c := Ctx(host, check, Need(v), rip);
      InsnShaped(c, v[0]);
      EmitAllShaped(host, check, v[1..], v[0].next);
      ShapedCat(PutInsn(c, v[0]), EmitAll(host, check, v[1..], v[0].next), 2, 2 * |v[1..]|);
    }
  }

  /** A block's branches all go forward and inside it, but for at most two an instruction to the exit. */
  lemma DraftShaped(host: Host, check: bool, v: seq<Insn>, rip: u64)
    requires AllWell(v)
    ensures Shaped(Draft(host, check, v, rip), 2 * |v|)
  {
    hide Shaped, EmitAll, FallOff;
    EmitAllShaped(host, check, v, rip);
    PlainShaped([PushX(LR)]);
    ShapedCat([PushX(LR)], EmitAll(host, check, v, rip), 0, 2 * |v|);
    TailSize(v, rip);
    PlainShaped(FallOff(v, rip));
    ShapedCat(Body(host, check, v, rip), FallOff(v, rip), 2 * |v|, 0);
  }

  /** With no more than 48 instructions the list of branches to patch cannot overflow. */
  lemma FixesSuffice(host: Host, check: bool, v: seq<Insn>, rip: u64)
    requires |v| <= 48 && AllWell(v)
    ensures HoleCount(Draft(host, check, v, rip)) <= 96 && MAX_FIX == 256
  {
    hide HoleCount, Draft, AllWell;
    DraftShaped(host, check, v, rip);
  }

  /** In a finished block no branch is left unpatched, and every one goes forward to a word of the block. */
  lemma BlockForward(host: Host, check: bool, v: seq<Insn>, rip: u64)
    requires AllWell(v)
    ensures var code := BlockCode(host, check, v, rip);
      forall i :: 0 <= i < |code| ==> !IsHole(code[i]) && Lands(code[i], |code| - i - 1)
  {
    hide Draft, AllWell;
    var head := Draft(host, check, v, rip);
    var code := BlockCode(host, check, v, rip);
    DraftShaped(host, check, v, rip);
    PatchedAt(head, |head|);
    TailSize(v, rip);
    forall i | 0 <= i < |code| ensures !IsHole(code[i]) && Lands(code[i], |code| - i - 1) {
      if i < |head| {
        assert Lands(head[i], |head| - i);
      } else {
        assert code[i] == ExitCode()[i - |head|];
      }
    }
  }

  // --- patched code ----------------------------------------------------------------------------

  lemma PatchedRest(code: seq<Instr>, dist: int, off: nat)
    requires off <= |code|
    ensures |Patched(code, dist)| == |code|
    ensures Patched(code, dist)[off..] == Patched(code[off..], dist - off)
  {
    PatchedAt(code, dist);
    PatchedAt(code[off..], dist - off);
  }

  lemma ForwardRest(code: seq<Instr>, off: nat)
    requires Forward(code) && off <= |code|
    ensures Forward(code[off..])
  {
    forall i | 0 <= i < |code[off..]| ensures Lands(code[off..][i], |code[off..]| - i) {
      assert Lands(code[off + i], |code| - (off + i));
    }
  }

  /** Falling off the end, or leaving through a branch that was still open, reaches the exit. */
  function Through(env: Env, out: Outcome, exit: seq<Instr>): Outcome {
    match out
    case At(_, m) => Exec(env, exit, m)
    case Unpatched(m) => Exec(env, exit, m)
    case Left(m) => out
  }

  ghost predicate GoesThrough(env: Env, code: seq<Instr>, exit: seq<Instr>, m: Machine) {
    var out := Exec(env, code, m);
    (out.At? ==> out.k == 0) && Exec(env, Patched(code, |code|) + exit, m) == Through(env, out, exit)
  }

  lemma {:induction false} PatchedRuns(env: Env, code: seq<Instr>, exit: seq<Instr>, m: Machine)
    requires Forward(code)
    ensures GoesThrough(env, code, exit, m)
    decreases |code|
  {
    hide Step, Forward, Lands;
    if code == [] {
      assert Patched(code, 0) + exit == exit;
    } else {
      NextWord(code, exit);
      match code[0]
      case Ret =>
      case B(off) => PatchedBranch(env, code, off, exit, m);
      case BCond(_, off) =>
        PatchedBranch(env, code, off, exit, m);
        PatchedNext(env, code, exit, m);
      case CbzW(_, off) =>
        PatchedBranch(env, code, off, exit, m);
        PatchedNext(env, code, exit, m);
      case i => PatchedNext(env, code, exit, Step(env, i, m));
    }
  }

  lemma NextWord(code: seq<Instr>, exit: seq<Instr>)
    requires code != []
    ensures var p := Patched(code, |code|) + exit;
      p[0] == (if IsHole(code[0]) then CbzW(9, |code|) else code[0]) && p[1..] == Patched(code[1..], |code| - 1) + exit
  {
    var w, q := if IsHole(code[0]) then CbzW(9, |code|) else code[0], Patched(code[1..], |code| - 1);
    assert Patched(code, |code|) == [w] + q;
    hide Patched;
    HeadTail(w, q, exit);
  }

  lemma HeadTail(w: Instr, q: seq<Instr>, exit: seq<Instr>)
    ensures ([w] + q + exit)[0] == w && ([w] + q + exit)[1..] == q + exit
  {
  }

  lemma {:induction false} PatchedNext(env: Env, code: seq<Instr>, exit: seq<Instr>, m: Machine)
    requires Forward(code) && code != []
    ensures GoesThrough(env, code[1..], exit, m)
    decreases |code|, 0
  {
    hide Exec, Forward;
    ForwardRest(code, 1);
    PatchedRuns(env, code[1..], exit, m);
  }

  /** A taken branch, whether it stays inside or goes to the exit. */
  lemma {:induction false} PatchedBranch(env: Env, code: seq<Instr>, off: int, exit: seq<Instr>, m: Machine)
    requires Forward(code) && code != []
    requires code[0] == B(off) || (code[0].BCond? && code[0].off == off) || (code[0].CbzW? && code[0].off == off)
    ensures var p := Patched(code, |code|) + exit;
      var out := Branch(env, code, off, m);
      (out.At? ==> out.k == 0)
      && Branch(env, p, if IsHole(code[0]) then |code| else off, m) == Through(env, out, exit)
    decreases |code|, 0
  {
    hide Step, Forward;
    var p := Patched(code, |code|) + exit;
    BranchLands(code, off);
    PatchedAt(code, |code|);
    if IsHole(code[0]) {
      assert p[|code|..] == exit;
    } else {
      ForwardRest(code, off);
      PatchedRest(code, |code|, off);
      assert p[off..] == Patched(code[off..], |code| - off) + exit;
      PatchedRuns(env, code[off..], exit, m);
    }
  }

  lemma BranchLands(code: seq<Instr>, off: int)
    requires Forward(code) && code != []
    requires code[0] == B(off) || (code[0].BCond? && code[0].off == off) || (code[0].CbzW? && code[0].off == off)
    ensures if IsHole(code[0]) then off == 0 else 1 <= off <= |code|
  {
    assert Lands(code[0], |code| - 0);
  }

  // --- the instructions of a block ----------------------------------------------------------------

  /** A log stays on, or stays off. */
  lemma LogKept(regs: seq<Region>, o: Insn, keep: FlagSet, g: Guest)
    ensures var r := Meaning(regs, o, keep, false, g);
      r.Done? ==> r.g.log.On? == g.log.On?
  {
    hide Meaning, LoadSize, Window, Ok;
    MeaningStores(regs, o, keep, false, g);
  }

  /** What the words of a run of instructions do. */
  ghost predicate BodyDone(env: Env, v: seq<Insn>, rip: u64, m: Machine, out: Outcome, r: Res) {
    match r
    case Done(g, next) =>
      if Ends(v) then Leaves(env, m, out, g, next) else GoesOn(env, m, out, g) && next == EndRip(v, rip)
    case Fault => Faults(env, m, out)
  }

  /** Everything the compiler and the run need of each other. */
  ghost predicate Entered(env: Env, host: Host, check: bool, v: seq<Insn>, m: Machine) {
    && EnvOk(env) && Ready(env, m) && host == env.host && m.g.log.On? == check
    && Linear(v) && AllWell(v)
  }

  lemma NeedFitsAlways(v: seq<Insn>)
    requires v != []
    ensures NeedFits(v[0], Need(v))
  {
    hide Live;
    var o := v[0];
    if IsAlu(o.kind) { WrittenIs(o); }
  }

  lemma {:induction false} BodyRuns(env: Env, host: Host, check: bool, v: seq<Insn>, rip: u64, m: Machine)
    requires Entered(env, host, check, v, m) && m.stack != []
    ensures BodyDone(env, v, rip, m, Exec(env, EmitAll(host, check, v, rip), m),
        Run(env.regs, v, |v|, false, false, rip, m.g))
    decreases |v|
  {
    hide Step, Exec, PutInsn, HitsValid, EnvOk, Need, NeedFits, WellFormed, Meaning, Effective;
    if v == [] {
      EmptyRuns(env, m);
    } else {
      var c := Ctx(host, check, Need(v), rip);
      var code, rest := PutInsn(c, v[0]), EmitAll(host, check, v[1..], v[0].next);
      NeedFitsAlways(v);
      InsnSimulates(env, c, v[0], m);
      LogKept(env.regs, v[0], Keep(v, false), m.g);
      LinearRest(v);
      if Terminates(v[0].kind) {
        LastWord(env, c, v, m);
      } else {
        match Meaning(env.regs, v[0], Keep(v, false), false, m.g)
        case Fault => Cut(env, code, rest, m);
        case Done(g1, rip1) =>
          var m1 := Exec(env, code, m).m;
          Then(env, code, rest, m, m1);
          BodyRuns(env, host, check, v[1..], v[0].next, m1);
      }
    }
  }

  lemma LinearRest(v: seq<Insn>)
    requires Linear(v) && v != []
    ensures Linear(v[1..]) && (Terminates(v[0].kind) ==> |v| == 1)
    ensures |v| > 1 ==> Ends(v) == Ends(v[1..])
    ensures |v| == 1 ==> Ends(v) == Terminates(v[0].kind)
  {
  }

  lemma LastWord(env: Env, c: Ctx, v: seq<Insn>, m: Machine)
    requires |v| == 1 && Terminates(v[0].kind)
    requires c == Ctx(c.host, c.check, Need(v), c.rip)
    requires Simulates(env, v[0], m, Exec(env, PutInsn(c, v[0]), m), Compiled(env, v[0], Need(v), m.g))
    ensures BodyDone(env, v, c.rip, m, Exec(env, EmitAll(c.host, c.check, v, c.rip), m),
        Run(env.regs, v, 1, false, false, c.rip, m.g))
  {
    hide Step, Exec, PutInsn, HitsValid, Need, Meaning, Effective, Leaves, Faults;
    assert v[1..] == [];
    assert PutInsn(c, v[0]) + [] == PutInsn(c, v[0]);
  }

  // --- the whole block --------------------------------------------------------------------------------

  /** Running a block: back at its caller, x30 and the stack as they were, and the guest as the run r has
      it; or stopped, with x0 naming the instruction that faulted. */
  ghost predicate BlockDone(env: Env, m: Machine, out: Outcome, r: Res) {
    && out.Left? && out.m.ok && X(out.m, 19) == env.host.cpu && X(out.m, 30) == X(m, 30) && out.m.stack == m.stack
    && match r
       case Done(g, next) => out.m.running && out.m.g == g && X(out.m, 0) == next
         && HitsValid(env.regs, out.m.rd, READ) && HitsValid(env.regs, out.m.wr, WRITE)
       case Fault => !out.m.running && X(out.m, 0) == out.m.curRip
  }

  lemma ExitRuns(env: Env, m: Machine)
    requires X(m, CPU) == env.host.cpu && m.stack != []
    ensures Exec(env, ExitCode(), m)
         == Left(SetX(SetX(m, 0, m.curRip).(stack := m.stack[1..]), LR, m.stack[0]))
  {
    hide Step, Exec, PutLeave;
    var l := Ldr(8, 0, CPU, OFF_CURRIP);
    var m1 := SetX(m, 0, m.curRip);
    StepLdrRip(env, m);
    Run1(env, l, m);
    Then(env, [l], PutLeave(), m, m1);
    LeaveRuns(env, m1);
  }

  lemma StepLdrRip(env: Env, m: Machine)
    requires X(m, CPU) == env.host.cpu
    ensures Step(env, Ldr(8, 0, CPU, OFF_CURRIP), m) == SetX(m, 0, m.curRip)
  {
  }

  /** The state just after the return address is pushed. */
  function Entry(m: Machine): Machine { m.(stack := [X(m, LR)] + m.stack) }

  lemma EntryRuns(env: Env, m: Machine)
    ensures Exec(env, [PushX(LR)], m) == At(0, Entry(m))
  {
    hide Exec;
    Run1(env, PushX(LR), m);
  }

  /** The body and the way out of its end, before the exit for faults. */
  ghost predicate DraftDone(env: Env, m: Machine, out: Outcome, r: Res) {
    match r
    case Done(g, next) => Leaves(env, Entry(m), out, g, next)
    case Fault => Faults(env, Entry(m), out)
  }

  lemma DraftRuns(env: Env, host: Host, check: bool, v: seq<Insn>, rip: u64, m: Machine)
    requires Entered(env, host, check, v, m)
    ensures DraftDone(env, m, Exec(env, Draft(host, check, v, rip), m), Run(env.regs, v, |v|, false, false, rip, m.g))
  {
    hide Step, Exec, EmitAll, FallOff, HitsValid, EnvOk, Linear, WellFormed, Run, EndRip;
    var m1 := Entry(m);
    var body, fall := EmitAll(host, check, v, rip), FallOff(v, rip);
    EntryRuns(env, m);
    Then(env, [PushX(LR)], body + fall, m, m1);
    assert Draft(host, check, v, rip) == [PushX(LR)] + (body + fall);
    BodyRuns(env, host, check, v, rip, m1);
    if Exec(env, body, m1).At? {
      FallRuns(env, body, v, rip, m1);
    } else {
      Cut(env, body, fall, m1);
    }
  }

  lemma FallRuns(env: Env, body: seq<Instr>, v: seq<Insn>, rip: u64, m: Machine)
    requires m.stack != [] && Exec(env, body, m).At? && GoesOn(env, m, Exec(env, body, m), Exec(env, body, m).m.g)
        && !Ends(v)
    ensures Leaves(env, m, Exec(env, body + FallOff(v, rip), m), Exec(env, body, m).m.g, EndRip(v, rip))
  {
    hide Step, Exec, PutImm, PutLeave, HitsValid;
    var m1 := Exec(env, body, m).m;
    var imm := PutImm(0, EndRip(v, rip));
    ImmLoads(env, 0, EndRip(v, rip), m1);
    Then(env, body, imm, m, m1);
    LeavesBy(env, body + imm, m, m1.g, EndRip(v, rip));
    assert body + FallOff(v, rip) == body + imm + PutLeave();
  }

  /** Executing a finished block does what its instructions mean, each computing every flag. */
  lemma BlockMeaning(env: Env, host: Host, check: bool, v: seq<Insn>, rip: u64, m: Machine)
    requires Entered(env, host, check, v, m)
    ensures BlockDone(env, m, Exec(env, BlockCode(host, check, v, rip), m),
        Run(env.regs, v, |v|, true, false, rip, m.g))
  {
    hide Step, Exec, Draft, HitsValid, EnvOk, Linear, WellFormed, Run, Shaped, Patched;
    var head := Draft(host, check, v, rip);
    DraftRuns(env, host, check, v, rip, m);
    ShapedForward(host, check, v, rip);
    PatchedRuns(env, head, ExitCode(), m);
    LivenessPreserves(env.regs, v, rip, m.g);
    var out := Exec(env, head, m);
    if out.Unpatched? { ExitRuns(env, out.m); }
  }

  lemma ShapedForward(host: Host, check: bool, v: seq<Insn>, rip: u64)
    requires AllWell(v)
    ensures Forward(Draft(host, check, v, rip))
  {
    hide Draft, AllWell;
    DraftShaped(host, check, v, rip);
  }

  // --- against the interpreter ------------------------------------------------------------------------

  /** The interpreter's steps over the block's instructions, one after another. */
  function Interpreted(regs: seq<Region>, v: seq<Insn>, rip: u64, g: Guest): Res {
    Run(regs, v, |v|, true, true, rip, g)
  }

  /** Whenever the interpreter gets through the block, running the compiled block leaves the same
      registers, flags, memory, log and next rip. Nothing is assumed of the regions but that they agree about
      every byte. */
  lemma BlockSimulates(env: Env, host: Host, check: bool, v: seq<Insn>, rip: u64, m: Machine)
    requires Entered(env, host, check, v, m) && Interpreted(env.regs, v, rip, m.g).Done?
    ensures BlockDone(env, m, Exec(env, BlockCode(host, check, v, rip), m), Interpreted(env.regs, v, rip, m.g))
  {
    hide Exec, BlockCode, EnvOk, Linear, WellFormed, Run, BlockDone;
    BlockMeaning(env, host, check, v, rip, m);
    StrictRun(env.regs, v, |v|, rip, m.g);
  }

  /** Where the interpreter's extra reads cannot matter, the engines agree on faults too. */
  lemma BlockEquivalent(env: Env, host: Host, check: bool, v: seq<Insn>, rip: u64, m: Machine)
    requires Entered(env, host, check, v, m) && forall i :: 0 <= i < |v| ==> Spared(env.regs, v[i])
    ensures BlockDone(env, m, Exec(env, BlockCode(host, check, v, rip), m), Interpreted(env.regs, v, rip, m.g))
  {
    hide Exec, BlockCode, EnvOk, Linear, WellFormed, Run, BlockDone, Spared;
    BlockMeaning(env, host, check, v, rip, m);
    SparedRun(env.regs, v, |v|, rip, m.g);
  }

  // --- one word at a time ---------------------------------------------------------------------------

  /** A machine with a program counter. Lost: the counter has left the code. */
  datatype Cpu = Going(pc: int, m: Machine) | Returned(m: Machine) | Lost

  /** One instruction at pc. */
  function Perform(env: Env, i: Instr, pc: int, m: Machine): Cpu {
    match i
    case Ret => Returned(m)
    case B(off) => Going(pc + off, m)
    case BCond(c, off) => Going(if Holds(m.f, c) then pc + off else pc + 1, m)
    case CbzW(t, off) => Going(if X(m, t) % 0x1_0000_0000 == 0 then pc + off else pc + 1, m)
    case i => Going(pc + 1, Step(env, i, m))
  }

  function StepWord(env: Env, code: seq<Instr>, s: Cpu): Cpu {
    if !s.Going? then s else if !(0 <= s.pc < |code|) then Lost else Perform(env, code[s.pc], s.pc, s.m)
  }

  function StepWords(env: Env, code: seq<Instr>, s: Cpu, n: nat): Cpu
    decreases n
  {
    if n == 0 then s else StepWords(env, code, StepWord(env, code, s), n - 1)
  }

  /** Branches of patched code: none open, all landing inside. */
  predicate Settled(code: seq<Instr>) { forall i :: 0 <= i < |code| ==> !IsHole(code[i]) && Lands(code[i], |code| - i) }

  lemma {:induction false} ReturnedStays(env: Env, code: seq<Instr>, m: Machine, n: nat)
    ensures StepWords(env, code, Returned(m), n) == Returned(m)
    decreases n
  {
    if n > 0 { ReturnedStays(env, code, m, n - 1); }
  }

  lemma SettledAt(code: seq<Instr>, pc: nat)
    requires Settled(code) && pc < |code|
    ensures !IsHole(code[pc]) && Lands(code[pc], |code| - pc)
  {
  }

  lemma StepsOn(env: Env, code: seq<Instr>, pc: nat, m: Machine, n: nat)
    requires pc < |code| && n > 0
    ensures StepWords(env, code, Going(pc, m), n) == StepWords(env, code, Perform(env, code[pc], pc, m), n - 1)
  {
    hide Perform;
  }

  /** The walk Exec describes is what the machine does, and it takes no more steps than there are words. */
  lemma {:induction false} StepsToRet(env: Env, code: seq<Instr>, pc: nat, m: Machine, n: nat)
    requires Settled(code) && pc <= |code| && n >= |code| - pc && Exec(env, code[pc..], m).Left?
    ensures StepWords(env, code, Going(pc, m), n) == Returned(Exec(env, code[pc..], m).m)
    decreases |code| - pc
  {
    hide Step, Settled, Lands, Holds, StepWords;
    assert code[pc..] != [] by { if code[pc..] == [] { EmptyRuns(env, m); } }
    assert code[pc..][0] == code[pc] && code[pc..][1..] == code[pc + 1..];
    SettledAt(code, pc);
    StepsOn(env, code, pc, m, n);
    match code[pc]
    case Ret => ReturnedStays(env, code, m, n - 1);
    case B(off) => BranchToRet(env, code, pc, off, m, n);
    case BCond(c, off) =>
      if Holds(m.f, c) { BranchToRet(env, code, pc, off, m, n); } else { StepsToRet(env, code, pc + 1, m, n - 1); }
    case CbzW(t, off) =>
      if X(m, t) % 0x1_0000_0000 == 0 {
        BranchToRet(env, code, pc, off, m, n);
      } else {
        StepsToRet(env, code, pc + 1, m, n - 1);
      }
    case i => StepsToRet(env, code, pc + 1, Step(env, i, m), n - 1);
  }

  lemma {:induction false} BranchToRet(env: Env, code: seq<Instr>, pc: nat, off: int, m: Machine, n: nat)
    requires Settled(code) && pc < |code| && n >= |code| - pc
    requires code[pc] == B(off) || (code[pc].BCond? && code[pc].off == off) || (code[pc].CbzW? && code[pc].off == off)
    requires Branch(env, code[pc..], off, m).Left?
    ensures 1 <= off <= |code| - pc
    ensures StepWords(env, code, Going(pc + off, m), n - 1) == Returned(Branch(env, code[pc..], off, m).m)
    decreases |code| - pc, 0
  {
    hide Step, Settled, Exec, StepWords;
    SettledAt(code, pc);
    assert code[pc..][off..] == code[pc + off..];
    StepsToRet(env, code, pc + off, m, n - 1);
  }

  /** Any run of a finished block from its first word returns within as many steps as it has words. */
  lemma BlockTerminates(env: Env, host: Host, check: bool, v: seq<Insn>, rip: u64, m: Machine)
    requires Entered(env, host, check, v, m)
    ensures var code := BlockCode(host, check, v, rip);
      StepWords(env, code, Going(0, m), |code|) == Returned(Exec(env, code, m).m)
  {
    hide Exec, BlockCode, EnvOk, Linear, WellFormed, Run, StepWords;
    var code := BlockCode(host, check, v, rip);
    BlockMeaning(env, host, check, v, rip, m);
    BlockForward(host, check, v, rip);
    assert code[0..] == code;
    StepsToRet(env, code, 0, m, |code|);
  }

  // --- as words of memory -----------------------------------------------------------------------------

  /** The words of a piece of code. */
  function Words32(code: seq<Instr>): seq<int> { seq(|code|, i requires 0 <= i < |code| => Encode(code[i])) }

  /** The machine over words: each is read, then performed. */
  function StepEncoded(env: Env, words: seq<int>, s: Cpu): Cpu {
    if !s.Going? then s
    else if !(0 <= s.pc < |words|) then Lost
    else
      match DecodeWord(words[s.pc])
      case None => Lost
      case Some(i) => Perform(env, i, s.pc, s.m)
  }

  function StepsEncoded(env: Env, words: seq<int>, s: Cpu, n: nat): Cpu
    decreases n
  {
    if n == 0 then s else StepsEncoded(env, words, StepEncoded(env, words, s), n - 1)
  }

  lemma CanonPerforms(env: Env, i: Instr, pc: int, m: Machine)
    requires InRange(i)
    ensures Perform(env, Canon(i), pc, m) == Perform(env, i, pc, m)
  {
    hide Step, Holds, InRange;
    if !IsBranch(i) { CanonSteps(env, i, m); }
  }

  lemma {:induction false} EncodedSteps(env: Env, code: seq<Instr>, s: Cpu, n: nat)
    requires forall i :: 0 <= i < |code| ==> InRange(code[i])
    ensures StepsEncoded(env, Words32(code), s, n) == StepWords(env, code, s, n)
    decreases n
  {
    hide Perform, InRange, Canon, Encode, DecodeWord;
    if n > 0 {
      if s.Going? && 0 <= s.pc < |code| {
        RoundTrip(code[s.pc]);
        CanonPerforms(env, code[s.pc], s.pc, s.m);
      }
      EncodedSteps(env, code, StepWord(env, code, s), n - 1);
    }
  }

  /** Every word of a finished block is one its encoder is meant for. */
  lemma BlockInRange(host: Host, check: bool, v: seq<Insn>, rip: u64)
    requires AllWell(v) && |BlockCode(host, check, v, rip)| <= MAX_BLOCK
    ensures forall i :: 0 <= i < |BlockCode(host, check, v, rip)| ==> InRange(BlockCode(host, check, v, rip)[i])
  {
    hide Draft, AllWell;
    var head := Draft(host, check, v, rip);
    var code := BlockCode(host, check, v, rip);
    DraftShaped(host, check, v, rip);
    BlockForward(host, check, v, rip);
    PatchedAt(head, |head|);
    TailSize(v, rip);
    forall i | 0 <= i < |code| ensures InRange(code[i]) {
      if i < |head| {
        assert Meant(head[i]) && Lands(code[i], |code| - i - 1);
      } else {
        assert code[i] == ExitCode()[i - |head|];
      }
    }
  }

  /** The 32-bit words of a finished block, read back one at a time and executed from the first, return
      within as many steps as there are words, with what BlockDone says. */
  lemma BlockWords(env: Env, host: Host, check: bool, v: seq<Insn>, rip: u64, m: Machine)
    requires Entered(env, host, check, v, m) && |BlockCode(host, check, v, rip)| <= MAX_BLOCK
    ensures var code := BlockCode(host, check, v, rip);
      var end := StepsEncoded(env, Words32(code), Going(0, m), |code|);
      end.Returned? && BlockDone(env, m, Left(end.m), Run(env.regs, v, |v|, true, false, rip, m.g))
  {
    hide Exec, BlockCode, EnvOk, Linear, AllWell, Run, StepWords, StepsEncoded, BlockDone, Words32, InRange;
    BlockMeaning(env, host, check, v, rip, m);
    BlockTerminates(env, host, check, v, rip, m);
    BlockInRange(host, check, v, rip);
    EncodedSteps(env, BlockCode(host, check, v, rip), Going(0, m), |BlockCode(host, check, v, rip)|);
    DoneLeft(env, m, Exec(env, BlockCode(host, check, v, rip), m), Run(env.regs, v, |v|, true, false, rip, m.g));
  }

  lemma DoneLeft(env: Env, m: Machine, out: Outcome, r: Res)
    requires BlockDone(env, m, out, r)
    ensures out == Left(out.m)
  {
  }
}
