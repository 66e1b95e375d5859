/** The dispatcher: compiled blocks where there are any, the interpreter everywhere else. */
module Dispatcher {
  import opened Words
  import opened Regions
  import opened GuestState
  import opened Insns
  import opened A64
  import opened Execution
  import opened Accesses
  import opened Engines
  import opened Interpreter
  import opened BlockSource
  import opened CodeCache
  import opened StepStores
  import opened Block
  import opened Unlogged
  import opened Validator
  import opened ValidatedBlocks
  import opened CheckedRuns

  /** What `icount` interpreter steps from the start say of where the run stands. */
  ghost predicate Tracks(env: Env, code: Mem, rip0: u64, g0: Guest, icount: nat, m: Machine, rip: u64, running: bool) {
    Agrees(env.regs, Interpret(env.regs, code, rip0, g0, icount), m.g, rip, running)
  }

  lemma TracksMore(env: Env, code: Mem, rip0: u64, g0: Guest, icount: nat, m: Machine, rip: u64, n: nat, m': Machine,
      rip': u64, running: bool)
    requires Tracks(env, code, rip0, g0, icount, m, rip, true)
    requires Tracks(env, code, rip, m.g, n, m', rip', running)
    ensures Tracks(env, code, rip0, g0, icount + n, m', rip', running)
  {
    hide Interpret, AllReadable;
    InterpretMore(env.regs, code, rip0, g0, icount, n);
  }

  lemma OneStep(regs: seq<Region>, code: Mem, rip: u64, g: Guest)
    ensures Interpret(regs, code, rip, g, 1)
         == match Interpreter.Step(regs, code, rip, g) case Ran(Done(g1, rip1)) => Done(g1, rip1) case _ => Fault
  {
    hide Interpreter.Step;
    match Interpreter.Step(regs, code, rip, g)
    case Ran(Done(g1, rip1)) => assert Interpret(regs, code, rip1, g1, 0) == Done(g1, rip1);
    case _ =>
  }

  /** The guest is no part of what the dispatcher stands on, but for its log. */
  lemma StandingAfter(env: Env, m: Machine, g: Guest)
    requires Standing(env, m.g.log.On?, m)
    ensures Standing(env, g.log.On?, m.(g := g))
  {
    hide HitsValid;
  }

  /** Run for a number of rounds, each a compiled block or one interpreted instruction. Whenever as many
      pure interpreter steps as were counted can be made without a fault, the run has made them and stands
      where they lead, whatever the hash function and whatever was compiled when; and where every region is
      readable the run is still going only if they can. With checking on, every block is run, undone and
      interpreted again, and all this holds of what the check leaves: so a run never stops with a disagreement
      where the interpreter gets through. */
  method RunCpu(j: Jit, env: Env, code: Mem, m0: Machine, rip0: u64, rounds: nat)
    returns (m: Machine, rip: u64, icount: nat, running: bool)
    requires j.Valid(env.regs, code) && j.host == env.host
    requires EnvOk(env) && Standing(env, false, m0)
    modifies j, j.arena, j.lines
    ensures j.Valid(env.regs, code)
    ensures Tracks(env, code, rip0, m0.g, icount, m, rip, running)
    ensures running ==> Standing(env, false, m)
    ensures running ==> icount >= rounds
  {
    hide Interpret, Interpreter.Step, HitsValid, EnvOk, Exec, CompiledCode, Compiled, Ready, AllReadable;
    m, rip, icount, running := m0, rip0, 0, true;
    NoSteps(env.regs, code, rip0, m0.g);
    var left := rounds;
    while running && left > 0
      invariant j.Valid(env.regs, code) && left <= rounds
      invariant Tracks(env, code, rip0, m0.g, icount, m, rip, running)
      invariant running ==> Standing(env, false, m) && icount >= rounds - left
      decreases left
    {
      var at := j.Lookup(env.regs, code, rip, false);
      if at.Some? {
        var n := j.lines[j.hash(rip)].count;
        var out, next, ok := RunBlock(j, env, code, m, rip, at.value);
        TracksMore(env, code, rip0, m0.g, icount, m, rip, n, out, next, ok);
        m, rip, icount, running := out, next, icount + n, ok;
      } else {
        var g1, rip1, ok := StepCpu(env, code, m, rip);
        TracksMore(env, code, rip0, m0.g, icount, m, rip, 1, m.(g := g1), rip1, ok);
        m, rip, icount, running := m.(g := g1), rip1, icount + 1, ok;
      }
      left := left - 1;
    }
  }

  lemma NoSteps(regs: seq<Region>, code: Mem, rip: u64, g: Guest)
    ensures Interpret(regs, code, rip, g, 0) == Done(g, rip)
  {
  }

  /** Run a block, and check it if that is asked for. */
  method RunBlock(j: Jit, env: Env, code: Mem, m: Machine, rip: u64, at: nat)
    returns (out: Machine, next: u64, ok: bool)
    requires j.Valid(env.regs, code) && j.host == env.host
    requires EnvOk(env) && Standing(env, false, m)
    requires j.lines[j.hash(rip)].tag == rip && j.lines[j.hash(rip)].at == Some(at)
    ensures j.lines[j.hash(rip)].count >= 2
    ensures ok ==> Standing(env, false, out)
    ensures Tracks(env, code, rip, m.g, j.lines[j.hash(rip)].count, out, next, ok)
  {
    hide Interpret, HitsValid, EnvOk, CompiledCode, Compiled, Ready, AllReadable, LogSane, Accepts, Replay, Rewound;
    if !j.check {
      out := Trip(j, env, code, m, rip, at);
      return out, X(out, 0), out.running;
    }
    var n := j.lines[j.hash(rip)].count;
    var entered := m.(g := m.g.(log := CLEAN));
    StandingAfter(env, m, entered.g);
    LogSaneClean(entered.g);
    var left := Trip(j, env, code, entered, rip, at);
    var accepted, int_ := CheckBlock(env.regs, code, entered.g, rip, n, Ending(left));
    CheckAgrees(env.regs, code, m.g, rip, n, Ending(left), int_);
    out, next, ok := left.(g := Silent(int_.g)), int_.rip, accepted && !int_.faulted;
    if ok { StandingAfter(env, left, out.g); }
  }

  /** Enter the code at an arena offset that a cache line names. */
  method Trip(j: Jit, env: Env, code: Mem, m: Machine, rip: u64, at: nat) returns (out: Machine)
    requires j.Valid(env.regs, code) && j.host == env.host
    requires EnvOk(env) && Standing(env, j.check, m)
    requires j.lines[j.hash(rip)].tag == rip && j.lines[j.hash(rip)].at == Some(at)
    ensures 2 <= j.lines[j.hash(rip)].count <= MAX_INSNS
    ensures out.running ==> Standing(env, j.check, out)
    ensures LogSane(m.g) ==> LogSane(out.g)
    ensures Tracks(env, code, rip, m.g, j.lines[j.hash(rip)].count, out, X(out, 0), out.running)
  {
    hide Interpret, HitsValid, EnvOk, Exec, CompiledCode, Compiled, Ready, AllReadable, LogSane;
    ghost var b := CompiledCode(env.regs, code, env.host, j.check, rip);
    CompiledShort(env.regs, code, env.host, j.check, rip);
    assert j.Coherent(env.regs, code, j.lines[j.hash(rip)]);
    var text := j.arena[at..j.used];
    TextSplits(j.arena[..], at, j.used, |b|);
    BlockTrip(env, code, j.check, rip, text, j.arena[at + |b|..j.used], m);
    if LogSane(m.g) { ExecSane(env, text, m); }
    out := Exec(env, text, m).m;
  }

  lemma TextSplits(s: seq<Instr>, at: nat, used: nat, n: nat)
    requires at + n <= used <= |s|
    ensures s[at..used] == s[at..at + n] + s[at + n..used]
  {
  }

  /** One interpreted instruction. */
  method StepCpu(env: Env, code: Mem, m: Machine, rip: u64) returns (g: Guest, next: u64, ok: bool)
    requires Standing(env, false, m)
    ensures var r := Interpret(env.regs, code, rip, m.g, 1);
      if r.Done? then ok && r == Done(g, next) else !ok
    ensures ok ==> Standing(env, false, m.(g := g))
  {
    hide Interpret, Interpreter.Step, Ready;
    OneStep(env.regs, code, rip, m.g);
    match Interpreter.Step(env.regs, code, rip, m.g) {
      case Ran(Done(g1, rip1)) =>
        StepLog(env.regs, code, rip, m.g);
        g, next, ok := g1, rip1, true;
        StandingAfter(env, m, g);
      case _ =>
        g, next, ok := m.g, rip, false;
    }
  }
}
