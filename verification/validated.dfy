/** Blocks that came out of the compiler, under the validator. */
module ValidatedBlocks {
  import opened Words
  import opened GuestState
  import opened Insns
  import opened A64
  import opened Execution
  import opened Accesses
  import opened Block
  import opened BlockRuns
  import opened BlockSource
  import opened Validator

  /** What the validator is told of a compiled block that has run. */
  function Ending(m: Machine): End { End(m.g, X(m, 0), !m.running) }

  /** A block the compiler made is never reported: wherever the interpreter gets through its instructions,
      the check accepts what the block left. */
  lemma CompiledAccepted(env: Env, code: Mem, v: seq<Insn>, rip: u64, m: Machine)
    requires Entered(env, env.host, true, v, m) && m.g.log == CLEAN && Decoded(env.regs, code, rip, v)
        && |v| <= MAX_INSNS
    requires Interpret(env.regs, code, rip, m.g, |v|).Done?
    ensures var jit := Ending(Exec(env, BlockCode(env.host, true, v, rip), m).m);
      LogSane(jit.g) && !Overflowed(jit.g) && |Entries(jit.g)| <= |v|
      && var int_ := Replay(env.regs, code, Rewound(m.g, jit.g), rip, |v|);
         int_ == jit && Accepts(jit, int_)
  {
    hide Exec, BlockCode, Interpret, Decoded, EnvOk, Ready, Linear, WellFormed, Replay, Rewound, Accepts, Told, WroteAt;
    InterpretRuns(env.regs, code, rip, v, |v|, m.g);
    BlockSimulates(env, env.host, true, v, rip, m);
    var jit := Ending(Exec(env, BlockCode(env.host, true, v, rip), m).m);
    CheckComplete(env.regs, code, m.g, rip, |v|, jit);
    ToldNothing(m.g.mem);
    ReplayTold(env.regs, code, m.g, rip, |v|, m.g.mem);
    ReplayInterprets(env.regs, code, m.g, rip, |v|);
  }
}
