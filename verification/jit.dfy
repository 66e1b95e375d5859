/** The code cache, its arena, and the loop that runs compiled blocks where it has them and interprets
    everywhere else. */
module CodeCache {
  import opened Words
  import opened StatusFlags
  import opened Regions
  import opened GuestState
  import opened Insns
  import opened A64
  import opened Execution
  import opened Accesses
  import opened Liveness
  import opened Engines
  import opened Decoder
  import opened OutputBuffer
  import opened Block
  import opened BlockSource
  import opened BlockRuns

  /** The block compiled for an address: what decodes from there, cut until it fits. */
  function Compiled(regs: seq<Region>, code: Mem, host: Host, check: bool, rip: u64): seq<Insn> {
    var v := DecodeFrom(regs, code, rip, MAX_INSNS);
    v[..Surviving(host, check, v, rip)]
  }

  function CompiledCode(regs: seq<Region>, code: Mem, host: Host, check: bool, rip: u64): seq<Instr> {
    BlockCode(host, check, Compiled(regs, code, host, check, rip), rip)
  }

  lemma CompiledDecoded(regs: seq<Region>, code: Mem, host: Host, check: bool, rip: u64)
    ensures Decoded(regs, code, rip, Compiled(regs, code, host, check, rip))
    ensures Linear(DecodeFrom(regs, code, rip, MAX_INSNS))
  {
    hide Surviving, DecodeFrom, Decoded;
    DecodeFromDecoded(regs, code, rip, MAX_INSNS);
    var v := DecodeFrom(regs, code, rip, MAX_INSNS);
    DecodedSound(regs, code, rip, v);
    DecodedPrefix(regs, code, rip, v, Surviving(host, check, v, rip));
  }

  lemma CompiledShort(regs: seq<Region>, code: Mem, host: Host, check: bool, rip: u64)
    ensures |Compiled(regs, code, host, check, rip)| <= MAX_INSNS
  {
    hide Surviving, DecodeFrom;
  }

  /** A cache line: the address it is for, where its code starts in the arena if it has any, and how many
      guest instructions that covers. */
  datatype Line = Line(tag: u64, at: Option<nat>, count: nat)

  lemma Slices(s: seq<Instr>, start: nat, a: nat, b: nat)
    requires a <= b <= start <= |s|
    ensures s[..start][a..b] == s[a..b]
  {
  }

  class Jit {
    const host: Host
    const check: bool
    const arena: array<Instr>
    const lines: array<Line>
    const hash: u64 -> nat
    var used: nat

    /** A line with code holds exactly what compiling for its tag gives. */
    ghost predicate Coherent(regs: seq<Region>, code: Mem, l: Line)
      reads this, arena
    {
      l.at.Some? ==>
        var b := CompiledCode(regs, code, host, check, l.tag);
        l.at.value + |b| <= used <= arena.Length && arena[l.at.value..l.at.value + |b|] == b
        && l.count == |Compiled(regs, code, host, check, l.tag)| >= 2
    }

    /** The words of two lines' blocks do not overlap. */
    ghost predicate Apart(regs: seq<Region>, code: Mem, l: Line, k: Line)
      reads this
    {
      l.at.Some? && k.at.Some? ==>
        l.at.value + |CompiledCode(regs, code, host, check, l.tag)| <= k.at.value
        || k.at.value + |CompiledCode(regs, code, host, check, k.tag)| <= l.at.value
    }

    ghost predicate Valid(regs: seq<Region>, code: Mem)
      reads this, arena, lines
    {
      && used <= arena.Length
      && (forall rip: u64 :: hash(rip) < lines.Length)
      && (forall s :: 0 <= s < lines.Length ==> Coherent(regs, code, lines[s]))
      && (forall s, t :: 0 <= s < t < lines.Length ==> Apart(regs, code, lines[s], lines[t]))
    }

    /** An empty cache over an arena, with any hash function into its lines. */
    constructor (h: Host, checking: bool, memory: array<Instr>, size: nat, slot: u64 -> nat, ghost regs: seq<Region>,
        ghost code: Mem)
      requires forall rip: u64 :: slot(rip) < size
      ensures Valid(regs, code) && host == h && check == checking && arena == memory && fresh(lines)
    {
      host, check, arena, hash, used := h, checking, memory, slot, 0;
      lines := new Line[size](_ => Line(0, None, 0));
    }

    /** Copy a finished block to the end of the arena. */
    method Append(words: array<Instr>, n: nat)
      requires words != arena && n <= words.Length && used + n <= arena.Length
      modifies this, arena
      ensures used == old(used) + n && arena[old(used)..used] == words[..n]
      ensures arena[..old(used)] == old(arena[..used])
    {
      var i := 0;
      while i < n
        invariant 0 <= i <= n && used == old(used)
        invariant arena[used..used + i] == words[..i]
        invariant arena[..used] == old(arena[..used])
      {
        arena[used + i] := words[i];
        i := i + 1;
      }
      used := used + n;
    }

    /** A new line for a block just appended keeps everything else in place. */
    lemma InstallKeeps(regs: seq<Region>, code: Mem, was: seq<Line>, now: seq<Line>, s: nat, rip: u64, start: nat,
        before: seq<Instr>)
      requires |was| == |now| && s < |was| && now == was[s := now[s]] && start <= used <= arena.Length
          && |before| == start
      requires now[s] == Line(rip, Some(start), |Compiled(regs, code, host, check, rip)|)
          && |Compiled(regs, code, host, check, rip)| >= 2
      requires arena[start..used] == CompiledCode(regs, code, host, check, rip)
      requires arena[..start] == before
      requires forall t :: 0 <= t < |was| && was[t].at.Some? ==>
        var b := CompiledCode(regs, code, host, check, was[t].tag);
        was[t].at.value + |b| <= start && before[was[t].at.value..was[t].at.value + |b|] == b
        && was[t].count == |Compiled(regs, code, host, check, was[t].tag)| >= 2
      requires forall t, u :: 0 <= t < u < |was| ==> Apart(regs, code, was[t], was[u])
      ensures forall t :: 0 <= t < |now| ==> Coherent(regs, code, now[t])
      ensures forall t, u :: 0 <= t < u < |now| ==> Apart(regs, code, now[t], now[u])
    {
      hide CompiledCode, Compiled;
      forall t | 0 <= t < |now| ensures Coherent(regs, code, now[t]) {
        if t != s && was[t].at.Some? {
          var a, n := was[t].at.value, |CompiledCode(regs, code, host, check, was[t].tag)|;
          var all := arena[..];
          assert arena[a..a + n] == all[a..a + n] && arena[..start] == all[..start];
          Slices(all, start, a, a + n);
        }
      }
      forall t, u | 0 <= t < u < |now| ensures Apart(regs, code, now[t], now[u]) {
        if t != s && u != s { assert Apart(regs, code, was[t], was[u]); }
      }
    }

    /** The code for an address, compiling it if that has not been tried. `stub` says the address is an
        import's, which the interpreter must see. */
    method Lookup(regs: seq<Region>, code: Mem, rip: u64, stub: bool) returns (at: Option<nat>)
      requires Valid(regs, code)
      modifies this, arena, lines
      ensures Valid(regs, code)
      ensures at.Some? ==> lines[hash(rip)].tag == rip && lines[hash(rip)].at == at
      ensures var was := old(lines[hash(rip)]);
        if was.tag == rip then at == was.at
        else at.Some? <==> was.at.None? && !stub && Ok(regs, rip, 16, EXEC)
                           && |Compiled(regs, code, host, check, rip)| >= 2
                           && old(used) + |CompiledCode(regs, code, host, check, rip)| <= arena.Length
      ensures forall s :: 0 <= s < lines.Length && old(lines[s].at).Some? ==> lines[s] == old(lines[s])
    {
      hide CompiledCode, Compiled, Surviving, DecodeFrom, BlockCode;
      var s := hash(rip);
      if lines[s].tag == rip { return lines[s].at; }
      if lines[s].at.Some? { return None; }
      if stub { return None; }
      if !Ok(regs, rip, 16, EXEC) { return None; }
      var words, n, count := CompileAt(regs, code, host, check, rip);
      at := Install(regs, code, rip, s, words, n, count);
    }

    /** Decode and compile the block at an address. */
    static method CompileAt(regs: seq<Region>, code: Mem, host: Host, check: bool, rip: u64)
      returns (words: array<Instr>, n: nat, count: nat)
      ensures fresh(words) && n <= words.Length
      ensures count == |Compiled(regs, code, host, check, rip)| && (count < 2 <==> n == 0)
      ensures count >= 2 ==> words[..n] == CompiledCode(regs, code, host, check, rip)
    {
      hide Surviving, DecodeFrom, BlockCode;
      var v := new Insn[MAX_INSNS](_ => Blank(4, false));
      var decoded, pc := DecodeBlock(regs, code, rip, v);
      CompiledDecoded(regs, code, host, check, rip);
      words := new Instr[MAX_BLOCK](_ => Ret);
      n, count := Compile(words, host, check, v[..decoded], rip);
    }

    /** Keep what compiling gave: nothing, a block that does not fit in the arena, or a block. */
    method Install(regs: seq<Region>, code: Mem, rip: u64, s: nat, words: array<Instr>, n: nat,
        count: nat) returns (at: Option<nat>)
      requires Valid(regs, code) && words != arena && s < lines.Length && lines[s].at.None? && n <= words.Length
      requires count == |Compiled(regs, code, host, check, rip)| && (count < 2 <==> n == 0)
      requires count >= 2 ==> words[..n] == CompiledCode(regs, code, host, check, rip)
      modifies this, arena, lines
      ensures Valid(regs, code)
      ensures at.Some? ==> lines[s].tag == rip && lines[s].at == at
      ensures at.Some? <==> n > 0 && old(used) + n <= arena.Length
      ensures forall t :: 0 <= t < lines.Length && t != s ==> lines[t] == old(lines[t])
    {
      hide CompiledCode, Compiled;
      ghost var was, before, start := lines[..], arena[..used], used;
      if n == 0 {
        lines[s] := Line(rip, None, 0);
        assert forall t :: 0 <= t < lines.Length && t != s ==> lines[t] == was[t];
        return None;
      }
      if used + n > arena.Length { return None; }
      at := Some(used);
      OldLines(regs, code, was);
      Append(words, n);
      lines[s] := Line(rip, at, count);
      InstallKeeps(regs, code, was, lines[..], s, rip, start, before);
      assert forall t :: 0 <= t < lines.Length ==> lines[..][t] == lines[t];
    }

    lemma OldLines(regs: seq<Region>, code: Mem, was: seq<Line>)
      requires Valid(regs, code) && was == lines[..]
      ensures forall t :: 0 <= t < |was| && was[t].at.Some? ==>
        var b := CompiledCode(regs, code, host, check, was[t].tag);
        was[t].at.value + |b| <= used && arena[..used][was[t].at.value..was[t].at.value + |b|] == b
        && was[t].count == |Compiled(regs, code, host, check, was[t].tag)| >= 2
      ensures forall t, u :: 0 <= t < u < |was| ==> Apart(regs, code, was[t], was[u])
    {
      hide CompiledCode, Compiled;
      forall t | 0 <= t < |was| && was[t].at.Some?
        ensures var b := CompiledCode(regs, code, host, check, was[t].tag);
          was[t].at.value + |b| <= used && arena[..used][was[t].at.value..was[t].at.value + |b|] == b
          && was[t].count == |Compiled(regs, code, host, check, was[t].tag)| >= 2
      {
        assert Coherent(regs, code, lines[t]);
      }
    }
  }

  // --- running -------------------------------------------------------------------------------------------

  lemma {:induction false} RunLog(regs: seq<Region>, v: seq<Insn>, k: nat, rip: u64, g: Guest)
    requires k <= |v|
    ensures var r := Run(regs, v, k, true, false, rip, g);
      r.Done? ==> r.g.log.On? == g.log.On?
    decreases k
  {
    hide Meaning;
    if k > 0 {
      LogKept(regs, v[0], ALL, g);
      match Meaning(regs, v[0], ALL, false, g)
      case Fault =>
      case Done(g1, rip1) => RunLog(regs, v[1..], k - 1, rip1, g1);
    }
  }

  /** A block's words run the same with anything after them. */
  lemma RestIgnored(env: Env, block: seq<Instr>, rest: seq<Instr>, m: Machine)
    requires Exec(env, block, m).Left?
    ensures Exec(env, block + rest, m) == Exec(env, block, m)
  {
    hide Exec;
    ExecCat(env, block, rest, m);
  }

  /** Where the dispatcher stands: the machine, the next address, and whether it is still running. */
  ghost predicate Standing(env: Env, check: bool, m: Machine) { Ready(env, m) && m.g.log.On? == check }

  /** Where a run has got to, against the interpreter's answer: where the interpreter gets through, so has the
      run, to the same state. Where every region is readable the run gets no further than that either. */
  ghost predicate Agrees(regs: seq<Region>, r: Res, g: Guest, rip: u64, running: bool) {
    && (r.Done? ==> running && r == Done(g, rip))
    && (AllReadable(regs) && running ==> r.Done?)
  }

  /** One trip through a compiled block, against the interpreter's run of as many instructions. */
  lemma BlockTrip(env: Env, code: Mem, check: bool, rip: u64, text: seq<Instr>, rest: seq<Instr>, m: Machine)
    requires EnvOk(env) && Standing(env, check, m)
    requires text == CompiledCode(env.regs, code, env.host, check, rip) + rest
    ensures var out := Exec(env, text, m);
      var r := Interpret(env.regs, code, rip, m.g, |Compiled(env.regs, code, env.host, check, rip)|);
      (out.m.running ==> Standing(env, check, out.m))
      && Agrees(env.regs, r, out.m.g, X(out.m, 0), out.m.running)
  {
    hide Exec, CompiledCode, Compiled, Run, HitsValid, EnvOk, Decoded, DecodeFrom, Linear, WellFormed, AllReadable,
        Spared;
    var v, b := Compiled(env.regs, code, env.host, check, rip), CompiledCode(env.regs, code, env.host, check, rip);
    CompiledDecoded(env.regs, code, env.host, check, rip);
    DecodedSound(env.regs, code, rip, v);
    TextIs(env.regs, code, env.host, check, rip);
    BlockMeaning(env, env.host, check, v, rip, m);
    RestIgnored(env, b, rest, m);
    RunLog(env.regs, v, |v|, rip, m.g);
    InterpretRuns(env.regs, code, rip, v, |v|, m.g);
    if Run(env.regs, v, |v|, true, true, rip, m.g).Done? { StrictRun(env.regs, v, |v|, rip, m.g); }
    if AllReadable(env.regs) {
      ReadableSpares(env.regs, v);
      SparedRun(env.regs, v, |v|, rip, m.g);
    }
  }

  lemma TextIs(regs: seq<Region>, code: Mem, host: Host, check: bool, rip: u64)
    ensures CompiledCode(regs, code, host, check, rip)
        == BlockCode(host, check, Compiled(regs, code, host, check, rip), rip)
  {
    hide Compiled, BlockCode;
  }
}
