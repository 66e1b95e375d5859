/** Which instructions make up a block, and the interpreter's run over the same bytes. */
module BlockSource {
  import opened Words
  import opened StatusFlags
  import opened Regions
  import opened GuestState
  import opened Insns
  import opened Liveness
  import opened Decoder
  import opened Interpreter
  import opened OperandAgreement
  import opened DecoderAgreement
  import opened Block

  /** The interpreter, n instructions on. What is outside the model counts as a fault. */
  function Interpret(regs: seq<Region>, code: Mem, rip: u64, g: Guest, n: nat): Res
    decreases n
  {
    if n == 0 then Done(g, rip)
    else
      match Interpreter.Step(regs, code, rip, g)
      case Ran(Done(g1, rip1)) => Interpret(regs, code, rip1, g1, n - 1)
      case _ => Fault
  }

  /** n steps and then k more are n + k steps. */
  lemma {:induction false} InterpretMore(regs: seq<Region>, code: Mem, rip: u64, g: Guest, n: nat, k: nat)
    ensures var r := Interpret(regs, code, rip, g, n);
      Interpret(regs, code, rip, g, n + k) == if r.Done? then Interpret(regs, code, r.rip, r.g, k) else Fault
    decreases n
  {
    hide Interpreter.Step;
    if n > 0 {
      match Interpreter.Step(regs, code, rip, g)
      case Ran(Done(g1, rip1)) => InterpretMore(regs, code, rip1, g1, n - 1, k);
      case _ =>
    }
  }

  /** The instructions from rip on, as long as they can be read and decoded and none ends the block. */
  function DecodeFrom(regs: seq<Region>, code: Mem, rip: u64, max: nat): (v: seq<Insn>)
    ensures |v| <= max
    decreases max
  {
    if max == 0 || !Ok(regs, rip, 16, EXEC) then []
    else
      match Decode(CodeAt(code, rip), rip)
      case None => []
      case Some(o) => [o] + if Terminates(o.kind) then [] else DecodeFrom(regs, code, o.next, max - 1)
  }

  /** Each instruction is the one decoded, from executable bytes, where the one before it ends, and only the
      last may leave. */
  ghost predicate Decoded(regs: seq<Region>, code: Mem, rip: u64, v: seq<Insn>)
    decreases |v|
  {
    v == [] || (Ok(regs, rip, 16, EXEC) && Decode(CodeAt(code, rip), rip) == Some(v[0])
                && if Terminates(v[0].kind) then |v| == 1 else Decoded(regs, code, v[0].next, v[1..]))
  }

  lemma {:induction false} DecodeFromDecoded(regs: seq<Region>, code: Mem, rip: u64, max: nat)
    ensures Decoded(regs, code, rip, DecodeFrom(regs, code, rip, max))
    decreases max
  {
    hide Decode, Ok, CodeAt;
    var v := DecodeFrom(regs, code, rip, max);
    if v != [] && !Terminates(v[0].kind) {
      DecodeFromDecoded(regs, code, v[0].next, max - 1);
      assert v[1..] == DecodeFrom(regs, code, v[0].next, max - 1);
    }
  }

  /** A block cut short is still a block. */
  lemma {:induction false} DecodedPrefix(regs: seq<Region>, code: Mem, rip: u64, v: seq<Insn>, k: nat)
    requires Decoded(regs, code, rip, v) && k <= |v|
    ensures Decoded(regs, code, rip, v[..k])
    decreases |v|
  {
    hide Decode, CodeAt, Ok;
    if k > 0 && !Terminates(v[0].kind) {
      DecodedPrefix(regs, code, v[0].next, v[1..], k - 1);
      assert v[..k][1..] == v[1..][..k - 1];
    }
  }

  lemma {:induction false} DecodedSound(regs: seq<Region>, code: Mem, rip: u64, v: seq<Insn>)
    requires Decoded(regs, code, rip, v)
    ensures Linear(v) && forall i :: 0 <= i < |v| ==> WellFormed(v[i])
    decreases |v|
  {
    hide Decode, CodeAt, Ok, WellFormed;
    if v != [] {
      DecodeWellFormed(CodeAt(code, rip), rip);
      if !Terminates(v[0].kind) {
        DecodedSound(regs, code, v[0].next, v[1..]);
        forall i | 0 <= i < |v| ensures WellFormed(v[i]) && (i < |v| - 1 ==> !Terminates(v[i].kind)) {
          if i > 0 { assert v[i] == v[1..][i - 1]; }
        }
      }
    }
  }

  /** An instruction that does not end a block goes on with the next. */
  lemma FallsThrough(regs: seq<Region>, o: Insn, keep: FlagSet, strict: bool, g: Guest)
    requires !Terminates(o.kind)
    ensures var r := Meaning(regs, o, keep, strict, g);
      r.Done? ==> r.rip == o.next
  {
    hide Ld, St, Address, AluStep, SetOperand, SetReg, SetReg8, ShiftCalc, ShiftFlags, Select, FlagsLogic, Signed,
        RegOperand, Cond,
         ShiftCount;
    CountIn(o, g.r);
  }

  /** And one that does end a block goes on elsewhere, for some instruction of its kind and some guest. */
  lemma EndsElsewhere(kind: Kind, g: Guest) returns (regs: seq<Region>, o: Insn, before: Guest)
    requires Terminates(kind)
    ensures o.kind == kind && var r := Meaning(regs, o, ALL, false, before); r.Done? && r.rip != o.next
  {
    hide Store, LogWrite, LoadSize;
    regs := [Region(0x1000, 0x2000, Prot(true, true, false))];
    o := Blank(8, true).(kind := kind, cc := 4, reg := 3, next := 0x10, target := 0x20);
    before := g.(r := map[3 := 0x20, RSP := 0x1800], flags := g.flags.(zf := true));
    if kind.KRet? {
      var v := LoadSize(g.mem, 0x1800, 8);
      o := o.(next := if v == 0 then 1 else 0);
    }
    assert Find(regs, 0x1800) == 0 && Find(regs, 0x17f8) == 0;
  }

  lemma CountIn(o: Insn, r: RegFile)
    ensures 0 <= ShiftCount(o, r) < 64
  {
  }

  /** Interpreting the bytes of a block is running its decoded instructions one after another. */
  lemma {:induction false} InterpretRuns(regs: seq<Region>, code: Mem, rip: u64, v: seq<Insn>, k: nat, g: Guest)
    requires Decoded(regs, code, rip, v) && k <= |v|
    ensures Interpret(regs, code, rip, g, k) == Run(regs, v, k, true, true, rip, g)
    decreases k
  {
    hide Decode, CodeAt, Meaning, Interpreter.Step, OkFrom;
    if k > 0 {
      OkShorter(regs, rip, 16, 1, EXEC);
      DecoderAgreement.StepAgrees(regs, code, rip, g);
      if !Terminates(v[0].kind) { FallsThrough(regs, v[0], ALL, true, g); }
      match Meaning(regs, v[0], ALL, true, g)
      case Fault =>
      case Done(g1, rip1) =>
        if !Terminates(v[0].kind) { InterpretRuns(regs, code, rip1, v[1..], k - 1, g1); }
    }
  }

  /** Decode a block, reading only bytes that may be executed. Returns how many instructions it has and
      where the bytes after it are. */
  method DecodeBlock(regs: seq<Region>, code: Mem, rip: u64, v: array<Insn>) returns (count: nat, pc: u64)
    requires v.Length == MAX_INSNS
    modifies v
    ensures count <= 48 && v[..count] == DecodeFrom(regs, code, rip, MAX_INSNS)
    ensures pc == EndRip(v[..count], rip)
    ensures count == 48 || (count > 0 && Terminates(v[count - 1].kind)) || !Ok(regs, pc, 16, EXEC)
      || Decode(CodeAt(code, pc), pc).None?
  {
    hide Decode, CodeAt, Ok, EndRip, DecodeFrom;
    count, pc := 0, rip;
    EmptyEnd(rip);
    assert v[..0] == [];
    var ended := false;
    while count < MAX_INSNS && !ended && Ok(regs, pc, 16, EXEC)
      invariant count <= MAX_INSNS && pc == EndRip(v[..count], rip)
      invariant ended ==> count > 0 && Terminates(v[count - 1].kind)
      invariant v[..count] + (if ended then [] else DecodeFrom(regs, code, pc,
          MAX_INSNS - count)) == DecodeFrom(regs, code, rip, MAX_INSNS)
      decreases MAX_INSNS - count
    {
      ghost var was := v[..count];
      DecodeStep(regs, code, pc, MAX_INSNS - count, was);
      var o := Decode(CodeAt(code, pc), pc);
      if o.None? { break; }
      v[count] := o.value;
      assert v[..count + 1] == was + [o.value];
      EndRipLast(v[..count + 1], rip);
      pc := o.value.next;
      count := count + 1;
      ended := Terminates(o.value.kind);
    }
    DecodeStep(regs, code, pc, MAX_INSNS - count, v[..count]);
  }

  lemma DecodeStep(regs: seq<Region>, code: Mem, rip: u64, max: nat, done: seq<Insn>)
    ensures var d := Decode(CodeAt(code, rip), rip);
      done + DecodeFrom(regs, code, rip, max)
        == if max == 0 || !Ok(regs, rip, 16, EXEC) || d.None? then done
           else if Terminates(d.value.kind) then done + [d.value]
           else (done + [d.value]) + DecodeFrom(regs, code, d.value.next, max - 1)
  {
    hide Decode, CodeAt, Ok;
  }

  lemma EmptyEnd(rip: u64)
    ensures EndRip([], rip) == rip
  {
  }

  lemma EndRipLast(v: seq<Insn>, rip: u64)
    requires v != []
    ensures EndRip(v, rip) == v[|v| - 1].next
  {
    EndRipPrefix(v, |v| - 1, rip);
    assert v[..|v|] == v;
  }
}
