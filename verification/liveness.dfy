/** The backward pass that finds which flags each instruction must compute, and why dropping the rest
    changes nothing. */
module Liveness {
  import opened Words
  import opened StatusFlags
  import opened Regions
  import opened GuestState
  import opened Insns
  import opened A64
  import opened CodeGen
  import opened InlineRuns
  import opened AluRuns
  import opened Simulation

  /** A must-write set: a shift counted by cl, whose count may be zero, has none. */
  function Written(o: Insn): FlagSet {
    if IsAlu(o.kind) then
      (match o.op
       case AMov => NONE
       case AAdd => ALL
       case ASub => ALL
       case ACmp => ALL
       case AInc => INCDEC
       case ADec => INCDEC
       case _ => LOGIC)
    else if o.kind.KImul? then LOGIC
    else if o.kind.KShift? then
      if o.byCl || o.imm % (if o.size == 8 then 64 else 32) == 0 then NONE else LOGIC
    else NONE
  }

  function Reads(o: Insn): FlagSet { if o.kind.KJcc? || o.kind.KSetcc? then CcReads(o.cc) else NONE }

  /** What is live before an instruction, given what is live after it. */
  function Before(o: Insn, live: FlagSet): FlagSet { live.Minus(Written(o)).Join(Reads(o)) }

  /** What the instructions from here to the end of the block, and whatever runs after it, may still read. */
  function Live(v: seq<Insn>): FlagSet { if v == [] then ALL else Before(v[0], Live(v[1..])) }

  /** The flags the first instruction must compute. */
  function Need(v: seq<Insn>): FlagSet
    requires v != []
  {
    Written(v[0]).Meet(Live(v[1..]))
  }

  /** The pass itself, from the last instruction to the first. */
  method FlagLiveness(v: seq<Insn>, fneed: array<FlagSet>)
    requires |v| <= fneed.Length
    modifies fneed
    ensures forall i :: 0 <= i < |v| ==> fneed[i] == Need(v[i..])
    ensures forall i :: |v| <= i < fneed.Length ==> fneed[i] == old(fneed[i])
  {
    var live := ALL;
    var i := |v| - 1;
    while i >= 0
      invariant -1 <= i < |v|
      invariant live == Live(v[i + 1..])
      invariant forall j :: i < j < |v| ==> fneed[j] == Need(v[j..])
      invariant forall j :: |v| <= j < fneed.Length ==> fneed[j] == old(fneed[j])
    {
      assert v[i..][1..] == v[i + 1..];
      var w := Written(v[i]);
      fneed[i] := w.Meet(live);
      live := live.Minus(w).Join(Reads(v[i]));
      i := i - 1;
    }
    assert v[0..] == v;
  }

  // --- the two ways to run a block's instructions -----------------------------------------------

  /** The flags to keep of the first instruction: all of them, or what compiled code computes. */
  function Keep(v: seq<Insn>, full: bool): FlagSet
    requires v != []
  {
    if full then ALL else Effective(v[0], Need(v))
  }

  /** The first k instructions of v in order, each computing all flags or only those still needed. */
  function Run(regs: seq<Region>, v: seq<Insn>, k: nat, full: bool, strict: bool, rip: u64, g: Guest): Res
    requires k <= |v|
    decreases k
  {
    if k == 0 then Done(g, rip)
    else
      match Meaning(regs, v[0], Keep(v, full), strict, g)
      case Fault => Fault
      case Done(g1, rip1) => Run(regs, v[1..], k - 1, full, strict, rip1, g1)
  }

  /** Equal in everything but flags outside the set. */
  predicate Agree(g: Guest, g': Guest, live: FlagSet) {
    g'.r == g.r && g'.xmm == g.xmm && g'.mem == g.mem && g'.log == g.log && AgreeOn(g.flags, g'.flags, live)
  }

  predicate ResAgree(r: Res, r': Res, live: FlagSet) {
    match r
    case Fault => r'.Fault?
    case Done(g, rip) => r'.Done? && r'.rip == rip && Agree(g, r'.g, live)
  }

  lemma AgreeAll(g: Guest, g': Guest)
    requires Agree(g, g', ALL)
    ensures g == g'
  {
  }

  /** A condition depends on the flags it reads and on no other. */
  lemma CondReads(f: Flags, f': Flags, cc: CondCode)
    requires AgreeOn(f, f', CcReads(cc))
    ensures Cond(f, cc) == Cond(f', cc)
  {
  }

  /** Every flag a condition reads can decide it: the set is no larger than it must be. */
  lemma CondReadsExactly(cc: CondCode, s: FlagSet)
    requires !CcReads(cc).Subset(s)
    ensures exists f: Flags, f': Flags :: AgreeOn(f, f', s) && Cond(f, cc) != Cond(f', cc)
  {
    var other := Reserved(0, 0, 0, 0, 0);
    var f0 := Flags(false, false, false, false, false, false, other);
    var f := if CcReads(cc).cf && !s.cf then f0.(cf := true)
      else if CcReads(cc).zf && !s.zf then f0.(zf := true)
      else if CcReads(cc).sf && !s.sf then f0.(sf := true)
      else if CcReads(cc).of && !s.of then f0.(of := true)
      else f0.(pf := true);
    assert AgreeOn(f, f0, s);
    assert Cond(f, cc) != Cond(f0, cc);
  }

  // --- one instruction ------------------------------------------------------------------------

  /** The routine's flags selected by what compiled code keeps, and by everything. */
  predicate Kills(t: Flags, t': Flags, keep: FlagSet, written: FlagSet, live: FlagSet, f: Flags, f': Flags) {
    AgreeOn(f, f', live.Minus(written)) ==> AgreeOn(Select(f, t, keep), Select(f', t', ALL), live)
  }

  /** t and t', computed over f and f', are the same on w and have left the other flags as they were. */
  predicate Framed(w: FlagSet, f: Flags, f': Flags, t: Flags, t': Flags) {
    && AgreeOn(t.(other := f.other), t'.(other := f.other), w) && AgreeOn(f, t.(other := f.other), ALL.Minus(w))
    && AgreeOn(f', t'.(other := f'.other), ALL.Minus(w))
  }

  lemma FramedAll(f: Flags, f': Flags, t: Flags, t': Flags)
    requires t == t'.(other := f.other)
    ensures Framed(ALL, f, f', t, t')
  {
  }

  lemma FramedInc(f: Flags, f': Flags, t: Flags, t': Flags)
    requires t == t'.(other := f.other)
    ensures Framed(INCDEC, f, f', t.(cf := f.cf), t'.(cf := f'.cf))
  {
    hide AgreeOn, FlagSet.Minus;
    IncRest();
    IncAgree(f, f', t, t');
    KeptCarry(f, t.(cf := f.cf).(other := f.other));
    KeptCarry(f', t'.(cf := f'.cf).(other := f'.other));
  }

  lemma IncRest()
    ensures ALL.Minus(INCDEC) == NONE.(cf := true)
  {
  }

  lemma KeptCarry(f: Flags, t: Flags)
    requires t.cf == f.cf && t.other == f.other
    ensures AgreeOn(f, t, NONE.(cf := true))
  {
  }

  lemma IncAgree(f: Flags, f': Flags, t: Flags, t': Flags)
    requires t == t'.(other := f.other)
    ensures AgreeOn(t.(cf := f.cf).(other := f.other), t'.(cf := f'.cf).(other := f.other), INCDEC)
  {
  }

  lemma AddFramed(f: Flags, f': Flags, a: u64, b: u64, r: u64, size: Size)
    ensures Framed(ALL, f, f', FlagsAdd(f, a, b, r, size), FlagsAdd(f', a, b, r, size))
    ensures Framed(INCDEC, f, f', FlagsAdd(f, a, b, r, size).(cf := f.cf), FlagsAdd(f', a, b, r, size).(cf := f'.cf))
  {
    hide FlagsAdd, Framed;
    AddOverwrites(f, f', a, b, r, size);
    FramedAll(f, f', FlagsAdd(f, a, b, r, size), FlagsAdd(f', a, b, r, size));
    FramedInc(f, f', FlagsAdd(f, a, b, r, size), FlagsAdd(f', a, b, r, size));
  }

  lemma AddOverwrites(f: Flags, f': Flags, a: u64, b: u64, r: u64, size: Size)
    ensures FlagsAdd(f, a, b, r, size) == FlagsAdd(f', a, b, r, size).(other := f.other)
    ensures FlagsAdd(f', a, b, r, size).other == f'.other
  {
    hide Trunc, Nibble, EvenParity, Half;
  }

  lemma SubFramed(f: Flags, f': Flags, a: u64, b: u64, r: u64, size: Size)
    ensures Framed(ALL, f, f', FlagsSub(f, a, b, r, size), FlagsSub(f', a, b, r, size))
    ensures Framed(INCDEC, f, f', FlagsSub(f, a, b, r, size).(cf := f.cf), FlagsSub(f', a, b, r, size).(cf := f'.cf))
  {
    hide FlagsSub, Framed;
    SubOverwrites(f, f', a, b, r, size);
    FramedAll(f, f', FlagsSub(f, a, b, r, size), FlagsSub(f', a, b, r, size));
    FramedInc(f, f', FlagsSub(f, a, b, r, size), FlagsSub(f', a, b, r, size));
  }

  lemma SubOverwrites(f: Flags, f': Flags, a: u64, b: u64, r: u64, size: Size)
    ensures FlagsSub(f, a, b, r, size) == FlagsSub(f', a, b, r, size).(other := f.other)
    ensures FlagsSub(f', a, b, r, size).other == f'.other
  {
    hide Trunc, Nibble, EvenParity, Half;
  }

  lemma LogicFramed(f: Flags, f': Flags, r: u64, size: Size)
    ensures Framed(LOGIC, f, f', FlagsLogic(f, r, size), FlagsLogic(f', r, size))
  {
    hide Trunc, EvenParity, Half;
  }

  /** A routine writes the same value to every flag in its set whatever they were, and keeps the others. */
  lemma RoutineFrame(fn: Helper, f: Flags, f': Flags, a: u64, b: u64, r: u64, size: Size)
    requires FlagRoutine(fn)
    ensures Framed(HelperWrites(fn), f, f', Routine(fn, f, a, b, r, size), Routine(fn, f', a, b, r, size))
  {
    hide FlagsAdd, FlagsSub, FlagsLogic, Framed;
    AddFramed(f, f', a, b, r, size);
    AddFramed(f, f', a, 1, r, size);
    SubFramed(f, f', a, b, r, size);
    SubFramed(f, f', a, 1, r, size);
    LogicFramed(f, f', r, size);
  }

  lemma KillsByRoutine(fn: Helper, f: Flags, f': Flags, t: Flags, t': Flags, need: FlagSet, keep: FlagSet,
      live: FlagSet)
    requires Framed(HelperWrites(fn), f, f', t, t') && need == HelperWrites(fn).Meet(live)
    requires need.Subset(keep) && keep.Subset(HelperWrites(fn))
    ensures Kills(t, t', keep, HelperWrites(fn), live, f, f')
  {
  }

  /** An operation's result does not depend on the flags; its flags agree wherever they are live. */
  lemma AluAgrees(o: Insn, a: u64, b: u64, live: FlagSet, g: Guest, g': Guest)
    requires IsAlu(o.kind) && Agree(g, g', live.Minus(Written(o)))
    ensures var (r, g1) := AluStep(o, a, b, Effective(o, Written(o).Meet(live)), g);
      var (r', g1') := AluStep(o, a, b, ALL, g');
      r == r' && Agree(g1, g1', live)
  {
    hide AluResult, AgreeOn, Routine, Select, Kept, HelperWrites, AluFlags;
    var r := AluResult(o.op, a, b);
    AluFlagsRoutine(g.flags, o.op, a, b, r, o.size);
    AluFlagsRoutine(g'.flags, o.op, a, b, r, o.size);
    FlagsKilled(FlagHelper(o.op), g.flags, g'.flags, a, b, r, o.size, live);
    WrittenIs(o);
  }

  function WrittenBy(fn: Option<Helper>): FlagSet { if fn.None? then NONE else HelperWrites(fn.value) }

  lemma WrittenIs(o: Insn)
    requires IsAlu(o.kind)
    ensures Written(o) == WrittenBy(FlagHelper(o.op))
    ensures FlagHelper(o.op).Some? ==> FlagRoutine(FlagHelper(o.op).value)
  {
  }

  lemma KeptBetween(fn: Helper, live: FlagSet, size: Size)
    ensures var need := HelperWrites(fn).Meet(live);
      need.Subset(Kept(Some(fn), need, size)) && Kept(Some(fn), need, size).Subset(HelperWrites(fn))
  {
    var w := HelperWrites(fn);
    hide HelperWrites;
    MeetBetween(w, live);
  }

  lemma MeetBetween(w: FlagSet, live: FlagSet)
    ensures var need := w.Meet(live);
      need.Subset(need) && need.Subset(w) && w.Subset(w) && NONE.Subset(w) && (need.Empty() ==> need.Subset(NONE))
  {
  }

  lemma FlagsKilled(fn: Option<Helper>, f: Flags, f': Flags, a: u64, b: u64, r: u64, size: Size, live: FlagSet)
    requires fn.Some? ==> FlagRoutine(fn.value)
    ensures Kills(RoutineOf(fn, f, a, b, r, size), RoutineOf(fn, f', a, b, r, size),
                  Kept(fn, WrittenBy(fn).Meet(live), size), WrittenBy(fn), live, f, f')
  {
    hide Routine, Kept, HelperWrites, Kills, FlagSet.Subset, FlagSet.Meet, AgreeOn, Framed;
    if fn.Some? {
      RoutineFrame(fn.value, f, f', a, b, r, size);
      KeptBetween(fn.value, live, size);
      var need := HelperWrites(fn.value).Meet(live);
      KillsByRoutine(fn.value, f, f', Routine(fn.value, f, a, b, r, size), Routine(fn.value, f', a, b, r, size),
                     need, Kept(fn, need, size), live);
    } else {
      NoneKills(f, f', live, size);
    }
  }

  lemma NoneKills(f: Flags, f': Flags, live: FlagSet, size: Size)
    ensures Kills(f, f', Kept(None, NONE.Meet(live), size), NONE, live, f, f')
  {
  }

  lemma LogicKilled(f: Flags, f': Flags, r: u64, size: Size, live: FlagSet)
    ensures Kills(FlagsLogic(f, r, size), FlagsLogic(f', r, size), Kept(Some(HLogic), LOGIC.Meet(live), size), LOGIC,
        live, f, f')
  {
    hide Kills, Kept, FlagsLogic;
    FlagsKilled(Some(HLogic), f, f', 0, 0, r, size, live);
  }

  /** A shift's flags agree whether or not the pass counted on them being written. */
  lemma ShiftAgrees(f: Flags, f': Flags, s: Shifted, size: Size, written: FlagSet, live: FlagSet)
    requires AgreeOn(f, f', live.Minus(written)) && written.Subset(LOGIC)
    ensures AgreeOn(Select(f, ShiftFlags(f, s, size), LOGIC), Select(f', ShiftFlags(f', s, size), ALL), live)
  {
    hide Trunc, EvenParity;
  }

  lemma LoadAgrees(regs: seq<Region>, g: Guest, g': Guest, a: u64, size: Size, live: FlagSet)
    requires Agree(g, g', live)
    ensures Ld(regs, g, a, size) == Ld(regs, g', a, size)
  {
    hide AccessOk;
  }

  lemma StoreAgrees(regs: seq<Region>, g: Guest, g': Guest, a: u64, v: u64, size: Size, rip: u64, live: FlagSet)
    requires Agree(g, g', live)
    ensures ResAgree(Store2(regs, g, a, v, size, rip), Store2(regs, g', a, v, size, rip), live)
  {
    hide AccessOk, Store, Window, LoadSize, Ok, AgreeOn;
  }

  lemma OperandAgrees(g: Guest, g': Guest, reg: Reg, v: u64, size: Size, rex: bool, live: FlagSet)
    requires Agree(g, g', live)
    ensures RegOperand(g, reg, size, rex) == RegOperand(g', reg, size, rex)
    ensures Agree(SetOperand(g, reg, v, size, rex), SetOperand(g', reg, v, size, rex), live)
  {
    hide AgreeOn, WithLowByte, WithHighByte;
  }

  /** The instructions that only compute into a register. */
  lemma AluRegAgrees(o: Insn, a: u64, b: u64, live: FlagSet, g: Guest, g': Guest)
    requires IsAlu(o.kind) && Agree(g, g', live.Minus(Written(o)))
    ensures Agree(AluGuest(o, a, b, Written(o).Meet(live), g), FullAlu(o, a, b, g'), live)
  {
    hide AluStep, Agree, SetOperand, Effective, RegOperand;
    AluAgrees(o, a, b, live, g, g');
    if !o.noWrite {
      var (r, g1) := AluStep(o, a, b, Effective(o, Written(o).Meet(live)), g);
      var (r', g1') := AluStep(o, a, b, ALL, g');
      OperandAgrees(g1, g1', o.reg, r, o.size, o.hasRex, live);
    }
  }

  function FullAlu(o: Insn, a: u64, b: u64, g: Guest): Guest {
    var (r, g1) := AluStep(o, a, b, ALL, g);
    if o.noWrite then g1 else SetOperand(g1, o.reg, r, o.size, o.hasRex)
  }

  /** One step of either run, for the kinds that only do arithmetic into a register. */
  lemma RegStepAgrees(regs: seq<Region>, o: Insn, live: FlagSet, g: Guest, g': Guest)
    requires (o.kind.KRR? || o.kind.KRI? || o.kind.KRM?) && Agree(g, g', Before(o, live))
    ensures StepsAgree(regs, o, live, g, g')
  {
    hide AluStep, Agree, SetOperand, Effective, RegOperand, Address, Ld;
    BeforeQuiet(o, live);
    OperandsAgree(regs, o, live.Minus(Written(o)), g, g');
    var a := RegOperand(g, o.reg, o.size, o.hasRex);
    var b := if o.kind.KRR? then RegOperand(g, o.src, o.size, o.hasRex) else if o.kind.KRI? then o.imm
      else if Ld(regs, g, Address(o, g.r), o.size).Some? then Ld(regs, g, Address(o, g.r), o.size).value else 0;
    AluRegAgrees(o, a, b, live, g, g');
  }

  ghost predicate StepsAgree(regs: seq<Region>, o: Insn, live: FlagSet, g: Guest, g': Guest) {
    ResAgree(Meaning(regs, o, Effective(o, Written(o).Meet(live)), false, g), Meaning(regs, o, ALL, false, g'), live)
  }

  lemma BeforeQuiet(o: Insn, live: FlagSet)
    requires !o.kind.KJcc? && !o.kind.KSetcc?
    ensures Before(o, live) == live.Minus(Written(o))
  {
  }

  lemma OperandsAgree(regs: seq<Region>, o: Insn, live: FlagSet, g: Guest, g': Guest)
    requires Agree(g, g', live)
    ensures g.r == g'.r
    ensures RegOperand(g, o.reg, o.size, o.hasRex) == RegOperand(g', o.reg, o.size, o.hasRex)
    ensures RegOperand(g, o.src, o.size, o.hasRex) == RegOperand(g', o.src, o.size, o.hasRex)
    ensures RegOperand(g, o.src, o.ssize, o.hasRex) == RegOperand(g', o.src, o.ssize, o.hasRex)
    ensures Ld(regs, g, Address(o, g.r), o.size) == Ld(regs, g', Address(o, g.r), o.size)
    ensures Ld(regs, g, Address(o, g.r), o.ssize) == Ld(regs, g', Address(o, g.r), o.ssize)
  {
    hide Address, AgreeOn;
    LoadAgrees(regs, g, g', Address(o, g.r), o.size, live);
    LoadAgrees(regs, g, g', Address(o, g.r), o.ssize, live);
  }

  lemma RmwStepAgrees(regs: seq<Region>, o: Insn, live: FlagSet, g: Guest, g': Guest)
    requires (o.kind.KMR? || o.kind.KMI?) && Agree(g, g', Before(o, live))
    ensures StepsAgree(regs, o, live, g, g')
  {
    hide AluStep, Agree, Effective, RegOperand, Address, Ld, Store2, ResAgree;
    BeforeQuiet(o, live);
    OperandsAgree(regs, o, live.Minus(Written(o)), g, g');
    var ea, b := Address(o, g.r), StoreOperand(o, g);
    if o.op.AMov? {
      MinusNothing(o, live);
      StoreAgrees(regs, g, g', ea, b, o.size, o.next, live);
    } else if Ld(regs, g, ea, o.size).Some? {
      RmwAgrees(regs, o, ea, Ld(regs, g, ea, o.size).value, b, live, g, g');
    } else {
      FaultsAgree(live);
    }
  }

  lemma FaultsAgree(live: FlagSet)
    ensures ResAgree(Fault, Fault, live)
  {
  }

  lemma MinusNothing(o: Insn, live: FlagSet)
    requires IsAlu(o.kind) && o.op.AMov?
    ensures live.Minus(Written(o)) == live
  {
  }

  lemma RmwAgrees(regs: seq<Region>, o: Insn, ea: u64, a: u64, b: u64, live: FlagSet, g: Guest, g': Guest)
    requires IsAlu(o.kind) && Agree(g, g', live.Minus(Written(o)))
    ensures var (r, g1) := AluStep(o, a, b, Effective(o, Written(o).Meet(live)), g);
      var (r', g1') := AluStep(o, a, b, ALL, g');
      ResAgree(if o.noWrite then Done(g1, o.next) else Store2(regs, g1, ea, r, o.size, o.next),
               if o.noWrite then Done(g1', o.next) else Store2(regs, g1', ea, r', o.size, o.next), live)
  {
    hide AluStep, Agree, Effective, Store2;
    AluAgrees(o, a, b, live, g, g');
    if !o.noWrite {
      var (r, g1) := AluStep(o, a, b, Effective(o, Written(o).Meet(live)), g);
      var (r', g1') := AluStep(o, a, b, ALL, g');
      StoreAgrees(regs, g1, g1', ea, r, o.size, o.next, live);
    }
  }

  lemma ShiftWrites(o: Insn, r: RegFile)
    requires o.kind.KShift?
    ensures Written(o).Subset(LOGIC) && (ShiftCount(o, r) == 0 ==> Written(o) == NONE)
    ensures 0 <= ShiftCount(o, r) < 64
  {
  }

  lemma FlagsAgree(g: Guest, g': Guest, f: Flags, f': Flags, before: FlagSet, live: FlagSet)
    requires Agree(g, g', before) && AgreeOn(f, f', live)
    ensures Agree(g.(flags := f), g'.(flags := f'), live)
  {
  }

  lemma AgreeFlags(g: Guest, g': Guest, live: FlagSet)
    requires Agree(g, g', live)
    ensures AgreeOn(g.flags, g'.flags, live)
  {
  }

  lemma ShiftStepAgrees(regs: seq<Region>, o: Insn, live: FlagSet, g: Guest, g': Guest)
    requires o.kind.KShift? && Agree(g, g', Before(o, live))
    ensures StepsAgree(regs, o, live, g, g')
  {
    hide Agree, SetOperand, RegOperand, Address, Ld, Store2, ShiftCalc, ShiftFlags, Select, AgreeOn, ShiftCount,
        Written, Before,
         FlagSet.Minus, FlagSet.Meet, FlagSet.Subset;
    var w, cnt := Written(o), ShiftCount(o, g.r);
    BeforeQuiet(o, live);
    OperandsAgree(regs, o, live.Minus(w), g, g');
    ShiftWrites(o, g.r);
    if cnt == 0 {
      MinusNone(live);
    } else {
      var v := if o.mem then Ld(regs, g, Address(o, g.r), o.size) else Some(RegOperand(g, o.reg, o.size, o.hasRex));
      if v.Some? {
        var s := ShiftCalc(v.value, cnt, o.size, o.ext);
        AgreeFlags(g, g', live.Minus(w));
        ShiftAgrees(g.flags, g'.flags, s, o.size, w, live);
        var g1 := g.(flags := Select(g.flags, ShiftFlags(g.flags, s, o.size), LOGIC));
        var g1' := g'.(flags := Select(g'.flags, ShiftFlags(g'.flags, s, o.size), ALL));
        FlagsAgree(g, g', g1.flags, g1'.flags, live.Minus(w), live);
        StoreAgrees(regs, g1, g1', Address(o, g.r), s.res, o.size, o.next, live);
        OperandAgrees(g1, g1', o.reg, s.res, o.size, o.hasRex, live);
      }
    }
  }

  lemma MinusNone(live: FlagSet)
    ensures live.Minus(NONE) == live
  {
  }

  lemma ImulStepAgrees(regs: seq<Region>, o: Insn, live: FlagSet, g: Guest, g': Guest)
    requires o.kind.KImul? && Agree(g, g', Before(o, live))
    ensures StepsAgree(regs, o, live, g, g')
  {
    hide Agree, SetReg, Address, Ld, FlagsLogic, Select, AgreeOn, Kept, Signed, Kills, FlagSet.Minus, FlagSet.Meet;
    BeforeQuiet(o, live);
    OperandsAgree(regs, o, live.Minus(LOGIC), g, g');
    var v := if o.mem then Ld(regs, g, Address(o, g.r), o.size) else Some(Trunc(Get(g.r, o.src), o.size));
    if v.Some? {
      var b := if o.immSrc then o.imm else Get(g.r, o.reg);
      var r := Wrap(Signed(v.value, o.size) * Signed(b, o.size));
      var keep := Kept(Some(HLogic), LOGIC.Meet(live), o.size);
      var g1 := g.(flags := Select(g.flags, FlagsLogic(g.flags, r, o.size), keep));
      var g1' := g'.(flags := Select(g'.flags, FlagsLogic(g'.flags, r, o.size), ALL));
      AgreeFlags(g, g', live.Minus(LOGIC));
      LogicKilled(g.flags, g'.flags, r, o.size, live);
      Killed(g.flags, g'.flags, FlagsLogic(g.flags, r, o.size), FlagsLogic(g'.flags, r, o.size), keep, LOGIC, live);
      FlagsAgree(g, g', g1.flags, g1'.flags, live.Minus(LOGIC), live);
      SetRegAgrees(g1, g1', o.reg, r, o.size, live);
    }
  }

  lemma Killed(f: Flags, f': Flags, t: Flags, t': Flags, keep: FlagSet, w: FlagSet, live: FlagSet)
    requires AgreeOn(f, f', live.Minus(w)) && Kills(t, t', keep, w, live, f, f')
    ensures AgreeOn(Select(f, t, keep), Select(f', t', ALL), live)
  {
    hide AgreeOn, Select;
  }

  lemma SetRegAgrees(g: Guest, g': Guest, r: Reg, v: u64, size: Size, live: FlagSet)
    requires Agree(g, g', live)
    ensures Agree(SetReg(g, r, v, size), SetReg(g', r, v, size), live)
  {
    hide AgreeOn, WithLowByte;
  }

  // the rest read and write no flags but a condition's

  lemma SetccStepAgrees(regs: seq<Region>, o: Insn, live: FlagSet, g: Guest, g': Guest)
    requires o.kind.KSetcc? && Agree(g, g', Before(o, live))
    ensures StepsAgree(regs, o, live, g, g')
  {
    hide Address, Store2, Cond, SetReg8, AgreeOn, CcReads, Before, Effective;
    CondLive(o, live, g, g');
    CondReads(g.flags, g'.flags, o.cc);
    var v := if Cond(g.flags, o.cc) then 1 else 0;
    StoreAgrees(regs, g, g', Address(o, g.r), v, 1, o.next, live);
    OperandAgrees(g, g', o.reg, v, 1, o.hasRex, live);
  }

  lemma JccStepAgrees(regs: seq<Region>, o: Insn, live: FlagSet, g: Guest, g': Guest)
    requires o.kind.KJcc? && Agree(g, g', Before(o, live))
    ensures StepsAgree(regs, o, live, g, g')
  {
    hide Address, Cond, AgreeOn, CcReads, Before, Effective;
    CondLive(o, live, g, g');
    CondReads(g.flags, g'.flags, o.cc);
  }

  lemma CondLive(o: Insn, live: FlagSet, g: Guest, g': Guest)
    requires (o.kind.KSetcc? || o.kind.KJcc?) && Agree(g, g', Before(o, live))
    ensures Agree(g, g', live) && AgreeOn(g.flags, g'.flags, CcReads(o.cc))
  {
    hide CcReads;
  }

  predicate Quiet(k: Kind) {
    k.KNop? || k.KLea? || k.KMovx? || k.KPush? || k.KPop? || k.KJmp? || k.KCall? || k.KRet? || k.KCallM? || k.KJmpM?
  }

  lemma QuietLive(o: Insn, live: FlagSet)
    requires Quiet(o.kind)
    ensures Before(o, live) == live
  {
  }

  lemma PushAgrees(regs: seq<Region>, g: Guest, g': Guest, v: u64, live: FlagSet)
    requires Agree(g, g', live)
    ensures Push(regs, g, v).None? == Push(regs, g', v).None?
    ensures Push(regs, g, v).Some? ==> Agree(Push(regs, g, v).value, Push(regs, g', v).value, live)
  {
    hide St, AgreeOn;
    var sp := Wrap(Get(g.r, RSP) - 8);
    var h, h' := g.(r := g.r[RSP := sp]), g'.(r := g'.r[RSP := sp]);
    StoreAgrees(regs, h, h', sp, v, 8, 0, live);
  }

  lemma JumpAgrees(regs: seq<Region>, o: Insn, ea: u64, g: Guest, g': Guest, live: FlagSet)
    requires Agree(g, g', live)
    ensures ResAgree(Jump(regs, o, ea, g), Jump(regs, o, ea, g'), live)
  {
    hide Ld, AgreeOn;
    LoadAgrees(regs, g, g', ea, 8, live);
  }

  lemma MoveStepAgrees(regs: seq<Region>, o: Insn, live: FlagSet, g: Guest, g': Guest)
    requires (o.kind.KNop? || o.kind.KLea? || o.kind.KMovx?) && Agree(g, g', Before(o, live))
    ensures StepsAgree(regs, o, live, g, g')
  {
    hide Agree, SetReg, RegOperand, Address, Ld, Sext;
    QuietLive(o, live);
    OperandsAgree(regs, o, live, g, g');
    if o.kind.KLea? {
      SetRegAgrees(g, g', o.reg, Address(o, g.r), o.size, live);
    } else if o.kind.KMovx? {
      var v := if o.mem then Ld(regs, g, Address(o, g.r), o.ssize) else Some(RegOperand(g, o.src, o.ssize, o.hasRex));
      if v.Some? { SetRegAgrees(g, g', o.reg, if o.sign then Sext(v.value, o.ssize) else v.value, o.size, live); }
    }
  }

  lemma StackStepAgrees(regs: seq<Region>, o: Insn, live: FlagSet, g: Guest, g': Guest)
    requires (o.kind.KPush? || o.kind.KPop? || o.kind.KCall? || o.kind.KRet?) && Agree(g, g', Before(o, live))
    ensures StepsAgree(regs, o, live, g, g')
  {
    hide Push, Address, Ld, AgreeOn;
    QuietLive(o, live);
    LoadAgrees(regs, g, g', Get(g.r, RSP), 8, live);
    PushAgrees(regs, g, g', if o.kind.KPush? then Get(g.r, o.reg) else o.next, live);
  }

  lemma JumpStepAgrees(regs: seq<Region>, o: Insn, live: FlagSet, g: Guest, g': Guest)
    requires (o.kind.KJmp? || o.kind.KCallM? || o.kind.KJmpM?) && Agree(g, g', Before(o, live))
    ensures StepsAgree(regs, o, live, g, g')
  {
    hide Push, Address, Jump, AgreeOn;
    QuietLive(o, live);
    var ea := Address(o, g.r);
    JumpAgrees(regs, o, ea, g, g', live);
    PushAgrees(regs, g, g', o.next, live);
    if Push(regs, g, o.next).Some? {
      JumpAgrees(regs, o, ea, Push(regs, g, o.next).value, Push(regs, g', o.next).value, live);
    }
  }

  /** Computing only the needed flags and computing all of them agree on whatever is live afterwards. */
  lemma StepAgrees(regs: seq<Region>, o: Insn, live: FlagSet, g: Guest, g': Guest)
    requires Agree(g, g', Before(o, live))
    ensures StepsAgree(regs, o, live, g, g')
  {
    hide StepsAgree, Agree, Before;
    match o.kind
    case KRR => RegStepAgrees(regs, o, live, g, g');
    case KRI => RegStepAgrees(regs, o, live, g, g');
    case KRM => RegStepAgrees(regs, o, live, g, g');
    case KMR => RmwStepAgrees(regs, o, live, g, g');
    case KMI => RmwStepAgrees(regs, o, live, g, g');
    case KShift => ShiftStepAgrees(regs, o, live, g, g');
    case KImul => ImulStepAgrees(regs, o, live, g, g');
    case KSetcc => SetccStepAgrees(regs, o, live, g, g');
    case KJcc => JccStepAgrees(regs, o, live, g, g');
    case KNop => MoveStepAgrees(regs, o, live, g, g');
    case KLea => MoveStepAgrees(regs, o, live, g, g');
    case KMovx => MoveStepAgrees(regs, o, live, g, g');
    case KPush => StackStepAgrees(regs, o, live, g, g');
    case KPop => StackStepAgrees(regs, o, live, g, g');
    case KCall => StackStepAgrees(regs, o, live, g, g');
    case KRet => StackStepAgrees(regs, o, live, g, g');
    case KJmp => JumpStepAgrees(regs, o, live, g, g');
    case KCallM => JumpStepAgrees(regs, o, live, g, g');
    case KJmpM => JumpStepAgrees(regs, o, live, g, g');
  }

  // --- whole blocks -----------------------------------------------------------------------------

  /** After any number of a block's instructions, the run that computes only needed flags and the run
      that computes all of them agree on every register, every byte and every live flag. */
  lemma {:induction false} RunsAgree(regs: seq<Region>, v: seq<Insn>, k: nat, rip: u64, g: Guest, g': Guest)
    requires k <= |v| && Agree(g, g', Live(v))
    ensures ResAgree(Run(regs, v, k, false, false, rip, g), Run(regs, v, k, true, false, rip, g'), Live(v[k..]))
    decreases k
  {
    hide Meaning, Agree, Effective;
    if k == 0 {
      assert v[0..] == v;
    } else {
      assert v[1..][k - 1..] == v[k..];
      StepAgrees(regs, v[0], Live(v[1..]), g, g');
      match Meaning(regs, v[0], Keep(v, false), false, g)
      case Fault =>
      case Done(g1, rip1) => RunsAgree(regs, v[1..], k - 1, rip1, g1, Meaning(regs, v[0], ALL, false, g').g);
    }
  }

  /** At the end of the block everything is live, so the two runs end in the same state. */
  lemma LivenessPreserves(regs: seq<Region>, v: seq<Insn>, rip: u64, g: Guest)
    ensures Run(regs, v, |v|, false, false, rip, g) == Run(regs, v, |v|, true, false, rip, g)
  {
    hide Run;
    assert Agree(g, g, Live(v));
    RunsAgree(regs, v, |v|, rip, g, g);
    assert v[|v|..] == [];
    match Run(regs, v, |v|, false, false, rip, g)
    case Fault =>
    case Done(g1, _) => AgreeAll(g1, Run(regs, v, |v|, true, false, rip, g).g);
  }
}
