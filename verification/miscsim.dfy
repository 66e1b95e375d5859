/** Multiplication, conditions as values, widening moves, addresses and the stack. */
module MiscSimulation {
  import opened Words
  import opened StatusFlags
  import opened Regions
  import opened GuestState
  import opened Insns
  import opened A64
  import opened Execution
  import opened CodeGen
  import opened Fragments
  import opened Accesses
  import opened AluRuns
  import opened Simulation

  // --- imul -------------------------------------------------------------------------------------

  lemma SignedMod(v: int, size: Size)
    ensures Signed(v, size) % Modulus(size) == v % Modulus(size)
  {
    TruncMod(v, size);
    if Trunc(v, size) >= Half(size) { ModShift(Trunc(v, size), -1, Modulus(size)); }
    ModOfMod(v, Modulus(size));
  }

  lemma ModOfMod(v: int, m: int)
    requires m >= 1
    ensures (v % m) % m == v % m
  {
  }

  /** The register product and the product of the signed operands agree in their low bytes. */
  lemma ProductLow(x: u64, y: u64, a: u64, b: u64, size: Size)
    requires size == 4 || size == 8
    requires Same(x, a, size) && Same(y, b, size)
    ensures var p, r := MulResult(size != 8, x, y), Wrap(Signed(a, size) * Signed(b, size));
      Same(p, r, size) && (size == 4 ==> p < 0x1_0000_0000 && p == r % 0x1_0000_0000) && (size == 8 ==> p == r)
  {
    hide Signed, MulResult, Trunc, Wrap;
    var s: int := Signed(a, size) * Signed(b, size);
    var q: int := x * y;
    ProductMod(x, y, a, b, size);
    TruncMod(q, size);
    TruncMod(s, size);
    TruncWrap(s, size);
    ProductCut(x, y, size);
    TruncTwice(Trunc(q, size), size);
    WordCut(Wrap(s), s, size);
  }

  lemma ProductCut(x: u64, y: u64, size: Size)
    requires size == 4 || size == 8
    ensures MulResult(size != 8, x, y) == Trunc(x * y, size)
  {
  }

  lemma WordCut(r: u64, s: int, size: Size)
    requires size == 4 || size == 8
    ensures size == 4 ==> Trunc(r, size) == r % 0x1_0000_0000 < 0x1_0000_0000
    ensures size == 8 ==> Trunc(r, size) == r
    ensures Trunc(Trunc(s, size), size) == Trunc(s, size)
  {
  }

  lemma ProductMod(x: u64, y: u64, a: u64, b: u64, size: Size)
    requires Same(x, a, size) && Same(y, b, size)
    ensures (x * y) % Modulus(size) == (Signed(a, size) * Signed(b, size)) % Modulus(size)
  {
    hide Signed, Trunc, Modulus;
    TruncMod(x, size);
    TruncMod(y, size);
    TruncMod(a, size);
    TruncMod(b, size);
    SignedMod(a, size);
    SignedMod(b, size);
    MulMod(x, y, Signed(a, size), Signed(b, size), Modulus(size));
  }

  function Source(env: Env, o: Insn, g: Guest): Option<u64> {
    if o.mem then Ld(env.regs, g, Address(o, g.r), o.size) else Some(Trunc(Get(g.r, o.src), o.size))
  }

  ghost predicate SourceReady(env: Env, o: Insn, m: Machine, out: Outcome) {
    match Source(env, o, m.g)
    case Some(a) => out.At? && out.k == 0 && Continues(env, m, out.m) && out.m.g == m.g && Same(X(out.m, 1), a, o.size)
    case None => Faults(env, m, out)
  }

  lemma ImulSourceRuns(env: Env, c: Ctx, o: Insn, m: Machine)
    requires EnvOk(env) && Ready(env, m) && WellFormed(o) && c.host == env.host
    ensures SourceReady(env, o, m, Exec(env, ImulSource(c, o), m))
  {
    hide Step, Exec, PutOperandLoad, Address, HitsValid, Ld, Same, WellFormed;
    if o.mem {
      OperandLoadRuns(env, c, o, o.size, m);
      match Ld(env.regs, m.g, Address(o, m.g.r), o.size)
      case Some(v) =>
        var m1 := Exec(env, PutOperandLoad(c, o, o.size), m).m;
        Then(env, PutOperandLoad(c, o, o.size), [Mov(1, 0)], m, m1);
        StepMov(env, 1, 0, m1);
        Run1(env, Mov(1, 0), m1);
        SameSelf(v, o.size);
      case None => Cut(env, PutOperandLoad(c, o, o.size), [Mov(1, 0)], m);
    } else {
      StepLdrReg(env, 1, o.src, m);
      Run1(env, Ldr(8, 1, CPU, OffR(o.src)), m);
      SameTrunc(Get(m.g.r, o.src), o.size);
    }
  }

  lemma SameTrunc(v: u64, size: Size)
    ensures Same(v, Trunc(v, size), size)
  {
    TruncTwice(v, size);
  }

  function OtherValue(o: Insn, g: Guest): u64 { if o.immSrc then o.imm else Get(g.r, o.reg) }

  lemma ImulOtherRuns(env: Env, o: Insn, m: Machine)
    requires X(m, CPU) == env.host.cpu
    ensures Exec(env, ImulOther(o), m) == At(0, SetX(m, 2, OtherValue(o, m.g)))
  {
    hide Step, Exec, PutImm;
    if o.immSrc {
      ImmLoads(env, 2, o.imm, m);
    } else {
      StepLdrReg(env, 2, o.reg, m);
      Run1(env, Ldr(8, 2, CPU, OffR(o.reg)), m);
    }
  }

  lemma ImulResultRuns(env: Env, o: Insn, m: Machine)
    requires X(m, CPU) == env.host.cpu
    ensures var p := MulResult(o.size != 8, X(m, 1), X(m, 2));
      Exec(env, ImulResult(o), m) == At(0, SetX(m, 3, p).(g := m.g.(r := m.g.r[o.reg := p])))
  {
    hide Step, Exec, MulResult;
    var p := MulResult(o.size != 8, X(m, 1), X(m, 2));
    var m1 := SetX(m, 3, p);
    StepSet(env, 3, Mul(o.size != 8, 1, 2), m);
    StepStrReg(env, 3, o.reg, m1);
    Run2(env, Set(3, Mul(o.size != 8, 1, 2)), Str(8, 3, CPU, OffR(o.reg)), m);
  }

  function ImulGuest(o: Insn, a: u64, b: u64, need: FlagSet, g: Guest): Guest {
    var r := Wrap(Signed(a, o.size) * Signed(b, o.size));
    SetReg(g.(flags := Select(g.flags, FlagsLogic(g.flags, r, o.size), Effective(o, need))), o.reg, r, o.size)
  }

  lemma ImulGuestIs(o: Insn, a: u64, b: u64, p: u64, need: FlagSet, g: Guest)
    requires o.kind.KImul? && WellFormed(o)
    requires var r := Wrap(Signed(a, o.size) * Signed(b, o.size));
      Same(p, r, o.size) && (o.size == 4 ==> p < 0x1_0000_0000 && p == r % 0x1_0000_0000) && (o.size == 8 ==> p == r)
    ensures ImulGuest(o, a, b, need, g)
         == g.(r := g.r[o.reg := p],
             flags := Select(g.flags, FlagsLogic(g.flags, p, o.size), Kept(Some(HLogic), need, o.size)))
  {
    hide Select, FlagsLogic, Kept, Signed;
    var r := Wrap(Signed(a, o.size) * Signed(b, o.size));
    LogicLowFlags(g.flags, p, r, o.size);
  }

  lemma LogicLowFlags(f: Flags, r: u64, r': u64, size: Size)
    requires Same(r, r', size)
    ensures FlagsLogic(f, r, size) == FlagsLogic(f, r', size)
  {
    hide Trunc, EvenParity;
  }

  lemma ImulTailRuns(env: Env, c: Ctx, o: Insn, a: u64, m: Machine)
    requires Starts(env, c, o, m) && o.kind.KImul? && Same(X(m, 1), a, o.size)
    ensures GoesOn(env, m, Exec(env, ImulOther(o) + (ImulResult(o) + PutFlags(c.host, Some(HLogic), c.need, o.size)),
                   m), ImulGuest(o, a, OtherValue(o, m.g), c.need, m.g))
  {
    hide Step, Exec, ImulOther, ImulResult, PutFlags, HitsValid, Same, MulResult, ImulGuest, Select, FlagsLogic, Kept,
        FlagSet.Subset,
         OtherValue, Signed;
    var b := OtherValue(o, m.g);
    var p := MulResult(o.size != 8, X(m, 1), b);
    var fl := PutFlags(c.host, Some(HLogic), c.need, o.size);
    var m1 := SetX(m, 2, b);
    ImulOtherRuns(env, o, m);
    Then(env, ImulOther(o), ImulResult(o) + fl, m, m1);
    var m2 := SetX(m1, 3, p).(g := m.g.(r := m.g.r[o.reg := p]));
    ImulResultRuns(env, o, m1);
    Then(env, ImulResult(o), fl, m1, m2);
    SameSelf(b, o.size);
    ProductLow(X(m, 1), b, a, b, o.size);
    FlagsRun(env, Some(HLogic), c.need, o.size, m2);
    ImulGuestIs(o, a, b, p, c.need, m.g);
  }

  lemma ImulMeaning(env: Env, o: Insn, need: FlagSet, g: Guest)
    requires o.kind.KImul?
    ensures Compiled(env, o, need, g)
         == match Source(env, o, g)
            case None => Fault
            case Some(a) => Done(ImulGuest(o, a, OtherValue(o, g), need, g), o.next)
  {
    hide Ld, Address, Select, FlagsLogic, Signed, Effective;
  }

  lemma ImulSimulates(env: Env, c: Ctx, o: Insn, m: Machine)
    requires Starts(env, c, o, m) && o.kind.KImul?
    ensures Simulates(env, o, m, Exec(env, PutInsn(c, o), m), Compiled(env, o, c.need, m.g))
  {
    hide Step, Exec, ImulSource, ImulOther, ImulResult, PutFlags, HitsValid, Same, ImulGuest, Compiled, Source,
         WellFormed, NeedFits;
    var rest := ImulOther(o) + (ImulResult(o) + PutFlags(c.host, Some(HLogic), c.need, o.size));
    ImulMeaning(env, o, c.need, m.g);
    ImulSourceRuns(env, c, o, m);
    match Source(env, o, m.g)
    case Some(a) =>
      var m1 := Exec(env, ImulSource(c, o), m).m;
      Then(env, ImulSource(c, o), rest, m, m1);
      ImulTailRuns(env, c, o, a, m1);
    case None => Cut(env, ImulSource(c, o), rest, m);
  }

  // --- setcc ----------------------------------------------------------------------------------------

  lemma CondValueRuns(env: Env, o: Insn, m: Machine)
    requires X(m, CPU) == env.host.cpu
    ensures var out := Exec(env, CondValue(o), m);
      out.At? && out.k == 0 && out.m == m.(x := out.m.x, f := out.m.f) && X(out.m, CPU) == X(m, CPU)
      && X(out.m, 0) == AsBit(Cond(m.g.flags, o.cc))
  {
    hide Step, Exec, PutCondEven, Cond, Holds;
    CondRuns(env, o.cc, m);
    var m1 := Exec(env, PutCondEven(o.cc), m).m;
    Then(env, PutCondEven(o.cc), [Set(0, Cset(Sense(o.cc)))], m, m1);
    RunSet(env, 0, Cset(Sense(o.cc)), m1);
  }

  lemma SetccMemRuns(env: Env, c: Ctx, o: Insn, m: Machine)
    requires Starts(env, c, o, m)
    ensures StoredSlot(env, Address(o, m.g.r), X(m, 0), m, Exec(env, SetccMem(c, o), m))
  {
    hide Step, Exec, PutSetRip, PutEa, PutStore, HitsValid, Address, Same, St, WellFormed, NeedFits;
    var s, ea, l, st := [Str(8, 0, CPU, OffTmp(0))], PutAddress(c, o), [Ldr(8, 2, CPU, OffTmp(0))],
        PutStore(c.host, c.check, 1);
    var m1 := m.(tmp := m.tmp[0 := X(m, 0)]);
    StepStrTmp(env, 0, 0, m);
    Run1(env, s[0], m);
    Then(env, s, ea + (l + st), m, m1);
    AddressRuns(env, c, o, m1);
    var m2 := Exec(env, ea, m1).m;
    Then(env, ea, l + st, m1, m2);
    var m3 := SetX(m2, 2, X(m, 0));
    StepLdrTmp(env, 2, 0, m2);
    Run1(env, l[0], m2);
    Then(env, l, st, m2, m3);
    SameSelf(X(m, 0), 1);
    StoreAfter(env, c, 1, X(m, 0), m3);
  }

  ghost predicate StoredSlot(env: Env, a: u64, v: u64, m: Machine, out: Outcome) {
    match St(env.regs, m.g, a, v, 1)
    case Some(g) => GoesOn(env, m, out, g)
    case None => Faults(env, m, out)
  }

  lemma SetccSimulates(env: Env, c: Ctx, o: Insn, m: Machine)
    requires Starts(env, c, o, m) && o.kind.KSetcc?
    ensures Simulates(env, o, m, Exec(env, PutInsn(c, o), m), Compiled(env, o, c.need, m.g))
  {
    hide Step, Exec, CondValue, SetccMem, PutWrReg, HitsValid, Address, St, SetReg, SetReg8, Effective, Cond, NeedFits;
    var v := AsBit(Cond(m.g.flags, o.cc));
    CondValueRuns(env, o, m);
    var m1 := Exec(env, CondValue(o), m).m;
    Then(env, CondValue(o), if o.mem then SetccMem(c, o) else PutWrReg(0, o, o.reg, 1), m, m1);
    if o.mem {
      SetccMemRuns(env, c, o, m1);
    } else {
      WrRegRuns(env, 0, o, o.reg, 1, m1);
    }
  }

  // --- movzx and movsx --------------------------------------------------------------------------------

  function MovxValue(env: Env, o: Insn, g: Guest): Option<u64> {
    if o.mem then Ld(env.regs, g, Address(o, g.r), o.ssize) else Some(RegOperand(g, o.src, o.ssize, o.hasRex))
  }

  ghost predicate MovxReady(env: Env, o: Insn, m: Machine, out: Outcome) {
    match MovxValue(env, o, m.g)
    case Some(v) => out.At? && out.k == 0 && Continues(env, m, out.m) && out.m.g == m.g
        && Trunc(X(out.m, 0), o.ssize) == v
    case None => Faults(env, m, out)
  }

  lemma MovxSourceRuns(env: Env, c: Ctx, o: Insn, m: Machine)
    requires EnvOk(env) && Ready(env, m) && WellFormed(o) && c.host == env.host
    ensures MovxReady(env, o, m, Exec(env, MovxSource(c, o), m))
  {
    hide Step, Exec, PutOperandLoad, PutRdReg, Address, HitsValid, Ld, WellFormed, Fetched, RegOperand;
    if o.mem {
      OperandLoadRuns(env, c, o, o.ssize, m);
      LdNarrow(env, m.g, Address(o, m.g.r), o.ssize);
    } else {
      RdRegRuns(env, 0, o, o.src, o.ssize, m);
      FetchedLow(m.g, o.src, o.ssize, o.hasRex);
    }
  }

  lemma LdNarrow(env: Env, g: Guest, a: u64, size: Size)
    ensures Ld(env.regs, g, a, size).Some? ==>
      Trunc(Ld(env.regs, g, a, size).value, size) == Ld(env.regs, g, a, size).value
  {
    hide Ok, AccessOk;
    ByteLimits(size);
  }

  lemma FieldTrunc(v: u64, size: Size)
    requires size == 1 || size == 2
    ensures Field(v, 0, 8 * size) == Trunc(v, size)
  {
    Pow2Values();
    assert Pow2(0) == 1;
  }

  /** The extension, and how the register write of either width takes it. */
  lemma ExtendValue(o: Insn, v: u64, m: Machine)
    requires o.kind.KMovx? && WellFormed(o) && Trunc(X(m, 0), o.ssize) == v
    ensures Modelled(Extend(o).v)
    ensures Value(0, Extend(o).v, m)
         == Trunc(if o.sign then Sext(v, o.ssize) else v, o.size)
  {
    hide Field;
    if o.sign {
      TruncTwice(X(m, 0), o.ssize);
    } else {
      FieldTrunc(X(m, 0), o.ssize);
    }
  }

  lemma MovxResultRuns(env: Env, o: Insn, v: u64, m: Machine)
    requires o.kind.KMovx? && WellFormed(o) && X(m, CPU) == env.host.cpu && Trunc(X(m, 0), o.ssize) == v
    ensures var r := if o.sign then Sext(v, o.ssize) else v;
      Exec(env, MovxResult(o), m) == At(0, SetX(m, 0, Trunc(r, o.size)).(g := SetReg(m.g, o.reg, r, o.size)))
  {
    hide Step, Exec, Value, WellFormed, Sext, Extend;
    var r := if o.sign then Sext(v, o.ssize) else v;
    var m1 := SetX(m, 0, Trunc(r, o.size));
    ExtendValue(o, v, m);
    assert Extend(o) == Set(0, Extend(o).v) by { ExtendShape(o); }
    StepSet(env, 0, Extend(o).v, m);
    StepStrReg(env, 0, o.reg, m1);
    WideWrite(m.g, o, r);
    NotBranch(o);
    Run2(env, Extend(o), Str(8, 0, CPU, OffR(o.reg)), m);
  }

  lemma ExtendShape(o: Insn)
    ensures Extend(o).Set? && Extend(o).d == 0
  {
  }

  lemma NotBranch(o: Insn)
    ensures !IsBranch(Extend(o))
  {
  }

  lemma WideWrite(g: Guest, o: Insn, r: u64)
    requires (o.kind.KMovx? || o.kind.KLea?) && WellFormed(o)
    ensures SetReg(g, o.reg, r, o.size) == g.(r := g.r[o.reg := Trunc(r, o.size)])
  {
  }

  lemma MovxMeaning(env: Env, o: Insn, need: FlagSet, g: Guest)
    requires o.kind.KMovx?
    ensures Compiled(env, o, need, g)
         == match MovxValue(env, o, g)
            case None => Fault
            case Some(v) => Done(SetReg(g, o.reg, if o.sign then Sext(v, o.ssize) else v, o.size), o.next)
  {
    hide Ld, Address, SetReg, Sext, Effective, RegOperand;
  }

  lemma MovxSimulates(env: Env, c: Ctx, o: Insn, m: Machine)
    requires Starts(env, c, o, m) && o.kind.KMovx?
    ensures Simulates(env, o, m, Exec(env, PutInsn(c, o), m), Compiled(env, o, c.need, m.g))
  {
    hide Step, Exec, MovxSource, MovxResult, HitsValid, Compiled, MovxValue, WellFormed, NeedFits, SetReg, Sext;
    MovxMeaning(env, o, c.need, m.g);
    MovxSourceRuns(env, c, o, m);
    match MovxValue(env, o, m.g)
    case Some(v) =>
      var m1 := Exec(env, MovxSource(c, o), m).m;
      Then(env, MovxSource(c, o), MovxResult(o), m, m1);
      MovxResultRuns(env, o, v, m1);
    case None => Cut(env, MovxSource(c, o), MovxResult(o), m);
  }

  // --- lea -----------------------------------------------------------------------------------------------

  lemma StepMovW(env: Env, d: int, n: int, m: Machine)
    ensures Step(env, MovW(d, n), m) == SetX(m, d, X(m, n) % 0x1_0000_0000)
  {
    hide Value;
    StepSet(env, d, Arith(OpOrr, true, ZR, n), m);
    MovWValue(d, n, m);
  }

  lemma MovWValue(d: int, n: int, m: Machine)
    ensures Value(d, Arith(OpOrr, true, ZR, n), m) == X(m, n) % 0x1_0000_0000
  {
    hide BitsW;
    OrZeroLeft(X(m, n));
  }

  lemma LeaResultRuns(env: Env, o: Insn, m: Machine)
    requires X(m, CPU) == env.host.cpu && o.kind.KLea? && WellFormed(o)
    ensures var out := Exec(env, PutLeaResult(o), m);
      out.At? && out.k == 0 && X(out.m, CPU) == X(m, CPU)
          && out.m == m.(x := out.m.x, g := SetReg(m.g, o.reg, X(m, 1), o.size))
  {
    hide Step, Exec, WellFormed;
    WideWrite(m.g, o, X(m, 1));
    if o.size == 4 {
      var m1 := SetX(m, 3, X(m, 1) % 0x1_0000_0000);
      StepMovW(env, 3, 1, m);
      StepStrReg(env, 3, o.reg, m1);
      Run2(env, MovW(3, 1), Str(8, 3, CPU, OffR(o.reg)), m);
    } else {
      StepStrReg(env, 1, o.reg, m);
      Run1(env, Str(8, 1, CPU, OffR(o.reg)), m);
      LeaWide(o);
    }
  }

  lemma LeaWide(o: Insn)
    requires o.kind.KLea? && WellFormed(o) && o.size != 4
    ensures o.size == 8
  {
  }

  lemma LeaSimulates(env: Env, c: Ctx, o: Insn, m: Machine)
    requires Starts(env, c, o, m) && o.kind.KLea?
    ensures Simulates(env, o, m, Exec(env, PutInsn(c, o), m), Compiled(env, o, c.need, m.g))
  {
    hide Step, Exec, PutEa, PutLeaResult, HitsValid, SetReg, Address, Effective, NeedFits;
    EaRuns(env, o, m);
    var m1 := Exec(env, PutEa(o), m).m;
    Then(env, PutEa(o), PutLeaResult(o), m, m1);
    LeaResultRuns(env, o, m1);
  }

  lemma NopSimulates(env: Env, c: Ctx, o: Insn, m: Machine)
    requires Starts(env, c, o, m) && o.kind.KNop?
    ensures Simulates(env, o, m, Exec(env, PutInsn(c, o), m), Compiled(env, o, c.need, m.g))
  {
    hide Step, Exec, HitsValid, Effective, Address, NeedFits, WellFormed;
    EmptyRuns(env, m);
  }
}
