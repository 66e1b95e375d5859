/** An instruction makes at most one store, and logs it if it makes it. */
module Stores {
  import opened Words
  import opened StatusFlags
  import opened Regions
  import opened GuestState
  import opened Insns

  /** Memory and log as they were, or as one logged store leaves them. */
  ghost predicate OneStore(regs: seq<Region>, g: Guest, g': Guest) {
    (g'.mem == g.mem && g'.log == g.log) ||
    exists a: u64, v: u64, size: Size :: g'.mem == Store(g.mem, a, v, size) && g'.log == LogWrite(regs, g, a, v, size)
  }

  ghost predicate StoresOnce(regs: seq<Region>, g: Guest, r: Res) { r.Done? ==> OneStore(regs, g, r.g) }

  predicate SameMem(g: Guest, g': Guest) { g'.mem == g.mem && g'.log == g.log }

  lemma StoreOnce(regs: seq<Region>, g: Guest, g1: Guest, a: u64, v: u64, size: Size, rip: u64)
    requires SameMem(g, g1)
    ensures StoresOnce(regs, g, Store2(regs, g1, a, v, size, rip))
  {
    hide AccessOk, Store, Window, LoadSize, Ok;
    LogOf(regs, g, g1, a, v, size);
    hide LogWrite;
  }

  lemma LogOf(regs: seq<Region>, g: Guest, g1: Guest, a: u64, v: u64, size: Size)
    requires SameMem(g, g1)
    ensures LogWrite(regs, g1, a, v, size) == LogWrite(regs, g, a, v, size)
  {
    hide Window, LoadSize, Ok;
  }

  lemma PushOnce(regs: seq<Region>, g: Guest, v: u64)
    ensures Push(regs, g, v).Some? ==> OneStore(regs, g, Push(regs, g, v).value)
  {
    hide St, OneStore;
    var sp := Wrap(Get(g.r, RSP) - 8);
    StoreOnce(regs, g, g.(r := g.r[RSP := sp]), sp, v, 8, 0);
  }

  lemma QuietOnce(regs: seq<Region>, g: Guest, g': Guest, rip: u64)
    requires SameMem(g, g')
    ensures StoresOnce(regs, g, Done(g', rip))
  {
    hide Store, LogWrite;
  }

  lemma AluKeeps(o: Insn, a: u64, b: u64, keep: FlagSet, g: Guest)
    ensures SameMem(g, AluStep(o, a, b, keep, g).1)
  {
    hide AluFlags, AluResult, Select;
  }

  lemma WriteKeeps(g: Guest, r: Reg, v: u64, size: Size, rex: bool)
    ensures SameMem(g, SetOperand(g, r, v, size, rex)) && SameMem(g, SetReg(g, r, v, size))
        && SameMem(g, SetReg8(g, r, v, rex))
  {
    hide WithLowByte, WithHighByte;
  }

  lemma AluRegStores(regs: seq<Region>, o: Insn, keep: FlagSet, strict: bool, g: Guest)
    requires o.kind.KRR? || o.kind.KRI? || o.kind.KRM?
    ensures StoresOnce(regs, g, Meaning(regs, o, keep, strict, g))
  {
    hide Ld, Address, AluStep, SetOperand, RegOperand, StoresOnce;
    var a := RegOperand(g, o.reg, o.size, o.hasRex);
    var b := if o.kind.KRR? then RegOperand(g, o.src, o.size, o.hasRex) else if o.kind.KRI? then o.imm
      else if Ld(regs, g, Address(o, g.r), o.size).Some? then Ld(regs, g, Address(o, g.r), o.size).value else 0;
    var (r, g1) := AluStep(o, a, b, keep, g);
    AluKeeps(o, a, b, keep, g);
    WriteKeeps(g1, o.reg, r, o.size, o.hasRex);
    QuietOnce(regs, g, if o.noWrite then g1 else SetOperand(g1, o.reg, r, o.size, o.hasRex), o.next);
    FaultStores(regs, g);
  }

  lemma FaultStores(regs: seq<Region>, g: Guest)
    ensures StoresOnce(regs, g, Fault)
  {
  }

  lemma RmwStores(regs: seq<Region>, o: Insn, ea: u64, b: u64, keep: FlagSet, strict: bool, g: Guest)
    ensures StoresOnce(regs, g, MeaningRmw(regs, o, ea, b, keep, strict, g))
  {
    hide Ld, AluStep, Store2, StoresOnce;
    StoreOnce(regs, g, g, ea, b, o.size, o.next);
    FaultStores(regs, g);
    if Ld(regs, g, ea, o.size).Some? {
      var a := Ld(regs, g, ea, o.size).value;
      AluKeeps(o, a, b, keep, g);
      var (r, g1) := AluStep(o, a, b, keep, g);
      StoreOnce(regs, g, g1, ea, r, o.size, o.next);
      QuietOnce(regs, g, g1, o.next);
    }
  }

  lemma ShiftStores(regs: seq<Region>, o: Insn, ea: u64, keep: FlagSet, g: Guest)
    ensures StoresOnce(regs, g, MeaningShift(regs, o, ea, keep, g))
  {
    hide Ld, Store2, SetOperand, ShiftCalc, ShiftFlags, Select, RegOperand, ShiftCount, StoresOnce;
    var cnt := ShiftCount(o, g.r);
    assert 0 <= cnt < 64 by { ShiftCountRange(o, g.r); }
    QuietOnce(regs, g, g, o.next);
    FaultStores(regs, g);
    var v := if o.mem then Ld(regs, g, ea, o.size) else Some(RegOperand(g, o.reg, o.size, o.hasRex));
    if cnt != 0 && v.Some? {
      var s := ShiftCalc(v.value, cnt, o.size, o.ext);
      var g1 := g.(flags := Select(g.flags, ShiftFlags(g.flags, s, o.size), keep));
      StoreOnce(regs, g, g1, ea, s.res, o.size, o.next);
      WriteKeeps(g1, o.reg, s.res, o.size, o.hasRex);
      QuietOnce(regs, g, SetOperand(g1, o.reg, s.res, o.size, o.hasRex), o.next);
    }
  }

  lemma ShiftCountRange(o: Insn, r: RegFile)
    ensures 0 <= ShiftCount(o, r) < 64
  {
  }

  lemma WideStores(regs: seq<Region>, o: Insn, keep: FlagSet, strict: bool, g: Guest)
    requires o.kind.KImul? || o.kind.KMovx? || o.kind.KLea? || o.kind.KNop?
    ensures StoresOnce(regs, g, Meaning(regs, o, keep, strict, g))
  {
    hide Ld, Address, FlagsLogic, Select, Signed, RegOperand, Sext, WithLowByte, Store, LogWrite;
  }

  lemma JumpStores(regs: seq<Region>, o: Insn, ea: u64, g: Guest, g1: Guest)
    requires OneStore(regs, g, g1)
    ensures StoresOnce(regs, g, Jump(regs, o, ea, g1))
  {
    hide Ld, OneStore;
  }

  lemma StackStores(regs: seq<Region>, o: Insn, keep: FlagSet, strict: bool, g: Guest)
    requires o.kind.KPush? || o.kind.KPop? || o.kind.KCall? || o.kind.KRet? || o.kind.KJmp? || o.kind.KJcc?
    ensures StoresOnce(regs, g, Meaning(regs, o, keep, strict, g))
  {
    hide Ld, Address, Push, Cond, OneStore;
    SelfStore(regs, g);
    PushOnce(regs, g, Get(g.r, o.reg));
    PushOnce(regs, g, o.next);
    var v := Ld(regs, g, Get(g.r, RSP), 8);
    PopStores(regs, g, o.reg, if v.Some? then v.value else 0);
  }

  lemma SelfStore(regs: seq<Region>, g: Guest)
    ensures OneStore(regs, g, g)
  {
    hide Store, LogWrite;
  }

  lemma PopStores(regs: seq<Region>, g: Guest, reg: Reg, v: u64)
    ensures OneStore(regs, g, PopSp(g)) && OneStore(regs, g, PopSp(g).(r := PopSp(g).r[reg := v]))
  {
    hide Store, LogWrite;
  }

  lemma IndirectStores(regs: seq<Region>, o: Insn, keep: FlagSet, strict: bool, g: Guest)
    requires o.kind.KCallM? || o.kind.KJmpM?
    ensures StoresOnce(regs, g, Meaning(regs, o, keep, strict, g))
  {
    hide Ld, Address, Push, Jump, OneStore;
    SelfStore(regs, g);
    JumpStores(regs, o, Address(o, g.r), g, g);
    PushOnce(regs, g, o.next);
    if Push(regs, g, o.next).Some? { JumpStores(regs, o, Address(o, g.r), g, Push(regs, g, o.next).value); }
  }

  lemma SetccStores(regs: seq<Region>, o: Insn, keep: FlagSet, strict: bool, g: Guest)
    requires o.kind.KSetcc?
    ensures StoresOnce(regs, g, Meaning(regs, o, keep, strict, g))
  {
    hide Address, Cond, SetReg8, Store2, StoresOnce;
    var v := if Cond(g.flags, o.cc) then 1 else 0;
    StoreOnce(regs, g, g, Address(o, g.r), v, 1, o.next);
    WriteKeeps(g, o.reg, v, 1, o.hasRex);
    QuietOnce(regs, g, SetReg8(g, o.reg, v, o.hasRex), o.next);
  }

  lemma MeaningStores(regs: seq<Region>, o: Insn, keep: FlagSet, strict: bool, g: Guest)
    ensures StoresOnce(regs, g, Meaning(regs, o, keep, strict, g))
  {
    hide StoresOnce, MeaningRmw, MeaningShift, Address, RegOperand;
    match o.kind
    case KRR => AluRegStores(regs, o, keep, strict, g);
    case KRI => AluRegStores(regs, o, keep, strict, g);
    case KRM => AluRegStores(regs, o, keep, strict, g);
    case KMR => RmwStores(regs, o, Address(o, g.r), RegOperand(g, o.reg, o.size, o.hasRex), keep, strict, g);
    case KMI => RmwStores(regs, o, Address(o, g.r), o.imm, keep, false, g);
    case KShift => ShiftStores(regs, o, Address(o, g.r), keep, g);
    case KSetcc => SetccStores(regs, o, keep, strict, g);
    case KImul => WideStores(regs, o, keep, strict, g);
    case KMovx => WideStores(regs, o, keep, strict, g);
    case KLea => WideStores(regs, o, keep, strict, g);
    case KNop => WideStores(regs, o, keep, strict, g);
    case KCallM => IndirectStores(regs, o, keep, strict, g);
    case KJmpM => IndirectStores(regs, o, keep, strict, g);
    case _ => StackStores(regs, o, keep, strict, g);
  }
}
