/** Loads and stores as emitted: the in-line check, the fast access and the helper call together do
    exactly what the interpreter's ld and st do. */
module Accesses {
  import opened Words
  import opened Regions
  import opened GuestState
  import opened A64
  import opened Execution
  import opened CodeGen
  import opened Fragments

  ghost predicate EnvOk(env: Env) { Uniform(env.regs) && env.host.Distinct() }

  /** The state between instructions: running, x19 in place, and hit caches that tell the truth. */
  ghost predicate Ready(env: Env, m: Machine) {
    && m.ok && m.running && X(m, CPU) == env.host.cpu
    && HitsValid(env.regs, m.rd, READ) && HitsValid(env.regs, m.wr, WRITE)
  }

  /** The scratch slots instructions keep values in. Slots 6 and 7 belong to the in-line store. */
  predicate KeepsTmp(m: Machine, m': Machine) {
    && Get(m'.tmp, 0) == Get(m.tmp, 0) && Get(m'.tmp, 1) == Get(m.tmp, 1)
    && Get(m'.tmp, 2) == Get(m.tmp, 2) && Get(m'.tmp, 3) == Get(m.tmp, 3)
  }

  /** The run went on: nothing compiled code relies on across a call has been lost. */
  ghost predicate Continues(env: Env, m: Machine, m': Machine) {
    Ready(env, m') && m'.stack == m.stack && KeepsTmp(m, m')
  }

  /** The run stopped on a guest fault, with the stack as it was. */
  ghost predicate Stops(env: Env, m: Machine, m': Machine) {
    m'.ok && !m'.running && X(m', CPU) == env.host.cpu && m'.stack == m.stack
  }

  // --- branches -------------------------------------------------------------------------

  lemma BCondRuns(env: Env, c: int, off: int, rest: seq<Instr>, m: Machine)
    requires 1 <= off <= |rest| + 1
    ensures Exec(env, [BCond(c, off)] + rest, m)
         == if Holds(m.f, c) then Exec(env, rest[off - 1..], m) else Exec(env, rest, m)
  {
    hide Step, Holds;
    var code := [BCond(c, off)] + rest;
    assert code[1..] == rest;
    assert code[off..] == rest[off - 1..];
  }

  lemma BRuns(env: Env, rest: seq<Instr>, m: Machine)
    ensures Exec(env, [B(|rest| + 1)] + rest, m) == At(0, m)
  {
    hide Step;
    var code := [B(|rest| + 1)] + rest;
    assert code[|rest| + 1..] == [];
    EmptyRuns(env, m);
  }

  lemma FaultCheckRuns(env: Env, m: Machine)
    requires X(m, CPU) == env.host.cpu
    ensures Exec(env, PutFaultCheck(), m)
         == if m.running then At(0, SetX(m, 9, 1)) else Unpatched(SetX(m, 9, 0))
  {
    hide StepStore, StepCall, Value, SetNzcv;
    var a, b := Ldr(1, 9, CPU, OFF_RUNNING), CbzW(9, 0);
    assert [a, b][1..] == [b];
    assert [b][1..] == [];
    assert Step(env, a, m) == SetX(m, 9, if m.running then 1 else 0);
  }

  // --- calls ------------------------------------------------------------------------------

  lemma CallRuns(env: Env, h: Helper, m: Machine, m': Machine, v: u64)
    requires EnvOk(env)
    requires Help(env, h, SetX(m, 9, env.host.At(h))) == Some((m', v))
    ensures Exec(env, PutCall(env.host.At(h)), m)
         == At(0, AfterCall(env, m', if Returns(h) then v else Get(env.junk(m.calls), 0)))
  {
    hide Step, Exec, PutImm, Help, AfterCall;
    var m1 := SetX(m, 9, env.host.At(h));
    ImmLoads(env, 9, env.host.At(h), m);
    StepBlr(env, m1, h, m', v);
    Run1(env, Blr(9), m1);
    Then(env, PutImm(9, env.host.At(h)), [Blr(9)], m, m1);
  }

  lemma StepBlr(env: Env, m: Machine, h: Helper, m': Machine, v: u64)
    requires env.host.Named(X(m, 9)) == Some(h)
    requires Help(env, h, m) == Some((m', v))
    ensures Step(env, Blr(9), m) == AfterCall(env, m', if Returns(h) then v else Get(env.junk(m.calls), 0))
  {
    hide Help, AfterCall, Value, SetNzcv, StepLoad, StepStore;
  }

  // --- the in-line check ----------------------------------------------------------------------

  /** cmp clears the carry exactly when there is a borrow. */
  lemma SubsCarry(a: u64, b: u64)
    ensures SubsFlags(a, b, 8).c == (a >= b)
  {
    hide Signed, Half, Trunc;
    var sum: int := a + (0x1_0000_0000_0000_0000 - 1 - b) + 1;
    TruncTwice(a, 8);
    TruncTwice(b, 8);
    TruncNear(sum, 8);
  }

  function HitsAt(m: Machine, e: int): Hits { if e == OFF_RD then m.rd else m.wr }

  /** Only scratch registers and the condition flags differ. */
  predicate Scratched(m: Machine, m': Machine) {
    m' == m.(x := m'.x, f := m'.f)
    && X(m', 1) == X(m, 1) && X(m', 2) == X(m, 2) && X(m', CPU) == X(m, CPU)
  }

  lemma EntryRuns(env: Env, e: int, h: Hit, m: Machine)
    requires X(m, 9) == env.host.table
    requires TableField(m, e) == Some(h.lo) && TableField(m, e + 8) == Some(h.lim)
    ensures var out := Exec(env, CheckEntry(e), m);
      out.At? && out.k == 0 && Scratched(m, out.m) && X(out.m, 9) == X(m, 9)
      && (Holds(out.m.f, CC) <==> InHit(h, X(m, 1))) && (Holds(out.m.f, CS) <==> !InHit(h, X(m, 1)))
  {
    hide Step, Exec, TableField, SubsFlags, Value, Op3Result, Holds, Wrap;
    var m1 := SetX(m, 10, h.lo);
    StepLdrTable(env, 10, e, h.lo, m);
    var m2 := SetX(m1, 11, h.lim);
    TableFieldSame(m, m1, e + 8);
    StepLdrTable(env, 11, e + 8, h.lim, m1);
    var d := Wrap(X(m, 1) - h.lo);
    var m3 := SetX(m2, 12, d);
    StepSub(env, 12, 1, 10, m2);
    var m4 := m3.(f := SubsFlags(d, h.lim, 8));
    StepCmp(env, 12, 11, m3);
    Run4(env, Ldr(8, 10, 9, e), Ldr(8, 11, 9, e + 8), Set(12, Arith(OpSub, false, 1, 10)),
         SetFlagsZr(FSubs, false, 12, 11), m);
    SubsCarry(d, h.lim);
    CarryHolds(m4.f);
  }

  lemma CarryHolds(f: Nzcv)
    ensures Holds(f, CC) == !f.c && Holds(f, CS) == f.c
  {
  }

  lemma TableFieldSame(m: Machine, m': Machine, off: int)
    requires m'.rd == m.rd && m'.wr == m.wr
    ensures TableField(m', off) == TableField(m, off)
  {
  }

  lemma StepLdrTable(env: Env, t: int, off: int, v: u64, m: Machine)
    requires X(m, 9) == env.host.table && TableField(m, off) == Some(v)
    ensures Step(env, Ldr(8, t, 9, off), m) == SetX(m, t, v)
  {
    hide TableField, Value, SetNzcv, StepCall;
  }

  lemma StepSub(env: Env, d: int, n: int, k: int, m: Machine)
    ensures Step(env, Set(d, Arith(OpSub, false, n, k)), m) == SetX(m, d, Wrap(X(m, n) - X(m, k)))
  {
    StepSet(env, d, Arith(OpSub, false, n, k), m);
  }

  lemma StepCmp(env: Env, n: int, k: int, m: Machine)
    ensures Step(env, SetFlagsZr(FSubs, false, n, k), m) == m.(f := SubsFlags(X(m, n), X(m, k), 8))
  {
    hide SubsFlags, Value, StepCall, StepLoad, StepStore;
  }

  lemma StepLdrAs(env: Env, m: Machine)
    requires X(m, CPU) == env.host.cpu
    ensures Step(env, Ldr(8, 9, CPU, OFF_AS), m) == SetX(m, 9, env.host.table)
  {
    hide Value, SetNzcv, StepCall;
  }

  /** The state in which the fast or the slow path starts, and which of the two runs. */
  lemma AccessRuns(env: Env, e: int, fast: seq<Instr>, slow: seq<Instr>, m: Machine) returns (m1: Machine)
    requires X(m, CPU) == env.host.cpu && (e == OFF_RD || e == OFF_WR)
    ensures Scratched(m, m1)
    ensures InHits(HitsAt(m, e), X(m, 1)) && Exec(env, fast, m1).At? && Exec(env, fast, m1).k == 0
            ==> Exec(env, PutAccess(e, fast, slow), m) == Exec(env, fast, m1)
    ensures !InHits(HitsAt(m, e), X(m, 1)) ==> Exec(env, PutAccess(e, fast, slow), m) == Exec(env, slow, m1)
  {
    hide Step, Exec, CheckEntry, InHit, Holds, TableField;
    var hits := HitsAt(m, e);
    var tail := fast + ([B(|slow| + 1)] + slow);
    var second := [BCond(CS, |fast| + 2)] + tail;
    var third := CheckEntry(e + 16) + second;
    var head := [Ldr(8, 9, CPU, OFF_AS)];
    var c1 := [BCond(CC, 6)] + third;
    AccessShape(e, fast, slow);
    var ma := SetX(m, 9, env.host.table);
    StepLdrAs(env, m);
    Run1(env, head[0], m);
    Then(env, head, CheckEntry(e) + c1, m, ma);
    TableFields(ma, e);
    EntryRuns(env, e, hits.first, ma);
    var mb := Exec(env, CheckEntry(e), ma).m;
    Then(env, CheckEntry(e), c1, ma, mb);
    CheckEntryLength(e + 16);
    BCondRuns(env, CC, 6, third, mb);
    if InHit(hits.first, X(m, 1)) {
      m1 := mb;
      SkipSecond(third, CheckEntry(e + 16), fast, tail);
    } else {
      TableFieldSame(ma, mb, e + 16);
      TableFieldSame(ma, mb, e + 24);
      EntryRuns(env, e + 16, hits.second, mb);
      m1 := Exec(env, CheckEntry(e + 16), mb).m;
      Then(env, CheckEntry(e + 16), second, mb, m1);
      BCondRuns(env, CS, |fast| + 2, tail, m1);
      assert tail[|fast| + 1..] == slow;
    }
    FastRuns(env, fast, slow, m1);
  }

  lemma FastRuns(env: Env, fast: seq<Instr>, slow: seq<Instr>, m: Machine)
    ensures Exec(env, fast, m).At? && Exec(env, fast, m).k == 0
            ==> Exec(env, fast + ([B(|slow| + 1)] + slow), m) == Exec(env, fast, m)
  {
    hide Step, Exec;
    var out := Exec(env, fast, m);
    if out.At? && out.k == 0 {
      Then(env, fast, [B(|slow| + 1)] + slow, m, out.m);
      BRuns(env, slow, out.m);
    }
  }

  lemma CheckEntryLength(e: int)
    ensures |CheckEntry(e)| == 4
  {
  }

  lemma SkipSecond(third: seq<Instr>, check: seq<Instr>, fast: seq<Instr>, tail: seq<Instr>)
    requires |check| == 4 && third == check + ([BCond(CS, |fast| + 2)] + tail)
    ensures |third| >= 5 && third[5..] == tail
  {
  }

  lemma AccessShape(e: int, fast: seq<Instr>, slow: seq<Instr>)
    ensures PutAccess(e, fast, slow) == [Ldr(8, 9, CPU, OFF_AS)] + (CheckEntry(e) + ([BCond(CC, 6)]
      + (CheckEntry(e + 16) + ([BCond(CS, |fast| + 2)] + (fast + ([B(|slow| + 1)] + slow))))))
  {
    hide CheckEntry;
  }

  lemma TableFields(m: Machine, e: int)
    requires e == OFF_RD || e == OFF_WR
    ensures TableField(m, e) == Some(HitsAt(m, e).first.lo) && TableField(m, e + 8) == Some(HitsAt(m, e).first.lim)
    ensures TableField(m, e + 16) == Some(HitsAt(m, e).second.lo)
        && TableField(m, e + 24) == Some(HitsAt(m, e).second.lim)
  {
  }

  // --- loads ----------------------------------------------------------------------------------

  /** put_load refines the interpreter's ld. */
  ghost predicate LoadDone(env: Env, size: Size, m: Machine, out: Outcome) {
    match Ld(env.regs, m.g, X(m, 1), size)
    case Some(v) => out.At? && out.k == 0 && Continues(env, m, out.m) && out.m.g == m.g && X(out.m, 0) == v
    case None => out.Unpatched? && Stops(env, m, out.m)
  }

  lemma LoadRuns(env: Env, size: Size, m: Machine)
    requires EnvOk(env) && Ready(env, m)
    ensures LoadDone(env, size, m, Exec(env, PutLoad(env.host, size), m))
  {
    hide Step, Exec, LoadSlow, PutAccess, InHits, Ld, HitsValid, HitValid;
    var m1 := AccessRuns(env, OFF_RD, [LoadFast(size)], LoadSlow(env.host, size), m);
    if InHits(m.rd, X(m, 1)) {
      HitAllows(env, m.rd, X(m, 1), size, READ);
      LoadFastRuns(env, size, m1);
      LdOk(env, m.g, X(m, 1), size);
    } else {
      LoadSlowRuns(env, size, m1);
    }
  }

  lemma LdOk(env: Env, g: Guest, a: u64, size: Size)
    requires Ok(env.regs, a, size, READ)
    ensures Ld(env.regs, g, a, size) == Some(LoadSize(g.mem, a, size))
  {
    hide LoadSize, Ok;
  }

  lemma HitAllows(env: Env, h: Hits, a: u64, size: Size, prot: Prot)
    requires Uniform(env.regs) && HitsValid(env.regs, h, prot) && InHits(h, a)
    ensures Ok(env.regs, a, size, prot)
  {
    hide Ok, HitValid, InHit, Uniform;
    if InHit(h.first, a) {
      HitMeansOk(env.regs, h.first, a, size, prot);
    } else {
      HitMeansOk(env.regs, h.second, a, size, prot);
    }
  }

  lemma LoadFastRuns(env: Env, size: Size, m: Machine)
    ensures Exec(env, [LoadFast(size)], m) == At(0, SetX(m, 0, LoadSize(m.g.mem, X(m, 1), size)))
  {
    hide LoadSize, Value, SetNzcv, StepCall, StepStore;
    Run1(env, LoadFast(size), m);
  }

  lemma LoadSlowRuns(env: Env, size: Size, m: Machine)
    requires EnvOk(env) && Ready(env, m)
    ensures LoadDone(env, size, m, Exec(env, LoadSlow(env.host, size), m))
  {
    hide Step, Exec, PutImm, PutCall, Help, Ld, HitsValid, HitValid, PutFaultCheck, AfterCall;
    var m2 := SetX(SetX(m, 0, env.host.cpu), 2, size);
    CpuAndSize(env, 2, size, m);
    var r := HelpedLd(env, size, m2);
    CallRuns(env, HLd, m2, r.0, r.1);
    var m3 := AfterCall(env, r.0, r.1);
    Then(env, [Mov(0, CPU)] + PutImm(2, size), PutCall(env.host.ld), m, m2);
    Then(env, [Mov(0, CPU)] + PutImm(2, size) + PutCall(env.host.ld), PutFaultCheck(), m, m3);
    AfterCallRegs(env, r.0, r.1);
    FaultCheckRuns(env, m3);
  }

  /** The first argument of every helper, and the size. */
  lemma CpuAndSize(env: Env, r: int, size: Size, m: Machine)
    requires X(m, CPU) == env.host.cpu && r != ZR
    ensures Exec(env, [Mov(0, CPU)] + PutImm(r, size), m) == At(0, SetX(SetX(m, 0, env.host.cpu), r, size))
  {
    hide Step, Exec, PutImm;
    var m1 := SetX(m, 0, env.host.cpu);
    StepMov(env, 0, CPU, m);
    Run1(env, Mov(0, CPU), m);
    ImmLoads(env, r, size, m1);
    Then(env, [Mov(0, CPU)], PutImm(r, size), m, m1);
  }

  lemma AfterCallRegs(env: Env, m: Machine, v: u64)
    ensures var m' := AfterCall(env, m, v);
      X(m', 0) == v && X(m', CPU) == X(m, CPU) && m' == m.(x := m'.x, f := m'.f, calls := m'.calls)
  {
  }

  lemma HelpedLd(env: Env, size: Size, m: Machine) returns (r: (Machine, u64))
    requires Ready(env, m) && X(m, 0) == env.host.cpu && X(m, 2) == size
    ensures Help(env, HLd, SetX(m, 9, env.host.ld)) == Some(r)
    ensures match Ld(env.regs, m.g, X(m, 1), size)
      case Some(v) => r.1 == v && r.0.running && HitsValid(env.regs, r.0.rd, READ)
        && r.0 == SetX(m, 9, env.host.ld).(rd := r.0.rd)
      case None => r.0 == SetX(m, 9, env.host.ld).(running := false)
  {
    hide Ld, HitsValid, HitValid, HelpSt, HelpWlog, HelpShift, HelpFlags, Note;
    r := Help(env, HLd, SetX(m, 9, env.host.ld)).value;
    NoteValid(env.regs, m.rd, X(m, 1), READ);
  }

  // --- stores ----------------------------------------------------------------------------------

  /** put_store refines the interpreter's st, log included. */
  ghost predicate StoreDone(env: Env, size: Size, m: Machine, out: Outcome) {
    match St(env.regs, m.g, X(m, 1), X(m, 2), size)
    case Some(g) => out.At? && out.k == 0 && Continues(env, m, out.m) && out.m.g == g
    case None => out.Unpatched? && Stops(env, m, out.m)
  }

  lemma StoreRuns(env: Env, check: bool, size: Size, m: Machine)
    requires EnvOk(env) && Ready(env, m) && m.g.log.On? == check
    ensures StoreDone(env, size, m, Exec(env, PutStore(env.host, check, size), m))
  {
    hide Step, Exec, StoreSlow, StoreLogged, StoreFast, PutAccess, InHits, HitsValid, HitValid, Stored, St;
    var fast := When(check, StoreLogged(env.host, size)) + [StoreFast(size)];
    var m1 := AccessRuns(env, OFF_WR, fast, StoreSlow(env.host, size), m);
    if InHits(m.wr, X(m, 1)) {
      HitAllows(env, m.wr, X(m, 1), size, WRITE);
      StOk(env, m.g, X(m, 1), X(m, 2), size);
      StoreFastRuns(env, check, size, m1);
    } else {
      StoreSlowRuns(env, size, m1);
    }
  }

  lemma StOk(env: Env, g: Guest, a: u64, v: u64, size: Size)
    requires Ok(env.regs, a, size, WRITE)
    ensures St(env.regs, g, a, v, size) == Some(Stored(env.regs, g, a, v, size))
  {
    hide Stored, Ok;
  }

  /** The state an in-line store leaves: the store, logged if checking, and nothing else relied on. */
  ghost predicate StoredNow(env: Env, size: Size, m: Machine, out: Outcome) {
    out.At? && out.k == 0 && Continues(env, m, out.m) && out.m.g == Stored(env.regs, m.g, X(m, 1), X(m, 2), size)
  }

  lemma StoreFastRuns(env: Env, check: bool, size: Size, m: Machine)
    requires EnvOk(env) && Ready(env, m) && m.g.log.On? == check
    ensures StoredNow(env, size, m, Exec(env, When(check, StoreLogged(env.host, size)) + [StoreFast(size)], m))
  {
    hide Step, Exec, StoreLogged, HitsValid, HitValid, Store, LogWrite, LoadSize;
    if check {
      StoreLoggedRuns(env, size, m);
      var m1 := Exec(env, StoreLogged(env.host, size), m).m;
      Then(env, StoreLogged(env.host, size), [StoreFast(size)], m, m1);
      StoreWordRuns(env, size, m1);
    } else {
      EmptyRuns(env, m);
      Then(env, [], [StoreFast(size)], m, m);
      StoreWordRuns(env, size, m);
      LogOff(env.regs, m.g, X(m, 1), X(m, 2), size);
    }
  }

  lemma LogOff(regs: seq<Region>, g: Guest, a: u64, v: u64, size: Size)
    requires g.log.Off?
    ensures LogWrite(regs, g, a, v, size) == g.log
  {
  }

  lemma StoreWordRuns(env: Env, size: Size, m: Machine)
    ensures Exec(env, [StoreFast(size)], m)
         == At(0, m.(g := m.g.(mem := Store(m.g.mem, X(m, 1), X(m, 2), size))))
  {
    hide Store, Value, SetNzcv, StepCall, StepLoad;
    Run1(env, StoreFast(size), m);
  }

  lemma StoreLoggedRuns(env: Env, size: Size, m: Machine)
    requires EnvOk(env) && Ready(env, m)
    ensures var out := Exec(env, StoreLogged(env.host, size), m);
      out.At? && out.k == 0 && Continues(env, m, out.m)
      && X(out.m, 1) == X(m, 1) && X(out.m, 2) == X(m, 2)
      && out.m.g == m.g.(log := LogWrite(env.regs, m.g, X(m, 1), X(m, 2), size))
  {
    hide Step, Exec, PutImm, PutCall, HitsValid, HitValid, LogWrite, OffTmp, KeepsTmp;
    var save := [Str(8, 1, CPU, OffTmp(6)), Str(8, 2, CPU, OffTmp(7)), Mov(0, CPU)] + PutImm(3, size);
    var restore := [Ldr(8, 1, CPU, OffTmp(6)), Ldr(8, 2, CPU, OffTmp(7))];
    var m2 := SetX(SetX(m.(tmp := m.tmp[6 := X(m, 1)][7 := X(m, 2)]), 0, env.host.cpu), 3, size);
    SaveAndSize(env, size, m);
    WlogRuns(env, size, m2);
    var m4 := Exec(env, PutCall(env.host.wlog), m2).m;
    Then(env, save, PutCall(env.host.wlog), m, m2);
    KeepsSlots(m, m4);
    RestoreRuns(env, m4);
    Then(env, save + PutCall(env.host.wlog), restore, m, m4);
  }

  lemma KeepsSlots(m: Machine, m': Machine)
    requires m'.tmp == m.tmp[6 := X(m, 1)][7 := X(m, 2)]
    ensures (forall x: Machine {:trigger KeepsTmp(m, x)} :: x.tmp == m'.tmp ==> KeepsTmp(m, x))
        && Get(m'.tmp, 6) == X(m, 1) && Get(m'.tmp, 7) == X(m, 2)
  {
  }

  /** The call that logs a store: only the log changes, and what calls may change. */
  lemma WlogRuns(env: Env, size: Size, m: Machine)
    requires EnvOk(env) && X(m, 0) == env.host.cpu && X(m, 3) == size
    ensures var out := Exec(env, PutCall(env.host.wlog), m);
      out.At? && out.k == 0 && X(out.m, CPU) == X(m, CPU)
      && out.m == m.(x := out.m.x, f := out.m.f, calls := out.m.calls,
                     g := m.g.(log := LogWrite(env.regs, m.g, X(m, 1), X(m, 2), size)))
  {
    hide Step, Exec, PutCall, Help, AfterCall, LogWrite;
    var m3 := HelpedWlog(env, size, m);
    CallRuns(env, HWlog, m, m3, 0);
    AfterCallRegs(env, m3, Get(env.junk(m.calls), 0));
  }

  lemma SaveAndSize(env: Env, size: Size, m: Machine)
    requires X(m, CPU) == env.host.cpu
    ensures Exec(env, [Str(8, 1, CPU, OffTmp(6)), Str(8, 2, CPU, OffTmp(7)), Mov(0, CPU)] + PutImm(3, size), m)
         == At(0, SetX(SetX(m.(tmp := m.tmp[6 := X(m, 1)][7 := X(m, 2)]), 0, env.host.cpu), 3, size))
  {
    hide Step, Exec, PutImm, OffTmp;
    var save := [Str(8, 1, CPU, OffTmp(6)), Str(8, 2, CPU, OffTmp(7)), Mov(0, CPU)];
    var m1 := SetX(m.(tmp := m.tmp[6 := X(m, 1)][7 := X(m, 2)]), 0, env.host.cpu);
    SaveRuns(env, m);
    ImmLoads(env, 3, size, m1);
    Then(env, save, PutImm(3, size), m, m1);
  }

  lemma SaveRuns(env: Env, m: Machine)
    requires X(m, CPU) == env.host.cpu
    ensures Exec(env, [Str(8, 1, CPU, OffTmp(6)), Str(8, 2, CPU, OffTmp(7)), Mov(0, CPU)], m)
         == At(0, SetX(m.(tmp := m.tmp[6 := X(m, 1)][7 := X(m, 2)]), 0, env.host.cpu))
  {
    hide Step, Exec;
    var ma := m.(tmp := m.tmp[6 := X(m, 1)]);
    StepStrTmp(env, 1, 6, m);
    var mb := ma.(tmp := ma.tmp[7 := X(m, 2)]);
    StepStrTmp(env, 2, 7, ma);
    StepMov(env, 0, CPU, mb);
    Run3(env, Str(8, 1, CPU, OffTmp(6)), Str(8, 2, CPU, OffTmp(7)), Mov(0, CPU), m);
  }

  lemma RestoreRuns(env: Env, m: Machine)
    requires X(m, CPU) == env.host.cpu
    ensures Exec(env, [Ldr(8, 1, CPU, OffTmp(6)), Ldr(8, 2, CPU, OffTmp(7))], m)
         == At(0, SetX(SetX(m, 1, Get(m.tmp, 6)), 2, Get(m.tmp, 7)))
  {
    hide Step, Exec;
    var m1 := SetX(m, 1, Get(m.tmp, 6));
    StepLdrTmp(env, 1, 6, m);
    StepLdrTmp(env, 2, 7, m1);
    Run2(env, Ldr(8, 1, CPU, OffTmp(6)), Ldr(8, 2, CPU, OffTmp(7)), m);
  }

  lemma HelpedWlog(env: Env, size: Size, m: Machine) returns (r: Machine)
    requires X(m, 0) == env.host.cpu && X(m, 3) == size
    ensures Help(env, HWlog, SetX(m, 9, env.host.wlog)) == Some((r, 0))
    ensures r == SetX(m, 9, env.host.wlog).(g := m.g.(log := LogWrite(env.regs, m.g, X(m, 1), X(m, 2), size)))
  {
    hide LogWrite, HelpSt, HelpLd, HelpShift, HelpFlags;
    r := Help(env, HWlog, SetX(m, 9, env.host.wlog)).value.0;
  }

  lemma StoreSlowRuns(env: Env, size: Size, m: Machine)
    requires EnvOk(env) && Ready(env, m)
    ensures StoreDone(env, size, m, Exec(env, StoreSlow(env.host, size), m))
  {
    hide Step, Exec, PutImm, PutCall, Help, St, HitsValid, HitValid, PutFaultCheck, AfterCall;
    var m2 := SetX(SetX(m, 0, env.host.cpu), 3, size);
    CpuAndSize(env, 3, size, m);
    var r := HelpedSt(env, size, m2);
    CallRuns(env, HSt, m2, r, 0);
    var v := Get(env.junk(m2.calls), 0);
    var m3 := AfterCall(env, r, v);
    Then(env, [Mov(0, CPU)] + PutImm(3, size), PutCall(env.host.st), m, m2);
    Then(env, [Mov(0, CPU)] + PutImm(3, size) + PutCall(env.host.st), PutFaultCheck(), m, m3);
    AfterCallRegs(env, r, v);
    FaultCheckRuns(env, m3);
  }

  lemma HelpedSt(env: Env, size: Size, m: Machine) returns (r: Machine)
    requires Ready(env, m) && X(m, 0) == env.host.cpu && X(m, 3) == size
    ensures Help(env, HSt, SetX(m, 9, env.host.st)) == Some((r, 0))
    ensures match St(env.regs, m.g, X(m, 1), X(m, 2), size)
      case Some(g) => r.running && HitsValid(env.regs, r.wr, WRITE)
        && r == SetX(m, 9, env.host.st).(g := g, wr := r.wr)
      case None => r == SetX(m, 9, env.host.st).(running := false)
  {
    hide St, HitsValid, HitValid, HelpLd, HelpWlog, HelpShift, HelpFlags, Note;
    r := Help(env, HSt, SetX(m, 9, env.host.st)).value.0;
    NoteValid(env.regs, m.wr, X(m, 1), WRITE);
  }
}
