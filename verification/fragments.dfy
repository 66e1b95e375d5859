/** What each emitted piece does, in any machine state. */
module Fragments {
  import opened Words
  import opened GuestState
  import opened Insns
  import opened A64
  import opened Execution
  import opened CodeGen

  /** put_imm loads exactly v, for every 64-bit v. */
  lemma ImmLoads(env: Env, reg: int, v: u64, m: Machine)
    requires reg != ZR
    ensures Exec(env, PutImm(reg, v), m) == At(0, SetX(m, reg, v))
  {
    hide Step, Exec, SetX;
    ImmPieces(v);
    var p0, p1, p2, p3 := v % 0x1_0000, v / 0x1_0000 % 0x1_0000, v / 0x1_0000_0000 % 0x1_0000, v / 0x1_0000_0000_0000;
    var c0 := [Set(reg, MovZ(p0, 0))];
    var c1 := if v / 0x1_0000 != 0 then [Set(reg, MovK(p1, 1))] else [];
    var c2 := if v / 0x1_0000_0000 != 0 then [Set(reg, MovK(p2, 2))] else [];
    var c3 := if v / 0x1_0000_0000_0000 != 0 then [Set(reg, MovK(p3, 3))] else [];
    var m0 := SetX(m, reg, p0);
    var m1 := SetX(m, reg, v % 0x1_0000_0000);
    var m2 := SetX(m, reg, v % 0x1_0000_0000_0000);
    FirstPiece(env, reg, p0, m);
    KeepPiece(env, reg, 1, p1, v / 0x1_0000 != 0, p0, m);
    KeepPiece(env, reg, 2, p2, v / 0x1_0000_0000 != 0, v % 0x1_0000_0000, m);
    KeepPiece(env, reg, 3, p3, v / 0x1_0000_0000_0000 != 0, v % 0x1_0000_0000_0000, m);
    Then(env, c0, c1, m, m0);
    Then(env, c0 + c1, c2, m, m1);
    Then(env, c0 + c1 + c2, c3, m, m2);
  }

  lemma ImmPieces(v: u64)
    ensures v % 0x1_0000_0000 == v % 0x1_0000 + v / 0x1_0000 % 0x1_0000 * 0x1_0000
    ensures v % 0x1_0000_0000_0000 == v % 0x1_0000_0000 + v / 0x1_0000_0000 % 0x1_0000 * 0x1_0000_0000
    ensures v == v % 0x1_0000_0000_0000 + v / 0x1_0000_0000_0000 * 0x1_0000_0000_0000
    ensures v / 0x1_0000 == 0 ==> v / 0x1_0000 % 0x1_0000 == 0
    ensures v / 0x1_0000_0000 == 0 ==> v / 0x1_0000_0000 % 0x1_0000 == 0
    ensures v / 0x1_0000_0000_0000 < 0x1_0000
  {
    var d := v / 0x1_0000;
    assert v / 0x1_0000_0000 == d / 0x1_0000;
    assert v / 0x1_0000_0000_0000 == d / 0x1_0000 / 0x1_0000;
  }

  lemma FirstPiece(env: Env, reg: int, p: u64, m: Machine)
    requires p < 0x1_0000
    ensures Exec(env, [Set(reg, MovZ(p, 0))], m) == At(0, SetX(m, reg, p))
  {
    hide Step, Exec;
    RunSet(env, reg, MovZ(p, 0), m);
  }

  /** A movk over a register whose higher pieces are still zero, or nothing if its piece is zero. */
  lemma KeepPiece(env: Env, reg: int, hw: int, p: u64, present: bool, low: u64, m: Machine)
    requires reg != ZR && 1 <= hw <= 3 && p < 0x1_0000
    requires present || p == 0
    requires low < PieceWeight(hw)
    ensures low + p * PieceWeight(hw) < 0x1_0000_0000_0000_0000
    ensures Exec(env, if present then [Set(reg, MovK(p, hw))] else [], SetX(m, reg, low))
         == At(0, SetX(m, reg, low + p * PieceWeight(hw)))
  {
    hide Step, Exec, MovKeep;
    var m' := SetX(m, reg, low);
    PieceKept(hw, p, low);
    if present {
      RunSet(env, reg, MovK(p, hw), m');
      assert m.x[reg := low][reg := low + p * PieceWeight(hw)] == m.x[reg := low + p * PieceWeight(hw)];
    } else {
      EmptyRuns(env, m');
    }
  }

  lemma PieceKept(hw: int, p: u64, low: u64)
    requires 1 <= hw <= 3 && p < 0x1_0000 && low < PieceWeight(hw)
    ensures low + p * PieceWeight(hw) < 0x1_0000_0000_0000_0000
    ensures MovKeep(low, p, hw) == low + p * PieceWeight(hw)
  {
  }

  function PieceWeight(hw: int): int {
    if hw == 1 then 0x1_0000 else if hw == 2 then 0x1_0000_0000 else 0x1_0000_0000_0000
  }

  // --- single steps ------------------------------------------------------------------

  lemma StepSet(env: Env, d: int, v: Val, m: Machine)
    requires Modelled(v)
    ensures Step(env, Set(d, v), m) == SetX(m, d, Value(d, v, m))
  {
    hide Value;
  }

  lemma StepLdrReg(env: Env, t: int, r: int, m: Machine)
    requires X(m, CPU) == env.host.cpu && 0 <= r < 16
    ensures Step(env, Ldr(8, t, CPU, OffR(r)), m) == SetX(m, t, Get(m.g.r, r))
  {
  }

  lemma StepStrReg(env: Env, t: int, r: int, m: Machine)
    requires X(m, CPU) == env.host.cpu && 0 <= r < 16
    ensures Step(env, Str(8, t, CPU, OffR(r)), m) == m.(g := m.g.(r := m.g.r[r := X(m, t)]))
  {
  }

  lemma StepLdrTmp(env: Env, t: int, i: int, m: Machine)
    requires X(m, CPU) == env.host.cpu && 0 <= i < 8
    ensures Step(env, Ldr(8, t, CPU, OffTmp(i)), m) == SetX(m, t, Get(m.tmp, i))
  {
  }

  lemma StepStrTmp(env: Env, t: int, i: int, m: Machine)
    requires X(m, CPU) == env.host.cpu && 0 <= i < 8
    ensures Step(env, Str(8, t, CPU, OffTmp(i)), m) == m.(tmp := m.tmp[i := X(m, t)])
  {
  }

  lemma StepMov(env: Env, d: int, n: int, m: Machine)
    ensures Step(env, Mov(d, n), m) == SetX(m, d, X(m, n))
  {
    hide Bits;
    StepSet(env, d, Arith(OpOrr, false, ZR, n), m);
    OrZeroLeft(X(m, n));
  }

  lemma OrZeroLeft(v: u64)
    ensures Bits(Or, 0, v) == v
    ensures BitsW(Or, 0, v) == v % 0x1_0000_0000
  {
    Pow2Values();
    OrCommutes(0, v, 64);
    OrZero(v, 64);
    OrCommutes(0, v % 0x1_0000_0000, 32);
    OrZero(v % 0x1_0000_0000, 32);
  }

  lemma {:induction false} OrCommutes(a: nat, b: nat, n: nat)
    ensures Bitwise(Or, a, b, n) == Bitwise(Or, b, a, n)
    decreases n
  {
    if n > 0 { OrCommutes(a / 2, b / 2, n - 1); }
  }

  // --- the register file ----------------------------------------------------------------

  /** What reading a register operand leaves in the destination: more than the operand, perhaps, but
      the same low bytes. */
  function Fetched(g: Guest, reg: Reg, size: Size, rex: bool): u64 {
    if size == 1 && HighByte(reg, rex) then GetReg8(g, reg, rex) else Get(g.r, reg)
  }

  lemma FetchedLow(g: Guest, reg: Reg, size: Size, rex: bool)
    ensures Trunc(Fetched(g, reg, size, rex), size) == RegOperand(g, reg, size, rex)
  {
  }

  lemma RdRegRuns(env: Env, dst: int, o: Insn, reg: Reg, size: Size, m: Machine)
    requires X(m, CPU) == env.host.cpu && dst != CPU && dst != ZR
    ensures Exec(env, PutRdReg(dst, o, reg, size), m) == At(0, SetX(m, dst, Fetched(m.g, reg, size, o.hasRex)))
  {
    hide Step, Exec;
    if size == 1 && HighByte(reg, o.hasRex) {
      var m1 := SetX(m, dst, Get(m.g.r, reg - 4));
      StepLdrReg(env, dst, reg - 4, m);
      StepSet(env, dst, Ubfx(dst, 8, 8), m1);
      Run2(env, Ldr(8, dst, CPU, OffR(reg - 4)), Set(dst, Ubfx(dst, 8, 8)), m);
      ByteField(Get(m.g.r, reg - 4));
      assert m1.x[dst := GetReg8(m.g, reg, o.hasRex)] == m.x[dst := GetReg8(m.g, reg, o.hasRex)];
    } else {
      StepLdrReg(env, dst, reg, m);
      Run1(env, Ldr(8, dst, CPU, OffR(reg)), m);
    }
  }

  lemma ByteField(v: u64)
    ensures Field(v, 8, 8) == (v / 0x100) % 0x100
  {
    Pow2Values();
  }

  /** The registers a fragment is handed its operands in are as they were, x9 aside. */
  predicate KeepsOperands(m: Machine, m': Machine) {
    && X(m', 0) == X(m, 0) && X(m', 1) == X(m, 1) && X(m', 2) == X(m, 2) && X(m', 3) == X(m, 3)
    && X(m', CPU) == X(m, CPU)
  }

  lemma WrRegRuns(env: Env, src: int, o: Insn, reg: Reg, size: Size, m: Machine)
    requires X(m, CPU) == env.host.cpu && 0 <= src < 4 && size != 2
    requires size == 4 ==> X(m, src) < 0x1_0000_0000
    ensures var out := Exec(env, PutWrReg(src, o, reg, size), m);
      out.At? && out.k == 0 && KeepsOperands(m, out.m)
      && out.m == m.(x := out.m.x, g := SetOperand(m.g, reg, X(m, src), size, o.hasRex))
  {
    hide Step, Exec;
    if size == 1 {
      if HighByte(reg, o.hasRex) {
        WrHighByteRuns(env, src, reg, m);
      } else {
        StrBRuns(env, src, reg, m);
      }
    } else {
      StepStrReg(env, src, reg, m);
      Run1(env, Str(8, src, CPU, OffR(reg)), m);
    }
  }

  lemma StrBRuns(env: Env, src: int, reg: Reg, m: Machine)
    requires X(m, CPU) == env.host.cpu
    ensures Exec(env, [Str(1, src, CPU, OffR(reg))], m) == At(0, m.(g := SetReg(m.g, reg, X(m, src), 1)))
  {
    Run1(env, Str(1, src, CPU, OffR(reg)), m);
  }

  lemma WrHighByteRuns(env: Env, src: int, reg: Reg, m: Machine)
    requires X(m, CPU) == env.host.cpu && 0 <= src < 4 && 4 <= reg < 8
    ensures var out := Exec(env, [Ldr(8, 9, CPU, OffR(reg - 4)), Set(9, Bfi(src, 8, 8)),
        Str(8, 9, CPU, OffR(reg - 4))], m);
      out.At? && out.k == 0 && KeepsOperands(m, out.m)
      && out.m == m.(x := out.m.x, g := SetReg8(m.g, reg, X(m, src), false))
  {
    hide Step, Exec, WithHighByte, OffR;
    var m1 := SetX(m, 9, Get(m.g.r, reg - 4));
    StepLdrReg(env, 9, reg - 4, m);
    StepBfi(env, src, m1);
    var m2 := SetX(m1, 9, WithHighByte(Get(m.g.r, reg - 4), X(m, src)));
    StepStrReg(env, 9, reg - 4, m2);
    Run3(env, Ldr(8, 9, CPU, OffR(reg - 4)), Set(9, Bfi(src, 8, 8)), Str(8, 9, CPU, OffR(reg - 4)), m);
  }

  lemma StepBfi(env: Env, n: int, m: Machine)
    ensures Step(env, Set(9, Bfi(n, 8, 8)), m) == SetX(m, 9, WithHighByte(X(m, 9), X(m, n)))
  {
    hide WithHighByte;
    StepSet(env, 9, Bfi(n, 8, 8), m);
  }

  // --- effective addresses ------------------------------------------------------------

  /** The machine differs at most in its registers, and x19 is intact. */
  predicate OnlyRegs(m: Machine, m': Machine) { m' == m.(x := m'.x) && X(m', CPU) == X(m, CPU) }

  lemma ShlScaled(v: u64, scale: Scale)
    ensures Shl(v, scale) == Wrap(Scaled(v, scale))
  {
    assert Pow2(1) == 2 && Pow2(2) == 4 && Pow2(3) == 8;
  }

  lemma WrapSmall(v: u64)
    ensures Wrap(v + 0) == v
  {
  }

  lemma DispRuns(env: Env, d: int, m: Machine)
    requires -0x8000_0000 <= d < 0x8000_0000
    ensures var out := Exec(env, PutDisp(d), m);
      out.At? && out.k == 0 && OnlyRegs(m, out.m) && X(out.m, 1) == Wrap(X(m, 1) + d)
  {
    hide Step, Exec, PutImm, Wrap;
    if 0 < d < 4096 {
      StepSet(env, 1, AddImm(1, d), m);
      Run1(env, Set(1, AddImm(1, d)), m);
    } else if -4096 < d < 0 {
      StepSet(env, 1, SubImm(1, -d), m);
      Run1(env, Set(1, SubImm(1, -d)), m);
    } else if d != 0 {
      var m1 := SetX(m, 6, Wrap(d));
      ImmLoads(env, 6, Wrap(d), m);
      var add := Set(1, Arith(OpAdd, false, 1, 6));
      StepSet(env, 1, Arith(OpAdd, false, 1, 6), m1);
      Run1(env, add, m1);
      Then(env, PutImm(6, Wrap(d)), [add], m, m1);
      WrapAdd(d, X(m, 1));
    } else {
      WrapSmall(X(m, 1));
      assert Exec(env, [], m) == At(0, m) by { EmptyRuns(env, m); }
    }
  }

  lemma EmptyRuns(env: Env, m: Machine)
    ensures Exec(env, [], m) == At(0, m)
  {
    hide Step;
  }

  /** Base register, or zero, into x1. */
  lemma BaseRuns(env: Env, o: Insn, m: Machine)
    requires X(m, CPU) == env.host.cpu
    ensures Exec(env, if o.hasBase then [Ldr(8, 1, CPU, OffR(o.base))] else [Set(1, MovZ(0, 0))], m)
         == At(0, SetX(m, 1, if o.hasBase then Get(m.g.r, o.base) else 0))
  {
    hide Step, Exec;
    if o.hasBase {
      StepLdrReg(env, 1, o.base, m);
      Run1(env, Ldr(8, 1, CPU, OffR(o.base)), m);
    } else {
      RunSet(env, 1, MovZ(0, 0), m);
    }
  }

  lemma IndexRuns(env: Env, o: Insn, m: Machine)
    requires X(m, CPU) == env.host.cpu
    ensures var out := Exec(env,
        if o.hasIndex then [Ldr(8, 6, CPU, OffR(o.index)), Set(1, AddLsl(1, 6, o.scale))] else [],
        m);
      out.At? && out.k == 0 && OnlyRegs(m, out.m)
      && X(out.m, 1) == Wrap(X(m, 1) + if o.hasIndex then Scaled(Get(m.g.r, o.index), o.scale) else 0)
  {
    hide Step, Exec, Scaled;
    if o.hasIndex {
      var v := Get(m.g.r, o.index);
      var m1 := SetX(m, 6, v);
      StepLdrReg(env, 6, o.index, m);
      StepSet(env, 1, AddLsl(1, 6, o.scale), m1);
      Run2(env, Ldr(8, 6, CPU, OffR(o.index)), Set(1, AddLsl(1, 6, o.scale)), m);
      ShlScaled(v, o.scale);
      WrapAdd(Scaled(v, o.scale), X(m, 1));
    } else {
      EmptyRuns(env, m);
    }
  }

  /** put_ea leaves the effective address in x1. */
  lemma EaRuns(env: Env, o: Insn, m: Machine)
    requires X(m, CPU) == env.host.cpu && -0x8000_0000 <= o.disp < 0x8000_0000
    ensures var out := Exec(env, PutEa(o), m);
      out.At? && out.k == 0 && OnlyRegs(m, out.m) && X(out.m, 1) == Address(o, m.g.r)
  {
    hide Step, Exec, PutImm, PutDisp, Scaled, Wrap, OffR;
    if o.riprel {
      ImmLoads(env, 1, Wrap(o.next + o.disp), m);
    } else if !o.hasBase && !o.hasIndex {
      ImmLoads(env, 1, Wrap(o.disp), m);
    } else {
      var b := if o.hasBase then [Ldr(8, 1, CPU, OffR(o.base))] else [Set(1, MovZ(0, 0))];
      var x := if o.hasIndex then [Ldr(8, 6, CPU, OffR(o.index)), Set(1, AddLsl(1, 6, o.scale))] else [];
      var m1 := SetX(m, 1, if o.hasBase then Get(m.g.r, o.base) else 0);
      BaseRuns(env, o, m);
      Then(env, b, x, m, m1);
      IndexRuns(env, o, m1);
      var m2 := Exec(env, x, m1).m;
      Then(env, b + x, PutDisp(o.disp), m, m2);
      DispRuns(env, o.disp, m2);
      WrapAdd(X(m1, 1) + if o.hasIndex then Scaled(Get(m.g.r, o.index), o.scale) else 0, o.disp);
    }
  }

  lemma SetRipRuns(env: Env, rip: u64, m: Machine)
    requires X(m, CPU) == env.host.cpu
    ensures Exec(env, PutSetRip(rip), m) == At(0, SetX(m, 9, rip).(curRip := rip))
  {
    hide Step, Exec, PutImm;
    var m1 := SetX(m, 9, rip);
    ImmLoads(env, 9, rip, m);
    var s := Str(8, 9, CPU, OFF_CURRIP);
    StepStrRip(env, m1);
    Run1(env, s, m1);
    Then(env, PutImm(9, rip), [s], m, m1);
  }

  lemma StepStrRip(env: Env, m: Machine)
    requires X(m, CPU) == env.host.cpu
    ensures Step(env, Str(8, 9, CPU, OFF_CURRIP), m) == m.(curRip := X(m, 9))
  {
  }
}
