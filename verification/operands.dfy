/** Whatever the decoder accepts, the interpreter reads the same way: the same length, the same operands
    and the same effect. */
module OperandAgreement {
  import opened Words
  import opened StatusFlags
  import opened Regions
  import opened GuestState
  import opened Insns
  import opened CodeGen
  import opened AluRuns
  import opened Simulation
  import opened Decoder
  import opened Interpreter

  /** The 16 bytes of memory the decoder is handed. */
  function CodeAt(code: Mem, rip: u64): CodeWindow { GuestState.Window(code, rip, WINDOW) }

  lemma {:induction false} WindowAt(m: Mem, a: int, n: nat, i: nat)
    requires i < n
    ensures GuestState.Window(m, a, n)[i] == Peek(m, a + i)
    decreases n
  {
    if i > 0 { WindowAt(m, a + 1, n - 1, i - 1); }
  }

  lemma CodeByte(code: Mem, rip: u64, n: nat)
    requires n < WINDOW
    ensures CodeAt(code, rip)[n] == Byte(code, rip, n)
  {
    WindowAt(code, rip, WINDOW, n);
  }

  lemma {:induction false} CodeLe(code: Mem, rip: u64, n: nat, k: nat)
    requires n + k <= WINDOW
    ensures Le(CodeAt(code, rip), n, k) == Load(code, rip + n, k)
    decreases k
  {
    hide CodeAt;
    if k > 0 {
      CodeByte(code, rip, n);
      CodeLe(code, rip, n + 1, k - 1);
      assert rip + n + 1 == rip + (n + 1);
    }
  }

  lemma CodeSle(code: Mem, rip: u64, n: nat, k: Size)
    requires n + k <= WINDOW
    ensures Sle(CodeAt(code, rip), n, k) == Sbytes(code, rip, n, k)
  {
    hide CodeAt, Signed;
    CodeLe(code, rip, n, k);
  }

  // --- memory operands ---------------------------------------------------------------------------

  /** The address a decoded memory operand names, for an instruction followed by `next`. */
  function RefAddress(a: MemRef, next: u64, r: RegFile): u64 {
    if a.riprel then Wrap(next + a.disp)
    else Wrap((if a.hasBase then Get(r, a.base) else 0) + (if a.hasIndex then Scaled(Get(r, a.index), a.scale)
        else 0) + a.disp)
  }

  /** What the interpreter makes of the same bytes. */
  predicate SameRef(rm: Rm, c: Ref, m: byte, rex: byte, r: RegFile) {
    && rm.n == c.n && rm.reg == RegField(m, rex)
    && (rm.o.AtMem? || rm.o.Pending?)
    && (rm.o.Pending? <==> c.a.riprel)
    && (rm.o.Pending? ==> rm.o.disp == c.a.disp)
    && (rm.o.AtMem? ==> forall next: u64 :: RefAddress(c.a, next, r) == rm.o.a)
  }

  lemma DisplacedAgrees(code: Mem, rip: u64, n: nat, mod: int, m: byte, rex: byte, a: MemRef, at: u64, r: RegFile)
    requires n + 4 <= WINDOW && !a.riprel && a.disp == 0
    requires at == Wrap((if a.hasBase then Get(r, a.base) else 0) + (if a.hasIndex then Scaled(Get(r, a.index), a.scale)
        else 0))
    ensures SameRef(WithDisp(code, rip, n, mod, RegField(m, rex), at), Displaced(CodeAt(code, rip), n, mod, a), m, rex,
        r)
  {
    hide CodeAt, Sle, Sbytes, Wrap, RegField, Scaled;
    CodeSle(code, rip, n, 1);
    CodeSle(code, rip, n, 4);
    var sum: int := (if a.hasBase then Get(r, a.base) else 0) + (if a.hasIndex then Scaled(Get(r, a.index), a.scale)
        else 0);
    WrapAdd(sum, Sle(CodeAt(code, rip), n, 1));
    WrapAdd(sum, Sle(CodeAt(code, rip), n, 4));
  }

  lemma SibAgrees(code: Mem, rip: u64, n: nat, rex: byte, m: byte, r: RegFile)
    requires n + 6 <= WINDOW && m == Byte(code, rip, n) && ModOf(m) != 3 && m % 8 == 4
    ensures SameRef(Modrm(code, rip, n, rex, r), SibMem(CodeAt(code, rip), n + 1, rex, ModOf(m)), m, rex, r)
  {
    hide CodeAt, Byte, Sle, Sbytes, Wrap, RegField, Scaled, RegOf, RmField, Wide, RexX, WithDisp, Displaced, SameRef;
    CodeByte(code, rip, n + 1);
    CodeSle(code, rip, n + 2, 4);
    var sib := Byte(code, rip, n + 1);
    RegOfRange(sib);
    var index := Wide(RegOf(sib), RexX(rex));
    var x := if index != 4 then Scaled(Get(r, index), ModOf(sib)) else 0;
    var a := if index != 4 then NOWHERE.(hasIndex := true, index := index, scale := ModOf(sib)) else NOWHERE;
    ZeroWrap();
    if sib % 8 == 5 && ModOf(m) == 0 {
      WrapAdd(x, Sle(CodeAt(code, rip), n + 2, 4));
      NoBase(a, a.(disp := Sle4(CodeAt(code, rip), n + 2)), Modrm(code, rip, n, rex, r), n + 6, m, rex, r);
    } else {
      WrapAdd(x, Get(r, RmField(sib, rex)));
      DisplacedAgrees(code, rip, n + 2, ModOf(m), m, rex, a.(hasBase := true, base := RmField(sib, rex)),
                      Wrap((if index != 4 then Wrap(x) else 0) + Get(r, RmField(sib, rex))), r);
    }
  }

  lemma ZeroWrap()
    ensures Wrap(0) == 0
  {
  }

  lemma NoBase(a: MemRef, a': MemRef, rm: Rm, n: nat, m: byte, rex: byte, r: RegFile)
    requires !a.riprel && !a.hasBase && a' == a.(disp := a'.disp)
    requires rm.n == n && rm.reg == RegField(m, rex) && rm.o.AtMem?
    requires rm.o.a == Wrap((if a.hasIndex then Scaled(Get(r, a.index), a.scale) else 0) + a'.disp)
    ensures SameRef(rm, Ref(n, a'), m, rex, r)
  {
    hide Wrap, Scaled, RegField;
  }

  lemma BaseAgrees(code: Mem, rip: u64, n: nat, rex: byte, m: byte, r: RegFile)
    requires n + 6 <= WINDOW && m == Byte(code, rip, n) && ModOf(m) != 3 && m % 8 != 4
    ensures SameRef(Modrm(code, rip, n, rex, r), ModrmMem(CodeAt(code, rip), n + 1, rex, m), m, rex, r)
  {
    hide CodeAt, Byte, Sle, Sbytes, Wrap, RegField, Scaled, RmField, WithDisp, Displaced;
    CodeSle(code, rip, n + 1, 4);
    if !(m % 8 == 5 && ModOf(m) == 0) {
      hide SameRef;
      BaseOnly(Get(r, RmField(m, rex)));
      DisplacedAgrees(code, rip, n + 1, ModOf(m), m, rex, NOWHERE.(hasBase := true, base := RmField(m, rex)),
          Get(r, RmField(m, rex)), r);
    }
  }

  lemma BaseOnly(v: u64)
    ensures v == Wrap(v + 0)
  {
  }

  lemma MemAgrees(code: Mem, rip: u64, n: nat, rex: byte, m: byte, r: RegFile)
    requires n + 6 <= WINDOW && m == Byte(code, rip, n) && ModOf(m) != 3
    ensures SameRef(Modrm(code, rip, n, rex, r), ModrmMem(CodeAt(code, rip), n + 1, rex, m), m, rex, r)
  {
    hide CodeAt, Modrm, SibMem, SameRef, ModOf;
    if m % 8 == 4 { SibAgrees(code, rip, n, rex, m, r); } else { BaseAgrees(code, rip, n, rex, m, r); }
  }

  /** The interpreter's operand, in terms of the decoded instruction. */
  function OpndOf(o: Insn, reg: Reg, r: RegFile): Opnd { if o.mem then AtMem(Address(o, r)) else AtReg(reg) }

  lemma RefIs(o: Insn, a: MemRef, next: u64, r: RegFile)
    requires o.next == next && o.mem
    requires o.hasBase == a.hasBase && o.hasIndex == a.hasIndex && o.riprel == a.riprel && o.base == a.base
    requires o.index == a.index && o.scale == a.scale && o.disp == a.disp
    ensures Address(o, r) == RefAddress(a, next, r)
  {
  }

  /** With the length known, the interpreter's operand is the decoder's. */
  lemma OperandAgrees(code: Mem, rip: u64, n: nat, rex: byte, m: byte, a: MemRef, next: u64, r: RegFile)
    requires n + 6 <= WINDOW && m == Byte(code, rip, n) && ModOf(m) != 3
        && a == ModrmMem(CodeAt(code, rip), n + 1, rex, m).a
    ensures Fixup(Modrm(code, rip, n, rex, r).o, next) == AtMem(RefAddress(a, next, r))
    ensures Modrm(code, rip, n, rex, r).n == ModrmMem(CodeAt(code, rip), n + 1, rex, m).n
    ensures Modrm(code, rip, n, rex, r).reg == RegField(m, rex)
  {
    hide CodeAt, Modrm, ModrmMem, Byte, RegField, ModOf;
    MemAgrees(code, rip, n, rex, m, r);
    FixupIs(Modrm(code, rip, n, rex, r), ModrmMem(CodeAt(code, rip), n + 1, rex, m), m, rex, next, r);
  }

  lemma FixupIs(rm: Rm, c: Ref, m: byte, rex: byte, next: u64, r: RegFile)
    requires SameRef(rm, c, m, rex, r)
    ensures Fixup(rm.o, next) == AtMem(RefAddress(c.a, next, r))
  {
    hide Wrap, Scaled;
    if rm.o.AtMem? { assert RefAddress(c.a, next, r) == rm.o.a; }
  }

  lemma RegisterAgrees(code: Mem, rip: u64, n: nat, rex: byte, m: byte, next: u64, r: RegFile)
    requires m == Byte(code, rip, n) && ModOf(m) == 3
    ensures Modrm(code, rip, n, rex, r) == Rm(n + 1, RegField(m, rex), AtReg(RmField(m, rex)))
    ensures Fixup(AtReg(RmField(m, rex)), next) == AtReg(RmField(m, rex))
  {
  }

  // --- operations -----------------------------------------------------------------------------------

  lemma SelectAll(f: Flags, t: Flags)
    requires t.other == f.other
    ensures Select(f, t, ALL) == t
  {
  }

  lemma AluFlagsKeep(f: Flags, op: Alu, a: u64, b: u64, r: u64, size: Size)
    ensures AluFlags(f, op, a, b, r, size).other == f.other
  {
    hide Trunc, Half, Nibble, EvenParity;
  }

  lemma StepIs(o: Insn, a: u64, b: u64, g: Guest)
    ensures var r := AluResult(o.op, a, b);
      AluStep(o, a, b, ALL, g) == (r, g.(flags := AluFlags(g.flags, o.op, a, b, r, o.size)))
  {
    hide AluResult, AluFlags;
    var r := AluResult(o.op, a, b);
    AluFlagsKeep(g.flags, o.op, a, b, r, o.size);
    SelectAll(g.flags, AluFlags(g.flags, o.op, a, b, r, o.size));
  }

  /** An operation depends on no more than the low bytes of its second operand. */
  lemma OperateLow(regs: seq<Region>, g: Guest, op: Alu, dst: Opnd, a: u64, b: u64, b': u64, size: Size, rex: bool,
      next: u64)
    requires Same(b, b', size) && size != 2
    ensures Operate(regs, g, op, dst, a, b, size, rex, next) == Operate(regs, g, op, dst, a, b', size, rex, next)
  {
    hide AluResult, AluFlags, Same, St, SetOperand;
    var r, r' := AluResult(op, a, b), AluResult(op, a, b');
    ResultLow(op, a, b, b', size);
    SameSelf(a, size);
    AluFlagsRoutine(g.flags, op, a, b, r, size);
    AluFlagsRoutine(g.flags, op, a, b', r', size);
    RoutineOfLow(FlagHelper(op), g.flags, a, b, r, a, b', r', size);
    var g1 := g.(flags := AluFlags(g.flags, op, a, b, r, size));
    match dst
    case AtReg(reg) => SetOperandLow(g1, reg, r, r', size, rex);
    case AtMem(ad) => StLow(regs, g1, ad, r, r', size);
    case Pending(_) =>
  }

  lemma ResultLow(op: Alu, a: u64, b: u64, b': u64, size: Size)
    requires Same(b, b', size) && size != 2
    ensures Same(AluResult(op, a, b), AluResult(op, a, b'), size)
  {
    hide AluResult, OpValue;
    var o := Blank(size, false).(op := op);
    SameSelf(a, size);
    SameSelf(b, size);
    ArithLow(o, a, b, a, b);
    ArithLow(o, a, b, a, b');
  }

  lemma RegMeaning(regs: seq<Region>, o: Insn, g: Guest)
    requires (o.kind.KRR? || o.kind.KRI?) && o.noWrite == NoWrite(o.op)
    ensures Meaning(regs, o, ALL, true, g)
         == Operate(regs, g, o.op, AtReg(o.reg), RegOperand(g, o.reg, o.size, o.hasRex),
                    if o.kind.KRI? then o.imm else RegOperand(g, o.src, o.size, o.hasRex), o.size, o.hasRex, o.next)
  {
    hide AluResult, AluFlags, SetOperand, RegOperand, AluStep, Address;
    StepIs(o, RegOperand(g, o.reg, o.size, o.hasRex),
      if o.kind.KRI? then o.imm else RegOperand(g, o.src, o.size, o.hasRex),
        g);
  }

  lemma LoadMeaning(regs: seq<Region>, o: Insn, g: Guest)
    requires o.kind.KRM? && o.noWrite == NoWrite(o.op)
    ensures Meaning(regs, o, ALL, true, g)
         == match Ld(regs, g, Address(o, g.r), o.size)
            case None => Fault
            case Some(b) => Operate(regs, g, o.op, AtReg(o.reg), RegOperand(g, o.reg, o.size, o.hasRex), b, o.size,
                o.hasRex, o.next)
  {
    hide AluResult, AluFlags, SetOperand, RegOperand, AluStep, Address, Ld;
    match Ld(regs, g, Address(o, g.r), o.size)
    case None =>
    case Some(b) => StepIs(o, RegOperand(g, o.reg, o.size, o.hasRex), b, g);
  }

  /** A read-modify-write, the destination read even by a mov from a register. */
  lemma RmwStrict(regs: seq<Region>, o: Insn, g: Guest)
    requires (o.kind.KMR? || (o.kind.KMI? && !o.op.AMov?)) && o.noWrite == NoWrite(o.op)
    ensures Meaning(regs, o, ALL, true, g)
         == match Ld(regs, g, Address(o, g.r), o.size)
            case None => Fault
            case Some(a) => Operate(regs, g, o.op, AtMem(Address(o, g.r)), a, StoreOperand(o, g), o.size, o.hasRex,
                o.next)
  {
    hide AluFlags, RegOperand, AluStep, Address, Ld, Store2;
    match Ld(regs, g, Address(o, g.r), o.size)
    case None =>
    case Some(a) =>
      StepIs(o, a, StoreOperand(o, g), g);
      MovFlags(g.flags, a, StoreOperand(o, g), StoreOperand(o, g), o.size);
  }

  lemma MovFlags(f: Flags, a: u64, b: u64, r: u64, size: Size)
    ensures AluFlags(f, AMov, a, b, r, size) == f
  {
  }

  // --- the row ------------------------------------------------------------------------------------------

  /** The longest operand and immediate still fit. */
  predicate Roomy(s: At) { s.n + 10 <= WINDOW }

  /** The instruction decoded at the same place. */
  function Row(s: At, op: byte): Insn
    requires Roomy(s)
  {
    Finish(DecodeRow(CodeAt(s.code, s.rip), s.n, s.rex, op, s.size, s.hasRex), s.rip)
  }

  lemma RowRegAgrees(s: At, op: byte)
    requires Roomy(s) && IsRow(op) && ModOf(Byte(s.code, s.rip, s.n)) == 3
    ensures StepRow(s, op) == Ran(Meaning(s.regs, Row(s, op), ALL, true, s.g))
  {
    hide CodeAt, Byte, RowAlu, Operate, Meaning, RegOperand, Modrm, RegField, RmField, ModOf;
    CodeByte(s.code, s.rip, s.n);
    RegisterAgrees(s.code, s.rip, s.n, s.rex, Byte(s.code, s.rip, s.n), Wrap(s.rip + (s.n + 1)), s.g.r);
    RegMeaning(s.regs, Row(s, op), s.g);
  }

  lemma RowMemAgrees(s: At, op: byte)
    requires Roomy(s) && IsRow(op) && ModOf(Byte(s.code, s.rip, s.n)) != 3
    ensures StepRow(s, op) == Ran(Meaning(s.regs, Row(s, op), ALL, true, s.g))
  {
    hide CodeAt, Byte, RowAlu, Operate, Meaning, RegOperand, Modrm, RegField, RmField, ModOf, ModrmMem, Ld, Address,
        RefAddress;
    var m, o := Byte(s.code, s.rip, s.n), Row(s, op);
    CodeByte(s.code, s.rip, s.n);
    var c := ModrmMem(CodeAt(s.code, s.rip), s.n + 1, s.rex, m);
    OperandAgrees(s.code, s.rip, s.n, s.rex, m, c.a, o.next, s.g.r);
    RefIs(o, c.a, o.next, s.g.r);
    if o.kind.KRM? { LoadMeaning(s.regs, o, s.g); } else { RmwStrict(s.regs, o, s.g); }
  }

  // --- immediates ---------------------------------------------------------------------------------------

  /** The two engines cut an immediate differently, but not below the operand size. */
  lemma ClipLow(v: u64, size: Size)
    ensures Same(Clip(v, size), v, size)
  {
  }

  lemma ByteImm(b: byte)
    ensures Same(b, Wrap(Signed(b, 1)), 1)
  {
  }

  lemma LoadByte(code: Mem, rip: u64, n: nat)
    ensures Bytes(code, rip, n, 1) == Byte(code, rip, n)
  {
    assert Load(code, rip + n + 1, 0) == 0;
  }

  function ImmWidth(op: byte, size: Size): Size { if op == 0x80 || op == 0xc6 then 1 else size }

  function ImmLen(op: byte): nat { if op == 0x81 || op == 0xc7 then 4 else 1 }

  /** The decoded immediate and the interpreter's agree in the bytes that matter. */
  lemma ImmAgrees(s: At, op: byte, n: nat, imm: u64)
    requires n + 4 <= WINDOW && s.size != 2
    requires var p := CodeAt(s.code, s.rip);
      imm == if op == 0x80 || op == 0xc6 then p[n]
             else if op == 0x83 then Clip(Wrap(Sle(p, n, 1)), s.size)
             else Clip(Wrap(Sle(p, n, 4)), s.size)
    ensures op == 0x81 || op == 0xc7 ==> Same(imm, Wrap(Sbytes(s.code, s.rip, n, 4)), ImmWidth(op, s.size))
    ensures op == 0x80 || op == 0x83 ==> Same(imm, Wrap(Sbytes(s.code, s.rip, n, 1)), ImmWidth(op, s.size))
    ensures op == 0xc6 ==> imm == Byte(s.code, s.rip, n)
  {
    hide CodeAt, Byte, Sle, Sbytes, Same, Wrap, Clip;
    CodeByte(s.code, s.rip, n);
    CodeSle(s.code, s.rip, n, 1);
    CodeSle(s.code, s.rip, n, 4);
    ClipLow(Wrap(Sle(CodeAt(s.code, s.rip), n, 1)), s.size);
    ClipLow(Wrap(Sle(CodeAt(s.code, s.rip), n, 4)), s.size);
    SbyteIs(s.code, s.rip, n);
    ByteImm(Byte(s.code, s.rip, n));
  }

  lemma SbyteIs(code: Mem, rip: u64, n: nat)
    ensures Sbytes(code, rip, n, 1) == Signed(Byte(code, rip, n), 1)
  {
    hide Signed;
    LoadByte(code, rip, n);
  }

  /** The operand, register or memory, of a decoded instruction that keeps it in `reg`. */
  lemma EitherAgrees(s: At, m: byte, o0: Insn, o: Insn, next: u64)
    requires s.n + 6 <= WINDOW && m == Byte(s.code, s.rip, s.n) && !o0.mem && o.next == next
    requires var c := Operand(CodeAt(s.code, s.rip), s.n + 1, s.rex, m, InReg, o0);
      o == c.o.(imm := o.imm, byCl := o.byCl, len := o.len, next := o.next, target := o.target)
    ensures var rm := Modrm(s.code, s.rip, s.n, s.rex, s.g.r);
      rm.n == Operand(CodeAt(s.code, s.rip), s.n + 1, s.rex, m, InReg, o0).n
      && Fixup(rm.o, next) == OpndOf(o, o.reg, s.g.r)
    ensures o.mem == (ModOf(m) != 3)
  {
    hide CodeAt, Byte, Modrm, ModrmMem, ModOf, RmField, RegField, Address, RefAddress;
    if ModOf(m) == 3 {
      RegisterAgrees(s.code, s.rip, s.n, s.rex, m, next, s.g.r);
    } else {
      var c := ModrmMem(CodeAt(s.code, s.rip), s.n + 1, s.rex, m);
      OperandAgrees(s.code, s.rip, s.n, s.rex, m, c.a, next, s.g.r);
      RefIs(o, c.a, next, s.g.r);
    }
  }

  /** The same for an instruction that keeps a register operand in `src`. */
  lemma SourceAgrees(s: At, n: nat, m: byte, o0: Insn, o: Insn, next: u64)
    requires n + 6 <= WINDOW && m == Byte(s.code, s.rip, n) && !o0.mem && o.next == next
    requires var c := Operand(CodeAt(s.code, s.rip), n + 1, s.rex, m, InSrc, o0);
      o == c.o.(imm := o.imm, len := o.len, next := o.next, target := o.target)
    ensures var rm := Modrm(s.code, s.rip, n, s.rex, s.g.r);
      rm.n == Operand(CodeAt(s.code, s.rip), n + 1, s.rex, m, InSrc, o0).n
      && rm.reg == RegField(m, s.rex) && Fixup(rm.o, next) == OpndOf(o, o.src, s.g.r)
  {
    hide CodeAt, Byte, Modrm, ModrmMem, ModOf, RmField, RegField, Address, RefAddress;
    if ModOf(m) == 3 {
      RegisterAgrees(s.code, s.rip, n, s.rex, m, next, s.g.r);
    } else {
      var c := ModrmMem(CodeAt(s.code, s.rip), n + 1, s.rex, m);
      OperandAgrees(s.code, s.rip, n, s.rex, m, c.a, next, s.g.r);
      RefIs(o, c.a, next, s.g.r);
    }
  }

  /** An operation with an immediate, on either kind of operand. */
  lemma ImmMeaning(regs: seq<Region>, o: Insn, g: Guest)
    requires (o.kind.KRI? && !o.mem) || (o.kind.KMI? && o.mem && !o.op.AMov?)
    requires o.noWrite == NoWrite(o.op)
    ensures Meaning(regs, o, ALL, true, g)
         == match Rd(regs, g, OpndOf(o, o.reg, g.r), o.size, o.hasRex)
            case None => Fault
            case Some(a) => Operate(regs, g, o.op, OpndOf(o, o.reg, g.r), a, o.imm, o.size, o.hasRex, o.next)
  {
    hide Operate, Meaning, RegOperand, Ld, Address;
    if o.kind.KRI? { RegMeaning(regs, o, g); } else { RmwStrict(regs, o, g); }
  }

  /** What an accepted instruction of the immediate group is. */
  lemma ImmGroupIs(s: At, op: byte)
    requires Roomy(s) && s.size != 2
    requires DecodeImmGroup(CodeAt(s.code, s.rip), s.n, s.rex, op, s.size, s.hasRex).Some?
    ensures var p := CodeAt(s.code, s.rip);
      var c := DecodeImmGroup(p, s.n, s.rex, op, s.size, s.hasRex).value;
      var o0 := ImmInsn(p[s.n], op, ImmWidth(op, s.size), s.hasRex);
      var c0 := Operand(p, s.n + 1, s.rex, p[s.n], InReg, o0);
      c.o == c0.o.(imm := c.o.imm)
      && (op == 0x80 || op == 0x83 || op == 0xc6 ==> c.n == c0.n + 1)
      && (op == 0x81 || op == 0xc7 ==> c.n == c0.n + 4)
      && (op == 0x80 || op == 0xc6 ==> c.o.imm == p[c0.n])
          && (op == 0x83 ==> c.o.imm == Clip(Wrap(Sle(p, c0.n, 1)), s.size))
      && (op == 0x81 || op == 0xc7 ==> c.o.imm == Clip(Wrap(Sle(p, c0.n, 4)), s.size))
      && (IsMovImm(op) ==> RegOf(p[s.n]) == 0) && (!IsMovImm(op) ==> RegOf(p[s.n]) != 2 && RegOf(p[s.n]) != 3)
  {
    hide CodeAt, Operand, Sle, Clip, ImmInsn, RegOf;
    var p := CodeAt(s.code, s.rip);
    var c0 := Operand(p, s.n + 1, s.rex, p[s.n], InReg, ImmInsn(p[s.n], op, ImmWidth(op, s.size), s.hasRex));
    ImmTail(p, c0, op, s.size);
    assert DecodeImmGroup(p, s.n, s.rex, op, s.size, s.hasRex).value == WithImm(p, c0, op, s.size);
  }

  lemma ImmTail(p: CodeWindow, c: Cur, op: byte, size: Size)
    requires c.n + 4 <= WINDOW
    ensures var d := WithImm(p, c, op, size);
      d.o == c.o.(imm := d.o.imm)
      && (op == 0x80 || op == 0x83 || op == 0xc6 ==> d.n == c.n + 1) && (op == 0x81 || op == 0xc7 ==> d.n == c.n + 4)
      && (op == 0x80 || op == 0xc6 ==> d.o.imm == p[c.n])
      && (op == 0x83 ==> d.o.imm == Clip(Wrap(Sle(p, c.n, 1)), size))
      && (op == 0x81 || op == 0xc7 ==> d.o.imm == Clip(Wrap(Sle(p, c.n, 4)), size))
  {
    hide Sle, Clip, Wrap;
    if op == 0x80 || op == 0xc6 {
      ImmOnly(c.o, p[c.n]);
    } else if op == 0x83 {
      ImmOnly(c.o, Clip(Wrap(Sle(p, c.n, 1)), size));
    } else {
      ImmOnly(c.o, Clip(Wrap(Sle(p, c.n, 4)), size));
    }
  }

  lemma ImmOnly(o: Insn, v: u64)
    ensures o.(imm := v).imm == v
  {
  }

  lemma ImmInsnIs(m: byte, op: byte, width: Size, hasRex: bool)
    requires width != 2 && (IsMovImm(op) || (RegOf(m) != 2 && RegOf(m) != 3))
    ensures var o := ImmInsn(m, op, width, hasRex);
      o.size == width && o.hasRex == hasRex && !o.mem && o.kind == (if ModOf(m) == 3 then KRI else KMI)
      && o.op == (if IsMovImm(op) then AMov else GroupAlu(RegOf(m))) && o.noWrite == NoWrite(o.op)
      && (!IsMovImm(op) ==> !o.op.AMov?)
  {
    hide ModOf;
    RegOfRange(m);
  }

  /** Everything but where the operand is. */
  predicate Keeps(o: Insn, o': Insn) {
    && o'.kind == o.kind && o'.op == o.op && o'.size == o.size && o'.hasRex == o.hasRex && o'.noWrite == o.noWrite
    && o'.ext == o.ext && o'.byCl == o.byCl && o'.imm == o.imm && o'.cc == o.cc && o'.ssize == o.ssize
    && o'.sign == o.sign
    && o'.immSrc == o.immSrc
  }

  lemma RegKeeps(o: Insn, r: Reg)
    ensures Keeps(o, o.(reg := r)) && Keeps(o, o.(src := r))
  {
  }

  lemma MemKeeps(o: Insn, a: MemRef)
    ensures Keeps(o, WithMem(o, a)) && WithMem(o, a).mem && WithMem(o, a).reg == o.reg
  {
  }

  lemma OperandKeeps(p: CodeWindow, n: nat, rex: byte, m: byte, place: Place, o: Insn)
    requires n + 5 <= WINDOW && !o.mem
    ensures var o' := Operand(p, n, rex, m, place, o).o;
      Keeps(o, o') && o'.mem == (ModOf(m) != 3) && (place.InSrc? ==> o'.reg == o.reg)
  {
    hide ModrmMem, ModOf, RmField, Keeps, WithMem;
    RegKeeps(o, RmField(m, rex));
    MemKeeps(o, ModrmMem(p, n, rex, m).a);
  }

  function ImmGroup(s: At, op: byte): Insn
    requires Roomy(s) && DecodeImmGroup(CodeAt(s.code, s.rip), s.n, s.rex, op, s.size, s.hasRex).Some?
  {
    Finish(DecodeImmGroup(CodeAt(s.code, s.rip), s.n, s.rex, op, s.size, s.hasRex).value, s.rip)
  }

  lemma ImmGroupAgrees(s: At, op: byte)
    requires Roomy(s) && s.size != 2 && (op == 0x80 || op == 0x81 || op == 0x83)
    requires DecodeImmGroup(CodeAt(s.code, s.rip), s.n, s.rex, op, s.size, s.hasRex).Some?
    ensures StepImmGroup(s, op) == Ran(Meaning(s.regs, ImmGroup(s, op), ALL, true, s.g))
  {
    hide CodeAt, Byte, Operate, Meaning, Modrm, ModOf, RegOf, Rd, Sle, Sbytes, Clip, ImmInsn, Operand, DecodeImmGroup,
        OpndOf, Fixup, GroupAlu, Same, Wrap;
    var p, o, width := CodeAt(s.code, s.rip), ImmGroup(s, op), ImmWidth(op, s.size);
    var m := Byte(s.code, s.rip, s.n);
    CodeByte(s.code, s.rip, s.n);
    ImmGroupIs(s, op);
    ImmInsnIs(m, op, width, s.hasRex);
    var o0 := ImmInsn(m, op, width, s.hasRex);
    OperandKeeps(p, s.n + 1, s.rex, m, InReg, o0);
    EitherAgrees(s, m, o0, o, o.next);
    var n := Operand(p, s.n + 1, s.rex, m, InReg, o0).n;
    ImmAgrees(s, op, n, o.imm);
    ImmMeaning(s.regs, o, s.g);
    ImmFinish(s, op, o, n);
  }

  /** The interpreter's group, once its pieces are known to be the decoder's. */
  lemma ImmFinish(s: At, op: byte, o: Insn, n: nat)
    requires op == 0x80 || op == 0x81 || op == 0x83
    requires Modrm(s.code, s.rip, s.n, s.rex, s.g.r).n == n && o.next == Wrap(s.rip + (n + ImmLen(op)))
    requires Fixup(Modrm(s.code, s.rip, s.n, s.rex, s.g.r).o, o.next) == OpndOf(o, o.reg, s.g.r)
    requires var ext := RegOf(Byte(s.code, s.rip, s.n)); ext != 2 && ext != 3 && o.op == GroupAlu(ext)
    requires o.size == ImmWidth(op, s.size) && o.hasRex == s.hasRex && o.size != 2
    requires op == 0x81 ==> Same(o.imm, Wrap(Sbytes(s.code, s.rip, n, 4)), o.size)
    requires op != 0x81 ==> Same(o.imm, Wrap(Sbytes(s.code, s.rip, n, 1)), o.size)
    ensures StepImmGroup(s, op)
         == Ran(match Rd(s.regs, s.g, OpndOf(o, o.reg, s.g.r), o.size, o.hasRex)
                case None => Fault
                case Some(a) => Operate(s.regs, s.g, o.op, OpndOf(o, o.reg, s.g.r), a, o.imm, o.size, o.hasRex, o.next))
  {
    hide Byte, Operate, Modrm, RegOf, Rd, Sbytes, OpndOf, Fixup, GroupAlu, Same, Wrap;
    var dst := OpndOf(o, o.reg, s.g.r);
    match Rd(s.regs, s.g, dst, o.size, o.hasRex)
    case None =>
    case Some(a) =>
      OperateLow(s.regs, s.g, o.op, dst, a, o.imm,
                 if op == 0x81 then Wrap(Sbytes(s.code, s.rip, n, 4)) else Wrap(Sbytes(s.code, s.rip, n, 1)), o.size,
                     o.hasRex, o.next);
  }
}
