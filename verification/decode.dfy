/** The block compiler's instruction decoder, over the 16 bytes it has checked it may read. */
module Decoder {
  import opened Words
  import opened StatusFlags
  import opened GuestState
  import opened Insns

  /** The little-endian value of k bytes. */
  function Le(p: seq<byte>, n: nat, k: nat): (v: nat)
    requires n + k <= |p|
    ensures v < ByteLimit(k)
    decreases k
  {
    if k == 0 then 0 else p[n] + 0x100 * Le(p, n + 1, k - 1)
  }

  /** k bytes at n, sign-extended to 64 bits. */
  function Sle(p: seq<byte>, n: nat, k: Size): int
    requires n + k <= |p|
  {
    Signed(Le(p, n, k), k)
  }

  const WINDOW := 16

  type CodeWindow = p: seq<byte> | |p| == WINDOW witness seq(16, _ => 0)

  // --- the fields of a REX prefix and of a ModRM byte --------------------------------------------

  predicate RexW(rex: byte) { (rex / 8) % 2 == 1 }
  predicate RexR(rex: byte) { (rex / 4) % 2 == 1 }
  predicate RexX(rex: byte) { (rex / 2) % 2 == 1 }
  predicate RexB(rex: byte) { rex % 2 == 1 }

  function Wide(bits: int, high: bool): Reg
    requires 0 <= bits < 8
  {
    bits + (if high then 8 else 0)
  }

  function ModOf(m: byte): int { m / 64 }
  function RegOf(m: byte): int { (m / 8) % 8 }
  function RegField(m: byte, rex: byte): Reg { Wide(RegOf(m), RexR(rex)) }
  function RmField(m: byte, rex: byte): Reg { Wide(m % 8, RexB(rex)) }

  /** An instruction being decoded and the bytes it has taken so far. */
  datatype Cur = Cur(n: nat, o: Insn)

  function Blank(size: Size, hasRex: bool): Insn {
    Insn(KNop, AAdd, size, 0, 0, 0, false, false, false, false, 0, 0, 0, 0, 0, false, hasRex, 1, false, 4, false,
        false, 0, 0, 0)
  }

  /** A displacement as the instruction can hold it. */
  type Disp = x: int | -0x8000_0000 <= x < 0x8000_0000

  datatype MemRef = MemRef(hasBase: bool, hasIndex: bool, riprel: bool, base: Reg, index: Reg, scale: Scale, disp: Disp)

  const NOWHERE := MemRef(false, false, false, 0, 0, 0, 0)

  function WithMem(o: Insn, a: MemRef): Insn {
    o.(mem := true, hasBase := a.hasBase, hasIndex := a.hasIndex, riprel := a.riprel,
       base := a.base, index := a.index, scale := a.scale, disp := a.disp)
  }

  /** A memory operand and where the bytes that name it end. */
  datatype Ref = Ref(n: nat, a: MemRef)

  function Sle4(p: seq<byte>, n: nat): Disp
    requires n + 4 <= |p|
  {
    Sle(p, n, 4)
  }

  function Sle1(p: seq<byte>, n: nat): Disp
    requires n + 1 <= |p|
  {
    Sle(p, n, 1)
  }

  /** The memory operand named by a ModRM byte, from the byte after it on. */
  function ModrmMem(p: CodeWindow, n: nat, rex: byte, m: byte): (c: Ref)
    requires n + 5 <= WINDOW
    ensures n <= c.n <= n + 5
  {
    var mod, rm := ModOf(m), m % 8;
    if rm == 4 then SibMem(p, n, rex, mod)
    else if rm == 5 && mod == 0 then Ref(n + 4, NOWHERE.(disp := Sle4(p, n), riprel := true))
    else Displaced(p, n, mod, NOWHERE.(hasBase := true, base := RmField(m, rex)))
  }

  function SibMem(p: CodeWindow, n: nat, rex: byte, mod: int): (c: Ref)
    requires n + 5 <= WINDOW
    ensures n <= c.n <= n + 5
  {
    var sib := p[n];
    var index := Wide(RegOf(sib), RexX(rex));
    var a := if index != 4 then NOWHERE.(hasIndex := true, index := index, scale := ModOf(sib)) else NOWHERE;
    if sib % 8 == 5 && mod == 0 then Ref(n + 5, a.(disp := Sle4(p, n + 1)))
    else Displaced(p, n + 1, mod, a.(hasBase := true, base := RmField(sib, rex)))
  }

  function Displaced(p: CodeWindow, n: nat, mod: int, a: MemRef): (c: Ref)
    requires n + 4 <= WINDOW
    ensures n <= c.n <= n + 4
  {
    if mod == 1 then Ref(n + 1, a.(disp := Sle1(p, n)))
    else if mod == 2 then Ref(n + 4, a.(disp := Sle4(p, n)))
    else Ref(n, a)
  }

  /** Which field a register operand goes into. */
  datatype Place = InReg | InSrc

  /** A register or memory operand. */
  function Operand(p: CodeWindow, n: nat, rex: byte, m: byte, place: Place, o: Insn): (c: Cur)
    requires n + 5 <= WINDOW
    ensures n <= c.n <= n + 5
  {
    if ModOf(m) == 3 then
      Cur(n, if place.InReg? then o.(reg := RmField(m, rex)) else o.(src := RmField(m, rex)))
    else
      var c := ModrmMem(p, n, rex, m);
      Cur(c.n, WithMem(o, c.a))
  }

  // --- opcodes, in groups -------------------------------------------------------------------------

  /** The row of operations between a register and a register or memory operand. */
  predicate IsRow(op: byte) {
    (op < 0x40 && op % 8 < 4 && op / 8 != 2 && op / 8 != 3) || op == 0x84 || op == 0x85 || 0x88 <= op <= 0x8b
  }

  function RowAlu(op: byte): Alu {
    if op == 0x84 || op == 0x85 then ATest
    else if op >= 0x88 then AMov
    else if op / 8 == 0 then AAdd else if op / 8 == 1 then AOr else if op / 8 == 4 then AAnd
    else if op / 8 == 5 then ASub else if op / 8 == 6 then AXor else ACmp
  }

  predicate NoWrite(op: Alu) { op.ACmp? || op.ATest? }

  function DecodeRow(p: CodeWindow, n: nat, rex: byte, op: byte, size: Size, hasRex: bool): (c: Cur)
    requires n + 6 <= WINDOW
    ensures n <= c.n <= n + 6
  {
    var m := p[n];
    var toReg := (op / 2) % 2 == 1 && op != 0x84 && op != 0x85;
    var o1 := Blank(size, hasRex).(size := if op % 2 == 0 then 1 else size, op := RowAlu(op),
        noWrite := NoWrite(RowAlu(op)));
    if ModOf(m) == 3 then
      var r, rm := RegField(m, rex), RmField(m, rex);
      Cur(n + 1, o1.(kind := KRR, reg := if toReg then r else rm, src := if toReg then rm else r))
    else
      var c := ModrmMem(p, n + 1, rex, m);
      Cur(c.n, WithMem(o1.(kind := if toReg then KRM else KMR, reg := RegField(m, rex)), c.a))
  }

  function GroupAlu(ext: int): Alu {
    match ext
    case 0 => AAdd
    case 1 => AOr
    case 4 => AAnd
    case 5 => ASub
    case 6 => AXor
    case _ => ACmp
  }

  /** An immediate cut to 32 bits where the operands are. */
  function Clip(v: u64, size: Size): u64 { if size == 4 then v % 0x1_0000_0000 else v }

  predicate IsMovImm(op: byte) { op == 0xc6 || op == 0xc7 }

  function ImmInsn(m: byte, op: byte, width: Size, hasRex: bool): Insn {
    var ext := RegOf(m);
    Blank(width, hasRex).(kind := if ModOf(m) == 3 then KRI else KMI,
                          op := if IsMovImm(op) then AMov else GroupAlu(ext),
                          noWrite := !IsMovImm(op) && ext == 7)
  }

  /** The immediate after an operand. */
  function WithImm(p: CodeWindow, c: Cur, op: byte, size: Size): Cur
    requires c.n + 4 <= WINDOW
    ensures c.n <= WithImm(p, c, op, size).n <= c.n + 4
  {
    if op == 0x80 || op == 0xc6 then Cur(c.n + 1, c.o.(imm := p[c.n]))
    else if op == 0x83 then Cur(c.n + 1, c.o.(imm := Clip(Wrap(Sle(p, c.n, 1)), size)))
    else Cur(c.n + 4, c.o.(imm := Clip(Wrap(Sle(p, c.n, 4)), size)))
  }

  function DecodeImmGroup(p: CodeWindow, n: nat, rex: byte, op: byte, size: Size, hasRex: bool): (r: Option<Cur>)
    requires n + 10 <= WINDOW
    ensures r.Some? ==> n <= r.value.n <= n + 10
  {
    var byteOp := op == 0x80 || op == 0xc6;
    var width: Size := if byteOp then 1 else size;
    var m := p[n];
    var ext := RegOf(m);
    if IsMovImm(op) && ext != 0 then None
    else if !IsMovImm(op) && (ext == 2 || ext == 3) then None
    else
      var c := Operand(p, n + 1, rex, m, InReg, ImmInsn(m, op, width, hasRex));
      Some(WithImm(p, c, op, width))
  }

  /** Operations between the accumulator and an immediate. */
  predicate IsAcc(op: byte) {
    (op < 0x40 && (op % 8 == 4 || op % 8 == 5) && op / 8 != 2 && op / 8 != 3) || op == 0xa8 || op == 0xa9
  }

  function AccAlu(op: byte): Alu { if op >= 0xa8 then ATest else RowAlu(op) }

  function DecodeAcc(p: CodeWindow, n: nat, op: byte, size: Size, hasRex: bool): (c: Cur)
    requires n + 4 <= WINDOW
    ensures n <= c.n <= n + 4
  {
    var alu := AccAlu(op);
    var o1 := Blank(size, hasRex).(kind := KRI, size := if op % 2 == 0 then 1 else size, reg := 0,
                                         op := alu, noWrite := NoWrite(alu));
    if o1.size == 1 then Cur(n + 1, o1.(imm := p[n]))
    else Cur(n + 4, o1.(imm := Clip(Wrap(Sle(p, n, 4)), o1.size)))
  }

  function DecodeMovImm(p: CodeWindow, n: nat, rex: byte, op: byte, size: Size, hasRex: bool): (c: Cur)
    requires n + 8 <= WINDOW
    ensures n <= c.n <= n + 8
  {
    var o1 := Blank(size, hasRex).(kind := KRI, reg := Wide(op % 8, RexB(rex)), op := AMov);
    ByteLimits(8);
    ByteLimits(4);
    if op < 0xb8 then Cur(n + 1, o1.(size := 1, imm := p[n]))
    else if size == 8 then Cur(n + 8, o1.(imm := Le(p, n, 8)))
    else Cur(n + 4, o1.(imm := Le(p, n, 4)))
  }

  predicate IsShift(op: byte) { op == 0xc0 || op == 0xc1 || 0xd0 <= op <= 0xd3 }

  function ShiftInsn(m: byte, op: byte, size: Size, hasRex: bool): Insn
    requires RegOf(m) >= 4
  {
    Blank(size, hasRex).(kind := KShift, size := if op % 2 == 0 then 1 else size, ext := RegOf(m))
  }

  function DecodeShift(p: CodeWindow, n: nat, rex: byte, op: byte, size: Size, hasRex: bool): (r: Option<Cur>)
    requires n + 7 <= WINDOW
    ensures r.Some? ==> n <= r.value.n <= n + 7
  {
    var m := p[n];
    if RegOf(m) < 4 then None
    else
      var c := Operand(p, n + 1, rex, m, InReg, ShiftInsn(m, op, size, hasRex));
      if op < 0xd0 then Some(Cur(c.n + 1, c.o.(imm := p[c.n])))
      else if op >= 0xd2 then Some(c.(o := c.o.(byCl := true)))
      else Some(c.(o := c.o.(imm := 1)))
  }

  function ImulInsn(m: byte, rex: byte, size: Size, hasRex: bool, imm: bool): Insn {
    Blank(size, hasRex).(kind := KImul, immSrc := imm, reg := RegField(m, rex))
  }

  function DecodeImulImm(p: CodeWindow, n: nat, rex: byte, op: byte, size: Size, hasRex: bool): (c: Cur)
    requires n + 10 <= WINDOW
    ensures n <= c.n <= n + 10
  {
    var m := p[n];
    var c := Operand(p, n + 1, rex, m, InSrc, ImulInsn(m, rex, size, hasRex, true));
    if op == 0x6b then Cur(c.n + 1, c.o.(imm := Wrap(Sle(p, c.n, 1))))
    else Cur(c.n + 4, c.o.(imm := Wrap(Sle(p, c.n, 4))))
  }

  function DecodeLea(p: CodeWindow, n: nat, rex: byte, size: Size, hasRex: bool): (r: Option<Cur>)
    requires n + 6 <= WINDOW
    ensures r.Some? ==> n <= r.value.n <= n + 6
  {
    var m := p[n];
    if ModOf(m) == 3 then None
    else
      var c := ModrmMem(p, n + 1, rex, m);
      Some(Cur(c.n, WithMem(Blank(size, hasRex).(kind := KLea, reg := RegField(m, rex)), c.a)))
  }

  /** push and pop; of the stack pointer itself they are left to the interpreter. */
  function DecodeStack(n: nat, rex: byte, op: byte, size: Size, hasRex: bool): (r: Option<Cur>)
    ensures r.Some? ==> r.value.n == n
  {
    var reg := Wide(op % 8, RexB(rex));
    if reg == RSP then None
    else Some(Cur(n, Blank(size, hasRex).(kind := if op < 0x58 then KPush else KPop, reg := reg)))
  }

  function Group5Insn(m: byte, op: byte, size: Size, hasRex: bool): Insn {
    var ext := RegOf(m);
    if ext == 0 || ext == 1 then
      Blank(size, hasRex).(kind := if ModOf(m) == 3 then KRI else KMI, size := if op == 0xfe then 1 else size,
                           imm := 1, op := if ext == 0 then AInc else ADec)
    else Blank(size, hasRex).(kind := if ext == 2 then KCallM else KJmpM)
  }

  /** inc, dec, and the indirect call and jump. */
  function DecodeGroup5(p: CodeWindow, n: nat, rex: byte, op: byte, size: Size, hasRex: bool): (r: Option<Cur>)
    requires n + 6 <= WINDOW
    ensures r.Some? ==> n <= r.value.n <= n + 6
  {
    var m := p[n];
    var ext := RegOf(m);
    if ext != 0 && ext != 1 && (op == 0xfe || (ext != 2 && ext != 4) || (ModOf(m) == 3 && RmField(m, rex) == RSP)) then
      None
    else Some(Operand(p, n + 1, rex, m, InReg, Group5Insn(m, op, size, hasRex)))
  }

  /** setcc, imul, movzx and movsx: a register or memory operand after a two-byte opcode. */
  predicate IsEither(op2: byte) {
    0x90 <= op2 <= 0x9f || op2 == 0xaf || op2 == 0xb6 || op2 == 0xb7 || op2 == 0xbe || op2 == 0xbf
  }

  function PlaceOf(op2: byte): Place { if op2 < 0xa0 then InReg else InSrc }

  function TwoInsn(op2: byte, m: byte, rex: byte, size: Size, hasRex: bool): Insn {
    if op2 == 0xaf then Blank(size, hasRex).(kind := KImul, reg := RegField(m, rex))
    else if op2 < 0xa0 then Blank(size, hasRex).(kind := KSetcc, size := 1, cc := op2 % 16)
    else Blank(size, hasRex).(kind := KMovx, ssize := if op2 % 2 == 1 then 2 else 1, sign := op2 >= 0xbe,
                              reg := RegField(m, rex))
  }

  /** The two-byte opcodes. Those of the SSE set are not part of this model: they end the block. */
  function DecodeTwo(p: CodeWindow, n: nat, rex: byte, mand: byte, size: Size, hasRex: bool): (r: Option<Cur>)
    requires n + 7 <= WINDOW
    ensures r.Some? ==> n <= r.value.n <= n + 7
  {
    var op2 := p[n];
    if 0x80 <= op2 <= 0x8f then
      if mand != 0 then None
      else Some(Cur(n + 5, Blank(size, hasRex).(kind := KJcc, cc := op2 % 16, imm := Wrap(Sle(p, n + 1, 4)))))
    else if IsEither(op2) then
      if mand != 0 then None
      else Some(Operand(p, n + 2, rex, p[n + 1], PlaceOf(op2), TwoInsn(op2, p[n + 1], rex, size, hasRex)))
    else if op2 == 0x1f then
      if mand != 0 && mand != 0x66 then None
      else
        var m := p[n + 1];
        if ModOf(m) == 3 then Some(Cur(n + 2, Blank(size, hasRex).(kind := KNop)))
        else Some(Cur(ModrmMem(p, n + 2, rex, m).n, Blank(size, hasRex).(kind := KNop)))
    else None
  }

  function DecodeJump(p: CodeWindow, n: nat, op: byte, size: Size, hasRex: bool): (c: Cur)
    requires n + 4 <= WINDOW
    ensures n <= c.n <= n + 4
  {
    if op == 0xc3 then Cur(n, Blank(size, hasRex).(kind := KRet))
    else if op == 0xe8 then Cur(n + 4, Blank(size, hasRex).(kind := KCall, imm := Wrap(Sle(p, n, 4))))
    else if op == 0xe9 then Cur(n + 4, Blank(size, hasRex).(kind := KJmp, imm := Wrap(Sle(p, n, 4))))
    else if op == 0xeb then Cur(n + 1, Blank(size, hasRex).(kind := KJmp, imm := Wrap(Sle(p, n, 1))))
    else Cur(n + 1, Blank(size, hasRex).(kind := KJcc, cc := op % 16, imm := Wrap(Sle(p, n, 1))))
  }

  predicate IsJump(op: byte) { 0x70 <= op <= 0x7f || op == 0xc3 || op == 0xe8 || op == 0xe9 || op == 0xeb }

  /** From the byte after the opcode on. */
  function Operation(p: CodeWindow, n: nat, rex: byte, mand: byte, op: byte, size: Size, hasRex: bool): (r: Option<Cur>)
    requires n + 10 <= WINDOW
    ensures r.Some? ==> n <= r.value.n <= n + (if op == 0x0f then 7 else 10)
  {
    if IsRow(op) then Some(DecodeRow(p, n, rex, op, size, hasRex))
    else if op == 0x80 || op == 0x81 || op == 0x83 || op == 0xc6 || op == 0xc7 then
      DecodeImmGroup(p, n, rex, op, size, hasRex)
    else if IsAcc(op) then Some(DecodeAcc(p, n, op, size, hasRex))
    else if 0xb0 <= op <= 0xbf then Some(DecodeMovImm(p, n, rex, op, size, hasRex))
    else if IsShift(op) then DecodeShift(p, n, rex, op, size, hasRex)
    else if op == 0x69 || op == 0x6b then Some(DecodeImulImm(p, n, rex, op, size, hasRex))
    else if op == 0x8d then DecodeLea(p, n, rex, size, hasRex)
    else if 0x50 <= op <= 0x5f then DecodeStack(n, rex, op, size, hasRex)
    else if op == 0x90 then if rex != 0 then None else Some(Cur(n, Blank(size, hasRex).(kind := KNop)))
    else if IsJump(op) then Some(DecodeJump(p, n, op, size, hasRex))
    else if op == 0x0f then DecodeTwo(p, n, rex, mand, size, hasRex)
    else if op == 0xfe || op == 0xff then DecodeGroup5(p, n, rex, op, size, hasRex)
    else None
  }

  /** The instruction with its length, what follows it, and where it goes. */
  function Finish(c: Cur, rip: u64): Insn {
    var next := Wrap(rip + c.n);
    c.o.(len := c.n, next := next,
         target := if c.o.kind.KJcc? || c.o.kind.KJmp? || c.o.kind.KCall? then Wrap(next + c.o.imm) else 0)
  }

  predicate IsMand(b: byte) { b == 0x66 || b == 0xf2 || b == 0xf3 }

  predicate IsRex(b: byte) { b / 16 == 4 }

  /** What precedes the opcode, and where the opcode is. */
  datatype Head = Head(n: nat, mand: byte, rex: byte, hasRex: bool)

  function HeadOf(p: CodeWindow): (h: Head)
    ensures h.n <= 2 && (h.mand == 0 ==> h.n <= 1)
  {
    var n0 := if IsMand(p[0]) then 1 else 0;
    Head(if IsRex(p[n0]) then n0 + 1 else n0, if IsMand(p[0]) then p[0] else 0, if IsRex(p[n0]) then p[n0] else 0,
        IsRex(p[n0]))
  }

  /** The instruction at the start of the window, or None for what is left to the interpreter. It takes at
      most twelve bytes, so nothing past the window is looked at. */
  function Decode(p: CodeWindow, rip: u64): (r: Option<Insn>)
    ensures r.Some? ==> 1 <= r.value.len <= 12 && r.value.next == Wrap(rip + r.value.len)
  {
    var h := HeadOf(p);
    var op := p[h.n];
    if h.mand != 0 && op != 0x0f then None
    else
      match Operation(p, h.n + 1, h.rex, h.mand, op, if RexW(h.rex) then 8 else 4, h.hasRex)
      case None => None
      case Some(c) => Some(Finish(c, rip))
  }

  // --- what decoding guarantees -----------------------------------------------------------------

  lemma RowWellFormed(p: CodeWindow, n: nat, rex: byte, op: byte, size: Size, hasRex: bool)
    requires n + 6 <= WINDOW && IsRow(op) && size != 2
    ensures WellFormed(DecodeRow(p, n, rex, op, size, hasRex).o)
  {
    hide ModrmMem, ModOf, RmField, RegField, RowAlu;
    NotIncDec(op);
  }

  lemma NotIncDec(op: byte)
    ensures !RowAlu(op).AInc? && !RowAlu(op).ADec? && !AccAlu(op).AInc? && !AccAlu(op).ADec?
  {
  }

  /** The kinds whose operand may be either a register or memory. */
  predicate Either(o: Insn) { o.kind.KShift? || o.kind.KImul? || o.kind.KSetcc? || o.kind.KMovx? }

  lemma EitherOperand(p: CodeWindow, n: nat, rex: byte, m: byte, place: Place, o: Insn)
    requires n + 5 <= WINDOW && Either(o) && WellFormed(o)
    ensures var o' := Operand(p, n, rex, m, place, o).o;
      WellFormed(o') && o'.kind == o.kind && o'.size == o.size
  {
    hide ModrmMem, ModOf, RmField, WellFormed, WithMem;
    EitherReg(o, RmField(m, rex));
    EitherMem(o, ModrmMem(p, n, rex, m).a);
  }

  /** All that these kinds need. */
  lemma EitherIs(o: Insn)
    requires Either(o)
    ensures WellFormed(o)
      <==> && o.size != 2 && -0x8000_0000 <= o.disp < 0x8000_0000
           && (o.kind.KSetcc? ==> o.size == 1)
           && (o.kind.KMovx? ==> o.ssize == 1 || o.ssize == 2)
           && (o.kind.KImul? || o.kind.KMovx? ==> o.size != 1)
  {
  }

  lemma EitherReg(o: Insn, r: Reg)
    requires Either(o) && WellFormed(o)
    ensures WellFormed(o.(reg := r)) && WellFormed(o.(src := r))
  {
    hide WellFormed;
    EitherIs(o);
    EitherIs(o.(reg := r));
    EitherIs(o.(src := r));
  }

  lemma EitherMem(o: Insn, a: MemRef)
    requires Either(o) && WellFormed(o)
    ensures WellFormed(WithMem(o, a)) && WithMem(o, a).kind == o.kind && WithMem(o, a).size == o.size
  {
  }

  /** The immediate and the count's source are no part of what the kinds above need. */
  lemma EitherImm(o: Insn, imm: u64, byCl: bool)
    requires Either(o) && WellFormed(o)
    ensures WellFormed(o.(imm := imm)) && WellFormed(o.(byCl := byCl))
  {
    hide WellFormed;
    EitherIs(o);
    EitherIs(o.(imm := imm));
    EitherIs(o.(byCl := byCl));
  }

  /** An operation on a register or memory with an immediate. */
  lemma ImmOperand(p: CodeWindow, n: nat, rex: byte, m: byte, o: Insn)
    requires n + 5 <= WINDOW && o.kind == (if ModOf(m) == 3 then KRI else KMI) && o.size != 2 && !o.mem && o.disp == 0
    requires o.noWrite == NoWrite(o.op) && (o.op.AInc? || o.op.ADec? ==> o.imm == 1)
    ensures var o' := Operand(p, n, rex, m, InReg, o).o; WellFormed(o') && o'.op == o.op && IsAlu(o'.kind)
  {
    hide ModrmMem, ModOf, RmField;
  }

  lemma ImmSet(o: Insn, imm: u64)
    requires WellFormed(o) && IsAlu(o.kind) && !o.op.AInc? && !o.op.ADec?
    ensures WellFormed(o.(imm := imm))
  {
  }

  lemma ImmGroupWellFormed(p: CodeWindow, n: nat, rex: byte, op: byte, size: Size, hasRex: bool)
    requires n + 10 <= WINDOW && size != 2
    ensures var r := DecodeImmGroup(p, n, rex, op, size, hasRex); r.Some? ==> WellFormed(r.value.o)
  {
    hide Operand, ModOf, RegOf, Sle, Clip, WellFormed, ImmInsn;
    var r := DecodeImmGroup(p, n, rex, op, size, hasRex);
    if r.Some? {
      var width: Size := if op == 0x80 || op == 0xc6 then 1 else size;
      ImmInsnFits(p[n], op, width, hasRex);
      ImmOperand(p, n + 1, rex, p[n], ImmInsn(p[n], op, width, hasRex));
      ImmSet(Operand(p, n + 1, rex, p[n], InReg, ImmInsn(p[n], op, width, hasRex)).o, r.value.o.imm);
    }
  }

  lemma ImmInsnFits(m: byte, op: byte, width: Size, hasRex: bool)
    requires width != 2 && (IsMovImm(op) || (RegOf(m) != 2 && RegOf(m) != 3))
    ensures var o := ImmInsn(m, op, width, hasRex);
      o.kind == (if ModOf(m) == 3 then KRI else KMI) && o.size != 2 && !o.mem && o.disp == 0
          && o.noWrite == NoWrite(o.op)
      && !o.op.AInc? && !o.op.ADec?
  {
    hide ModOf, RegOf;
    RegOfRange(m);
  }

  lemma RegOfRange(m: byte)
    ensures 0 <= RegOf(m) < 8
  {
  }

  lemma AccWellFormed(p: CodeWindow, n: nat, rex: byte, op: byte, size: Size, hasRex: bool)
    requires n + 10 <= WINDOW && size != 2
    ensures WellFormed(DecodeAcc(p, n, op, size, hasRex).o)
  {
    hide Sle, Clip, AccAlu;
    NotIncDec(op);
  }

  lemma MovImmWellFormed(p: CodeWindow, n: nat, rex: byte, op: byte, size: Size, hasRex: bool)
    requires n + 10 <= WINDOW && size != 2
    ensures WellFormed(DecodeMovImm(p, n, rex, op, size, hasRex).o)
  {
    hide Le, Wide;
  }

  lemma JumpWellFormed(p: CodeWindow, n: nat, op: byte, size: Size, hasRex: bool)
    requires n + 10 <= WINDOW && size != 2
    ensures WellFormed(DecodeJump(p, n, op, size, hasRex).o) && WellFormed(Blank(size, hasRex))
  {
    hide Sle, Wide;
  }

  lemma StackWellFormed(n: nat, rex: byte, op: byte, size: Size, hasRex: bool)
    requires size != 2
    ensures DecodeStack(n, rex, op, size, hasRex).Some? ==> WellFormed(DecodeStack(n, rex, op, size, hasRex).value.o)
  {
    hide Sle, Wide;
  }

  lemma ShiftWellFormed(p: CodeWindow, n: nat, rex: byte, op: byte, size: Size, hasRex: bool)
    requires n + 7 <= WINDOW && size != 2
    ensures var r := DecodeShift(p, n, rex, op, size, hasRex); r.Some? ==> WellFormed(r.value.o)
  {
    hide Operand, RegOf, WellFormed;
    RegOfRange(p[n]);
    if RegOf(p[n]) >= 4 {
      var o1 := ShiftInsn(p[n], op, size, hasRex);
      EitherFresh(o1);
      EitherOperand(p, n + 1, rex, p[n], InReg, o1);
      var c := Operand(p, n + 1, rex, p[n], InReg, o1);
      var r := DecodeShift(p, n, rex, op, size, hasRex);
      EitherImm(c.o, r.value.o.imm, true);
    }
  }

  lemma EitherFresh(o: Insn)
    requires Either(o) && o.size != 2 && o.disp == 0 && (o.kind.KSetcc? ==> o.size == 1)
        && (o.kind.KMovx? ==> o.ssize <= 2)
    requires (o.kind.KImul? || o.kind.KMovx?) ==> o.size != 1
    ensures WellFormed(o)
  {
    hide WellFormed;
    EitherIs(o);
  }

  lemma WideWellFormed(p: CodeWindow, n: nat, rex: byte, op: byte, size: Size, hasRex: bool)
    requires n + 10 <= WINDOW && (size == 4 || size == 8)
    ensures WellFormed(DecodeImulImm(p, n, rex, op, size, hasRex).o)
    ensures var r := DecodeLea(p, n, rex, size, hasRex); r.Some? ==> WellFormed(r.value.o)
  {
    hide ModrmMem, ModOf, RegField, RmField, Sle;
  }

  lemma TwoWellFormed(p: CodeWindow, n: nat, rex: byte, mand: byte, size: Size, hasRex: bool)
    requires n + 7 <= WINDOW && (size == 4 || size == 8)
    ensures var r := DecodeTwo(p, n, rex, mand, size, hasRex); r.Some? ==> WellFormed(r.value.o)
  {
    hide Operand, ModrmMem, ModOf, RegField, Sle, WellFormed;
    var op2, m := p[n], p[n + 1];
    var mul := Blank(size, hasRex).(kind := KImul, reg := RegField(m, rex));
    EitherFresh(mul);
    EitherOperand(p, n + 2, rex, m, InSrc, mul);
    var set_ := Blank(size, hasRex).(kind := KSetcc, size := 1, cc := op2 % 16);
    EitherFresh(set_);
    EitherOperand(p, n + 2, rex, m, InReg, set_);
    var mov := Blank(size, hasRex).(kind := KMovx, ssize := if op2 % 2 == 1 then 2 else 1, sign := op2 >= 0xbe,
                                    reg := RegField(m, rex));
    EitherFresh(mov);
    EitherOperand(p, n + 2, rex, m, InSrc, mov);
    JccWellFormed(size, hasRex, op2 % 16, Wrap(Sle(p, n + 1, 4)));
  }

  lemma JccWellFormed(size: Size, hasRex: bool, cc: CondCode, imm: u64)
    requires size != 2
    ensures WellFormed(Blank(size, hasRex).(kind := KJcc, cc := cc, imm := imm))
    ensures WellFormed(Blank(size, hasRex).(kind := KNop))
  {
  }

  lemma Group5WellFormed(p: CodeWindow, n: nat, rex: byte, op: byte, size: Size, hasRex: bool)
    requires n + 6 <= WINDOW && (size == 4 || size == 8)
    ensures var r := DecodeGroup5(p, n, rex, op, size, hasRex); r.Some? ==> WellFormed(r.value.o)
  {
    hide Operand, ModOf, RegOf, RmField, WellFormed;
    var m, ext := p[n], RegOf(p[n]);
    if ext == 0 || ext == 1 {
      ImmOperand(p, n + 1, rex, m, Blank(size, hasRex).(kind := if ModOf(m) == 3 then KRI else KMI,
        size := if op == 0xfe then 1 else size, imm := 1, op := if ext == 0 then AInc else ADec));
    } else if !(ModOf(m) == 3 && RmField(m, rex) == RSP) {
      IndirectWellFormed(p, n + 1, rex, m, size, hasRex, ext == 2);
    }
  }

  lemma IndirectWellFormed(p: CodeWindow, n: nat, rex: byte, m: byte, size: Size, hasRex: bool, call: bool)
    requires n + 5 <= WINDOW && (size == 4 || size == 8) && !(ModOf(m) == 3 && RmField(m, rex) == RSP)
    ensures WellFormed(Operand(p, n, rex, m, InReg, Blank(size, hasRex).(kind := if call then KCallM else KJmpM)).o)
  {
    hide ModrmMem, ModOf, RmField;
  }

  lemma OperationWellFormed(p: CodeWindow, n: nat, rex: byte, mand: byte, op: byte, size: Size, hasRex: bool)
    requires n + 10 <= WINDOW && (size == 4 || size == 8)
    ensures var r := Operation(p, n, rex, mand, op, size, hasRex); r.Some? ==> WellFormed(r.value.o)
  {
    hide DecodeRow, DecodeImmGroup, DecodeAcc, DecodeMovImm, DecodeShift, DecodeImulImm, DecodeLea, DecodeStack,
         DecodeJump, DecodeTwo, DecodeGroup5, IsRow, IsAcc, IsShift, IsJump, WellFormed;
    if IsRow(op) { RowWellFormed(p, n, rex, op, size, hasRex); }
    ImmGroupWellFormed(p, n, rex, op, size, hasRex);
    AccWellFormed(p, n, rex, op, size, hasRex);
    MovImmWellFormed(p, n, rex, op, size, hasRex);
    JumpWellFormed(p, n, op, size, hasRex);
    StackWellFormed(n, rex, op, size, hasRex);
    JccWellFormed(size, hasRex, 0, 0);
    ShiftWellFormed(p, n, rex, op, size, hasRex);
    WideWellFormed(p, n, rex, op, size, hasRex);
    TwoWellFormed(p, n, rex, mand, size, hasRex);
    Group5WellFormed(p, n, rex, op, size, hasRex);
  }

  /** Whatever the decoder accepts is an instruction the compiler can handle. */
  lemma DecodeWellFormed(p: CodeWindow, rip: u64)
    ensures Decode(p, rip).Some? ==> WellFormed(Decode(p, rip).value)
  {
    hide Operation;
    var h := HeadOf(p);
    OperationWellFormed(p, h.n + 1, h.rex, h.mand, p[h.n], if RexW(h.rex) then 8 else 4, h.hasRex);
  }
}
