/** Decoded guest instructions and what each one does to the guest. */
module Insns {
  import opened Words
  import opened StatusFlags
  import opened Regions
  import opened GuestState

  datatype Kind =
    | KRR | KRI | KRM | KMR | KMI | KLea | KPush | KPop | KNop
    | KMovx | KShift | KImul | KSetcc
    | KJcc | KJmp | KCall | KRet | KCallM | KJmpM

  datatype Alu = AAdd | AOr | AAnd | ASub | AXor | ACmp | ATest | AMov | AInc | ADec

  type Reg = x: int | 0 <= x < 16

  type Scale = x: int | 0 <= x < 4

  datatype Insn = Insn(
    kind: Kind, op: Alu, size: Size, len: nat,
    reg: Reg, src: Reg,
    mem: bool, hasBase: bool, hasIndex: bool, riprel: bool,
    base: Reg, index: Reg, scale: Scale, disp: int,
    imm: u64, noWrite: bool, hasRex: bool,
    ssize: Size, sign: bool, ext: ShiftExt, byCl: bool, immSrc: bool, cc: CondCode,
    next: u64, target: u64)

  predicate Terminates(kind: Kind) {
    kind.KJcc? || kind.KJmp? || kind.KCall? || kind.KRet? || kind.KCallM? || kind.KJmpM?
  }

  predicate IsAlu(kind: Kind) { kind.KRR? || kind.KRI? || kind.KRM? || kind.KMR? || kind.KMI? }

  /** What the decoder guarantees of an instruction it accepts. */
  predicate WellFormed(o: Insn) {
    && o.size != 2
    && (IsAlu(o.kind) ==> o.noWrite == (o.op.ACmp? || o.op.ATest?))
    && (IsAlu(o.kind) && (o.op.AInc? || o.op.ADec?) ==> (o.kind.KRI? || o.kind.KMI?) && o.imm == 1)
    && ((o.kind.KRR? || o.kind.KRI?) ==> !o.mem)
    && ((o.kind.KRM? || o.kind.KMR? || o.kind.KMI? || o.kind.KLea?) ==> o.mem)
    && ((o.kind.KPush? || o.kind.KPop?) ==> o.reg != RSP)
    && ((o.kind.KCallM? || o.kind.KJmpM?) && !o.mem ==> o.reg != RSP)
    && (o.kind.KMovx? ==> o.ssize == 1 || o.ssize == 2)
    && (o.kind.KSetcc? ==> o.size == 1)
    && ((o.kind.KLea? || o.kind.KImul? || o.kind.KMovx? || o.kind.KCallM? || o.kind.KJmpM?) ==> o.size != 1)
    && -0x8000_0000 <= o.disp < 0x8000_0000
  }

  function Scaled(v: u64, scale: Scale): int {
    if scale == 0 then v else if scale == 1 then 2 * v else if scale == 2 then 4 * v else 8 * v
  }

  /** The effective address of the memory operand. */
  function Address(o: Insn, r: RegFile): u64 {
    if o.riprel then Wrap(o.next + o.disp)
    else Wrap((if o.hasBase then Get(r, o.base) else 0)
              + (if o.hasIndex then Scaled(Get(r, o.index), o.scale) else 0) + o.disp)
  }

  function AluResult(op: Alu, a: u64, b: u64): u64 {
    match op
    case AAdd => Wrap(a + b)
    case AInc => Wrap(a + b)
    case ASub => Wrap(a - b)
    case ACmp => Wrap(a - b)
    case ADec => Wrap(a - b)
    case AOr => Bits(Or, a, b)
    case AXor => Bits(Xor, a, b)
    case AAnd => Bits(And, a, b)
    case ATest => Bits(And, a, b)
    case AMov => b
  }

  function AluFlags(f: Flags, op: Alu, a: u64, b: u64, r: u64, size: Size): Flags {
    match op
    case AAdd => FlagsAdd(f, a, b, r, size)
    case ASub => FlagsSub(f, a, b, r, size)
    case ACmp => FlagsSub(f, a, b, r, size)
    case AInc => FlagsInc(f, a, r, size)
    case ADec => FlagsDec(f, a, r, size)
    case AMov => f
    case _ => FlagsLogic(f, r, size)
  }

  /** The shift count after masking. */
  function ShiftCount(o: Insn, r: RegFile): int {
    var c := if o.byCl then Get(r, RCX) else o.imm;
    if o.size == 8 then c % 64 else c % 32
  }

  datatype Res = Done(g: Guest, rip: u64) | Fault

  function Store2(regs: seq<Region>, g: Guest, a: u64, v: u64, size: Size, rip: u64): Res {
    match St(regs, g, a, v, size)
    case Some(g') => Done(g', rip)
    case None => Fault
  }

  function Push(regs: seq<Region>, g: Guest, v: u64): Option<Guest> {
    var sp := Wrap(Get(g.r, RSP) - 8);
    St(regs, g.(r := g.r[RSP := sp]), sp, v, 8)
  }

  function PopSp(g: Guest): Guest { g.(r := g.r[RSP := Wrap(Get(g.r, RSP) + 8)]) }

  /** An operation on two operand values: the flags to keep, then the destination if there is one. */
  function AluStep(o: Insn, a: u64, b: u64, keep: FlagSet, g: Guest): (u64, Guest) {
    var r := AluResult(o.op, a, b);
    (r, g.(flags := Select(g.flags, AluFlags(g.flags, o.op, a, b, r, o.size), keep)))
  }

  /** The effect of one instruction, setting only the flags in `keep`. With `strict`, memory is also
      read where the interpreter reads it and throws the value away. */
  function Meaning(regs: seq<Region>, o: Insn, keep: FlagSet, strict: bool, g: Guest): Res {
    var ea := Address(o, g.r);
    match o.kind
    case KNop => Done(g, o.next)
    case KRR =>
      var (r, g1) := AluStep(o, RegOperand(g, o.reg, o.size, o.hasRex), RegOperand(g, o.src, o.size, o.hasRex), keep,
          g);
      Done(if o.noWrite then g1 else SetOperand(g1, o.reg, r, o.size, o.hasRex), o.next)
    case KRI =>
      var (r, g1) := AluStep(o, RegOperand(g, o.reg, o.size, o.hasRex), o.imm, keep, g);
      Done(if o.noWrite then g1 else SetOperand(g1, o.reg, r, o.size, o.hasRex), o.next)
    case KRM =>
      (match Ld(regs, g, ea, o.size)
       case None => Fault
       case Some(b) =>
         var (r, g1) := AluStep(o, RegOperand(g, o.reg, o.size, o.hasRex), b, keep, g);
         Done(if o.noWrite then g1 else SetOperand(g1, o.reg, r, o.size, o.hasRex), o.next))
    case KMR => MeaningRmw(regs, o, ea, RegOperand(g, o.reg, o.size, o.hasRex), keep, strict, g)
    case KMI => MeaningRmw(regs, o, ea, o.imm, keep, false, g)
    case KLea => Done(SetReg(g, o.reg, ea, o.size), o.next)
    case KShift => MeaningShift(regs, o, ea, keep, g)
    case KImul => MeaningImul(regs, o, ea, keep, g)
    case KMovx => MeaningMovx(regs, o, ea, g)
    case KSetcc =>
      var v := if Cond(g.flags, o.cc) then 1 else 0;
      if o.mem then Store2(regs, g, ea, v, 1, o.next)
      else Done(SetReg8(g, o.reg, v, o.hasRex), o.next)
    case KPush =>
      (match Push(regs, g, Get(g.r, o.reg))
       case None => Fault
       case Some(g1) => Done(g1, o.next))
    case KPop =>
      (match Ld(regs, g, Get(g.r, RSP), 8)
       case None => Fault
       case Some(v) => var g1 := PopSp(g); Done(g1.(r := g1.r[o.reg := v]), o.next))
    case KJcc => Done(g, if Cond(g.flags, o.cc) then o.target else o.next)
    case KJmp => Done(g, o.target)
    case KCall =>
      (match Push(regs, g, o.next)
       case None => Fault
       case Some(g1) => Done(g1, o.target))
    case KRet =>
      (match Ld(regs, g, Get(g.r, RSP), 8)
       case None => Fault
       case Some(v) => Done(PopSp(g), v))
    case KCallM => MeaningCallM(regs, o, ea, strict, g)
    case KJmpM =>
      if strict && o.mem && Ld(regs, g, ea, o.size).None? then Fault
      else Jump(regs, o, ea, g)
  }

  /** [mem] = [mem] op b. A plain mov needs no read, though the interpreter makes one. */
  function MeaningRmw(regs: seq<Region>, o: Insn, ea: u64, b: u64, keep: FlagSet, strict: bool, g: Guest): Res {
    if o.op.AMov? then
      if strict && Ld(regs, g, ea, o.size).None? then Fault else Store2(regs, g, ea, b, o.size, o.next)
    else
      match Ld(regs, g, ea, o.size)
      case None => Fault
      case Some(a) =>
        var (r, g1) := AluStep(o, a, b, keep, g);
        if o.noWrite then Done(g1, o.next) else Store2(regs, g1, ea, r, o.size, o.next)
  }

  /** A count of zero changes nothing and leaves even a memory operand unread. */
  function MeaningShift(regs: seq<Region>, o: Insn, ea: u64, keep: FlagSet, g: Guest): Res {
    var cnt := ShiftCount(o, g.r);
    if cnt == 0 then Done(g, o.next)
    else
      match (if o.mem then Ld(regs, g, ea, o.size) else Some(RegOperand(g, o.reg, o.size, o.hasRex)))
      case None => Fault
      case Some(a) =>
        var s := ShiftCalc(a, cnt, o.size, o.ext);
        var g1 := g.(flags := Select(g.flags, ShiftFlags(g.flags, s, o.size), keep));
        if o.mem then Store2(regs, g1, ea, s.res, o.size, o.next)
        else Done(SetOperand(g1, o.reg, s.res, o.size, o.hasRex), o.next)
  }

  function MeaningImul(regs: seq<Region>, o: Insn, ea: u64, keep: FlagSet, g: Guest): Res {
    match (if o.mem then Ld(regs, g, ea, o.size) else Some(Trunc(Get(g.r, o.src), o.size)))
    case None => Fault
    case Some(a) =>
      var b := if o.immSrc then o.imm else Get(g.r, o.reg);
      var r := Wrap(Signed(a, o.size) * Signed(b, o.size));
      var g1 := g.(flags := Select(g.flags, FlagsLogic(g.flags, r, o.size), keep));
      Done(SetReg(g1, o.reg, r, o.size), o.next)
  }

  function MeaningMovx(regs: seq<Region>, o: Insn, ea: u64, g: Guest): Res {
    match (if o.mem then Ld(regs, g, ea, o.ssize) else Some(RegOperand(g, o.src, o.ssize, o.hasRex)))
    case None => Fault
    case Some(v) => Done(SetReg(g, o.reg, if o.sign then Sext(v, o.ssize) else v, o.size), o.next)
  }

  function Jump(regs: seq<Region>, o: Insn, ea: u64, g: Guest): Res {
    if !o.mem then Done(g, Get(g.r, o.reg))
    else
      match Ld(regs, g, ea, 8)
      case None => Fault
      case Some(t) => Done(g, t)
  }

  /** An address that uses the stack pointer is the one before the push; the target is read after it. */
  function MeaningCallM(regs: seq<Region>, o: Insn, ea: u64, strict: bool, g: Guest): Res {
    if strict && o.mem && Ld(regs, g, ea, o.size).None? then Fault
    else
      match Push(regs, g, o.next)
      case None => Fault
      case Some(g1) => Jump(regs, o, ea, g1)
  }
}
