/** The words the block compiler emits for each piece of an instruction. */
module CodeGen {
  import opened Words
  import opened StatusFlags
  import opened GuestState
  import opened Insns
  import opened A64

  /** movz and up to three movk; the pieces above the highest set one are not needed. */
  function PutImm(reg: int, v: u64): seq<Instr> {
    [Set(reg, MovZ(v % 0x1_0000, 0))]
    + (if v / 0x1_0000 != 0 then [Set(reg, MovK(v / 0x1_0000 % 0x1_0000, 1))] else [])
    + (if v / 0x1_0000_0000 != 0 then [Set(reg, MovK(v / 0x1_0000_0000 % 0x1_0000, 2))] else [])
    + (if v / 0x1_0000_0000_0000 != 0 then [Set(reg, MovK(v / 0x1_0000_0000_0000, 3))] else [])
  }

  function PutCall(fn: u64): seq<Instr> { PutImm(9, fn) + [Blr(9)] }

  function PutSetRip(rip: u64): seq<Instr> { PutImm(9, rip) + [Str(8, 9, CPU, OFF_CURRIP)] }

  /** Leave the block if a helper stopped the cpu; the branch is pointed at the fault exit later. */
  function PutFaultCheck(): seq<Instr> { [Ldr(1, 9, CPU, OFF_RUNNING), CbzW(9, 0)] }

  function PutLeave(): seq<Instr> { [PopX(LR), Ret] }

  function OffR(r: int): int { 8 * r }

  function OffTmp(i: int): int { OFF_TMP + 8 * i }

  /** Leaves in x0 whether the even one of the two conditions holds, and then compares x0 with zero. */
  function CondBits(cc: CondCode): seq<Instr> {
    match cc / 2
    case 0 => [Set(0, Ubfx(9, 11, 1))]
    case 1 => [Set(0, Ubfx(9, 0, 1))]
    case 2 => [Set(0, Ubfx(9, 6, 1))]
    case 3 => [Set(0, Ubfx(9, 0, 1)), Set(10, Ubfx(9, 6, 1)), Set(0, Arith(OpOrr, false, 0, 10))]
    case 4 => [Set(0, Ubfx(9, 7, 1))]
    case 5 => [Set(0, Ubfx(9, 2, 1))]
    case 6 => [Set(0, Ubfx(9, 7, 1)), Set(10, Ubfx(9, 11, 1)), Set(0, Arith(OpEor, false, 0, 10))]
    case _ => [Set(0, Ubfx(9, 7, 1)), Set(10, Ubfx(9, 11, 1)), Set(0, Arith(OpEor, false, 0, 10)),
               Set(10, Ubfx(9, 6, 1)), Set(0, Arith(OpOrr, false, 0, 10))]
  }

  function PutCondEven(cc: CondCode): seq<Instr> {
    [Ldr(4, 9, CPU, OFF_FLAGS)] + CondBits(cc) + [Cmp0(0)]
  }

  function PutRdReg(dst: int, o: Insn, reg: Reg, size: Size): seq<Instr> {
    if size == 1 && HighByte(reg, o.hasRex) then [Ldr(8, dst, CPU, OffR(reg - 4)), Set(dst, Ubfx(dst, 8, 8))]
    else [Ldr(8, dst, CPU, OffR(reg))]
  }

  function PutWrReg(src: int, o: Insn, reg: Reg, size: Size): seq<Instr> {
    if size == 1 then
      if HighByte(reg, o.hasRex) then
        [Ldr(8, 9, CPU, OffR(reg - 4)), Set(9, Bfi(src, 8, 8)), Str(8, 9, CPU, OffR(reg - 4))]
      else [Str(1, src, CPU, OffR(reg))]
    else [Str(8, src, CPU, OffR(reg))]
  }

  function PutDisp(disp: int): seq<Instr> {
    if 0 < disp < 4096 then [Set(1, AddImm(1, disp))]
    else if -4096 < disp < 0 then [Set(1, SubImm(1, -disp))]
    else if disp != 0 then PutImm(6, Wrap(disp)) + [Set(1, Arith(OpAdd, false, 1, 6))]
    else []
  }

  /** The effective address into x1. */
  function PutEa(o: Insn): seq<Instr> {
    if o.riprel then PutImm(1, Wrap(o.next + o.disp))
    else if !o.hasBase && !o.hasIndex then PutImm(1, Wrap(o.disp))
    else
      (if o.hasBase then [Ldr(8, 1, CPU, OffR(o.base))] else [Set(1, MovZ(0, 0))])
      + (if o.hasIndex then [Ldr(8, 6, CPU, OffR(o.index)), Set(1, AddLsl(1, 6, o.scale))] else [])
      + PutDisp(o.disp)
  }

  /** x3 = x1 op x2. */
  function PutOp(o: Insn): Instr {
    var w := o.size != 8;
    match o.op
    case AMov => Set(3, Arith(OpOrr, w, ZR, 2))
    case AAdd => Set(3, Arith(OpAdd, w, 1, 2))
    case AInc => Set(3, Arith(OpAdd, w, 1, 2))
    case ASub => Set(3, Arith(OpSub, w, 1, 2))
    case ACmp => Set(3, Arith(OpSub, w, 1, 2))
    case ADec => Set(3, Arith(OpSub, w, 1, 2))
    case AAnd => Set(3, Arith(OpAnd, w, 1, 2))
    case ATest => Set(3, Arith(OpAnd, w, 1, 2))
    case AOr => Set(3, Arith(OpOrr, w, 1, 2))
    case AXor => Set(3, Arith(OpEor, w, 1, 2))
  }

  /** The flag routine an operation needs, if any. */
  function FlagHelper(op: Alu): Option<Helper> {
    match op
    case AMov => None
    case AAdd => Some(HAdd)
    case ASub => Some(HSub)
    case ACmp => Some(HSub)
    case AInc => Some(HInc)
    case ADec => Some(HDec)
    case _ => Some(HLogic)
  }

  // --- flags computed in line --------------------------------------------------------

  function When(b: bool, code: seq<Instr>): seq<Instr> { if b then code else [] }

  /** The operation once more, for the sake of NZCV. */
  function Repeat(fn: Helper, w: bool): Instr {
    if fn.HAdd? || fn.HInc? then SetFlagsZr(FAdds, w, 1, 2)
    else if fn.HSub? || fn.HDec? then SetFlagsZr(FSubs, w, 1, 2)
    else SetFlagsZr(FAnds, w, 3, 3)
  }

  /** x10 gains flag bit `bit` when cond holds. */
  function Gather(c: int, bit: int): seq<Instr> { [Set(11, Cset(c)), Set(10, OrrLsl(10, 11, bit))] }

  function ParityCode(): seq<Instr> {
    [Set(11, EorLsr(3, 3, 4)), Set(11, EorLsr(11, 11, 2)), Set(11, EorLsr(11, 11, 1))]
    + [Set(11, Ubfx(11, 0, 1)), Set(11, EorBit(11, 0)), Set(10, OrrLsl(10, 11, 2))]
  }

  function NibbleCode(): seq<Instr> {
    [Set(11, Arith(OpEor, false, 1, 2)), Set(11, Arith(OpEor, false, 11, 3))] + [Set(11, Ubfx(11, 4, 1)),
        Set(10, OrrLsl(10, 11, 4))]
  }

  function MergeCode(need: FlagSet): seq<Instr> {
    [Ldr(4, 9, CPU, OFF_FLAGS)] + PutImm(12, need.Mask())
    + [Set(9, Arith(OpBic, false, 9, 12)), Set(9, Arith(OpOrr, false, 9, 10)), Str(4, 9, CPU, OFF_FLAGS)]
  }

  /** The condition on which CF is set: the carry is inverted after a subtraction. */
  function CarryCond(fn: Helper): int { if fn.HSub? || fn.HDec? then CC else CS }

  /** After and, or and xor neither CF nor OF is gathered, so that they come out as zero. */
  function GatherCode(fn: Helper, need: FlagSet): seq<Instr> {
    When(need.cf && !fn.HLogic?, Gather(CarryCond(fn), 0)) + When(need.zf, Gather(EQ, 6))
    + When(need.sf, Gather(MI, 7)) + When(need.of && !fn.HLogic?, Gather(VS, 11))
  }

  function FinishCode(need: FlagSet): seq<Instr> {
    When(need.pf, ParityCode()) + When(need.af, NibbleCode()) + MergeCode(need)
  }

  function PutFlagsInline(fn: Helper, need: FlagSet, w: bool): seq<Instr> {
    When(need.cf || need.zf || need.sf || need.of, [Repeat(fn, w)]) + [Set(10, MovZ(0, 0))]
    + GatherCode(fn, need) + FinishCode(need)
  }

  /** In line at every size but one byte, where the routine itself is called. */
  function PutFlags(host: Host, fn: Option<Helper>, need: FlagSet, size: Size): seq<Instr> {
    if fn.None? || need.Empty() then []
    else if size != 1 then PutFlagsInline(fn.value, need, size == 4)
    else
      [Mov(0, CPU)] + FlagArgs(fn.value, size) + PutCall(host.At(fn.value))
  }

  function FlagArgs(fn: Helper, size: Size): seq<Instr> {
    if fn.HLogic? then [Mov(1, 3)] + PutImm(2, size)
    else if fn.HInc? || fn.HDec? then [Mov(2, 3)] + PutImm(3, size)
    else PutImm(4, size)
  }

  // --- memory ----------------------------------------------------------------------------

  /** One entry of the hit cache against the address in x1: carry clear means inside. */
  function CheckEntry(e: int): seq<Instr> {
    [Ldr(8, 10, 9, e), Ldr(8, 11, 9, e + 8), Set(12, Arith(OpSub, false, 1, 10)), SetFlagsZr(FSubs, false, 12, 11)]
  }

  /** The in-line check of both entries, the fast access, and the call otherwise. */
  function PutAccess(e: int, fast: seq<Instr>, slow: seq<Instr>): seq<Instr> {
    [Ldr(8, 9, CPU, OFF_AS)] + CheckEntry(e) + [BCond(CC, 6)]
    + (CheckEntry(e + 16) + [BCond(CS, |fast| + 2)])
    + (fast + [B(|slow| + 1)])
    + slow
  }

  function LoadFast(size: Size): Instr {
    Ldr(size, 0, 1, 0)
  }

  function LoadSlow(host: Host, size: Size): seq<Instr> {
    [Mov(0, CPU)] + PutImm(2, size) + PutCall(host.ld) + PutFaultCheck()
  }

  /** x1 = address; x0 = value. */
  function PutLoad(host: Host, size: Size): seq<Instr> {
    PutAccess(OFF_RD, [LoadFast(size)], LoadSlow(host, size))
  }

  function StoreFast(size: Size): Instr {
    Str(size, 2, 1, 0)
  }

  /** Under checking, an in-line store is logged before it is made. */
  function StoreLogged(host: Host, size: Size): seq<Instr> {
    [Str(8, 1, CPU, OffTmp(6)), Str(8, 2, CPU, OffTmp(7)), Mov(0, CPU)] + PutImm(3, size) + PutCall(host.wlog)
    + [Ldr(8, 1, CPU, OffTmp(6)), Ldr(8, 2, CPU, OffTmp(7))]
  }

  function StoreSlow(host: Host, size: Size): seq<Instr> {
    [Mov(0, CPU)] + PutImm(3, size) + PutCall(host.st) + PutFaultCheck()
  }

  /** x1 = address, x2 = value. */
  function PutStore(host: Host, check: bool, size: Size): seq<Instr> {
    PutAccess(OFF_WR, When(check, StoreLogged(host, size)) + [StoreFast(size)], StoreSlow(host, size))
  }

  // --- instructions ------------------------------------------------------------------------

  /** Everything an instruction's words depend on besides the instruction. */
  datatype Ctx = Ctx(host: Host, check: bool, need: FlagSet, rip: u64)

  function PutInsn(c: Ctx, o: Insn): seq<Instr> {
    match o.kind
    case KNop => []
    case KRR => PutRegAlu(c, o, PutRdReg(1, o, o.reg, o.size) + PutRdReg(2, o, o.src, o.size))
    case KRI => PutRegAlu(c, o, PutRdReg(1, o, o.reg, o.size) + PutImm(2, o.imm))
    case KRM => PutRegAlu(c, o, PutOperandLoad(c, o, o.size) + ([Mov(2, 0)] + PutRdReg(1, o, o.reg, o.size)))
    case KMR => PutRmw(c, o)
    case KMI => PutRmw(c, o)
    case KShift => PutShift(c, o)
    case KImul => PutImul(c, o)
    case KSetcc => PutSetcc(c, o)
    case KMovx => PutMovx(c, o)
    case KLea => PutEa(o) + PutLeaResult(o)
    case KPush => PutPush(c, [Ldr(8, 2, CPU, OffR(o.reg))])
    case KPop => PutPop(c, [Str(8, 0, CPU, OffR(o.reg))])
    case KJmp => PutImm(0, o.target) + PutLeave()
    case KJcc => JccCode(o) + PutLeave()
    case KCall => PutPush(c, PutImm(2, o.next)) + PutImm(0, o.target) + PutLeave()
    case KRet => (PopLoad(c) + RetTail()) + PutLeave()
    case KCallM => (CallMAddress(c, o) + (CallMPush(c, o) + CallMTarget(c, o))) + PutLeave()
    case KJmpM => JmpTarget(c, o) + PutLeave()
  }

  function PutAddress(c: Ctx, o: Insn): seq<Instr> { PutSetRip(c.rip) + PutEa(o) }

  function PutOperandLoad(c: Ctx, o: Insn, size: Size): seq<Instr> { PutAddress(c, o) + PutLoad(c.host, size) }

  /** The operation, the register write and the flags, with the operands in place. */
  function AluTail(c: Ctx, o: Insn): seq<Instr> {
    [PutOp(o)] + When(!o.noWrite, PutWrReg(3, o, o.reg, o.size)) + PutFlags(c.host, FlagHelper(o.op), c.need, o.size)
  }

  function PutRegAlu(c: Ctx, o: Insn, operands: seq<Instr>): seq<Instr> { operands + AluTail(c, o) }

  // memory destinations

  /** The register or immediate operand, into x2. */
  function OperandCode(o: Insn): seq<Instr> {
    if o.kind.KMI? then PutImm(2, o.imm) else PutRdReg(2, o, o.reg, o.size)
  }

  /** The operand at the address, which is kept in a scratch slot. */
  function KeepAndLoad(c: Ctx, o: Insn): seq<Instr> {
    PutAddress(c, o) + [Str(8, 1, CPU, OffTmp(0))] + PutLoad(c.host, o.size)
  }

  function LoadedOperands(o: Insn): seq<Instr> { [Mov(1, 0)] + OperandCode(o) }

  function SaveCode(): seq<Instr> {
    [Str(8, 1, CPU, OffTmp(1)), Str(8, 2, CPU, OffTmp(2)), Str(8, 3, CPU, OffTmp(3)), Mov(2, 3),
        Ldr(8, 1, CPU, OffTmp(0))]
  }

  function RestoreCode(): seq<Instr> {
    [Ldr(8, 1, CPU, OffTmp(1)), Ldr(8, 2, CPU, OffTmp(2)), Ldr(8, 3, CPU, OffTmp(3))]
  }

  /** The store may call out, so the operands and the result wait in scratch slots. */
  function PutWriteBack(c: Ctx, o: Insn): seq<Instr> {
    SaveCode() + PutStore(c.host, c.check, o.size) + RestoreCode()
  }

  function RmwTail(c: Ctx, o: Insn): seq<Instr> {
    [PutOp(o)] + When(!o.noWrite, PutWriteBack(c, o)) + PutFlags(c.host, FlagHelper(o.op), c.need, o.size)
  }

  function PutRmw(c: Ctx, o: Insn): seq<Instr> {
    if o.op.AMov? then PutAddress(c, o) + (OperandCode(o) + PutStore(c.host, c.check, o.size))
    else KeepAndLoad(c, o) + (LoadedOperands(o) + RmwTail(c, o))
  }

  // shifts

  function MaskedImm(o: Insn): u64 { o.imm % (if o.size == 8 then 64 else 32) }

  function PutShift(c: Ctx, o: Insn): seq<Instr> {
    if o.byCl then ClCode(o) + ([CbzW(5, |PutShiftBody(c, o)| + 1)] + PutShiftBody(c, o))
    else if MaskedImm(o) == 0 then []
    else PutShiftBody(c, o)
  }

  function ClCode(o: Insn): seq<Instr> { [Ldr(8, 5, CPU, OffR(RCX)), Set(5, Ubfx(5, 0, if o.size == 8 then 6 else 5))] }

  function PutShiftBody(c: Ctx, o: Insn): seq<Instr> {
    PutShiftOperand(c, o) + ((ShiftArgs(o) + PutCall(c.host.shift)) + ShiftResult(c, o))
  }

  /** A count taken from cl is kept in a scratch slot across the load. */
  function PutShiftOperand(c: Ctx, o: Insn): seq<Instr> {
    if o.mem then SaveCount(o) + KeepAndLoad(c, o) + TakeLoaded(o) else PutRdReg(1, o, o.reg, o.size)
  }

  function SaveCount(o: Insn): seq<Instr> { When(o.byCl, [Str(8, 5, CPU, OffTmp(1))]) }

  function TakeLoaded(o: Insn): seq<Instr> { [Mov(1, 0)] + When(o.byCl, [Ldr(8, 5, CPU, OffTmp(1))]) }

  function CountCode(o: Insn): seq<Instr> { if o.byCl then [Mov(2, 5)] else PutImm(2, MaskedImm(o)) }

  function ShiftArgs(o: Insn): seq<Instr> { CountCode(o) + [Mov(0, CPU)] + PutImm(3, o.size) + PutImm(4, o.ext) }

  function ShiftResult(c: Ctx, o: Insn): seq<Instr> {
    if o.mem then [Mov(2, 0), Ldr(8, 1, CPU, OffTmp(0))] + PutStore(c.host, c.check, o.size)
    else PutWrReg(0, o, o.reg, o.size)
  }

  // imul, setcc, movzx and movsx, lea

  function PutImul(c: Ctx, o: Insn): seq<Instr> {
    ImulSource(c, o) + (ImulOther(o) + (ImulResult(o) + PutFlags(c.host, Some(HLogic), c.need, o.size)))
  }

  function ImulSource(c: Ctx, o: Insn): seq<Instr> {
    if o.mem then PutOperandLoad(c, o, o.size) + [Mov(1, 0)] else [Ldr(8, 1, CPU, OffR(o.src))]
  }

  function ImulOther(o: Insn): seq<Instr> { if o.immSrc then PutImm(2, o.imm) else [Ldr(8, 2, CPU, OffR(o.reg))] }

  function ImulResult(o: Insn): seq<Instr> { [Set(3, Mul(o.size != 8, 1, 2)), Str(8, 3, CPU, OffR(o.reg))] }

  /** The condition selected on after PutCondEven: ne for the even code of a pair, eq for the odd one. */
  function Sense(cc: CondCode): int { if cc % 2 == 1 then EQ else NE }

  function CondValue(o: Insn): seq<Instr> { PutCondEven(o.cc) + [Set(0, Cset(Sense(o.cc)))] }

  function SetccMem(c: Ctx, o: Insn): seq<Instr> {
    [Str(8, 0, CPU, OffTmp(0))] + (PutAddress(c, o) + ([Ldr(8, 2, CPU, OffTmp(0))] + PutStore(c.host, c.check, 1)))
  }

  function PutSetcc(c: Ctx, o: Insn): seq<Instr> {
    CondValue(o) + if o.mem then SetccMem(c, o) else PutWrReg(0, o, o.reg, 1)
  }

  function MovxSource(c: Ctx, o: Insn): seq<Instr> {
    if o.mem then PutOperandLoad(c, o, o.ssize) else PutRdReg(0, o, o.src, o.ssize)
  }

  function Extend(o: Insn): Instr {
    if o.sign then Set(0, Sxt(o.size != 8, 0, 8 * o.ssize)) else Set(0, Ubfx(0, 0, 8 * o.ssize))
  }

  function MovxResult(o: Insn): seq<Instr> { [Extend(o), Str(8, 0, CPU, OffR(o.reg))] }

  function PutMovx(c: Ctx, o: Insn): seq<Instr> { MovxSource(c, o) + MovxResult(o) }

  function PutLeaResult(o: Insn): seq<Instr> {
    if o.size == 4 then [MovW(3, 1), Str(8, 3, CPU, OffR(o.reg))] else [Str(8, 1, CPU, OffR(o.reg))]
  }

  // the stack

  function LowerCode(): seq<Instr> { [Ldr(8, 1, CPU, OffR(RSP)), Set(1, SubImm(1, 8)), Str(8, 1, CPU, OffR(RSP))] }

  function RaiseCode(): seq<Instr> { [Ldr(8, 1, CPU, OffR(RSP)), Set(1, AddImm(1, 8)), Str(8, 1, CPU, OffR(RSP))] }

  function PutPushBody(c: Ctx, value: seq<Instr>): seq<Instr> { (LowerCode() + value) + PutStore(c.host, c.check, 8) }

  function PutPush(c: Ctx, value: seq<Instr>): seq<Instr> { PutSetRip(c.rip) + PutPushBody(c, value) }

  function PopLoad(c: Ctx): seq<Instr> { PutSetRip(c.rip) + [Ldr(8, 1, CPU, OffR(RSP))] + PutLoad(c.host, 8) }

  function PutPop(c: Ctx, save: seq<Instr>): seq<Instr> { PopLoad(c) + (save + RaiseCode()) }

  // block ends: x0 says where to continue

  function JccCode(o: Insn): seq<Instr> {
    PutCondEven(o.cc) + PutImm(2, o.target) + PutImm(3, o.next) + [Set(0, Csel(2, 3, Sense(o.cc)))]
  }

  function RetSave(): seq<Instr> { [Str(8, 0, CPU, OffTmp(0))] }

  function RetTail(): seq<Instr> { RetSave() + RaiseCode() + [Ldr(8, 0, CPU, OffTmp(0))] }

  function JmpTarget(c: Ctx, o: Insn): seq<Instr> {
    if o.mem then PutOperandLoad(c, o, 8) else [Ldr(8, 0, CPU, OffR(o.reg))]
  }

  /** The address is worked out before the push moves the stack pointer. */
  function CallMAddress(c: Ctx, o: Insn): seq<Instr> {
    PutSetRip(c.rip) + When(o.mem, PutEa(o) + [Str(8, 1, CPU, OffTmp(0))])
  }

  function CallMPush(c: Ctx, o: Insn): seq<Instr> { PutPushBody(c, PutImm(2, o.next)) }

  function CallMTarget(c: Ctx, o: Insn): seq<Instr> {
    if o.mem then [Ldr(8, 1, CPU, OffTmp(0))] + PutLoad(c.host, 8) else [Ldr(8, 0, CPU, OffR(o.reg))]
  }
}
