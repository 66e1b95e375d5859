/** The AArch64 subset the block compiler emits, and a machine that runs it. */
module A64 {
  import opened Words
  import opened StatusFlags
  import opened Regions
  import opened GuestState

  // --- instructions -------------------------------------------------------------

  datatype Op3 = OpAdd | OpSub | OpAnd | OpOrr | OpEor | OpBic

  datatype FlagOp = FAdds | FSubs | FAnds

  /** What an instruction computes for its destination register d, of which movk and bfi keep a part. */
  datatype Val =
    | MovZ(imm: int, hw: int)
    | MovK(imm: int, hw: int)
    | Arith(op: Op3, w: bool, n: int, m: int)
    | AddImm(n: int, imm: int)
    | SubImm(n: int, imm: int)
    | AddLsl(n: int, m: int, sh: int)
    | OrrLsl(n: int, m: int, sh: int)
    | EorLsr(n: int, m: int, sh: int)
    | EorBit(n: int, k: int)
    | Mul(w: bool, n: int, m: int)
    | Ubfx(n: int, lsb: int, width: int)
    | Bfi(n: int, lsb: int, width: int)
    | Sxt(w: bool, n: int, bits: int)
    | Cset(c: int)
    | Csetm(w: bool, c: int)
    | Csel(n: int, m: int, c: int)
    | Csinc(n: int, m: int, c: int)
    | Csinv(w: bool, n: int, m: int, c: int)

  datatype Instr =
    | Set(d: int, v: Val)
    | Ldr(size: Size, t: int, n: int, off: int)
    | Str(size: Size, t: int, n: int, off: int)
    | PushX(t: int)
    | PopX(t: int)
    | SetFlagsZr(fop: FlagOp, w: bool, n: int, m: int)
    | Cmp0(n: int)
    | Blr(n: int)
    | B(off: int)
    | BCond(c: int, off: int)
    | CbzW(t: int, off: int)
    | Ret

  const ZR := 31
  const CPU := 19        // holds the address of the cpu structure throughout a block
  const LR := 30

  const EQ := 0
  const NE := 1
  const CS := 2
  const CC := 3
  const MI := 4
  const VS := 6

  // mov is orr with the zero register
  function Mov(d: int, m: int): Instr { Set(d, Arith(OpOrr, false, ZR, m)) }
  function MovW(d: int, m: int): Instr { Set(d, Arith(OpOrr, true, ZR, m)) }

  // --- the machine ----------------------------------------------------------------

  /** The helper routines compiled code may call. */
  datatype Helper = HLd | HSt | HWlog | HAdd | HSub | HLogic | HInc | HDec | HShift

  /** Host addresses the compiler embeds: the cpu struct, the region table, the helpers. */
  datatype Host = Host(cpu: u64, table: u64, ld: u64, st: u64, wlog: u64,
                       fadd: u64, fsub: u64, flogic: u64, finc: u64, fdec: u64, shift: u64) {
    function At(h: Helper): u64 {
      match h
      case HLd => ld case HSt => st case HWlog => wlog case HAdd => fadd case HSub => fsub
      case HLogic => flogic case HInc => finc case HDec => fdec case HShift => shift
    }
    function Named(v: u64): Option<Helper> {
      if v == ld then Some(HLd) else if v == st then Some(HSt) else if v == wlog then Some(HWlog)
      else if v == fadd then Some(HAdd) else if v == fsub then Some(HSub) else if v == flogic then Some(HLogic)
      else if v == finc then Some(HInc) else if v == fdec then Some(HDec) else if v == shift then Some(HShift)
      else None
    }
    /** No two helpers share an address. */
    ghost predicate Distinct() { forall h: Helper :: Named(At(h)) == Some(h) }
  }

  datatype Nzcv = Nzcv(n: bool, z: bool, c: bool, v: bool)

  /** What surrounds a run: the region table, host addresses, and what the k-th call leaves in the
      registers and condition flags it does not preserve. */
  datatype Env = Env(regs: seq<Region>, host: Host, junk: nat -> RegFile, junkFlags: nat -> Nzcv)

  /** `g`, `tmp`, `curRip` and `running` are the fields of the cpu struct compiled code reaches, `rd`
      and `wr` the region table's hit caches. `ok` turns false if an instruction has no meaning here. */
  datatype Machine = Machine(
    x: RegFile, f: Nzcv, stack: seq<u64>, g: Guest,
    tmp: RegFile, curRip: u64, running: bool, rd: Hits, wr: Hits, calls: nat, ok: bool)

  function X(m: Machine, i: int): u64 { if i == 31 then 0 else Get(m.x, i) }

  function SetX(m: Machine, d: int, v: u64): Machine { if d == 31 then m else m.(x := m.x[d := v]) }

  function Stuck(m: Machine): Machine { m.(ok := false) }

  // Offsets of rsd_cpu's fields on this host (LP64), and of the hit caches in rsd_as.
  const OFF_CURRIP := 392
  const OFF_FLAGS := 400
  const OFF_TMP := 440
  const OFF_AS := 512
  const OFF_RUNNING := 544
  const OFF_RD := 16
  const OFF_WR := 48

  datatype Slot = GuestReg(i: int) | Scratch(i: int) | CurRip | FlagsWord | Table | Running | Nowhere

  function SlotAt(off: int): Slot {
    if 0 <= off < 128 && off % 8 == 0 then GuestReg(off / 8)
    else if 440 <= off < 504 && off % 8 == 0 then Scratch((off - 440) / 8)
    else if off == 392 then CurRip
    else if off == 400 then FlagsWord
    else if off == 512 then Table
    else if off == 544 then Running
    else Nowhere
  }

  /** What a load of this size at this offset of the cpu struct reads, if it is one the compiler makes. */
  function CpuField(env: Env, m: Machine, size: Size, off: int): Option<u64> {
    match SlotAt(off)
    case GuestReg(i) => if size == 8 then Some(Get(m.g.r, i)) else None
    case Scratch(i) => if size == 8 then Some(Get(m.tmp, i)) else None
    case Table => if size == 8 then Some(env.host.table) else None
    case CurRip => if size == 8 then Some(m.curRip) else None
    case FlagsWord => if size == 4 then Some(Word(m.g.flags)) else None
    case Running => if size == 1 then Some(if m.running then 1 else 0) else None
    case _ => None
  }

  function StoreCpu(m: Machine, size: Size, v: u64, off: int): Machine {
    match SlotAt(off)
    case GuestReg(i) =>
      if size == 8 then m.(g := m.g.(r := m.g.r[i := v]))
      else if size == 1 then m.(g := m.g.(r := m.g.r[i := WithLowByte(Get(m.g.r, i), v)]))
      else Stuck(m)
    case Scratch(i) => if size == 8 then m.(tmp := m.tmp[i := v]) else Stuck(m)
    case CurRip => if size == 8 then m.(curRip := v) else Stuck(m)
    case FlagsWord => if size == 4 then m.(g := m.g.(flags := FromWord(v))) else Stuck(m)
    case _ => Stuck(m)
  }

  /** The hit caches, read through the region table's address. */
  function TableField(m: Machine, off: int): Option<u64> {
    if off == 16 then Some(m.rd.first.lo)
    else if off == 24 then Some(m.rd.first.lim)
    else if off == 32 then Some(m.rd.second.lo)
    else if off == 40 then Some(m.rd.second.lim)
    else if off == 48 then Some(m.wr.first.lo)
    else if off == 56 then Some(m.wr.first.lim)
    else if off == 64 then Some(m.wr.second.lo)
    else if off == 72 then Some(m.wr.second.lim)
    else None
  }

  /** Which memory a load reaches is told by its base register: x19 is the cpu struct, x9 the region
      table once its address has been loaded, anything else a guest address. */
  function Loaded(env: Env, m: Machine, size: Size, n: int, off: int): Option<u64> {
    if n == 19 then if X(m, n) == env.host.cpu then CpuField(env, m, size, off) else None
    else if n == 9 then if X(m, n) == env.host.table && size == 8 then TableField(m, off) else None
    else Some(LoadSize(m.g.mem, X(m, n) + off, size))
  }

  function StepLoad(env: Env, m: Machine, size: Size, t: int, n: int, off: int): Machine {
    match Loaded(env, m, size, n, off)
    case Some(v) => SetX(m, t, v)
    case None => Stuck(m)
  }

  function StepStore(env: Env, m: Machine, size: Size, t: int, n: int, off: int): Machine {
    if n == 19 then if X(m, n) == env.host.cpu then StoreCpu(m, size, X(m, t), off) else Stuck(m)
    else if n == 9 then Stuck(m)
    else m.(g := m.g.(mem := Store(m.g.mem, X(m, n) + off, X(m, t), size)))
  }

  function Op3Result(op: Op3, w: bool, a: u64, b: u64): u64 {
    match op
    case OpAdd => if w then (a + b) % 0x1_0000_0000 else Wrap(a + b)
    case OpSub => if w then (a - b) % 0x1_0000_0000 else Wrap(a - b)
    case OpAnd => if w then BitsW(And, a, b) else Bits(And, a, b)
    case OpOrr => if w then BitsW(Or, a, b) else Bits(Or, a, b)
    case OpEor => if w then BitsW(Xor, a, b) else Bits(Xor, a, b)
    case OpBic => if w then BitsW(Bic, a, b) else Bits(Bic, a, b)
  }

  /** AddWithCarry of the Arm manual, for operands below 2^(8 * size). */
  function AddWithCarry(a: int, b: int, carry: int, size: Size): Nzcv {
    var unsignedSum := a + b + carry;
    var signedSum := Signed(a, size) + Signed(b, size) + carry;
    var r := Trunc(unsignedSum, size);
    Nzcv(r >= Half(size), r == 0, r != unsignedSum, Signed(r, size) != signedSum)
  }

  function AddsFlags(a: u64, b: u64, size: Size): Nzcv {
    AddWithCarry(Trunc(a, size), Trunc(b, size), 0, size)
  }

  /** a - b is a + NOT(b) + 1. */
  function SubsFlags(a: u64, b: u64, size: Size): Nzcv {
    AddWithCarry(Trunc(a, size), Modulus(size) - 1 - Trunc(b, size), 1, size)
  }

  function AndsFlags(a: u64, b: u64, w: bool): Nzcv {
    var r := if w then BitsW(And, a, b) else Bits(And, a, b);
    Nzcv(r >= (if w then 0x8000_0000 else 0x8000_0000_0000_0000), r == 0, false, false)
  }

  predicate Holds(f: Nzcv, c: int) {
    var even :=
      match c / 2
      case 0 => f.z
      case 1 => f.c
      case 2 => f.n
      case 3 => f.v
      case 4 => f.c && !f.z
      case 5 => f.n == f.v
      case 6 => !f.z && f.n == f.v
      case _ => true;
    if c % 2 == 1 && c != 15 then !even else even
  }

  function Shl(v: u64, sh: int): u64 { if 0 <= sh < 64 then Wrap(v * Pow2(sh)) else 0 }

  function Shr(v: u64, sh: int): u64 {
    if 0 <= sh < 64 then
      DivShrinks(v, Pow2(sh));
      v / Pow2(sh)
    else 0
  }

  /** `width` bits of v from bit lsb up. */
  function Field(v: u64, lsb: int, width: int): u64 {
    if 0 <= lsb && 0 < width && lsb + width <= 64 then
      DivShrinks(v, Pow2(lsb));
      ModBelow(v / Pow2(lsb), Pow2(width));
      (v / Pow2(lsb)) % Pow2(width)
    else 0
  }

  /** One of the four 16-bit pieces of a register replaced. */
  function MovKeep(v: u64, imm: int, hw: int): u64 {
    var p := imm % 0x1_0000;
    if hw == 0 then v - v % 0x1_0000 + p
    else if hw == 1 then v - (v / 0x1_0000) % 0x1_0000 * 0x1_0000 + p * 0x1_0000
    else if hw == 2 then v - (v / 0x1_0000_0000) % 0x1_0000 * 0x1_0000_0000 + p * 0x1_0000_0000
    else v % 0x1_0000_0000_0000 + p * 0x1_0000_0000_0000
  }

  function InsertByte(v: u64, b: u64, lsb: int, width: int): u64 {
    if lsb == 8 && width == 8 then WithHighByte(v, b) else v
  }

  function SetNzcv(fop: FlagOp, w: bool, a: u64, b: u64): Nzcv {
    match fop
    case FAdds => AddsFlags(a, b, if w then 4 else 8)
    case FSubs => SubsFlags(a, b, if w then 4 else 8)
    case FAnds => AndsFlags(a, b, w)
  }

  function MulResult(w: bool, a: u64, b: u64): u64 {
    if w then (a * b) % 0x1_0000_0000 else (a * b) % 0x1_0000_0000_0000_0000
  }

  function Value(d: int, v: Val, m: Machine): u64 {
    match v
    case MovZ(imm, hw) => MovKeep(0, imm, hw)
    case MovK(imm, hw) => MovKeep(X(m, d), imm, hw)
    case Arith(op, w, n, k) => Op3Result(op, w, X(m, n), X(m, k))
    case AddImm(n, imm) => Wrap(X(m, n) + imm)
    case SubImm(n, imm) => Wrap(X(m, n) - imm)
    case AddLsl(n, k, sh) => Wrap(X(m, n) + Shl(X(m, k), sh))
    case OrrLsl(n, k, sh) => Bits(Or, X(m, n), Shl(X(m, k), sh))
    case EorLsr(n, k, sh) => Bits(Xor, X(m, n), Shr(X(m, k), sh))
    case EorBit(n, k) => Bits(Xor, X(m, n), Shl(1, k))
    case Mul(w, n, k) => MulResult(w, X(m, n), X(m, k))
    case Ubfx(n, lsb, width) => Field(X(m, n), lsb, width)
    case Bfi(n, lsb, width) => InsertByte(X(m, d), X(m, n), lsb, width)
    case Sxt(w, n, bits) => Trunc(Sext(X(m, n), if bits == 8 then 1 else 2), if w then 4 else 8)
    case Cset(c) => if Holds(m.f, c) then 1 else 0
    case Csetm(w, c) => if !Holds(m.f, c) then 0 else if w then 0xffff_ffff else 0xffff_ffff_ffff_ffff
    case Csel(n, k, c) => if Holds(m.f, c) then X(m, n) else X(m, k)
    case Csinc(n, k, c) => if Holds(m.f, c) then X(m, n) else Wrap(X(m, k) + 1)
    case Csinv(w, n, k, c) =>
      if w then if Holds(m.f, c) then X(m, n) % 0x1_0000_0000 else 0xffff_ffff - X(m, k) % 0x1_0000_0000
      else if Holds(m.f, c) then X(m, n) else 0xffff_ffff_ffff_ffff - X(m, k)
  }

  /** The operand values the model gives bfi and sxt a meaning for. */
  predicate Modelled(v: Val) {
    (v.Bfi? ==> v.lsb == 8 && v.width == 8) && (v.Sxt? ==> v.bits == 8 || v.bits == 16)
  }

  // --- helper calls -------------------------------------------------------------

  /** Registers after a call: the result in x0, x19 preserved, anything else whatever it was left as. */
  function AfterCall(env: Env, m: Machine, result: u64): Machine {
    m.(x := env.junk(m.calls)[0 := result][19 := X(m, 19)], f := env.junkFlags(m.calls), calls := m.calls + 1)
  }

  function SetFlags(m: Machine, f: Flags): Machine { m.(g := m.g.(flags := f)) }

  predicate IsSize(v: u64) { v == 1 || v == 2 || v == 4 || v == 8 }

  /** A helper's effect on everything but the registers, and its result; None if it was called wrongly. */
  function Help(env: Env, h: Helper, m: Machine): Option<(Machine, u64)> {
    if X(m, 0) != env.host.cpu then None else
    match h
    case HLd => HelpLd(env, X(m, 1), X(m, 2), m)
    case HSt => HelpSt(env, X(m, 1), X(m, 2), X(m, 3), m)
    case HWlog => HelpWlog(env, X(m, 1), X(m, 2), X(m, 3), m)
    case HShift => HelpShift(X(m, 1), X(m, 2), X(m, 3), X(m, 4), m)
    case _ => HelpFlags(h, X(m, 1), X(m, 2), X(m, 3), X(m, 4), m)
  }

  function HelpLd(env: Env, a: u64, size: u64, m: Machine): Option<(Machine, u64)> {
    if !IsSize(size) then None else
    match Ld(env.regs, m.g, a, size)
    case None => Some((m.(running := false), 0))
    case Some(v) => Some((m.(rd := Note(env.regs, m.rd, a, READ)), v))
  }

  function HelpSt(env: Env, a: u64, v: u64, size: u64, m: Machine): Option<(Machine, u64)> {
    if !IsSize(size) then None else
    match St(env.regs, m.g, a, v, size)
    case None => Some((m.(running := false), 0))
    case Some(g) => Some((m.(g := g, wr := Note(env.regs, m.wr, a, WRITE)), 0))
  }

  function HelpWlog(env: Env, a: u64, v: u64, size: u64, m: Machine): Option<(Machine, u64)> {
    if !IsSize(size) then None else
    Some((m.(g := m.g.(log := LogWrite(env.regs, m.g, a, v, size))), 0))
  }

  function HelpShift(a: u64, cnt: u64, size: u64, ext: u64, m: Machine): Option<(Machine, u64)> {
    if !IsSize(size) || !(1 <= cnt < 64) || !(4 <= ext < 8) then None else
    var s := ShiftCalc(a, cnt, size, ext);
    Some((SetFlags(m, ShiftFlags(m.g.flags, s, size)), s.res))
  }

  /** The flag routines: (a, b, r, size) for add and sub, (a, r, size) for inc and dec, (r, size). */
  function HelpFlags(h: Helper, a1: u64, a2: u64, a3: u64, a4: u64, m: Machine): Option<(Machine, u64)> {
    match h
    case HAdd => if IsSize(a4) then Some((SetFlags(m, FlagsAdd(m.g.flags, a1, a2, a3, a4)), 0)) else None
    case HSub => if IsSize(a4) then Some((SetFlags(m, FlagsSub(m.g.flags, a1, a2, a3, a4)), 0)) else None
    case HLogic => if IsSize(a2) then Some((SetFlags(m, FlagsLogic(m.g.flags, a1, a2)), 0)) else None
    case HInc => if IsSize(a3) then Some((SetFlags(m, FlagsInc(m.g.flags, a1, a2, a3)), 0)) else None
    case HDec => if IsSize(a3) then Some((SetFlags(m, FlagsDec(m.g.flags, a1, a2, a3)), 0)) else None
    case _ => None
  }

  /** The helpers that return nothing leave x0 as they leave the rest. */
  predicate Returns(h: Helper) { h.HLd? || h.HShift? }

  function StepCall(env: Env, m: Machine, target: u64): Machine {
    match env.host.Named(target)
    case None => Stuck(m)
    case Some(h) =>
      match Help(env, h, m)
      case None => Stuck(m)
      case Some((m', v)) => AfterCall(env, m', if Returns(h) then v else Get(env.junk(m.calls), 0))
  }

  predicate IsBranch(i: Instr) { i.B? || i.BCond? || i.CbzW? || i.Ret? }

  /** One instruction that is not a branch. */
  function Step(env: Env, i: Instr, m: Machine): Machine
    requires !IsBranch(i)
  {
    match i
    case Set(d, v) => if Modelled(v) then SetX(m, d, Value(d, v, m)) else Stuck(m)
    case Ldr(size, t, n, off) => StepLoad(env, m, size, t, n, off)
    case Str(size, t, n, off) => StepStore(env, m, size, t, n, off)
    case PushX(t) => m.(stack := [X(m, t)] + m.stack)
    case PopX(t) => if m.stack == [] then Stuck(m) else SetX(m.(stack := m.stack[1..]), t, m.stack[0])
    case SetFlagsZr(fop, w, n, k) => m.(f := SetNzcv(fop, w, X(m, n), X(m, k)))
    case Cmp0(n) => m.(f := SubsFlags(X(m, n), 0, 8))
    case Blr(n) => StepCall(env, m, X(m, n))
  }
}
