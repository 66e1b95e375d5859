/** The other opcodes, from their bytes: moves of immediates, shifts, products, addresses, the stack, transfers
    of control and the two-byte map. */
module MoreOpcodes {
  import opened Words
  import opened StatusFlags
  import opened Regions
  import opened GuestState
  import opened Insns
  import opened Decoder
  import opened Interpreter
  import opened RegisterMeanings
  import opened OpcodeMeanings

  /** The step goes to `next` having written v to an operand and set the flags to f, and done nothing else; a
      store the table refuses is a fault. */
  ghost predicate WroteTo(regs: seq<Region>, g: Guest, dst: Spot, v: u64, size: Size, rex: bool, f: Flags, next: u64,
      s: Stepped)
  {
    match dst
    case InRegister(i) =>
      && s.Ran? && s.r.Done? && s.r.rip == next && s.r.g == g.(flags := f, r := s.r.g.r)
      && Writes(g.r, s.r.g.r, i, size, rex, v)
    case InMemory(at) =>
      var w := St(regs, g.(flags := f), at, v, size);
      s == Ran(if w.Some? then Done(w.value, next) else Fault)
  }

  lemma WrMeans(regs: seq<Region>, g: Guest, dst: Opnd, v: u64, size: Size, rex: bool, f: Flags, next: u64)
    requires !dst.Pending?
    ensures WroteTo(regs, g, SpotOf(dst), v, size, rex, f, next, Ran(Wr(regs, g.(flags := f), dst, v, size, rex, next)))
  {
    hide SetOperand, Writes, St;
    if dst.AtReg? { OperandWrites(g.(flags := f), dst.reg, size, rex, v); }
  }

  /** The same for whole general registers, where no byte register is meant. */
  lemma RegMeans(regs: seq<Region>, g: Guest, i: Reg, v: u64, size: Size, rex: bool, f: Flags, next: u64)
    requires size != 1
    ensures WroteTo(regs, g, InRegister(i), v, size, rex, f, next, Ran(Done(SetReg(g.(flags := f), i, v, size), next)))
  {
    hide SetReg;
    RegisterWrites(g, i, size, v);
    FlagsApart(g, i, v, size, f);
  }

  lemma FlagsApart(g: Guest, i: int, v: u64, size: Size, f: Flags)
    ensures SetReg(g.(flags := f), i, v, size) == SetReg(g, i, v, size).(flags := f)
  {
    hide WithLowByte;
  }

  /** The interpreter at an opcode, its prefixes read. */
  function Here(regs: seq<Region>, code: Mem, rip: u64, g: Guest, short: bool, rex: Option<byte>): At {
    At(regs, code, rip, HeadLength(short, rex), Bits4(rex), rex.Some?, Wide4(short, rex), g)
  }

  /** The numbers of a register whose low bits are in the opcode. */
  function LowRegister(op: byte, rex: Option<byte>): Reg { op % 8 + (if rex.Some? && rex.value % 2 == 1 then 8 else 0) }

  lemma LowRegisterIs(op: byte, rex: Option<byte>)
    ensures Wide(op % 8, RexB(Bits4(rex))) == LowRegister(op, rex)
  {
  }

  // --- immediates -----------------------------------------------------------------------------------------

  /** k bytes, lowest first. */
  function Little(m: Mem, a: int, k: nat): nat
    decreases k
  {
    if k == 0 then 0 else Peek(m, a) + 0x100 * Little(m, a + 1, k - 1)
  }

  lemma {:induction false} LittleIs(m: Mem, a: int, k: nat)
    ensures Load(m, a, k) == Little(m, a, k)
    decreases k
  {
    if k > 0 { LittleIs(m, a + 1, k - 1); }
  }

  lemma MovImmTables(s: At, op: byte)
    requires 0xb0 <= op <= 0xbf
    ensures StepOp(s, op) == StepMovImm(s, op) && NotPrefix(op)
  {
    hide StepRow, StepAcc, StepStack, StepImulImm, StepJump, StepImmGroup, StepLea, StepMovImm, StepShift,
         StepMovRmImm, StepGroup5, StepTwo;
  }

  /** mov of an immediate to a byte register, or to a register of the operand's size. */
  lemma MovImmMeans(regs: seq<Region>, code: Mem, rip: u64, g: Guest, short: bool, rex: Option<byte>, op: byte)
    requires Ok(regs, rip, 1, EXEC) && Begins(code, rip, short, rex, op) && 0xb0 <= op <= 0xbf
    ensures var size: Size := if op < 0xb8 then 1 else Wide4(short, rex);
      var at := rip + HeadLength(short, rex);
      WroteTo(regs, g, InRegister(LowRegister(op, rex)), Wrap(Little(code, at, size)), size, rex.Some?, g.flags,
        Wrap(at + size), Interpreter.Step(regs, code, rip, g))
  {
    hide Ok, Interpreter.Step, StepOp, Begins, SetReg, SetReg8, WroteTo, Little, Load, Wide, Peek;
    var s := Here(regs, code, rip, g, short, rex);
    var size: Size := if op < 0xb8 then 1 else s.size;
    MovImmTables(s, op);
    HeadStep(regs, code, rip, g, short, rex, op);
    LowRegisterIs(op, rex);
    LittleIs(code, rip + s.n, size);
    var reg := LowRegister(op, rex);
    if op < 0xb8 {
      OneByte(code, rip + s.n);
      WrMeans(regs, g, AtReg(reg), Peek(code, rip + s.n), 1, rex.Some?, g.flags, Wrap(rip + s.n + 1));
    } else {
      RegMeans(regs, g, reg, Wrap(Load(code, rip + s.n, size)), size, rex.Some?, g.flags, Wrap(rip + s.n + size));
    }
  }

  lemma OneByte(m: Mem, a: int)
    ensures Wrap(Little(m, a, 1)) == Peek(m, a)
  {
    assert Little(m, a + 1, 0) == 0;
  }

  lemma MovStoreTables(s: At, op: byte)
    requires op == 0xc6 || op == 0xc7
    ensures StepOp(s, op) == StepMovRmImm(s, op) && NotPrefix(op)
  {
    hide StepRow, StepAcc, StepStack, StepImulImm, StepJump, StepImmGroup, StepLea, StepMovImm, StepShift,
         StepMovRmImm, StepGroup5, StepTwo;
  }

  /** mov of an immediate to a register or to memory, which is not read first. */
  lemma MovStoreMeans(regs: seq<Region>, code: Mem, rip: u64, g: Guest, short: bool, rex: Option<byte>, op: byte)
    requires Ok(regs, rip, 1, EXEC) && Begins(code, rip, short, rex, op) && (op == 0xc6 || op == 0xc7)
    ensures var n := HeadLength(short, rex);
      var at := rip + n + OperandLength(code, rip + n);
      var size: Size := if op == 0xc6 then 1 else Wide4(short, rex);
      var next := Wrap(at + if op == 0xc6 then 1 else 4);
      var v := Wrap(if op == 0xc6 then Peek(code, at) else SignedWord(code, at));
      WroteTo(regs, g, NamedSpot(code, rip + n, Bits4(rex), g.r, next), v, size, rex.Some?, g.flags, next,
        Interpreter.Step(regs, code, rip, g))
  {
    hide Ok, Interpreter.Step, StepOp, Begins, Modrm, Fixup, Wr, WroteTo, NamedSpot, OperandLength, Sbytes, SignedWord,
         Peek;
    var s := Here(regs, code, rip, g, short, rex);
    var m := Modrm(code, rip, s.n, s.rex, g.r);
    var next := Wrap(rip + m.n + if op == 0xc6 then 1 else 4);
    MovStoreTables(s, op);
    HeadStep(regs, code, rip, g, short, rex, op);
    ModrmMeans(code, rip, s.n, s.rex, g.r, next);
    WordIs(code, rip, m.n);
    var v := Wrap(if op == 0xc6 then Peek(code, rip + m.n) else SignedWord(code, rip + m.n));
    WrMeans(regs, g, Fixup(m.o, next), v, if op == 0xc6 then 1 else s.size, rex.Some?, g.flags, next);
  }

  // --- shifts -------------------------------------------------------------------------------------------

  predicate ShiftOpcode(op: byte) { op == 0xc0 || op == 0xc1 || 0xd0 <= op <= 0xd3 }

  /** The count: an immediate, one, or cl, masked to five bits, or six at 64 bits. */
  function CountOf(code: Mem, at: int, r: RegFile, op: byte, size: Size): nat {
    var raw := if op < 0xd0 then Peek(code, at) else if op < 0xd2 then 1 else Get(r, 1) % 0x100;
    if size == 8 then raw % 64 else raw % 32
  }

  lemma ShiftTables(s: At, op: byte)
    requires ShiftOpcode(op)
    ensures StepOp(s, op) == StepShift(s, op) && NotPrefix(op)
  {
    hide StepRow, StepAcc, StepStack, StepImulImm, StepJump, StepImmGroup, StepLea, StepMovImm, StepShift,
         StepMovRmImm, StepGroup5, StepTwo;
  }

  lemma ShiftOperands(s: At, op: byte, m: Rm, next: u64)
    requires ShiftOpcode(op) && m == Modrm(s.code, s.rip, s.n, s.rex, s.g.r)
    requires next == Wrap(s.rip + m.n + if op < 0xd0 then 1 else 0)
    ensures var size: Size := if op % 2 == 0 then 1 else s.size;
      var cnt, ext := CountOf(s.code, s.rip + m.n, s.g.r, op, size), Peek(s.code, s.rip + s.n) / 8 % 8;
      StepShift(s, op)
        == if cnt == 0 then Ran(Done(s.g, next))
           else if ext < 4 then Ran(Fault)
           else
             match Rd(s.regs, s.g, Fixup(m.o, next), size, s.hasRex)
             case None => Ran(Fault)
             case Some(a) =>
               var d := ShiftCalc(a, cnt, size, ext);
               var g1 := s.g.(flags := ShiftFlags(s.g.flags, d, size));
               Ran(Wr(s.regs, g1, Fixup(m.o, next), d.res, size, s.hasRex, next))
  {
    hide Modrm, Fixup, Rd, Wr, ShiftCalc, ShiftFlags, Wrap, Peek;
    FieldsAre(Peek(s.code, s.rip + s.n), 0);
  }

  /** /4 to /7 of c0, c1 and d0 to d3: a count of zero leaves everything and reads nothing. */
  lemma ShiftMeans(regs: seq<Region>, code: Mem, rip: u64, g: Guest, short: bool, rex: Option<byte>, op: byte)
    requires Ok(regs, rip, 1, EXEC) && Begins(code, rip, short, rex, op) && ShiftOpcode(op)
    ensures var n := HeadLength(short, rex);
      var at := rip + n + OperandLength(code, rip + n);
      var size: Size := if op % 2 == 0 then 1 else Wide4(short, rex);
      var next := Wrap(at + if op < 0xd0 then 1 else 0);
      var cnt, ext := CountOf(code, at, g.r, op, size), Peek(code, rip + n) / 8 % 8;
      var dst := NamedSpot(code, rip + n, Bits4(rex), g.r, next);
      var a, s := Held(regs, g, dst, size, rex.Some?), Interpreter.Step(regs, code, rip, g);
      if cnt == 0 then s == Ran(Done(g, next))
      else if ext < 4 || a.None? then s == Ran(Fault)
      else
        var d := ShiftCalc(a.value, cnt, size, ext);
        WroteTo(regs, g, dst, d.res, size, rex.Some?, ShiftFlags(g.flags, d, size), next, s)
  {
    hide Ok, Interpreter.Step, StepOp, StepShift, Begins, Modrm, Fixup, Rd, Wr, WroteTo, NamedSpot, OperandLength, Held,
         ShiftCalc, ShiftFlags, CountOf, Peek, ShiftOpcode;
    var s := Here(regs, code, rip, g, short, rex);
    var m := Modrm(code, rip, s.n, s.rex, g.r);
    var next := Wrap(rip + m.n + if op < 0xd0 then 1 else 0);
    var size: Size := if op % 2 == 0 then 1 else s.size;
    ShiftTables(s, op);
    HeadStep(regs, code, rip, g, short, rex, op);
    ModrmMeans(code, rip, s.n, s.rex, g.r, next);
    ShiftOperands(s, op, m, next);
    var dst := Fixup(m.o, next);
    HeldIs(regs, g, dst, size, rex.Some?);
    var cnt, ext := CountOf(code, rip + m.n, g.r, op, size), Peek(code, rip + s.n) / 8 % 8;
    var a := Rd(regs, g, dst, size, rex.Some?);
    CountBelow(code, rip + m.n, g.r, op, size);
    if cnt != 0 && ext >= 4 && a.Some? {
      var d := ShiftCalc(a.value, cnt, size, ext);
      WrMeans(regs, g, dst, d.res, size, rex.Some?, ShiftFlags(g.flags, d, size), next);
    }
  }

  lemma CountBelow(code: Mem, at: int, r: RegFile, op: byte, size: Size)
    ensures CountOf(code, at, r, op, size) < 64
  {
  }

  // --- products and addresses ---------------------------------------------------------------------------------

  lemma ProductTables(s: At, op: byte)
    requires op == 0x69 || op == 0x6b
    ensures StepOp(s, op) == StepImulImm(s, op) && NotPrefix(op)
  {
    hide StepRow, StepAcc, StepStack, StepImulImm, StepJump, StepImmGroup, StepLea, StepMovImm, StepShift,
         StepMovRmImm, StepGroup5, StepTwo;
  }

  lemma MultipliedMeans(regs: seq<Region>, g: Guest, i: Reg, product: int, size: Size, rex: bool, next: u64)
    requires size != 1
    ensures var v := Wrap(product);
      WroteTo(regs, g, InRegister(i), v, size, rex, FlagsLogic(g.flags, v, size), next,
        Ran(Done(Multiplied(g, i, product, size), next)))
  {
    hide SetReg, FlagsLogic, Writes;
    var v := Wrap(product);
    RegMeans(regs, g, i, v, size, rex, FlagsLogic(g.flags, v, size), next);
    FlagsApart(g, i, v, size, FlagsLogic(g.flags, v, size));
    FlagsKept(g, i, v, size);
  }

  lemma FlagsKept(g: Guest, i: int, v: u64, size: Size)
    ensures SetReg(g, i, v, size).flags == g.flags
  {
    hide WithLowByte;
  }

  /** The signed product of an operand and an immediate, with the flags of a logical result. */
  lemma ProductMeans(regs: seq<Region>, code: Mem, rip: u64, g: Guest, short: bool, rex: Option<byte>, op: byte)
    requires Ok(regs, rip, 1, EXEC) && Begins(code, rip, short, rex, op) && (op == 0x69 || op == 0x6b)
    ensures var n, size := HeadLength(short, rex), Wide4(short, rex);
      var at := rip + n + OperandLength(code, rip + n);
      var next := Wrap(at + if op == 0x6b then 1 else 4);
      var a := Held(regs, g, NamedSpot(code, rip + n, Bits4(rex), g.r, next), size, rex.Some?);
      var imm := if op == 0x6b then SignedByte(Peek(code, at)) else SignedWord(code, at);
      var s := Interpreter.Step(regs, code, rip, g);
      if a.None? then s == Ran(Fault)
      else
        var v, dst := Wrap(Signed(a.value, size) * imm), NamedRegister(Peek(code, rip + n), Bits4(rex));
        WroteTo(regs, g, dst, v, size, rex.Some?, FlagsLogic(g.flags, v, size), next, s)
  {
    hide Ok, Interpreter.Step, StepOp, Begins, Modrm, Fixup, Rd, WroteTo, NamedSpot, OperandLength, Held, Signed,
         Sbytes, SignedByte, SignedWord, Multiplied, FlagsLogic, Peek, Wrap;
    var s := Here(regs, code, rip, g, short, rex);
    var m := Modrm(code, rip, s.n, s.rex, g.r);
    var next := Wrap(rip + m.n + if op == 0x6b then 1 else 4);
    ProductTables(s, op);
    HeadStep(regs, code, rip, g, short, rex, op);
    ModrmMeans(code, rip, s.n, s.rex, g.r, next);
    ByteIs(code, rip, m.n);
    WordIs(code, rip, m.n);
    var src := Fixup(m.o, next);
    HeldIs(regs, g, src, s.size, rex.Some?);
    var a := Rd(regs, g, src, s.size, rex.Some?);
    var imm := if op == 0x6b then SignedByte(Peek(code, rip + m.n)) else SignedWord(code, rip + m.n);
    if a.Some? { MultipliedMeans(regs, g, m.reg, Signed(a.value, s.size) * imm, s.size, rex.Some?, next); }
  }

  lemma LeaTables(s: At)
    ensures StepOp(s, 0x8d) == StepLea(s) && NotPrefix(0x8d)
  {
    hide StepRow, StepAcc, StepStack, StepImulImm, StepJump, StepImmGroup, StepLea, StepMovImm, StepShift,
         StepMovRmImm, StepGroup5, StepTwo;
  }

  /** lea leaves the address itself; of a register it is an error. */
  lemma LeaMeans(regs: seq<Region>, code: Mem, rip: u64, g: Guest, short: bool, rex: Option<byte>)
    requires Ok(regs, rip, 1, EXEC) && Begins(code, rip, short, rex, 0x8d)
    ensures var n, s := HeadLength(short, rex), Interpreter.Step(regs, code, rip, g);
      var m, next := Peek(code, rip + n), Wrap(rip + n + OperandLength(code, rip + n));
      if m >= 0xc0 then s == Ran(Fault)
      else WroteTo(regs, g, NamedRegister(m, Bits4(rex)), NamedAddress(code, rip + n, Bits4(rex), g.r, next),
        Wide4(short, rex), rex.Some?, g.flags, next, s)
  {
    hide Ok, Interpreter.Step, StepOp, Begins, Modrm, Fixup, WroteTo, NamedAddress, OperandLength, SetReg, Peek, Wrap;
    var s := Here(regs, code, rip, g, short, rex);
    var m := Modrm(code, rip, s.n, s.rex, g.r);
    var next := Wrap(rip + m.n);
    LeaTables(s);
    HeadStep(regs, code, rip, g, short, rex, 0x8d);
    ModrmMeans(code, rip, s.n, s.rex, g.r, next);
    var o := Fixup(m.o, next);
    if o.AtMem? { RegMeans(regs, g, m.reg, o.a, s.size, rex.Some?, g.flags, next); }
  }

  // --- the stack and transfers of control -------------------------------------------------------------------

  /** Eight bytes pushed below the stack pointer, register 4; None if they may not be stored there. */
  ghost predicate Pushed(regs: seq<Region>, g: Guest, v: u64, g': Option<Guest>) {
    var sp := (Get(g.r, 4) - 8) % 0x1_0000_0000_0000_0000;
    g' == St(regs, g.(r := g.r[4 := sp]), sp, v, 8)
  }

  lemma PushIs(regs: seq<Region>, g: Guest, v: u64)
    ensures Pushed(regs, g, v, Push(regs, g, v))
  {
    hide St;
  }

  lemma StackTables(s: At, op: byte)
    requires 0x50 <= op <= 0x5f
    ensures StepOp(s, op) == StepStack(s, op) && NotPrefix(op)
  {
    hide StepRow, StepAcc, StepStack, StepImulImm, StepJump, StepImmGroup, StepLea, StepMovImm, StepShift,
         StepMovRmImm, StepGroup5, StepTwo;
  }

  /** push stores the register as it was before the stack pointer moved. */
  lemma PushMeans(regs: seq<Region>, code: Mem, rip: u64, g: Guest, short: bool, rex: Option<byte>, op: byte)
    returns (g': Option<Guest>)
    requires Ok(regs, rip, 1, EXEC) && Begins(code, rip, short, rex, op) && 0x50 <= op <= 0x57
    ensures Pushed(regs, g, Get(g.r, LowRegister(op, rex)), g')
    ensures Interpreter.Step(regs, code, rip, g)
      == Ran(if g'.Some? then Done(g'.value, Wrap(rip + HeadLength(short, rex))) else Fault)
  {
    hide Ok, Interpreter.Step, StepOp, Begins, Push, Pushed, Wide;
    var s := Here(regs, code, rip, g, short, rex);
    StackTables(s, op);
    HeadStep(regs, code, rip, g, short, rex, op);
    LowRegisterIs(op, rex);
    PushIs(regs, g, Get(g.r, LowRegister(op, rex)));
    g' := Push(regs, g, Get(g.r, LowRegister(op, rex)));
  }

  /** The stack pointer eight higher. */
  function Raised(g: Guest): Guest { g.(r := g.r[4 := (Get(g.r, 4) + 8) % 0x1_0000_0000_0000_0000]) }

  lemma RaisedIs(g: Guest)
    ensures Raised(g) == PopSp(g)
  {
  }

  /** pop moves the stack pointer before it writes, so that popping into it leaves what was popped. */
  lemma PopMeans(regs: seq<Region>, code: Mem, rip: u64, g: Guest, short: bool, rex: Option<byte>, op: byte)
    requires Ok(regs, rip, 1, EXEC) && Begins(code, rip, short, rex, op) && 0x58 <= op <= 0x5f
    ensures var top := Ld(regs, g, Get(g.r, 4), 8);
      Interpreter.Step(regs, code, rip, g)
        == Ran(if top.None? then Fault
               else
                 var up := Raised(g);
                 Done(up.(r := up.r[LowRegister(op, rex) := top.value]), Wrap(rip + HeadLength(short, rex))))
  {
    hide Ok, Interpreter.Step, StepOp, Begins, PopSp, Raised, Ld, Wide;
    var s := Here(regs, code, rip, g, short, rex);
    StackTables(s, op);
    HeadStep(regs, code, rip, g, short, rex, op);
    LowRegisterIs(op, rex);
    RaisedIs(g);
  }

  predicate JumpOpcode(op: byte) { 0x70 <= op <= 0x7f || op == 0xc3 || op == 0xe8 || op == 0xe9 || op == 0xeb }

  lemma JumpTables(s: At, op: byte)
    requires JumpOpcode(op)
    ensures StepOp(s, op) == StepJump(s, op) && NotPrefix(op)
  {
    hide StepRow, StepAcc, StepStack, StepImulImm, StepJump, StepImmGroup, StepLea, StepMovImm, StepShift,
         StepMovRmImm, StepGroup5, StepTwo;
  }

  /** ret goes where the stack says; jmp and the conditional jumps count from the next instruction. */
  lemma JumpMeans(regs: seq<Region>, code: Mem, rip: u64, g: Guest, short: bool, rex: Option<byte>, op: byte)
    requires Ok(regs, rip, 1, EXEC) && Begins(code, rip, short, rex, op) && JumpOpcode(op) && op != 0xe8
    ensures var at, top := rip + HeadLength(short, rex), Ld(regs, g, Get(g.r, 4), 8);
      var near := Wrap(Wrap(at + 1) + SignedByte(Peek(code, at)));
      Interpreter.Step(regs, code, rip, g)
        == Ran(if op == 0xc3 then if top.None? then Fault else Done(Raised(g), top.value)
               else if op == 0xe9 then Done(g, Wrap(Wrap(at + 4) + SignedWord(code, at)))
               else Done(g, if op == 0xeb || Cond(g.flags, op % 16) then near else Wrap(at + 1)))
  {
    hide Ok, Interpreter.Step, StepOp, Begins, Ld, PopSp, Raised, Sbytes, SignedByte, SignedWord, Cond, Peek, Wrap;
    var s := Here(regs, code, rip, g, short, rex);
    JumpTables(s, op);
    HeadStep(regs, code, rip, g, short, rex, op);
    RaisedIs(g);
    ByteIs(code, rip, s.n);
    WordIs(code, rip, s.n);
  }

  /** call pushes the address of the next instruction. */
  lemma CallMeans(regs: seq<Region>, code: Mem, rip: u64, g: Guest, short: bool, rex: Option<byte>)
    returns (g': Option<Guest>)
    requires Ok(regs, rip, 1, EXEC) && Begins(code, rip, short, rex, 0xe8)
    ensures var at := rip + HeadLength(short, rex);
      var next := Wrap(at + 4);
      Pushed(regs, g, next, g')
      && Interpreter.Step(regs, code, rip, g)
           == Ran(if g'.None? then Fault else Done(g'.value, Wrap(next + SignedWord(code, at))))
  {
    hide Ok, Interpreter.Step, StepOp, Begins, Push, Pushed, Sbytes, SignedWord, Peek, Wrap;
    var s := Here(regs, code, rip, g, short, rex);
    JumpTables(s, 0xe8);
    HeadStep(regs, code, rip, g, short, rex, 0xe8);
    WordIs(code, rip, s.n);
    PushIs(regs, g, Wrap(rip + s.n + 4));
    g' := Push(regs, g, Wrap(rip + s.n + 4));
  }

  // --- fe and ff --------------------------------------------------------------------------------------------

  /** One more or one less, with the flags of the sum or difference but for CF. */
  ghost predicate Steps(regs: seq<Region>, g: Guest, up: bool, dst: Spot, a: u64, size: Size, rex: bool, next: u64,
      s: Stepped, v: u64, f: Flags)
  {
    && Leaves(if up then Sum else Difference, a, 1, size, g.flags, f, v % Modulus(size))
    && WroteTo(regs, g, dst, v, size, rex, f.(cf := g.flags.cf), next, s)
  }

  lemma OneIs(size: Size)
    ensures Trunc(1, size) == 1
  {
  }

  lemma StepsMean(regs: seq<Region>, g: Guest, up: bool, dst: Opnd, a: u64, size: Size, rex: bool, next: u64)
    returns (v: u64, f: Flags)
    requires !dst.Pending?
    ensures Steps(regs, g, up, SpotOf(dst), Trunc(a, size), size, rex, next,
      Ran(Operate(regs, g, if up then AInc else ADec, dst, a, 1, size, rex, next)), v, f)
  {
    hide Trunc, Modulus, Leaves, Wr, WroteTo, FlagsAdd, FlagsSub, Wrap;
    v := Wrap(if up then a + 1 else a - 1);
    f := if up then FlagsAdd(g.flags, a, 1, v, size) else FlagsSub(g.flags, a, 1, v, size);
    OneIs(size);
    TruncMod(v, size);
    if up { SumMeans(g.flags, a, 1, size); } else { DifferenceMeans(g.flags, a, 1, size); }
    WrMeans(regs, g, dst, v, size, rex, f.(cf := g.flags.cf), next);
  }

  lemma Group5Tables(s: At, op: byte)
    requires op == 0xfe || op == 0xff
    ensures StepOp(s, op) == StepGroup5(s, op) && NotPrefix(op)
  {
    hide StepRow, StepAcc, StepStack, StepImulImm, StepJump, StepImmGroup, StepLea, StepMovImm, StepShift,
         StepMovRmImm, StepGroup5, StepTwo;
  }

  lemma Group5Operands(s: At, op: byte, m: Rm, next: u64)
    requires op == 0xfe || op == 0xff
    requires m == Modrm(s.code, s.rip, s.n, s.rex, s.g.r) && next == Wrap(s.rip + m.n)
    ensures var size: Size := if op == 0xfe then 1 else s.size;
      var ext, rm := Peek(s.code, s.rip + s.n) / 8 % 8, Fixup(m.o, next);
      StepGroup5(s, op)
        == match Rd(s.regs, s.g, rm, size, s.hasRex)
           case None => Ran(Fault)
           case Some(a) =>
             if ext < 2 then Ran(Operate(s.regs, s.g, if ext == 0 then AInc else ADec, rm, a, 1, size, s.hasRex, next))
             else if ext == 2 then
               var p := Push(s.regs, s.g, next);
               if p.None? then Ran(Fault) else GoTo(s.regs, p.value, rm, s.hasRex)
             else if ext == 4 then GoTo(s.regs, s.g, rm, s.hasRex)
             else Other
  {
    hide Modrm, Fixup, Rd, Operate, Push, GoTo, Wrap, Peek;
    FieldsAre(Peek(s.code, s.rip + s.n), 0);
  }

  /** inc and dec, /0 and /1 of fe and ff. */
  lemma StepsFrom(regs: seq<Region>, code: Mem, rip: u64, g: Guest, short: bool, rex: Option<byte>, op: byte)
    returns (v: u64, f: Flags)
    requires Ok(regs, rip, 1, EXEC) && Begins(code, rip, short, rex, op) && (op == 0xfe || op == 0xff)
    requires Peek(code, rip + HeadLength(short, rex)) / 8 % 8 < 2
    ensures var n := HeadLength(short, rex);
      var size: Size := if op == 0xfe then 1 else Wide4(short, rex);
      var next := Wrap(rip + n + OperandLength(code, rip + n));
      var dst, up := NamedSpot(code, rip + n, Bits4(rex), g.r, next), Peek(code, rip + n) / 8 % 8 == 0;
      var a, s := Held(regs, g, dst, size, rex.Some?), Interpreter.Step(regs, code, rip, g);
      if a.None? then s == Ran(Fault) else Steps(regs, g, up, dst, a.value, size, rex.Some?, next, s, v, f)
  {
    hide Ok, Interpreter.Step, StepOp, StepGroup5, Begins, Modrm, Fixup, Rd, Operate, NamedSpot, OperandLength, Held,
         Steps, Peek, Push, GoTo;
    var s := Here(regs, code, rip, g, short, rex);
    var m := Modrm(code, rip, s.n, s.rex, g.r);
    var next := Wrap(rip + m.n);
    var size: Size := if op == 0xfe then 1 else s.size;
    Group5Tables(s, op);
    HeadStep(regs, code, rip, g, short, rex, op);
    ModrmMeans(code, rip, s.n, s.rex, g.r, next);
    Group5Operands(s, op, m, next);
    var dst := Fixup(m.o, next);
    HeldIs(regs, g, dst, size, rex.Some?);
    var a := Rd(regs, g, dst, size, rex.Some?);
    v, f := 0, g.flags;
    if a.Some? {
      v, f := StepsMean(regs, g, Peek(code, rip + s.n) / 8 % 8 == 0, dst, a.value, size, rex.Some?, next);
    }
  }

  /** The indirect call and jump, /2 and /4 of ff: the operand is read at its own size first, and the target,
      after the push, at eight bytes. */
  lemma IndirectMeans(regs: seq<Region>, code: Mem, rip: u64, g: Guest, short: bool, rex: Option<byte>)
    returns (g': Option<Guest>)
    requires Ok(regs, rip, 1, EXEC) && Begins(code, rip, short, rex, 0xff)
    requires var ext := Peek(code, rip + HeadLength(short, rex)) / 8 % 8; ext == 2 || ext == 4
    ensures var n := HeadLength(short, rex);
      var next := Wrap(rip + n + OperandLength(code, rip + n));
      var spot, call := NamedSpot(code, rip + n, Bits4(rex), g.r, next), Peek(code, rip + n) / 8 % 8 == 2;
      var s := Interpreter.Step(regs, code, rip, g);
      (if call then Pushed(regs, g, next, g') else g' == Some(g))
      && if Held(regs, g, spot, Wide4(short, rex), rex.Some?).None? || g'.None? then s == Ran(Fault)
         else
           var t := Held(regs, g'.value, spot, 8, rex.Some?);
           if t.None? then s == Ran(Fault) else s == Ran(Done(g'.value, t.value))
  {
    hide Ok, Interpreter.Step, StepOp, StepGroup5, Begins, Modrm, Fixup, Rd, Operate, NamedSpot, OperandLength, Held,
         Push, Pushed, Peek;
    var s := Here(regs, code, rip, g, short, rex);
    var m := Modrm(code, rip, s.n, s.rex, g.r);
    var next := Wrap(rip + m.n);
    Group5Tables(s, 0xff);
    HeadStep(regs, code, rip, g, short, rex, 0xff);
    ModrmMeans(code, rip, s.n, s.rex, g.r, next);
    Group5Operands(s, 0xff, m, next);
    var spot := Fixup(m.o, next);
    HeldIs(regs, g, spot, s.size, rex.Some?);
    PushIs(regs, g, next);
    g' := if Peek(code, rip + s.n) / 8 % 8 == 2 then Push(regs, g, next) else Some(g);
    if g'.Some? { HeldIs(regs, g'.value, spot, 8, rex.Some?); }
  }

  // --- the two-byte map ---------------------------------------------------------------------------------------

  lemma TwoTables(s: At)
    ensures StepOp(s, 0x0f) == StepTwo(s) && NotPrefix(0x0f)
  {
    hide StepRow, StepAcc, StepStack, StepImulImm, StepJump, StepImmGroup, StepLea, StepMovImm, StepShift,
         StepMovRmImm, StepGroup5, StepTwo;
  }

  /** 1e and 1f are nops of any length; 80 to 8f jump on a condition over four bytes of displacement. */
  lemma TwoJumpMeans(regs: seq<Region>, code: Mem, rip: u64, g: Guest, short: bool, rex: Option<byte>, op2: byte)
    requires Ok(regs, rip, 1, EXEC) && Begins(code, rip, short, rex, 0x0f)
    requires Peek(code, rip + HeadLength(short, rex)) == op2
    requires op2 == 0x1e || op2 == 0x1f || 0x80 <= op2 <= 0x8f
    ensures var at := rip + HeadLength(short, rex) + 1;
      Interpreter.Step(regs, code, rip, g)
        == Ran(Done(g, if op2 < 0x80 then Wrap(at + OperandLength(code, at))
                       else if Cond(g.flags, op2 - 0x80) then Wrap(Wrap(at + 4) + SignedWord(code, at))
                       else Wrap(at + 4)))
  {
    hide Ok, Interpreter.Step, StepOp, Begins, Modrm, Fixup, OperandLength, Sbytes, SignedWord, Cond, Peek, Wrap;
    var s := Here(regs, code, rip, g, short, rex);
    TwoTables(s);
    HeadStep(regs, code, rip, g, short, rex, 0x0f);
    ModrmMeans(code, rip, s.n + 1, s.rex, g.r, rip);
    WordIs(code, rip, s.n + 1);
  }

  lemma SetccIs(s: At, op2: byte, m: Rm)
    requires Peek(s.code, s.rip + s.n) == op2 && 0x90 <= op2 <= 0x9f
    requires m == Modrm(s.code, s.rip, s.n + 1, s.rex, s.g.r)
    ensures var next, v := Wrap(s.rip + m.n), if Cond(s.g.flags, op2 - 0x90) then 1 else 0;
      StepTwo(s) == Ran(Wr(s.regs, s.g, Fixup(m.o, next), v, 1, s.hasRex, next))
  {
    hide Modrm, Fixup, Wr, Rd, Multiplied, Cond, Peek, Wrap, Sbytes, Signed, SetReg, Sext;
    assert op2 % 16 == op2 - 0x90;
  }

  /** setcc writes one byte, 1 or 0, to a register or to memory. */
  lemma SetccMeans(regs: seq<Region>, code: Mem, rip: u64, g: Guest, short: bool, rex: Option<byte>, op2: byte)
    requires Ok(regs, rip, 1, EXEC) && Begins(code, rip, short, rex, 0x0f)
    requires Peek(code, rip + HeadLength(short, rex)) == op2
    requires 0x90 <= op2 <= 0x9f
    ensures var n := HeadLength(short, rex) + 1;
      var next := Wrap(rip + n + OperandLength(code, rip + n));
      var v := if Cond(g.flags, op2 - 0x90) then 1 else 0;
      WroteTo(regs, g, NamedSpot(code, rip + n, Bits4(rex), g.r, next), v, 1, rex.Some?, g.flags, next,
        Interpreter.Step(regs, code, rip, g))
  {
    hide Ok, Interpreter.Step, StepOp, StepTwo, Begins, Modrm, Fixup, Wr, WroteTo, NamedSpot, OperandLength, Cond, Peek,
         Wrap;
    var s := Here(regs, code, rip, g, short, rex);
    var m := Modrm(code, rip, s.n + 1, s.rex, g.r);
    var next := Wrap(rip + m.n);
    TwoTables(s);
    SetccIs(s, op2, m);
    HeadStep(regs, code, rip, g, short, rex, 0x0f);
    ModrmMeans(code, rip, s.n + 1, s.rex, g.r, next);
    WrMeans(regs, g, Fixup(m.o, next), if Cond(g.flags, op2 - 0x90) then 1 else 0, 1, rex.Some?, g.flags, next);
  }

  /** imul of a register by an operand. */
  lemma TwoProductMeans(regs: seq<Region>, code: Mem, rip: u64, g: Guest, short: bool, rex: Option<byte>)
    requires Ok(regs, rip, 1, EXEC) && Begins(code, rip, short, rex, 0x0f)
    requires Peek(code, rip + HeadLength(short, rex)) == 0xaf
    ensures var n, size := HeadLength(short, rex) + 1, Wide4(short, rex);
      var next := Wrap(rip + n + OperandLength(code, rip + n));
      var dst := NamedRegister(Peek(code, rip + n), Bits4(rex));
      var a := Held(regs, g, NamedSpot(code, rip + n, Bits4(rex), g.r, next), size, rex.Some?);
      var s := Interpreter.Step(regs, code, rip, g);
      if a.None? then s == Ran(Fault)
      else
        var v := Wrap(Signed(Get(g.r, dst.i), size) * Signed(a.value, size));
        WroteTo(regs, g, dst, v, size, rex.Some?, FlagsLogic(g.flags, v, size), next, s)
  {
    hide Ok, Interpreter.Step, StepOp, Begins, Modrm, Fixup, Rd, WroteTo, NamedSpot, OperandLength, Held, Signed,
         Multiplied, FlagsLogic, Peek, Wrap;
    var s := Here(regs, code, rip, g, short, rex);
    var m := Modrm(code, rip, s.n + 1, s.rex, g.r);
    var next := Wrap(rip + m.n);
    TwoTables(s);
    HeadStep(regs, code, rip, g, short, rex, 0x0f);
    ModrmMeans(code, rip, s.n + 1, s.rex, g.r, next);
    var src := Fixup(m.o, next);
    HeldIs(regs, g, src, s.size, rex.Some?);
    var a := Rd(regs, g, src, s.size, rex.Some?);
    if a.Some? {
      var product := Signed(Get(g.r, m.reg), s.size) * Signed(a.value, s.size);
      MultipliedMeans(regs, g, m.reg, product, s.size, rex.Some?, next);
    }
  }

  /** movzx and movsx, b6, b7, be and bf, of a byte or of two. */
  lemma ExtendMeans(regs: seq<Region>, code: Mem, rip: u64, g: Guest, short: bool, rex: Option<byte>, op2: byte)
    requires Ok(regs, rip, 1, EXEC) && Begins(code, rip, short, rex, 0x0f)
    requires Peek(code, rip + HeadLength(short, rex)) == op2
    requires op2 == 0xb6 || op2 == 0xb7 || op2 == 0xbe || op2 == 0xbf
    ensures var n, size := HeadLength(short, rex) + 1, Wide4(short, rex);
      var from: Size := if op2 == 0xb6 || op2 == 0xbe then 1 else 2;
      var next := Wrap(rip + n + OperandLength(code, rip + n));
      var a := Held(regs, g, NamedSpot(code, rip + n, Bits4(rex), g.r, next), from, rex.Some?);
      var s := Interpreter.Step(regs, code, rip, g);
      if a.None? then s == Ran(Fault)
      else
        var v := if op2 < 0xbe then a.value else Sext(a.value, from);
        WroteTo(regs, g, NamedRegister(Peek(code, rip + n), Bits4(rex)), v, size, rex.Some?, g.flags, next, s)
  {
    hide Ok, Interpreter.Step, StepOp, Begins, Modrm, Fixup, Rd, WroteTo, NamedSpot, OperandLength, Held, Sext, SetReg,
         Peek, Wrap;
    var s := Here(regs, code, rip, g, short, rex);
    var m := Modrm(code, rip, s.n + 1, s.rex, g.r);
    var next := Wrap(rip + m.n);
    var from: Size := if op2 == 0xb6 || op2 == 0xbe then 1 else 2;
    TwoTables(s);
    HeadStep(regs, code, rip, g, short, rex, 0x0f);
    ModrmMeans(code, rip, s.n + 1, s.rex, g.r, next);
    var src := Fixup(m.o, next);
    HeldIs(regs, g, src, from, rex.Some?);
    var a := Rd(regs, g, src, from, rex.Some?);
    if a.Some? {
      var v := if op2 < 0xbe then a.value else Sext(a.value, from);
      RegMeans(regs, g, m.reg, v, s.size, rex.Some?, g.flags, next);
    }
  }

  predicate Legacy(b: byte) {
    b == 0x66 || b == 0xf2 || b == 0xf3 || b == 0x26 || b == 0x2e || b == 0x36 || b == 0x3e || b == 0x64 || b == 0x65
    || b == 0x67
  }

  /** Legacy prefixes are skipped, whatever their order, as long as there are fewer than `fuel`: an operand
      size prefix among them makes the operands 16 bits, and one that moves an address is told. */
  lemma {:induction false} PrefixesMean(code: Mem, rip: u64, d: Dec, ps: seq<byte>, fuel: nat)
    requires |ps| < fuel && !Legacy(Peek(code, rip + d.n + |ps|))
    requires forall i :: 0 <= i < |ps| ==> Legacy(ps[i]) && ps[i] == Peek(code, rip + d.n + i)
    ensures var p := Prefixes(code, rip, d, fuel);
      p.Some? && p.value.n == d.n + |ps| && p.value.size == (if 0x66 in ps then 2 else d.size)
      && (p.value.plain <==> d.plain && 0x64 !in ps && 0x65 !in ps && 0x67 !in ps)
    decreases |ps|
  {
    if ps != [] {
      var b := ps[0];
      assert Byte(code, rip, d.n) == b && ps == [b] + ps[1..];
      var d1 := Dec(d.n + 1, if b == 0x66 then 2 else d.size, if b == 0x66 || b == 0xf2 || b == 0xf3 then b else d.mand,
        d.plain && b != 0x64 && b != 0x65 && b != 0x67);
      assert Prefixes(code, rip, d, fuel) == Prefixes(code, rip, d1, fuel - 1);
      forall i | 0 <= i < |ps[1..]| ensures Legacy(ps[1..][i]) && ps[1..][i] == Peek(code, rip + d1.n + i) {
        assert ps[1..][i] == ps[i + 1];
      }
      PrefixesMean(code, rip, d1, ps[1..], fuel - 1);
    }
  }

  /** A step allows for fourteen of them. */
  lemma StepPrefixes(regs: seq<Region>, code: Mem, rip: u64, g: Guest, ps: seq<byte>)
    requires Ok(regs, rip, 1, EXEC) && |ps| <= 14 && !Legacy(Peek(code, rip + |ps|))
    requires forall i :: 0 <= i < |ps| ==> Legacy(ps[i]) && ps[i] == Peek(code, rip + i)
    ensures var b, size: Size := Peek(code, rip + |ps|), if 0x66 in ps then 2 else 4;
      Interpreter.Step(regs, code, rip, g)
        == if 0x64 in ps || 0x65 in ps || 0x67 in ps then Other
           else if 0x40 <= b <= 0x4f then
             StepOp(At(regs, code, rip, |ps| + 2, b, true, if b / 8 % 2 == 1 then 8 else size, g),
               Peek(code, rip + |ps| + 1))
           else StepOp(At(regs, code, rip, |ps| + 1, 0, false, size, g), b)
  {
    hide Ok, StepOp, Prefixes, Legacy;
    PrefixesMean(code, rip, Dec(0, 4, 0, true), ps, MAX_PREFIXES);
  }
}
