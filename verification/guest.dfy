/** Guest state and the interpreter's primitives on it: memory with its write log, and the merging
    register file. */
module GuestState {
  import opened Words
  import opened StatusFlags
  import opened Regions

  /** Every address has a byte: which of them the guest may touch is the region table's business. */
  datatype Memory = Memory(bytes: imap<int, byte>) {
    ghost predicate Total() { forall a: int :: a in bytes }
  }

  type Mem = m: Memory | m.Total() ghost witness Memory(imap a: int | true :: 0)

  function Peek(m: Mem, a: int): byte { m.bytes[a] }

  function Poke(m: Mem, a: int, v: byte): Mem { Memory(m.bytes[a := v]) }

  type RegFile = map<int, u64>

  function Get(m: RegFile, i: int): u64 { if i in m then m[i] else 0 }

  const RCX := 1
  const RSP := 4

  // --- the write log ------------------------------------------------------------

  const LOG_MAX := 512

  /** One logged write; `before` is the window of `span` bytes from addr as it was. */
  datatype Entry = Entry(addr: u64, was: u64, val: u64, size: Size, span: nat, before: seq<byte>)

  datatype Log = Off | On(entries: seq<Entry>, overflow: bool)

  datatype Guest = Guest(r: RegFile, flags: Flags, xmm: RegFile, mem: Mem, log: Log)

  /** Little-endian load of n bytes. */
  function Load(m: Mem, a: int, n: nat): (v: nat)
    ensures v < ByteLimit(n)
    decreases n
  {
    if n == 0 then 0 else Peek(m, a) + 0x100 * Load(m, a + 1, n - 1)
  }

  function ByteLimit(n: nat): (r: nat)
    ensures r >= 1
  {
    if n == 0 then 1 else 0x100 * ByteLimit(n - 1)
  }

  lemma ByteLimits(size: Size)
    ensures ByteLimit(size) == Modulus(size)
  {
    assert ByteLimit(1) == 0x100 && ByteLimit(2) == 0x1_0000 && ByteLimit(4) == 0x1_0000_0000;
    assert ByteLimit(5) == 0x100_0000_0000;
    assert ByteLimit(8) == 0x1_0000_0000_0000_0000;
  }

  function LoadSize(m: Mem, a: int, size: Size): u64 {
    ByteLimits(size);
    Load(m, a, size)
  }

  /** Little-endian store of the low n bytes of v. */
  function Store(m: Mem, a: int, v: nat, n: nat): Mem
    decreases n
  {
    if n == 0 then m else Store(Poke(m, a, v % 0x100), a + 1, v / 0x100, n - 1)
  }

  function Window(m: Mem, a: int, n: nat): (w: seq<byte>)
    ensures |w| == n
    decreases n
  {
    if n == 0 then [] else [Peek(m, a)] + Window(m, a + 1, n - 1)
  }

  /** Record a write about to happen. Nothing is recorded once the log is full. */
  function LogWrite(regs: seq<Region>, g: Guest, a: u64, v: u64, size: Size): Log {
    if g.log.Off? then g.log
    else if |g.log.entries| >= LOG_MAX then g.log.(overflow := true)
    else
      var span := if Ok(regs, a, 16, READ) then 16 else size;
      var e := Entry(a, LoadSize(g.mem, a, size), Trunc(v, size), size, span, Window(g.mem, a, span));
      g.log.(entries := g.log.entries + [e])
  }

  function Ld(regs: seq<Region>, g: Guest, a: u64, size: Size): Option<u64> {
    if AccessOk(regs, a, size, READ) then Some(LoadSize(g.mem, a, size)) else None
  }

  /** The store itself, log first. */
  function Stored(regs: seq<Region>, g: Guest, a: u64, v: u64, size: Size): Guest {
    g.(log := LogWrite(regs, g, a, v, size), mem := Store(g.mem, a, v, size))
  }

  function St(regs: seq<Region>, g: Guest, a: u64, v: u64, size: Size): Option<Guest> {
    if AccessOk(regs, a, size, WRITE) then Some(Stored(regs, g, a, v, size)) else None
  }

  // --- registers -----------------------------------------------------------------

  function SetReg(g: Guest, r: int, v: u64, size: Size): Guest {
    var was := Get(g.r, r);
    var now :=
      if size == 1 then WithLowByte(was, v)
      else if size == 2 then was - was % 0x1_0000 + v % 0x1_0000
      else if size == 4 then v % 0x1_0000_0000
      else v;
    g.(r := g.r[r := now])
  }

  /** Without a REX prefix, byte registers 4 to 7 are ah, ch, dh and bh. */
  predicate HighByte(r: int, rex: bool) { !rex && 4 <= r < 8 }

  function GetReg8(g: Guest, r: int, rex: bool): u64 {
    if HighByte(r, rex) then (Get(g.r, r - 4) / 0x100) % 0x100 else Get(g.r, r) % 0x100
  }

  function SetReg8(g: Guest, r: int, v: u64, rex: bool): Guest {
    if HighByte(r, rex) then
      g.(r := g.r[r - 4 := WithHighByte(Get(g.r, r - 4), v)])
    else SetReg(g, r, v, 1)
  }

  /** Register operands of either kind. */
  function RegOperand(g: Guest, r: int, size: Size, rex: bool): u64 {
    if size == 1 then GetReg8(g, r, rex) else Trunc(Get(g.r, r), size)
  }

  function SetOperand(g: Guest, r: int, v: u64, size: Size, rex: bool): Guest {
    if size == 1 then SetReg8(g, r, v, rex) else SetReg(g, r, v, size)
  }
}
