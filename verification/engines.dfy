/** Where the interpreter touches memory that compiled code does not, and so exactly when the two
    engines agree about an instruction. */
module Engines {
  import opened Words
  import opened StatusFlags
  import opened Regions
  import opened GuestState
  import opened Insns
  import opened Liveness
  import opened Decoder

  /** The interpreter reads a store's destination first, and an indirect target once at the operand size. */
  predicate ReadsFirst(o: Insn) {
    (o.kind.KMR? && o.op.AMov?) || ((o.kind.KCallM? || o.kind.KJmpM?) && o.mem)
  }

  predicate FirstReadOk(regs: seq<Region>, o: Insn, r: RegFile) {
    ReadsFirst(o) ==> AccessOk(regs, Address(o, r), o.size, READ)
  }

  /** The interpreter's meaning is the compiled one but for that read. */
  lemma StrictIs(regs: seq<Region>, o: Insn, keep: FlagSet, g: Guest)
    ensures Meaning(regs, o, keep, true, g)
         == if FirstReadOk(regs, o, g.r) then Meaning(regs, o, keep, false, g) else Fault
  {
    hide AccessOk, Address, LoadSize, AluStep, Store2, Push, Jump, RegOperand, MeaningShift, MeaningImul, MeaningMovx,
        Cond;
  }

  /** The accesses compiled code makes where the interpreter reads first: the store, the target at full
      width, and for a call the return address pushed. */
  predicate CompiledOk(regs: seq<Region>, o: Insn, r: RegFile) {
    if o.kind.KMR? then AccessOk(regs, Address(o, r), o.size, WRITE)
    else
      && AccessOk(regs, Address(o, r), 8, READ)
      && (o.kind.KCallM? ==> AccessOk(regs, Wrap(Get(r, RSP) - 8), 8, WRITE))
  }

  /** The engines agree on an instruction exactly when that read is allowed, or what compiled code does
      instead is refused. */
  lemma EnginesAgree(regs: seq<Region>, o: Insn, keep: FlagSet, g: Guest)
    ensures Meaning(regs, o, keep, true, g) == Meaning(regs, o, keep, false, g)
      <==> FirstReadOk(regs, o, g.r) || !CompiledOk(regs, o, g.r)
  {
    hide Meaning, AccessOk, Address;
    StrictIs(regs, o, keep, g);
    if ReadsFirst(o) { CompiledFaults(regs, o, keep, g); }
  }

  lemma CompiledFaults(regs: seq<Region>, o: Insn, keep: FlagSet, g: Guest)
    requires ReadsFirst(o)
    ensures Meaning(regs, o, keep, false, g).Done? <==> CompiledOk(regs, o, g.r)
  {
    hide AccessOk, Address, LoadSize, AluStep, Stored, RegOperand;
  }

  // --- when the extra read never matters ----------------------------------------------------------

  ghost predicate WritableReadable(s: seq<Region>) { forall i :: 0 <= i < |s| && s[i].prot.w ==> s[i].prot.r }

  ghost predicate AllReadable(s: seq<Region>) { forall i :: 0 <= i < |s| ==> s[i].prot.r }

  lemma {:induction false} OkReadable(s: seq<Region>, a: u64, n: u64)
    requires a + n < 0x1_0000_0000_0000_0000 && WritableReadable(s) && OkFrom(s, a, n, WRITE)
    ensures OkFrom(s, a, n, READ)
    decreases n
  {
    hide Find;
    if n != 0 {
      var i := Find(s, a);
      var avail := s[i].end - a;
      if avail < n { OkReadable(s, a + avail, n - avail); }
    }
  }

  lemma {:induction false} MappedReadable(s: seq<Region>, a: u64, n: u64)
    requires a + n < 0x1_0000_0000_0000_0000 && AllReadable(s) && OkFrom(s, a, n, Prot(false, false, false))
    ensures OkFrom(s, a, n, READ)
    decreases n
  {
    hide Find;
    if n != 0 {
      var i := Find(s, a);
      var avail := s[i].end - a;
      if avail < n { MappedReadable(s, a + avail, n - avail); }
    }
  }

  lemma WriteThenRead(s: seq<Region>, a: u64, size: Size)
    requires WritableReadable(s) && AccessOk(s, a, size, WRITE)
    ensures AccessOk(s, a, size, READ)
  {
    hide OkFrom;
    if Ok(s, a, size, WRITE) { OkReadable(s, a, size); }
  }

  lemma NarrowRead(s: seq<Region>, a: u64, size: Size)
    requires AllReadable(s) && AccessOk(s, a, 8, READ)
    ensures AccessOk(s, a, size, READ)
  {
    hide OkFrom;
    if Ok(s, a, 8, READ) {
      OkShorter(s, a, 8, size, READ);
    } else if Mapped(s, a, size) {
      MappedReadable(s, a, size);
    }
  }

  /** What spares an instruction the difference: writable regions are readable, and an indirect call
      or jump reads its target at full width or every region is readable. */
  ghost predicate Spared(regs: seq<Region>, o: Insn) {
    && WritableReadable(regs)
    && ((o.kind.KCallM? || o.kind.KJmpM?) && o.mem ==> o.size == 8 || AllReadable(regs))
  }

  lemma SparedAgrees(regs: seq<Region>, o: Insn, keep: FlagSet, g: Guest)
    requires Spared(regs, o)
    ensures Meaning(regs, o, keep, true, g) == Meaning(regs, o, keep, false, g)
  {
    hide Meaning, AccessOk, Address, WritableReadable, AllReadable;
    EnginesAgree(regs, o, keep, g);
    if ReadsFirst(o) && CompiledOk(regs, o, g.r) {
      if o.kind.KMR? {
        WriteThenRead(regs, Address(o, g.r), o.size);
      } else if o.size != 8 {
        NarrowRead(regs, Address(o, g.r), o.size);
      }
    }
  }

  lemma ReadableSpares(regs: seq<Region>, v: seq<Insn>)
    requires AllReadable(regs)
    ensures forall i :: 0 <= i < |v| ==> Spared(regs, v[i])
  {
  }

  // --- where they differ ------------------------------------------------------------------------------

  /** Bytes at 0x400000: mov [0x1000], rbx. */
  const PLAIN_BYTES: CodeWindow := [0x48, 0x89, 0x1c, 0x25, 0x00, 0x10, 0, 0, 0, 0, 0, 0, 0, 0, 0, 0]

  const PLAIN := Blank(8, true).(kind := KMR, op := AMov, reg := 3, mem := true, disp := 0x1000, len := 8,
                                 next := 0x400008)

  lemma PlainDecodes()
    ensures Decode(PLAIN_BYTES, 0x400000) == Some(PLAIN)
  {
    hide HeadOf, Operation, DecodeRow, Decode, Finish;
    PlainParts();
    PlainRow();
    assert PLAIN_BYTES[1] == 0x89;
    RowOperation(PLAIN_BYTES);
    var c := Cur(8, PLAIN.(len := 0, next := 0));
    DecodeIs(PLAIN_BYTES, 0x400000, Head(1, 0, 0x48, true), 8, c);
    Finished(c, 0x400000);
  }

  lemma DecodeIs(p: CodeWindow, rip: u64, h: Head, size: Size, c: Cur)
    requires HeadOf(p) == h && h.mand == 0 && size == (if RexW(h.rex) then 8 else 4)
    requires Operation(p, h.n + 1, h.rex, 0, p[h.n], size, h.hasRex) == Some(c)
    ensures Decode(p, rip) == Some(Finish(c, rip))
  {
    hide HeadOf, Operation, Finish;
  }

  lemma Finished(c: Cur, rip: u64)
    requires c.n <= 12 && rip <= 0x1_0000_0000 && (c.o.kind.KMR? || c.o.kind.KJmpM?) && c.o.target == 0
    ensures Finish(c, rip) == c.o.(len := c.n, next := rip + c.n)
  {
  }

  lemma RowOperation(p: CodeWindow)
    ensures Operation(p, 2, 0x48, 0, 0x89, 8, true) == Some(DecodeRow(p, 2, 0x48, 0x89, 8, true))
  {
    hide DecodeRow;
  }

  lemma PlainRow()
    ensures DecodeRow(PLAIN_BYTES, 2, 0x48, 0x89, 8, true) == Cur(8, PLAIN.(len := 0, next := 0))
  {
    hide ModrmMem, ModOf, RegField;
    PlainParts();
    assert PLAIN_BYTES[2] == 0x1c;
  }

  lemma PlainParts()
    ensures HeadOf(PLAIN_BYTES) == Head(1, 0, 0x48, true)
    ensures ModrmMem(PLAIN_BYTES, 3, 0x48, 0x1c) == Ref(8, NOWHERE.(disp := 0x1000))
    ensures ModOf(0x1c) == 0 && RegField(0x1c, 0x48) == 3
  {
  }

  /** A store to a region that is writable but not readable: compiled code makes it, the interpreter faults. */
  lemma WriteOnlyDiffers(g: Guest)
    ensures var regs := [Region(0x1000, 0x2000, WRITE)];
      Disjoint(regs) && Meaning(regs, PLAIN, ALL, true, g).Fault? && Meaning(regs, PLAIN, ALL, false, g).Done?
  {
    hide Store, LogWrite, LoadSize, RegOperand;
    var regs := [Region(0x1000, 0x2000, WRITE)];
    assert Find(regs, 0x1000) == 0;
    assert Address(PLAIN, g.r) == 0x1000;
  }

  /** Bytes at 0x400000: jmp [0x1ffc]. */
  const NARROW_BYTES: CodeWindow := [0xff, 0x24, 0x25, 0xfc, 0x1f, 0, 0, 0, 0, 0, 0, 0, 0, 0, 0, 0]

  const NARROW := Blank(4, false).(kind := KJmpM, mem := true, disp := 0x1ffc, len := 7, next := 0x400007)

  lemma NarrowDecodes()
    ensures Decode(NARROW_BYTES, 0x400000) == Some(NARROW)
  {
    hide HeadOf, DecodeGroup5, Decode;
    NarrowParts();
    NarrowGroup();
    NarrowFrom(NARROW_BYTES);
  }

  lemma NarrowFrom(p: CodeWindow)
    requires HeadOf(p) == Head(0, 0, 0, false) && p[0] == 0xff
    requires DecodeGroup5(p, 1, 0, 0xff, 4, false) == Some(Cur(7, NARROW.(len := 0, next := 0)))
    ensures Decode(p, 0x400000) == Some(NARROW)
  {
    hide HeadOf, Operation, DecodeGroup5, Decode, Finish;
    GroupOperation(p);
    var c := Cur(7, NARROW.(len := 0, next := 0));
    DecodeIs(p, 0x400000, Head(0, 0, 0, false), 4, c);
    Finished(c, 0x400000);
  }

  lemma GroupOperation(p: CodeWindow)
    ensures Operation(p, 1, 0, 0, 0xff, 4, false) == DecodeGroup5(p, 1, 0, 0xff, 4, false)
  {
    hide DecodeRow, DecodeImmGroup, DecodeAcc, DecodeMovImm, DecodeShift, DecodeImulImm, DecodeLea, DecodeStack,
         DecodeJump, DecodeTwo, DecodeGroup5;
  }

  lemma NarrowGroup()
    ensures DecodeGroup5(NARROW_BYTES, 1, 0, 0xff, 4, false) == Some(Cur(7, NARROW.(len := 0, next := 0)))
  {
    hide ModrmMem, ModOf, RegOf, RmField;
    NarrowParts();
    assert NARROW_BYTES[1] == 0x24;
  }

  lemma NarrowParts()
    ensures HeadOf(NARROW_BYTES) == Head(0, 0, 0, false)
    ensures ModrmMem(NARROW_BYTES, 2, 0, 0x24) == Ref(7, NOWHERE.(disp := 0x1ffc))
    ensures NARROW_BYTES[0] == 0xff && ModOf(0x24) == 0 && RegOf(0x24) == 4
  {
  }

  /** A 4-byte first read inside an unreadable region whose 8-byte read runs past the region's end. */
  lemma NarrowReadDiffers(g: Guest)
    ensures var regs := [Region(0x1000, 0x2000, EXEC)];
      Disjoint(regs) && WritableReadable(regs)
      && Meaning(regs, NARROW, ALL, true, g).Fault? && Meaning(regs, NARROW, ALL, false, g).Done?
  {
    hide LoadSize;
    var regs := [Region(0x1000, 0x2000, EXEC)];
    assert Find(regs, 0x1ffc) == 0;
    assert Find(regs, 0x2000) == -1;
    assert Address(NARROW, g.r) == 0x1ffc;
  }

  // --- runs ---------------------------------------------------------------------------------------------

  /** Whenever the interpreter gets through, so does the run without the extra reads, to the same state. */
  lemma {:induction false} StrictRun(regs: seq<Region>, v: seq<Insn>, k: nat, rip: u64, g: Guest)
    requires k <= |v| && Run(regs, v, k, true, true, rip, g).Done?
    ensures Run(regs, v, k, true, false, rip, g) == Run(regs, v, k, true, true, rip, g)
    decreases k
  {
    hide Meaning, FirstReadOk;
    if k > 0 {
      StrictIs(regs, v[0], ALL, g);
      var d := Meaning(regs, v[0], ALL, true, g);
      StrictRun(regs, v[1..], k - 1, d.rip, d.g);
    }
  }

  /** Where no instruction is exposed to the difference the two runs are one, faults included. */
  lemma {:induction false} SparedRun(regs: seq<Region>, v: seq<Insn>, k: nat, rip: u64, g: Guest)
    requires k <= |v| && forall i :: 0 <= i < k ==> Spared(regs, v[i])
    ensures Run(regs, v, k, true, false, rip, g) == Run(regs, v, k, true, true, rip, g)
    decreases k
  {
    hide Meaning, Spared;
    if k > 0 {
      SparedAgrees(regs, v[0], ALL, g);
      match Meaning(regs, v[0], ALL, true, g)
      case Fault =>
      case Done(g1, rip1) =>
        assert forall i :: 0 <= i < k - 1 ==> v[1..][i] == v[i + 1];
        SparedRun(regs, v[1..], k - 1, rip1, g1);
    }
  }
}
