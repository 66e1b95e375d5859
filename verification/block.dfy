/** A whole block: emitted, cut until it fits, finished and patched; and what running it does. */
module Block {
  import opened Words
  import opened StatusFlags
  import opened Insns
  import opened A64
  import opened CodeGen
  import opened Liveness
  import opened OutputBuffer
  import opened Emitter
  import opened ControlFlow

  const MAX_INSNS := 48
  const RESERVED := 24

  // --- what is emitted -------------------------------------------------------------------------

  /** The words of every instruction in turn, each computing the flags something later reads. */
  function EmitAll(host: Host, check: bool, v: seq<Insn>, rip: u64): seq<Instr> {
    if v == [] then []
    else PutInsn(Ctx(host, check, Need(v), rip), v[0]) + EmitAll(host, check, v[1..], v[0].next)
  }

  function Body(host: Host, check: bool, v: seq<Insn>, rip: u64): seq<Instr> {
    [PushX(LR)] + EmitAll(host, check, v, rip)
  }

  /** Where a block that falls off its end continues. */
  function EndRip(v: seq<Insn>, rip: u64): u64 { if v == [] then rip else EndRip(v[1..], v[0].next) }

  predicate Ends(v: seq<Insn>) { v != [] && Terminates(v[|v| - 1].kind) }

  /** Only the last instruction may leave. */
  predicate Linear(v: seq<Insn>) { forall i :: 0 <= i < |v| - 1 ==> !Terminates(v[i].kind) }

  function FallOff(v: seq<Insn>, rip: u64): seq<Instr> {
    if Ends(v) then [] else PutImm(0, EndRip(v, rip)) + PutLeave()
  }

  function ExitCode(): seq<Instr> { [Ldr(8, 0, CPU, OFF_CURRIP)] + PutLeave() }

  /** Each fault branch pointed `dist` words on from the start. */
  function Patched(code: seq<Instr>, dist: int): seq<Instr> {
    if code == [] then [] else [if IsHole(code[0]) then CbzW(9, dist) else code[0]] + Patched(code[1..], dist - 1)
  }

  function Draft(host: Host, check: bool, v: seq<Insn>, rip: u64): seq<Instr> {
    Body(host, check, v, rip) + FallOff(v, rip)
  }

  /** The finished block. */
  function BlockCode(host: Host, check: bool, v: seq<Insn>, rip: u64): seq<Instr> {
    var head := Draft(host, check, v, rip);
    Patched(head, |head|) + ExitCode()
  }

  // --- cutting a block that does not fit --------------------------------------------------------

  /** How many instructions fit after t, all of v or those before the first that does not. */
  function Fitting(host: Host, check: bool, v: seq<Insn>, rip: u64, t: Text, max: nat): (k: nat)
    ensures k <= |v|
    ensures k == |v| <==> v == [] || t.Add(EmitAll(host, check, v, rip), max).Text?
    decreases |v|
  {
    if v == [] then 0
    else
      var c := Ctx(host, check, Need(v), rip);
      AddAdd(t, PutInsn(c, v[0]), EmitAll(host, check, v[1..], v[0].next), max);
      AddLess(t, PutInsn(c, v[0]), max);
      if t.Add(PutInsn(c, v[0]), max).Full? then 0
      else 1 + Fitting(host, check, v[1..], v[0].next, t.Add(PutInsn(c, v[0]), max), max)
  }

  lemma AddLess(t: Text, a: seq<Instr>, max: nat)
    ensures t.Add(a, max).Text? ==> t.Add(a, max).Add([], max).Text?
  {
    HoleCountCat(if t.Text? then t.code else [], a);
    assert HoleCount([]) == 0;
  }

  const START := Text([PushX(LR)])

  /** The number of instructions of the block that survives. Cutting makes more flags live at the end,
      so what is left is compiled again and may have to be cut again. */
  function Surviving(host: Host, check: bool, v: seq<Insn>, rip: u64): (k: nat)
    ensures k <= |v|
    ensures k > 0 ==> START.Add(EmitAll(host, check, v[..k], rip), MAX_BLOCK - RESERVED).Text?
    decreases |v|
  {
    var k := Fitting(host, check, v, rip, START, MAX_BLOCK - RESERVED);
    assert v[..|v|] == v;
    if k == |v| then k
    else
      assert forall j :: 0 <= j <= k ==> v[..k][..j] == v[..j];
      Surviving(host, check, v[..k], rip)
  }

  // --- the emission loops ------------------------------------------------------------------------

  lemma FitsThen(host: Host, check: bool, v: seq<Insn>, rip: u64, t: Text, max: nat)
    requires v != []
    ensures var t1 := t.Add(PutInsn(Ctx(host, check, Need(v), rip), v[0]), max);
      t.Add(EmitAll(host, check, v, rip), max) == t1.Add(EmitAll(host, check, v[1..], v[0].next), max)
  {
    hide Text.Add, PutInsn;
    AddAdd(t, PutInsn(Ctx(host, check, Need(v), rip), v[0]), EmitAll(host, check, v[1..], v[0].next), max);
  }

  lemma {:induction false} EndRipPrefix(v: seq<Insn>, i: nat, rip: u64)
    requires i < |v|
    ensures EndRip(v[..i + 1], rip) == v[i].next
    decreases i
  {
    if i > 0 {
      assert v[..i + 1][1..] == v[1..][..i];
      EndRipPrefix(v[1..], i - 1, v[0].next);
    } else {
      assert v[..1][1..] == [];
    }
  }

  /** Emit instructions until one does not fit. */
  method EmitInsns(b: Buffer, host: Host, v: seq<Insn>, fneed: array<FlagSet>, rip: u64) returns (i: nat, at: u64)
    requires b.Valid() && b.Emitted().Text? && |v| <= fneed.Length
    requires forall j :: 0 <= j < |v| ==> fneed[j] == Need(v[j..])
    modifies b, b.out, b.fix
    ensures b.Valid() && b.max == old(b.max)
    ensures i == Fitting(host, b.check, v, rip, old(b.Emitted()), b.max) && at == EndRip(v[..i], rip)
    ensures i == |v| > 0 ==> b.Emitted() == old(b.Emitted()).Add(EmitAll(host, b.check, v, rip), b.max)
    ensures v == [] ==> b.Emitted() == old(b.Emitted())
  {
    hide Text.Add, PutInsn, Need, EndRip;
    ghost var t, max, check := b.Emitted(), b.max, b.check;
    i, at := 0, rip;
    assert v[0..] == v;
    assert EndRip(v[..0], rip) == rip by { EmptyEndRip(rip); }
    while i < |v|
      invariant 0 <= i <= |v| && b.Valid() && b.max == max && b.Emitted().Text?
      invariant i + Fitting(host, check, v[i..], at, b.Emitted(), max) == Fitting(host, check, v, rip, t, max)
      invariant |v| > 0 ==>
        t.Add(EmitAll(host, check, v, rip), max) == b.Emitted().Add(EmitAll(host, check, v[i..], at), max)
      invariant v == [] ==> b.Emitted() == t
      invariant at == EndRip(v[..i], rip)
    {
      var c := Ctx(host, b.check, fneed[i], at);
      assert v[i..][0] == v[i] && v[i..][1..] == v[i + 1..];
      FitsThen(host, check, v[i..], at, b.Emitted(), max);
      EmitInsn(b, c, v[i]);
      if b.full { return; }
      EndRipPrefix(v, i, rip);
      at := v[i].next;
      i := i + 1;
    }
    assert v[i..] == [];
    ValidText(b);
  }

  lemma EmptyEndRip(rip: u64)
    ensures EndRip([], rip) == rip
  {
  }

  // --- finishing ------------------------------------------------------------------------------------

  lemma {:induction false} PatchedAt(code: seq<Instr>, dist: int)
    ensures |Patched(code, dist)| == |code|
    ensures forall i :: 0 <= i < |code| ==>
      Patched(code, dist)[i] == if IsHole(code[i]) then CbzW(9, dist - i) else code[i]
    decreases |code|
  {
    if code != [] {
      PatchedAt(code[1..], dist - 1);
      forall i | 0 <= i < |code|
        ensures Patched(code, dist)[i] == if IsHole(code[i]) then CbzW(9, dist - i) else code[i]
      {
        if i > 0 { assert code[i] == code[1..][i - 1]; }
      }
    }
  }

  lemma PatchedCat(a: seq<Instr>, b: seq<Instr>, dist: int)
    ensures Patched(a + b, dist) == Patched(a, dist) + Patched(b, dist - |a|)
  {
    PatchedAt(a, dist);
    PatchedAt(b, dist - |a|);
    PatchedAt(a + b, dist);
  }

  lemma PatchedPlain(code: seq<Instr>, dist: int)
    requires Plain(code)
    ensures Patched(code, dist) == code
  {
    PatchedAt(code, dist);
  }

  /** Point every remembered branch at the exit. */
  method PatchFaults(b: Buffer, exitAt: nat)
    requires b.Valid() && !b.full
    modifies b.out
    ensures b.out[..b.n] == Patched(old(b.out[..b.n]), exitAt)
  {
    hide Aimed, Patched, HoleCount, Holes;
    ghost var was, holes := b.out[..b.n], b.fix[..b.nfix];
    HolesInside(was);
    AimedNone(was, exitAt);
    var i := 0;
    while i < b.nfix
      invariant 0 <= i <= b.nfix && b.fix[..b.nfix] == holes
      invariant Aimed(was, holes[..i], exitAt, b.out[..b.n])
    {
      var k := b.fix[i];
      assert k == holes[i] < b.n;
      ghost var now := b.out[..b.n];
      b.out[k] := CbzW(9, exitAt - k);
      assert b.out[..b.n] == now[k := CbzW(9, exitAt - k)];
      AimedMore(was, holes[..i], exitAt, now, k);
      assert holes[..i + 1] == holes[..i] + [k];
      i := i + 1;
    }
    assert holes[..i] == holes;
    AimedAll(was, exitAt, b.out[..b.n]);
  }

  lemma HolesInside(code: seq<Instr>)
    ensures forall i :: 0 <= i < |Holes(code, 0)| ==> Holes(code, 0)[i] < |code|
  {
    hide Holes;
    HolesExact(code, 0);
    forall i | 0 <= i < |Holes(code, 0)| ensures Holes(code, 0)[i] < |code| {
      assert Holes(code, 0)[i] in Holes(code, 0);
    }
  }

  /** `now` is `was` with the branches at the indices `hs` pointed at the exit. */
  ghost predicate Aimed(was: seq<Instr>, hs: seq<nat>, exitAt: nat, now: seq<Instr>) {
    |now| == |was| && forall k :: 0 <= k < |was| ==> now[k] == if k in hs then CbzW(9, exitAt - k) else was[k]
  }

  lemma AimedNone(was: seq<Instr>, exitAt: nat)
    ensures Aimed(was, [], exitAt, was)
  {
  }

  lemma AimedMore(was: seq<Instr>, hs: seq<nat>, exitAt: nat, now: seq<Instr>, h: nat)
    requires Aimed(was, hs, exitAt, now) && h < |was|
    ensures Aimed(was, hs + [h], exitAt, now[h := CbzW(9, exitAt - h)])
  {
  }

  lemma AimedAll(was: seq<Instr>, exitAt: nat, now: seq<Instr>)
    requires Aimed(was, Holes(was, 0), exitAt, now)
    ensures now == Patched(was, exitAt)
  {
    hide Patched, Holes;
    HolesExact(was, 0);
    PatchedAt(was, exitAt);
  }

  lemma TailSize(v: seq<Insn>, rip: u64)
    ensures |FallOff(v, rip)| <= 6 && Plain(FallOff(v, rip)) && |ExitCode()| == 3 && Plain(ExitCode())
  {
    PlainImm(0, EndRip(v, rip));
  }

  /** The reserved words always hold the tail. */
  lemma TailFits(t: Text, tail: seq<Instr>)
    requires t.Text? && |t.code| <= MAX_BLOCK - RESERVED && HoleCount(t.code) <= MAX_FIX && |tail| <= RESERVED
        && Plain(tail)
    ensures t.Add(tail, MAX_BLOCK) == Text(t.code + tail)
  {
    hide HoleCount;
    PlainShaped(tail);
  }

  /** The way out for a block that falls off its end, and the fault exit. */
  method EmitTail(b: Buffer, ended: bool, pc: u64) returns (exitAt: nat)
    requires b.Valid() && !b.full && b.n <= 2048 - 24 && b.max == 2048
    modifies b, b.out, b.fix
    ensures var fall := if ended then [] else PutImm(0, pc) + PutLeave();
      b.Valid() && b.Emitted() == Text(old(b.out[..b.n]) + fall + ExitCode()) && exitAt == old(b.n) + |fall|
  {
    hide Text.Add, PutImm, PutLeave, HoleCount, Plain, Holes;
    ghost var t := b.Emitted();
    ghost var fall := if ended then [] else PutImm(0, pc) + PutLeave();
    ValidText(b);
    ValidHoles(b);
    if !ended {
      EmitImm(b, 0, pc);
      EmitLeave(b);
      AddAdd(t, PutImm(0, pc), PutLeave(), b.max);
    }
    FallSize(ended, pc);
    TailFits(t, fall);
    exitAt := b.n;
    ghost var t1 := b.Emitted();
    b.Put(Ldr(8, 0, CPU, OFF_CURRIP));
    EmitLeave(b);
    AddAdd(t1, [Ldr(8, 0, CPU, OFF_CURRIP)], PutLeave(), b.max);
    AddAdd(t, fall, ExitCode(), b.max);
    TailFits(t, fall + ExitCode());
    assert t.code + fall + ExitCode() == t.code + (fall + ExitCode());
  }

  lemma FallSize(ended: bool, pc: u64)
    ensures var fall := if ended then [] else PutImm(0, pc) + PutLeave();
      |fall| <= 6 && Plain(fall) && |fall + ExitCode()| <= 9 && Plain(fall + ExitCode())
  {
    PlainImm(0, pc);
  }

  lemma ValidHoles(b: Buffer)
    requires b.Valid() && !b.full
    ensures HoleCount(b.out[..b.n]) <= MAX_FIX
  {
  }

  /** What a finished block is made of. */
  lemma FinishedIs(host: Host, check: bool, v: seq<Insn>, rip: u64)
    ensures var head := Draft(host, check, v, rip);
      Patched(head + ExitCode(), |head|) == BlockCode(host, check, v, rip)
  {
    var head := Draft(host, check, v, rip);
    PatchedCat(head, ExitCode(), |head|);
    TailSize(v, rip);
    PatchedPlain(ExitCode(), 0);
  }

  lemma StartText(code: seq<Instr>, max: nat)
    requires START.Add(code, max).Text?
    ensures START.Add(code, max) == Text([PushX(LR)] + code) && |[PushX(LR)] + code| <= max
  {
  }

  lemma StartIs(max: nat)
    requires max >= 1
    ensures Text([]).Add([PushX(LR)], max) == START
  {
    SkipWord(PushX(LR), [], 0);
    assert [] + [PushX(LR)] == [PushX(LR)] && HoleCount([]) == 0 && [PushX(LR)] + [] == [PushX(LR)];
  }

  lemma EmptyFits(host: Host, check: bool, v: seq<Insn>, rip: u64)
    requires v == []
    ensures START.Add(EmitAll(host, check, v, rip), MAX_BLOCK - RESERVED) == START
  {
    assert HoleCount([]) == 0;
    SkipWord(PushX(LR), [], 0);
    assert [PushX(LR)] + [] == [PushX(LR)];
  }

  /** One attempt: a fresh buffer over the words, the liveness of what is left, and its instructions. */
  method Attempt(words: array<Instr>, fneed: array<FlagSet>, host: Host, check: bool, v: seq<Insn>, rip: u64)
    returns (b: Buffer, i: nat, at: u64)
    requires words.Length == MAX_BLOCK && |v| <= fneed.Length
    modifies words, fneed
    ensures fresh(b) && fresh(b.fix) && b.out == words && b.check == check && b.Valid()
    ensures i == Fitting(host, check, v, rip, START, MAX_BLOCK - RESERVED) && at == EndRip(v[..i], rip)
    ensures i == |v| ==> !b.full && b.out[..b.n] == Body(host, check, v, rip) && b.n <= MAX_BLOCK - RESERVED
  {
    hide Text.Add, Need, EmitAll, EndRip;
    FlagLiveness(v, fneed);
    b := new Buffer(words, MAX_BLOCK - RESERVED, check);
    b.Put(PushX(LR));
    StartIs(MAX_BLOCK - RESERVED);
    i, at := EmitInsns(b, host, v, fneed, rip);
    if i == |v| {
      if v == [] { EmptyFits(host, check, v, rip); }
      StartText(EmitAll(host, check, v, rip), MAX_BLOCK - RESERVED);
    }
  }

  /** Emit, cut where it overflowed, and start again until everything left fits. The count goes down each
      time. Leaves a buffer holding the body and the number of instructions in it. */
  method EmitFitting(words: array<Instr>, host: Host, check: bool, v: seq<Insn>, rip: u64) returns (b: Buffer,
      count: nat, pc: u64)
    requires words.Length == MAX_BLOCK && |v| <= MAX_INSNS
    modifies words
    ensures fresh(b) && fresh(b.fix) && b.out == words && b.check == check && b.Valid() && !b.full
    ensures count == Surviving(host, check, v, rip) && pc == EndRip(v[..count], rip)
    ensures b.out[..b.n] == Body(host, check, v[..count], rip) && b.n <= MAX_BLOCK - RESERVED
  {
    hide Body, Fitting, EndRip;
    var fneed := new FlagSet[MAX_INSNS](_ => NONE);
    count := |v|;
    assert v[..|v|] == v;
    while true
      invariant count <= |v| && Surviving(host, check, v[..count], rip) == Surviving(host, check, v, rip)
      decreases count
    {
      var i;
      b, i, pc := Attempt(words, fneed, host, check, v[..count], rip);
      assert v[..count][..i] == v[..i];
      if i == count { return; }
      count := i;
    }
  }

  /** Compile a decoded run of instructions: None if too little of it survives to be worth entering. */
  method Compile(words: array<Instr>, host: Host, check: bool, v: seq<Insn>, rip: u64) returns (n: nat, count: nat)
    requires words.Length == 2048 && |v| <= 48 && Linear(v)
    modifies words
    ensures count == Surviving(host, check, v, rip)
    ensures n <= 2048 && (count < 2 <==> n == 0)
    ensures count >= 2 ==> words[..n] == BlockCode(host, check, v[..count], rip)
  {
    hide Text.Add, EmitAll, Surviving;
    var b, k, pc := EmitFitting(words, host, check, v, rip);
    count := k;
    if count < 2 { return 0, count; }
    b.max := MAX_BLOCK;
    var exitAt := EmitTail(b, Terminates(v[count - 1].kind), pc);
    assert b.out[..b.n] == Draft(host, check, v[..count], rip) + ExitCode();
    PatchFaults(b, exitAt);
    FinishedIs(host, check, v[..count], rip);
    n := b.n;
  }
}
