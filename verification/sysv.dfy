/** The argument reader, against the layout that section 3.2.3 of the System V AMD64 ABI prescribes. */
module SystemV {
  import opened Words
  import opened Regions
  import opened GuestState

  datatype Arg = IntArg(v: u64) | SseArg(v: u64)

  const INT_REGS := 6
  const SSE_REGS := 8

  /** rdi, rsi, rdx, rcx, r8, r9 */
  function IntReg(k: nat): int {
    if k == 0 then 7 else if k == 1 then 6 else if k == 2 then 2 else if k == 3 then 1 else k + 4
  }

  /** The low half of an xmm register. */
  function Xmm(g: Guest, k: nat): u64 { Get(g.xmm, 2 * k) }

  // --- the convention ------------------------------------------------------------------------------------

  /** How many of the first i arguments are integers. */
  function Ints(args: seq<Arg>, i: nat): (n: nat)
    requires i <= |args|
    ensures n <= i
  {
    if i == 0 then 0 else Ints(args, i - 1) + if args[i - 1].IntArg? then 1 else 0
  }

  function Sses(args: seq<Arg>, i: nat): nat
    requires i <= |args|
  {
    i - Ints(args, i)
  }

  function AtMost(n: nat, k: nat): nat { if n < k then n else k }

  /** How many of the first i arguments did not fit in their registers. */
  function Spilled(args: seq<Arg>, i: nat): int
    requires i <= |args|
  {
    i - AtMost(Ints(args, i), 6) - AtMost(Sses(args, i), 8)
  }

  /** The register of the k-th argument of class INTEGER, by number: rdi, rsi, rdx, rcx, r8, r9. */
  ghost predicate InIntRegister(r: RegFile, k: nat, v: u64) {
    && (k == 0 ==> Get(r, 7) == v) && (k == 1 ==> Get(r, 6) == v) && (k == 2 ==> Get(r, 2) == v)
    && (k == 3 ==> Get(r, 1) == v) && (k == 4 ==> Get(r, 8) == v) && (k == 5 ==> Get(r, 9) == v)
  }

  /** Each class has registers of its own, the SSE ones being the low halves of xmm0 to xmm7; the stack takes
      whatever comes after them, of either class. */
  ghost predicate Passed(regs: seq<Region>, g: Guest, stack: u64, args: seq<Arg>) {
    forall i :: 0 <= i < |args| ==>
      if args[i].IntArg? && Ints(args, i) < 6 then InIntRegister(g.r, Ints(args, i), args[i].v)
      else if args[i].SseArg? && Sses(args, i) < 8 then Get(g.xmm, 2 * Sses(args, i)) == args[i].v
      else Ld(regs, g, Wrap(stack + 8 * Spilled(args, i)), 8) == Some(args[i].v)
  }

  // --- the reader --------------------------------------------------------------------------------------------

  class Reader {
    var gp: nat
    var sse: nat
    var stack: u64

    constructor (first: u64)
      ensures gp == 0 && sse == 0 && stack == first
    {
      gp, sse, stack := 0, 0, first;
    }

    /** The next stack slot; None if it cannot be read. */
    method NextSlot(regs: seq<Region>, g: Guest) returns (v: Option<u64>)
      modifies this
      ensures v == Ld(regs, g, old(stack), 8) && stack == Wrap(old(stack) + 8) && gp == old(gp) && sse == old(sse)
    {
      v := Ld(regs, g, stack, 8);
      stack := Wrap(stack + 8);
    }

    method NextInt(regs: seq<Region>, g: Guest) returns (v: Option<u64>)
      modifies this
      ensures sse == old(sse)
      ensures if old(gp) < 6 then v.Some? && InIntRegister(g.r, old(gp), v.value) && gp == old(gp) + 1
          && stack == old(stack)
        else v == Ld(regs, g, old(stack), 8) && gp == old(gp) && stack == Wrap(old(stack) + 8)
    {
      if gp < INT_REGS {
        v := Some(Get(g.r, IntReg(gp)));
        gp := gp + 1;
      } else {
        v := NextSlot(regs, g);
      }
    }

    method NextSse(regs: seq<Region>, g: Guest) returns (v: Option<u64>)
      modifies this
      ensures gp == old(gp)
      ensures if old(sse) < 8 then v == Some(Get(g.xmm, 2 * old(sse))) && sse == old(sse) + 1 && stack == old(stack)
        else v == Ld(regs, g, old(stack), 8) && sse == old(sse) && stack == Wrap(old(stack) + 8)
    {
      if sse < SSE_REGS {
        v := Some(Xmm(g, sse));
        sse := sse + 1;
      } else {
        v := NextSlot(regs, g);
      }
    }
  }

  /** Where the reader stands after i arguments. */
  ghost predicate StandsAt(gp: nat, sse: nat, stack: u64, first: u64, args: seq<Arg>, i: nat)
    requires i <= |args|
  {
    && gp == AtMost(Ints(args, i), 6) && sse == AtMost(Sses(args, i), 8)
    && stack == Wrap(first + 8 * Spilled(args, i))
  }

  lemma SlotAfter(first: u64, k: int)
    ensures Wrap(Wrap(first + 8 * k) + 8) == Wrap(first + 8 * (k + 1))
  {
    WrapAdd(first + 8 * k, 8);
  }

  /** What the next read must give. */
  lemma PassedHere(regs: seq<Region>, g: Guest, first: u64, args: seq<Arg>, i: nat, gp: nat, sse: nat, stack: u64)
    requires i < |args| && Passed(regs, g, first, args) && StandsAt(gp, sse, stack, first, args, i)
    ensures args[i].IntArg? ==>
      if gp < 6 then InIntRegister(g.r, gp, args[i].v) else Ld(regs, g, stack, 8) == Some(args[i].v)
    ensures args[i].SseArg? ==>
      if sse < 8 then Get(g.xmm, 2 * sse) == args[i].v else Ld(regs, g, stack, 8) == Some(args[i].v)
  {
    hide Wrap, Ld, Ints, InIntRegister;
  }

  /** Where the next read leaves the reader. */
  lemma Advances(first: u64, args: seq<Arg>, i: nat, gp: nat, sse: nat, stack: u64)
    requires i < |args| && StandsAt(gp, sse, stack, first, args, i)
    ensures args[i].IntArg? ==>
      if gp < 6 then StandsAt(gp + 1, sse, stack, first, args, i + 1)
          else StandsAt(gp, sse, Wrap(stack + 8), first, args, i + 1)
    ensures args[i].SseArg? ==>
      if sse < 8 then StandsAt(gp, sse + 1, stack, first, args, i + 1)
          else StandsAt(gp, sse, Wrap(stack + 8), first, args, i + 1)
  {
    hide Wrap;
    SlotAfter(first, Spilled(args, i));
  }

  /** Asking for each argument by its class, in order, gives back the arguments passed, however registers
      and stack interleave. */
  method ReadBack(regs: seq<Region>, g: Guest, first: u64, args: seq<Arg>) returns (values: seq<Option<u64>>)
    requires Passed(regs, g, first, args)
    ensures |values| == |args| && forall i :: 0 <= i < |args| ==> values[i] == Some(args[i].v)
  {
    hide Wrap, Ld, Ints, StandsAt, Passed;
    var r := new Reader(first);
    values := [];
    var i := 0;
    StartsAt(first, args);
    while i < |args|
      invariant 0 <= i <= |args| && |values| == i && StandsAt(r.gp, r.sse, r.stack, first, args, i)
      invariant forall k :: 0 <= k < i ==> values[k] == Some(args[k].v)
    {
      PassedHere(regs, g, first, args, i, r.gp, r.sse, r.stack);
      Advances(first, args, i, r.gp, r.sse, r.stack);
      var v: Option<u64>;
      if args[i].IntArg? { v := r.NextInt(regs, g); } else { v := r.NextSse(regs, g); }
      values := values + [v];
      i := i + 1;
    }
  }

  lemma StartsAt(first: u64, args: seq<Arg>)
    ensures StandsAt(0, 0, first, first, args, 0)
  {
  }
}
