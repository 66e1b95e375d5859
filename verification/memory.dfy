/** What guest memory is: little-endian bytes, guarded by the region table, every store told to the log. */
module MemoryMeanings {
  import opened Words
  import opened Regions
  import opened TableSpec
  import opened GuestState

  // --- bytes --------------------------------------------------------------------------------------------

  lemma BytePower(i: nat)
    ensures Pow2(8 * (i + 1)) == 0x100 * Pow2(8 * i) && Pow2(0) == 1
  {
    Pow2Values();
    Pow2Add(8, 8 * i);
  }

  /** The bytes above the lowest are the bytes of what is above it. */
  lemma ByteAbove(low: int, rest: nat, i: nat)
    requires 0 <= low < 0x100
    ensures (low + 0x100 * rest) / Pow2(8 * (i + 1)) == rest / Pow2(8 * i)
  {
    var p := Pow2(8 * i);
    BytePower(i);
    var q, r := rest / p, rest % p;
    assert rest == p * q + r;
    assert 0x100 * rest == (0x100 * p) * q + 0x100 * r;
    DivModUnique(low + 0x100 * rest, 0x100 * p, q, low + 0x100 * r);
  }

  lemma {:induction false} LoadByte(m: Mem, a: int, n: nat, i: nat)
    requires i < n
    ensures Load(m, a, n) / Pow2(8 * i) % 0x100 == Peek(m, a + i)
    decreases n
  {
    BytePower(0);
    var low, rest := Peek(m, a), Load(m, a + 1, n - 1);
    if i == 0 {
      DivModUnique(low + 0x100 * rest, 0x100, rest, low);
    } else {
      ByteAbove(low, rest, i - 1);
      LoadByte(m, a + 1, n - 1, i - 1);
    }
  }

  /** Byte i of the value goes to address a + i, and nothing else changes. */
  lemma {:induction false} StoreByte(m: Mem, a: int, v: nat, n: nat, b: int)
    ensures Peek(Store(m, a, v, n), b) == if a <= b < a + n then v / Pow2(8 * (b - a)) % 0x100 else Peek(m, b)
    decreases n
  {
    BytePower(0);
    if n > 0 {
      StoreByte(Poke(m, a, v % 0x100), a + 1, v / 0x100, n - 1, b);
      if a < b < a + n { ByteAbove(v % 0x100, v / 0x100, b - a - 1); }
    }
  }

  lemma LowAndRest(v: nat, limit: int)
    requires limit >= 1
    ensures v % 0x100 + 0x100 * ((v / 0x100) % limit) == v % (0x100 * limit)
  {
    var q, r := (v / 0x100) / limit, (v / 0x100) % limit;
    assert v / 0x100 == limit * q + r;
    assert v == 0x100 * (limit * q) + (0x100 * r + v % 0x100);
    assert (0x100 * limit) * q == 0x100 * (limit * q);
    DivModUnique(v, 0x100 * limit, q, 0x100 * r + v % 0x100);
  }

  lemma {:induction false} StoreLoad(m: Mem, a: int, v: nat, n: nat)
    ensures Load(Store(m, a, v, n), a, n) == v % ByteLimit(n)
    decreases n
  {
    BytePower(0);
    if n > 0 {
      StoreByte(m, a, v, n, a);
      StoreLoad(Poke(m, a, v % 0x100), a + 1, v / 0x100, n - 1);
      LowAndRest(v, ByteLimit(n - 1));
    }
  }

  /** A store leaves byte i of the value at address a + i and every other byte as it was. */
  lemma StoredBytes(regs: seq<Region>, g: Guest, a: u64, v: u64, size: Size, b: int)
    requires St(regs, g, a, v, size).Some?
    ensures Peek(St(regs, g, a, v, size).value.mem, b)
         == if a <= b < a + size then v / Pow2(8 * (b - a)) % 0x100 else Peek(g.mem, b)
  {
    hide Store, AccessOk, LogWrite;
    StoreByte(g.mem, a, v, size, b);
  }

  /** A load puts the bytes together in the same order. */
  lemma LoadedBytes(regs: seq<Region>, g: Guest, a: u64, size: Size, i: nat)
    requires Ld(regs, g, a, size).Some? && i < size
    ensures Ld(regs, g, a, size).value / Pow2(8 * i) % 0x100 == Peek(g.mem, a + i)
    ensures Ld(regs, g, a, size).value < Modulus(size)
  {
    hide Load, AccessOk;
    ByteLimits(size);
    LoadByte(g.mem, a, size, i);
  }

  /** What was stored is what a load from there gives. */
  lemma StoreThenLoad(regs: seq<Region>, g: Guest, a: u64, v: u64, size: Size)
    requires St(regs, g, a, v, size).Some? && AccessOk(regs, a, size, READ)
    ensures Ld(regs, St(regs, g, a, v, size).value, a, size) == Some(Trunc(v, size))
  {
    hide Store, Load, AccessOk, LogWrite;
    ByteLimits(size);
    StoreLoad(g.mem, a, v, size);
    TruncMod(v, size);
  }

  // --- what guards them ---------------------------------------------------------------------------------------

  lemma Permissions(s: seq<Region>, b: u64)
    ensures Grants(s, b, READ) <==> At(s, b).Some? && At(s, b).value.r
    ensures Grants(s, b, WRITE) <==> At(s, b).Some? && At(s, b).value.w
    ensures Grants(s, b, EXEC) <==> At(s, b).Some? && At(s, b).value.x
    ensures Grants(s, b, Prot(false, false, false)) <==> At(s, b).Some?
  {
    hide At;
  }

  /** The range ends below the top, and every byte of it is in the table and, if asked, may be read or
      written. */
  ghost predicate EveryByte(s: seq<Region>, a: u64, n: int, read: bool, write: bool) {
    a + n < 0x1_0000_0000_0000_0000 && forall b: u64 :: a <= b < a + n ==>
      At(s, b).Some? && (read ==> At(s, b).value.r) && (write ==> At(s, b).value.w)
  }

  lemma OkBytes(s: seq<Region>, a: u64, n: u64, prot: Prot, read: bool, write: bool)
    requires Uniform(s) && 0 < n && prot == Prot(read, write, false)
    ensures Ok(s, a, n, prot) <==> EveryByte(s, a, n, read, write)
  {
    hide At, Uniform, Ok;
    OkExact(s, a, n, prot);
    if a + n < TOP {
      if Ok(s, a, n, prot) {
        forall b: u64 | a <= b < a + n
          ensures At(s, b).Some? && (read ==> At(s, b).value.r) && (write ==> At(s, b).value.w)
        {
          assert Grants(s, b, prot);
        }
      } else {
        var b: u64 :| a <= b < a + n && !Grants(s, b, prot);
      }
    }
  }

  /** Data may be read or written where the table grants it on every byte; where the table does not know every
      byte, wherever an address can be at all: from 0x1000 to 2^48. */
  lemma AccessExact(s: seq<Region>, a: u64, size: Size, write: bool)
    requires Uniform(s)
    ensures AccessOk(s, a, size, if write then WRITE else READ)
      <==> if EveryByte(s, a, size, false, false) then EveryByte(s, a, size, !write, write)
           else 0x1000 <= a && a + size <= 0x1_0000_0000_0000
  {
    hide Ok, Uniform, At;
    OkBytes(s, a, size, if write then WRITE else READ, !write, write);
    OkBytes(s, a, size, Prot(false, false, false), false, false);
  }

  // --- what is told of a store -----------------------------------------------------------------------------------

  /** With room in the log a store adds one entry: where it went, how wide it was, the value there before and
      after, and the bytes before it, sixteen of them where sixteen may be read. At 512 entries it only marks
      the log. */
  lemma StoreIsLogged(regs: seq<Region>, g: Guest, a: u64, v: u64, size: Size)
    requires St(regs, g, a, v, size).Some? && g.log.On?
    ensures var g' := St(regs, g, a, v, size).value;
      if |g.log.entries| >= 512 then g'.log == On(g.log.entries, true)
      else
        && g'.log.On? && |g'.log.entries| == |g.log.entries| + 1 && g'.log.overflow == g.log.overflow
        && g'.log.entries[..|g.log.entries|] == g.log.entries
        && var e := g'.log.entries[|g.log.entries|];
           e.addr == a && e.size == size && e.was == LoadSize(g.mem, a, size) && e.val == LoadSize(g'.mem, a, size)
           && e.span == (if Ok(regs, a, 16, READ) then 16 else size) && e.before == Window(g.mem, a, e.span)
  {
    hide Store, Load, AccessOk, Ok, Window;
    ByteLimits(size);
    StoreLoad(g.mem, a, v, size);
    TruncMod(v, size);
  }
}
