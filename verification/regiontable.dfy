/** The region table as the program keeps it, against its specification, and its whole history. */
module RegionTables {
  import opened Words
  import opened Regions
  import opened TableSpec

  // --- histories --------------------------------------------------------------------------------------

  /** What can happen to a table. */
  datatype Event =
    | Mapped(r: Region)
    | Protect(at: u64, len: u64, prot: Prot)
    | Unmapped(lo: u64, hi: u64)
    | Noted(a: u64, prot: Prot)

  function After(t: Table, e: Event): Table {
    match e
    case Mapped(r) => Table(Inserted(t.reg, r), EMPTY, EMPTY)
    case Protect(at, len, prot) =>
      if len == 0 then t else Table(Protected(t.reg, at, Wrap(at + len), prot), EMPTY, EMPTY)
    case Unmapped(lo, hi) => Table(Removed(t.reg, lo, hi), EMPTY, EMPTY)
    case Noted(a, prot) => NoteIn(t, a, prot)
  }

  /** Only reads and writes are remembered, each in its own cache. */
  function NoteIn(t: Table, a: u64, prot: Prot): Table {
    if prot == READ then t.(rd := Note(t.reg, t.rd, a, prot))
    else if prot == WRITE then t.(wr := Note(t.reg, t.wr, a, prot))
    else t
  }

  /** What the host maps is fresh, or the table says the same of it already; anything else may be asked for. */
  ghost predicate Allowed(t: Table, e: Event) { e.Mapped? ==> Fitting(t.reg, e.r) }

  lemma EventKeeps(t: Table, e: Event)
    requires Sound(t) && Allowed(t, e)
    ensures Sound(After(t, e))
  {
    hide Uniform, Fitting, Inserted, Protected, Removed, HitsValid;
    NothingHit(After(t, e).reg);
    match e
    case Mapped(r) => InsertUniform(t.reg, r);
    case Protect(at, len, prot) => if len > 0 { ProtectUniform(t.reg, at, Wrap(at + len), prot); }
    case Unmapped(lo, hi) => RemovedUniform(t.reg, lo, hi);
    case Noted(a, prot) =>
      NoteValid(t.reg, t.rd, a, READ);
      NoteValid(t.reg, t.wr, a, WRITE);
  }

  lemma NothingHit(s: seq<Region>)
    ensures HitsValid(s, EMPTY, READ) && HitsValid(s, EMPTY, WRITE)
  {
  }

  function AfterAll(t: Table, es: seq<Event>): Table
    decreases |es|
  {
    if es == [] then t else AfterAll(After(t, es[0]), es[1..])
  }

  ghost predicate AllAllowed(t: Table, es: seq<Event>)
    decreases |es|
  {
    es == [] || (Allowed(t, es[0]) && AllAllowed(After(t, es[0]), es[1..]))
  }

  const FRESH := Table([], EMPTY, EMPTY)

  lemma {:induction false} HistoryKeeps(t: Table, es: seq<Event>)
    requires Sound(t) && AllAllowed(t, es)
    ensures Sound(AfterAll(t, es))
    decreases |es|
  {
    hide Sound, Allowed, After;
    if es != [] {
      EventKeeps(t, es[0]);
      HistoryKeeps(After(t, es[0]), es[1..]);
    }
  }

  /** After any history, an address the in-line test lets through is one the full scan allows, for every
      access of up to 8 bytes, and the table grants the access at each of its bytes. */
  lemma InlineAgrees(es: seq<Event>, a: u64, n: u64)
    requires AllAllowed(FRESH, es) && n <= 8
    ensures var t := AfterAll(FRESH, es);
      (InHits(t.rd, a) ==> Ok(t.reg, a, n, READ) && forall b: u64 :: a <= b < a + n ==> Grants(t.reg, b, READ))
      && (InHits(t.wr, a) ==> Ok(t.reg, a, n, WRITE) && forall b: u64 :: a <= b < a + n ==> Grants(t.reg, b, WRITE))
  {
    hide AllAllowed, AfterAll, InHit;
    HistoryKeeps(FRESH, es);
    var t := AfterAll(FRESH, es);
    if InHits(t.rd, a) { HitGrants(t.reg, t.rd, a, n, READ); }
    if InHits(t.wr, a) { HitGrants(t.reg, t.wr, a, n, WRITE); }
  }

  /** What an event promises about one byte. */
  function ByteAfter(p: Option<Prot>, e: Event, b: u64): Option<Prot> {
    match e
    case Mapped(r) => if r.Holds(b) then Some(r.prot) else p
    case Protect(at, len, prot) => if p.Some? && at <= b < at + len then Some(prot) else p
    case Unmapped(lo, hi) => if lo <= b < hi then None else p
    case Noted(_, _) => p
  }

  function ByteAfterAll(p: Option<Prot>, es: seq<Event>, b: u64): Option<Prot>
    decreases |es|
  {
    if es == [] then p else ByteAfterAll(ByteAfter(p, es[0], b), es[1..], b)
  }

  /** The calls that keep their promise: no wrapped protect, and no region cut by unmapping. */
  ghost predicate Kept(t: Table, e: Event) {
    match e
    case Protect(at, len, _) => at + len < TOP
    case Unmapped(lo, hi) =>
      forall x :: x in t.reg && x.start < x.end ==> x.end <= lo || hi <= x.start || Inside(x, lo, hi) || lo >= hi
    case _ => true
  }

  ghost predicate AllKept(t: Table, es: seq<Event>)
    decreases |es|
  {
    es == [] || (Kept(t, es[0]) && AllKept(After(t, es[0]), es[1..]))
  }

  lemma EventBytes(t: Table, e: Event, b: u64)
    requires Sound(t) && Allowed(t, e) && Kept(t, e)
    ensures At(After(t, e).reg, b) == ByteAfter(At(t.reg, b), e, b)
  {
    hide At, Uniform, Fitting, Inserted, Protected, Removed, HitsValid, Inside;
    match e
    case Mapped(r) => InsertExact(t.reg, r, b);
    case Protect(at, len, prot) => if len > 0 { ProtectExact(t.reg, at, Wrap(at + len), prot, b); }
    case Unmapped(lo, hi) => UnmapPromise(t.reg, lo, hi);
    case Noted(_, _) =>
  }

  /** After any history of calls that keep their promise, the table says of each byte what the calls, taken
      one after another, say of it. */
  lemma {:induction false} HistoryBytes(t: Table, es: seq<Event>, b: u64)
    requires Sound(t) && AllAllowed(t, es) && AllKept(t, es)
    ensures At(AfterAll(t, es).reg, b) == ByteAfterAll(At(t.reg, b), es, b)
    decreases |es|
  {
    hide At, Sound, Allowed, After, Kept, ByteAfter;
    if es != [] {
      EventKeeps(t, es[0]);
      EventBytes(t, es[0], b);
      HistoryBytes(After(t, es[0]), es[1..], b);
    }
  }

  /** Do the calls, from an empty table on, leave a byte mapped and usable for this? */
  predicate GrantedBy(es: seq<Event>, b: u64, prot: Prot) {
    var p := ByteAfterAll(None, es, b);
    p.Some? && p.value.Allows(prot)
  }

  /** So the full scan, after such a history, is a question about the calls alone. */
  lemma ScanIsHistory(es: seq<Event>, a: u64, n: u64, prot: Prot)
    requires AllAllowed(FRESH, es) && AllKept(FRESH, es) && n > 0
    ensures Ok(AfterAll(FRESH, es).reg, a, n, prot)
      <==> a + n < TOP && forall b: u64 :: a <= b < a + n ==> GrantedBy(es, b, prot)
  {
    hide AllAllowed, AllKept, AfterAll, ByteAfterAll, Ok, At, Uniform, HitsValid;
    var s := AfterAll(FRESH, es).reg;
    FreshSound();
    HistoryKeeps(FRESH, es);
    OkExact(s, a, n, prot);
    forall b: u64 ensures Grants(s, b, prot) <==> GrantedBy(es, b, prot) {
      HistoryBytes(FRESH, es, b);
      NoHolder([], b);
    }
    assert (forall b: u64 :: a <= b < a + n ==> Grants(s, b, prot))
      <==> (forall b: u64 :: a <= b < a + n ==> GrantedBy(es, b, prot)) by { hide Grants, GrantedBy; }
  }

  lemma FreshSound()
    ensures Sound(FRESH)
  {
  }

  const STALE := [
    Mapped(Region(0x4000, 0xc000, Prot(true, true, false))),
    Unmapped(0x4000, 0x8000),
    Mapped(Region(0x4000, 0x8000, READ)),
    Noted(0x9000, WRITE)
  ]

  /** What half-forgotten regions lead to: the host hands the unmapped half out again, read-only, and the
      in-line test lets a store into it through because of the region that is still listed. */
  lemma RemapBreaks()
    ensures var t := AfterAll(FRESH, STALE); InHits(t.wr, 0x5000) && !Ok(t.reg, 0x5000, 1, WRITE)
  {
    var old_, new_ := Region(0x4000, 0xc000, Prot(true, true, false)), Region(0x4000, 0x8000, READ);
    InsertsOne(old_);
    KeepsCut(old_, 0x4000, 0x8000);
    InsertsBelow(old_, new_);
    var t1 := Table([old_], EMPTY, EMPTY);
    assert After(FRESH, STALE[0]) == t1;
    assert After(t1, STALE[1]) == t1;
    var t3 := Table([new_, old_], EMPTY, EMPTY);
    assert After(t1, STALE[2]) == t3;
    FindIs(t3.reg, 0x9000, 1);
    FindIs(t3.reg, 0x5000, 0);
    var t4 := t3.(wr := Hits(Hit(0x4000, 0x7ff9), Hit(0, 0)));
    assert After(t3, STALE[3]) == t4;
    FourEvents(FRESH, STALE);
  }

  lemma FourEvents(t: Table, es: seq<Event>)
    requires |es| == 4
    ensures AfterAll(t, es) == After(After(After(After(t, es[0]), es[1]), es[2]), es[3])
  {
    hide After;
    var a := After(t, es[0]);
    var b := After(a, es[1]);
    var c := After(b, es[2]);
    assert es[1..][1..] == es[2..] && es[2..][1..] == es[3..] && es[3..][1..] == [];
    assert AfterAll(t, es) == AfterAll(a, es[1..]) == AfterAll(b, es[2..]) == AfterAll(c, es[3..]);
    assert AfterAll(After(c, es[3]), []) == After(c, es[3]);
  }

  lemma InsertsOne(r: Region)
    ensures Inserted([], r) == [r]
  {
  }

  lemma InsertsBelow(s: Region, r: Region)
    requires r.start <= s.start
    ensures Inserted([s], r) == [r, s]
  {
  }

  lemma KeepsCut(r: Region, lo: u64, hi: u64)
    requires !Inside(r, lo, hi)
    ensures Removed([r], lo, hi) == [r]
  {
    assert [r][1..] == [];
  }

  lemma HitGrants(s: seq<Region>, h: Hits, a: u64, n: u64, prot: Prot)
    requires Uniform(s) && HitsValid(s, h, prot) && InHits(h, a) && n <= 8
    ensures Ok(s, a, n, prot) && forall b: u64 :: a <= b < a + n ==> Grants(s, b, prot)
  {
    hide Ok, HitValid, InHit, Uniform, Grants;
    if InHit(h.first, a) { HitMeansOk(s, h.first, a, n, prot); } else { HitMeansOk(s, h.second, a, n, prot); }
    OkExact(s, a, n, prot);
  }

  // --- the table ------------------------------------------------------------------------------------------

  function RoundDown(x: u64, page: u64): u64
    requires page > 0
  {
    x - x % page
  }

  /** (x + page - 1) & ~(page - 1), in 64 bits. */
  function RoundUp(x: u64, page: u64): u64
    requires page > 0
  {
    RoundDown(Wrap(x + page - 1), page)
  }

  class RegionTable {
    var reg: seq<Region>
    var cap: nat
    var rd: Hits
    var wr: Hits

    ghost predicate Valid()
      reads this
    {
      |reg| <= cap
    }

    function State(): Table
      reads this
    {
      Table(reg, rd, wr)
    }

    constructor ()
      ensures Valid() && State() == FRESH
    {
      reg, cap, rd, wr := [], 0, EMPTY, EMPTY;
    }

    /** The first region holding a, or -1. */
    method FindRegion(a: u64) returns (i: int)
      ensures i == Find(reg, a)
    {
      i := 0;
      while i < |reg|
        invariant 0 <= i <= |reg|
        invariant forall j :: 0 <= j < i ==> !reg[j].Holds(a)
      {
        if reg[i].Holds(a) {
          FindIs(reg, a, i);
          return;
        }
        i := i + 1;
      }
      NotFound(reg, a);
      i := -1;
    }

    method Forget()
      modifies this
      ensures reg == old(reg) && cap == old(cap) && rd == EMPTY && wr == EMPTY
    {
      rd, wr := EMPTY, EMPTY;
    }

    /** Insert in order. Without memory to grow into, only the caches are lost. */
    method Insert(r: Region, grow: bool) returns (ok: bool)
      requires Valid()
      modifies this
      ensures Valid() && rd == EMPTY && wr == EMPTY
      ensures ok == (old(|reg|) < old(cap) || grow)
      ensures reg == if ok then Inserted(old(reg), r) else old(reg)
    {
      Forget();
      if |reg| == cap {
        if !grow { return false; }
        cap := if cap != 0 then 2 * cap else 16;
      }
      var i := 0;
      while i < |reg| && reg[i].start < r.start
        invariant 0 <= i <= |reg|
        invariant forall j :: 0 <= j < i ==> reg[j].start < r.start
      {
        i := i + 1;
      }
      SlotIs(reg, r.start, i);
      reg := reg[..i] + [r] + reg[i..];
      return true;
    }

    /** Map len bytes. `first` and `second` are what the host answers to being asked for the address wanted
        and for any; `page` is its page size. Returns where the guest's bytes start, or 0. */
    method Map(at: u64, len: u64, prot: Prot, fixed: bool, page: u64, first: Option<u64>, second: Option<u64>,
        grow: bool)
      returns (got: u64)
      requires Valid() && page > 0
      modifies this
      ensures Valid()
      ensures var size :=
          if at != 0 then Wrap(RoundUp(Wrap(at + len), page) - RoundDown(at, page)) else RoundUp(len, page);
        var p := if first.None? && at != 0 && !fixed then second else first;
        if len == 0 || p.None? then got == 0 && State() == old(State())
        else if |old(reg)| == old(cap) && !grow then got == 0 && State() == Table(old(reg), EMPTY, EMPTY)
        else State() == After(old(State()), Mapped(Region(p.value, Wrap(p.value + size), prot)))
             && got == if at != 0 && p.value == RoundDown(at, page) then at else p.value
    {
      hide RoundDown, RoundUp, Wrap, Inserted;
      if len == 0 { return 0; }
      var lo := RoundDown(at, page);
      var hi := if at != 0 then RoundUp(Wrap(at + len), page) else RoundUp(len, page);
      var p := first;
      if p.None? && at != 0 && !fixed { p := second; }
      if p.None? { return 0; }
      var size := if at != 0 then Wrap(hi - lo) else hi;
      var ok := Insert(Region(p.value, Wrap(p.value + size), prot), grow);
      if !ok { return 0; }
      return if at != 0 && p.value == lo then at else p.value;
    }

    /** The pieces of one region, written out from index m on. */
    static method Cut(out: array<Region>, m: nat, r: Region, at: u64, end: u64, prot: Prot) returns (k: nat)
      requires m + 3 <= out.Length
      modifies out
      ensures m <= k <= m + 3 && out[..k] == old(out[..m]) + Pieces(r, at, end, prot)
    {
      k := m;
      if r.end <= at || r.start >= end {
        out[k] := r;
        return k + 1;
      }
      if r.start < at {
        out[k] := Region(r.start, at, r.prot);
        k := k + 1;
      }
      out[k] := Region(if r.start > at then r.start else at, if r.end < end then r.end else end, prot);
      k := k + 1;
      if r.end > end {
        out[k] := Region(end, r.end, r.prot);
        k := k + 1;
      }
    }

    /** Record the permission of the mapped part of [at, at + len), cutting the regions it crosses. Without
        memory for the new list, `room`, nothing changes, not even the caches. */
    method SetProt(at: u64, len: u64, prot: Prot, room: bool) returns (ok: bool)
      requires Valid()
      modifies this
      ensures Valid() && ok == (len == 0 || room)
      ensures State() == if ok then After(old(State()), Protect(at, len, prot)) else old(State())
      ensures if ok && len > 0 then |reg| <= 3 * old(|reg|) && cap == 3 * old(|reg|) + 1 else cap == old(cap)
    {
      hide Pieces, Protected;
      if len == 0 { return true; }
      if !room { return false; }
      var end := Wrap(at + len);
      ghost var was := reg;
      var out := new Region[3 * |reg| + 1](_ => Region(0, 0, READ));
      assert out[..0] == [] && reg[0..] == reg;
      Forget();
      var m := 0;
      var i := 0;
      while i < |reg|
        invariant 0 <= i <= |reg| && m <= 3 * i && reg == was && rd == EMPTY && wr == EMPTY && cap == old(cap)
        invariant out[..m] + Protected(reg[i..], at, end, prot) == Protected(was, at, end, prot)
      {
        ProtectStep(out[..m], reg, i, at, end, prot);
        m := Cut(out, m, reg[i], at, end, prot);
        i := i + 1;
      }
      ProtectEnd(out[..m], reg, at, end, prot);
      reg, cap := out[..m], 3 * |reg| + 1;
      return true;
    }

    /** Drop the regions wholly inside the pages of [at, at + len); `done` is whether the host unmapped them. */
    method Unmap(at: u64, len: u64, page: u64, done: bool)
      requires Valid() && page > 0
      modifies this
      ensures Valid() && cap == old(cap)
      ensures State() == if done then After(old(State()), Unmapped(RoundDown(at, page), RoundUp(Wrap(at + len), page)))
          else old(State())
    {
      hide RoundDown, RoundUp, Inside, Removed;
      if !done { return; }
      var lo, hi := RoundDown(at, page), RoundUp(Wrap(at + len), page);
      ghost var was := reg;
      Forget();
      var i := 0;
      assert reg[..0] == [] && reg[0..] == reg;
      while i < |reg|
        invariant 0 <= i <= |reg| <= cap == old(cap) && rd == EMPTY && wr == EMPTY
        invariant reg[..i] + Removed(reg[i..], lo, hi) == Removed(was, lo, hi)
        decreases |reg| - i
      {
        RemoveStep(reg, i, lo, hi);
        if Inside(reg[i], lo, hi) {
          reg := reg[..i] + reg[i + 1..];
        } else {
          i := i + 1;
        }
      }
      RemoveEnd(reg, lo, hi);
    }

    /** Put the region a lies in at the head of its cache. */
    method NoteAccess(a: u64, prot: Prot)
      requires Valid()
      modifies this
      ensures Valid() && State() == After(old(State()), Noted(a, prot))
    {
      var i := FindRegion(a);
      if i < 0 || !reg[i].prot.Allows(prot) { return; }
      var len := reg[i].end - reg[i].start;
      if len < 8 { return; }
      if prot == READ {
        if rd.first.lo != reg[i].start { rd := Hits(Hit(reg[i].start, len - 7), rd.first); }
      } else if prot == WRITE {
        if wr.first.lo != reg[i].start { wr := Hits(Hit(reg[i].start, len - 7), wr.first); }
      }
    }

    /** The permission scan, one region after another. */
    method IsOk(a: u64, n: u64, prot: Prot) returns (ok: bool)
      ensures ok == Ok(reg, a, n, prot)
    {
      if n == 0 { return true; }
      if a + n >= 0x1_0000_0000_0000_0000 { return false; }
      var x: u64, left: u64 := a, n;
      while left != 0
        invariant x + left == a + n && OkFrom(reg, x, left, prot) == OkFrom(reg, a, n, prot)
        decreases left
      {
        var i := FindRegion(x);
        if i < 0 || !reg[i].prot.Allows(prot) { return false; }
        var avail := reg[i].end - x;
        if avail >= left { return true; }
        x, left := x + avail, left - avail;
      }
      return true;
    }

    method IsMapped(a: u64, n: u64) returns (ok: bool)
      ensures ok == Regions.Mapped(reg, a, n)
    {
      ok := IsOk(a, n, Prot(false, false, false));
    }
  }

  lemma ProtectStep(done: seq<Region>, s: seq<Region>, i: nat, at: u64, end: u64, prot: Prot)
    requires i < |s|
    ensures done + Protected(s[i..], at, end, prot)
        == done + Pieces(s[i], at, end, prot) + Protected(s[i + 1..], at, end, prot)
  {
    hide Pieces;
    assert s[i..][0] == s[i] && s[i..][1..] == s[i + 1..];
  }

  lemma ProtectEnd(done: seq<Region>, s: seq<Region>, at: u64, end: u64, prot: Prot)
    ensures done + Protected(s[|s|..], at, end, prot) == done
  {
    assert s[|s|..] == [];
  }

  /** One turn of the removing loop, either way. */
  lemma RemoveStep(s: seq<Region>, i: nat, lo: u64, hi: u64)
    requires i < |s|
    ensures var t := s[..i] + s[i + 1..];
      Inside(s[i], lo, hi) ==> t[..i] + Removed(t[i..], lo, hi) == s[..i] + Removed(s[i..], lo, hi)
    ensures !Inside(s[i], lo, hi) ==> s[..i + 1] + Removed(s[i + 1..], lo, hi) == s[..i] + Removed(s[i..], lo, hi)
  {
    hide Inside;
    var t := s[..i] + s[i + 1..];
    assert s[i..][0] == s[i] && s[i..][1..] == s[i + 1..] && t[i..] == s[i + 1..] && t[..i] == s[..i];
    assert s[..i + 1] == s[..i] + [s[i]];
  }

  lemma RemoveEnd(s: seq<Region>, lo: u64, hi: u64)
    ensures s[..|s|] + Removed(s[|s|..], lo, hi) == s
  {
    assert s[|s|..] == [];
  }

  lemma SlotIs(s: seq<Region>, start: u64, i: nat)
    requires i <= |s| && (forall j :: 0 <= j < i ==> s[j].start < start) && (i < |s| ==> s[i].start >= start)
    ensures Slot(s, start) == i
  {
    var k := Slot(s, start);
    assert !(k < i) && !(i < k);
  }

  // --- pages --------------------------------------------------------------------------------------------

  /** Two addresses are on one page when they lie between the same two multiples of the page size. */
  ghost predicate SamePage(x: int, b: int, page: u64)
    requires page > 0
  {
    x / page == b / page
  }

  /** b is on a page that [at, at + len) has a byte on. */
  ghost predicate OnPages(b: int, at: u64, len: u64, page: u64)
    requires page > 0
  {
    exists x: u64 :: at <= x < at + len && SamePage(x, b, page)
  }

  /** The start of x's page: a multiple of the page size, and the greatest that is not above x. */
  lemma DownIsPage(x: u64, page: u64)
    requires page > 0
    ensures RoundDown(x, page) % page == 0 && RoundDown(x, page) == page * (x / page) && RoundDown(x, page) <= x
    ensures forall k: int :: k * page <= x ==> k * page <= RoundDown(x, page)
  {
    var q := x / page;
    DivModUnique(page * q, page, q, 0);
    forall k: int | k * page <= x ensures k * page <= page * q { if k > q { MulLess(q + 1, k, page); } }
  }

  lemma MulLess(a: int, b: int, page: u64)
    requires a <= b
    ensures a * page <= b * page
  {
  }

  /** The first page start not below x, unless it is out of reach. */
  lemma UpIsPage(x: u64, page: u64)
    requires page > 0 && x + page - 1 < TOP
    ensures RoundUp(x, page) % page == 0 && x <= RoundUp(x, page) < x + page
    ensures forall k: int :: k * page >= x ==> k * page >= RoundUp(x, page)
  {
    hide RoundDown;
    DownIsPage(x + page - 1, page);
    RoundDownNear(x + page - 1, page);
    var q := (x + page - 1) / page;
    forall k: int | k * page >= x ensures k * page >= page * q {
      NextPage(k, page);
      if k < q { MulLess(k + 1, q, page); }
    }
  }

  lemma NextPage(k: int, page: u64)
    ensures (k + 1) * page == k * page + page
  {
  }

  lemma SamePageIs(x: int, b: u64, page: u64)
    requires page > 0
    ensures SamePage(x, b, page) <==> RoundDown(b, page) <= x < RoundDown(b, page) + page
  {
    hide RoundDown;
    DownIsPage(b, page);
    var q := b / page;
    if page * q <= x < page * q + page { DivModUnique(x, page, q, x - page * q); }
  }

  lemma DownAbove(a: u64, b: u64, page: u64)
    requires page > 0 && RoundDown(a, page) <= b
    ensures RoundDown(a, page) <= RoundDown(b, page)
  {
    hide RoundDown;
    DownIsPage(a, page);
    DownIsPage(b, page);
    assert (a / page) * page <= b;
  }

  lemma UpNear(x: u64, page: u64)
    requires page > 0 && x + page - 1 < TOP
    ensures x <= RoundUp(x, page) < x + page
  {
    hide RoundDown;
    UpIsPage(x, page);
  }

  /** An address below the rounded end is on a page that starts below the end, and the other way round. */
  lemma UpBelow(end: u64, b: u64, page: u64)
    requires page > 0 && end + page - 1 < TOP
    ensures b < RoundUp(end, page) <==> RoundDown(b, page) < end
  {
    hide RoundDown, RoundUp;
    UpIsPage(end, page);
    DownIsPage(b, page);
    var p, q := b / page, RoundUp(end, page) / page;
    assert p * page == RoundDown(b, page) && q * page == RoundUp(end, page);
    NextPage(p, page);
    if p < q { MulLess(p + 1, q, page); } else { MulLess(q, p, page); }
  }

  lemma RoundedOnPages(at: u64, len: u64, page: u64, b: u64)
    requires page > 0 && len > 0 && at + len + page - 1 < TOP
    requires RoundDown(at, page) <= b < RoundUp(at + len, page)
    ensures OnPages(b, at, len, page)
  {
    hide RoundDown, RoundUp, SamePage;
    var start := RoundDown(b, page);
    DownAbove(at, b, page);
    RoundDownNear(at, page);
    RoundDownNear(b, page);
    UpBelow(at + len, b, page);
    var x: u64 := if at < start then start else at;
    SamePageIs(x, b, page);
  }

  /** The bytes between the two roundings are those of the pages the request meets. */
  lemma RoundedPages(at: u64, len: u64, page: u64, b: u64)
    requires page > 0 && len > 0 && at + len + page - 1 < TOP
    ensures RoundDown(at, page) <= b < RoundUp(at + len, page) <==> OnPages(b, at, len, page)
  {
    hide RoundDown, RoundUp, SamePage;
    if RoundDown(at, page) <= b < RoundUp(at + len, page) { RoundedOnPages(at, len, page, b); }
    if OnPages(b, at, len, page) {
      var x: u64 :| at <= x < at + len && SamePage(x, b, page);
      SamePageIs(x, b, page);
      UpBelow(at + len, b, page);
      LowerPage(at, x, b, page);
    }
  }

  lemma LowerPage(at: u64, x: u64, b: u64, page: u64)
    requires page > 0 && at <= x && RoundDown(b, page) <= x < RoundDown(b, page) + page
    ensures RoundDown(at, page) <= b
  {
    hide RoundDown;
    DownIsPage(at, page);
    DownIsPage(b, page);
    RoundDownNear(b, page);
    var p, q := at / page, b / page;
    NextPage(q, page);
    if p > q { MulLess(q + 1, p, page); } else { MulLess(p, q, page); }
  }

  /** So what is recorded where the host gives the address asked for is exactly the pages the request meets. */
  lemma MapRecordsPages(at: u64, len: u64, page: u64, prot: Prot, b: u64)
    requires page > 0 && len > 0 && at + len + page - 1 < TOP
    ensures var lo := RoundDown(at, page);
      Region(lo, Wrap(lo + Wrap(RoundUp(Wrap(at + len), page) - lo)), prot).Holds(b) <==> OnPages(b, at, len, page)
  {
    hide RoundDown, RoundUp, OnPages;
    RoundedPages(at, len, page, b);
    Between(at, len, page);
  }

  lemma Between(at: u64, len: u64, page: u64)
    requires page > 0 && len > 0 && at + len + page - 1 < TOP
    ensures var lo := RoundDown(at, page);
      Wrap(lo + Wrap(RoundUp(Wrap(at + len), page) - lo)) == RoundUp(at + len, page)
  {
    hide RoundDown, RoundUp;
    RoundDownNear(at, page);
    UpNear(at + len, page);
  }

  /** And where it gives another, or none was asked for, the fewest pages that hold the length. */
  lemma MapRecordsLength(len: u64, page: u64)
    requires page > 0 && len + page - 1 < TOP
    ensures RoundUp(len, page) % page == 0 && RoundUp(len, page) >= len
    ensures forall k: int :: k * page >= len ==> k * page >= RoundUp(len, page)
  {
    hide RoundUp;
    UpIsPage(len, page);
  }

  /** A region goes exactly if all of it lies on the pages of the range. */
  lemma UnmapDropsPages(s: seq<Region>, at: u64, len: u64, page: u64, x: Region)
    requires page > 0 && len > 0 && at + len + page - 1 < TOP && x.start < x.end
    ensures x in Removed(s, RoundDown(at, page), RoundUp(Wrap(at + len), page))
      <==> x in s && exists b: u64 :: x.Holds(b) && !OnPages(b, at, len, page)
  {
    hide RoundDown, RoundUp, OnPages, Removed;
    var lo, hi := RoundDown(at, page), RoundUp(at + len, page);
    RemovedHas(s, lo, hi, x);
    forall b: u64 ensures lo <= b < hi <==> OnPages(b, at, len, page) { RoundedPages(at, len, page, b); }
    if Inside(x, lo, hi) {
      forall b: u64 | x.Holds(b) ensures OnPages(b, at, len, page) {
      }
    } else {
      var b: u64 := if x.start < lo then x.start else x.end - 1;
      assert x.Holds(b) && !OnPages(b, at, len, page);
    }
  }

  /** What Map hands out covers what was asked for, as long as rounding up does not run past the top. */
  lemma MapCovers(at: u64, len: u64, page: u64)
    requires page > 0 && len > 0 && at + len + page - 1 < 0x1_0000_0000_0000_0000
    ensures RoundDown(at, page) <= at && at + len <= RoundUp(Wrap(at + len), page) && len <= RoundUp(len, page)
    ensures RoundUp(Wrap(at + len), page) < at + len + page
  {
    hide RoundDown;
    RoundDownNear(at, page);
    RoundDownNear(at + len + page - 1, page);
    RoundDownNear(len + page - 1, page);
  }

  lemma RoundDownNear(x: u64, page: u64)
    requires page > 0
    ensures x - page < RoundDown(x, page) <= x
  {
  }
}
