/** What the region table's operations do to it, and what they keep. */
module TableSpec {
  import opened Words
  import opened Regions

  /** The regions and the two hit caches. */
  datatype Table = Table(reg: seq<Region>, rd: Hits, wr: Hits)

  /** One past the last address. */
  const TOP: int := 0x1_0000_0000_0000_0000

  // --- the invariant ---------------------------------------------------------------------------------

  ghost predicate NonEmpty(s: seq<Region>) { forall i :: 0 <= i < |s| ==> s[i].start < s[i].end }

  ghost predicate Sorted(s: seq<Region>) { forall i, j :: 0 <= i < j < |s| ==> s[i].start <= s[j].start }

  /** Regions that agree about every byte, and every cache entry a current region that allows its kind of
      access. */
  ghost predicate Sound(t: Table) {
    Uniform(t.reg) && HitsValid(t.reg, t.rd, READ) && HitsValid(t.reg, t.wr, WRITE)
  }

  lemma SoundSorted(s: seq<Region>)
    requires Disjoint(s) && NonEmpty(s)
    ensures Sorted(s)
  {
    forall i, j | 0 <= i < j < |s| ensures s[i].start <= s[j].start {
      assert s[i].start < s[i].end <= s[j].start;
    }
  }

  // --- what a byte may be used for -------------------------------------------------------------------

  /** The permission of a byte: that of the first region holding it. */
  function At(s: seq<Region>, b: u64): Option<Prot> {
    var i := Find(s, b);
    if i < 0 then None else Some(s[i].prot)
  }

  predicate Grants(s: seq<Region>, b: u64, prot: Prot) { At(s, b).Some? && At(s, b).value.Allows(prot) }

  /** A byte's permission is that of some region holding it; a byte without one is in no region. */
  lemma Holder(s: seq<Region>, b: u64) returns (x: Region)
    requires At(s, b).Some?
    ensures x in s && x.Holds(b) && At(s, b) == Some(x.prot)
  {
    x := s[Find(s, b)];
  }

  lemma NoHolder(s: seq<Region>, b: u64)
    ensures At(s, b).None? <==> forall x :: x in s ==> !x.Holds(b)
  {
    if At(s, b).None? {
      forall x | x in s ensures !x.Holds(b) {
        var i :| 0 <= i < |s| && s[i] == x;
      }
    } else {
      var x := Holder(s, b);
    }
  }

  /** Until the end of the region first found for a, the table grants what that region does. */
  lemma SameRegion(s: seq<Region>, a: u64, b: u64)
    requires (Sorted(s) || Uniform(s)) && Find(s, a) >= 0 && a <= b < s[Find(s, a)].end
    ensures At(s, b) == Some(s[Find(s, a)].prot)
  {
    var i, j := Find(s, a), Find(s, b);
    assert s[i].Holds(b) && 0 <= j <= i;
    if Sorted(s) {
      assert forall k :: 0 <= k < i ==> !s[k].Holds(a) && s[k].start <= s[i].start;
      assert i == j;
    } else {
      assert s[i] in s && s[j] in s && s[j].Holds(b);
    }
  }

  /** The scan asks exactly what its name says of every byte of the range; sortedness is all it needs, and so
      is regions that agree. */
  lemma {:induction false} OkFromExact(s: seq<Region>, a: u64, n: u64, prot: Prot)
    requires (Sorted(s) || Uniform(s)) && a + n < 0x1_0000_0000_0000_0000
    ensures OkFrom(s, a, n, prot) <==> forall b: u64 :: a <= b < a + n ==> Grants(s, b, prot)
    decreases n
  {
    hide Sorted, Uniform;
    if n != 0 {
      var i := Find(s, a);
      if i < 0 || !s[i].prot.Allows(prot) {
        assert !Grants(s, a, prot);
      } else {
        var avail := s[i].end - a;
        forall b: u64 | a <= b < a + n && b < s[i].end ensures Grants(s, b, prot) { SameRegion(s, a, b); }
        if avail < n { OkFromExact(s, a + avail, n - avail, prot); }
      }
    }
  }

  lemma OkExact(s: seq<Region>, a: u64, n: u64, prot: Prot)
    requires Sorted(s) || Uniform(s)
    ensures Ok(s, a, n, prot)
      <==> n == 0 || (a + n < 0x1_0000_0000_0000_0000 && forall b: u64 :: a <= b < a + n ==> Grants(s, b, prot))
  {
    hide Sorted, Uniform;
    if n != 0 && a + n < 0x1_0000_0000_0000_0000 { OkFromExact(s, a, n, prot); }
  }

  lemma DisjointUniform(s: seq<Region>)
    requires Disjoint(s)
    ensures Uniform(s)
  {
    forall x, y, b: u64 | x in s && y in s && x.Holds(b) && y.Holds(b) ensures x.prot == y.prot {
      var i :| 0 <= i < |s| && s[i] == x;
      var j :| 0 <= j < |s| && s[j] == y;
    }
  }

  // --- inserting -----------------------------------------------------------------------------------------

  /** Where a region starting at `start` goes: after every region that starts before it. */
  function Slot(s: seq<Region>, start: u64): (i: nat)
    ensures i <= |s|
    ensures forall j :: 0 <= j < i ==> s[j].start < start
    ensures i < |s| ==> s[i].start >= start
  {
    if s == [] || s[0].start >= start then 0 else 1 + Slot(s[1..], start)
  }

  function Inserted(s: seq<Region>, r: Region): seq<Region> {
    s[..Slot(s, r.start)] + [r] + s[Slot(s, r.start)..]
  }

  /** The host hands out memory no region uses. */
  ghost predicate Fresh(s: seq<Region>, r: Region) {
    r.start < r.end && forall x, b: u64 :: x in s && r.Holds(b) ==> !x.Holds(b)
  }

  lemma FreshApart(s: seq<Region>, r: Region, x: Region)
    requires Fresh(s, r) && x in s && x.start < x.end
    ensures r.start < r.end && (x.end <= r.start || r.end <= x.start)
  {
    assert !(r.Holds(r.start) && x.Holds(r.start)) && !(r.Holds(x.start) && x.Holds(x.start));
  }

  lemma InsertKeeps(s: seq<Region>, r: Region)
    requires Disjoint(s) && NonEmpty(s) && Fresh(s, r)
    ensures Disjoint(Inserted(s, r)) && NonEmpty(Inserted(s, r))
  {
    hide Disjoint, NonEmpty, Within;
    var k := Slot(s, r.start);
    Below(s, r, k);
    Above(s, r, k);
    CatSound([r], s[k..], r.end, r.start, TOP) by { OneSound(r); }
    CatSound(s[..k], [r] + s[k..], r.start, 0, TOP);
    assert Inserted(s, r) == s[..k] + ([r] + s[k..]);
  }

  lemma OneSound(r: Region)
    requires r.start < r.end
    ensures Disjoint([r]) && NonEmpty([r]) && Within([r], r.start, r.end)
  {
  }

  lemma Below(s: seq<Region>, r: Region, k: nat)
    requires Disjoint(s) && NonEmpty(s) && Fresh(s, r) && k == Slot(s, r.start)
    ensures Disjoint(s[..k]) && NonEmpty(s[..k]) && Within(s[..k], 0, r.start)
  {
    hide Fresh, Slot;
    forall i | 0 <= i < k ensures s[i].end <= r.start { FreshApart(s, r, s[i]); }
  }

  lemma Above(s: seq<Region>, r: Region, k: nat)
    requires Disjoint(s) && NonEmpty(s) && Fresh(s, r) && k == Slot(s, r.start)
    ensures Disjoint(s[k..]) && NonEmpty(s[k..]) && Within(s[k..], r.end, TOP)
  {
    hide Fresh, Slot;
    forall i | k <= i < |s| ensures r.end <= s[i].start {
      FreshApart(s, r, s[i]);
      assert s[k].end <= s[i].start || k == i;
    }
  }

  /** The new region agrees with the table about every byte the table has already. */
  ghost predicate Fitting(s: seq<Region>, r: Region) {
    forall x, b: u64 :: x in s && x.Holds(b) && r.Holds(b) ==> x.prot == r.prot
  }

  lemma FreshFits(s: seq<Region>, r: Region)
    requires Fresh(s, r)
    ensures Fitting(s, r)
  {
  }

  /** Whatever the table holds, a region that agrees with it gives its bytes its permission and changes no
      other byte's. */
  lemma InsertExact(s: seq<Region>, r: Region, b: u64)
    requires Fitting(s, r)
    ensures At(Inserted(s, r), b) == if r.Holds(b) then Some(r.prot) else At(s, b)
  {
    hide At;
    var k := Slot(s, r.start);
    AtCat(s[..k] + [r], s[k..], b);
    AtCat(s[..k], [r], b);
    AtCat(s[..k], s[k..], b);
    assert s[..k] + s[k..] == s;
    AtOne(r, b);
    if r.Holds(b) && At(s[..k], b).Some? { var x := Holder(s[..k], b); }
  }

  lemma AtOne(r: Region, b: u64)
    ensures At([r], b) == if r.Holds(b) then Some(r.prot) else None
  {
    if r.Holds(b) { FindIs([r], b, 0); } else { NotFound([r], b); }
  }

  lemma InsertedHas(s: seq<Region>, r: Region, x: Region)
    ensures x in Inserted(s, r) <==> x == r || x in s
  {
    var k := Slot(s, r.start);
    assert s == s[..k] + s[k..];
  }

  /** Agreement survives an insertion exactly when the new region takes part in it. */
  lemma InsertUniform(s: seq<Region>, r: Region)
    requires Uniform(s)
    ensures Uniform(Inserted(s, r)) <==> Fitting(s, r)
  {
    hide Inserted;
    forall x ensures x in Inserted(s, r) <==> x == r || x in s { InsertedHas(s, r, x); }
  }

  lemma NotFound(s: seq<Region>, b: u64)
    requires forall j :: 0 <= j < |s| ==> !s[j].Holds(b)
    ensures Find(s, b) == -1
  {
  }

  // --- changing permissions ----------------------------------------------------------------------------------

  /** The pieces one region is cut into. */
  function Pieces(r: Region, at: u64, end: u64, prot: Prot): seq<Region> {
    if r.end <= at || r.start >= end then [r]
    else
      (if r.start < at then [Region(r.start, at, r.prot)] else [])
      + [Region(if r.start > at then r.start else at, if r.end < end then r.end else end, prot)]
      + (if r.end > end then [Region(end, r.end, r.prot)] else [])
  }

  function Protected(s: seq<Region>, at: u64, end: u64, prot: Prot): (t: seq<Region>)
    ensures |t| <= 3 * |s|
  {
    if s == [] then [] else Pieces(s[0], at, end, prot) + Protected(s[1..], at, end, prot)
  }

  /** Every region of t lies inside [lo, hi). */
  ghost predicate Within(t: seq<Region>, lo: int, hi: int) {
    forall i :: 0 <= i < |t| ==> lo <= t[i].start && t[i].end <= hi
  }

  /** The range wraps, and the region reaches over everything it leaves out. */
  predicate Spans(r: Region, at: u64, end: u64) { r.start < end <= at < r.end }

  lemma PiecesSound(r: Region, at: u64, end: u64, prot: Prot)
    requires !Spans(r, at, end) && r.start < r.end
    ensures var p := Pieces(r, at, end, prot); Disjoint(p) && NonEmpty(p) && Within(p, r.start, r.end)
  {
  }

  lemma CatSound(p: seq<Region>, t: seq<Region>, cut: int, lo: int, hi: int)
    requires Disjoint(p) && NonEmpty(p) && Within(p, lo, cut)
    requires Disjoint(t) && NonEmpty(t) && Within(t, cut, hi) && lo <= cut <= hi
    ensures Disjoint(p + t) && NonEmpty(p + t) && Within(p + t, lo, hi)
  {
    forall i, j | 0 <= i < j < |p + t| ensures (p + t)[i].end <= (p + t)[j].start {
      if i < |p| <= j { assert p[i].end <= cut && cut <= t[j - |p|].start; }
    }
  }

  lemma {:induction false} ProtectedSound(s: seq<Region>, at: u64, end: u64, prot: Prot, lo: int)
    requires Disjoint(s) && NonEmpty(s) && Within(s, lo, TOP) && lo <= TOP
    requires forall x :: x in s ==> !Spans(x, at, end)
    ensures var t := Protected(s, at, end, prot); Disjoint(t) && NonEmpty(t) && Within(t, lo, TOP)
    decreases |s|
  {
    if s != [] {
      var p := Pieces(s[0], at, end, prot);
      PiecesSound(s[0], at, end, prot);
      forall i | 0 <= i < |s[1..]| ensures s[0].end <= s[1..][i].start { assert s[1..][i] == s[i + 1]; }
      ProtectedSound(s[1..], at, end, prot, s[0].end);
      CatSound(p, Protected(s[1..], at, end, prot), s[0].end, lo, TOP);
    }
  }

  /** The pieces of every region are among the result, one after another. */
  lemma {:induction false} ProtectedHas(s: seq<Region>, at: u64, end: u64, prot: Prot, r: Region) returns (k: nat)
    requires r in s
    ensures var t, p := Protected(s, at, end, prot), Pieces(r, at, end, prot);
      k + |p| <= |t| && t[k..k + |p|] == p
    decreases |s|
  {
    hide Pieces;
    var p, rest := Pieces(s[0], at, end, prot), Protected(s[1..], at, end, prot);
    if r == s[0] {
      k := 0;
      assert (p + rest)[..|p|] == p;
    } else {
      var j := ProtectedHas(s[1..], at, end, prot, r);
      k := |p| + j;
      var q := Pieces(r, at, end, prot);
      assert (p + rest)[k..k + |q|] == rest[j..j + |q|];
    }
  }

  lemma SpannedBreaks(s: seq<Region>, at: u64, end: u64, prot: Prot, r: Region)
    requires r in s && Spans(r, at, end) && end < at
    ensures var t := Protected(s, at, end, prot); !Disjoint(t) && !NonEmpty(t) && !Sorted(t)
  {
    hide Protected;
    var t, p := Protected(s, at, end, prot), Pieces(r, at, end, prot);
    var k := ProtectedHas(s, at, end, prot, r);
    assert p == [Region(r.start, at, r.prot), Region(at, end, prot), Region(end, r.end, r.prot)];
    assert t[k] == p[0] && t[k + 1] == p[1] && t[k + 2] == p[2];
  }

  /** Protecting [at, at + len) keeps the list sorted, disjoint and free of empty regions, or none of the
      three: it loses them all exactly when the end wraps and one region reaches from below it past `at`. */
  lemma ProtectKeeps(s: seq<Region>, at: u64, len: u64, prot: Prot)
    requires Disjoint(s) && NonEmpty(s) && len > 0
    ensures var end, t := Wrap(at + len), Protected(s, at, Wrap(at + len), prot);
      if at + len >= TOP && exists x :: x in s && x.start < end && at < x.end
      then !Disjoint(t) && !NonEmpty(t) && !Sorted(t)
      else Disjoint(t) && NonEmpty(t) && Sorted(t)
  {
    hide Protected, Disjoint, NonEmpty, Sorted;
    var end := Wrap(at + len);
    assert at + len >= TOP <==> end < at;
    if x :| x in s && Spans(x, at, end) {
      SpannedBreaks(s, at, end, prot, x);
    } else {
      WithinAll(s);
      ProtectedSound(s, at, end, prot, 0);
      SoundSorted(Protected(s, at, end, prot));
    }
  }

  lemma WithinAll(s: seq<Region>)
    ensures Within(s, 0, TOP)
  {
  }

  const WHOLE := [Region(0x1000, 0x9000, READ)]

  /** An input on which protecting keeps neither its promise nor the order of the list. */
  lemma WrapBreaks()
    ensures var at: u64, len: u64 := 0x5000, 0xffff_ffff_ffff_e000;
      var t := Protected(WHOLE, at, Wrap(at + len), WRITE);
      t == [Region(0x1000, 0x5000, READ), Region(0x5000, 0x3000, WRITE), Region(0x3000, 0x9000, READ)]
      && !Sorted(t) && !Disjoint(t) && !NonEmpty(t)
      && at <= 0x6000 < at + len && At(WHOLE, 0x6000) == Some(READ) && At(t, 0x6000) == Some(READ)
  {
    var t := [Region(0x1000, 0x5000, READ), Region(0x5000, 0x3000, WRITE), Region(0x3000, 0x9000, READ)];
    assert Protected(WHOLE[1..], 0x5000, 0x3000, WRITE) == [];
    FindThree(t, 0x6000);
    AtOne(WHOLE[0], 0x6000);
    assert t[0].end == 0x5000 && t[1].start == 0x5000 && t[2].start == 0x3000;
  }

  /** A piece lies in its region, and says what the region did outside the range and `prot` inside it. */
  lemma PieceSays(r: Region, at: u64, end: u64, prot: Prot, x: Region, b: u64)
    requires x in Pieces(r, at, end, prot) && x.Holds(b)
    ensures r.Holds(b) && x.prot == if at <= b < end then prot else r.prot
  {
  }

  lemma {:induction false} PieceOf(s: seq<Region>, at: u64, end: u64, prot: Prot, x: Region) returns (r: Region)
    requires x in Protected(s, at, end, prot)
    ensures r in s && x in Pieces(r, at, end, prot)
    decreases |s|
  {
    hide Pieces;
    if x in Pieces(s[0], at, end, prot) { r := s[0]; } else { r := PieceOf(s[1..], at, end, prot, x); }
  }

  /** However the range lies and even if it wraps, regions go on agreeing about every byte. */
  lemma ProtectUniform(s: seq<Region>, at: u64, end: u64, prot: Prot)
    requires Uniform(s)
    ensures Uniform(Protected(s, at, end, prot))
  {
    hide Protected, Pieces;
    var t := Protected(s, at, end, prot);
    forall x, y, b: u64 | x in t && y in t && x.Holds(b) && y.Holds(b) ensures x.prot == y.prot {
      var p := PieceOf(s, at, end, prot, x);
      var q := PieceOf(s, at, end, prot, y);
      PieceSays(p, at, end, prot, x, b);
      PieceSays(q, at, end, prot, y, b);
    }
  }

  /** What the pieces of one region say of a byte. */
  lemma PiecesAt(r: Region, at: u64, end: u64, prot: Prot, b: u64)
    requires at < end
    ensures At(Pieces(r, at, end, prot), b)
         == if !r.Holds(b) then None else if at <= b < end then Some(prot) else Some(r.prot)
  {
    hide FindFrom;
    FindThree(Pieces(r, at, end, prot), b);
  }

  lemma FindThree(p: seq<Region>, b: u64)
    requires 1 <= |p| <= 3
    ensures Find(p, b) == if p[0].Holds(b) then 0
      else if |p| > 1 && p[1].Holds(b) then 1
      else if |p| > 2 && p[2].Holds(b) then 2
      else -1
  {
  }

  /** The first region holding a byte, in one list after another. */
  lemma {:induction false} AtCat(p: seq<Region>, t: seq<Region>, b: u64)
    ensures At(p + t, b) == if At(p, b).Some? then At(p, b) else At(t, b)
  {
    var i, j := Find(p, b), Find(t, b);
    if i >= 0 {
      assert (p + t)[i] == p[i];
      FindIs(p + t, b, i);
    } else if j >= 0 {
      forall k | 0 <= k < |p| + j ensures !(p + t)[k].Holds(b) {
        if k < |p| { assert (p + t)[k] == p[k]; } else { assert (p + t)[k] == t[k - |p|]; }
      }
      FindIs(p + t, b, |p| + j);
    } else {
      forall k | 0 <= k < |p + t| ensures !(p + t)[k].Holds(b) {
        if k < |p| { assert (p + t)[k] == p[k]; } else { assert (p + t)[k] == t[k - |p|]; }
      }
      NotFound(p + t, b);
    }
  }

  lemma FindIs(s: seq<Region>, b: u64, k: nat)
    requires k < |s| && s[k].Holds(b) && forall j :: 0 <= j < k ==> !s[j].Holds(b)
    ensures Find(s, b) == k
  {
  }

  /** Exactly the mapped bytes of [at, end) change, to exactly the permission asked for. */
  lemma {:induction false} ProtectExact(s: seq<Region>, at: u64, end: u64, prot: Prot, b: u64)
    requires at < end
    ensures At(Protected(s, at, end, prot), b) == if At(s, b).Some? && at <= b < end then Some(prot) else At(s, b)
    decreases |s|
  {
    hide Find, Pieces;
    if s == [] {
      NotFound([], b);
    } else {
      PiecesAt(s[0], at, end, prot, b);
      ProtectExact(s[1..], at, end, prot, b);
      AtCat(Pieces(s[0], at, end, prot), Protected(s[1..], at, end, prot), b);
      HeadAt(s, b);
    }
  }

  lemma HeadAt(s: seq<Region>, b: u64)
    requires s != []
    ensures At(s, b) == if s[0].Holds(b) then Some(s[0].prot) else At(s[1..], b)
  {
    AtCat([s[0]], s[1..], b);
    assert [s[0]] + s[1..] == s;
  }

  /** When at + len runs past the top of the address space no byte's permission changes. */
  lemma {:induction false} ProtectWrapped(s: seq<Region>, at: u64, end: u64, prot: Prot, b: u64)
    requires end <= at
    ensures At(Protected(s, at, end, prot), b) == At(s, b)
    decreases |s|
  {
    hide Find, Pieces;
    if s == [] {
      NotFound([], b);
    } else {
      WrappedPieces(s[0], at, end, prot, b);
      ProtectWrapped(s[1..], at, end, prot, b);
      AtCat(Pieces(s[0], at, end, prot), Protected(s[1..], at, end, prot), b);
      HeadAt(s, b);
    }
  }

  lemma WrappedPieces(r: Region, at: u64, end: u64, prot: Prot, b: u64)
    requires end <= at
    ensures At(Pieces(r, at, end, prot), b) == if r.Holds(b) then Some(r.prot) else None
  {
    hide FindFrom;
    FindThree(Pieces(r, at, end, prot), b);
  }

  /** So protecting [at, at + len) does what it promises exactly when the end does not wrap, or every
      mapped byte from `at` up has the permission already. */
  lemma ProtectPromise(s: seq<Region>, at: u64, len: u64, prot: Prot)
    requires len > 0
    ensures (forall b: u64 :: At(Protected(s, at, Wrap(at + len), prot), b)
                == if At(s, b).Some? && at <= b < at + len then Some(prot) else At(s, b))
      <==> at + len < 0x1_0000_0000_0000_0000 || forall b: u64 :: b >= at && At(s, b).Some? ==> At(s, b) == Some(prot)
  {
    hide Protected, Find, At;
    var end := Wrap(at + len);
    if at + len < 0x1_0000_0000_0000_0000 {
      forall b: u64 ensures At(Protected(s, at, end, prot), b)
                == if At(s, b).Some? && at <= b < at + len then Some(prot)
                    else At(s, b) { ProtectExact(s, at, end, prot, b); }
    } else {
      forall b: u64 ensures At(Protected(s, at, end, prot), b) == At(s, b) { ProtectWrapped(s, at, end, prot, b); }
    }
  }

  // --- removing ---------------------------------------------------------------------------------------------

  predicate Inside(r: Region, lo: u64, hi: u64) { r.start >= lo && r.end <= hi }

  /** Only regions wholly inside the range go. */
  function Removed(s: seq<Region>, lo: u64, hi: u64): (t: seq<Region>)
    ensures |t| <= |s|
  {
    if s == [] then [] else (if Inside(s[0], lo, hi) then [] else [s[0]]) + Removed(s[1..], lo, hi)
  }

  lemma {:induction false} RemovedSound(s: seq<Region>, lo: u64, hi: u64, from: int)
    requires Disjoint(s) && NonEmpty(s) && Within(s, from, TOP)
    ensures var t := Removed(s, lo, hi); Disjoint(t) && NonEmpty(t) && Within(t, from, TOP)
    decreases |s|
  {
    hide Disjoint, NonEmpty, Within, Inside;
    if s != [] {
      RestSound(s, from);
      RemovedSound(s[1..], lo, hi, s[0].end);
      var rest := Removed(s[1..], lo, hi);
      WithinMore(rest, s[0].end, from);
      CatSound([s[0]], rest, s[0].end, from, TOP);
      assert Removed(s, lo, hi) == rest || Removed(s, lo, hi) == [s[0]] + rest;
    } else {
      assert Removed(s, lo, hi) == s;
    }
  }

  lemma RestSound(s: seq<Region>, from: int)
    requires s != [] && Disjoint(s) && NonEmpty(s) && Within(s, from, TOP)
    ensures Disjoint(s[1..]) && NonEmpty(s[1..]) && Within(s[1..], s[0].end, TOP)
    ensures Disjoint([s[0]]) && NonEmpty([s[0]]) && Within([s[0]], from, s[0].end) && from <= s[0].end <= TOP
  {
    forall i | 0 <= i < |s[1..]| ensures s[0].end <= s[1..][i].start { assert s[1..][i] == s[i + 1]; }
  }

  lemma WithinMore(t: seq<Region>, lo: int, from: int)
    requires Within(t, lo, TOP) && from <= lo
    ensures Within(t, from, TOP)
  {
  }

  lemma {:induction false} RemovedHas(s: seq<Region>, lo: u64, hi: u64, x: Region)
    ensures x in Removed(s, lo, hi) <==> x in s && !Inside(x, lo, hi)
    decreases |s|
  {
    hide Inside;
    if s != [] { RemovedHas(s[1..], lo, hi, x); }
  }

  lemma RemovedUniform(s: seq<Region>, lo: u64, hi: u64)
    requires Uniform(s)
    ensures Uniform(Removed(s, lo, hi))
  {
    hide Removed, Inside;
    forall x ensures x in Removed(s, lo, hi) ==> x in s { RemovedHas(s, lo, hi, x); }
  }

  /** Some region that is not wholly inside the range holds the byte. */
  ghost predicate Held(s: seq<Region>, lo: u64, hi: u64, b: u64) {
    exists x :: x in s && x.Holds(b) && !Inside(x, lo, hi)
  }

  /** A byte stays mapped, as it was, exactly when a region not wholly inside the range holds it: unmapping
      part of a region leaves the table saying the whole of it is still there. */
  lemma RemovedExact(s: seq<Region>, lo: u64, hi: u64, b: u64)
    requires Uniform(s)
    ensures At(Removed(s, lo, hi), b) == if Held(s, lo, hi, b) then At(s, b) else None
  {
    hide Removed, Inside, At;
    var t := Removed(s, lo, hi);
    NoHolder(t, b);
    forall x ensures x in t <==> x in s && !Inside(x, lo, hi) { RemovedHas(s, lo, hi, x); }
    if At(t, b).Some? {
      var x := Holder(t, b);
      NoHolder(s, b);
      var y := Holder(s, b);
    }
  }

  /** Unmapping takes exactly its range out of the table if and only if every region that holds anything is
      inside the range, or outside it. */
  lemma UnmapPromise(s: seq<Region>, lo: u64, hi: u64)
    requires Uniform(s)
    ensures (forall b: u64 :: At(Removed(s, lo, hi), b) == if lo <= b < hi then None else At(s, b))
      <==> forall x :: x in s && x.start < x.end ==> x.end <= lo || hi <= x.start || Inside(x, lo, hi) || lo >= hi
  {
    hide At, Removed, Uniform;
    forall b: u64 ensures At(Removed(s, lo, hi), b) == if Held(s, lo, hi, b) then At(s, b) else None {
      RemovedExact(s, lo, hi, b);
    }
    forall b: u64 ensures At(s, b).None? <==> forall x :: x in s ==> !x.Holds(b) { NoHolder(s, b); }
    if x :| x in s && x.start < x.end && !(x.end <= lo || hi <= x.start || Inside(x, lo, hi) || lo >= hi) {
      var b: u64 := if x.start < lo then lo else x.start;
      assert x.Holds(b) && lo <= b < hi && Held(s, lo, hi, b);
    } else {
      forall b: u64 ensures At(Removed(s, lo, hi), b) == if lo <= b < hi then None else At(s, b) {
      }
    }
  }

  /** An input on which unmapping breaks it: the first of a region's two 16K pages, still said to be readable. */
  lemma UnmapBreaks()
    ensures At(Removed([Region(0x4000, 0xc000, READ)], 0x4000, 0x8000), 0x5000) == Some(READ)
  {
    var s := [Region(0x4000, 0xc000, READ)];
    assert Removed(s[1..], 0x4000, 0x8000) == [];
    assert Removed(s, 0x4000, 0x8000) == s;
    AtOne(s[0], 0x5000);
  }
}
