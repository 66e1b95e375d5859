/** The guest's region table: lookups, permission checks and the hit caches compiled code uses. */
module Regions {
  import opened Words

  datatype Prot = Prot(r: bool, w: bool, x: bool) {
    /** (have & want) == want */
    predicate Allows(want: Prot) { (want.r ==> r) && (want.w ==> w) && (want.x ==> x) }
  }

  const READ := Prot(true, false, false)
  const WRITE := Prot(false, true, false)
  const EXEC := Prot(false, false, true)

  datatype Region = Region(start: u64, end: u64, prot: Prot) {
    predicate Holds(a: int) { start <= a < end }
  }

  /** The first region holding a, or -1. */
  function Find(s: seq<Region>, a: u64): (i: int)
    ensures -1 <= i < |s|
    ensures i >= 0 ==> s[i].Holds(a)
    ensures forall j :: 0 <= j < (if i < 0 then |s| else i) ==> !s[j].Holds(a)
  {
    FindFrom(s, a, 0)
  }

  function FindFrom(s: seq<Region>, a: u64, k: nat): (i: int)
    requires k <= |s|
    ensures i == -1 || k <= i < |s|
    ensures i >= 0 ==> s[i].Holds(a)
    ensures forall j :: k <= j < (if i < 0 then |s| else i) ==> !s[j].Holds(a)
    decreases |s| - k
  {
    if k == |s| then -1 else if s[k].Holds(a) then k else FindFrom(s, a, k + 1)
  }

  /** The permission scan: n bytes from a up, none past the top of the address space, all allowing prot. */
  predicate Ok(s: seq<Region>, a: u64, n: u64, prot: Prot) {
    n == 0 || (a + n < 0x1_0000_0000_0000_0000 && OkFrom(s, a, n, prot))
  }

  predicate OkFrom(s: seq<Region>, a: u64, n: u64, prot: Prot)
    requires a + n < 0x1_0000_0000_0000_0000
    decreases n
  {
    n == 0 ||
    var i := Find(s, a);
    i >= 0 && s[i].prot.Allows(prot) &&
    var avail := s[i].end - a;
    (avail >= n || OkFrom(s, a + avail, n - avail, prot))
  }

  /** Permission for a range is permission for what it starts with. */
  lemma {:induction false} OkShorter(s: seq<Region>, a: u64, n: u64, k: u64, prot: Prot)
    requires a + n < 0x1_0000_0000_0000_0000 && k <= n && OkFrom(s, a, n, prot)
    ensures OkFrom(s, a, k, prot)
    decreases n
  {
    hide Find;
    if k != 0 {
      var i := Find(s, a);
      var avail := s[i].end - a;
      if avail < k { OkShorter(s, a + avail, n - avail, k - avail, prot); }
    }
  }

  /** The same for bytes that only have to be in the table. */
  predicate Mapped(s: seq<Region>, a: u64, n: u64) { Ok(s, a, n, Prot(false, false, false)) }

  // Data accesses outside the table are left to the host unless clearly impossible.
  const MIN_VALID: int := 0x1000
  const MAX_VALID: int := 0x0001_0000_0000_0000

  predicate AccessOk(s: seq<Region>, a: u64, n: u64, prot: Prot) {
    Ok(s, a, n, prot) ||
    (!Mapped(s, a, n) && a >= MIN_VALID && a < MAX_VALID && n <= MAX_VALID - a)
  }

  /** Sorted by start, each ending before the next begins. */
  ghost predicate Disjoint(s: seq<Region>) {
    forall i, j :: 0 <= i < j < |s| ==> s[i].end <= s[j].start
  }

  // --- the two-entry hit caches ------------------------------------------------

  datatype Hit = Hit(lo: u64, lim: u64)

  /** Newest first. An entry with lim 0 is empty. */
  datatype Hits = Hits(first: Hit, second: Hit)

  const EMPTY := Hits(Hit(0, 0), Hit(0, 0))

  /** The in-line test: a - lo wraps, so one comparison refuses both sides. */
  predicate InHit(h: Hit, a: u64) { Wrap(a - h.lo) < h.lim }

  predicate InHits(h: Hits, a: u64) { InHit(h.first, a) || InHit(h.second, a) }

  /** The cache after an access at a: changed if a's region grants prot and an 8-byte access fits in it. */
  function Note(s: seq<Region>, h: Hits, a: u64, prot: Prot): Hits {
    var i := Find(s, a);
    if i < 0 || !s[i].prot.Allows(prot) then h
    else
      var len := s[i].end - s[i].start;
      if len < 8 || h.first.lo == s[i].start then h
      else Hits(Hit(s[i].start, len - 7), h.first)
  }

  /** An entry is empty, or it is a current region that allows prot, with room for 8 bytes. */
  ghost predicate HitValid(s: seq<Region>, h: Hit, prot: Prot) {
    h.lim == 0 ||
    exists i :: 0 <= i < |s| && s[i].start == h.lo && h.lim == s[i].end - h.lo - 7 && s[i].prot.Allows(prot)
  }

  ghost predicate HitsValid(s: seq<Region>, h: Hits, prot: Prot) {
    HitValid(s, h.first, prot) && HitValid(s, h.second, prot)
  }

  lemma NoteValid(s: seq<Region>, h: Hits, a: u64, prot: Prot)
    requires HitsValid(s, h, prot)
    ensures HitsValid(s, Note(s, h, a, prot), prot)
  {
  }

  /** No byte is claimed by two regions that disagree about it. */
  ghost predicate Uniform(s: seq<Region>) {
    forall x, y, b: u64 :: x in s && y in s && x.Holds(b) && y.Holds(b) ==> x.prot == y.prot
  }

  /** The scan goes through wherever one region holds the range and allows it, whichever it finds first. */
  lemma {:induction false} HeldOk(s: seq<Region>, r: Region, a: u64, n: u64, prot: Prot)
    requires Uniform(s) && r in s && r.prot.Allows(prot) && r.start <= a && a + n <= r.end
    ensures OkFrom(s, a, n, prot)
    decreases n
  {
    if n != 0 {
      var f := s[Find(s, a)];
      assert r.Holds(a) && f.Holds(a);
      if f.end - a < n { HeldOk(s, r, f.end, n - (f.end - a), prot); }
    }
  }

  /** The in-line test implies the full check, for every access of up to 8 bytes. */
  lemma HitMeansOk(s: seq<Region>, h: Hit, a: u64, n: u64, prot: Prot)
    requires Uniform(s) && HitValid(s, h, prot) && InHit(h, a) && n <= 8
    ensures Ok(s, a, n, prot)
  {
    hide OkFrom, Uniform, Find;
    var i :| 0 <= i < |s| && s[i].start == h.lo && h.lim == s[i].end - h.lo - 7 && s[i].prot.Allows(prot);
    assert a >= h.lo && Wrap(a - h.lo) == a - h.lo;
    HeldOk(s, s[i], a, n, prot);
  }
}
