/** The write log and what undoing it does, whatever wrote the memory. */
module WriteLog {
  import opened Words
  import opened GuestState

  /** Bytes written from address a up. */
  function Poked(m: Mem, a: int, bytes: seq<byte>): Mem
    decreases |bytes|
  {
    if bytes == [] then m else Poked(Poke(m, a, bytes[0]), a + 1, bytes[1..])
  }

  predicate Covers(e: Entry, b: int) { e.addr <= b < e.addr + e.span }

  ghost predicate CoveredBy(es: seq<Entry>, b: int) { exists i :: 0 <= i < |es| && Covers(es[i], b) }

  lemma {:induction false} PokedAt(m: Mem, a: int, bytes: seq<byte>, b: int)
    ensures Peek(Poked(m, a, bytes), b) == if a <= b < a + |bytes| then bytes[b - a] else Peek(m, b)
    decreases |bytes|
  {
    if bytes != [] { PokedAt(Poke(m, a, bytes[0]), a + 1, bytes[1..], b); }
  }

  lemma {:induction false} WindowByte(m: Mem, a: int, n: nat, i: nat)
    requires i < n
    ensures Window(m, a, n)[i] == Peek(m, a + i)
    decreases n
  {
    if i > 0 { WindowByte(m, a + 1, n - 1, i - 1); }
  }

  /** Windows are equal exactly when every byte in them is. */
  lemma WindowSame(m: Mem, m': Mem, a: int, n: nat)
    ensures Window(m, a, n) == Window(m', a, n) <==> forall b: int :: a <= b < a + n ==> Peek(m, b) == Peek(m', b)
  {
    forall i | 0 <= i < n ensures Window(m, a, n)[i] == Peek(m, a + i) && Window(m', a, n)[i] == Peek(m', a + i) {
      WindowByte(m, a, n, i);
      WindowByte(m', a, n, i);
    }
    if Window(m, a, n) == Window(m', a, n) {
      forall b: int | a <= b < a + n ensures Peek(m, b) == Peek(m', b) {
        assert Window(m, a, n)[b - a] == Window(m', a, n)[b - a];
      }
    }
  }

  // --- undoing ----------------------------------------------------------------------------------------

  /** The last entry's window put back, then the one before it, and so on. */
  function Undone(m: Mem, es: seq<Entry>): Mem
    decreases |es|
  {
    if es == [] then m
    else
      var e := es[|es| - 1];
      Undone(Poked(m, e.addr, e.before), es[..|es| - 1])
  }

  method UndoWrites(m: Mem, es: seq<Entry>) returns (now: Mem)
    ensures now == Undone(m, es)
  {
    now := m;
    var i := |es|;
    assert es[..i] == es;
    while i > 0
      invariant 0 <= i <= |es|
      invariant Undone(now, es[..i]) == Undone(m, es)
    {
      i := i - 1;
      assert es[..i + 1][..i] == es[..i];
      now := Poked(now, es[i].addr, es[i].before);
    }
  }

  ghost predicate WellLogged(es: seq<Entry>) {
    forall i :: 0 <= i < |es| ==> |es[i].before| == es[i].span && es[i].span >= es[i].size
  }

  lemma {:induction false} UndoneByte(m: Mem, es: seq<Entry>, b: int)
    requires WellLogged(es)
    ensures CoveredBy(es, b) || Peek(Undone(m, es), b) == Peek(m, b)
    ensures forall k :: 0 <= k < |es| && Covers(es[k], b) && !CoveredBy(es[..k], b)
              ==> b - es[k].addr < |es[k].before| && Peek(Undone(m, es), b) == es[k].before[b - es[k].addr]
    decreases |es|
  {
    if es != [] {
      var n := |es| - 1;
      var e, rest := es[n], es[..n];
      UndoneByte(Poked(m, e.addr, e.before), rest, b);
      PokedAt(m, e.addr, e.before, b);
      forall k | 0 <= k < |es| && Covers(es[k], b) && !CoveredBy(es[..k], b)
        ensures b - es[k].addr < |es[k].before| && Peek(Undone(m, es), b) == es[k].before[b - es[k].addr]
      {
        if k < n { assert rest[..k] == es[..k] && rest[k] == es[k]; }
      }
      if CoveredBy(rest, b) {
        var i :| 0 <= i < |rest| && Covers(rest[i], b);
        assert Covers(es[i], b);
      } else if !CoveredBy(es, b) {
        assert !Covers(es[n], b);
      }
    }
  }

  /** How a memory came to be: entry i was logged when memory was ms[i], recording its window; after that
      only bytes in the windows logged so far changed, until the next entry or the end. Two entries may be
      logged before a store that writes through both. */
  ghost predicate History(ms: seq<Mem>, es: seq<Entry>) {
    && |ms| == |es| + 1 && WellLogged(es)
    && (forall i :: 0 <= i < |es| ==> es[i].before == Window(ms[i], es[i].addr, es[i].span))
    && (forall i :: 0 <= i < |es| ==> OnlyIn(ms[i], ms[i + 1], es[..i + 1]))
  }

  /** Only bytes the entries cover have changed. */
  ghost predicate OnlyIn(m: Mem, m': Mem, es: seq<Entry>) {
    forall b: int :: Peek(m', b) != Peek(m, b) ==> CoveredBy(es, b)
  }

  /** Bytes outside every window up to entry k are as they were at the start when entry k is logged. */
  lemma {:induction false} UntouchedUntil(ms: seq<Mem>, es: seq<Entry>, k: nat, b: int)
    requires History(ms, es) && k <= |es| && !CoveredBy(es[..k], b)
    ensures Peek(ms[k], b) == Peek(ms[0], b)
    decreases k
  {
    if k > 0 {
      CoveredMore(es, k, b);
      UntouchedUntil(ms, es, k - 1, b);
      assert OnlyIn(ms[k - 1], ms[k], es[..k - 1 + 1]);
    }
  }

  /** The earliest entry covering a byte. */
  lemma {:induction false} Earliest(es: seq<Entry>, b: int) returns (k: nat)
    requires CoveredBy(es, b)
    ensures k < |es| && Covers(es[k], b) && !CoveredBy(es[..k], b)
    decreases |es|
  {
    var n := |es| - 1;
    if CoveredBy(es[..n], b) {
      k := Earliest(es[..n], b);
      assert es[..n][..k] == es[..k] && es[..n][k] == es[k];
    } else {
      k := n;
      CoveredLast(es, b);
    }
  }

  lemma CoveredMore(es: seq<Entry>, k: nat, b: int)
    requires 0 < k <= |es| && !CoveredBy(es[..k], b)
    ensures !CoveredBy(es[..k - 1], b)
  {
    assert forall i :: 0 <= i < k - 1 ==> es[..k - 1][i] == es[..k][i];
  }

  lemma CoveredLast(es: seq<Entry>, b: int)
    requires CoveredBy(es, b) && !CoveredBy(es[..|es| - 1], b)
    ensures Covers(es[|es| - 1], b)
  {
    var n := |es| - 1;
    assert forall i :: 0 <= i < n ==> es[..n][i] == es[i];
  }

  /** Undoing the log backwards gives back exactly the memory the block started from, however its writes
      overlapped. */
  lemma UndoRestores(ms: seq<Mem>, es: seq<Entry>)
    requires History(ms, es)
    ensures Undone(ms[|es|], es) == ms[0]
  {
    var m := Undone(ms[|es|], es);
    forall b: int ensures Peek(m, b) == Peek(ms[0], b) { UndoByte(ms, es, b); }
    SameBytes(m, ms[0]);
  }

  lemma SameBytes(m: Mem, m': Mem)
    requires forall b: int :: Peek(m, b) == Peek(m', b)
    ensures m == m'
  {
    forall b: int ensures b in m.bytes && b in m'.bytes && m.bytes[b] == m'.bytes[b] {
      assert Peek(m, b) == Peek(m', b);
    }
    SameMaps(m.bytes, m'.bytes);
  }

  lemma SameMaps(m: imap<int, byte>, m': imap<int, byte>)
    requires forall b: int :: b in m && b in m' && m[b] == m'[b]
    ensures m == m'
  {
    assert forall b :: b in m <==> b in m';
    assert forall b :: b in m ==> m[b] == m'[b];
  }

  lemma HistoryAt(ms: seq<Mem>, es: seq<Entry>, k: nat)
    requires History(ms, es) && k < |es|
    ensures es[k].before == Window(ms[k], es[k].addr, es[k].span) && |es[k].before| == es[k].span
  {
  }

  lemma UndoByte(ms: seq<Mem>, es: seq<Entry>, b: int)
    requires History(ms, es)
    ensures Peek(Undone(ms[|es|], es), b) == Peek(ms[0], b)
  {
    hide Undone, CoveredBy, Peek;
    UndoneByte(ms[|es|], es, b);
    if CoveredBy(es, b) {
      var k := Earliest(es, b);
      UntouchedUntil(ms, es, k, b);
      HistoryAt(ms, es, k);
      WindowByte(ms[k], es[k].addr, es[k].span, b - es[k].addr);
    } else {
      assert es[..|es|] == es;
      UntouchedUntil(ms, es, |es|, b);
    }
  }
}
