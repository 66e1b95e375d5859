/** The translation validator: a block is run, its writes are undone, the same instructions are interpreted
    from the same state, and the two ends are compared. */
module Validator {
  import opened Words
  import opened Regions
  import opened GuestState
  import opened Insns
  import opened Interpreter
  import opened Stores
  import opened StepStores
  import opened BlockSource
  import opened WriteLog

  /** The state a block or its replay leaves. */
  datatype End = End(g: Guest, rip: u64, faulted: bool)

  const CLEAN := On([], false)

  function Entries(g: Guest): seq<Entry> { if g.log.On? then g.log.entries else [] }

  predicate Overflowed(g: Guest) { g.log.On? && g.log.overflow }

  /** The log holds no more than it has room for, and is full if it says so. */
  predicate LogSane(g: Guest) { |Entries(g)| <= LOG_MAX && (Overflowed(g) ==> |Entries(g)| == LOG_MAX) }

  // --- the check ----------------------------------------------------------------------------------------

  /** What memory holds where each entry's window is. */
  function Windows(m: Mem, es: seq<Entry>): (w: seq<seq<byte>>)
    ensures |w| == |es|
    ensures forall i :: 0 <= i < |es| ==> w[i] == Window(m, es[i].addr, es[i].span)
    decreases |es|
  {
    if es == [] then [] else [Window(m, es[0].addr, es[0].span)] + Windows(m, es[1..])
  }

  predicate SameEntry(e: Entry, f: Entry) { e.addr == f.addr && e.size == f.size && e.val == f.val }

  predicate SameState(a: End, b: End) {
    a.rip == b.rip && a.g.flags == b.g.flags && a.g.r == b.g.r && a.g.xmm == b.g.xmm
  }

  /** Both faulted, or neither did and they end alike. */
  predicate SameEnd(jit: End, int_: End) {
    (jit.faulted && int_.faulted) || (!jit.faulted && !int_.faulted && SameState(jit, int_))
  }

  /** As many writes, unless a log ran out of room. */
  predicate SameCount(jit: Guest, int_: Guest) {
    Overflowed(jit) || Overflowed(int_) || |Entries(jit)| == |Entries(int_)|
  }

  /** Each write of the compiled block against the interpreter's, and the bytes around it. */
  predicate SameWrites(jit: Guest, int_: Guest)
    requires SameCount(jit, int_) && LogSane(jit) && LogSane(int_)
  {
    Overflowed(jit) ||
    forall i :: 0 <= i < |Entries(jit)| ==>
      SameEntry(Entries(jit)[i], Entries(int_)[i])
      && Window(jit.mem, Entries(jit)[i].addr, Entries(jit)[i].span)
          == Window(int_.mem, Entries(jit)[i].addr, Entries(jit)[i].span)
  }

  predicate Accepts(jit: End, int_: End)
    requires LogSane(jit.g) && LogSane(int_.g)
  {
    SameEnd(jit, int_) && SameCount(jit.g, int_.g) && SameWrites(jit.g, int_.g)
  }

  /** A block and its replay both fault, or both get through to the same rip and registers, and they wrote as
      often, the same values in the same places, and left the same bytes around each write. */
  ghost predicate AsReplayed(jit: End, int_: End) {
    var es, fs := Entries(jit.g), Entries(int_.g);
    && jit.faulted == int_.faulted
    && (!jit.faulted ==> jit.rip == int_.rip && jit.g.r == int_.g.r && jit.g.xmm == int_.g.xmm)
    && (!jit.faulted ==> jit.g.flags == int_.g.flags)
    && |es| == |fs|
    && forall i :: 0 <= i < |es| ==>
         && es[i].addr == fs[i].addr && es[i].size == fs[i].size && es[i].val == fs[i].val
         && Window(jit.g.mem, es[i].addr, es[i].span) == Window(int_.g.mem, es[i].addr, es[i].span)
  }

  /** As long as no log overflowed, that is exactly when a block is accepted. */
  lemma AcceptsExactly(jit: End, int_: End)
    requires LogSane(jit.g) && LogSane(int_.g) && !Overflowed(jit.g) && !Overflowed(int_.g)
    ensures Accepts(jit, int_) <==> AsReplayed(jit, int_)
  {
    hide Window;
  }

  /** The interpreter's replay of n instructions, stopping at a fault. */
  function Replay(regs: seq<Region>, code: Mem, g: Guest, rip: u64, n: nat): End
    decreases n
  {
    if n == 0 then End(g, rip, false)
    else
      match Interpreter.Step(regs, code, rip, g)
      case Ran(Done(g1, rip1)) => Replay(regs, code, g1, rip1, n - 1)
      case _ => End(g, rip, true)
  }

  /** Where the replay starts: everything as before the block, and memory as undoing its writes leaves it. */
  function Rewound(before: Guest, jit: Guest): Guest {
    before.(mem := Undone(jit.mem, Entries(jit)), log := CLEAN)
  }

  /** The check made after a block has run. */
  method CheckBlock(regs: seq<Region>, code: Mem, before: Guest, rip: u64, ninsn: nat, jit: End) returns (ok: bool,
      int_: End)
    requires LogSane(jit.g)
    ensures int_ == Replay(regs, code, Rewound(before, jit.g), rip, ninsn) && LogSane(int_.g)
    ensures ok == Accepts(jit, int_)
  {
    hide Interpreter.Step, Undone, Windows, Window;
    var es := Entries(jit.g);
    var after := Windows(jit.g.mem, es);
    var mem := UndoWrites(jit.g.mem, es);
    int_ := ReplayBlock(regs, code, before.(mem := mem, log := CLEAN), rip, ninsn);
    ok := SameEnd(jit, int_) && SameCount(jit.g, int_.g);
    if ok && !jit.g.log.Off? && !jit.g.log.overflow { ok := CompareWrites(jit.g, int_.g, after); }
  }

  /** Interpret until the count is reached or the cpu stops. */
  method ReplayBlock(regs: seq<Region>, code: Mem, g0: Guest, rip0: u64, ninsn: nat) returns (e: End)
    requires g0.log == CLEAN
    ensures e == Replay(regs, code, g0, rip0, ninsn) && LogSane(e.g)
  {
    hide Interpreter.Step, Replay;
    e := End(g0, rip0, false);
    var done := 0;
    while done < ninsn && !e.faulted
      invariant done <= ninsn && LogSane(e.g)
      invariant (if e.faulted then e else Replay(regs, code, e.g, e.rip, ninsn - done))
          == Replay(regs, code, g0, rip0, ninsn)
    {
      ReplayStep(regs, code, e.g, e.rip, ninsn - done);
      match Interpreter.Step(regs, code, e.rip, e.g) {
        case Ran(Done(g1, rip1)) =>
          StepSane(regs, code, e.rip, e.g);
          e := End(g1, rip1, false);
        case _ => e := e.(faulted := true);
      }
      done := done + 1;
    }
    if !e.faulted { ReplayNone(regs, code, e.g, e.rip); }
  }

  lemma ReplayStep(regs: seq<Region>, code: Mem, g: Guest, rip: u64, n: nat)
    requires n > 0
    ensures Replay(regs, code, g, rip, n)
         == match Interpreter.Step(regs, code, rip, g)
            case Ran(Done(g1, rip1)) => Replay(regs, code, g1, rip1, n - 1)
            case _ => End(g, rip, true)
  {
    hide Interpreter.Step;
  }

  lemma ReplayNone(regs: seq<Region>, code: Mem, g: Guest, rip: u64)
    ensures Replay(regs, code, g, rip, 0) == End(g, rip, false)
  {
  }

  method CompareWrites(jit: Guest, int_: Guest, after: seq<seq<byte>>) returns (ok: bool)
    requires SameCount(jit, int_) && LogSane(jit) && LogSane(int_) && !Overflowed(jit)
    requires after == Windows(jit.mem, Entries(jit))
    ensures ok == SameWrites(jit, int_)
  {
    hide Window, Windows;
    var es := Entries(jit);
    ok := CompareEntries(es, Entries(int_));
    if ok { ok := CompareWindows(es, int_.mem, after); }
  }

  method CompareEntries(es: seq<Entry>, fs: seq<Entry>) returns (ok: bool)
    requires |es| <= |fs|
    ensures ok == forall j :: 0 <= j < |es| ==> SameEntry(es[j], fs[j])
  {
    var i := 0;
    while i < |es|
      invariant 0 <= i <= |es|
      invariant forall j :: 0 <= j < i ==> SameEntry(es[j], fs[j])
    {
      if !SameEntry(es[i], fs[i]) { return false; }
      i := i + 1;
    }
    return true;
  }

  method CompareWindows(es: seq<Entry>, mem: Mem, after: seq<seq<byte>>) returns (ok: bool)
    requires |after| == |es|
    ensures ok == forall j :: 0 <= j < |es| ==> after[j] == Window(mem, es[j].addr, es[j].span)
  {
    hide Window;
    var i := 0;
    while i < |es|
      invariant 0 <= i <= |es|
      invariant forall j :: 0 <= j < i ==> after[j] == Window(mem, es[j].addr, es[j].span)
    {
      if after[i] != Window(mem, es[i].addr, es[i].span) { return false; }
      i := i + 1;
    }
    return true;
  }

  // --- what the interpreter writes ---------------------------------------------------------------------

  /** m' differs from m only where some entry wrote. */
  ghost predicate WroteAt(es: seq<Entry>, b: int) {
    exists i :: 0 <= i < |es| && es[i].addr <= b < es[i].addr + es[i].size
  }

  lemma {:induction false} StoreAt(m: Mem, a: int, v: nat, n: nat, b: int)
    ensures !(a <= b < a + n) ==> Peek(Store(m, a, v, n), b) == Peek(m, b)
    decreases n
  {
    if n > 0 { StoreAt(Poke(m, a, v % 0x100), a + 1, v / 0x100, n - 1, b); }
  }

  /** g' is g after a store: one more entry that tells of it, or a log that has run out. */
  ghost predicate Logged(g: Guest, g': Guest) {
    (g'.mem == g.mem && g'.log == g.log) ||
    (g.log.On? && g'.log.On? && |Entries(g)| < LOG_MAX && g'.log == g.log.(entries := g'.log.entries)
     && |Entries(g')| == |Entries(g)| + 1 && Entries(g')[..|Entries(g)|] == Entries(g)
     && NewEntry(g.mem, g'.mem, Entries(g')[|Entries(g)|]))
  }

  ghost predicate NewEntry(m: Mem, m': Mem, e: Entry) {
    && e.before == Window(m, e.addr, e.span) && e.span >= e.size
    && forall b: int :: Peek(m', b) != Peek(m, b) ==> e.addr <= b < e.addr + e.size
  }

  lemma OneStoreLogged(regs: seq<Region>, g: Guest, g': Guest)
    requires OneStore(regs, g, g') && g.log.On? && |Entries(g)| < LOG_MAX
    ensures Logged(g, g') && g'.log.On?
  {
    if !(g'.mem == g.mem && g'.log == g.log) {
      var a: u64, v: u64, size: Size :| g'.mem == Store(g.mem, a, v, size) && g'.log == LogWrite(regs, g, a, v, size);
      StoreLogged(regs, g, g', a, v, size);
    }
  }

  lemma StoreLogged(regs: seq<Region>, g: Guest, g': Guest, a: u64, v: u64, size: Size)
    requires g.log.On? && |Entries(g)| < LOG_MAX
    requires g'.mem == Store(g.mem, a, v, size) && g'.log == LogWrite(regs, g, a, v, size)
    ensures Logged(g, g') && g'.log.On?
  {
    hide Ok, Window, Store, LoadSize, Peek;
    forall b: int | Peek(g'.mem, b) != Peek(g.mem, b) ensures a <= b < a + size { StoreAt(g.mem, a, v, size, b); }
  }

  lemma StepSane(regs: seq<Region>, code: Mem, rip: u64, g: Guest)
    requires LogSane(g)
    ensures var s := Interpreter.Step(regs, code, rip, g);
      s.Ran? && s.r.Done? ==> LogSane(s.r.g)
  {
    hide Interpreter.Step, Window, LoadSize, Ok, Store;
    StepOnce(regs, code, rip, g);
  }

  // --- histories ------------------------------------------------------------------------------------------

  /** A memory's past that the log tells. */
  ghost predicate Told(m0: Mem, m: Mem, es: seq<Entry>) {
    exists ms: seq<Mem> :: History(ms, es) && ms[0] == m0 && ms[|es|] == m
  }

  lemma ToldNothing(m: Mem)
    ensures Told(m, m, [])
  {
    assert History([m], []) && [m][0] == m;
  }

  lemma ToldMore(m0: Mem, m: Mem, m': Mem, es: seq<Entry>, e: Entry)
    requires Told(m0, m, es) && NewEntry(m, m', e) && |e.before| == e.span
    ensures Told(m0, m', es + [e])
  {
    var ms: seq<Mem> :| History(ms, es) && ms[0] == m0 && ms[|es|] == m;
    HistoryMore(ms, es, m', e);
    assert (ms + [m'])[0] == m0 && (ms + [m'])[|es + [e]|] == m';
  }

  lemma HistoryMore(ms: seq<Mem>, es: seq<Entry>, m': Mem, e: Entry)
    requires History(ms, es) && NewEntry(ms[|es|], m', e) && |e.before| == e.span
    ensures History(ms + [m'], es + [e])
  {
    hide Window, Peek;
    var ns, fs := ms + [m'], es + [e];
    forall i | 0 <= i < |fs| ensures OnlyIn(ns[i], ns[i + 1], fs[..i + 1]) {
      if i < |es| {
        assert fs[..i + 1] == es[..i + 1] && OnlyIn(ms[i], ms[i + 1], es[..i + 1]);
      } else {
        LastOnly(ns[i], m', fs, e);
        assert fs[..i + 1] == fs;
      }
    }
    forall i | 0 <= i < |fs| ensures fs[i].before == Window(ns[i], fs[i].addr,
        fs[i].span) && |fs[i].before| == fs[i].span && fs[i].span >= fs[i].size {
      if i < |es| { assert fs[i] == es[i] && ns[i] == ms[i]; }
    }
  }

  lemma LastOnly(m: Mem, m': Mem, es: seq<Entry>, e: Entry)
    requires es != [] && es[|es| - 1] == e && NewEntry(m, m', e)
    ensures OnlyIn(m, m', es)
  {
    forall b: int | Peek(m', b) != Peek(m, b) ensures CoveredBy(es, b) { assert Covers(es[|es| - 1], b); }
  }

  /** Replaying no more instructions than the log has room for: every write is logged, the log tells the
      whole story, and nothing changes outside it. */
  lemma {:induction false} ReplayTold(regs: seq<Region>, code: Mem, g: Guest, rip: u64, n: nat, m0: Mem)
    requires g.log.On? && |Entries(g)| + n <= LOG_MAX && Told(m0, g.mem, Entries(g))
    requires !Overflowed(g) && forall b: int :: Peek(g.mem, b) != Peek(m0, b) ==> WroteAt(Entries(g), b)
    ensures var e := Replay(regs, code, g, rip, n);
      e.g.log.On? && !Overflowed(e.g) && |Entries(e.g)| <= |Entries(g)| + n && Told(m0, e.g.mem, Entries(e.g))
      && forall b: int :: Peek(e.g.mem, b) != Peek(m0, b) ==> WroteAt(Entries(e.g), b)
    decreases n
  {
    hide Interpreter.Step, Peek, WroteAt, Told;
    if n > 0 {
      match Interpreter.Step(regs, code, rip, g)
      case Ran(Done(g1, rip1)) =>
        StepOnce(regs, code, rip, g);
        OneStoreLogged(regs, g, g1);
        LoggedTold(g, g1, m0);
        ReplayTold(regs, code, g1, rip1, n - 1, m0);
      case _ =>
    }
  }

  lemma LoggedTold(g: Guest, g': Guest, m0: Mem)
    requires g.log.On? && g'.log.On? && Logged(g, g') && Told(m0, g.mem, Entries(g)) && !Overflowed(g)
    requires forall b: int :: Peek(g.mem, b) != Peek(m0, b) ==> WroteAt(Entries(g), b)
    ensures Told(m0, g'.mem, Entries(g')) && !Overflowed(g') && |Entries(g')| <= |Entries(g)| + 1
    ensures forall b: int :: Peek(g'.mem, b) != Peek(m0, b) ==> WroteAt(Entries(g'), b)
  {
    hide Told, Peek, Window;
    if !(g'.mem == g.mem && g'.log == g.log) {
      var e := Entries(g')[|Entries(g)|];
      assert Entries(g') == Entries(g) + [e];
      ToldMore(m0, g.mem, g'.mem, Entries(g), e);
      forall b: int | Peek(g'.mem, b) != Peek(m0, b) ensures WroteAt(Entries(g'), b) {
        WroteMore(Entries(g), e, b);
      }
    }
  }

  lemma WroteMore(es: seq<Entry>, e: Entry, b: int)
    ensures WroteAt(es, b) || e.addr <= b < e.addr + e.size ==> WroteAt(es + [e], b)
  {
    if WroteAt(es, b) {
      var i :| 0 <= i < |es| && es[i].addr <= b < es[i].addr + es[i].size;
      assert (es + [e])[i] == es[i];
    } else if e.addr <= b < e.addr + e.size {
      assert (es + [e])[|es|] == e;
    }
  }

  // --- soundness --------------------------------------------------------------------------------------------

  lemma RewoundIsBefore(before: Guest, jit: Guest)
    requires before.log == CLEAN && Told(before.mem, jit.mem, Entries(jit))
    ensures Rewound(before, jit) == before
  {
    var ms: seq<Mem> :| History(ms, Entries(jit)) && ms[0] == before.mem && ms[|Entries(jit)|] == jit.mem;
    UndoRestores(ms, Entries(jit));
  }

  /** A byte outside every window is as it was. */
  lemma OutsideWindows(m0: Mem, m: Mem, es: seq<Entry>, b: int)
    requires Told(m0, m, es) && !CoveredBy(es, b)
    ensures Peek(m, b) == Peek(m0, b) && WellLogged(es)
  {
    var ms: seq<Mem> :| History(ms, es) && ms[0] == m0 && ms[|es|] == m;
    assert es[..|es|] == es;
    UntouchedUntil(ms, es, |es|, b);
  }

  lemma ToldWell(m0: Mem, m: Mem, es: seq<Entry>)
    requires Told(m0, m, es)
    ensures WellLogged(es)
  {
  }

  lemma SameByte(m0: Mem, jit: Guest, int_: Guest, b: int)
    requires LogSane(jit) && LogSane(int_) && !Overflowed(jit) && !Overflowed(int_)
    requires SameCount(jit, int_) && SameWrites(jit, int_) && Told(m0, jit.mem, Entries(jit))
    requires Peek(int_.mem, b) != Peek(m0, b) ==> WroteAt(Entries(int_), b)
    ensures Peek(jit.mem, b) == Peek(int_.mem, b)
  {
    hide Window, Peek, Told;
    var es := Entries(jit);
    ToldWell(m0, jit.mem, es);
    if CoveredBy(es, b) {
      var i :| 0 <= i < |es| && Covers(es[i], b);
      WindowSame(jit.mem, int_.mem, es[i].addr, es[i].span);
    } else {
      OutsideWindows(m0, jit.mem, es, b);
      WroteCovered(es, Entries(int_), b);
    }
  }

  lemma WroteCovered(es: seq<Entry>, fs: seq<Entry>, b: int)
    requires |es| == |fs| && WellLogged(es) && forall i :: 0 <= i < |es| ==> SameEntry(es[i], fs[i])
    ensures WroteAt(fs, b) ==> CoveredBy(es, b)
  {
    if WroteAt(fs, b) {
      var i :| 0 <= i < |fs| && fs[i].addr <= b < fs[i].addr + fs[i].size;
      assert SameEntry(es[i], fs[i]) && Covers(es[i], b);
    }
  }

  lemma ReplayInterprets(regs: seq<Region>, code: Mem, g: Guest, rip: u64, n: nat)
    ensures var e, r := Replay(regs, code, g, rip, n), Interpret(regs, code, rip, g, n);
      if e.faulted then r == Fault else r == Done(e.g, e.rip)
    decreases n
  {
    hide Interpreter.Step;
    if n > 0 {
      match Interpreter.Step(regs, code, rip, g)
      case Ran(Done(g1, rip1)) => ReplayInterprets(regs, code, g1, rip1, n - 1);
      case _ =>
    }
  }

  /** Whatever the compiled words did, as long as what they changed lies in the windows they logged: if the
      check accepts and nothing faulted, the interpreter gets through the same instructions, and its
      registers, flags, rip and every byte of memory are what the block left. */
  lemma CheckSound(regs: seq<Region>, code: Mem, before: Guest, rip: u64, ninsn: nat, jit: End)
    requires before.log == CLEAN && ninsn <= LOG_MAX && LogSane(jit.g) && !Overflowed(jit.g)
    requires Told(before.mem, jit.g.mem, Entries(jit.g)) && !jit.faulted
    requires var int_ := Replay(regs, code, Rewound(before, jit.g), rip, ninsn); LogSane(int_.g) && Accepts(jit, int_)
    ensures var r := Interpret(regs, code, rip, before, ninsn);
      r.Done? && r.rip == jit.rip && r.g.r == jit.g.r && r.g.flags == jit.g.flags && r.g.xmm == jit.g.xmm
          && r.g.mem == jit.g.mem
  {
    hide Interpret, Replay, Told, Undone, WroteAt, SameWrites, Peek;
    RewoundIsBefore(before, jit.g);
    var int_ := Replay(regs, code, before, rip, ninsn);
    ReplayInterprets(regs, code, before, rip, ninsn);
    ToldNothing(before.mem);
    ReplayTold(regs, code, before, rip, ninsn, before.mem);
    forall b: int ensures Peek(jit.g.mem, b) == Peek(int_.g.mem, b) { SameByte(before.mem, jit.g, int_.g, b); }
    SameBytes(jit.g.mem, int_.g.mem);
  }

  /** Once a log has run out of room the check looks at registers only. */
  lemma OverflowBlind(jit: End, int_: End)
    requires Overflowed(jit.g) && LogSane(jit.g) && LogSane(int_.g)
    ensures Accepts(jit, int_) <==> SameEnd(jit, int_)
  {
    hide SameEnd, LogSane;
  }

  /** k one-byte stores of w at b, each logged as stores are. */
  function Storing(regs: seq<Region>, g: Guest, b: u64, w: byte, k: nat): Guest
    decreases k
  {
    if k == 0 then g else Stored(regs, Storing(regs, g, b, w, k - 1), b, w, 1)
  }

  lemma StoredByte(m: Mem, b: u64, w: byte)
    ensures Store(m, b, w, 1) == Poke(m, b, w)
  {
    assert Store(Poke(m, b, w), b + 1, 0, 0) == Poke(m, b, w);
  }

  lemma {:induction false} StoringLogged(regs: seq<Region>, g: Guest, b: u64, w: byte, k: nat)
    requires g.log == CLEAN && k <= LOG_MAX
    ensures var s := Storing(regs, g, b, w, k);
      s.log.On? && !Overflowed(s) && |Entries(s)| == k && Told(g.mem, s.mem, Entries(s))
      && (k > 0 ==> s.mem == Poke(g.mem, b, w))
    decreases k
  {
    hide Told, Window, LoadSize, Store, Ok, Peek;
    if k == 0 {
      ToldNothing(g.mem);
    } else {
      StoringLogged(regs, g, b, w, k - 1);
      var s := Storing(regs, g, b, w, k - 1);
      StoredByte(s.mem, b, w);
      StoreTold(regs, g.mem, s, b, w);
      assert k > 1 ==> Poke(Poke(g.mem, b, w), b, w).bytes == Poke(g.mem, b, w).bytes;
    }
  }

  lemma StoreTold(regs: seq<Region>, m0: Mem, s: Guest, b: u64, w: byte)
    requires s.log.On? && !Overflowed(s) && |Entries(s)| < LOG_MAX && Told(m0, s.mem, Entries(s))
    ensures var t := Stored(regs, s, b, w, 1);
      t.log.On? && !Overflowed(t) && |Entries(t)| == |Entries(s)| + 1 && Told(m0, t.mem, Entries(t))
  {
    hide Told, Window, LoadSize, Store, Ok, Peek;
    var t := Stored(regs, s, b, w, 1);
    var e := Entries(t)[|Entries(s)|];
    assert Entries(t) == Entries(s) + [e];
    forall x: int | Peek(t.mem, x) != Peek(s.mem, x) ensures b <= x < b + 1 { StoreAt(s.mem, b, w, 1, x); }
    ToldMore(m0, s.mem, t.mem, Entries(s), e);
  }

  /** One store more than the log holds: the whole story is still told, and the log has overflowed. */
  lemma StoringFull(regs: seq<Region>, g: Guest, b: u64, w: byte)
    requires g.log == CLEAN
    ensures var s := Storing(regs, g, b, w, LOG_MAX + 1);
      Overflowed(s) && LogSane(s) && Told(g.mem, s.mem, Entries(s)) && s.mem == Poke(g.mem, b, w)
  {
    hide Told, Window, LoadSize, Store, Ok, Peek, Storing;
    StoringLogged(regs, g, b, w, LOG_MAX);
    var s := Storing(regs, g, b, w, LOG_MAX);
    StoringMore(regs, g, b, w);
    StoredByte(s.mem, b, w);
    assert Poke(Poke(g.mem, b, w), b, w).bytes == Poke(g.mem, b, w).bytes;
  }

  lemma StoringMore(regs: seq<Region>, g: Guest, b: u64, w: byte)
    ensures Storing(regs, g, b, w, LOG_MAX + 1) == Stored(regs, Storing(regs, g, b, w, LOG_MAX), b, w, 1)
  {
    hide Stored;
  }

  lemma {:induction false} ReplaySane(regs: seq<Region>, code: Mem, g: Guest, rip: u64, n: nat)
    requires LogSane(g)
    ensures LogSane(Replay(regs, code, g, rip, n).g)
    decreases n
  {
    hide Interpreter.Step, LogSane;
    if n > 0 {
      StepSane(regs, code, rip, g);
      match Interpreter.Step(regs, code, rip, g)
      case Ran(Done(g1, rip1)) => ReplaySane(regs, code, g1, rip1, n - 1);
      case _ =>
    }
  }

  /** What is left of the interpreter's end by a block that reached its registers, but stored nothing except
      w at b, once more often than the log holds. */
  function Strayed(regs: seq<Region>, before: Guest, r: Res, b: u64, w: byte): End
    requires r.Done?
  {
    var s := Storing(regs, before, b, w, LOG_MAX + 1);
    End(r.g.(mem := s.mem, log := s.log), r.rip, false)
  }

  /** So soundness fails without room in the log, at every state and count the interpreter gets through: the
      check accepts a block that left w at b where the interpreter leaves another byte, although every byte
      the block changed is in a window it logged and undoing its log gives back what it started from. */
  lemma OverflowMisses(regs: seq<Region>, code: Mem, before: Guest, rip: u64, n: nat, b: u64, w: byte)
    requires before.log == CLEAN && Interpret(regs, code, rip, before, n).Done?
    requires w != Peek(Interpret(regs, code, rip, before, n).g.mem, b)
    ensures var r := Interpret(regs, code, rip, before, n);
      var jit := Strayed(regs, before, r, b, w);
      var int_ := Replay(regs, code, Rewound(before, jit.g), rip, n);
      LogSane(jit.g) && LogSane(int_.g) && Told(before.mem, jit.g.mem, Entries(jit.g))
      && Accepts(jit, int_) && int_ == End(r.g, r.rip, false) && Peek(jit.g.mem, b) == w != Peek(r.g.mem, b)
  {
    hide Interpret, Replay, Told, Storing, Rewound, LogSane;
    var jit := Strayed(regs, before, Interpret(regs, code, rip, before, n), b, w);
    StoringFull(regs, before, b, w);
    LogSaneMoves(Storing(regs, before, b, w, LOG_MAX + 1), jit.g);
    RewoundIsBefore(before, jit.g);
    ReplayInterprets(regs, code, before, rip, n);
    LogSaneClean(before);
    ReplaySane(regs, code, before, rip, n);
    OverflowBlind(jit, Replay(regs, code, before, rip, n));
  }

  lemma NopStep(regs: seq<Region>, code: Mem, rip: u64, g: Guest)
    requires Ok(regs, rip, 1, EXEC) && Peek(code, rip) == 0x90
    ensures Interpreter.Step(regs, code, rip, g) == Ran(Done(g, Wrap(rip + 1)))
  {
    hide Ok;
    var d := Dec(0, 4, 0, true);
    assert Prefixes(code, rip, d, MAX_PREFIXES) == Some(d);
  }

  const TEXT_ONLY := [Region(0x1000, 0x2000, EXEC)]

  /** For one: two nops in executable memory, and a byte elsewhere that the block should have left alone. */
  lemma OverflowMissesNops(code: Mem, before: Guest, w: byte)
    requires before.log == CLEAN && Peek(code, 0x1000) == 0x90 && Peek(code, 0x1001) == 0x90
    requires w != Peek(before.mem, 0x5000)
    ensures var jit := Strayed(TEXT_ONLY, before, Done(before, 0x1002), 0x5000, w);
      var int_ := Replay(TEXT_ONLY, code, Rewound(before, jit.g), 0x1000, 2);
      LogSane(jit.g) && LogSane(int_.g) && Accepts(jit, int_)
      && Interpret(TEXT_ONLY, code, 0x1000, before, 2) == Done(before, 0x1002)
      && Peek(jit.g.mem, 0x5000) == w != Peek(before.mem, 0x5000)
  {
    hide Interpreter.Step, Replay, Strayed, LogSane, Accepts, Rewound;
    assert Find(TEXT_ONLY, 0x1000) == 0 && Find(TEXT_ONLY, 0x1001) == 0;
    NopStep(TEXT_ONLY, code, 0x1000, before);
    NopStep(TEXT_ONLY, code, 0x1001, before);
    assert Interpret(TEXT_ONLY, code, 0x1002, before, 0) == Done(before, 0x1002);
    assert Interpret(TEXT_ONLY, code, 0x1001, before, 1) == Done(before, 0x1002);
    OverflowMisses(TEXT_ONLY, code, before, 0x1000, 2, 0x5000, w);
  }

  lemma LogSaneMoves(g: Guest, h: Guest)
    requires g.log == h.log && LogSane(g)
    ensures LogSane(h)
  {
  }

  lemma LogSaneClean(g: Guest)
    requires g.log == CLEAN
    ensures LogSane(g)
  {
  }

  /** And a block that ended where the interpreter does, log and all, is never reported. */
  lemma CheckComplete(regs: seq<Region>, code: Mem, before: Guest, rip: u64, ninsn: nat, jit: End)
    requires before.log == CLEAN && ninsn <= LOG_MAX && !jit.faulted
    requires Interpret(regs, code, rip, before, ninsn) == Done(jit.g, jit.rip)
    ensures LogSane(jit.g) && Replay(regs, code, Rewound(before, jit.g), rip, ninsn) == jit && Accepts(jit, jit)
  {
    hide Interpret, Replay, Told, Undone, WroteAt, Peek;
    ReplayInterprets(regs, code, before, rip, ninsn);
    ToldNothing(before.mem);
    ReplayTold(regs, code, before, rip, ninsn, before.mem);
    RewoundIsBefore(before, jit.g);
  }
}
