/** The output buffer: a fixed array of words, the sticky overflow flag, and the list of branches still
    to be pointed at the fault exit. */
module OutputBuffer {
  import opened A64

  const MAX_BLOCK := 2048
  const MAX_FIX := 256

  /** A branch to the fault exit whose distance is not known yet. */
  predicate IsHole(i: Instr) { i == CbzW(9, 0) }

  /** The indices of those branches, counted from `at`. */
  function Holes(code: seq<Instr>, at: nat): seq<nat> {
    if code == [] then [] else (if IsHole(code[0]) then [at] else []) + Holes(code[1..], at + 1)
  }

  function HoleCount(code: seq<Instr>): nat { |Holes(code, 0)| }

  /** What has been emitted so far. Once full, the contents no longer matter. */
  datatype Text = Full | Text(code: seq<Instr>) {
    /** Emitting `more` into a buffer of `max` words. */
    function Add(more: seq<Instr>, max: nat): Text {
      if Full? || |code| + |more| > max || HoleCount(code) + HoleCount(more) > MAX_FIX then Full
      else Text(code + more)
    }
    /** Replacing one word already emitted. */
    function With(at: int, w: Instr): Text {
      if Full? || !(0 <= at < |code|) then this else Text(code[at := w])
    }
    function Size(): nat { if Full? then 0 else |code| }
  }

  // --- holes ----------------------------------------------------------------------------------

  lemma {:induction false} HolesCat(a: seq<Instr>, b: seq<Instr>, at: nat)
    ensures Holes(a + b, at) == Holes(a, at) + Holes(b, at + |a|)
    decreases |a|
  {
    if a == [] {
      assert a + b == b;
    } else {
      assert (a + b)[1..] == a[1..] + b;
      HolesCat(a[1..], b, at + 1);
    }
  }

  lemma {:induction false} HoleCountAt(code: seq<Instr>, at: nat)
    ensures |Holes(code, at)| == HoleCount(code)
    decreases |code|
  {
    if code != [] {
      HoleCountAt(code[1..], at + 1);
      HoleCountAt(code[1..], 1);
    }
  }

  lemma HoleCountCat(a: seq<Instr>, b: seq<Instr>)
    ensures HoleCount(a + b) == HoleCount(a) + HoleCount(b)
  {
    HolesCat(a, b, 0);
    HoleCountAt(b, |a|);
  }

  /** Replacing a word by another leaves the holes alone if neither is one. */
  lemma HolesWith(code: seq<Instr>, k: nat, w: Instr)
    requires k < |code| && !IsHole(code[k]) && !IsHole(w)
    ensures Holes(code[k := w], 0) == Holes(code, 0)
  {
    var a, b := code[..k], code[k + 1..];
    assert code == a + ([code[k]] + b);
    assert code[k := w] == a + ([w] + b);
    HolesCat(a, [code[k]] + b, 0);
    HolesCat(a, [w] + b, 0);
    SkipWord(code[k], b, k);
    SkipWord(w, b, k);
  }

  lemma SkipWord(w: Instr, b: seq<Instr>, at: nat)
    requires !IsHole(w)
    ensures Holes([w] + b, at) == Holes(b, at + 1)
  {
    assert ([w] + b)[1..] == b;
  }

  /** The indices are exactly those of the holes, in order and without repetition. */
  lemma {:induction false} HolesExact(code: seq<Instr>, at: nat)
    ensures forall i :: 0 <= i < |code| ==> (IsHole(code[i]) <==> at + i in Holes(code, at))
    ensures forall k :: k in Holes(code, at) ==> at <= k < at + |code|
    ensures forall i, j :: 0 <= i < j < |Holes(code, at)| ==> Holes(code, at)[i] < Holes(code, at)[j]
    decreases |code|
  {
    if code != [] {
      var rest := Holes(code[1..], at + 1);
      HolesExact(code[1..], at + 1);
      forall i | 0 <= i < |code| ensures IsHole(code[i]) <==> at + i in Holes(code, at) {
        if i > 0 { assert code[i] == code[1..][i - 1]; }
      }
      var h := Holes(code, at);
      forall i, j | 0 <= i < j < |h| ensures h[i] < h[j] {
        if IsHole(code[0]) {
          assert h[j] == rest[j - 1] && rest[j - 1] in rest;
        }
      }
    }
  }

  lemma AddAdd(t: Text, a: seq<Instr>, b: seq<Instr>, max: nat)
    ensures t.Add(a, max).Add(b, max) == t.Add(a + b, max)
  {
    hide HoleCount;
    HoleCountCat(a, b);
    if t.Text? {
      HoleCountCat(t.code, a);
      assert t.code + a + b == t.code + (a + b);
    }
  }

  lemma AddNothing(t: Text, max: nat)
    requires t.Text? ==> |t.code| <= max && HoleCount(t.code) <= MAX_FIX
    ensures t.Add([], max) == t
  {
    if t.Text? { assert t.code + [] == t.code; }
  }

  /** Words emitted with a placeholder and then patched are the words emitted right at once. */
  lemma PatchAdd(t: Text, pre: seq<Instr>, w: Instr, w': Instr, post: seq<Instr>, max: nat)
    requires !IsHole(w) && !IsHole(w')
    ensures t.Add(pre + [w] + post, max).With(t.Size() + |pre|, w') == t.Add(pre + [w'] + post, max)
  {
    hide HoleCount;
    SameHoles(pre, w, w', post);
    if t.Text? { assert (t.code + (pre + [w] + post))[|t.code| + |pre| := w'] == t.code + (pre + [w'] + post); }
  }

  lemma SameHoles(pre: seq<Instr>, w: Instr, w': Instr, post: seq<Instr>)
    requires !IsHole(w) && !IsHole(w')
    ensures HoleCount(pre + [w] + post) == HoleCount(pre + [w'] + post)
  {
    HolesWith(pre + [w] + post, |pre|, w');
    assert (pre + [w] + post)[|pre| := w'] == pre + [w'] + post;
  }

  lemma OneHole(at: nat)
    ensures Holes([CbzW(9, 0)], at) == [at]
  {
    assert [CbzW(9, 0)][1..] == [];
  }

  // --- the buffer ------------------------------------------------------------------------------

  class Buffer {
    const out: array<Instr>
    var n: nat
    var max: nat
    var full: bool
    const check: bool
    const fix: array<nat>
    var nfix: nat

    ghost predicate Valid()
      reads this, out, fix
    {
      && n <= max <= out.Length && nfix <= fix.Length == MAX_FIX
      && (!full ==> fix[..nfix] == Holes(out[..n], 0))
    }

    ghost function Emitted(): Text
      reads this, out
      requires n <= out.Length
    {
      if full then Full else Text(out[..n])
    }

    /** An empty buffer over the words given. */
    constructor (words: array<Instr>, limit: nat, checking: bool)
      requires limit <= words.Length
      ensures Valid() && Emitted() == Text([]) && max == limit && check == checking && out == words && fresh(fix)
    {
      out, n, max, full, check := words, 0, limit, false, checking;
      fix, nfix := new nat[MAX_FIX](_ => 0), 0;
    }

    /** A word, unless the buffer is full. A fault branch goes through PutFaultBranch. */
    method Put(w: Instr)
      requires Valid() && !IsHole(w)
      modifies this, out
      ensures Valid() && max == old(max) && Emitted() == old(Emitted()).Add([w], max)
    {
      if n >= max {
        full := true;
      } else {
        ghost var was := out[..n];
        out[n] := w;
        n := n + 1;
        assert out[..n] == was + [w];
        HolesCat(was, [w], 0);
        SkipWord(w, [], |was|);
        assert [w] + [] == [w];
        SkipWord(w, [], 0);
      }
    }

    /** The branch out of the block, remembered for later. */
    method PutFaultBranch()
      requires Valid()
      modifies this, out, fix
      ensures Valid() && max == old(max) && Emitted() == old(Emitted()).Add([CbzW(9, 0)], max)
    {
      hide Holes;
      ghost var was := out[..n];
      OneHole(|was|);
      OneHole(0);
      HolesCat(was, [CbzW(9, 0)], 0);
      if nfix < MAX_FIX && !full {
        fix[nfix] := n;
        nfix := nfix + 1;
      } else {
        full := true;
      }
      if n >= max {
        full := true;
      } else {
        out[n] := CbzW(9, 0);
        n := n + 1;
        assert out[..n] == was + [CbzW(9, 0)];
      }
    }

    /** Overwrite a branch emitted before its distance was known. */
    method Patch(at: nat, w: Instr)
      requires Valid() && !IsHole(w) && (!full ==> at < n && !IsHole(out[at]))
      modifies out
      ensures Valid() && Emitted() == old(Emitted()).With(at, w)
    {
      if !full {
        HolesWith(out[..n], at, w);
        out[at] := w;
        assert out[..n] == old(out[..n])[at := w];
      }
    }
  }
}
