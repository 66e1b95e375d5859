/** Running emitted code. Every branch the compiler emits goes forward, so a run is a walk along the
    code that never returns to a word it has passed. */
module Execution {
  import opened A64

  /** At(k): fell off the end, k words past it. Unpatched: took a branch that is still a placeholder. */
  datatype Outcome = At(k: nat, m: Machine) | Left(m: Machine) | Unpatched(m: Machine)

  function Exec(env: Env, code: seq<Instr>, m: Machine): Outcome
    decreases |code|
  {
    if code == [] then At(0, m)
    else
      match code[0]
      case Ret => Left(m)
      case B(off) => Branch(env, code, off, m)
      case BCond(c, off) => if Holds(m.f, c) then Branch(env, code, off, m) else Exec(env, code[1..], m)
      case CbzW(t, off) =>
        if X(m, t) % 0x1_0000_0000 == 0 then Branch(env, code, off, m) else Exec(env, code[1..], m)
      case i => Exec(env, code[1..], Step(env, i, m))
  }

  function Branch(env: Env, code: seq<Instr>, off: int, m: Machine): Outcome
    requires code != []
    decreases |code|, 0
  {
    if off <= 0 then Unpatched(m)
    else if off <= |code| then Exec(env, code[off..], m)
    else At(off - |code|, m)
  }

  /** What happens when `b` follows code with this outcome. */
  function Resume(env: Env, o: Outcome, b: seq<Instr>): Outcome {
    match o
    case At(k, m) => if k <= |b| then Exec(env, b[k..], m) else At(k - |b|, m)
    case _ => o
  }

  lemma {:induction false} ExecCat(env: Env, a: seq<Instr>, b: seq<Instr>, m: Machine)
    ensures Exec(env, a + b, m) == Resume(env, Exec(env, a, m), b)
    decreases |a|
  {
    hide Step;
    if a == [] {
      assert a + b == b;
      assert b[0..] == b;
    } else {
      var c := a + b;
      assert c[0] == a[0];
      assert c[1..] == a[1..] + b;
      match a[0]
      case Ret =>
      case B(off) => BranchCat(env, a, b, off, m);
      case BCond(_, off) =>
        BranchCat(env, a, b, off, m);
        ExecCat(env, a[1..], b, m);
      case CbzW(_, off) =>
        BranchCat(env, a, b, off, m);
        ExecCat(env, a[1..], b, m);
      case i => ExecCat(env, a[1..], b, Step(env, i, m));
    }
  }

  lemma {:induction false} BranchCat(env: Env, a: seq<Instr>, b: seq<Instr>, off: int, m: Machine)
    requires a != []
    ensures Branch(env, a + b, off, m) == Resume(env, Branch(env, a, off, m), b)
    decreases |a|, 0
  {
    hide Step;
    if off > 0 {
      if off <= |a| {
        assert (a + b)[off..] == a[off..] + b;
        ExecCat(env, a[off..], b, m);
      } else if off <= |a| + |b| {
        assert (a + b)[off..] == b[off - |a|..];
      }
    }
  }

  // --- short straight runs ----------------------------------------------------------

  lemma Run1(env: Env, a: Instr, m: Machine)
    requires !IsBranch(a)
    ensures Exec(env, [a], m) == At(0, Step(env, a, m))
  {
    hide Step;
    assert [a][1..] == [];
  }

  lemma RunSet(env: Env, d: int, v: Val, m: Machine)
    requires Modelled(v)
    ensures Exec(env, [Set(d, v)], m) == At(0, SetX(m, d, Value(d, v, m)))
  {
    hide Value;
    Run1(env, Set(d, v), m);
  }

  lemma Run2(env: Env, a: Instr, b: Instr, m: Machine)
    requires !IsBranch(a) && !IsBranch(b)
    ensures Exec(env, [a, b], m) == At(0, Step(env, b, Step(env, a, m)))
  {
    hide Step;
    assert [a, b][1..] == [b];
    Run1(env, b, Step(env, a, m));
  }

  lemma Run3(env: Env, a: Instr, b: Instr, c: Instr, m: Machine)
    requires !IsBranch(a) && !IsBranch(b) && !IsBranch(c)
    ensures Exec(env, [a, b, c], m) == At(0, Step(env, c, Step(env, b, Step(env, a, m))))
  {
    hide Step;
    assert [a, b, c][1..] == [b, c];
    Run2(env, b, c, Step(env, a, m));
  }

  lemma Run4(env: Env, a: Instr, b: Instr, c: Instr, d: Instr, m: Machine)
    requires !IsBranch(a) && !IsBranch(b) && !IsBranch(c) && !IsBranch(d)
    ensures Exec(env, [a, b, c, d], m) == At(0, Step(env, d, Step(env, c, Step(env, b, Step(env, a, m)))))
  {
    hide Step;
    assert [a, b, c, d][1..] == [b, c, d];
    Run3(env, b, c, d, Step(env, a, m));
  }

  lemma Run5(env: Env, a: Instr, b: Instr, c: Instr, d: Instr, e: Instr, m: Machine)
    requires !IsBranch(a) && !IsBranch(b) && !IsBranch(c) && !IsBranch(d) && !IsBranch(e)
    ensures Exec(env, [a, b, c, d, e], m)
         == At(0, Step(env, e, Step(env, d, Step(env, c, Step(env, b, Step(env, a, m))))))
  {
    hide Step;
    assert [a, b, c, d, e][1..] == [b, c, d, e];
    Run4(env, b, c, d, e, Step(env, a, m));
  }

  /** Two pieces, the first of which falls through. */
  lemma Then(env: Env, a: seq<Instr>, b: seq<Instr>, m: Machine, m': Machine)
    requires Exec(env, a, m) == At(0, m')
    ensures Exec(env, a + b, m) == Exec(env, b, m')
  {
    hide Step, Exec;
    ExecCat(env, a, b, m);
    assert b[0..] == b;
  }
}
