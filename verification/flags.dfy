/** The status flags: the interpreter's flag routines and conditions, and what they mean. */
module StatusFlags {
  import opened Words

  type bit = x: int | 0 <= x < 2

  /** The bits of the flags word that no instruction of the subset touches. */
  datatype Reserved = Reserved(b1: bit, b3: bit, b5: bit, b8: bits3, b12: bits20)
  type bits3 = x: int | 0 <= x < 8
  type bits20 = x: int | 0 <= x < 0x10_0000

  /** The guest's flags word, field by field. Word and FromWord give its 32-bit layout. */
  datatype Flags = Flags(cf: bool, pf: bool, af: bool, zf: bool, sf: bool, of: bool, other: Reserved)

  function Weight(b: bool, w: nat): nat { if b then w else 0 }

  /** One binary digit below the rest of a number. */
  function Below(digit: int, rest: int): int { digit + 2 * rest }

  function Word(f: Flags): u64 {
    Below(Weight(f.cf, 1), Below(f.other.b1, Below(Weight(f.pf, 1), Below(f.other.b3, UpperWord(f)))))
  }

  /** The word shifted right by four, and by eight. */
  function UpperWord(f: Flags): (r: int)
    ensures 0 <= r < 0x1000_0000
  {
    Below(Weight(f.af, 1), Below(f.other.b5, Below(Weight(f.zf, 1), Below(Weight(f.sf, 1), TopWord(f)))))
  }

  function TopWord(f: Flags): (r: int)
    ensures 0 <= r < 0x100_0000
  {
    f.other.b8 + 8 * Below(Weight(f.of, 1), f.other.b12)
  }

  function FromWord(w: u64): Flags {
    var q1, q2, q3, q4 := w / 2, w / 2 / 2, w / 2 / 2 / 2, w / 2 / 2 / 2 / 2;
    var q5, q6, q7, q8 := q4 / 2, q4 / 2 / 2, q4 / 2 / 2 / 2, q4 / 2 / 2 / 2 / 2;
    var q11 := q8 / 8;
    Flags(w % 2 == 1, q2 % 2 == 1, q4 % 2 == 1, q6 % 2 == 1, q7 % 2 == 1, q11 % 2 == 1,
          Reserved(q1 % 2, q3 % 2, q5 % 2, q8 % 8, q11 / 2 % 0x10_0000))
  }

  // --- sets of flags, as the compiler's liveness pass uses them -------------

  datatype FlagSet = FlagSet(cf: bool, pf: bool, af: bool, zf: bool, sf: bool, of: bool) {
    function Meet(o: FlagSet): FlagSet {
      FlagSet(cf && o.cf, pf && o.pf, af && o.af, zf && o.zf, sf && o.sf, of && o.of)
    }
    function Join(o: FlagSet): FlagSet {
      FlagSet(cf || o.cf, pf || o.pf, af || o.af, zf || o.zf, sf || o.sf, of || o.of)
    }
    function Minus(o: FlagSet): FlagSet {
      FlagSet(cf && !o.cf, pf && !o.pf, af && !o.af, zf && !o.zf, sf && !o.sf, of && !o.of)
    }
    predicate Subset(o: FlagSet) {
      (cf ==> o.cf) && (pf ==> o.pf) && (af ==> o.af) && (zf ==> o.zf) && (sf ==> o.sf) && (of ==> o.of)
    }
    predicate Empty() { !cf && !pf && !af && !zf && !sf && !of }
    /** The set as a mask over the flags word. */
    function Mask(): u64 { Word(Flags(cf, pf, af, zf, sf, of, Reserved(0, 0, 0, 0, 0))) }
  }

  const ALL := FlagSet(true, true, true, true, true, true)
  const LOGIC := FlagSet(true, true, false, true, true, true)
  const INCDEC := FlagSet(false, true, true, true, true, true)
  const NONE := FlagSet(false, false, false, false, false, false)

  /** `now` where the set says so and `was` everywhere else. */
  function Select(was: Flags, now: Flags, set_: FlagSet): Flags {
    Flags(if set_.cf then now.cf else was.cf, if set_.pf then now.pf else was.pf,
          if set_.af then now.af else was.af, if set_.zf then now.zf else was.zf,
          if set_.sf then now.sf else was.sf, if set_.of then now.of else was.of, was.other)
  }

  /** f and f' are the same on the flags of the set, and on the reserved bits. */
  predicate AgreeOn(f: Flags, f': Flags, live: FlagSet) {
    && f.other == f'.other
    && (live.cf ==> f.cf == f'.cf) && (live.pf ==> f.pf == f'.pf) && (live.af ==> f.af == f'.af)
    && (live.zf ==> f.zf == f'.zf) && (live.sf ==> f.sf == f'.sf) && (live.of ==> f.of == f'.of)
  }

  // --- the interpreter's routines --------------------------------------------

  function Ones(v: nat): nat {
    if v == 0 then 0 else v % 2 + Ones(v / 2)
  }

  predicate EvenParity(v: nat) { Ones(v % 0x100) % 2 == 0 }

  predicate Nibble(v: nat) { (v / 16) % 2 == 1 }

  function SetPzs(f: Flags, res: u64, size: Size): Flags {
    var r := Trunc(res, size);
    f.(zf := r == 0, sf := r >= Half(size), pf := EvenParity(r))
  }

  function FlagsLogic(f: Flags, res: u64, size: Size): Flags {
    SetPzs(f.(cf := false, of := false), res, size)
  }

  function FlagsAdd(f: Flags, a: u64, b: u64, res: u64, size: Size): Flags {
    var ta, tb, r := Trunc(a, size), Trunc(b, size), Trunc(res, size);
    var sa, sb, sr := ta >= Half(size), tb >= Half(size), r >= Half(size);
    SetPzs(f.(cf := r < ta,
              of := sa == sb && sa != sr,
              af := (Nibble(ta) != Nibble(tb)) != Nibble(r)), r, size)
  }

  function FlagsSub(f: Flags, a: u64, b: u64, res: u64, size: Size): Flags {
    var ta, tb, r := Trunc(a, size), Trunc(b, size), Trunc(res, size);
    var sa, sb, sr := ta >= Half(size), tb >= Half(size), r >= Half(size);
    SetPzs(f.(cf := ta < tb,
              of := sa != sb && sa != sr,
              af := (Nibble(ta) != Nibble(tb)) != Nibble(r)), r, size)
  }

  function FlagsInc(f: Flags, a: u64, res: u64, size: Size): Flags {
    FlagsAdd(f, a, 1, res, size).(cf := f.cf)
  }

  function FlagsDec(f: Flags, a: u64, res: u64, size: Size): Flags {
    FlagsSub(f, a, 1, res, size).(cf := f.cf)
  }

  type CondCode = x: int | 0 <= x < 16

  predicate Cond(f: Flags, cc: CondCode) {
    var even :=
      match cc / 2
      case 0 => f.of
      case 1 => f.cf
      case 2 => f.zf
      case 3 => f.cf || f.zf
      case 4 => f.sf
      case 5 => f.pf
      case 6 => f.sf != f.of
      case _ => f.zf || f.sf != f.of;
    if cc % 2 == 1 then !even else even
  }

  /** The flags a condition looks at. */
  function CcReads(cc: CondCode): FlagSet {
    match cc / 2
    case 0 => NONE.(of := true)
    case 1 => NONE.(cf := true)
    case 2 => NONE.(zf := true)
    case 3 => NONE.(cf := true, zf := true)
    case 4 => NONE.(sf := true)
    case 5 => NONE.(pf := true)
    case 6 => NONE.(sf := true, of := true)
    case _ => NONE.(zf := true, sf := true, of := true)
  }

  // --- shifts -----------------------------------------------------------------

  /** The shift count after masking. Zero never reaches Shift. */
  type Count = x: int | 1 <= x < 64 witness 1

  /** shl (4 and 6), shr (5) and sar (7). */
  type ShiftExt = x: int | 4 <= x < 8 witness 4

  datatype Shifted = Shifted(res: u64, cf: bool, of: bool)

  function ShiftCalc(a: u64, cnt: Count, size: Size, ext: ShiftExt): Shifted {
    var w := 8 * size;
    var ta := Trunc(a, size);
    if ext == 4 || ext == 6 then
      var r := Trunc(ta * Pow2(cnt), 8);
      var cf := cnt <= w && (ta / Pow2(w - cnt)) % 2 == 1;
      Shifted(Trunc(r, size), cf, (Trunc(r, size) >= Half(size)) != cf)
    else if ext == 5 then
      var r := ta / Pow2(cnt);
      Shifted(Trunc(r, size), cnt <= w && (ta / Pow2(cnt - 1)) % 2 == 1, ta >= Half(size))
    else
      var sa := Signed(a, size);
      var sh := if cnt >= w then w - 1 else cnt;
      var cb := if cnt - 1 >= w then w - 1 else cnt - 1;
      Shifted(Trunc(sa / Pow2(sh), size), (sa / Pow2(cb)) % 2 == 1, false)
  }

  function ShiftFlags(f: Flags, s: Shifted, size: Size): Flags {
    SetPzs(f.(cf := s.cf, of := s.of), s.res, size)
  }
}
