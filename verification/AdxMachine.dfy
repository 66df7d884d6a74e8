/**
 The instructions tools/gen_rsa_adx16.py emits, as a machine of thirteen registers, the words
 of t and the two carry flags that mulx leaves alone.
 */
module AdxMachine {
  import opened Words
  import opened Columns

  const W: nat := B64

  // Registers: the eight window words are 0 to 7.
  const LO := 8
  const T0 := 9
  const CB := 10
  const RDX := 11
  const SRC := 12
  const REGS := 13

  // What the memory slots hold: the addresses of a, m and b.
  const PA := 1
  const PM := 2
  const PB := 3

  datatype Instr =
    | MovR(src: nat, dst: nat)
    | MovZero(dst: nat)
    | LoadT(col: nat, dst: nat)
    | StoreT(src: nat, col: nat)
    | ZeroT(col: nat)
    | LoadPtr(p: nat, dst: nat)
    | LoadM(base: nat, j: nat, dst: nat)
    | XorR(r: nat)
    | Mulx(base: nat, j: nat, lo: nat, hi: nat)
    | MulxRdx(lo: nat, hi: nat)
    | Adcx(src: nat, dst: nat)
    | Adox(src: nat, dst: nat)
    | AdcxT(col: nat, dst: nat)
    | ImulN0
    | AddT(src: nat, col: nat)
    | AdcT0(col: nat)
    | Add(src: nat, dst: nat)
    | Adc(src: nat, dst: nat)
    | Adc0(dst: nat)
    | Shld1(src: nat, dst: nat)

  datatype State = State(regs: seq<nat>, t: seq<nat>, cf: bool, of: bool)

  function R(s: State, r: nat): nat { At(s.regs, r) }
  function SetR(s: State, r: nat, v: nat): State { if r < |s.regs| then s.(regs := s.regs[r := v]) else s }
  function SetT(s: State, c: nat, v: nat): State { if c < |s.t| then s.(t := s.t[c := v]) else s }

  function Source(e: Inputs, p: nat): seq<nat> { if p == PA then e.a else if p == PM then e.m else e.b }

  function Bool(b: bool): (r: nat)
    ensures r <= 1
  {
    if b then 1 else 0
  }

  function Negative(x: nat): bool { x >= 0x8000_0000_0000_0000 }

  /** OF after an addition: two's complement overflow. */
  function Overflow(x: nat, y: nat, r: nat): bool { Negative(x) == Negative(y) && Negative(r) != Negative(x) }

  /** dst += x + c, with both flags set as add and adc set them. */
  function AddFlags(s: State, dst: nat, x: nat, c: nat): State {
    var v := R(s, dst) + x + c;
    SetR(s, dst, U64(v)).(cf := v >= W, of := Overflow(R(s, dst), x, U64(v)))
  }

  function AddMem(s: State, col: nat, x: nat, c: nat): State {
    var v := At(s.t, col) + x + c;
    SetT(s, col, U64(v)).(cf := v >= W, of := Overflow(At(s.t, col), x, U64(v)))
  }

  function Product(s: State, x: nat, y: nat, lo: nat, hi: nat): State {
    SetR(SetR(s, lo, U64(MulNat(x, y))), hi, U64(Hi64(MulNat(x, y))))
  }

  function AddCf(s: State, dst: nat, x: nat): State {
    var v := R(s, dst) + x + Bool(s.cf);
    SetR(s, dst, U64(v)).(cf := v >= W)
  }

  function AddOf(s: State, dst: nat, x: nat): State {
    var v := R(s, dst) + x + Bool(s.of);
    SetR(s, dst, U64(v)).(of := v >= W)
  }

  function Exec(e: Inputs, i: Instr, s: State): State {
    match i
    case MovR(x, y) => SetR(s, y, R(s, x))
    case MovZero(y) => SetR(s, y, 0)
    case LoadT(c, y) => SetR(s, y, At(s.t, c))
    case StoreT(x, c) => SetT(s, c, R(s, x))
    case ZeroT(c) => SetT(s, c, 0)
    case LoadPtr(p, y) => SetR(s, y, p)
    case LoadM(x, j, y) => SetR(s, y, At(Source(e, R(s, x)), j))
    case XorR(y) => SetR(s, y, 0).(cf := false, of := false)
    case Mulx(x, j, lo, hi) => Product(s, R(s, RDX), At(Source(e, R(s, x)), j), lo, hi)
    case MulxRdx(lo, hi) => Product(s, R(s, RDX), R(s, RDX), lo, hi)
    case Adcx(x, y) => AddCf(s, y, R(s, x))
    case Adox(x, y) => AddOf(s, y, R(s, x))
    case AdcxT(c, y) => AddCf(s, y, At(s.t, c))
    case ImulN0 =>
      var v := MulNat(R(s, RDX), e.n0);
      SetR(s, RDX, U64(v)).(cf := v >= W, of := v >= W)
    case AddT(x, c) => AddMem(s, c, R(s, x), 0)
    case AdcT0(c) => AddMem(s, c, 0, Bool(s.cf))
    case Add(x, y) => AddFlags(s, y, R(s, x), 0)
    case Adc(x, y) => AddFlags(s, y, R(s, x), Bool(s.cf))
    case Adc0(y) => AddFlags(s, y, 0, Bool(s.cf))
    case Shld1(x, y) =>
      var v := Or(U64(R(s, y) * 2), Shr(R(s, x), 63));
      SetR(s, y, v).(cf := Negative(R(s, y)), of := Negative(v) != Negative(R(s, y)))
  }

  function Run(e: Inputs, p: seq<Instr>, s: State): State {
    if p == [] then s else Exec(e, p[|p| - 1], Run(e, p[..|p| - 1], s))
  }

  lemma {:induction false} RunAppend(e: Inputs, p: seq<Instr>, r: seq<Instr>, s: State)
    ensures Run(e, p + r, s) == Run(e, r, Run(e, p, s))
    decreases |r|
  {
    if r == [] {
      assert p + r == p;
    } else {
      hide Exec;
      assert (p + r)[..|p + r| - 1] == p + r[..|r| - 1];
      RunAppend(e, p, r[..|r| - 1], s);
    }
  }

  lemma RunOne(e: Inputs, i: Instr, s: State)
    ensures Run(e, [i], s) == Exec(e, i, s) && Run(e, [], s) == s
  {
    assert [i][..0] == [];
    assert Run(e, [], s) == s;
  }

  lemma RunSnoc(e: Inputs, p: seq<Instr>, i: Instr, s: State)
    ensures Run(e, p + [i], s) == Exec(e, i, Run(e, p, s))
  {
    hide Exec;
    RunAppend(e, p, [i], s);
    RunOne(e, i, Run(e, p, s));
  }

  // ----- machine states

  ghost predicate Words13(s: State) { |s.regs| == REGS && AllWords(s.regs) && AllWords(s.t) }

  /** The ring: the eight window registers and the one that takes the next word. */
  ghost predicate IsRing(ring: seq<nat>) {
    && |ring| == 9
    && (forall i | 0 <= i < 9 :: ring[i] < 8 || ring[i] == T0)
    && (forall i, j | 0 <= i < j < 9 :: ring[i] != ring[j])
  }

  function Rotate(ring: seq<nat>): seq<nat>
    requires ring != []
  {
    ring[1..] + [ring[0]]
  }

  function View(s: State, ring: seq<nat>): seq<nat> { seq(|ring|, i requires 0 <= i < |ring| => R(s, ring[i])) }

  lemma NumUpdate(v: seq<nat>, j: nat, x: nat)
    requires j < |v|
    ensures Num(v[j := x]) + Mul(v[j], WPow(j)) == Num(v) + Mul(x, WPow(j))
  {
    hide Mul, WPow, Num;
    var a, b := v[..j], v[j + 1..];
    assert v == a + [v[j]] + b && v[j := x] == a + [x] + b;
    NumAppend(a + [v[j]], b);
    NumAppend(a + [x], b);
    NumSnoc(a, v[j]);
    NumSnoc(a, x);
  }
}
