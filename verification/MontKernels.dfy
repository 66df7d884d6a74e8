/**
 tools/gen_rsa_kernels.py: the straight-line FIPS Montgomery multiply and square it writes for
 any limb count. A kernel is an instruction list; Exec gives each instruction the word-level
 effect of the helper it names in stdlib/std/rsa_mont.nu.
 */
module MontKernels {
  import opened Words
  import opened Columns

  const W: nat := B64

  // ----- the emitted language

  datatype Acc = AccZ | AccX | AccY | AccW

  datatype Operand = A(i: nat) | B(j: nat) | M(k: nat) | Q(q: nat)

  datatype Instr =
    | Clear(acc: Acc)
    | MulAcc(acc: Acc, x: Operand, y: Operand)   // __rm_acc
    | Add3(acc: Acc)                             // __rm_add3 into z
    | Acc2(acc: Acc)                             // __rm_acc2 into z
    | Digit(k: nat)                              // q_k = z0 * n0
    | Store(k: nat)                              // rp[k] = z0
    | Shift                                      // z0 = z1, z1 = z2, z2 = 0

  datatype Triple = Triple(w0: nat, w1: nat, w2: nat)

  datatype State = State(z: Triple, x: Triple, y: Triple, w: Triple, q: seq<nat>, rp: seq<nat>)

  function Fetch(e: Inputs, s: State, o: Operand): nat {
    match o
    case A(i) => At(e.a, i)
    case B(j) => At(e.b, j)
    case M(k) => At(e.m, k)
    case Q(i) => At(s.q, i)
  }

  function Get(s: State, a: Acc): Triple {
    match a
    case AccZ => s.z
    case AccX => s.x
    case AccY => s.y
    case AccW => s.w
  }

  function Set(s: State, a: Acc, t: Triple): State {
    match a
    case AccZ => s.(z := t)
    case AccX => s.(x := t)
    case AccY => s.(y := t)
    case AccW => s.(w := t)
  }

  /** (z0, z1, z2) += x * y */
  function AccWords(t: Triple, x: nat, y: nat): Triple {
    var p := MulNat(x, y) + t.w0;
    var s := t.w1 + Hi64(p) % W;
    Triple(U64(p), U64(s), U64(t.w2 + Hi64(s)))
  }

  /** (z0, z1, z2) += (x0, x1, x2) */
  function Add3Words(t: Triple, u: Triple): Triple {
    var s0 := t.w0 + u.w0;
    var s1 := t.w1 + u.w1 + Hi64(s0);
    Triple(U64(s0), U64(s1), U64(t.w2 + u.w2 + Hi64(s1)))
  }

  /** (z0, z1, z2) += 2 * (w0, w1, w2), the doubling by shifts. */
  function Acc2Words(t: Triple, u: Triple): Triple {
    Add3Words(t, Triple(U64(u.w0 * 2), Or(U64(u.w1 * 2), Shr(u.w0, 63)), Or(U64(u.w2 * 2), Shr(u.w1, 63))))
  }

  function Exec(e: Inputs, i: Instr, s: State): State {
    match i
    case Clear(a) => Set(s, a, Triple(0, 0, 0))
    case MulAcc(a, x, y) => Set(s, a, AccWords(Get(s, a), Fetch(e, s, x), Fetch(e, s, y)))
    case Add3(a) => s.(z := Add3Words(s.z, Get(s, a)))
    case Acc2(a) => s.(z := Acc2Words(s.z, Get(s, a)))
    case Digit(k) => if k <= |s.q| then s.(q := s.q[..k] + [U64(MulNat(s.z.w0, e.n0))]) else s
    case Store(k) => if k < |s.rp| then s.(rp := s.rp[k := s.z.w0]) else s
    case Shift => s.(z := Triple(s.z.w1, s.z.w2, 0))
  }

  function Run(e: Inputs, p: seq<Instr>, s: State): State {
    if p == [] then s else Exec(e, p[|p| - 1], Run(e, p[..|p| - 1], s))
  }

  // ----- the generators

  datatype Kind = AB | AA | QM

  function First(kind: Kind, i: nat): Operand { if kind == QM then Q(i) else A(i) }
  function Second(kind: Kind, j: nat): Operand { if kind == AB then B(j) else if kind == AA then A(j) else M(j) }

  function Low(n: nat, k: nat): nat { if k + 1 >= n then k + 1 - n else 0 }
  function Min(x: int, y: int): int { if x <= y then x else y }

  /** Terms lo to hi - 1 of column k, accumulated into acc. */
  function Accs(acc: Acc, kind: Kind, k: nat, lo: nat, hi: nat): seq<Instr>
    requires hi <= k + 1
  {
    if hi <= lo then []
    else Accs(acc, kind, k, lo, hi - 1) + [MulAcc(acc, First(kind, hi - 1), Second(kind, k - (hi - 1)))]
  }

  /** The digit of a low column or the result word of a high one, and the column shift. */
  function ColumnEnd(n: nat, k: nat): seq<Instr> {
    (if k < n then [Digit(k), MulAcc(AccZ, Q(k), M(0))] else [Store(k - n)]) + [Shift]
  }

  function MulColumn(n: nat, k: nat): seq<Instr>
    requires k < 2 * n
  {
    var lo, hi := Low(n, k), Min(k, n);
    [Clear(AccX), Clear(AccY)] + Accs(AccX, AB, k, lo, Min(k, n - 1) + 1) + Accs(AccY, QM, k, lo, hi)
    + [Add3(AccX)] + (if lo < hi then [Add3(AccY)] else []) + ColumnEnd(n, k)
  }

  function Cross(n: nat, k: nat): seq<Instr>
    requires k < 2 * n
  {
    if Low(n, k) < (k + 1) / 2 then [Clear(AccW)] + Accs(AccW, AA, k, Low(n, k), (k + 1) / 2) + [Acc2(AccW)] else []
  }

  function SqrColumn(n: nat, k: nat): seq<Instr>
    requires k < 2 * n
  {
    var lo, hi := Low(n, k), Min(k, n);
    Cross(n, k)
    + (if lo < hi then [Clear(AccY)] + Accs(AccY, QM, k, lo, hi) else [])
    + (if k % 2 == 0 && k / 2 < n then [MulAcc(AccZ, A(k / 2), A(k / 2))] else [])
    + (if lo < hi then [Add3(AccY)] else [])
    + ColumnEnd(n, k)
  }

  /** The first k columns of the multiply or the square kernel. */
  function Program(square: bool, n: nat, k: nat): seq<Instr>
    requires k <= 2 * n
  {
    if k == 0 then []
    else Program(square, n, k - 1) + (if square then SqrColumn(n, k - 1) else MulColumn(n, k - 1))
  }

  /** The emission loop over the pairs of one accumulator. */
  method EmitAccs(l: seq<Instr>, acc: Acc, kind: Kind, k: nat, lo: nat, hi: nat) returns (r: seq<Instr>)
    requires lo <= hi <= k + 1
    ensures r == l + Accs(acc, kind, k, lo, hi)
  {
    r := l;
    for i := lo to hi
      invariant r == l + Accs(acc, kind, k, lo, i)
    {
      r := r + [MulAcc(acc, First(kind, i), Second(kind, k - i))];
    }
  }

  method EmitEnd(l: seq<Instr>, n: nat, k: nat) returns (r: seq<Instr>)
    ensures r == l + ColumnEnd(n, k)
  {
    r := l;
    if k < n {
      r := r + [Digit(k)];
      r := r + [MulAcc(AccZ, Q(k), M(0))];
    } else {
      r := r + [Store(k - n)];
    }
    r := r + [Shift];
  }

  method EmitMulColumn(n: nat, k: nat) returns (c: seq<Instr>)
    requires k < 2 * n
    ensures c == MulColumn(n, k)
  {
    hide Accs, ColumnEnd;
    var lo := Low(n, k);
    c := [Clear(AccX), Clear(AccY)];
    c := EmitAccs(c, AccX, AB, k, lo, Min(k, n - 1) + 1);
    c := EmitAccs(c, AccY, QM, k, lo, Min(k, n));
    c := c + [Add3(AccX)];
    c := c + if lo < Min(k, n) then [Add3(AccY)] else [];
    c := EmitEnd(c, n, k);
  }

  /** mul_kernel: the lines after the declarations. */
  method MulKernel(n: nat) returns (l: seq<Instr>)
    ensures l == Program(false, n, 2 * n)
  {
    l := [];
    for k := 0 to 2 * n
      invariant l == Program(false, n, k)
    {
      var c := EmitMulColumn(n, k);
      l := l + c;
    }
  }

  /** The cross products of a column of the square: the pairs with i < k - i. */
  method EmitCross(n: nat, k: nat) returns (c: seq<Instr>)
    requires k < 2 * n
    ensures c == Cross(n, k)
  {
    var lo := Low(n, k);
    var cross := [];
    for i := lo to n
      invariant cross == Accs(AccW, AA, k, lo, Min(i, (k + 1) / 2))
    {
      if i < k - i {
        cross := cross + [MulAcc(AccW, A(i), A(k - i))];
      }
    }
    c := [];
    if cross != [] {
      c := [Clear(AccW)] + cross + [Acc2(AccW)];
    }
  }

  method EmitSqrColumn(n: nat, k: nat) returns (c: seq<Instr>)
    requires k < 2 * n
    ensures c == SqrColumn(n, k)
  {
    var lo := Low(n, k);
    c := EmitCross(n, k);
    hide Cross, Accs, ColumnEnd;
    if lo < Min(k, n) {
      var y := EmitAccs([Clear(AccY)], AccY, QM, k, lo, Min(k, n));
      c := c + y;
    }
    c := c + if k % 2 == 0 && k / 2 < n then [MulAcc(AccZ, A(k / 2), A(k / 2))] else [];
    c := c + if lo < Min(k, n) then [Add3(AccY)] else [];
    c := EmitEnd(c, n, k);
  }

  /** sqr_kernel: as the multiply, each column's cross products once and doubled. */
  method SqrKernel(n: nat) returns (l: seq<Instr>)
    ensures l == Program(true, n, 2 * n)
  {
    l := [];
    for k := 0 to 2 * n
      invariant l == Program(true, n, k)
    {
      var c := EmitSqrColumn(n, k);
      l := l + c;
    }
  }

  // ----- three words as one number

  const W3: nat := 0x1_0000_0000_0000_0000_0000_0000_0000_0000_0000_0000_0000_0000

  function Tri(v: nat): Triple { Triple(U64(v), U64(Hi64(v)), U64(Hi64(Hi64(v)))) }

  lemma TriOf(w0: nat, w1: nat, w2: nat, h: nat)
    requires w0 < W && w1 < W && w2 < W
    ensures Tri(w0 + B64 * w1 + B128 * w2 + W3 * h) == Triple(w0, w1, w2)
  {
    var v := w0 + B64 * w1 + B128 * w2 + W3 * h;
    DivUnique(v, B64, w1 + B64 * w2 + B128 * h, w0);
    DivUnique(w1 + B64 * w2 + B128 * h, B64, w2 + B64 * h, w1);
    DivUnique(w2 + B64 * h, B64, h, w2);
  }

  lemma TriCut(v: nat) returns (h: nat)
    ensures var t := Tri(v); t.w0 < W && t.w1 < W && t.w2 < W
    ensures v == Tri(v).w0 + B64 * Tri(v).w1 + B128 * Tri(v).w2 + W3 * h
  {
    hide U64, Hi64;
    Cut64(v);
    Cut64(Hi64(v));
    Cut64(Hi64(Hi64(v)));
    h := Hi64(Hi64(Hi64(v)));
  }

  lemma AccTri(v: nat, x: nat, y: nat)
    requires x < W && y < W
    ensures AccWords(Tri(v), x, y) == Tri(v + MulNat(x, y))
  {
    hide U64, Hi64, Mul, Tri;
    var h := TriCut(v);
    var t := Tri(v);
    MulBound(x, y, W - 1, W - 1);
    var p := MulNat(x, y) + t.w0;
    Cut64(p);
    assert Hi64(p) < W;
    var s := t.w1 + Hi64(p);
    SmallMod(Hi64(p), W);
    Cut64(s);
    Cut64(t.w2 + Hi64(s));
    TriOf(U64(p), U64(s), U64(t.w2 + Hi64(s)), h + Hi64(t.w2 + Hi64(s)));
  }

  lemma Add3Tri(u: nat, v: nat)
    ensures Add3Words(Tri(u), Tri(v)) == Tri(u + v)
  {
    hide U64, Hi64, Tri;
    var g := TriCut(u);
    var h := TriCut(v);
    var t, r := Tri(u), Tri(v);
    var s0 := t.w0 + r.w0;
    Cut64(s0);
    var s1 := t.w1 + r.w1 + Hi64(s0);
    Cut64(s1);
    var s2 := t.w2 + r.w2 + Hi64(s1);
    Cut64(s2);
    TriOf(U64(s0), U64(s1), U64(s2), g + h + Hi64(s2));
  }

  lemma TopBit(c: nat)
    requires c < W
    ensures Shr(c, 63) < 2 && Shr(c, 63) == c / 0x8000_0000_0000_0000
    ensures U64(c * 2) + W * Shr(c, 63) == c * 2 && U64(c * 2) % 2 == 0
  {
    assert Pow2(63) == 0x8000_0000_0000_0000 by {
      Pow2Words();
      Pow2Add(63, 1);
      assert Pow2(1) == 2;
    }
  }

  lemma DoubleWord(x: nat, c: nat)
    requires x < W && c < W
    ensures Or(U64(x * 2), Shr(c, 63)) == U64(x * 2) + Shr(c, 63)
    ensures Shr(c, 63) < 2 && U64(c * 2) + W * Shr(c, 63) == c * 2
  {
    hide Or, Shr, U64;
    TopBit(c);
    TopBit(x);
    assert Pow2(1) == 2;
    OrDisjoint(Shr(c, 63), U64(x * 2) / 2, 1);
  }

  lemma Acc2Tri(u: nat, v: nat)
    ensures Acc2Words(Tri(u), Tri(v)) == Tri(u + 2 * v)
  {
    hide U64, Hi64, Tri, Or, Shr, Add3Words;
    var h := TriCut(v);
    var r := Tri(v);
    DoubleWord(r.w1, r.w0);
    DoubleWord(r.w2, r.w1);
    DoubleWord(r.w2, r.w2);
    Cut64(r.w0 * 2);
    Cut64(r.w1 * 2);
    Cut64(r.w2 * 2);
    TriOf(U64(r.w0 * 2), U64(r.w1 * 2) + Shr(r.w0, 63), U64(r.w2 * 2) + Shr(r.w1, 63), 2 * h + Shr(r.w2, 63));
    Add3Tri(u, 2 * v);
  }

  lemma ShiftTri(v: nat)
    requires v < W3
    ensures Triple(Tri(v).w1, Tri(v).w2, 0) == Tri(Hi64(v))
  {
    hide U64, Hi64;
    Cut64(v);
    Cut64(Hi64(v));
    Cut64(Hi64(Hi64(v)));
    Cut64(Hi64(Hi64(Hi64(v))));
  }

  // ----- running a kernel

  lemma {:induction false} RunAppend(e: Inputs, p: seq<Instr>, r: seq<Instr>, s: State)
    ensures Run(e, p + r, s) == Run(e, r, Run(e, p, s))
    decreases |r|
  {
    if r == [] {
      assert p + r == p;
    } else {
      hide Exec;
      assert (p + r)[..|p + r| - 1] == p + r[..|r| - 1];
      RunAppend(e, p, r[..|r| - 1], s);
    }
  }

  lemma RunOne(e: Inputs, i: Instr, s: State)
    ensures Run(e, [i], s) == Exec(e, i, s) && Run(e, [], s) == s
  {
    assert [i][..0] == [];
    assert Run(e, [], s) == s;
  }

  function Left(kind: Kind, e: Inputs, s: State): seq<nat> { if kind == QM then s.q else e.a }
  function Right(kind: Kind, e: Inputs): seq<nat> { if kind == AB then e.b else if kind == AA then e.a else e.m }

  lemma AtWord(s: seq<nat>, j: int)
    requires AllWords(s)
    ensures At(s, j) < W
  {
  }

  lemma ExecMulAcc(e: Inputs, n: nat, acc: Acc, kind: Kind, i: nat, j: nat, s: State, v: nat)
    requires WordInputs(e, n) && AllWords(s.q)
    ensures Exec(e, MulAcc(acc, First(kind, i), Second(kind, j)), Set(s, acc, Tri(v)))
         == Set(s, acc, Tri(v + MulNat(At(Left(kind, e, s), i), At(Right(kind, e), j))))
  {
    AtWord(Left(kind, e, s), i);
    AtWord(Right(kind, e), j);
    AccTri(v, At(Left(kind, e, s), i), At(Right(kind, e), j));
    hide Tri, AccWords, MulNat, At;
    var t := Set(s, acc, Tri(v));
    assert Get(t, acc) == Tri(v) && t.q == s.q;
    assert Fetch(e, t, First(kind, i)) == At(Left(kind, e, s), i);
    assert Fetch(e, t, Second(kind, j)) == At(Right(kind, e), j);
  }

  lemma SetGet(s: State, acc: Acc)
    ensures Set(s, acc, Get(s, acc)) == s
  {
  }

  lemma AccsStep(acc: Acc, kind: Kind, k: nat, lo: nat, hi: nat)
    requires lo < hi <= k + 1
    ensures Accs(acc, kind, k, lo, hi)
         == Accs(acc, kind, k, lo, hi - 1) + [MulAcc(acc, First(kind, hi - 1), Second(kind, k - (hi - 1)))]
  {
  }

  lemma RunNone(e: Inputs, acc: Acc, kind: Kind, k: nat, lo: nat, hi: nat, s: State, v: nat)
    requires hi <= k + 1 && hi <= lo && Get(s, acc) == Tri(v)
    ensures Run(e, Accs(acc, kind, k, lo, hi), s)
         == Set(s, acc, Tri(v + Dot(Left(kind, e, s), Right(kind, e), k, lo, hi)))
  {
    hide Tri, Dot;
    assert Dot(Left(kind, e, s), Right(kind, e), k, lo, hi) == 0 by {
      DotEmpty(Left(kind, e, s), Right(kind, e), k, lo, hi);
    }
    SetGet(s, acc);
  }

  /** An accumulator that receives a column's terms holds their sum. */
  lemma {:induction false} RunAccs(e: Inputs, n: nat, acc: Acc, kind: Kind, k: nat, lo: nat, hi: nat, s: State, v: nat)
    requires WordInputs(e, n) && AllWords(s.q) && hi <= k + 1 && Get(s, acc) == Tri(v)
    ensures Run(e, Accs(acc, kind, k, lo, hi), s)
         == Set(s, acc, Tri(v + Dot(Left(kind, e, s), Right(kind, e), k, lo, hi)))
    decreases hi
  {
    hide Tri, AccWords, MulNat, At, Set, Get, Exec, First, Second, Left, Right, AllWords, Run, Dot, Accs;
    if lo < hi {
      RunAccs(e, n, acc, kind, k, lo, hi - 1, s, v);
      var i, p := hi - 1, Accs(acc, kind, k, lo, hi - 1);
      var mul := MulAcc(acc, First(kind, i), Second(kind, k - i));
      AccsStep(acc, kind, k, lo, hi);
      RunAppend(e, p, [mul], s);
      RunOne(e, mul, Run(e, p, s));
      ExecMulAcc(e, n, acc, kind, i, k - i, s, v + Dot(Left(kind, e, s), Right(kind, e), k, lo, i));
      DotStep(Left(kind, e, s), Right(kind, e), k, lo, hi);
    } else {
      RunNone(e, acc, kind, k, lo, hi, s, v);
    }
  }

  // ----- the Montgomery product, column by column

  datatype Mont = Mont(z: nat, q: seq<nat>, r: seq<nat>)

  /** Column k: low columns choose a digit that clears them, high ones leave a result word. */
  function MontStep(e: Inputs, n: nat, k: nat, c: Mont): Mont {
    var t := c.z + Conv(e.a, e.b, k) + Conv(c.q, e.m, k);
    if k < n then
      var q := U64(MulNat(U64(t), e.n0));
      Mont(Hi64(t + MulNat(q, At(e.m, 0))), c.q + [q], c.r)
    else
      Mont(Hi64(t), c.q, c.r + [U64(t)])
  }

  function MontRun(e: Inputs, n: nat, k: nat): Mont {
    if k == 0 then Mont(0, [], []) else MontStep(e, n, k - 1, MontRun(e, n, k - 1))
  }

  ghost predicate N0Inverse(e: Inputs) { (MulNat(e.n0, At(e.m, 0)) + 1) % W == 0 }

  /** What the columns done so far add up to, and bounds that keep three words enough. */
  ghost predicate MontInv(e: Inputs, n: nat, k: nat, c: Mont) {
    && |c.q| == Min(k, n) && |c.r| == k - Min(k, n) && AllWords(c.q) && AllWords(c.r)
    && c.z <= 2 * n * W
    && ColumnSum(e.a, e.b, k) + ColumnSum(c.q, e.m, k) == Mul(c.z, WPow(k)) + Mul(Num(c.r), WPow(n))
  }

  lemma DigitClears(t: nat, n0: nat, m0: nat, q: nat)
    requires (MulNat(n0, m0) + 1) % W == 0 && q == U64(MulNat(U64(t), n0))
    ensures U64(t + MulNat(q, m0)) == 0
  {
    var x := MulNat(U64(t), n0);
    var h, k := Hi64(x), (n0 * m0 + 1) / W;
    Cut64(x);
    Cut64(t);
    assert q * m0 == U64(t) * (n0 * m0) - W * (h * m0) by {
      assert q == U64(t) * n0 - h * W;
    }
    assert n0 * m0 == W * k - 1;
    assert U64(t) * (n0 * m0) == W * (U64(t) * k) - U64(t);
    DivUnique(t + q * m0, W, Hi64(t) + U64(t) * k - h * m0, 0);
  }

  lemma ColumnBound(a: seq<nat>, b: seq<nat>, k: nat)
    requires AllWords(a) && AllWords(b)
    ensures Conv(a, b, k) <= Mul(|a|, (W - 1) * (W - 1))
  {
    DotBound(a, b, k, 0, |a|);
  }

  /** The sum of a column with what was carried into it fits three words. */
  lemma ColumnFits(e: Inputs, n: nat, k: nat, c: Mont)
    requires WordInputs(e, n) && MontInv(e, n, k, c) && k < 2 * n && 2 * n < W
    ensures var t := c.z + Conv(e.a, e.b, k) + Conv(c.q, e.m, k);
      && t <= 2 * n * B128 && (k < n ==> forall q :: 0 <= q < W ==> t + MulNat(q, At(e.m, 0)) <= 2 * n * B128)
  {
    hide Conv, ColumnSum, WPow, Num;
    ColumnBound(e.a, e.b, k);
    ColumnBound(c.q, e.m, k);
    AtWord(e.m, 0);
    forall q | 0 <= q < W ensures MulNat(q, At(e.m, 0)) <= (W - 1) * (W - 1) {
      MulBound(q, At(e.m, 0), W - 1, W - 1);
    }
  }

  lemma HiBound(t: nat, n: nat)
    requires t <= 2 * n * B128
    ensures Hi64(t) <= 2 * n * W
  {
    Cut64(t);
    assert B128 == W * W;
  }

  /** A low column: the new digit adds nothing to the earlier columns and clears this one. */
  lemma LowColumn(e: Inputs, n: nat, k: nat, c: Mont)
    requires WordInputs(e, n) && N0Inverse(e) && MontInv(e, n, k, c) && k < n && 2 * n < W
    ensures MontInv(e, n, k + 1, MontStep(e, n, k, c))
  {
    hide Conv, ColumnSum, WPow, Num, Mul, U64, Hi64, At, MulNat;
    var t := c.z + Conv(e.a, e.b, k) + Conv(c.q, e.m, k);
    var q, m0 := U64(MulNat(U64(t), e.n0)), At(e.m, 0);
    var u, d := t + MulNat(q, m0), MontStep(e, n, k, c);
    ColumnFits(e, n, k, c);
    Cut64(MulNat(U64(t), e.n0));
    HiBound(u, n);
    DigitClears(t, e.n0, m0, q);
    Cut64(u);
    ColumnSumSnoc(c.q, q, e.m, k);
    ShiftSumIsNum(e.m, k, k);
    MulUnit(q);
    ConvSnoc(c.q, q, e.m, k);
    ColumnSumStep(e.a, e.b, k);
    ColumnSumStep(d.q, e.m, k);
    MulDistr3(c.z, Conv(e.a, e.b, k), Conv(d.q, e.m, k), WPow(k));
    WPowStep(d.z, k);
  }

  lemma ColumnSumStep(a: seq<nat>, b: seq<nat>, k: nat)
    ensures ColumnSum(a, b, k + 1) == ColumnSum(a, b, k) + Mul(Conv(a, b, k), WPow(k))
  {
  }

  lemma MulDistr3(x: int, y: int, z: int, p: int)
    ensures Mul(x + y + z, p) == Mul(x, p) + Mul(y, p) + Mul(z, p)
  {
  }

  lemma WPowStep(z: nat, k: nat)
    ensures Mul(z * W, WPow(k)) == Mul(z, WPow(k + 1))
  {
    assert z * W * WPow(k) == z * (W * WPow(k));
  }

  /** A high column: its low word is a result word. */
  lemma HighColumn(e: Inputs, n: nat, k: nat, c: Mont)
    requires WordInputs(e, n) && MontInv(e, n, k, c) && n <= k < 2 * n && 2 * n < W
    ensures MontInv(e, n, k + 1, MontStep(e, n, k, c))
  {
    hide Conv, ColumnSum, WPow, Num, Mul, U64, Hi64;
    var t, d := c.z + Conv(e.a, e.b, k) + Conv(c.q, e.m, k), MontStep(e, n, k, c);
    ColumnFits(e, n, k, c);
    HiBound(t, n);
    Cut64(t);
    ColumnSumStep(e.a, e.b, k);
    ColumnSumStep(c.q, e.m, k);
    MulDistr3(c.z, Conv(e.a, e.b, k), Conv(c.q, e.m, k), WPow(k));
    MulDistr(d.z * W, U64(t), WPow(k));
    WPowStep(d.z, k);
    NumSnoc(c.r, U64(t));
    WPowAdd(k - n, n);
    MulAssoc(U64(t), WPow(k - n), WPow(n));
    MulDistr(Num(c.r), Mul(U64(t), WPow(k - n)), WPow(n));
  }

  lemma MontStart(e: Inputs, n: nat)
    ensures MontInv(e, n, 0, Mont(0, [], []))
  {
    hide Mul, Conv;
    EmptyNum();
    MulUnit(WPow(0));
    MulUnit(WPow(n));
  }

  lemma {:induction false} MontRunInv(e: Inputs, n: nat, k: nat)
    requires WordInputs(e, n) && N0Inverse(e) && k <= 2 * n && 2 * n < W
    ensures MontInv(e, n, k, MontRun(e, n, k))
  {
    hide MontStep, MontInv, WordInputs, N0Inverse;
    if k == 0 {
      MontStart(e, n);
    } else {
      MontRunInv(e, n, k - 1);
      if k - 1 < n {
        LowColumn(e, n, k - 1, MontRun(e, n, k - 1));
      } else {
        HighColumn(e, n, k - 1, MontRun(e, n, k - 1));
      }
    }
  }

  /** What the registers and arrays hold between two columns. */
  ghost predicate Rel(s: State, c: Mont, n: nat) {
    s.z == Tri(c.z) && s.q == c.q && |s.rp| == n && |c.r| <= n && s.rp[..|c.r|] == c.r
  }

  /** The end of a column, from the sum t of what it received. */
  lemma RunEnd(e: Inputs, n: nat, k: nat, c: Mont, s: State)
    requires WordInputs(e, n) && MontInv(e, n, k, c) && k < 2 * n && 2 * n < W
    requires var t := c.z + Conv(e.a, e.b, k) + Conv(c.q, e.m, k);
      s.z == Tri(t) && s.q == c.q && |s.rp| == n && |c.r| <= n && s.rp[..|c.r|] == c.r
    ensures Rel(Run(e, ColumnEnd(n, k), s), MontStep(e, n, k, c), n)
  {
    hide Conv, ColumnSum, WPow, Num, Mul, Tri, AccWords;
    var t := c.z + Conv(e.a, e.b, k) + Conv(c.q, e.m, k);
    ColumnFits(e, n, k, c);
    TriWord(t);
    if k < n {
      var q := U64(MulNat(U64(t), e.n0));
      var u := t + MulNat(q, At(e.m, 0));
      var mul := MulAcc(AccZ, Q(k), M(0));
      assert ColumnEnd(n, k) == [Digit(k)] + [mul] + [Shift];
      RunThree(e, Digit(k), mul, Shift, s);
      var s1 := Exec(e, Digit(k), s);
      assert s1.q == c.q + [q];
      AtWord(e.m, 0);
      AccTri(t, q, At(e.m, 0));
      assert u <= 2 * n * B128;
      ShiftTri(u);
    } else {
      assert ColumnEnd(n, k) == [Store(k - n)] + [Shift];
      RunAppend(e, [Store(k - n)], [Shift], s);
      RunOne(e, Store(k - n), s);
      RunOne(e, Shift, Exec(e, Store(k - n), s));
      ShiftTri(t);
    }
  }

  lemma TriWord(t: nat)
    ensures Tri(t).w0 == U64(t)
  {
  }

  lemma RunThree(e: Inputs, i: Instr, j: Instr, k: Instr, s: State)
    ensures Run(e, [i] + [j] + [k], s) == Exec(e, k, Exec(e, j, Exec(e, i, s)))
  {
    hide Exec;
    RunAppend(e, [i] + [j], [k], s);
    RunAppend(e, [i], [j], s);
    RunOne(e, i, s);
    RunOne(e, j, Exec(e, i, s));
    RunOne(e, k, Exec(e, j, Exec(e, i, s)));
  }

  lemma RunClear(e: Inputs, acc: Acc, s: State)
    ensures Run(e, [Clear(acc)], s) == Set(s, acc, Tri(0))
  {
    RunOne(e, Clear(acc), s);
  }

  /** Clear an accumulator and fill it with a column. */
  lemma RunFill(e: Inputs, n: nat, acc: Acc, kind: Kind, k: nat, lo: nat, hi: nat, s: State)
    requires WordInputs(e, n) && AllWords(s.q) && hi <= k + 1
    ensures Run(e, [Clear(acc)] + Accs(acc, kind, k, lo, hi), s)
         == Set(s, acc, Tri(Dot(Left(kind, e, s), Right(kind, e), k, lo, hi)))
  {
    hide Tri, Accs, Dot, Run, AllWords;
    RunAppend(e, [Clear(acc)], Accs(acc, kind, k, lo, hi), s);
    RunClear(e, acc, s);
    var t := Set(s, acc, Tri(0));
    assert Get(t, acc) == Tri(0) && t.q == s.q;
    RunAccs(e, n, acc, kind, k, lo, hi, t, 0);
  }

  lemma RunAdd(e: Inputs, acc: Acc, s: State, v: nat, x: nat)
    requires s.z == Tri(v) && Get(s, acc) == Tri(x)
    ensures Run(e, [Add3(acc)], s) == s.(z := Tri(v + x))
  {
    RunOne(e, Add3(acc), s);
    Add3Tri(v, x);
  }

  /** The reduction products of a column are the whole column of q times m. */
  lemma ReductionTerms(e: Inputs, n: nat, k: nat, q: seq<nat>)
    requires |e.m| == n && |q| == Min(k, n) && k < 2 * n
    ensures Dot(q, e.m, k, Low(n, k), Min(k, n)) == Conv(q, e.m, k)
  {
    DotIsConv(q, e.m, k, Low(n, k), Min(k, n));
  }

  lemma RunReduction(e: Inputs, n: nat, k: nat, s: State, v: nat)
    requires WordInputs(e, n) && AllWords(s.q) && |s.q| == Min(k, n) && k < 2 * n && s.z == Tri(v)
    requires Low(n, k) < Min(k, n) ==> s.y == Tri(Conv(s.q, e.m, k))
    ensures Run(e, if Low(n, k) < Min(k, n) then [Add3(AccY)] else [], s) == s.(z := Tri(v + Conv(s.q, e.m, k)))
  {
    hide Tri, Conv, Run, AllWords;
    if Low(n, k) < Min(k, n) {
      RunAdd(e, AccY, s, v, Conv(s.q, e.m, k));
    } else {
      RunOne(e, Shift, s);
      ReductionTerms(e, n, k, s.q);
      DotEmpty(s.q, e.m, k, Low(n, k), Min(k, n));
    }
  }

  lemma MulColumnSplit(n: nat, k: nat)
    requires k < 2 * n
    ensures MulColumn(n, k)
         == [Clear(AccX), Clear(AccY)] + Accs(AccX, AB, k, Low(n, k), Min(k, n - 1) + 1)
            + Accs(AccY, QM, k, Low(n, k), Min(k, n)) + [Add3(AccX)]
            + (if Low(n, k) < Min(k, n) then [Add3(AccY)] else []) + ColumnEnd(n, k)
  {
  }

  /** One column of the multiply kernel is one step of the Montgomery product. */
  lemma RunMulColumn(e: Inputs, n: nat, k: nat, c: Mont, s: State)
    requires WordInputs(e, n) && MontInv(e, n, k, c) && k < 2 * n && 2 * n < W && Rel(s, c, n)
    ensures Rel(Run(e, MulColumn(n, k), s), MontStep(e, n, k, c), n)
  {
    hide Tri, Dot, Accs, ColumnSum, Num, Mul, WPow, ColumnEnd, MontStep, AllWords, MulColumn, Run;
    var lo, hi := Low(n, k), Min(k, n);
    var ab, qm := Accs(AccX, AB, k, lo, Min(k, n - 1) + 1), Accs(AccY, QM, k, lo, hi);
    var add := if lo < hi then [Add3(AccY)] else [];
    MulColumnSplit(n, k);
    DotIsConv(e.a, e.b, k, lo, Min(k, n - 1) + 1);
    ReductionTerms(e, n, k, c.q);
    var x, y := Conv(e.a, e.b, k), Conv(c.q, e.m, k);
    hide Conv;
    RunClears(e, s);
    var s1 := s.(x := Tri(0), y := Tri(0));
    RunAccs(e, n, AccX, AB, k, lo, Min(k, n - 1) + 1, s1, 0);
    var s2 := s1.(x := Tri(x));
    RunAccs(e, n, AccY, QM, k, lo, hi, s2, 0);
    var s3 := s2.(y := Tri(y));
    RunAdd(e, AccX, s3, c.z, x);
    var s4 := s3.(z := Tri(c.z + x));
    RunReduction(e, n, k, s4, c.z + x);
    var s5 := s4.(z := Tri(c.z + x + y));
    RunSix(e, [Clear(AccX), Clear(AccY)], ab, qm, [Add3(AccX)], add, ColumnEnd(n, k), s);
    RunEnd(e, n, k, c, s5);
  }

  lemma RunClears(e: Inputs, s: State)
    ensures Run(e, [Clear(AccX), Clear(AccY)], s) == s.(x := Tri(0), y := Tri(0))
  {
    assert [Clear(AccX), Clear(AccY)] == [Clear(AccX)] + [Clear(AccY)];
    RunAppend(e, [Clear(AccX)], [Clear(AccY)], s);
    RunClear(e, AccX, s);
    RunClear(e, AccY, s.(x := Tri(0)));
  }

  lemma RunSix(e: Inputs, a: seq<Instr>, b: seq<Instr>, c: seq<Instr>, d: seq<Instr>, f: seq<Instr>, g: seq<Instr>, s: State)
    ensures Run(e, a + b + c + d + f + g, s)
         == Run(e, g, Run(e, f, Run(e, d, Run(e, c, Run(e, b, Run(e, a, s))))))
  {
    hide Run;
    RunAppend(e, a + b + c + d + f, g, s);
    RunAppend(e, a + b + c + d, f, s);
    RunAppend(e, a + b + c, d, s);
    RunAppend(e, a + b, c, s);
    RunAppend(e, a, b, s);
  }

  /** The doubled cross products of a column and the square on its diagonal are the whole column. */
  lemma CrossTerms(a: seq<nat>, n: nat, k: nat)
    requires |a| == n && k < 2 * n
    ensures 2 * Dot(a, a, k, Low(n, k), (k + 1) / 2) + (if k % 2 == 0 then MulNat(At(a, k / 2), At(a, k / 2)) else 0)
         == Conv(a, a, k)
    ensures Low(n, k) >= (k + 1) / 2 ==> Dot(a, a, k, Low(n, k), (k + 1) / 2) == 0
  {
    hide MulNat;
    var lo := Low(n, k);
    SquareColumn(a, k, lo);
    if k < n {
      DotIsConv(a, a, k, lo, k + 1);
    } else {
      DotIsConv(a, a, k, lo, n);
    }
  }

  lemma RunDouble(e: Inputs, s: State, v: nat, x: nat)
    requires s.z == Tri(v) && s.w == Tri(x)
    ensures Run(e, [Acc2(AccW)], s) == s.(z := Tri(v + 2 * x))
  {
    hide Tri, Acc2Words, Run;
    RunOne(e, Acc2(AccW), s);
    Acc2Tri(v, x);
  }

  lemma RunCross(e: Inputs, n: nat, k: nat, s: State, v: nat) returns (w: Triple)
    requires WordInputs(e, n) && AllWords(s.q) && k < 2 * n && s.z == Tri(v)
    ensures Run(e, Cross(n, k), s)
         == s.(w := w, z := Tri(v + 2 * Dot(e.a, e.a, k, Low(n, k), (k + 1) / 2)))
  {
    var lo, half := Low(n, k), (k + 1) / 2;
    hide Tri, Dot, Accs, AllWords, Run, WordInputs;
    if lo < half {
      var x := Dot(e.a, e.a, k, lo, half);
      RunFill(e, n, AccW, AA, k, lo, half, s);
      RunAppend(e, [Clear(AccW)] + Accs(AccW, AA, k, lo, half), [Acc2(AccW)], s);
      w := Tri(x);
      assert Run(e, [Clear(AccW)] + Accs(AccW, AA, k, lo, half), s) == s.(w := w);
      RunDouble(e, s.(w := w), v, x);
    } else {
      w := s.w;
      DotEmpty(e.a, e.a, k, lo, half);
      RunOne(e, Shift, s);
    }
  }

  lemma RunDiagonal(e: Inputs, n: nat, k: nat, s: State, v: nat)
    requires WordInputs(e, n) && k < 2 * n && s.z == Tri(v)
    ensures Run(e, if k % 2 == 0 && k / 2 < n then [MulAcc(AccZ, A(k / 2), A(k / 2))] else [], s)
         == s.(z := Tri(v + (if k % 2 == 0 then MulNat(At(e.a, k / 2), At(e.a, k / 2)) else 0)))
  {
    hide Tri, AccWords, MulNat, Run;
    if k % 2 == 0 {
      RunOne(e, MulAcc(AccZ, A(k / 2), A(k / 2)), s);
      AtWord(e.a, k / 2);
      AccTri(v, At(e.a, k / 2), At(e.a, k / 2));
    } else {
      RunOne(e, Shift, s);
    }
  }

  lemma RunSqrFill(e: Inputs, n: nat, k: nat, s: State)
    requires WordInputs(e, n) && AllWords(s.q) && |s.q| == Min(k, n) && k < 2 * n
    ensures var p := if Low(n, k) < Min(k, n) then [Clear(AccY)] + Accs(AccY, QM, k, Low(n, k), Min(k, n)) else [];
      Run(e, p, s) == if Low(n, k) < Min(k, n) then s.(y := Tri(Conv(s.q, e.m, k))) else s
  {
    hide Tri, Dot, Accs, AllWords, Run, Conv;
    if Low(n, k) < Min(k, n) {
      RunFill(e, n, AccY, QM, k, Low(n, k), Min(k, n), s);
      ReductionTerms(e, n, k, s.q);
    } else {
      RunOne(e, Shift, s);
    }
  }

  /** One column of the square kernel is the same step, at b = a. */
  lemma RunSqrColumn(e: Inputs, n: nat, k: nat, c: Mont, s: State)
    requires WordInputs(e, n) && e.b == e.a && MontInv(e, n, k, c) && k < 2 * n && 2 * n < W && Rel(s, c, n)
    ensures Rel(Run(e, SqrColumn(n, k), s), MontStep(e, n, k, c), n)
  {
    hide Tri, Dot, Accs, ColumnSum, Num, Mul, WPow, ColumnEnd, MontStep, AllWords, Run, Conv, Cross, At, MulNat;
    var lo, hi := Low(n, k), Min(k, n);
    var fill := if lo < hi then [Clear(AccY)] + Accs(AccY, QM, k, lo, hi) else [];
    var diag := if k % 2 == 0 && k / 2 < n then [MulAcc(AccZ, A(k / 2), A(k / 2))] else [];
    var add := if lo < hi then [Add3(AccY)] else [];
    CrossTerms(e.a, n, k);
    var x, y := Dot(e.a, e.a, k, lo, (k + 1) / 2), Conv(c.q, e.m, k);
    var d := if k % 2 == 0 then MulNat(At(e.a, k / 2), At(e.a, k / 2)) else 0;
    var w := RunCross(e, n, k, s, c.z);
    var s1 := s.(w := w, z := Tri(c.z + 2 * x));
    RunSqrFill(e, n, k, s1);
    var s2 := if lo < hi then s1.(y := Tri(y)) else s1;
    RunDiagonal(e, n, k, s2, c.z + 2 * x);
    var s3 := s2.(z := Tri(c.z + 2 * x + d));
    RunReduction(e, n, k, s3, c.z + 2 * x + d);
    var s4 := s3.(z := Tri(c.z + 2 * x + d + y));
    RunFive(e, Cross(n, k), fill, diag, add, ColumnEnd(n, k), s);
    RunEnd(e, n, k, c, s4);
  }

  lemma RunFive(e: Inputs, a: seq<Instr>, b: seq<Instr>, c: seq<Instr>, d: seq<Instr>, f: seq<Instr>, s: State)
    ensures Run(e, a + b + c + d + f, s) == Run(e, f, Run(e, d, Run(e, c, Run(e, b, Run(e, a, s)))))
  {
    hide Run;
    RunAppend(e, a + b + c + d, f, s);
    RunAppend(e, a + b + c, d, s);
    RunAppend(e, a + b, c, s);
    RunAppend(e, a, b, s);
  }

  /** After any number of columns either kernel holds the Montgomery product so far. */
  lemma {:induction false} RunColumns(square: bool, e: Inputs, n: nat, k: nat, s: State)
    requires WordInputs(e, n) && N0Inverse(e) && k <= 2 * n && 2 * n < W && (square ==> e.b == e.a)
    requires s.z == Triple(0, 0, 0) && s.q == [] && |s.rp| == n
    ensures Rel(Run(e, Program(square, n, k), s), MontRun(e, n, k), n)
  {
    hide MontStep, WordInputs, N0Inverse, MulColumn, SqrColumn, MontInv;
    if k == 0 {
      RunOne(e, Shift, s);
      assert s.rp[..0] == [];
    } else {
      hide Run, Rel;
      RunColumns(square, e, n, k - 1, s);
      MontRunInv(e, n, k - 1);
      var p, t := Program(square, n, k - 1), Run(e, Program(square, n, k - 1), s);
      if square {
        RunAppend(e, p, SqrColumn(n, k - 1), s);
        RunSqrColumn(e, n, k - 1, MontRun(e, n, k - 1), t);
      } else {
        RunAppend(e, p, MulColumn(n, k - 1), s);
        RunMulColumn(e, n, k - 1, MontRun(e, n, k - 1), t);
      }
    }
  }

  /** The value a kernel leaves: its n result words and the returned word above them. */
  function Result(s: State, n: nat): nat {
    Num(s.rp) + MulNat(s.z.w0, WPow(n))
  }

  /**
   For every limb count, both kernels write (a b + Q m) / R into rp and the returned word, with
   Q the number whose words are the digits, and the returned word is a single bit.
   */
  lemma KernelProduct(square: bool, e: Inputs, n: nat, s: State)
    requires WordInputs(e, n) && N0Inverse(e) && 2 * n < W && (square ==> e.b == e.a)
    requires s.z == Triple(0, 0, 0) && s.q == [] && |s.rp| == n
    ensures var t := Run(e, Program(square, n, 2 * n), s);
      && AllWords(t.rp) && |t.rp| == n && AllWords(t.q) && |t.q| == n && t.z.w0 <= 1
      && Mul(Num(e.a), Num(e.b)) + Mul(Num(t.q), Num(e.m)) == Mul(Result(t, n), WPow(n))
  {
    hide ColumnSum, Num, Mul, Run, Program, MontRun, WPow;
    RunColumns(square, e, n, 2 * n, s);
    MontRunInv(e, n, 2 * n);
    var c, t := MontRun(e, n, 2 * n), Run(e, Program(square, n, 2 * n), s);
    assert c.r == t.rp && c.q == t.q;
    ColumnsAreProduct(e.a, e.b, 2 * n);
    ColumnsAreProduct(t.q, e.m, 2 * n);
    FinalCarry(Num(e.a), Num(e.b), Num(t.q), Num(e.m), WPow(n), c.z, Num(t.rp)) by {
      NumBound(e.a);
      NumBound(e.b);
      NumBound(e.m);
      NumBound(t.q);
      WPowAdd(n, n);
    }
    SmallTri(c.z);
    MulDistr(Num(t.rp), Mul(c.z, WPow(n)), WPow(n));
    MulAssoc(c.z, WPow(n), WPow(n));
    WPowAdd(n, n);
  }

  lemma SmallTri(z: nat)
    requires z <= 1
    ensures Tri(z).w0 == z
  {
  }

  /** The last carry is a bit: a b + Q m is below 2 R^2. */
  lemma FinalCarry(a: nat, b: nat, q: nat, m: nat, r: nat, z: nat, low: nat)
    requires a < r && b < r && q < r && m < r
    requires Mul(a, b) + Mul(q, m) == Mul(z, Mul(r, r)) + Mul(low, r)
    ensures z <= 1
  {
    ProductBound(a, b, r, r);
    ProductBound(q, m, r, r);
    assert a * b < r * r by {
      ProductBound(a, b, r - 1, r);
      MulMinusOne(r, r);
    }
    ProductBound(0, 0, low, r);
    if z >= 2 {
      ProductBound(2, r * r, z, r * r);
    }
  }

  /** With reduced operands the result is below 2m: one subtraction reduces it. */
  lemma KernelBound(x: nat, a: nat, b: nat, q: nat, m: nat, r: nat)
    requires a < m && b < m && q < r && m < r
    requires Mul(a, b) + Mul(q, m) == Mul(x, r)
    ensures x < 2 * m
  {
    ProductBound(a, b, r, m);
    ProductBound(q, m, r, m);
    assert q * m < r * m by {
      ProductBound(q, m, r - 1, m);
      MulMinusOne(r, m);
    }
    assert 2 * m * r == 2 * (r * m);
    if x >= 2 * m {
      ProductBound(2 * m, r, x, r);
    }
  }

  /** On a run: with reduced factors either kernel leaves less than twice the modulus, top bit included. */
  lemma RunBound(square: bool, e: Inputs, n: nat, s: State)
    requires WordInputs(e, n) && N0Inverse(e) && 2 * n < W && (square ==> e.b == e.a)
    requires Num(e.a) < Num(e.m) && Num(e.b) < Num(e.m)
    requires s.z == Triple(0, 0, 0) && s.q == [] && |s.rp| == n
    ensures Result(Run(e, Program(square, n, 2 * n), s), n) < 2 * Num(e.m)
  {
    hide Mul, Num, Run, Program, WPow;
    KernelProduct(square, e, n, s);
    var t := Run(e, Program(square, n, 2 * n), s);
    NumBound(t.q);
    NumBound(e.m);
    KernelBound(Result(t, n), Num(e.a), Num(e.b), Num(t.q), Num(e.m), WPow(n));
  }

  /**
   The multiply kernel at b = a and the square kernel choose the same digits and leave the same
   words, and the result is the Montgomery product below 2m.
   */
  lemma SquareIsMultiply(e: Inputs, n: nat, s: State)
    requires WordInputs(e, n) && N0Inverse(e) && 2 * n < W && e.b == e.a && Num(e.a) < Num(e.m)
    requires s.z == Triple(0, 0, 0) && s.q == [] && |s.rp| == n
    ensures var t, u := Run(e, Program(true, n, 2 * n), s), Run(e, Program(false, n, 2 * n), s);
      t.rp == u.rp && t.q == u.q && t.z == u.z && Result(t, n) < 2 * Num(e.m)
  {
    hide Mul, Num, Run, Program, MontRun, WPow, MulNat;
    RunColumns(true, e, n, 2 * n, s);
    RunColumns(false, e, n, 2 * n, s);
    MontRunInv(e, n, 2 * n);
    RunBound(true, e, n, s);
  }
}
