/**
 tools/gen_rsa_adx16.py, square: the cross products once, doubled by shifts, plus the squares
 on the diagonal, leave exactly a * a in t, for every width from two words up.
 */
module AdxSquare {
  import opened Words
  import opened Columns
  import opened AdxMachine
  import opened AdxRows
  import opened AdxReduce
  import opened AdxRedc
  import opened AdxProducts
  import opened AdxMultiply

  // ----- the emitted code

  function CrossSetup(k: nat): seq<Instr> { [LoadM(SRC, k, RDX)] + [XorR(CB)] }

  function CrossRow(k: nat, n: nat): seq<Instr>
    requires k + 1 < n
  {
    CrossSetup(k) + ProductRow(k == 0, k + 1, 2 * k + 1, n - 1 - k)
  }

  function CrossRows(k: nat, n: nat): seq<Instr>
    requires k < n
  {
    if k == 0 then [] else CrossRows(k - 1, n) + CrossRow(k - 1, n)
  }

  /** Words 2i and 2i + 1: doubled, plus a[i]^2, plus the carry from the pair below. */
  function PairCode(i: nat): seq<Instr> {
    [LoadT(2 * i, 2), LoadT(2 * i + 1, 3), MovR(3, 4), Shld1(2, 3), Shld1(CB, 2), MovR(4, CB)]
    + [LoadM(SRC, i, RDX), MulxRdx(LO, T0)]
    + [Add(LO, 2), Adc(T0, 3), MovZero(6), Adc0(6)]
    + [Add(5, 2), Adc0(3), Adc0(6), MovR(6, 5)]
    + [StoreT(2, 2 * i), StoreT(3, 2 * i + 1)]
  }

  function Pairs(i: nat): seq<Instr> { if i == 0 then [] else Pairs(i - 1) + PairCode(i - 1) }

  function SquareCode(n: nat): seq<Instr>
    requires n > 0
  {
    [LoadPtr(PA, SRC)] + CrossRows(n - 1, n) + ([ZeroT(0)] + [ZeroT(2 * n - 1)] + [XorR(CB)] + [XorR(5)]) + Pairs(n)
  }

  method EmitCrossRows(n: nat) returns (rows: seq<Instr>)
    requires n > 0
    ensures rows == CrossRows(n - 1, n)
  {
    hide ProductRow;
    rows := [];
    for k := 0 to n - 1
      invariant rows == CrossRows(k, n)
    {
      var row := EmitProductRow([LoadM(SRC, k, RDX), XorR(CB)], k == 0, k + 1, k + (k + 1), n - (k + 1));
      rows := rows + row;
    }
  }

  method EmitPairs(n: nat) returns (pairs: seq<Instr>)
    ensures pairs == Pairs(n)
  {
    hide PairCode;
    pairs := [];
    for i := 0 to n
      invariant pairs == Pairs(i)
    {
      pairs := pairs + PairCode(i);
    }
  }

  method EmitSquare(l: seq<Instr>, n: nat) returns (r: seq<Instr>)
    requires n > 0
    ensures r == l + SquareCode(n)
  {
    hide CrossRows, Pairs;
    var rows := EmitCrossRows(n);
    var pairs := EmitPairs(n);
    var ends := [ZeroT(0), ZeroT(2 * n - 1), XorR(CB), XorR(5)];
    assert ends == [ZeroT(0)] + [ZeroT(2 * n - 1)] + [XorR(CB)] + [XorR(5)];
    r := l + ([LoadPtr(PA, SRC)] + rows + ends + pairs);
  }

  // ----- what a square is made of

  /** The products of two different words, rows 0 to k - 1. */
  function Cross(a: seq<nat>, k: nat): nat
    requires k <= |a|
  {
    if k == 0 then 0 else Cross(a, k - 1) + MulNat(MulNat(a[k - 1], Num(a[k..])), WPow(2 * k - 1))
  }

  function Diagonal(a: seq<nat>, k: nat): nat
    requires k <= |a|
  {
    if k == 0 then 0 else Diagonal(a, k - 1) + MulNat(MulNat(a[k - 1], a[k - 1]), WPow(2 * k - 2))
  }

  lemma SquareArith(x: int, y: int, r: int, p: int, p1: int, p2: int)
    requires p1 == W * p && p2 == W * p1 && r == x + W * y
    ensures Mul(Mul(r, r), p) == Mul(Mul(x, x), p) + 2 * Mul(Mul(x, y), p1) + Mul(Mul(y, y), p2)
  {
    assert r * r == x * x + 2 * (W * (x * y)) + W * W * (y * y);
    assert (x * x + 2 * (W * (x * y)) + W * W * (y * y)) * p == x * x * p + 2 * ((x * y) * (W * p)) + (y * y) * (W * (W * p));
  }

  /** Rows still to come are the square of the words not yet used. */
  lemma {:induction false} SquareParts(a: seq<nat>, k: nat)
    requires k <= |a|
    ensures Mul(Num(a), Num(a)) == 2 * Cross(a, k) + Diagonal(a, k) + Mul(Mul(Num(a[k..]), Num(a[k..])), WPow(2 * k))
  {
    hide Num, Mul, WPow;
    if k == 0 {
      assert a[0..] == a;
      One();
      MulUnit(Mul(Num(a), Num(a)));
    } else {
      SquareParts(a, k - 1);
      var r := a[k - 1..];
      NumCons(r);
      assert r[1..] == a[k..];
      WPowNext(2 * k - 2);
      WPowNext(2 * k - 1);
      SquareArith(a[k - 1], Num(a[k..]), Num(r), WPow(2 * k - 2), WPow(2 * k - 1), WPow(2 * k));
    }
  }

  lemma SquareIs(a: seq<nat>)
    requires |a| > 0
    ensures Mul(Num(a), Num(a)) == 2 * Cross(a, |a| - 1) + Diagonal(a, |a|)
  {
    hide Num, Mul, WPow;
    var n := |a|;
    SquareParts(a, n);
    assert a[n..] == [];
    EmptyNum();
    MulUnit(0);
    MulUnit(WPow(2 * n));
    MulUnit(WPow(2 * n - 1));
    MulUnit(a[n - 1]);
  }

  // ----- the cross rows

  lemma RunCrossSetup(e: Inputs, s: State, k: nat)
    requires Words13(s) && R(s, SRC) == PA && k < |e.a| && AllWords(e.a)
    ensures var u := Run(e, CrossSetup(k), s);
      && Words13(u) && R(u, SRC) == PA && R(u, CB) == 0 && R(u, RDX) == e.a[k] && !u.cf && !u.of && u.t == s.t
  {
    hide Run;
    RunSnoc(e, [LoadM(SRC, k, RDX)], XorR(CB), s);
    RunOne(e, LoadM(SRC, k, RDX), s);
  }

  ghost predicate CrossInv(e: Inputs, s: State, n: nat, k: nat) {
    && Words13(s) && R(s, SRC) == PA && |s.t| == 2 * n + 1 && |e.a| == n && AllWords(e.a) && k < n
    && (k > 0 ==> Mul(Num(s.t[1..n + k]), W) == Cross(e.a, k))
  }

  lemma FirstCross(e: Inputs, s: State, u: State, n: nat)
    requires CrossInv(e, s, n, 0) && ProductDone(e, s, u, true, 1, 1, n - 1) && n > 1 && R(s, RDX) == e.a[0]
    ensures CrossInv(e, u, n, 1)
  {
    hide Num, Mul, WPow, Words13;
    assert u.t[1..1 + (n - 1) + 1] == u.t[1..n + 1] && e.a[1..1 + (n - 1)] == e.a[1..];
    assert WPow(1) == W by {
      WPowNext(0);
      One();
    }
    assert Cross(e.a, 0) == 0;
    assert 2 * 1 - 1 == 1;
  }

  lemma CrossArith(low: int, mid: int, x: int, y: int, p: int, p': int)
    requires p' == W * p
    ensures Mul(low + Mul(mid + Mul(x, y), p), W) == Mul(low + Mul(mid, p), W) + Mul(Mul(x, y), p')
  {
    assert (mid + x * y) * p == mid * p + (x * y) * p;
    assert (x * y) * p * W == (x * y) * (W * p);
  }

  lemma LaterCross(e: Inputs, s: State, u: State, n: nat, k: nat)
    requires CrossInv(e, s, n, k) && 0 < k && k + 1 < n && ProductDone(e, s, u, false, k + 1, 2 * k + 1, n - 1 - k)
    requires R(s, RDX) == e.a[k]
    ensures CrossInv(e, u, n, k + 1)
  {
    hide Num, Mul, WPow, Words13, R;
    var c, x := 2 * k + 1, e.a[k];
    var low := s.t[1..c];
    assert c + (n - 1 - k) == n + k && k + 1 + (n - 1 - k) == n && c + (n - 1 - k) + 1 == n + (k + 1);
    assert e.a[k + 1..n] == e.a[k + 1..];
    assert low == u.t[1..c] by {
      assert u.t[1..c] == u.t[..c][1..] && s.t[1..c] == s.t[..c][1..];
    }
    assert s.t[1..n + k] == low + s.t[c..n + k] && u.t[1..n + (k + 1)] == low + u.t[c..n + (k + 1)];
    NumAppend(low, s.t[c..n + k]);
    NumAppend(low, u.t[c..n + (k + 1)]);
    WPowNext(2 * k);
    CrossArith(Num(low), Num(s.t[c..n + k]), x, Num(e.a[k + 1..]), WPow(2 * k), WPow(2 * k + 1));
    assert 2 * (k + 1) - 1 == 2 * k + 1;
  }

  lemma OneCrossRow(e: Inputs, s: State, n: nat, k: nat)
    requires CrossInv(e, s, n, k) && k + 1 < n
    ensures CrossInv(e, Run(e, CrossRow(k, n), s), n, k + 1)
  {
    hide Run, Num, Mul, WPow, CrossSetup, ProductRow, R, ProductDone;
    RunAppend(e, CrossSetup(k), ProductRow(k == 0, k + 1, 2 * k + 1, n - 1 - k), s);
    RunCrossSetup(e, s, k);
    var u := Run(e, CrossSetup(k), s);
    assert CrossInv(e, u, n, k);
    RunProductRow(e, u, k == 0, k + 1, 2 * k + 1, n - 1 - k);
    var w := Run(e, ProductRow(k == 0, k + 1, 2 * k + 1, n - 1 - k), u);
    if k == 0 {
      FirstCross(e, u, w, n);
    } else {
      LaterCross(e, u, w, n, k);
    }
  }

  lemma {:induction false} RunCrossRows(e: Inputs, s: State, n: nat, k: nat)
    requires CrossInv(e, s, n, 0) && k < n
    ensures CrossInv(e, Run(e, CrossRows(k, n), s), n, k)
  {
    hide Run, CrossInv, CrossRow;
    if k == 0 {
      RunOne(e, ImulN0, s);
    } else {
      RunCrossRows(e, s, n, k - 1);
      RunAppend(e, CrossRows(k - 1, n), CrossRow(k - 1, n), s);
      OneCrossRow(e, Run(e, CrossRows(k - 1, n), s), n, k - 1);
    }
  }

  // ----- doubling with the diagonal

  function Top(x: nat): nat { Shr(x, 63) }

  lemma TopBit(x: nat)
    requires x < W
    ensures Top(x) <= 1 && 2 * x == U64(2 * x) + W * Top(x) && U64(2 * x) % 2 == 0
  {
    assert Pow2(63) == 0x8000_0000_0000_0000 by {
      Pow2Words();
      assert Pow2(64) == 2 * Pow2(63);
    }
  }

  /** shld by one: the word doubled, with the bit that comes in below. */
  lemma ShiftIn(x: nat, y: nat)
    requires x < W && y < W
    ensures Or(U64(2 * x), Top(y)) == U64(2 * x) + Top(y) < W
    ensures U64(2 * x) + Top(y) + W * Top(x) == 2 * x + Top(y)
  {
    hide Shr, Or;
    TopBit(x);
    TopBit(y);
    if Top(y) == 0 {
      OrZero(U64(2 * x));
    } else {
      OrStep(U64(2 * x), 1);
      OrZero(U64(2 * x) / 2);
    }
  }

  ghost predicate Frame(s: State, u: State) {
    Words13(u) && R(u, SRC) == R(s, SRC) && |u.t| == |s.t|
  }

  lemma RunShifts(e: Inputs, s: State, i: nat)
    requires Words13(s) && 2 * i + 1 < |s.t|
    ensures var u := Run(e, [LoadT(2 * i, 2), LoadT(2 * i + 1, 3), MovR(3, 4), Shld1(2, 3), Shld1(CB, 2), MovR(4, CB)], s);
      && Frame(s, u) && u.t == s.t && R(u, CB) == s.t[2 * i + 1] && R(u, 5) == R(s, 5)
      && R(u, 2) + W * R(u, 3) + W * W * Top(s.t[2 * i + 1]) == 2 * (s.t[2 * i] + W * s.t[2 * i + 1]) + Top(R(s, CB))
  {
    hide Run, Shr, Or, U64;
    var i1, i2, i3, i4, i5, i6 := LoadT(2 * i, 2), LoadT(2 * i + 1, 3), MovR(3, 4), Shld1(2, 3), Shld1(CB, 2), MovR(4, CB);
    var x0, x1, c := s.t[2 * i], s.t[2 * i + 1], R(s, CB);
    assert [i1, i2, i3, i4, i5, i6] == [i1] + [i2] + [i3] + [i4] + [i5] + [i6];
    RunSnoc(e, [i1] + [i2] + [i3] + [i4] + [i5], i6, s);
    RunSnoc(e, [i1] + [i2] + [i3] + [i4], i5, s);
    RunSnoc(e, [i1] + [i2] + [i3], i4, s);
    RunSnoc(e, [i1] + [i2], i3, s);
    RunSnoc(e, [i1], i2, s);
    RunOne(e, i1, s);
    ShiftIn(x1, x0);
    ShiftIn(x0, c);
    ShiftsEnd(e, s, Run(e, [i1] + [i2] + [i3], s), i);
  }

  lemma ShiftsEnd(e: Inputs, s: State, u: State, i: nat)
    requires Words13(s) && 2 * i + 1 < |s.t|
    requires u.t == s.t && u.regs == s.regs[2 := s.t[2 * i]][3 := s.t[2 * i + 1]][4 := s.t[2 * i + 1]]
    ensures var w := Exec(e, MovR(4, CB), Exec(e, Shld1(CB, 2), Exec(e, Shld1(2, 3), u)));
      w.t == s.t && w.regs == u.regs[3 := Or(U64(s.t[2 * i + 1] * 2), Top(s.t[2 * i]))]
                               [2 := Or(U64(s.t[2 * i] * 2), Top(R(s, CB)))][CB := s.t[2 * i + 1]]
  {
    hide Or, U64, Shr;
  }

  lemma RunSquareWord(e: Inputs, s: State, i: nat)
    requires Words13(s) && R(s, SRC) == PA && i < |e.a| && AllWords(e.a)
    ensures var u := Run(e, [LoadM(SRC, i, RDX), MulxRdx(LO, T0)], s);
      && Frame(s, u) && u.t == s.t && R(u, LO) + W * R(u, T0) == MulNat(e.a[i], e.a[i])
      && R(u, 2) == R(s, 2) && R(u, 3) == R(s, 3) && R(u, 5) == R(s, 5) && R(u, CB) == R(s, CB)
  {
    hide Run, U64, Hi64, MulNat;
    assert [LoadM(SRC, i, RDX), MulxRdx(LO, T0)] == [LoadM(SRC, i, RDX)] + [MulxRdx(LO, T0)];
    RunSnoc(e, [LoadM(SRC, i, RDX)], MulxRdx(LO, T0), s);
    RunOne(e, LoadM(SRC, i, RDX), s);
    WordProduct(e.a[i], e.a[i]);
  }

  /** add, adc: one word of an addition. */
  lemma AddFlagsValue(s: State, dst: nat, x: nat, c: nat)
    requires Words13(s) && dst < REGS && x < W && c <= 1
    ensures var u := AddFlags(s, dst, x, c);
      && Words13(u) && u.t == s.t && u.regs == s.regs[dst := R(u, dst)]
      && R(u, dst) + W * Bool(u.cf) == R(s, dst) + x + c
  {
  }

  /** add, adc of a two-word number into registers 2 and 3. */
  lemma RunAddTwo(e: Inputs, s: State)
    requires Words13(s)
    ensures var u := Run(e, [Add(LO, 2)] + [Adc(T0, 3)], s);
      && Words13(u) && u.t == s.t && u.regs == s.regs[2 := R(u, 2)][3 := R(u, 3)]
      && R(u, 2) + W * R(u, 3) + W * W * Bool(u.cf) == R(s, 2) + W * R(s, 3) + (R(s, LO) + W * R(s, T0))
  {
    hide Run, AddFlags;
    RunSnoc(e, [Add(LO, 2)], Adc(T0, 3), s);
    RunOne(e, Add(LO, 2), s);
    var s1 := AddFlags(s, 2, R(s, LO), 0);
    AddFlagsValue(s, 2, R(s, LO), 0);
    AddFlagsValue(s1, 3, R(s1, T0), Bool(s1.cf));
  }

  lemma RunCarrySix(e: Inputs, s: State)
    requires Words13(s)
    ensures var u := Run(e, [MovZero(6)] + [Adc0(6)], s);
      Words13(u) && u.t == s.t && u.regs == s.regs[6 := Bool(s.cf)]
  {
    hide Run;
    RunSnoc(e, [MovZero(6)], Adc0(6), s);
    RunOne(e, MovZero(6), s);
  }

  lemma RunAddSquare(e: Inputs, s: State)
    requires Words13(s)
    ensures var u := Run(e, [Add(LO, 2), Adc(T0, 3), MovZero(6), Adc0(6)], s);
      && Frame(s, u) && u.t == s.t && R(u, 6) <= 1 && R(u, 5) == R(s, 5) && R(u, CB) == R(s, CB)
      && R(u, 2) + W * R(u, 3) + W * W * R(u, 6) == R(s, 2) + W * R(s, 3) + (R(s, LO) + W * R(s, T0))
  {
    hide Run;
    var p := [Add(LO, 2)] + [Adc(T0, 3)];
    assert [Add(LO, 2), Adc(T0, 3), MovZero(6), Adc0(6)] == p + ([MovZero(6)] + [Adc0(6)]);
    RunAppend(e, p, [MovZero(6)] + [Adc0(6)], s);
    RunAddTwo(e, s);
    RunCarrySix(e, Run(e, p, s));
  }

  lemma RunAddCarry(e: Inputs, s: State)
    requires Words13(s) && R(s, 6) <= 1
    ensures var u := Run(e, [Add(5, 2), Adc0(3), Adc0(6), MovR(6, 5)], s);
      && Frame(s, u) && u.t == s.t && R(u, CB) == R(s, CB)
      && R(u, 2) + W * R(u, 3) + W * W * R(u, 5) == R(s, 2) + W * R(s, 3) + W * W * R(s, 6) + R(s, 5)
  {
    hide Run, AddFlags;
    var i1, i2, i3, i4 := Add(5, 2), Adc0(3), Adc0(6), MovR(6, 5);
    assert [i1, i2, i3, i4] == [i1] + [i2] + [i3] + [i4];
    RunSnoc(e, [i1] + [i2] + [i3], i4, s);
    RunSnoc(e, [i1] + [i2], i3, s);
    RunSnoc(e, [i1], i2, s);
    RunOne(e, i1, s);
    var s1 := AddFlags(s, 2, R(s, 5), 0);
    AddFlagsValue(s, 2, R(s, 5), 0);
    var s2 := AddFlags(s1, 3, 0, Bool(s1.cf));
    AddFlagsValue(s1, 3, 0, Bool(s1.cf));
    AddFlagsValue(s2, 6, 0, Bool(s2.cf));
  }

  lemma RunStorePair(e: Inputs, s: State, i: nat)
    requires Words13(s) && 2 * i + 1 < |s.t|
    ensures var u := Run(e, [StoreT(2, 2 * i), StoreT(3, 2 * i + 1)], s);
      Frame(s, u) && u.regs == s.regs && u.t == s.t[2 * i := R(s, 2)][2 * i + 1 := R(s, 3)]
  {
    hide Run;
    assert [StoreT(2, 2 * i), StoreT(3, 2 * i + 1)] == [StoreT(2, 2 * i)] + [StoreT(3, 2 * i + 1)];
    RunSnoc(e, [StoreT(2, 2 * i)], StoreT(3, 2 * i + 1), s);
    RunOne(e, StoreT(2, 2 * i), s);
  }

  /** A pair of words: what is carried out, and what the two words become. */
  ghost predicate PairDone(e: Inputs, s: State, u: State, i: nat) {
    && Words13(u) && R(u, SRC) == R(s, SRC) && 2 * i + 1 < |s.t| == |u.t| && i < |e.a|
    && u.t == s.t[2 * i := u.t[2 * i]][2 * i + 1 := u.t[2 * i + 1]]
    && u.t[2 * i] + W * u.t[2 * i + 1] + W * W * (R(u, 5) + Top(R(u, CB)))
       == 2 * (s.t[2 * i] + W * s.t[2 * i + 1]) + (R(s, 5) + Top(R(s, CB))) + MulNat(e.a[i], e.a[i])
  }

  lemma RunPair(e: Inputs, s: State, i: nat)
    requires Words13(s) && R(s, SRC) == PA && i < |e.a| && AllWords(e.a) && 2 * i + 1 < |s.t|
    ensures PairDone(e, s, Run(e, PairCode(i), s), i)
  {
    hide Run, R, MulNat, Words13, AllWords, Top;
    var p1 := [LoadT(2 * i, 2), LoadT(2 * i + 1, 3), MovR(3, 4), Shld1(2, 3), Shld1(CB, 2), MovR(4, CB)];
    var p2, p3 := [LoadM(SRC, i, RDX), MulxRdx(LO, T0)], [Add(LO, 2), Adc(T0, 3), MovZero(6), Adc0(6)];
    var p4, p5 := [Add(5, 2), Adc0(3), Adc0(6), MovR(6, 5)], [StoreT(2, 2 * i), StoreT(3, 2 * i + 1)];
    RunAppend(e, p1 + p2 + p3 + p4, p5, s);
    RunAppend(e, p1 + p2 + p3, p4, s);
    RunAppend(e, p1 + p2, p3, s);
    RunAppend(e, p1, p2, s);
    var s1 := Run(e, p1, s);
    var s2 := Run(e, p2, s1);
    var s3 := Run(e, p3, s2);
    var s4 := Run(e, p4, s3);
    RunShifts(e, s, i);
    RunSquareWord(e, s1, i);
    RunAddSquare(e, s2);
    RunAddCarry(e, s3);
    RunStorePair(e, s4, i);
    RegsSame(s4, Run(e, p5, s4));
  }

  /** After i pairs: the low words and what is carried are twice the cross products plus the squares. */
  ghost predicate PairsInv(e: Inputs, s: State, u: State, n: nat, i: nat) {
    && Words13(u) && R(u, SRC) == PA && |s.t| == |u.t| == 2 * n + 1 && |e.a| == n && AllWords(e.a) && i <= n
    && u.t[2 * i..] == s.t[2 * i..]
    && Num(u.t[..2 * i]) + Mul(R(u, 5) + Top(R(u, CB)), WPow(2 * i)) == 2 * Num(s.t[..2 * i]) + Diagonal(e.a, i)
  }

  lemma PairArith(y0: int, y1: int, c': int, x0: int, x1: int, c: int, d: int, p: int, p1: int, p2: int)
    requires p1 == W * p && p2 == W * p1 && y0 + W * y1 + W * W * c' == 2 * (x0 + W * x1) + c + d
    ensures Mul(y0, p) + Mul(y1, p1) + Mul(c', p2) == 2 * (Mul(x0, p) + Mul(x1, p1)) + Mul(c, p) + Mul(d, p)
  {
    assert (y0 + W * y1 + W * W * c') * p == y0 * p + y1 * (W * p) + c' * (W * (W * p));
    assert (2 * (x0 + W * x1) + c + d) * p == 2 * (x0 * p + x1 * (W * p)) + c * p + d * p;
  }

  lemma TwoMore(t: seq<nat>, j: nat)
    requires j + 1 < |t|
    ensures Num(t[..j + 2]) == Num(t[..j]) + Mul(t[j], WPow(j)) + Mul(t[j + 1], WPow(j + 1))
  {
    hide Num, Mul, WPow;
    assert t[..j + 2] == t[..j] + [t[j]] + [t[j + 1]];
    NumSnoc(t[..j], t[j]);
    NumSnoc(t[..j] + [t[j]], t[j + 1]);
  }

  lemma PairsStep(e: Inputs, s: State, u: State, w: State, n: nat, i: nat)
    requires PairsInv(e, s, u, n, i) && i < n && PairDone(e, u, w, i)
    ensures PairsInv(e, s, w, n, i + 1)
  {
    hide Num, Mul, WPow, R, Words13, Top, AllWords;
    var j := 2 * i;
    assert u.t[j] == u.t[j..][0] == s.t[j..][0] == s.t[j] && u.t[j + 1] == u.t[j..][1] == s.t[j..][1] == s.t[j + 1];
    assert w.t[j + 2..] == u.t[j..][2..] == s.t[j..][2..] && w.t[..j] == u.t[..j] && 2 * (i + 1) == j + 2;
    TwoMore(w.t, j);
    TwoMore(s.t, j);
    WPowNext(j);
    WPowNext(j + 1);
    PairArith(w.t[j], w.t[j + 1], R(w, 5) + Top(R(w, CB)), s.t[j], s.t[j + 1], R(u, 5) + Top(R(u, CB)),
              MulNat(e.a[i], e.a[i]), WPow(j), WPow(j + 1), WPow(j + 2));
  }

  lemma {:induction false} RunPairs(e: Inputs, s: State, n: nat, i: nat)
    requires PairsInv(e, s, s, n, 0) && i <= n
    ensures PairsInv(e, s, Run(e, Pairs(i), s), n, i)
  {
    hide Run, PairCode, PairDone, R, Words13, AllWords, Num, Mul, Diagonal;
    if i == 0 {
      RunOne(e, ImulN0, s);
    } else {
      RunPairs(e, s, n, i - 1);
      RunAppend(e, Pairs(i - 1), PairCode(i - 1), s);
      RunPair(e, Run(e, Pairs(i - 1), s), i - 1);
      PairsStep(e, s, Run(e, Pairs(i - 1), s), Run(e, PairCode(i - 1), Run(e, Pairs(i - 1), s)), n, i - 1);
    }
  }

  // ----- the square

  /** With both ends zeroed, t holds the cross products. */
  lemma RunEnds(e: Inputs, s: State, n: nat)
    requires n >= 2 && CrossInv(e, s, n, n - 1)
    ensures var u := Run(e, [ZeroT(0)] + [ZeroT(2 * n - 1)] + [XorR(CB)] + [XorR(5)], s);
      PairsInv(e, u, u, n, 0) && Num(u.t[..2 * n]) == Cross(e.a, n - 1)
  {
    hide Run, Num, Mul, WPow, Shr;
    RunSnoc(e, [ZeroT(0)] + [ZeroT(2 * n - 1)] + [XorR(CB)], XorR(5), s);
    RunSnoc(e, [ZeroT(0)] + [ZeroT(2 * n - 1)], XorR(CB), s);
    RunSnoc(e, [ZeroT(0)], ZeroT(2 * n - 1), s);
    RunOne(e, ZeroT(0), s);
    var u := Run(e, [ZeroT(0)] + [ZeroT(2 * n - 1)] + [XorR(CB)] + [XorR(5)], s);
    var mid := s.t[1..2 * n - 1];
    assert u.t[..2 * n] == [0] + mid + [0];
    NumSnoc([0] + mid, 0);
    NumAppend([0], mid);
    NumOne(0);
    WPowOne(Num(mid));
    MulComm(Num(mid), W);
    MulUnit(WPow(2 * n - 1));
    assert u.t[..2 * 0] == [];
    EmptyNum();
    MulUnit(WPow(2 * 0));
    TopBit(0);
    assert n + (n - 1) == 2 * n - 1;
  }

  lemma NumOne(x: nat)
    ensures Num([x]) == x
  {
    assert [x] == [] + [x];
    NumSnoc([], x);
    EmptyNum();
    One();
    MulUnit(x);
  }

  lemma WPowOne(x: nat)
    ensures Mul(x, WPow(1)) == Mul(x, W)
  {
    WPowNext(0);
    One();
  }

  lemma NothingLeft(v: nat, c: nat, p: nat, sq: nat)
    requires v + Mul(c, p) == sq && sq < p
    ensures v == sq
  {
    if c > 0 {
      ProductBound(1, p, c, p);
    }
  }

  /** square leaves exactly a * a in t[0..2n) before reduction. */
  lemma RunSquare(e: Inputs, s: State, n: nat)
    requires Words13(s) && |s.t| == 2 * n + 1 && |e.a| == n >= 2 && AllWords(e.a)
    ensures var u := Run(e, SquareCode(n), s);
      Words13(u) && |u.t| == 2 * n + 1 && Num(u.t[..2 * n]) == Mul(Num(e.a), Num(e.a))
  {
    hide Run, Num, Mul, CrossRows, Pairs, WPow, Top;
    var p1, p2, p3 := [LoadPtr(PA, SRC)], CrossRows(n - 1, n), [ZeroT(0)] + [ZeroT(2 * n - 1)] + [XorR(CB)] + [XorR(5)];
    RunAppend(e, p1 + p2 + p3, Pairs(n), s);
    RunAppend(e, p1 + p2, p3, s);
    RunAppend(e, p1, p2, s);
    RunOne(e, LoadPtr(PA, SRC), s);
    assert CrossInv(e, Run(e, p1, s), n, 0);
    RunCrossRows(e, Run(e, p1, s), n, n - 1);
    var s2 := Run(e, p2, Run(e, p1, s));
    RunEnds(e, s2, n);
    var s3 := Run(e, p3, s2);
    RunPairs(e, s3, n, n);
    var u := Run(e, Pairs(n), s3);
    SquareIs(e.a);
    SquareRoom(e.a);
    NothingLeft(Num(u.t[..2 * n]), R(u, 5) + Top(R(u, CB)), WPow(2 * n), Mul(Num(e.a), Num(e.a)));
  }

  lemma SquareRoom(a: seq<nat>)
    requires AllWords(a)
    ensures 0 <= Mul(Num(a), Num(a)) < WPow(2 * |a|)
  {
    hide Num, WPow;
    NumBound(a);
    WPowAdd(|a|, |a|);
    MulBound(Num(a), Num(a), WPow(|a|) - 1, WPow(|a|) - 1);
    SquareBelow(WPow(|a|));
  }

  lemma SquareBelow(p: nat)
    requires p > 0
    ensures (p - 1) * (p - 1) < p * p
  {
  }
}
