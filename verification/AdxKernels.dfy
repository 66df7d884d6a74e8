/**
 tools/gen_rsa_adx16.py, the two kernels it emits: what they leave in t, and that their digits
 and words are those of Montgomery reduction one row at a time and of the kernels that
 tools/gen_rsa_kernels.py emits.
 */
module AdxKernels {
  import opened Words
  import opened Columns
  import opened AdxMachine
  import opened AdxReduce
  import opened AdxRedc
  import opened AdxMultiply
  import opened AdxSquare
  import AdxEmit
  import AdxRows
  import MontKernels

  function KernelCode(square: bool, B: nat): seq<Instr>
    requires B > 0
  {
    (if square then SquareCode(8 * B) else [LoadPtr(PA, SRC)] + MulRows(8 * B, 8 * B)) + Redc(B)
  }

  /** square(n) for n = 8B. */
  method Square(B: nat) returns (out: seq<Instr>)
    requires B > 0
    ensures out == KernelCode(true, B)
  {
    hide *;
    out := EmitSquare([], 8 * B);
    out := AdxEmit.EmitRedc(out, B);
    CodeIs(true, B);
  }

  /** multiply(n) for n = 8B. */
  method Multiply(B: nat) returns (out: seq<Instr>)
    requires B > 0
    ensures out == KernelCode(false, B)
  {
    hide *;
    out := EmitMulRows([], 8 * B);
    out := AdxEmit.EmitRedc(out, B);
    CodeIs(false, B);
  }

  lemma CodeIs(square: bool, B: nat)
    requires B > 0
    ensures KernelCode(square, B)
         == (if square then [] + SquareCode(8 * B) else [] + ([LoadPtr(PA, SRC)] + MulRows(8 * B, 8 * B))) + Redc(B)
  {
    hide SquareCode, MulRows, Redc;
  }

  ghost predicate KernelInputs(e: Inputs, square: bool, B: nat) {
    WordInputs(e, 8 * B) && B > 0 && DigitInverse(e) && (square ==> e.b == e.a)
  }

  /** t[n..2n] is (a b + Q m) / R, with the words of Q in t[0..n). */
  ghost predicate KernelDone(e: Inputs, t: seq<nat>, n: nat) {
    && AllWords(t) && |t| == 2 * n + 1 && |e.m| == n
    && Mul(Num(t[n..]), WPow(n)) == Mul(Num(e.a), Num(e.b)) + Mul(Num(t[..n]), Num(e.m))
  }

  /** Both kernels, for every block count: the product, then its reduction, with no carry lost. */
  lemma AdxProduct(square: bool, e: Inputs, B: nat, s: State)
    requires KernelInputs(e, square, B) && Words13(s) && |s.t| == 16 * B + 1
    ensures KernelDone(e, Run(e, KernelCode(square, B), s).t, 8 * B)
  {
    hide Run, Num, Mul, WPow, MulRows, SquareCode, Redc, DigitInverse;
    var p := if square then SquareCode(8 * B) else [LoadPtr(PA, SRC)] + MulRows(8 * B, 8 * B);
    RunAppend(e, p, Redc(B), s);
    if square {
      RunSquare(e, s, 8 * B);
    } else {
      RunMultiply(e, s, 8 * B);
    }
    RunRedc(e, Run(e, p, s), B);
  }

  // ----- digits are unique

  lemma Cancel(x: int, y: int, p: int)
    requires p > 0 && x * p == y * p
    ensures x == y
  {
  }

  lemma InverseStep(d: int, m: int, z: int, n0: int, c: int, f: int, p: int)
    requires p > 0 && d * m == z * (W * p) && m * n0 == c * W - 1 && d == f * p
    ensures d == (f * c - z * n0) * (W * p)
  {
    assert (f * m) * p == (z * W) * p by {
      assert (f * p) * m == (f * m) * p;
      assert z * (W * p) == (z * W) * p;
    }
    Cancel(f * m, z * W, p);
    assert f * (m * n0) == (f * m) * n0 == z * n0 * W;
    assert f * (c * W - 1) == f * c * W - f;
    assert f == (f * c - z * n0) * W;
    assert (f * c - z * n0) * W * p == (f * c - z * n0) * (W * p);
  }

  /** A multiple of m that W^n divides is m times a multiple of W^n. */
  lemma {:induction false} Coprime(d: int, m: int, z: int, n0: int, c: int, n: nat) returns (f: int)
    requires d * m == z * WPow(n) && m * n0 == c * W - 1
    ensures d == f * WPow(n)
    decreases n
  {
    if n == 0 {
      f := d;
    } else {
      assert z * WPow(n) == (z * W) * WPow(n - 1) by {
        assert WPow(n) == W * WPow(n - 1);
      }
      f := Coprime(d, m, z * W, n0, c, n - 1);
      InverseStep(d, m, z, n0, c, f, WPow(n - 1));
      f := f * c - z * n0;
    }
  }

  lemma {:induction false} NumInjective(s: seq<nat>, t: seq<nat>)
    requires AllWords(s) && AllWords(t) && |s| == |t| && Num(s) == Num(t)
    ensures s == t
  {
    if s != [] {
      hide Num;
      NumCons(s);
      NumCons(t);
      DivUnique(Num(s), W, Num(s[1..]), s[0]);
      DivUnique(Num(s), W, Num(t[1..]), t[0]);
      NumInjective(s[1..], t[1..]);
      assert s == [s[0]] + s[1..] && t == [t[0]] + t[1..];
    }
  }

  lemma NoMultiple(d: int, f: int, p: int)
    requires d == f * p && -p < d < p
    ensures d == 0
  {
    assert -f * p == -(f * p);
    if f >= 1 {
      ProductBound(1, p, f, p);
    } else if f <= -1 {
      ProductBound(1, p, -f, p);
    }
  }

  lemma InverseOf(e: Inputs) returns (c: int)
    requires DigitInverse(e)
    ensures Num(e.m) * e.n0 == c * W - 1
  {
    hide Num;
    NumCons(e.m);
    var h, k := Num(e.m[1..]), (e.n0 * e.m[0] + 1) / W;
    assert e.n0 * e.m[0] == k * W - 1;
    assert (e.m[0] + W * h) * e.n0 == e.n0 * e.m[0] + (h * e.n0) * W;
    c := k + h * e.n0;
  }

  /** Only one string of n digits makes x + Q m a multiple of W^n. */
  lemma DigitsUnique(e: Inputs, x: nat, q: seq<nat>, q': seq<nat>, y: nat, y': nat)
    requires DigitInverse(e) && AllWords(q) && AllWords(q') && |q| == |q'|
    requires x + Mul(Num(q), Num(e.m)) == Mul(y, WPow(|q|)) && x + Mul(Num(q'), Num(e.m)) == Mul(y', WPow(|q|))
    ensures q == q' && y == y'
  {
    hide Num, WPow, DigitInverse;
    var m, p, d := Num(e.m), WPow(|q|), Num(q) - Num(q');
    var c := InverseOf(e);
    DifferenceOf(x, Num(q), Num(q'), m, y, y', p);
    var f := Coprime(d, m, y - y', e.n0, c, |q|);
    NumBound(q);
    NumBound(q');
    NoMultiple(d, f, p);
    NumInjective(q, q');
    Cancel(y, y', p) by {
      MulIs(y, p);
      MulIs(y', p);
    }
  }

  lemma DifferenceOf(x: int, q: int, q': int, m: int, y: int, y': int, p: int)
    requires x + Mul(q, m) == Mul(y, p) && x + Mul(q', m) == Mul(y', p)
    ensures (q - q') * m == (y - y') * p
  {
  }

  // ----- one row at a time

  /** Montgomery reduction by rows: each digit clears the low word and the number moves down. */
  function RowByRow(x: nat, m: nat, n0: nat, k: nat): (seq<nat>, nat) {
    if k == 0 then ([], x)
    else
      var (q, y) := RowByRow(x, m, n0, k - 1);
      var d := U64(MulNat(U64(y), n0));
      (q + [d], Hi64(y + MulNat(d, m)))
  }

  lemma RowClears(y: nat, m: nat, n0: nat, c: int, d: nat)
    requires m * n0 == c * W - 1 && d == U64(MulNat(U64(y), n0))
    ensures y + Mul(d, m) == W * Hi64(y + MulNat(d, m))
  {
    var x := MulNat(U64(y), n0);
    var h, z := Hi64(x), y + MulNat(d, m);
    Cut64(x);
    Cut64(y);
    Cut64(z);
    assert d == U64(y) * n0 - h * W;
    assert d * m == U64(y) * (m * n0) - W * (h * m) by {
      assert (U64(y) * n0 - h * W) * m == U64(y) * (m * n0) - W * (h * m);
    }
    assert U64(y) * (c * W - 1) == W * (U64(y) * c) - U64(y);
    DivUnique(z, W, Hi64(y) + U64(y) * c - h * m, 0);
  }

  lemma {:induction false} RowByRowValue(e: Inputs, x: nat, k: nat)
    requires DigitInverse(e)
    ensures var (q, y) := RowByRow(x, Num(e.m), e.n0, k);
      |q| == k && AllWords(q) && x + Mul(Num(q), Num(e.m)) == Mul(y, WPow(k))
  {
    hide Num, WPow, Mul, U64, Hi64, DigitInverse, MulNat;
    if k == 0 {
      EmptyNum();
      MulUnit(Num(e.m));
      One();
      MulUnit(x);
    } else {
      RowByRowValue(e, x, k - 1);
      var (q, y) := RowByRow(x, Num(e.m), e.n0, k - 1);
      var d := U64(MulNat(U64(y), e.n0));
      var c := InverseOf(e);
      Cut64(MulNat(U64(y), e.n0));
      RowClears(y, Num(e.m), e.n0, c, d);
      NumSnoc(q, d);
      AdxRows.WPowNext(k - 1);
      RowArith(x, Num(q), d, Num(e.m), y, Hi64(y + MulNat(d, Num(e.m))), WPow(k - 1), WPow(k));
    }
  }

  lemma RowArith(x: int, q: int, d: int, m: int, y: int, y': int, p: int, p1: int)
    requires x + Mul(q, m) == Mul(y, p) && y + Mul(d, m) == W * y' && p1 == W * p
    ensures x + Mul(q + Mul(d, p), m) == Mul(y', p1)
  {
    assert (q + d * p) * m == q * m + (d * m) * p;
    assert (y + d * m) * p == y * p + (d * m) * p;
    assert W * y' * p == y' * (W * p);
  }

  /** Eight rows at a time or one at a time, the quotient words and the reduced number agree. */
  lemma AdxIsRowByRow(square: bool, e: Inputs, B: nat, s: State)
    requires KernelInputs(e, square, B) && Words13(s) && |s.t| == 16 * B + 1
    ensures var t := Run(e, KernelCode(square, B), s).t;
      var (q, y) := RowByRow(MulNat(Num(e.a), Num(e.b)), Num(e.m), e.n0, 8 * B);
      |t| == 16 * B + 1 && t[..8 * B] == q && Num(t[8 * B..]) == y
  {
    hide Run, Num, Mul, WPow, DigitInverse, KernelCode, RowByRow;
    var n, x := 8 * B, MulNat(Num(e.a), Num(e.b));
    AdxProduct(square, e, B, s);
    var t := Run(e, KernelCode(square, B), s).t;
    RowByRowValue(e, x, n);
    var (q, y) := RowByRow(x, Num(e.m), e.n0, n);
    DigitsUnique(e, x, t[..n], q, Num(t[n..]), y);
  }

  // ----- the two generators

  /** The kernels of both generators leave the same words, the same digits and the same top bit. */
  lemma AdxIsKernel(square: bool, e: Inputs, B: nat, s: State, k: MontKernels.State)
    requires KernelInputs(e, square, B) && Words13(s) && |s.t| == 16 * B + 1 && 16 * B < W
    requires k.z == MontKernels.Triple(0, 0, 0) && k.q == [] && |k.rp| == 8 * B
    ensures var t := Run(e, KernelCode(square, B), s).t;
      var u := MontKernels.Run(e, MontKernels.Program(square, 8 * B, 16 * B), k);
      && |t| == 16 * B + 1 && u.q == t[..8 * B] && u.rp == t[8 * B..16 * B] && u.z.w0 == t[16 * B] <= 1
  {
    hide Run, Num, Mul, WPow, DigitInverse, KernelCode, MontKernels.Run, MontKernels.Program;
    var n := 8 * B;
    AdxProduct(square, e, B, s);
    var t := Run(e, KernelCode(square, B), s).t;
    assert MontKernels.N0Inverse(e) by {
      InverseSame(e);
    }
    assert MontKernels.Program(square, n, 2 * n) == MontKernels.Program(square, 8 * B, 16 * B);
    MontKernels.KernelProduct(square, e, n, k);
    var u := MontKernels.Run(e, MontKernels.Program(square, n, 2 * n), k);
    DigitsUnique(e, Mul(Num(e.a), Num(e.b)), t[..n], u.q, Num(t[n..]), MontKernels.Result(u, n)) by {
      MulBound(Num(e.a), Num(e.b), Num(e.a), Num(e.b));
    }
    ResultWords(u, n);
    NumInjective(t[n..], u.rp + [u.z.w0]);
    assert t[n..][..n] == t[n..2 * n] && t[n..][n] == t[2 * n];
  }

  lemma ResultWords(u: MontKernels.State, n: nat)
    requires |u.rp| == n
    ensures MontKernels.Result(u, n) == Num(u.rp + [u.z.w0])
  {
    hide Num;
    NumSnoc(u.rp, u.z.w0);
  }

  lemma InverseSame(e: Inputs)
    requires DigitInverse(e)
    ensures MontKernels.N0Inverse(e)
  {
  }

  /** Factors below the modulus leave a number below 2m: one conditional subtraction finishes it. */
  lemma AdxBound(square: bool, e: Inputs, B: nat, s: State)
    requires KernelInputs(e, square, B) && Words13(s) && |s.t| == 16 * B + 1
    requires Num(e.a) < Num(e.m) && Num(e.b) < Num(e.m)
    ensures var t := Run(e, KernelCode(square, B), s).t;
      |t| == 16 * B + 1 && Num(t[8 * B..]) < 2 * Num(e.m)
  {
    hide Run, Num, Mul, WPow, DigitInverse, KernelCode;
    var n := 8 * B;
    AdxProduct(square, e, B, s);
    var t := Run(e, KernelCode(square, B), s).t;
    NumBound(t[..n]);
    NumBound(e.m);
    MontKernels.KernelBound(Num(t[n..]), Num(e.a), Num(e.b), Num(t[..n]), Num(e.m), WPow(n));
  }
}
