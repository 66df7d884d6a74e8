/**
 Little-endian words in base 2^64 and the column sums of their products: the arithmetic both
 Montgomery generators rest on.
 */
module Columns {
  import opened Words

  predicate AllWords(s: seq<nat>) { forall i | 0 <= i < |s| :: s[i] < B64 }

  /** What a kernel is given: the factors, the modulus and -m^-1 mod 2^64. */
  datatype Inputs = Inputs(a: seq<nat>, b: seq<nat>, m: seq<nat>, n0: nat)

  ghost predicate WordInputs(e: Inputs, n: nat) {
    |e.a| == |e.b| == |e.m| == n && AllWords(e.a) && AllWords(e.b) && AllWords(e.m) && e.n0 < B64
  }

  function WPow(k: nat): (r: nat)
    ensures r > 0
  {
    if k == 0 then 1 else B64 * WPow(k - 1)
  }

  function Num(s: seq<nat>): nat {
    if s == [] then 0 else Num(s[..|s| - 1]) + Mul(s[|s| - 1], WPow(|s| - 1))
  }

  function At(s: seq<nat>, j: int): nat { if 0 <= j < |s| then s[j] else 0 }

  /** Terms lo to hi - 1 of column k of the product of a and b. */
  function Dot(a: seq<nat>, b: seq<nat>, k: int, lo: nat, hi: nat): (r: nat)
    decreases hi
  {
    if hi <= lo then 0 else Dot(a, b, k, lo, hi - 1) + MulNat(At(a, hi - 1), At(b, k - (hi - 1)))
  }

  function MulNat(x: nat, y: nat): nat {
    MulBound(x, y, x, y);
    Mul(x, y)
  }

  lemma MulNatIs(x: nat, y: nat)
    ensures MulNat(x, y) == Mul(x, y)
  {
  }

  /** Column k of the product. */
  function Conv(a: seq<nat>, b: seq<nat>, k: nat): nat { Dot(a, b, k, 0, |a|) }

  /** Columns 0 to k - 1, each at its weight. */
  function ColumnSum(a: seq<nat>, b: seq<nat>, k: nat): nat {
    if k == 0 then 0 else ColumnSum(a, b, k - 1) + MulNat(Conv(a, b, k - 1), WPow(k - 1))
  }

  // ----- weights

  lemma {:induction false} WPowAdd(a: nat, b: nat)
    ensures WPow(a + b) == Mul(WPow(a), WPow(b))
  {
    if a > 0 {
      WPowAdd(a - 1, b);
      assert B64 * (WPow(a - 1) * WPow(b)) == (B64 * WPow(a - 1)) * WPow(b);
    }
  }

  lemma MulComm(x: int, y: int)
    ensures Mul(x, y) == Mul(y, x)
  {
  }

  lemma MulAssoc(x: int, y: int, z: int)
    ensures Mul(Mul(x, y), z) == Mul(x, Mul(y, z))
  {
  }

  lemma MulDistr(x: int, y: int, z: int)
    ensures Mul(x + y, z) == Mul(x, z) + Mul(y, z) && Mul(z, x + y) == Mul(z, x) + Mul(z, y)
  {
  }

  lemma MulUnit(x: int)
    ensures Mul(x, 0) == 0 == Mul(0, x) && Mul(x, 1) == x == Mul(1, x)
  {
  }

  // ----- numbers

  lemma NumSnoc(s: seq<nat>, x: nat)
    ensures Num(s + [x]) == Num(s) + Mul(x, WPow(|s|))
  {
    assert (s + [x])[..|s|] == s;
  }

  lemma {:induction false} NumBound(s: seq<nat>)
    requires AllWords(s)
    ensures Num(s) < WPow(|s|)
  {
    if s != [] {
      var p, x := WPow(|s| - 1), s[|s| - 1];
      NumBound(s[..|s| - 1]);
      assert x * p <= (B64 - 1) * p by {
        ProductBound(x, p, B64 - 1, p);
      }
    }
  }

  lemma {:induction false} NumAppend(s: seq<nat>, t: seq<nat>)
    ensures Num(s + t) == Num(s) + Mul(Num(t), WPow(|s|))
  {
    if t == [] {
      assert s + t == s;
      MulUnit(WPow(|s|));
    } else {
      hide Mul, WPow;
      var t', x := t[..|t| - 1], t[|t| - 1];
      assert s + t == (s + t') + [x] && t == t' + [x];
      NumAppend(s, t');
      NumSnoc(s + t', x);
      NumSnoc(t', x);
      WPowAdd(|t'|, |s|);
      MulAssoc(x, WPow(|t'|), WPow(|s|));
      MulDistr(Num(t'), Mul(x, WPow(|t'|)), WPow(|s|));
    }
  }

  // ----- columns

  lemma {:induction false} DotSplit(a: seq<nat>, b: seq<nat>, k: int, lo: nat, mid: nat, hi: nat)
    requires lo <= mid <= hi
    ensures Dot(a, b, k, lo, hi) == Dot(a, b, k, lo, mid) + Dot(a, b, k, mid, hi)
    decreases hi
  {
    if mid < hi {
      DotSplit(a, b, k, lo, mid, hi - 1);
    }
  }

  lemma DotStep(a: seq<nat>, b: seq<nat>, k: int, lo: nat, hi: nat)
    requires lo < hi
    ensures Dot(a, b, k, lo, hi) == Dot(a, b, k, lo, hi - 1) + MulNat(At(a, hi - 1), At(b, k - (hi - 1)))
  {
  }

  lemma DotEmpty(a: seq<nat>, b: seq<nat>, k: int, lo: nat, hi: nat)
    requires hi <= lo
    ensures Dot(a, b, k, lo, hi) == 0
  {
  }

  /** Terms that meet no word of one of the factors are zero. */
  lemma {:induction false} DotZero(a: seq<nat>, b: seq<nat>, k: int, lo: nat, hi: nat)
    requires lo >= |a| || k < lo || k - hi + 1 >= |b|
    ensures Dot(a, b, k, lo, hi) == 0
    decreases hi
  {
    if lo < hi {
      DotZero(a, b, k, lo, hi - 1);
      MulUnit(At(a, hi - 1));
      MulUnit(At(b, k - (hi - 1)));
    }
  }

  /** A kernel adds only the terms of a column that exist; they are the whole column. */
  lemma DotIsConv(a: seq<nat>, b: seq<nat>, k: nat, lo: nat, hi: nat)
    requires lo <= hi <= |a|
    requires lo == 0 || k - lo + 1 >= |b|
    requires hi == |a| || k < hi
    ensures Dot(a, b, k, lo, hi) == Conv(a, b, k)
  {
    DotSplit(a, b, k, 0, lo, hi);
    DotSplit(a, b, k, 0, hi, |a|);
    if lo > 0 {
      DotZero(a, b, k, 0, lo);
    }
    DotZero(a, b, k, hi, |a|);
  }

  lemma {:induction false} DotExtend(a: seq<nat>, x: nat, b: seq<nat>, k: int, lo: nat, hi: nat)
    requires hi <= |a|
    ensures Dot(a + [x], b, k, lo, hi) == Dot(a, b, k, lo, hi)
    decreases hi
  {
    if lo < hi {
      DotExtend(a, x, b, k, lo, hi - 1);
    }
  }

  lemma ConvSnoc(a: seq<nat>, x: nat, b: seq<nat>, k: nat)
    ensures Conv(a + [x], b, k) == Conv(a, b, k) + MulNat(x, At(b, k - |a|))
  {
    DotExtend(a, x, b, k, 0, |a|);
  }

  /** The words of b, each at its weight, when b starts at column n. */
  function ShiftSum(b: seq<nat>, n: nat, k: nat): nat {
    if k == 0 then 0 else ShiftSum(b, n, k - 1) + MulNat(At(b, k - 1 - n), WPow(k - 1))
  }

  lemma {:induction false} ColumnSumSnoc(a: seq<nat>, x: nat, b: seq<nat>, k: nat)
    ensures ColumnSum(a + [x], b, k) == ColumnSum(a, b, k) + Mul(x, ShiftSum(b, |a|, k))
  {
    if k == 0 {
      MulUnit(x);
    } else {
      hide Conv, Mul, WPow;
      var y := At(b, k - 1 - |a|);
      ColumnSumSnoc(a, x, b, k - 1);
      ConvSnoc(a, x, b, k - 1);
      MulDistr(Conv(a, b, k - 1), Mul(x, y), WPow(k - 1));
      MulAssoc(x, y, WPow(k - 1));
      MulDistr(ShiftSum(b, |a|, k - 1), Mul(y, WPow(k - 1)), x);
    }
  }

  lemma {:induction false} ShiftSumIsNum(b: seq<nat>, n: nat, k: nat)
    ensures ShiftSum(b, n, k) == if k <= n then 0 else Mul(Num(b[..if k - n < |b| then k - n else |b|]), WPow(n))
    decreases k
  {
    if k > 0 {
      ShiftSumIsNum(b, n, k - 1);
      var y := At(b, k - 1 - n);
      MulUnit(WPow(k - 1));
      MulUnit(WPow(n));
      if n < k && k - n <= |b| {
        hide Mul, WPow;
        assert b[..k - n] == b[..k - 1 - n] + [y];
        NumSnoc(b[..k - 1 - n], y);
        WPowAdd(k - 1 - n, n);
        MulAssoc(y, WPow(k - 1 - n), WPow(n));
        MulDistr(Num(b[..k - 1 - n]), Mul(y, WPow(k - 1 - n)), WPow(n));
      }
    }
  }

  /** All the columns of a product are the product. */
  lemma {:induction false} ColumnsAreProduct(a: seq<nat>, b: seq<nat>, k: nat)
    requires k >= |a| + |b|
    ensures ColumnSum(a, b, k) == Mul(Num(a), Num(b))
    decreases |a|
  {
    if a == [] {
      EmptyColumns(b, k);
      MulUnit(Num(b));
    } else {
      hide Mul, WPow, ColumnSum, Num;
      var a', x := a[..|a| - 1], a[|a| - 1];
      assert a == a' + [x] && b[..|b|] == b;
      ColumnsAreProduct(a', b, k);
      ColumnSumSnoc(a', x, b, k);
      ShiftSumIsNum(b, |a'|, k);
      NumSnoc(a', x);
      MulDistr(Num(a'), Mul(x, WPow(|a'|)), Num(b));
      MulComm(Num(b), WPow(|a'|));
      MulAssoc(x, WPow(|a'|), Num(b));
      EmptyNum();
      MulUnit(WPow(|a'|));
      MulUnit(Mul(x, WPow(|a'|)));
      MulUnit(x);
    }
  }

  lemma EmptyNum()
    ensures Num([]) == 0
  {
  }

  lemma {:induction false} EmptyColumns(b: seq<nat>, k: nat)
    ensures ColumnSum([], b, k) == 0
  {
    if k > 0 {
      EmptyColumns(b, k - 1);
      MulUnit(WPow(k - 1));
    }
  }

  lemma {:induction false} DotBound(a: seq<nat>, b: seq<nat>, k: int, lo: nat, hi: nat)
    requires AllWords(a) && AllWords(b)
    ensures Dot(a, b, k, lo, hi) <= Mul(if lo <= hi then hi - lo else 0, (B64 - 1) * (B64 - 1))
    decreases hi
  {
    if lo < hi {
      DotBound(a, b, k, lo, hi - 1);
      MulBound(At(a, hi - 1), At(b, k - (hi - 1)), B64 - 1, B64 - 1);
    }
  }

  // ----- squares

  lemma DotEnds(a: seq<nat>, b: seq<nat>, k: int, lo: nat, hi: nat)
    requires lo < hi
    ensures Dot(a, b, k, lo, hi) == MulNat(At(a, lo), At(b, k - lo)) + Dot(a, b, k, lo + 1, hi)
  {
    DotSplit(a, b, k, lo, lo + 1, hi);
    assert Dot(a, b, k, lo, lo) == 0;
  }

  /** Half of a symmetric column, doubled, and the square on the diagonal. */
  lemma {:induction false} SquareColumn(a: seq<nat>, k: nat, lo: nat)
    requires 2 * lo <= k + 1
    ensures Dot(a, a, k, lo, k + 1 - lo)
         == 2 * Dot(a, a, k, lo, (k + 1) / 2) + (if k % 2 == 0 then MulNat(At(a, k / 2), At(a, k / 2)) else 0)
    decreases k - lo
  {
    if 2 * lo >= k {
      if 2 * lo == k {
        assert Dot(a, a, k, lo, lo) == 0;
      }
    } else {
      SquareColumn(a, k, lo + 1);
      DotEnds(a, a, k, lo, (k + 1) / 2);
      DotEnds(a, a, k, lo, k + 1 - lo);
      MulComm(At(a, lo), At(a, k - lo));
    }
  }
}
