/**
 tools/gen_rsa_adx16.py, multiply: rows of products leave exactly a * b in t, for every width.
 */
module AdxMultiply {
  import opened Words
  import opened Columns
  import opened AdxMachine
  import opened AdxRows
  import opened AdxReduce
  import opened AdxRedc
  import opened AdxProducts

  function RowSetup(k: nat): seq<Instr> { [LoadPtr(PB, 2)] + [LoadM(2, k, RDX)] + [XorR(CB)] }

  function MulRow(k: nat, n: nat): seq<Instr>
    requires n > 0
  {
    RowSetup(k) + ProductRow(k == 0, 0, k, n)
  }

  function MulRows(k: nat, n: nat): seq<Instr>
    requires n > 0
  {
    if k == 0 then [] else MulRows(k - 1, n) + MulRow(k - 1, n)
  }

  method EmitMulRows(l: seq<Instr>, n: nat) returns (r: seq<Instr>)
    requires n > 0
    ensures r == l + ([LoadPtr(PA, SRC)] + MulRows(n, n))
  {
    hide ProductRow;
    var rows := [];
    for k := 0 to n
      invariant rows == MulRows(k, n)
    {
      var row := EmitProductRow([LoadPtr(PB, 2), LoadM(2, k, RDX), XorR(CB)], k == 0, 0, k, n);
      rows := rows + row;
    }
    r := l + ([LoadPtr(PA, SRC)] + rows);
  }

  lemma RunSetup(e: Inputs, s: State, k: nat)
    requires Words13(s) && R(s, SRC) == PA && k < |e.b| && AllWords(e.b)
    ensures var u := Run(e, RowSetup(k), s);
      && Words13(u) && R(u, SRC) == PA && R(u, CB) == 0 && R(u, RDX) == e.b[k] && !u.cf && !u.of && u.t == s.t
  {
    hide Run;
    RunSnoc(e, [LoadPtr(PB, 2)] + [LoadM(2, k, RDX)], XorR(CB), s);
    RunSnoc(e, [LoadPtr(PB, 2)], LoadM(2, k, RDX), s);
    RunOne(e, LoadPtr(PB, 2), s);
  }

  /** After k rows the low n + k words are the product by the low k words of b. */
  ghost predicate MulInv(e: Inputs, s: State, n: nat, k: nat) {
    && Words13(s) && R(s, SRC) == PA && |s.t| == 2 * n + 1 && |e.a| == |e.b| == n && AllWords(e.a) && AllWords(e.b) && k <= n
    && (k > 0 ==> Num(s.t[..n + k]) == Mul(Num(e.a), Num(e.b[..k])))
  }

  lemma FirstRow(e: Inputs, s: State, u: State, n: nat)
    requires MulInv(e, s, n, 0) && ProductDone(e, s, u, true, 0, 0, n) && n > 0 && R(s, RDX) == e.b[0]
    ensures MulInv(e, u, n, 1)
  {
    hide Num, Mul, WPow, Words13;
    assert u.t[0..0 + n + 1] == u.t[..n + 1] && e.a[0..0 + n] == e.a && e.b[..1] == [] + [e.b[0]];
    NumSnoc([], e.b[0]);
    EmptyNum();
    assert WPow(0) == 1 by {
      One();
    }
    MulUnit(e.b[0]);
    MulComm(e.b[0], Num(e.a));
  }

  lemma One()
    ensures WPow(0) == 1
  {
  }

  lemma LaterRow(e: Inputs, s: State, u: State, n: nat, k: nat)
    requires MulInv(e, s, n, k) && 0 < k < n && ProductDone(e, s, u, false, 0, k, n) && R(s, RDX) == e.b[k]
    ensures MulInv(e, u, n, k + 1)
  {
    hide Num, Mul, WPow, Words13, R;
    var a, low, x := Num(e.a), s.t[..k], e.b[k];
    assert e.a[0..0 + n] == e.a && e.b[..k + 1] == e.b[..k] + [x];
    assert s.t[..n + k] == low + s.t[k..k + n] && u.t[..n + (k + 1)] == low + u.t[k..k + n + 1];
    NumAppend(low, s.t[k..k + n]);
    NumAppend(low, u.t[k..k + n + 1]);
    NumSnoc(e.b[..k], x);
    MulDistr(Num(s.t[k..k + n]), Mul(x, a), WPow(k));
    MulDistr(Num(e.b[..k]), Mul(x, WPow(k)), a);
    MulAssoc(a, x, WPow(k));
    MulComm(a, x);
  }

  lemma OneMulRow(e: Inputs, s: State, n: nat, k: nat)
    requires MulInv(e, s, n, k) && k < n
    ensures MulInv(e, Run(e, MulRow(k, n), s), n, k + 1)
  {
    hide Run, Num, Mul, WPow, RowSetup, ProductRow, R, ProductDone;
    RunAppend(e, RowSetup(k), ProductRow(k == 0, 0, k, n), s);
    RunSetup(e, s, k);
    var u := Run(e, RowSetup(k), s);
    assert MulInv(e, u, n, k);
    RunProductRow(e, u, k == 0, 0, k, n);
    var w := Run(e, ProductRow(k == 0, 0, k, n), u);
    if k == 0 {
      FirstRow(e, u, w, n);
    } else {
      LaterRow(e, u, w, n, k);
    }
  }

  lemma {:induction false} RunMulRows(e: Inputs, s: State, n: nat, k: nat)
    requires MulInv(e, s, n, 0) && n > 0 && k <= n
    ensures MulInv(e, Run(e, MulRows(k, n), s), n, k)
  {
    hide Run, MulInv, MulRow;
    if k == 0 {
      RunOne(e, ImulN0, s);
    } else {
      RunMulRows(e, s, n, k - 1);
      RunAppend(e, MulRows(k - 1, n), MulRow(k - 1, n), s);
      OneMulRow(e, Run(e, MulRows(k - 1, n), s), n, k - 1);
    }
  }

  /** multiply leaves exactly a * b in t[0..2n) before reduction. */
  lemma RunMultiply(e: Inputs, s: State, n: nat)
    requires Words13(s) && |s.t| == 2 * n + 1 && |e.a| == |e.b| == n > 0 && AllWords(e.a) && AllWords(e.b)
    ensures var u := Run(e, [LoadPtr(PA, SRC)] + MulRows(n, n), s);
      Words13(u) && |u.t| == 2 * n + 1 && Num(u.t[..2 * n]) == Mul(Num(e.a), Num(e.b))
  {
    hide Run, Num, Mul, MulRows;
    RunAppend(e, [LoadPtr(PA, SRC)], MulRows(n, n), s);
    RunOne(e, LoadPtr(PA, SRC), s);
    var u := Run(e, [LoadPtr(PA, SRC)], s);
    assert MulInv(e, u, n, 0);
    RunMulRows(e, u, n, n);
    assert e.b[..n] == e.b;
  }
}
