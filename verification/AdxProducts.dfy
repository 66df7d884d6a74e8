/**
 tools/gen_rsa_adx16.py, one row of a product: a word times a run of words, added into t on
 two carry chains, for multiply's rows and for square's cross rows.
 */
module AdxProducts {
  import opened Words
  import opened Columns
  import opened AdxMachine
  import opened AdxRows
  import opened AdxReduce
  import opened AdxBlocks
  import opened AdxRedc

  // ----- the emitted code

  /** Term i of a row: the first row of a product stores into t without reading it. */
  function Term(first: bool, base: nat, col: nat, i: nat): seq<Instr> {
    [Mulx(SRC, base + i, LO, i % 2)]
    + (if first then (if i > 0 then [Adcx((i - 1) % 2, LO)] else [])
       else [AdcxT(col + i, LO)] + (if i > 0 then [Adox((i - 1) % 2, LO)] else []))
    + [StoreT(LO, col + i)]
  }

  function Terms(first: bool, base: nat, col: nat, i: nat): seq<Instr> {
    if i == 0 then [] else Terms(first, base, col, i - 1) + Term(first, base, col, i - 1)
  }

  function ProductRow(first: bool, base: nat, col: nat, len: nat): seq<Instr>
    requires len > 0
  {
    Terms(first, base, col, len)
    + [Adcx(CB, (len - 1) % 2), Adox(CB, (len - 1) % 2), StoreT((len - 1) % 2, col + len)]
  }

  method EmitProductRow(l: seq<Instr>, first: bool, base: nat, col0: nat, len: nat) returns (r: seq<Instr>)
    requires len > 0
    ensures r == l + ProductRow(first, base, col0, len)
  {
    var code, hiPrev: int := [], -1;
    for i := 0 to len
      invariant code == Terms(first, base, col0, i)
      invariant hiPrev == if i == 0 then -1 else (i - 1) % 2
    {
      var col, h := col0 + i, i % 2;
      var term := [Mulx(SRC, base + i, LO, h)];
      if first {
        if hiPrev >= 0 {
          term := term + [Adcx(hiPrev, LO)];
        }
      } else {
        var add := [AdcxT(col, LO)];
        if hiPrev >= 0 {
          add := add + [Adox(hiPrev, LO)];
        }
        term := term + add;
      }
      term := term + [StoreT(LO, col)];
      assert term == Term(first, base, col0, i);
      code := code + term;
      hiPrev := h;
    }
    r := l + (code + [Adcx(CB, hiPrev), Adox(CB, hiPrev), StoreT(hiPrev, col0 + len)]);
  }

  // ----- one term

  function Pending(s: State, i: nat): nat { if i == 0 then 0 else R(s, (i - 1) % 2) }

  function Held(s: State, first: bool, c: nat): nat { if first then 0 else At(s.t, c) }

  ghost predicate Same(s: State, u: State) {
    R(u, SRC) == R(s, SRC) && R(u, RDX) == R(s, RDX) && R(u, CB) == R(s, CB) && |u.t| == |s.t|
  }

  /** A carry can be pending only where an addition has been made. */
  ghost predicate Quiet(s: State, first: bool, i: nat) { (first ==> !s.of) && (i == 0 ==> !s.cf && !s.of) }

  /** The word stored, the new high word and the carries out are what the term adds. */
  ghost predicate TermDone(s: State, u: State, first: bool, col: nat, i: nat, p: nat) {
    && Words13(u) && Same(s, u) && col + i < |s.t| && u.t == s.t[col + i := u.t[col + i]] && Quiet(u, first, i + 1)
    && u.t[col + i] + W * (Pending(u, i + 1) + Bool(u.cf) + Bool(u.of))
       == Held(s, first, col + i) + Pending(s, i) + Bool(s.cf) + Bool(s.of) + p
  }

  /** Where LO goes next: nothing above it changes but LO, the carries and the stored word. */
  lemma StoreLo(e: Inputs, s: State, c: nat)
    requires Words13(s) && c < |s.t|
    ensures var u := Exec(e, StoreT(LO, c), s);
      Words13(u) && u.regs == s.regs && u.cf == s.cf && u.of == s.of && u.t == s.t[c := R(s, LO)]
  {
  }

  /** s1 is the state after mulx. */
  lemma AfterMulx(e: Inputs, s: State, j: nat, i: nat)
    requires Words13(s) && R(s, SRC) == PA && j < |e.a| && AllWords(e.a)
    ensures var u := Exec(e, Mulx(SRC, j, LO, i % 2), s);
      && Words13(u) && Same(s, u) && u.t == s.t && u.cf == s.cf && u.of == s.of
      && (i > 0 ==> R(u, (i - 1) % 2) == R(s, (i - 1) % 2))
      && R(u, LO) + W * R(u, i % 2) == MulNat(R(s, RDX), e.a[j])
  {
    hide U64, Hi64, MulNat;
    WordProduct(R(s, RDX), e.a[j]);
    if i > 0 {
      Alternate(i);
    }
  }

  lemma Alternate(i: nat)
    requires i > 0
    ensures (i - 1) % 2 != i % 2
  {
  }

  lemma TermFirst(e: Inputs, s: State, base: nat, col: nat, i: nat)
    requires Words13(s) && R(s, SRC) == PA && base + i < |e.a| && AllWords(e.a) && col + i < |s.t| && Quiet(s, true, i)
    ensures TermDone(s, Run(e, Term(true, base, col, i), s), true, col, i, MulNat(R(s, RDX), e.a[base + i]))
  {
    hide Run, Exec, U64, Hi64, MulNat, AddCf, AddOf, R, Words13;
    var i1, i3 := Mulx(SRC, base + i, LO, i % 2), StoreT(LO, col + i);
    AfterMulx(e, s, base + i, i);
    RunOne(e, i1, s);
    var s1 := Exec(e, i1, s);
    if i == 0 {
      assert Term(true, base, col, i) == [i1] + [i3];
      RunSnoc(e, [i1], i3, s);
      StoreLo(e, s1, col + i);
      RegsSame(s1, Exec(e, i3, s1));
    } else {
      var i2 := Adcx((i - 1) % 2, LO);
      assert Term(true, base, col, i) == [i1] + [i2] + [i3];
      RunSnoc(e, [i1] + [i2], i3, s);
      RunSnoc(e, [i1], i2, s);
      var s2 := AddCf(s1, LO, R(s1, (i - 1) % 2));
      assert s2 == Exec(e, i2, s1) by {
        AdcxIs(e, s1, (i - 1) % 2);
      }
      WordReg(s1, (i - 1) % 2);
      LoCf(s1, R(s1, (i - 1) % 2), i);
      StoreLo(e, s2, col + i);
      RegsSame(s2, Exec(e, i3, s2));
    }
  }

  lemma RegsSame(s: State, u: State)
    requires s.regs == u.regs
    ensures forall r: nat :: R(u, r) == R(s, r)
  {
  }

  lemma AdcxIs(e: Inputs, s: State, r: nat)
    ensures Exec(e, Adcx(r, LO), s) == AddCf(s, LO, R(s, r)) && Exec(e, Adox(r, LO), s) == AddOf(s, LO, R(s, r))
  {
  }

  lemma AdcxTIs(e: Inputs, s: State, c: nat)
    requires c < |s.t|
    ensures Exec(e, AdcxT(c, LO), s) == AddCf(s, LO, s.t[c])
  {
  }

  lemma LoCf(s: State, x: nat, i: nat)
    requires Words13(s) && x < W
    ensures var u := AddCf(s, LO, x);
      && Words13(u) && Same(s, u) && u.t == s.t && u.of == s.of
      && R(u, i % 2) == R(s, i % 2) && (i > 0 ==> R(u, (i - 1) % 2) == R(s, (i - 1) % 2))
      && R(u, LO) + W * Bool(u.cf) == R(s, LO) + x + Bool(s.cf)
  {
    hide AddCf;
    AddCfFrame(s, LO, x);
    AddCfValue(s, LO, x);
  }

  lemma LoOf(s: State, x: nat, i: nat)
    requires Words13(s) && x < W
    ensures var u := AddOf(s, LO, x);
      && Words13(u) && Same(s, u) && u.t == s.t && u.cf == s.cf && R(u, i % 2) == R(s, i % 2)
      && R(u, LO) + W * Bool(u.of) == R(s, LO) + x + Bool(s.of)
  {
    hide AddOf;
    AddOfFrame(s, LO, x);
    AddOfValue(s, LO, x);
  }

  lemma TermLater(e: Inputs, s: State, base: nat, col: nat, i: nat)
    requires Words13(s) && R(s, SRC) == PA && base + i < |e.a| && AllWords(e.a) && col + i < |s.t| && Quiet(s, false, i)
    ensures TermDone(s, Run(e, Term(false, base, col, i), s), false, col, i, MulNat(R(s, RDX), e.a[base + i]))
  {
    hide Run, Exec, U64, Hi64, MulNat, AddCf, AddOf, R;
    var i1, i2, i4 := Mulx(SRC, base + i, LO, i % 2), AdcxT(col + i, LO), StoreT(LO, col + i);
    AfterMulx(e, s, base + i, i);
    RunOne(e, i1, s);
    RunSnoc(e, [i1], i2, s);
    var s1 := Exec(e, i1, s);
    var s2 := AddCf(s1, LO, s.t[col + i]);
    AdcxTIs(e, s1, col + i);
    LoCf(s1, s.t[col + i], i);
    if i == 0 {
      assert Term(false, base, col, i) == [i1] + [i2] + [i4];
      RunSnoc(e, [i1] + [i2], i4, s);
      StoreLo(e, s2, col + i);
      RegsSame(s2, Exec(e, i4, s2));
    } else {
      var i3 := Adox((i - 1) % 2, LO);
      assert Term(false, base, col, i) == [i1] + [i2] + [i3] + [i4];
      RunSnoc(e, [i1] + [i2] + [i3], i4, s);
      RunSnoc(e, [i1] + [i2], i3, s);
      var s3 := AddOf(s2, LO, R(s2, (i - 1) % 2));
      AdcxIs(e, s2, (i - 1) % 2);
      WordReg(s2, (i - 1) % 2);
      LoOf(s2, R(s2, (i - 1) % 2), i);
      StoreLo(e, s3, col + i);
      RegsSame(s3, Exec(e, i4, s3));
    }
  }

  // ----- a row

  function Below(s: State, first: bool, col: nat, i: nat): nat
    requires col + i <= |s.t|
  {
    if first then 0 else Num(s.t[col..col + i])
  }

  /** After i terms: the stored words and what is pending are the words before plus the product so far. */
  ghost predicate TermsInv(e: Inputs, s: State, u: State, first: bool, base: nat, col: nat, i: nat) {
    && Words13(u) && Same(s, u) && Quiet(u, first, i) && base + i <= |e.a| && col + i <= |s.t|
    && u.t[..col] == s.t[..col] && u.t[col + i..] == s.t[col + i..]
    && Num(u.t[col..col + i]) + Mul(Pending(u, i) + Bool(u.cf) + Bool(u.of), WPow(i))
       == Below(s, first, col, i) + Mul(R(s, RDX), Num(e.a[base..base + i]))
  }

  lemma TermArith(n: int, v: int, c: int, low: int, held: int, c': int, x: int, m: int, p: int, p1: int, q: int)
    requires p1 == W * p && v + W * c' == held + c + q && q == Mul(x, m)
    ensures n + Mul(c, p) == low ==> n + Mul(v, p) + Mul(c', p1) == low + Mul(held, p) + Mul(Mul(x, m), p)
  {
    assert (v + W * c') * p == v * p + c' * (W * p);
    assert (held + c + q) * p == held * p + c * p + q * p;
  }

  lemma TermsStep(e: Inputs, s: State, u: State, w: State, first: bool, base: nat, col: nat, i: nat)
    requires TermsInv(e, s, u, first, base, col, i) && base + i < |e.a|
    requires TermDone(u, w, first, col, i, MulNat(R(u, RDX), e.a[base + i]))
    ensures TermsInv(e, s, w, first, base, col, i + 1)
  {
    hide Num, Mul, WPow, R, Pending;
    var k, x := col + i, R(s, RDX);
    assert u.t[k] == u.t[k..][0] == s.t[k..][0] == s.t[k];
    assert w.t[col..k + 1] == u.t[col..k] + [w.t[k]] && s.t[col..k + 1] == s.t[col..k] + [s.t[k]];
    assert w.t[k + 1..] == u.t[k..][1..] == s.t[k..][1..];
    assert w.t[..col] == u.t[..col];
    NumSnoc(u.t[col..k], w.t[k]);
    NumSnoc(s.t[col..k], s.t[k]);
    NumMore(e.a, base, i, x);
    WPowNext(i);
    MulNatIs(x, e.a[base + i]);
    MulUnit(WPow(i));
    var c, c' := Pending(u, i) + Bool(u.cf) + Bool(u.of), Pending(w, i + 1) + Bool(w.cf) + Bool(w.of);
    TermArith(Num(u.t[col..k]), w.t[k], c, Below(s, first, col, i) + Mul(x, Num(e.a[base..base + i])), Held(u, first, k), c',
              x, e.a[base + i], WPow(i), WPow(i + 1), Mul(x, e.a[base + i]));
  }

  lemma OneTerm(e: Inputs, s: State, first: bool, base: nat, col: nat, i: nat)
    requires Words13(s) && R(s, SRC) == PA && base + i < |e.a| && AllWords(e.a) && col + i < |s.t| && Quiet(s, first, i)
    ensures TermDone(s, Run(e, Term(first, base, col, i), s), first, col, i, MulNat(R(s, RDX), e.a[base + i]))
  {
    hide Run, TermDone, MulNat, Term, R, Words13;
    if first {
      TermFirst(e, s, base, col, i);
    } else {
      TermLater(e, s, base, col, i);
    }
  }

  lemma TermsReady(e: Inputs, s: State, u: State, first: bool, base: nat, col: nat, i: nat)
    requires TermsInv(e, s, u, first, base, col, i)
    ensures Words13(u) && R(u, SRC) == R(s, SRC) && |u.t| == |s.t| && Quiet(u, first, i)
  {
  }

  lemma TermsStart(e: Inputs, s: State, first: bool, base: nat, col: nat)
    requires Words13(s) && !s.cf && !s.of && base <= |e.a| && col <= |s.t|
    ensures TermsInv(e, s, s, first, base, col, 0)
  {
    assert s.t[col..col + 0] == [] && e.a[base..base + 0] == [];
    EmptyNum();
    MulUnit(WPow(0));
    MulUnit(R(s, RDX));
  }

  lemma {:induction false} RunTerms(e: Inputs, s: State, first: bool, base: nat, col: nat, i: nat)
    requires Words13(s) && R(s, SRC) == PA && AllWords(e.a) && !s.cf && !s.of
    requires base + i <= |e.a| && col + i <= |s.t|
    ensures TermsInv(e, s, Run(e, Terms(first, base, col, i), s), first, base, col, i)
  {
    hide Run, TermsInv, TermDone, Term, R, Words13, AllWords, MulNat;
    if i == 0 {
      RunOne(e, ImulN0, s);
      TermsStart(e, s, first, base, col);
    } else {
      RunTerms(e, s, first, base, col, i - 1);
      var u := Run(e, Terms(first, base, col, i - 1), s);
      RunAppend(e, Terms(first, base, col, i - 1), Term(first, base, col, i - 1), s);
      TermsReady(e, s, u, first, base, col, i - 1);
      OneTerm(e, u, first, base, col, i - 1);
      TermsStep(e, s, u, Run(e, Term(first, base, col, i - 1), u), first, base, col, i - 1);
    }
  }

  /** A row adds a word times a run of words at its column; the word above takes the carry. */
  ghost predicate ProductDone(e: Inputs, s: State, u: State, first: bool, base: nat, col: nat, len: nat) {
    && Words13(u) && R(u, SRC) == R(s, SRC) && |u.t| == |s.t| && base + len <= |e.a| && col + len < |s.t|
    && u.t[..col] == s.t[..col] && u.t[col + len + 1..] == s.t[col + len + 1..]
    && Num(u.t[col..col + len + 1]) == Below(s, first, col, len) + Mul(R(s, RDX), Num(e.a[base..base + len]))
  }

  /** adcx, adox, mov: the pending word takes both carries. */
  lemma RunGather(e: Inputs, s: State, h: nat, c: nat)
    requires Words13(s) && h < 2 && R(s, CB) == 0 && c < |s.t| && R(s, h) + Bool(s.cf) + Bool(s.of) < W
    ensures var u := Run(e, [Adcx(CB, h), Adox(CB, h), StoreT(h, c)], s);
      Words13(u) && R(u, SRC) == R(s, SRC) && u.t == s.t[c := R(s, h) + Bool(s.cf) + Bool(s.of)]
  {
    hide Run, U64;
    assert [Adcx(CB, h), Adox(CB, h), StoreT(h, c)] == [Adcx(CB, h)] + [Adox(CB, h)] + [StoreT(h, c)];
    RunSnoc(e, [Adcx(CB, h)] + [Adox(CB, h)], StoreT(h, c), s);
    RunSnoc(e, [Adcx(CB, h)], Adox(CB, h), s);
    RunOne(e, Adcx(CB, h), s);
    Low64(R(s, h) + Bool(s.cf));
    Low64(R(s, h) + Bool(s.cf) + Bool(s.of));
  }

  lemma GatherFits(e: Inputs, s: State, u: State, first: bool, base: nat, col: nat, len: nat)
    requires TermsInv(e, s, u, first, base, col, len) && Words13(s) && AllWords(e.a) && len > 0
    ensures Pending(u, len) + Bool(u.cf) + Bool(u.of) < W
  {
    hide Num, Mul, Pending, R, WPow;
    NumBound(s.t[col..col + len]);
    NumBound(e.a[base..base + len]);
    WordReg(s, RDX);
    TopBound(Num(u.t[col..col + len]), Pending(u, len), Bool(u.cf) + Bool(u.of), Below(s, first, col, len),
             R(s, RDX), Num(e.a[base..base + len]), WPow(len));
  }

  lemma RunProductRow(e: Inputs, s: State, first: bool, base: nat, col: nat, len: nat)
    requires Words13(s) && R(s, SRC) == PA && R(s, CB) == 0 && AllWords(e.a) && !s.cf && !s.of
    requires len > 0 && base + len <= |e.a| && col + len < |s.t|
    ensures ProductDone(e, s, Run(e, ProductRow(first, base, col, len), s), first, base, col, len)
  {
    hide Run, TermsInv, Terms, R, AllWords, Words13;
    var h := (len - 1) % 2;
    RunTerms(e, s, first, base, col, len);
    RunAppend(e, Terms(first, base, col, len), [Adcx(CB, h), Adox(CB, h), StoreT(h, col + len)], s);
    var u := Run(e, Terms(first, base, col, len), s);
    GatherFits(e, s, u, first, base, col, len);
    TermsReady(e, s, u, first, base, col, len);
    TermsSame(e, s, u, first, base, col, len);
    RunGather(e, u, h, col + len);
    ProductEnds(e, s, u, Run(e, [Adcx(CB, h), Adox(CB, h), StoreT(h, col + len)], u), first, base, col, len);
  }

  lemma TermsSame(e: Inputs, s: State, u: State, first: bool, base: nat, col: nat, i: nat)
    requires TermsInv(e, s, u, first, base, col, i)
    ensures R(u, CB) == R(s, CB)
  {
  }

  lemma ProductEnds(e: Inputs, s: State, u: State, w: State, first: bool, base: nat, col: nat, len: nat)
    requires TermsInv(e, s, u, first, base, col, len) && len > 0 && col + len < |s.t|
    requires Words13(w) && R(w, SRC) == R(u, SRC)
    requires w.t == u.t[col + len := Pending(u, len) + Bool(u.cf) + Bool(u.of)]
    ensures ProductDone(e, s, w, first, base, col, len)
  {
    hide Num, Mul, WPow, R, Pending, Words13;
    var k := col + len;
    assert w.t[..col] == u.t[..col] && w.t[k + 1..] == u.t[k..][1..] == s.t[k..][1..];
    assert w.t[col..k + 1] == u.t[col..k] + [w.t[k]];
    NumSnoc(u.t[col..k], w.t[k]);
  }
}
