/**
 tools/gen_rsa_adx16.py, one row: eight products into the register window with two carry
 chains, and the slide that brings in the next word of t.
 */
module AdxRows {
  import opened Words
  import opened Columns
  import opened AdxMachine

  /** Products 0 to j - 1 of a row: the low words on the CF chain, the high ones on the OF chain. */
  function Products(ring: seq<nat>, moff: nat, j: nat): seq<Instr>
    requires |ring| == 9 && j <= 8
  {
    if j == 0 then []
    else Products(ring, moff, j - 1) + [Mulx(SRC, moff + j - 1, LO, ring[8]), Adcx(LO, ring[j - 1])]
         + (if j < 8 then [Adox(ring[8], ring[j])] else [])
  }

  function Row(ring: seq<nat>, moff: nat): seq<Instr>
    requires |ring| == 9
  {
    [XorR(LO)] + Products(ring, moff, 8) + [MovZero(LO), Adox(LO, ring[8]), Adcx(LO, ring[8])]
  }

  function Slide(top: nat, col: nat): seq<Instr> {
    [XorR(LO), AdcxT(col, top), Adox(CB, top), MovZero(CB), Adcx(LO, CB), Adox(LO, CB)]
  }

  method EmitRow(l: seq<Instr>, ring: seq<nat>, moff: nat) returns (r: seq<Instr>)
    requires |ring| == 9
    ensures r == l + Row(ring, moff)
  {
    var c := [];
    for j := 0 to 8
      invariant c == Products(ring, moff, j)
    {
      c := c + [Mulx(SRC, moff + j, LO, ring[8]), Adcx(LO, ring[j])] + (if j < 7 then [Adox(ring[8], ring[j + 1])] else []);
    }
    r := l + ([XorR(LO)] + c + [MovZero(LO), Adox(LO, ring[8]), Adcx(LO, ring[8])]);
  }

  /** Registers the row machinery does not touch, and t. */
  ghost predicate Untouched(s: State, u: State) {
    R(u, CB) == R(s, CB) && R(u, RDX) == R(s, RDX) && R(u, SRC) == R(s, SRC) && u.t == s.t
  }

  /** The window after j products: what the two pending carries add to it is the sum so far. */
  ghost predicate RowInv(e: Inputs, s: State, u: State, ring: seq<nat>, moff: nat, j: nat) {
    && IsRing(ring) && Words13(u) && Untouched(s, u) && j <= 7 && moff + 8 <= |e.m|
    && Num(View(u, ring[..8])) + Mul(Bool(u.cf), WPow(j)) + Mul(Bool(u.of), WPow(j + 1))
       == Num(View(s, ring[..8])) + Mul(R(s, RDX), Num(e.m[moff..moff + j]))
  }

  lemma WordProduct(x: nat, y: nat)
    requires x < W && y < W
    ensures Hi64(MulNat(x, y)) < W - 1 && U64(MulNat(x, y)) < W && U64(Hi64(MulNat(x, y))) == Hi64(MulNat(x, y))
    ensures U64(MulNat(x, y)) + W * Hi64(MulNat(x, y)) == MulNat(x, y)
  {
    hide U64, Hi64, Mul;
    MulBound(x, y, W - 1, W - 1);
    Cut64(MulNat(x, y));
    Low64(Hi64(MulNat(x, y)));
  }

  lemma ViewPut(s: State, ring: seq<nat>, i: nat, v: nat)
    requires IsRing(ring) && i < 8 && |s.regs| == REGS
    ensures View(SetR(s, ring[i], v), ring[..8]) == View(s, ring[..8])[i := v]
  {
  }

  lemma ViewKeep(s: State, ring: seq<nat>, r: nat, v: nat)
    requires IsRing(ring) && |s.regs| == REGS && (r == ring[8] || r == LO || r == CB || r == RDX || r == SRC)
    ensures View(SetR(s, r, v), ring[..8]) == View(s, ring[..8])
  {
  }

  /** adcx: what the carry gains, the register and the old carry have lost. */
  lemma AddCfValue(s: State, dst: nat, x: nat)
    requires Words13(s) && dst < REGS && x < W
    ensures var u := AddCf(s, dst, x);
      Words13(u) && R(u, dst) < W && R(u, dst) + W * Bool(u.cf) == R(s, dst) + x + Bool(s.cf)
  {
  }

  lemma AddOfValue(s: State, dst: nat, x: nat)
    requires Words13(s) && dst < REGS && x < W
    ensures var u := AddOf(s, dst, x);
      Words13(u) && R(u, dst) < W && R(u, dst) + W * Bool(u.of) == R(s, dst) + x + Bool(s.of)
  {
  }

  lemma Weigh(a: int, b: int, x: int, c: int, d: int, p: int, p1: int)
    requires a + W * b == x + c + d && p1 == W * p
    ensures Mul(a, p) + Mul(b, p1) == Mul(x, p) + Mul(c, p) + Mul(d, p)
  {
    assert (a + W * b) * p == a * p + b * (W * p);
    assert (x + c + d) * p == x * p + c * p + d * p;
  }

  lemma RowArith(n0: int, n1: int, n2: int, vj: int, v1: int, vk: int, v2: int, lo: int, hi: int,
                 cf: int, of: int, cf': int, of': int, q: int, mj: int, p: int, p1: int, p2: int)
    requires p1 == W * p && p2 == W * p1
    requires n1 + Mul(vj, p) == n0 + Mul(v1, p) && n2 + Mul(vk, p1) == n1 + Mul(v2, p1)
    requires v1 + W * cf' == vj + lo + cf && v2 + W * of' == vk + hi + of
    requires lo + W * hi == Mul(q, mj)
    ensures n2 + Mul(cf', p1) + Mul(of', p2) == n0 + Mul(cf, p) + Mul(of, p1) + Mul(Mul(q, mj), p)
  {
    hide Mul;
    Weigh(v1, cf', vj, lo, cf, p, p1);
    Weigh(v2, of', vk, hi, of, p1, p2);
    Weigh(lo, hi, Mul(q, mj), 0, 0, p, p1);
    MulUnit(p);
  }

  /** The first three instructions' effect on a window under way. */
  lemma RowStep(e: Inputs, s: State, u: State, ring: seq<nat>, moff: nat, j: nat)
    requires RowInv(e, s, u, ring, moff, j) && j < 7
    requires R(s, SRC) == PM && AllWords(e.m)
    ensures var p := [Mulx(SRC, moff + j, LO, ring[8]), Adcx(LO, ring[j])] + [Adox(ring[8], ring[j + 1])];
      RowInv(e, s, Run(e, p, u), ring, moff, j + 1)
  {
    hide Mul, Num, WPow, U64, Hi64, View, AddCf, AddOf, MulNat, Run;
    var q, mj, T := R(s, RDX), e.m[moff + j], ring[8];
    var lo, hi := U64(MulNat(q, mj)), U64(Hi64(MulNat(q, mj)));
    var u1 := Product(u, q, mj, LO, T);
    var u2 := AddCf(u1, ring[j], lo);
    var u3 := AddOf(u2, ring[j + 1], hi);
    WordProduct(q, mj);
    MulNatIs(q, mj);
    RunRow(e, u, ring, moff, j);
    assert R(u1, LO) == lo && R(u1, T) == hi && Words13(u1);
    AddCfFrame(u1, ring[j], lo);
    AddOfFrame(u2, ring[j + 1], hi);
    AddCfValue(u1, ring[j], lo);
    AddOfValue(u2, ring[j + 1], hi);
    var v := View(u, ring[..8]);
    ViewKeep(u, ring, LO, lo);
    ViewKeep(SetR(u, LO, lo), ring, T, hi);
    ViewPut(u1, ring, j, R(u2, ring[j]));
    ViewPut(u2, ring, j + 1, R(u3, ring[j + 1]));
    ViewFlags(u1, ring, j, u2);
    ViewFlags(u2, ring, j + 1, u3);
    ViewAt(u, ring, j);
    ViewAt(u, ring, j + 1);
    NumUpdate(v, j, R(u2, ring[j]));
    NumUpdate(v[j := R(u2, ring[j])], j + 1, R(u3, ring[j + 1]));
    assert R(u1, ring[j]) == v[j] && R(u2, ring[j + 1]) == v[j + 1];
    WPowNext(j);
    WPowNext(j + 1);
    RowArith(Num(v), Num(v[j := R(u2, ring[j])]), Num(View(u3, ring[..8])), v[j], R(u2, ring[j]),
             v[j + 1], R(u3, ring[j + 1]), lo, hi, Bool(u.cf), Bool(u.of), Bool(u2.cf), Bool(u3.of), q, mj,
             WPow(j), WPow(j + 1), WPow(j + 2));
    NumMore(e.m, moff, j, q);
  }

  lemma WPowNext(j: nat)
    ensures WPow(j + 1) == W * WPow(j)
  {
  }

  /** One more word of the multiplicand. */
  lemma NumMore(m: seq<nat>, moff: nat, j: nat, q: nat)
    requires moff + j < |m|
    ensures Mul(q, Num(m[moff..moff + j + 1]))
         == Mul(q, Num(m[moff..moff + j])) + Mul(Mul(q, m[moff + j]), WPow(j))
  {
    hide Mul, Num, WPow;
    assert m[moff..moff + j + 1] == m[moff..moff + j] + [m[moff + j]];
    NumSnoc(m[moff..moff + j], m[moff + j]);
    MulDistr(Num(m[moff..moff + j]), Mul(m[moff + j], WPow(j)), q);
    MulAssoc(q, m[moff + j], WPow(j));
  }

  lemma ViewAt(s: State, ring: seq<nat>, i: nat)
    requires i < 8 && |ring| == 9
    ensures |View(s, ring[..8])| == 8 && View(s, ring[..8])[i] == R(s, ring[i])
  {
  }

  lemma ViewFlags(s: State, ring: seq<nat>, i: nat, u: State)
    requires |ring| == 9 && i < 8 && u.regs == SetR(s, ring[i], R(u, ring[i])).regs
    ensures View(u, ring[..8]) == View(SetR(s, ring[i], R(u, ring[i])), ring[..8])
  {
  }

  lemma AddCfFrame(s: State, dst: nat, x: nat)
    requires dst < REGS && |s.regs| == REGS
    ensures var u := AddCf(s, dst, x);
      && u.regs == SetR(s, dst, R(u, dst)).regs && u.t == s.t && u.of == s.of
  {
  }

  lemma AddOfFrame(s: State, dst: nat, x: nat)
    requires dst < REGS && |s.regs| == REGS
    ensures var u := AddOf(s, dst, x);
      && u.regs == SetR(s, dst, R(u, dst)).regs && u.t == s.t && u.cf == s.cf
  {
  }

  lemma RunRow(e: Inputs, u: State, ring: seq<nat>, moff: nat, j: nat)
    requires IsRing(ring) && |u.regs| == REGS && R(u, SRC) == PM && j < 7 && moff + j < |e.m|
    ensures var p := [Mulx(SRC, moff + j, LO, ring[8]), Adcx(LO, ring[j])] + [Adox(ring[8], ring[j + 1])];
      var u1 := Product(u, R(u, RDX), e.m[moff + j], LO, ring[8]);
      Run(e, p, u) == AddOf(AddCf(u1, ring[j], U64(MulNat(R(u, RDX), e.m[moff + j]))), ring[j + 1],
                            U64(Hi64(MulNat(R(u, RDX), e.m[moff + j]))))
  {
    hide U64, Hi64, MulNat, Run, AddCf, AddOf;
    var i0, i1, i2 := Mulx(SRC, moff + j, LO, ring[8]), Adcx(LO, ring[j]), Adox(ring[8], ring[j + 1]);
    assert [i0, i1] == [i0] + [i1];
    RunSnoc(e, [i0, i1], i2, u);
    RunSnoc(e, [i0], i1, u);
    RunOne(e, i0, u);
    var lo := U64(MulNat(R(u, RDX), e.m[moff + j]));
    var u1 := Product(u, R(u, RDX), e.m[moff + j], LO, ring[8]);
    AddCfFrame(u1, ring[j], lo);
    assert R(AddCf(u1, ring[j], lo), ring[8]) == R(u1, ring[8]);
  }

  // ----- a whole row

  /** The value the nine words of the ring hold after a row: nothing is lost above them. */
  ghost predicate RowDone(e: Inputs, s: State, u: State, ring: seq<nat>, moff: nat) {
    && IsRing(ring) && Words13(u) && Untouched(s, u) && moff + 8 <= |e.m|
    && Num(View(u, ring[..8])) + Mul(R(u, ring[8]), WPow(8))
       == Num(View(s, ring[..8])) + Mul(R(s, RDX), Num(e.m[moff..moff + 8]))
  }

  lemma TopBound(w: nat, hi: nat, c: nat, v: nat, q: nat, m: nat, p: nat)
    requires v < p && m < p && q < W
    requires w + Mul(hi + c, p) == v + Mul(q, m)
    ensures hi + c < W
  {
    ProductBound(q, m, W - 1, p);
    if hi + c >= W {
      ProductBound(W, p, hi + c, p);
    }
  }

  lemma LastArith(n0: int, n1: int, v7: int, v1: int, lo: int, hi: int, cf: int, of: int, cf': int, top: int,
                  q: int, mj: int, p: int, p1: int)
    requires p1 == W * p
    requires n1 + Mul(v7, p) == n0 + Mul(v1, p) && v1 + W * cf' == v7 + lo + cf
    requires lo + W * hi == Mul(q, mj) && top == hi + (of + cf')
    ensures n1 + Mul(top, p1) == n0 + Mul(cf, p) + Mul(of, p1) + Mul(Mul(q, mj), p)
  {
    hide Mul;
    Weigh(v1, cf', v7, lo, cf, p, p1);
    Weigh(lo, hi, Mul(q, mj), 0, 0, p, p1);
    MulDistr(hi, of + cf', p1);
    MulDistr(of, cf', p1);
    MulUnit(p);
  }

  lemma RunLast(e: Inputs, u: State, ring: seq<nat>, moff: nat)
    requires IsRing(ring) && Words13(u) && R(u, SRC) == PM && moff + 7 < |e.m| && AllWords(e.m)
    ensures var p := [Mulx(SRC, moff + 7, LO, ring[8]), Adcx(LO, ring[7])];
      var u1 := Product(u, R(u, RDX), e.m[moff + 7], LO, ring[8]);
      var u2 := AddCf(u1, ring[7], U64(MulNat(R(u, RDX), e.m[moff + 7])));
      && Run(e, p, u) == u2 && R(u2, ring[8]) == U64(Hi64(MulNat(R(u, RDX), e.m[moff + 7])))
      && u2.of == u.of
  {
    hide U64, Hi64, MulNat, Run, AddCf;
    var i0, i1 := Mulx(SRC, moff + 7, LO, ring[8]), Adcx(LO, ring[7]);
    assert [i0, i1] == [i0] + [i1];
    RunSnoc(e, [i0], i1, u);
    RunOne(e, i0, u);
    AddCfFrame(Product(u, R(u, RDX), e.m[moff + 7], LO, ring[8]), ring[7], U64(MulNat(R(u, RDX), e.m[moff + 7])));
  }

  /** mov, adox, adcx: both carries go into the top word. */
  lemma RunCarries(e: Inputs, u: State, top: nat)
    requires Words13(u) && top < REGS && top != LO && R(u, top) + Bool(u.of) + Bool(u.cf) < W
    ensures var v := Run(e, [MovZero(LO), Adox(LO, top), Adcx(LO, top)], u);
      && Words13(v) && v.t == u.t
      && v.regs == SetR(SetR(u, LO, 0), top, R(u, top) + Bool(u.of) + Bool(u.cf)).regs
  {
    hide Run;
    assert [MovZero(LO), Adox(LO, top), Adcx(LO, top)] == [MovZero(LO)] + [Adox(LO, top)] + [Adcx(LO, top)];
    RunSnoc(e, [MovZero(LO)] + [Adox(LO, top)], Adcx(LO, top), u);
    RunSnoc(e, [MovZero(LO)], Adox(LO, top), u);
    RunOne(e, MovZero(LO), u);
    Low64(R(u, top) + Bool(u.of));
    Low64(R(u, top) + Bool(u.of) + Bool(u.cf));
  }

  /** The last product and the three instructions that gather the carries. */
  lemma RowEnd(e: Inputs, s: State, u: State, ring: seq<nat>, moff: nat)
    requires RowInv(e, s, u, ring, moff, 7) && R(s, SRC) == PM && AllWords(e.m)
    requires Words13(s)
    ensures var p := [Mulx(SRC, moff + 7, LO, ring[8]), Adcx(LO, ring[7])];
      RowDone(e, s, Run(e, [MovZero(LO), Adox(LO, ring[8]), Adcx(LO, ring[8])], Run(e, p, u)), ring, moff)
  {
    hide Mul, Num, WPow, U64, Hi64, View, AddCf, MulNat, Run;
    var q, mj, T := R(s, RDX), e.m[moff + 7], ring[8];
    var lo, hi := U64(MulNat(q, mj)), U64(Hi64(MulNat(q, mj)));
    var u1 := Product(u, q, mj, LO, T);
    var u2 := AddCf(u1, ring[7], lo);
    WordProduct(q, mj);
    MulNatIs(q, mj);
    RunLast(e, u, ring, moff);
    AddCfFrame(u1, ring[7], lo);
    AddCfValue(u1, ring[7], lo);
    var v := View(u, ring[..8]);
    ViewKeep(u, ring, LO, lo);
    ViewKeep(SetR(u, LO, lo), ring, T, hi);
    ViewPut(u1, ring, 7, R(u2, ring[7]));
    ViewFlags(u1, ring, 7, u2);
    ViewAt(u, ring, 7);
    NumUpdate(v, 7, R(u2, ring[7]));
    assert R(u1, ring[7]) == v[7];
    WPowNext(7);
    var c := Bool(u.of) + Bool(u2.cf);
    var n1 := Num(View(u2, ring[..8]));
    LastArith(Num(v), n1, v[7], R(u2, ring[7]), lo, hi, Bool(u.cf), Bool(u.of), Bool(u2.cf), hi + c, q, mj,
              WPow(7), WPow(8));
    NumMore(e.m, moff, 7, q);
    RowTop(e, s, ring, moff, n1, hi, c);
    RunCarries(e, u2, T);
    var w := Run(e, [MovZero(LO), Adox(LO, T), Adcx(LO, T)], u2);
    ViewKeep(u2, ring, LO, 0);
    ViewKeep(SetR(u2, LO, 0), ring, T, hi + c);
    ViewRegs(w, SetR(SetR(u2, LO, 0), T, hi + c), ring);
  }

  lemma ViewRegs(s: State, u: State, ring: seq<nat>)
    requires s.regs == u.regs && |ring| == 9
    ensures View(s, ring[..8]) == View(u, ring[..8])
  {
  }

  lemma ViewWords(s: State, ring: seq<nat>)
    requires Words13(s) && |ring| == 9
    ensures AllWords(View(s, ring[..8])) && |View(s, ring[..8])| == 8
  {
  }

  lemma RowTop(e: Inputs, s: State, ring: seq<nat>, moff: nat, n1: nat, hi: nat, c: nat)
    requires Words13(s) && |ring| == 9 && moff + 8 <= |e.m| && AllWords(e.m)
    requires n1 + Mul(hi + c, WPow(8)) == Num(View(s, ring[..8])) + Mul(R(s, RDX), Num(e.m[moff..moff + 8]))
    ensures hi + c < W
  {
    hide Num, View, Mul;
    ViewWords(s, ring);
    NumBound(View(s, ring[..8]));
    NumBound(e.m[moff..moff + 8]);
    TopBound(n1, hi, c, Num(View(s, ring[..8])), R(s, RDX), Num(e.m[moff..moff + 8]), WPow(8));
  }

  lemma ProductsStep(ring: seq<nat>, moff: nat, j: nat)
    requires |ring| == 9 && 0 < j < 8
    ensures Products(ring, moff, j) == Products(ring, moff, j - 1)
            + ([Mulx(SRC, moff + j - 1, LO, ring[8]), Adcx(LO, ring[j - 1])] + [Adox(ring[8], ring[j])])
  {
  }

  lemma RunNothing(e: Inputs, ring: seq<nat>, moff: nat, u: State)
    requires |ring| == 9
    ensures Run(e, Products(ring, moff, 0), u) == u
  {
  }

  lemma {:induction false} RunProducts(e: Inputs, s: State, u: State, ring: seq<nat>, moff: nat, j: nat)
    requires |ring| == 9 && RowInv(e, s, u, ring, moff, 0) && j <= 7 && R(s, SRC) == PM && AllWords(e.m)
    ensures RowInv(e, s, Run(e, Products(ring, moff, j), u), ring, moff, j)
  {
    hide RowInv, Run, Words13, AllWords, Products, R;
    if j == 0 {
      RunNothing(e, ring, moff, u);
    } else {
      RunProducts(e, s, u, ring, moff, j - 1);
      ProductsStep(ring, moff, j);
      RunAppend(e, Products(ring, moff, j - 1),
                [Mulx(SRC, moff + j - 1, LO, ring[8]), Adcx(LO, ring[j - 1])] + [Adox(ring[8], ring[j])], u);
      RowStep(e, s, Run(e, Products(ring, moff, j - 1), u), ring, moff, j - 1);
    }
  }

  lemma RowStart(e: Inputs, s: State, ring: seq<nat>, moff: nat)
    requires IsRing(ring) && Words13(s) && moff + 8 <= |e.m|
    ensures RowInv(e, s, Run(e, [XorR(LO)], s), ring, moff, 0)
  {
    hide View;
    RunOne(e, XorR(LO), s);
    ViewKeep(s, ring, LO, 0);
    ViewRegs(Run(e, [XorR(LO)], s), SetR(s, LO, 0), ring);
    assert e.m[moff..moff + 0] == [];
    EmptyNum();
    MulUnit(WPow(0));
    MulUnit(WPow(1));
    MulUnit(R(s, RDX));
  }

  /** A row adds the multiplier times eight words of the modulus to the window, losing no carry. */
  lemma RunRowCode(e: Inputs, s: State, ring: seq<nat>, moff: nat)
    requires IsRing(ring) && Words13(s) && moff + 8 <= |e.m| && AllWords(e.m) && R(s, SRC) == PM
    ensures RowDone(e, s, Run(e, Row(ring, moff), s), ring, moff)
  {
    hide RowInv, Run, RowDone, Words13, AllWords, R;
    var x, p7 := [XorR(LO)], Products(ring, moff, 7);
    var last, end := [Mulx(SRC, moff + 7, LO, ring[8]), Adcx(LO, ring[7])], [MovZero(LO), Adox(LO, ring[8]), Adcx(LO, ring[8])];
    assert Row(ring, moff) == x + p7 + last + end;
    RunAppend(e, x + p7 + last, end, s);
    RunAppend(e, x + p7, last, s);
    RunAppend(e, x, p7, s);
    RowStart(e, s, ring, moff);
    RunProducts(e, s, Run(e, x, s), ring, moff, 7);
    RowEnd(e, s, Run(e, p7, Run(e, x, s)), ring, moff);
  }

  // ----- the slide

  /** T := t[col] + T + CB, CB := the carry out, which is at most one. */
  ghost predicate SlideDone(s: State, u: State, top: nat, col: nat) {
    && Words13(u) && u.t == s.t && R(u, CB) <= 1 && col < |s.t|
    && R(u, top) + W * R(u, CB) == s.t[col] + R(s, top) + R(s, CB)
    && (forall r | 0 <= r < REGS && r != LO && r != CB && r != top :: R(u, r) == R(s, r))
  }

  lemma RunSlide(e: Inputs, s: State, top: nat, col: nat)
    requires Words13(s) && top < REGS && top != LO && top != CB && col < |s.t| && R(s, CB) <= 1
    ensures SlideDone(s, Run(e, Slide(top, col), s), top, col)
  {
    hide Run, AddCf, AddOf;
    var i1, i2, i3 := XorR(LO), AdcxT(col, top), Adox(CB, top);
    var end := [MovZero(CB)] + [Adcx(LO, CB)] + [Adox(LO, CB)];
    assert Slide(top, col) == [i1] + [i2] + [i3] + end;
    RunAppend(e, [i1] + [i2] + [i3], end, s);
    RunSnoc(e, [i1] + [i2], i3, s);
    RunSnoc(e, [i1], i2, s);
    RunOne(e, i1, s);
    var s1 := Exec(e, i1, s);
    var s2 := AddCf(s1, top, s.t[col]);
    var s3 := AddOf(s2, top, R(s, CB));
    AddCfFrame(s1, top, s.t[col]);
    AddOfFrame(s2, top, R(s, CB));
    AddCfValue(s1, top, s.t[col]);
    AddOfValue(s2, top, R(s, CB));
    assert R(s2, CB) == R(s, CB) && R(s3, LO) == 0;
    CarryRegister(e, s3);
  }

  /** mov, adcx, adox: both carries into CB. */
  lemma CarryRegister(e: Inputs, s: State)
    requires Words13(s) && R(s, LO) == 0
    ensures var u := Run(e, [MovZero(CB)] + [Adcx(LO, CB)] + [Adox(LO, CB)], s);
      Words13(u) && u.t == s.t && u.regs == SetR(s, CB, Bool(s.cf) + Bool(s.of)).regs
  {
    hide Run, U64;
    RunSnoc(e, [MovZero(CB)] + [Adcx(LO, CB)], Adox(LO, CB), s);
    RunSnoc(e, [MovZero(CB)], Adcx(LO, CB), s);
    RunOne(e, MovZero(CB), s);
    Low64(Bool(s.cf));
    Low64(Bool(s.cf) + Bool(s.of));
  }
}
