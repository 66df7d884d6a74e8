/**
 tools/gen_rsa_adx16.py, redc: a block of eight digits, and all the blocks.
 */
module AdxBlocks {
  import opened Words
  import opened Columns
  import opened AdxMachine
  import opened AdxRows
  import opened AdxReduce

  function Min(x: int, y: int): int { if x <= y then x else y }

  function Chunk(m: seq<nat>, c: nat): seq<nat> { if 8 * c + 8 <= |m| then m[8 * c..8 * c + 8] else [] }

  /** What the first i rows of a block add: row j adds digit j mod 8 times its eight words at column j. */
  function RowsSum(d: seq<nat>, m: seq<nat>, i: nat): nat {
    if i == 0 then 0 else RowsSum(d, m, i - 1) + RowTerm(d, m, i - 1)
  }

  function RowTerm(d: seq<nat>, m: seq<nat>, j: nat): nat {
    MulNat(MulNat(At(d, j % 8), Num(Chunk(m, j / 8))), WPow(j))
  }

  lemma {:induction false} RowsSumExtend(d: seq<nat>, q: nat, m: seq<nat>, i: nat)
    requires i <= |d| < 8
    ensures RowsSum(d + [q], m, i) == RowsSum(d, m, i)
  {
    if i > 0 {
      RowsSumExtend(d, q, m, i - 1);
      SmallMod(i - 1, 8);
      hide MulNat, Num, WPow, Chunk;
    }
  }

  /** Eight rows are eight digits times one chunk. */
  lemma {:induction false} ChunkRows(d: seq<nat>, m: seq<nat>, c: nat, r: nat)
    requires |d| == 8 && r <= 8
    ensures RowsSum(d, m, 8 * c + r) == RowsSum(d, m, 8 * c) + Mul(Mul(Num(d[..r]), Num(Chunk(m, c))), WPow(8 * c))
  {
    hide Mul, Num, WPow, Chunk, RowTerm;
    if r == 0 {
      assert d[..0] == [];
      EmptyNum();
      MulUnit(Num(Chunk(m, c)));
      MulUnit(WPow(8 * c));
    } else {
      ChunkRows(d, m, c, r - 1);
      var x, n, p := d[r - 1], Num(Chunk(m, c)), WPow(8 * c);
      RowTermAt(d, m, c, r - 1);
      assert d[..r] == d[..r - 1] + [x];
      NumSnoc(d[..r - 1], x);
      MulDistr(Num(d[..r - 1]), Mul(x, WPow(r - 1)), n);
      MulDistr(Mul(Num(d[..r - 1]), n), Mul(Mul(x, WPow(r - 1)), n), p);
      Reorder(x, WPow(r - 1), n, p, WPow(8 * c + r - 1));
    }
  }

  lemma RowTermAt(d: seq<nat>, m: seq<nat>, c: nat, r: nat)
    requires |d| == 8 && r < 8
    ensures RowTerm(d, m, 8 * c + r) == Mul(Mul(d[r], Num(Chunk(m, c))), WPow(8 * c + r))
    ensures WPow(8 * c + r) == Mul(WPow(r), WPow(8 * c))
  {
    hide Num, WPow, Mul, Chunk;
    WPowAdd(r, 8 * c);
    DivUnique(8 * c + r, 8, c, r);
    assert At(d, r) == d[r];
    MulNatIs(d[r], Num(Chunk(m, c)));
    MulNatIs(MulNat(d[r], Num(Chunk(m, c))), WPow(8 * c + r));
  }

  lemma Reorder(x: int, w: int, n: int, p: int, wp: int)
    requires wp == Mul(w, p)
    ensures Mul(Mul(x, n), wp) == Mul(Mul(Mul(x, w), n), p)
  {
    assert x * n * (w * p) == x * w * n * p;
  }

  lemma {:induction false} ChunksSum(d: seq<nat>, m: seq<nat>, c: nat)
    requires |d| == 8 && 8 * c <= |m|
    ensures RowsSum(d, m, 8 * c) == Mul(Num(d), Num(m[..8 * c]))
  {
    hide Mul, Num, WPow, RowTerm;
    if c == 0 {
      assert m[..0] == [];
      EmptyNum();
      MulUnit(Num(d));
    } else {
      hide RowsSum;
      ChunksSum(d, m, c - 1);
      ChunkRows(d, m, c - 1, 8);
      assert d[..8] == d && m[..8 * c] == m[..8 * (c - 1)] + Chunk(m, c - 1);
      NumAppend(m[..8 * (c - 1)], Chunk(m, c - 1));
      MulDistr(Num(m[..8 * (c - 1)]), Mul(Num(Chunk(m, c - 1)), WPow(8 * (c - 1))), Num(d));
      MulAssoc(Num(d), Num(Chunk(m, c - 1)), WPow(8 * (c - 1)));
    }
  }

  // ----- the rows of a block

  /** The reduced number under way: stored words, the window, its carry and the words above. */
  ghost function U(s: State, ring: seq<nat>, lo: nat, start: nat): nat
    requires |ring| == 9 && lo <= start && start + 8 <= |s.t|
  {
    Num(s.t[lo..start]) + MulNat(Y(s, ring, start), WPow(start - lo))
  }

  /** After i rows of block b: digits parked, and what the rows added to the words from column 8b. */
  ghost predicate BlockInv(e: Inputs, t: seq<nat>, s: State, ring: seq<nat>, b: nat, B: nat, i: nat) {
    && |ring| == 9 && IsRing(RotN(ring, i)) && Ready(e, s) && |e.m| == 8 * B && |s.t| == |t| == 16 * B + 1 && b < B
    && i <= 8 * B && s.t[..8 * b] == t[..8 * b]
    && var g := Min(i, 8);
      Mul(U(s, RotN(ring, i), 8 * b + g, 8 * b + i), WPow(g)) == Num(t[8 * b..]) + RowsSum(s.t[8 * b..8 * b + g], e.m, i)
  }

  lemma UEmpty(s: State, ring: seq<nat>, k: nat)
    requires |ring| == 9 && k + 8 <= |s.t|
    ensures U(s, ring, k, k) == Y(s, ring, k)
  {
    EmptyNum();
    assert s.t[k..k] == [];
    MulUnit(Y(s, ring, k));
  }

  lemma LowArith(y: nat, y': nat, q: nat, m: nat, x: nat, sum: nat, p: nat, p': nat)
    requires p' == W * p && Mul(y, p) == x + sum && W * y' == y + Mul(q, m)
    ensures Mul(y', p') == x + (sum + Mul(Mul(q, m), p))
  {
    assert y' * (W * p) == (W * y') * p;
    assert (y + q * m) * p == y * p + (q * m) * p;
  }

  lemma BlockLowRow(e: Inputs, t: seq<nat>, s: State, ring: seq<nat>, b: nat, B: nat, i: nat)
    requires BlockInv(e, t, s, ring, b, B, i) && i < 8 && DigitInverse(e)
    ensures BlockInv(e, t, Run(e, RowAt(ring, b, i), s), ring, b, B, i + 1)
  {
    hide Run, Num, Mul, WPow, Y, U, RowsSum, MulNat, Ready;
    var k, rg := 8 * b + i, RotN(ring, i);
    ReadyLength(e, s);
    var q := RunLowRow(e, s, rg, k);
    var u := Run(e, LowRow(rg, k), s);
    var d := s.t[8 * b..8 * b + i];
    UEmpty(s, rg, k);
    UEmpty(u, Rotate(rg), k + 1);
    assert u.t[8 * b..8 * b + i + 1] == d + [q];
    RowsSumExtend(d, q, e.m, i);
    LowTerm(d, q, e.m, i);
    WPowNext(i);
    LowArith(Y(s, rg, k), Y(u, Rotate(rg), k + 1), q, Num(e.m[0..8]), Num(t[8 * b..]), RowsSum(d, e.m, i), WPow(i), WPow(i + 1));
    assert u.t[..8 * b] == t[..8 * b];
  }

  lemma ReadyLength(e: Inputs, s: State)
    requires Ready(e, s)
    ensures Words13(s) && AllWords(e.m)
  {
  }

  lemma LowTerm(d: seq<nat>, q: nat, m: seq<nat>, i: nat)
    requires |d| == i < 8 <= |m|
    ensures RowsSum(d + [q], m, i + 1) == RowsSum(d + [q], m, i) + Mul(Mul(q, Num(m[0..8])), WPow(i))
  {
    assert Chunk(m, 0) == m[0..8];
  }

  lemma HighArith(low: nat, v: nat, y: nat, y': nat, q: nat, m: nat, x: nat, sum: nat, p: nat, p': nat, p8: nat, pi: nat)
    requires p' == W * p && pi == Mul(p8, p) && v + W * y' == y + Mul(q, m)
    requires Mul(low + Mul(y, p), p8) == x + sum
    ensures Mul(low + Mul(v, p) + Mul(y', p'), p8) == x + (sum + Mul(Mul(q, m), pi))
  {
    assert v * p + y' * (W * p) == (v + W * y') * p;
    assert (y + q * m) * p == y * p + (q * m) * p;
    assert (low + y * p + q * m * p) * p8 == (low + y * p) * p8 + q * m * p * p8;
    assert q * m * p * p8 == (q * m) * (p8 * p);
  }

  lemma BlockHighRow(e: Inputs, t: seq<nat>, s: State, ring: seq<nat>, b: nat, B: nat, i: nat)
    requires BlockInv(e, t, s, ring, b, B, i) && 8 <= i < 8 * B
    ensures BlockInv(e, t, Run(e, RowAt(ring, b, i), s), ring, b, B, i + 1)
  {
    hide Run, Num, Mul, WPow, Y, RowsSum, Ready, HighRow, LowRow;
    var k, col, rg, lo := 8 * b + i % 8, 8 * b + i, RotN(ring, i), 8 * b + 8;
    ReadyLength(e, s);
    var v := RunHighRow(e, s, rg, k, col, 8 * (i / 8));
    var u := Run(e, HighRow(rg, k, col, 8 * (i / 8)), s);
    var d := s.t[8 * b..8 * b + 8];
    assert u.t[8 * b..8 * b + 8] == d && u.t[..8 * b] == t[..8 * b];
    assert u.t[lo..col + 1] == s.t[lo..col] + [v];
    NumSnoc(s.t[lo..col], v);
    WPowNext(col - lo);
    WPowAdd(8, col - lo);
    HighTerm(d, e.m, i);
    HighArith(Num(s.t[lo..col]), v, Y(s, rg, col), Y(u, Rotate(rg), col + 1), s.t[k], Num(e.m[8 * (i / 8)..8 * (i / 8) + 8]),
              Num(t[8 * b..]), RowsSum(d, e.m, i), WPow(col - lo), WPow(col + 1 - lo), WPow(8), WPow(i));
  }

  lemma HighTerm(d: seq<nat>, m: seq<nat>, i: nat)
    requires |d| == 8 && 8 * (i / 8) + 8 <= |m|
    ensures RowsSum(d, m, i + 1)
         == RowsSum(d, m, i) + Mul(Mul(d[i % 8], Num(m[8 * (i / 8)..8 * (i / 8) + 8])), WPow(i))
  {
  }

  lemma {:induction false} RunRows(e: Inputs, t: seq<nat>, s: State, ring: seq<nat>, b: nat, B: nat, i: nat)
    requires |ring| == 9 && BlockInv(e, t, s, ring, b, B, 0) && i <= 8 * B && DigitInverse(e)
    ensures BlockInv(e, t, Run(e, Rows(ring, b, i), s), ring, b, B, i)
  {
    hide Run, BlockInv, RowAt, DigitInverse;
    if i == 0 {
      RunOne(e, ImulN0, s);
    } else {
      RunRows(e, t, s, ring, b, B, i - 1);
      RunAppend(e, Rows(ring, b, i - 1), RowAt(ring, b, i - 1), s);
      if i - 1 < 8 {
        BlockLowRow(e, t, Run(e, Rows(ring, b, i - 1), s), ring, b, B, i - 1);
      } else {
        BlockHighRow(e, t, Run(e, Rows(ring, b, i - 1), s), ring, b, B, i - 1);
      }
    }
  }

  // ----- into the window and out of it

  ghost predicate Loaded(s: State, u: State, ring: seq<nat>, b: nat, j: nat) {
    && |ring| == 9 && j <= 8 && Words13(u) && u.t == s.t && 8 * b + 8 <= |s.t|
    && (forall i | 0 <= i < j :: R(u, ring[i]) == s.t[8 * b + i])
    && R(u, SRC) == R(s, SRC)
  }

  lemma {:induction false} RunLoads(e: Inputs, s: State, ring: seq<nat>, b: nat, j: nat)
    requires IsRing(ring) && Words13(s) && 8 * b + 8 <= |s.t| && j <= 8
    ensures Loaded(s, Run(e, Loads(ring, b, j), s), ring, b, j)
  {
    if j == 0 {
      RunOne(e, ImulN0, s);
    } else {
      hide Run;
      RunLoads(e, s, ring, b, j - 1);
      RunSnoc(e, Loads(ring, b, j - 1), LoadT(8 * b + j - 1, ring[j - 1]), s);
      LoadedMore(s, Run(e, Loads(ring, b, j - 1), s), ring, b, j - 1);
    }
  }

  lemma LoadedMore(s: State, u: State, ring: seq<nat>, b: nat, j: nat)
    requires IsRing(ring) && Words13(s) && j < 8 && Loaded(s, u, ring, b, j)
    ensures Loaded(s, SetR(u, ring[j], At(u.t, 8 * b + j)), ring, b, j + 1)
  {
  }

  lemma StartBlock(e: Inputs, s: State, ring: seq<nat>, b: nat, B: nat)
    requires IsRing(ring) && Words13(s) && AllWords(e.m) && e.n0 < W && R(s, SRC) == PM
    requires |e.m| == 8 * B && |s.t| == 16 * B + 1 && b < B
    ensures BlockInv(e, s.t, Run(e, Loads(ring, b, 8) + [XorR(CB)], s), ring, b, B, 0)
  {
    hide Run, Num, Mul, WPow, Loads;
    RunLoads(e, s, ring, b, 8);
    RunSnoc(e, Loads(ring, b, 8), XorR(CB), s);
    var u := Run(e, Loads(ring, b, 8), s);
    var w := Run(e, Loads(ring, b, 8) + [XorR(CB)], s);
    ViewKeep(u, ring, CB, 0);
    ViewRegs(w, SetR(u, CB, 0), ring);
    assert View(u, ring[..8]) == s.t[8 * b..8 * b + 8];
    assert s.t[8 * b..] == s.t[8 * b..8 * b + 8] + s.t[8 * b + 8..];
    NumAppend(s.t[8 * b..8 * b + 8], s.t[8 * b + 8..]);
    UEmpty(w, ring, 8 * b);
    MulUnit(U(w, ring, 8 * b, 8 * b));
    assert WPow(0) == 1 by {
      WPowZero();
    }
  }

  lemma WPowZero()
    ensures WPow(0) == 1
  {
  }

  ghost predicate Stored(s: State, u: State, ring: seq<nat>, top: nat, j: nat) {
    && |ring| == 9 && top + 8 <= |s.t| == |u.t| && j <= 8 && u.regs == s.regs
    && u.t[..top] == s.t[..top] && u.t[top + 8..] == s.t[top + 8..]
    && (forall i | top <= i < top + j :: u.t[i] == R(s, ring[i - top]))
  }

  lemma {:induction false} RunStores(e: Inputs, s: State, ring: seq<nat>, top: nat, j: nat)
    requires |ring| == 9 && top + 8 <= |s.t| && j <= 8
    ensures Stored(s, Run(e, Stores(ring, top, j), s), ring, top, j)
  {
    if j == 0 {
      RunOne(e, ImulN0, s);
    } else {
      hide Run, R, Stored;
      RunStores(e, s, ring, top, j - 1);
      RunSnoc(e, Stores(ring, top, j - 1), StoreT(ring[j - 1], top + j - 1), s);
      StoredMore(s, Run(e, Stores(ring, top, j - 1), s), ring, top, j - 1);
    }
  }

  lemma StoredMore(s: State, u: State, ring: seq<nat>, top: nat, j: nat)
    requires j < 8 && Stored(s, u, ring, top, j)
    ensures Stored(s, SetT(u, top + j, R(u, ring[j])), ring, top, j + 1)
  {
  }

  /** add and adcq: words from c0 to hi - 1 and the carry out of them hold the sum. */
  ghost predicate Carried(s: State, u: State, c0: nat, hi: nat) {
    && u.regs == s.regs && |u.t| == |s.t| && c0 < hi <= |s.t| && AllWords(u.t)
    && u.t[..c0] == s.t[..c0] && u.t[hi..] == s.t[hi..]
    && Num(u.t[c0..hi]) + Mul(Bool(u.cf), WPow(hi - c0)) == Num(s.t[c0..hi]) + R(s, CB)
  }

  lemma AddMemValue(s: State, col: nat, x: nat, c: nat)
    requires Words13(s) && col < |s.t| && x < W && c <= 1
    ensures var u := AddMem(s, col, x, c);
      && u.regs == s.regs && AllWords(u.t) && u.t == s.t[col := u.t[col]]
      && u.t[col] + W * Bool(u.cf) == s.t[col] + x + c
  {
  }

  lemma {:induction false} RunCarryChain(e: Inputs, s: State, c0: nat, hi: nat)
    requires Words13(s) && c0 < hi <= |s.t|
    ensures Carried(s, Run(e, [AddT(CB, c0)] + Carries(c0 + 1, hi), s), c0, hi)
    decreases hi
  {
    hide Run, Num, Mul, WPow, AddMem;
    if hi == c0 + 1 {
      assert [AddT(CB, c0)] + Carries(c0 + 1, hi) == [AddT(CB, c0)];
      RunOne(e, AddT(CB, c0), s);
      AddMemValue(s, c0, R(s, CB), 0);
      var u := AddMem(s, c0, R(s, CB), 0);
      assert u.t[c0..hi] == [u.t[c0]] && s.t[c0..hi] == [s.t[c0]];
      NumOne(u.t[c0]);
      NumOne(s.t[c0]);
      WPowOne(Bool(u.cf));
    } else {
      RunCarryChain(e, s, c0, hi - 1);
      var p := [AddT(CB, c0)] + Carries(c0 + 1, hi - 1);
      assert [AddT(CB, c0)] + Carries(c0 + 1, hi) == p + [AdcT0(hi - 1)];
      RunSnoc(e, p, AdcT0(hi - 1), s);
      CarriedMore(s, Run(e, p, s), c0, hi - 1);
    }
  }

  lemma CarriedMore(s: State, u: State, c0: nat, k: nat)
    requires Words13(s) && Carried(s, u, c0, k) && k < |s.t|
    ensures Carried(s, AddMem(u, k, 0, Bool(u.cf)), c0, k + 1)
  {
    hide Num, Mul, WPow, AddMem, R;
    AddMemValue(u, k, 0, Bool(u.cf));
    var w := AddMem(u, k, 0, Bool(u.cf));
    assert u.t[k] == u.t[k..][0] == s.t[k..][0] == s.t[k];
    assert w.t[c0..k + 1] == u.t[c0..k] + [w.t[k]] && s.t[c0..k + 1] == s.t[c0..k] + [s.t[k]];
    NumSnoc(u.t[c0..k], w.t[k]);
    NumSnoc(s.t[c0..k], s.t[k]);
    WPowNext(k - c0);
    Weigh(w.t[k], Bool(w.cf), s.t[k], Bool(u.cf), 0, WPow(k - c0), WPow(k + 1 - c0));
    MulUnit(WPow(k - c0));
    assert w.t[k + 1..] == u.t[k..][1..] == s.t[k..][1..];
    assert w.t[..c0] == u.t[..c0];
  }

  lemma NumOne(x: nat)
    ensures Num([x]) == x
  {
    assert [x] == [] + [x];
    NumSnoc([], x);
    EmptyNum();
    WPowZero();
    MulUnit(x);
  }

  lemma WPowOne(x: nat)
    ensures Mul(x, WPow(1)) == W * x
  {
    WPowNext(0);
    WPowZero();
  }

  // ----- a block

  lemma CarryFitsArith(x: nat, d: nat, m: nat, u: nat, z: nat, low: nat, p8: nat, pB: nat, r: nat)
    requires d < p8 && m < pB && x < 2 * (p8 * pB * r) && r >= 1
    requires u * p8 == x + d * m && u == low + z * pB
    ensures z < 3 * r
  {
    var p := p8 * pB;
    ProductBound(d, m, p8, pB);
    ProductBound(p, 1, p, r);
    assert u * p8 == low * p8 + z * p by {
      assert z * pB * p8 == z * (p8 * pB);
    }
    ProductBound(0, 0, low, p8);
    assert z * p < 3 * (p * r);
    assert 3 * r * p == 3 * (p * r);
    if z >= 3 * r {
      ProductBound(3 * r, p, z, p);
    }
  }

  /** A reduction under way fits: what a block leaves above its window cannot overflow the top word. */
  lemma CarryFits(x: nat, d: nat, m: nat, u: nat, z: nat, low: nat, b: nat, B: nat)
    requires b < B && d < WPow(8) && m < WPow(8 * B) && x < 2 * WPow(16 * B - 8 * b)
    requires Mul(u, WPow(8)) == x + Mul(d, m) && u == low + Mul(z, WPow(8 * B))
    ensures z < WPow(8 * B - 8 * b - 7)
  {
    hide WPow;
    WPowAdd(8, 8 * B);
    WPowAdd(8 * B + 8, 8 * B - 8 * b - 8);
    WPowNext(8 * B - 8 * b - 8);
    CarryFitsArith(x, d, m, u, z, low, WPow(8), WPow(8 * B), WPow(8 * B - 8 * b - 8));
  }
}
