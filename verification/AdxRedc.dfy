/**
 tools/gen_rsa_adx16.py, redc: the blocks together are Montgomery reduction, for every B.
 */
module AdxRedc {
  import opened Words
  import opened Columns
  import opened AdxMachine
  import opened AdxRows
  import opened AdxReduce
  import opened AdxBlocks

  // ----- one block

  /** With the window stored, the number under way is the stored words and what is carried above them. */
  lemma StoredValue(s: State, u: State, ring: seq<nat>, lo: nat, top: nat)
    requires Words13(s) && Stored(s, u, ring, top, 8) && lo <= top
    ensures U(s, ring, lo, top) == Num(u.t[lo..top + 8]) + Mul(R(s, CB) + Num(u.t[top + 8..]), WPow(top + 8 - lo))
    ensures AllWords(u.t)
  {
    hide Num, Mul, WPow, R;
    StoredWords(s, u, ring, top);
    assert u.t[lo..top + 8] == u.t[lo..top] + u.t[top..top + 8] && u.t[lo..top] == s.t[lo..top] by {
      assert u.t[lo..top] == u.t[..top][lo..] == s.t[..top][lo..];
    }
    NumAppend(u.t[lo..top], u.t[top..top + 8]);
    var v, z := Num(u.t[top..top + 8]), R(s, CB) + Num(u.t[top + 8..]);
    WPowAdd(8, top - lo);
    MulDistr(v, Mul(z, WPow(8)), WPow(top - lo));
    MulAssoc(z, WPow(8), WPow(top - lo));
    MulNatIs(v + MulNat(z, WPow(8)), WPow(top - lo));
    MulNatIs(z, WPow(8));
  }

  lemma StoredWords(s: State, u: State, ring: seq<nat>, top: nat)
    requires Words13(s) && Stored(s, u, ring, top, 8)
    ensures u.t[top..top + 8] == View(s, ring[..8]) && AllWords(u.t)
  {
    forall i | 0 <= i < |u.t|
      ensures u.t[i] < B64
    {
      if i < top {
        assert u.t[i] == u.t[..top][i] == s.t[..top][i];
      } else if i < top + 8 {
        WordReg(s, ring[i - top]);
      } else {
        assert u.t[i] == u.t[top + 8..][i - top - 8] == s.t[top + 8..][i - top - 8];
      }
    }
  }

  ghost predicate BlockReady(e: Inputs, s: State, b: nat, B: nat) {
    && Words13(s) && AllWords(e.m) && e.n0 < W && R(s, SRC) == PM && DigitInverse(e)
    && |e.m| == 8 * B && |s.t| == 16 * B + 1 && b <= B
  }

  /** What a block does: eight more digits below, the multiple of the modulus added, the carry in place. */
  ghost predicate BlockDone(e: Inputs, s: State, u: State, b: nat) {
    && |u.t| == |s.t| && 8 * b + 8 <= |s.t| && u.t[..8 * b] == s.t[..8 * b]
    && Mul(Num(u.t[8 * b + 8..]), WPow(8)) == Num(s.t[8 * b..]) + Mul(Num(u.t[8 * b..8 * b + 8]), Num(e.m))
  }

  function CarryCode(c0: nat, hi: nat): seq<Instr> { [AddT(CB, c0)] + Carries(c0 + 1, hi) }

  lemma BlockParts(e: Inputs, s: State, ring: seq<nat>, b: nat, B: nat)
    requires |ring| == 9
    ensures var s1 := Run(e, Loads(ring, b, 8) + [XorR(CB)], s);
      var s2 := Run(e, Rows(ring, b, 8 * B), s1);
      var s3 := Run(e, Stores(RotN(ring, 8 * B), 8 * (b + B), 8), s2);
      Run(e, Block(ring, b, B), s) == Run(e, CarryCode(8 * (b + B) + 8, 16 * B + 1), s3)
  {
    hide Run, Loads, Rows, Stores, Carries, RotN;
    var p1, p2, p3 := Loads(ring, b, 8) + [XorR(CB)], Rows(ring, b, 8 * B), Stores(RotN(ring, 8 * B), 8 * (b + B), 8);
    var p4 := CarryCode(8 * (b + B) + 8, 16 * B + 1);
    assert Block(ring, b, B) == p1 + p2 + p3 + p4;
    RunAppend(e, p1 + p2 + p3, p4, s);
    RunAppend(e, p1 + p2, p3, s);
    RunAppend(e, p1, p2, s);
  }

  /** All the rows of a block add its eight digits times the whole modulus. */
  lemma RowsTotal(e: Inputs, t: seq<nat>, s: State, ring: seq<nat>, b: nat, B: nat)
    requires BlockInv(e, t, s, ring, b, B, 8 * B)
    ensures Words13(s) && |RotN(ring, 8 * B)| == 9 && |s.t| == |t| == 16 * B + 1 && s.t[..8 * b] == t[..8 * b]
    ensures R(s, SRC) == PM && R(s, CB) <= 1
    ensures Mul(U(s, RotN(ring, 8 * B), 8 * b + 8, 8 * (b + B)), WPow(8))
         == Num(t[8 * b..]) + Mul(Num(s.t[8 * b..8 * b + 8]), Num(e.m))
  {
    hide Num, Mul, WPow, U, RowsSum, RotN;
    ChunksSum(s.t[8 * b..8 * b + 8], e.m, B);
    assert e.m[..8 * B] == e.m;
  }

  /** The carry chain ends inside t, so the words above the digits hold everything. */
  lemma BlockEnds(e: Inputs, s: State, s2: State, s3: State, s4: State, b: nat, B: nat, u: nat, z: nat)
    requires BlockReady(e, s, b, B) && b < B && Num(s.t[8 * b..]) < 2 * WPow(16 * B - 8 * b)
    requires |s2.t| == |s3.t| == |s.t| && s2.t[..8 * b] == s.t[..8 * b] && s3.t[..8 * (b + B)] == s2.t[..8 * (b + B)]
    requires AllWords(s2.t) && AllWords(s3.t)
    requires Mul(u, WPow(8)) == Num(s.t[8 * b..]) + Mul(Num(s2.t[8 * b..8 * b + 8]), Num(e.m))
    requires u == Num(s3.t[8 * b + 8..8 * (b + B) + 8]) + Mul(z, WPow(8 * B))
    requires z == R(s3, CB) + Num(s3.t[8 * (b + B) + 8..]) && Carried(s3, s4, 8 * (b + B) + 8, 16 * B + 1)
    ensures BlockDone(e, s, s4, b)
  {
    hide Num, Mul, WPow, R, Words13, DigitInverse;
    var lo, c0, top := 8 * b + 8, 8 * (b + B) + 8, 8 * (b + B);
    KeptBelow(s.t, s2.t, s3.t, s4.t, 8 * b, lo, top, c0);
    NumBound(s2.t[8 * b..lo]);
    NumBound(e.m);
    CarryFits(Num(s.t[8 * b..]), Num(s2.t[8 * b..lo]), Num(e.m), u, z, Num(s3.t[lo..c0]), b, B);
    NoCarry(Num(s4.t[c0..]), s4.cf, WPow(16 * B + 1 - c0), z);
    NumAppend(s4.t[lo..c0], s4.t[c0..]);
  }

  /** The words below the carry chain are the stored ones, and the digits below them are kept. */
  lemma KeptBelow(t: seq<nat>, t2: seq<nat>, t3: seq<nat>, t4: seq<nat>, o: nat, lo: nat, top: nat, c0: nat)
    requires |t| == |t2| == |t3| == |t4| && o <= lo <= top <= c0 <= |t|
    requires t2[..o] == t[..o] && t3[..top] == t2[..top] && t4[..c0] == t3[..c0]
    ensures t4[o..lo] == t3[o..lo] == t2[o..lo] && t4[..o] == t[..o] && t4[lo..c0] == t3[lo..c0]
    ensures t4[c0..|t|] == t4[c0..] && t3[c0..|t|] == t3[c0..] && t4[lo..] == t4[lo..c0] + t4[c0..]
  {
    assert t4[o..lo] == t4[..c0][o..lo] && t3[o..lo] == t3[..c0][o..lo];
    assert t3[o..lo] == t3[..top][o..lo] && t2[o..lo] == t2[..top][o..lo];
    assert t4[..o] == t4[..c0][..o] && t3[..o] == t3[..top][..o] && t2[..o] == t2[..top][..o];
    assert t3[..o] == t3[..c0][..o];
    assert t4[lo..c0] == t4[..c0][lo..] && t3[lo..c0] == t3[..c0][lo..];
  }

  lemma NoCarry(v: nat, c: bool, p: nat, z: nat)
    requires v + Mul(Bool(c), p) == z && z < p
    ensures v == z
  {
  }

  lemma StoredState(s: State, u: State, ring: seq<nat>, top: nat)
    requires Words13(s) && Stored(s, u, ring, top, 8)
    ensures Words13(u) && u.regs == s.regs && |u.t| == |s.t| && u.t[..top] == s.t[..top]
    ensures R(u, CB) == R(s, CB) && R(u, SRC) == R(s, SRC)
  {
    hide Num, Mul, WPow;
    StoredWords(s, u, ring, top);
  }

  lemma CarriedState(e: Inputs, s: State, u: State, c0: nat, b: nat, B: nat)
    requires BlockReady(e, s, b, B) && b < B && Carried(s, u, c0, 16 * B + 1)
    ensures BlockReady(e, u, b + 1, B)
  {
    hide DigitInverse;
  }

  lemma RunBlock(e: Inputs, s: State, ring: seq<nat>, b: nat, B: nat)
    requires IsRing(ring) && BlockReady(e, s, b, B) && b < B
    requires Num(s.t[8 * b..]) < 2 * WPow(16 * B - 8 * b)
    ensures BlockReady(e, Run(e, Block(ring, b, B), s), b + 1, B)
    ensures BlockDone(e, s, Run(e, Block(ring, b, B), s), b)
  {
    hide Run, Num, Mul, WPow, Block, Rows, Stores, Loads, BlockInv, R, DigitInverse, CarryCode;
    var r', top, c0 := RotN(ring, 8 * B), 8 * (b + B), 8 * (b + B) + 8;
    BlockParts(e, s, ring, b, B);
    var s1 := Run(e, Loads(ring, b, 8) + [XorR(CB)], s);
    var s2 := Run(e, Rows(ring, b, 8 * B), s1);
    var s3 := Run(e, Stores(r', top, 8), s2);
    var s4 := Run(e, CarryCode(c0, 16 * B + 1), s3);
    StartBlock(e, s, ring, b, B);
    RunRows(e, s.t, s1, ring, b, B, 8 * B);
    RowsTotal(e, s.t, s2, ring, b, B);
    RunStores(e, s2, r', top, 8);
    StoredValue(s2, s3, r', 8 * b + 8, top);
    StoredState(s2, s3, r', top);
    CarryCodeIs(c0, 16 * B + 1);
    RunCarryChain(e, s3, c0, 16 * B + 1);
    BlockEnds(e, s, s2, s3, s4, b, B, U(s2, r', 8 * b + 8, top), R(s2, CB) + Num(s3.t[c0..]));
    CarriedState(e, s3, s4, c0, b, B);
  }

  lemma CarryCodeIs(c0: nat, hi: nat)
    ensures CarryCode(c0, hi) == [AddT(CB, c0)] + Carries(c0 + 1, hi)
  {
  }

  // ----- all the blocks


  /** After b blocks: 8b digits below and, above them, what the digits' multiple of m leaves. */
  ghost predicate BlocksInv(e: Inputs, s: State, x: nat, b: nat, B: nat) {
    && BlockReady(e, s, b, B)
    && Mul(Num(s.t[8 * b..]), WPow(8 * b)) == x + Mul(Num(s.t[..8 * b]), Num(e.m))
  }

  lemma HalfRoom(n: nat, x: nat, d: nat, m: nat, pb: nat, pB: nat, r: nat)
    requires Mul(n, pb) == x + Mul(d, m) && d < pb && m < pB && x < pb * r && pB <= r
    ensures n < 2 * r
  {
    ProductBound(d, m, pb, pB);
    ProductBound(pb, pB, pb, r);
    assert n * pb < 2 * r * pb;
    if n >= 2 * r {
      ProductBound(2 * r, pb, n, pb);
    }
  }

  lemma {:induction false} WPowMonotone(a: nat, b: nat)
    requires a <= b
    ensures WPow(a) <= WPow(b)
    decreases b
  {
    if a < b {
      WPowMonotone(a, b - 1);
      WPowNext(b - 1);
    }
  }

  lemma BlockRoom(e: Inputs, s: State, x: nat, b: nat, B: nat)
    requires BlocksInv(e, s, x, b, B) && b < B && x < WPow(16 * B)
    ensures Num(s.t[8 * b..]) < 2 * WPow(16 * B - 8 * b)
  {
    hide Num, Mul, WPow, DigitInverse, R;
    NumBound(s.t[..8 * b]);
    NumBound(e.m);
    WPowAdd(8 * b, 16 * B - 8 * b);
    WPowMonotone(8 * B, 16 * B - 8 * b);
    assert Mul(WPow(8 * b), WPow(16 * B - 8 * b)) == WPow(8 * b) * WPow(16 * B - 8 * b) by {
      MulIs(WPow(8 * b), WPow(16 * B - 8 * b));
    }
    HalfRoom(Num(s.t[8 * b..]), x, Num(s.t[..8 * b]), Num(e.m), WPow(8 * b), WPow(8 * B), WPow(16 * B - 8 * b));
  }

  lemma MulIs(x: int, y: int)
    ensures Mul(x, y) == x * y
  {
  }

  lemma BlocksArith(n0: nat, n1: nat, x: nat, q: nat, d: nat, m: nat, p8: nat, pb: nat, p1: nat)
    requires Mul(n1, p8) == n0 + Mul(d, m) && Mul(n0, pb) == x + Mul(q, m) && p1 == Mul(p8, pb)
    ensures Mul(n1, p1) == x + Mul(q + Mul(d, pb), m)
  {
    assert n1 * (p8 * pb) == (n1 * p8) * pb;
    assert (n0 + d * m) * pb == n0 * pb + d * m * pb;
    assert (q + d * pb) * m == q * m + d * pb * m;
    assert d * pb * m == d * m * pb;
  }

  lemma BlocksStep(e: Inputs, s: State, u: State, x: nat, b: nat, B: nat)
    requires BlocksInv(e, s, x, b, B) && b < B && BlockDone(e, s, u, b) && BlockReady(e, u, b + 1, B)
    ensures BlocksInv(e, u, x, b + 1, B)
  {
    hide Num, Mul, WPow, DigitInverse, R;
    var q, d := s.t[..8 * b], u.t[8 * b..8 * b + 8];
    assert u.t[..8 * (b + 1)] == q + d;
    NumAppend(q, d);
    WPowAdd(8, 8 * b);
    BlocksArith(Num(s.t[8 * b..]), Num(u.t[8 * b + 8..]), x, Num(q), Num(d), Num(e.m), WPow(8), WPow(8 * b), WPow(8 * (b + 1)));
  }

  lemma {:induction false} RunBlocks(e: Inputs, s: State, x: nat, b: nat, B: nat)
    requires BlocksInv(e, s, x, 0, B) && b <= B && x < WPow(16 * B)
    ensures BlocksInv(e, Run(e, Blocks(b, B), s), x, b, B)
  {
    hide Run, BlocksInv, BlockReady, BlockDone, Block, WPow;
    if b == 0 {
      RunOne(e, ImulN0, s);
    } else {
      hide RotN;
      RunBlocks(e, s, x, b - 1, B);
      RunAppend(e, Blocks(b - 1, B), Block(BlockRing(b - 1, B), b - 1, B), s);
      NextBlock(e, Run(e, Blocks(b - 1, B), s), BlockRing(b - 1, B), x, b - 1, B);
    }
  }

  lemma NextBlock(e: Inputs, s: State, ring: seq<nat>, x: nat, b: nat, B: nat)
    requires IsRing(ring) && BlocksInv(e, s, x, b, B) && b < B && x < WPow(16 * B)
    ensures BlocksInv(e, Run(e, Block(ring, b, B), s), x, b + 1, B)
  {
    hide Run, BlocksInv, BlockReady, BlockDone, Block, WPow;
    BlockRoom(e, s, x, b, B);
    BlocksReady(e, s, x, b, B);
    RunBlock(e, s, ring, b, B);
    BlocksStep(e, s, Run(e, Block(ring, b, B), s), x, b, B);
  }

  lemma BlocksReady(e: Inputs, s: State, x: nat, b: nat, B: nat)
    requires BlocksInv(e, s, x, b, B)
    ensures BlockReady(e, s, b, B) && |s.t| == 16 * B + 1
  {
    hide Num, Mul, WPow, DigitInverse, R;
  }

  /** t[n..2n] times R is what t held plus the digits, left in t[0..n), times m. */
  ghost predicate Reduced(e: Inputs, t: seq<nat>, u: seq<nat>, n: nat) {
    && |t| == |u| == 2 * n + 1 && |e.m| == n && AllWords(u)
    && Mul(Num(u[n..]), WPow(n)) == Num(t[..2 * n]) + Mul(Num(u[..n]), Num(e.m))
  }

  lemma RedcStart(e: Inputs, s: State, B: nat)
    requires Words13(s) && |s.t| == 16 * B + 1 && |e.m| == 8 * B && AllWords(e.m) && e.n0 < W && DigitInverse(e)
    ensures BlocksInv(e, Run(e, [LoadPtr(PM, SRC), ZeroT(16 * B)], s), Num(s.t[..16 * B]), 0, B)
  {
    hide Num, Mul, WPow, Run, DigitInverse;
    assert [LoadPtr(PM, SRC), ZeroT(16 * B)] == [LoadPtr(PM, SRC)] + [ZeroT(16 * B)];
    RunSnoc(e, [LoadPtr(PM, SRC)], ZeroT(16 * B), s);
    RunOne(e, LoadPtr(PM, SRC), s);
    var u := Run(e, [LoadPtr(PM, SRC), ZeroT(16 * B)], s);
    assert u.t == s.t[..16 * B] + [0];
    NumSnoc(s.t[..16 * B], 0);
    MulUnit(WPow(16 * B));
    WPowZero();
    MulUnit(Num(u.t));
    EmptyNum();
    MulUnit(Num(e.m));
    assert u.t[8 * 0..] == u.t && u.t[..8 * 0] == [];
  }

  /** redc, for every block count: nothing is lost and the quotient words stay in t[0..n). */
  lemma RunRedc(e: Inputs, s: State, B: nat)
    requires Words13(s) && |s.t| == 16 * B + 1 && |e.m| == 8 * B && AllWords(e.m) && e.n0 < W && DigitInverse(e)
    ensures Words13(Run(e, Redc(B), s)) && Reduced(e, s.t, Run(e, Redc(B), s).t, 8 * B)
  {
    hide Num, Mul, WPow, Run, BlocksInv, DigitInverse, Blocks;
    var p, x := [LoadPtr(PM, SRC), ZeroT(16 * B)], Num(s.t[..16 * B]);
    RunAppend(e, p, Blocks(B, B), s);
    RedcStart(e, s, B);
    NumBound(s.t[..16 * B]);
    RunBlocks(e, Run(e, p, s), x, B, B);
    RedcEnd(e, s.t, Run(e, Redc(B), s), B);
  }

  lemma RedcEnd(e: Inputs, t: seq<nat>, u: State, B: nat)
    requires |t| == 16 * B + 1 && BlocksInv(e, u, Num(t[..16 * B]), B, B)
    ensures Words13(u) && Reduced(e, t, u.t, 8 * B)
  {
    hide Num, Mul, WPow, DigitInverse;
  }
}
