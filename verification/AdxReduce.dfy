/**
 tools/gen_rsa_adx16.py, redc: Montgomery reduction of 2n + 1 words, n = 8B, eight rows at a
 time. A block's digits are parked in the words of t its low rows clear and used again for
 the modulus's later eights.
 */
module AdxReduce {
  import opened Words
  import opened Columns
  import opened AdxMachine
  import opened AdxRows

  // ----- the emitted code

  function RotN(ring: seq<nat>, n: nat): (r: seq<nat>)
    requires |ring| == 9
    ensures |r| == 9
  {
    if n == 0 then ring else Rotate(RotN(ring, n - 1))
  }

  function LowRow(ring: seq<nat>, k: nat): seq<Instr>
    requires |ring| == 9
  {
    [MovR(ring[0], RDX), ImulN0, StoreT(RDX, k)] + Row(ring, 0) + Slide(ring[8], k + 8)
  }

  function HighRow(ring: seq<nat>, k: nat, col: nat, moff: nat): seq<Instr>
    requires |ring| == 9
  {
    [LoadT(k, RDX)] + Row(ring, moff) + [StoreT(ring[0], col)] + Slide(ring[8], col + 8)
  }

  /** Row i of block b: the first eight choose the digits, the others use them again. */
  function RowAt(ring: seq<nat>, b: nat, i: nat): seq<Instr>
    requires |ring| == 9
  {
    if i < 8 then LowRow(RotN(ring, i), 8 * b + i)
    else HighRow(RotN(ring, i), 8 * b + i % 8, 8 * b + i, 8 * (i / 8))
  }

  function Rows(ring: seq<nat>, b: nat, i: nat): seq<Instr>
    requires |ring| == 9
  {
    if i == 0 then [] else Rows(ring, b, i - 1) + RowAt(ring, b, i - 1)
  }

  function Loads(ring: seq<nat>, b: nat, j: nat): seq<Instr>
    requires |ring| == 9 && j <= 8
  {
    if j == 0 then [] else Loads(ring, b, j - 1) + [LoadT(8 * b + j - 1, ring[j - 1])]
  }

  function Stores(ring: seq<nat>, top: nat, j: nat): seq<Instr>
    requires |ring| == 9 && j <= 8
  {
    if j == 0 then [] else Stores(ring, top, j - 1) + [StoreT(ring[j - 1], top + j - 1)]
  }

  /** adcq $0 into the words from lo to hi - 1. */
  function Carries(lo: nat, hi: nat): seq<Instr> {
    if hi <= lo then [] else Carries(lo, hi - 1) + [AdcT0(hi - 1)]
  }

  function Block(ring: seq<nat>, b: nat, B: nat): seq<Instr>
    requires |ring| == 9
  {
    Loads(ring, b, 8) + [XorR(CB)] + Rows(ring, b, 8 * B) + Stores(RotN(ring, 8 * B), 8 * (b + B), 8)
    + [AddT(CB, 8 * (b + B) + 8)] + Carries(8 * (b + B) + 9, 16 * B + 1)
  }

  const RING := [0, 1, 2, 3, 4, 5, 6, 7, T0]

  /** The ring when block b starts: every row before it has rotated the registers by one. */
  function BlockRing(b: nat, B: nat): (r: seq<nat>)
    ensures IsRing(r)
  {
    if b == 0 then RING else RotatedRings(BlockRing(b - 1, B), 8 * B); RotN(BlockRing(b - 1, B), 8 * B)
  }

  lemma {:induction false} RotatedRings(ring: seq<nat>, n: nat)
    requires IsRing(ring)
    ensures IsRing(RotN(ring, n))
  {
    if n > 0 {
      RotatedRings(ring, n - 1);
      RotatedRing(RotN(ring, n - 1));
    }
  }

  function Blocks(b: nat, B: nat): seq<Instr> {
    if b == 0 then [] else Blocks(b - 1, B) + Block(BlockRing(b - 1, B), b - 1, B)
  }

  function Redc(B: nat): seq<Instr> { [LoadPtr(PM, SRC), ZeroT(16 * B)] + Blocks(B, B) }

  // ----- one row and its slide

  /** The window from column `start`, with the carry and the words of t above it. */
  ghost function Y(s: State, ring: seq<nat>, start: nat): nat
    requires |ring| == 9 && start + 8 <= |s.t|
  {
    Num(View(s, ring[..8])) + MulNat(R(s, CB) + Num(s.t[start + 8..]), WPow(8))
  }

  lemma {:induction false} NumCons(s: seq<nat>)
    requires s != []
    ensures Num(s) == s[0] + W * Num(s[1..])
  {
    hide Num;
    assert s == [s[0]] + s[1..];
    NumAppend([s[0]], s[1..]);
    assert [s[0]] == [] + [s[0]];
    NumSnoc([], s[0]);
    EmptyNum();
    MulUnit(s[0]);
    assert WPow(1) == W;
    assert WPow(0) == 1;
    assert Mul(Num(s[1..]), W) == W * Num(s[1..]);
  }

  lemma SlideArith(v: nat, qm: nat, v1: nat, v0: nat, rest: nat, top: nat, top': nat, cb: nat, cb': nat,
                   word: nat, above: nat, p7: nat, p8: nat)
    requires p8 == W * p7 && v1 + Mul(top, p8) == v + qm && v1 == v0 + W * rest
    requires top' + W * cb' == word + top + cb
    ensures v0 + W * (rest + Mul(top', p7) + Mul(cb' + above, p8)) == v + Mul(cb + (word + W * above), p8) + qm
  {
    assert W * (top' * p7) == top' * p8;
    assert W * ((cb' + above) * p8) == (W * cb') * p8 + (W * above) * p8;
    assert (word + top + cb) * p8 == top' * p8 + (W * cb') * p8;
    assert (cb + (word + W * above)) * p8 == cb * p8 + word * p8 + (W * above) * p8;
    assert (word + top + cb) * p8 == word * p8 + top * p8 + cb * p8;
  }

  lemma RotatedRing(ring: seq<nat>)
    requires IsRing(ring)
    ensures IsRing(Rotate(ring))
  {
  }

  /** After the slide the window has moved up one word. */
  lemma RotatedView(s: State, u: State, ring: seq<nat>)
    requires IsRing(ring) && |s.regs| == REGS && |u.regs| == REGS
    requires forall r | 0 <= r < REGS && r != LO && r != CB && r != ring[8] :: R(u, r) == R(s, r)
    ensures View(u, Rotate(ring)[..8]) == View(s, ring[..8])[1..] + [R(u, ring[8])]
    ensures View(s, ring[..8])[0] == R(s, ring[0])
  {
  }

  /** A row and its slide: s before the row, u after it, w after the slide. */
  lemma RowSlide(e: Inputs, s: State, u: State, u': State, w: State, ring: seq<nat>, moff: nat, start: nat)
    requires RowDone(e, s, u, ring, moff) && SlideDone(u', w, ring[8], start + 8)
    requires u'.regs == u.regs && |u'.t| == |s.t| && u'.t[start + 8..] == s.t[start + 8..]
    requires start + 8 < |s.t|
    ensures IsRing(Rotate(ring)) && Words13(w)
    ensures R(u, ring[0]) + W * Y(w, Rotate(ring), start + 1)
         == Y(s, ring, start) + Mul(R(s, RDX), Num(e.m[moff..moff + 8]))
  {
    hide Num, Mul, WPow, View, R;
    RotatedRing(ring);
    SlideFrame(u', w, ring[8], start + 8);
    RotatedView(u', w, ring);
    ViewRegs(u, u', ring);
    var v1, top' := View(u, ring[..8]), R(w, ring[8]);
    ViewWords(u, ring);
    NumCons(v1);
    NumSnoc(v1[1..], top');
    NumCons(s.t[start + 8..]);
    assert s.t[start + 8..][1..] == w.t[start + 9..];
    assert s.t[start + 8..][0] == u'.t[start + 8..][0] == u'.t[start + 8];
    WPowNext(7);
    SameRegs(u, u', ring);
    SlideArith(Num(View(s, ring[..8])), MulNat(R(s, RDX), Num(e.m[moff..moff + 8])), Num(v1), v1[0], Num(v1[1..]),
               R(u, ring[8]), top', R(s, CB), R(w, CB), s.t[start + 8], Num(w.t[start + 9..]), WPow(7), WPow(8));
  }

  lemma SameRegs(u: State, u': State, ring: seq<nat>)
    requires u'.regs == u.regs
    ensures forall r: nat :: R(u, r) == R(u', r)
  {
  }

  lemma SlideFrame(s: State, u: State, top: nat, col: nat)
    requires SlideDone(s, u, top, col)
    ensures |u.regs| == REGS && u.t == s.t
    ensures R(u, top) + W * R(u, CB) == s.t[col] + R(s, top) + R(s, CB)
    ensures forall r | 0 <= r < REGS && r != LO && r != CB && r != top :: R(u, r) == R(s, r)
  {
  }

  ghost predicate Ready(e: Inputs, s: State) {
    Words13(s) && AllWords(e.m) && e.n0 < W && R(s, SRC) == PM && R(s, CB) <= 1
  }

  ghost predicate DigitInverse(e: Inputs) {
    |e.m| >= 8 && (MulNat(e.n0, At(e.m, 0)) + 1) % W == 0
  }

  lemma RunDigit(e: Inputs, s: State, ring: seq<nat>, k: nat)
    requires IsRing(ring) && Words13(s) && k < |s.t|
    ensures var q := U64(MulNat(R(s, ring[0]), e.n0));
      var u := Run(e, [MovR(ring[0], RDX), ImulN0, StoreT(RDX, k)], s);
      && u.regs == s.regs[RDX := q] && u.t == s.t[k := q] && q < W
  {
    hide Run, U64, MulNat;
    var i0, i1, i2 := MovR(ring[0], RDX), ImulN0, StoreT(RDX, k);
    assert [i0, i1, i2] == [i0] + [i1] + [i2];
    RunSnoc(e, [i0] + [i1], i2, s);
    RunSnoc(e, [i0], i1, s);
    RunOne(e, i0, s);
    Cut64(MulNat(R(s, ring[0]), e.n0));
  }

  lemma ViewRdx(s: State, ring: seq<nat>, q: nat)
    requires IsRing(ring) && |s.regs| == REGS
    ensures View(s.(regs := s.regs[RDX := q]), ring[..8]) == View(s, ring[..8])
  {
  }

  lemma LowWord(m: seq<nat>)
    requires |m| >= 8
    ensures Num(m[0..8]) == m[0] + W * Num(m[1..8])
  {
    NumCons(m[0..8]);
    assert m[0..8][1..] == m[1..8];
  }

  /** The dead word of a low row is zero: its digit was chosen to clear it. */
  lemma DigitClears(v: nat, rest: nat, x0: nat, xs: nat, m0: nat, ms: nat, n0: nat, q: nat, top: nat)
    requires (MulNat(n0, m0) + 1) % W == 0 && q == U64(MulNat(v, n0)) && v < W && x0 < W
    requires x0 + W * xs + top * W == v + W * rest + Mul(q, m0 + W * ms)
    ensures x0 == 0
  {
    var h, k := Hi64(MulNat(v, n0)), (n0 * m0 + 1) / W;
    Cut64(MulNat(v, n0));
    assert q == v * n0 - h * W && n0 * m0 == W * k - 1;
    assert q * m0 == v * (n0 * m0) - W * (h * m0);
    assert v * (n0 * m0) == W * (v * k) - v;
    assert q * (m0 + W * ms) == q * m0 + W * (q * ms);
    DivUnique(x0, W, 0, x0);
    DivUnique(x0, W, rest + v * k - h * m0 + q * ms - xs - top, 0);
  }

  /** A low row parks its digit, adds digit times the first eight words and drops a zero word. */
  lemma RunLowRow(e: Inputs, s: State, ring: seq<nat>, k: nat) returns (q: nat)
    requires IsRing(ring) && Ready(e, s) && DigitInverse(e) && k + 8 < |s.t|
    ensures var u := Run(e, LowRow(ring, k), s);
      && Ready(e, u) && IsRing(Rotate(ring)) && q < W && u.t == s.t[k := q]
      && W * Y(u, Rotate(ring), k + 1) == Y(s, ring, k) + Mul(q, Num(e.m[0..8]))
  {
    hide Run, Num, Mul, WPow, View, U64, MulNat, RowDone, SlideDone, R;
    var d := [MovR(ring[0], RDX), ImulN0, StoreT(RDX, k)];
    q := U64(MulNat(R(s, ring[0]), e.n0));
    RunAppend(e, d + Row(ring, 0), Slide(ring[8], k + 8), s);
    RunAppend(e, d, Row(ring, 0), s);
    RunDigit(e, s, ring, k);
    var s1 := Run(e, d, s);
    SetWord(s, s1, q);
    ViewRdx(s, ring, q);
    ViewRegs(s1, s.(regs := s.regs[RDX := q]), ring);
    RunRowCode(e, s1, ring, 0);
    var s2 := Run(e, Row(ring, 0), s1);
    RowFrame(e, s1, s2, ring, 0);
    RunSlide(e, s2, ring[8], k + 8);
    var w := Run(e, Slide(ring[8], k + 8), s2);
    SlideRegs(s2, w, ring, k + 8);
    assert s1.t[k + 8..] == s.t[k + 8..];
    RowSlide(e, s1, s2, s2, w, ring, 0, k);
    LowWordClear(e, s1, s2, ring, R(s, ring[0]));
  }

  lemma SetWord(s: State, u: State, q: nat)
    requires Words13(s) && q < W && u.regs == s.regs[RDX := q]
    requires AllWords(u.t)
    ensures Words13(u) && R(u, RDX) == q
    ensures forall r | 0 <= r < REGS && r != RDX :: R(u, r) == R(s, r)
  {
  }

  lemma RowFrame(e: Inputs, s: State, u: State, ring: seq<nat>, moff: nat)
    requires RowDone(e, s, u, ring, moff)
    ensures IsRing(ring) && Words13(u) && u.t == s.t
    ensures R(u, CB) == R(s, CB) && R(u, RDX) == R(s, RDX) && R(u, SRC) == R(s, SRC)
  {
  }

  lemma SlideRegs(s: State, u: State, ring: seq<nat>, col: nat)
    requires IsRing(ring) && SlideDone(s, u, ring[8], col)
    ensures Words13(u) && u.t == s.t && R(u, CB) <= 1 && R(u, SRC) == R(s, SRC) && R(u, RDX) == R(s, RDX)
  {
  }

  lemma LowWordClear(e: Inputs, s: State, u: State, ring: seq<nat>, v: nat)
    requires RowDone(e, s, u, ring, 0) && Words13(s) && DigitInverse(e) && AllWords(e.m)
    requires v == R(s, ring[0]) && R(s, RDX) == U64(MulNat(v, e.n0))
    ensures R(u, ring[0]) == 0
  {
    hide Num, Mul, WPow, View, U64, MulNat, R;
    var x, y := View(u, ring[..8]), View(s, ring[..8]);
    ViewAt(u, ring, 0);
    ViewAt(s, ring, 0);
    ViewWords(u, ring);
    ViewWords(s, ring);
    NumCons(x);
    NumCons(y);
    LowWord(e.m);
    EightWeight(R(u, ring[8]));
    DigitClears(y[0], Num(y[1..]), x[0], Num(x[1..]), e.m[0], Num(e.m[1..8]), e.n0, R(s, RDX),
                MulNat(R(u, ring[8]), WPow(7)));
  }

  lemma EightWeight(x: nat)
    ensures Mul(x, WPow(8)) == MulNat(x, WPow(7)) * W
  {
    WPowNext(7);
    assert x * (W * WPow(7)) == x * WPow(7) * W;
  }

  /** A later row adds its block's parked digit times another eight words and stores a word. */
  lemma RunHighRow(e: Inputs, s: State, ring: seq<nat>, k: nat, col: nat, moff: nat) returns (v: nat)
    requires IsRing(ring) && Ready(e, s) && col + 8 < |s.t| && k < col && moff + 8 <= |e.m|
    ensures var u := Run(e, HighRow(ring, k, col, moff), s);
      && Ready(e, u) && IsRing(Rotate(ring)) && v < W && u.t == s.t[col := v]
      && v + W * Y(u, Rotate(ring), col + 1) == Y(s, ring, col) + Mul(s.t[k], Num(e.m[moff..moff + 8]))
  {
    hide Run, Num, Mul, WPow, View, U64, MulNat, RowDone, SlideDone, R;
    var q := s.t[k];
    RunAppend(e, [LoadT(k, RDX)] + Row(ring, moff) + [StoreT(ring[0], col)], Slide(ring[8], col + 8), s);
    RunSnoc(e, [LoadT(k, RDX)] + Row(ring, moff), StoreT(ring[0], col), s);
    RunAppend(e, [LoadT(k, RDX)], Row(ring, moff), s);
    RunOne(e, LoadT(k, RDX), s);
    var s1 := Run(e, [LoadT(k, RDX)], s);
    SetWord(s, s1, q);
    ViewRdx(s, ring, q);
    ViewRegs(s1, s.(regs := s.regs[RDX := q]), ring);
    RunRowCode(e, s1, ring, moff);
    var s2 := Run(e, Row(ring, moff), s1);
    RowFrame(e, s1, s2, ring, moff);
    v := R(s2, ring[0]);
    var s3 := SetT(s2, col, v);
    WordReg(s2, ring[0]);
    SameRegs(s2, s3, ring);
    RunSlide(e, s3, ring[8], col + 8);
    var w := Run(e, Slide(ring[8], col + 8), s3);
    SlideRegs(s3, w, ring, col + 8);
    assert s3.t[col + 8..] == s1.t[col + 8..];
    RowSlide(e, s1, s2, s3, w, ring, moff, col);
  }

  lemma WordReg(s: State, r: nat)
    requires Words13(s)
    ensures R(s, r) < W
  {
  }
}
