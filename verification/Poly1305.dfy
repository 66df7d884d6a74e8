/**
 bench/poly1305.c: the one-time authenticator of section 2.5 of RFC 8439, with a partially
 reduced accumulator in two 64-bit words and a few bits above.
 */
module Poly1305 {
  import opened Words

  const P: nat := 0x3_ffffffff_ffffffff_ffffffff_fffffffb
  const RMASK: nat := 0x0ffffffc_0ffffffc_0ffffffc_0fffffff

  // ----- section 2.5 of RFC 8439

  /** One block as a number: its bytes with a one bit after the last. */
  function Block(s: seq<byte>): nat { Le(s) + Pow2(8 * |s|) }

  function Head(msg: seq<byte>): (s: seq<byte>)
    requires msg != []
    ensures s != []
  {
    if |msg| <= 16 then msg else msg[..16]
  }

  /** The loop of section 2.5.1: for each block, a = (a + block) * r mod p. */
  function Accumulate(a: nat, msg: seq<byte>, r: nat): nat
    decreases |msg|
  {
    if msg == [] then a else Accumulate((a + Block(Head(msg))) * r % P, msg[|Head(msg)|..], r)
  }

  function Mac(key: seq<byte>, msg: seq<byte>): seq<byte>
    requires |key| == 32
  {
    Bytes(Accumulate(0, msg, And(Le(key[..16]), RMASK)) + Le(key[16..]), 16)
  }

  function Power(x: nat, k: nat): nat { if k == 0 then 1 else x * Power(x, k - 1) }

  function BlockCount(msg: seq<byte>): nat
    decreases |msg|
  {
    if msg == [] then 0 else 1 + BlockCount(msg[|Head(msg)|..])
  }

  /** c_1 r^q + c_2 r^(q-1) + ... + c_q r, the blocks c_i in order. */
  function Polynomial(msg: seq<byte>, r: nat): nat
    decreases |msg|
  {
    if msg == [] then 0
    else Block(Head(msg)) * Power(r, BlockCount(msg)) + Polynomial(msg[|Head(msg)|..], r)
  }

  lemma HornerStep(a: nat, c: nat, r: nat, w: nat, t: nat)
    ensures ((a + c) * r % P * w + t) % P == (a * (r * w) + (c * (r * w) + t)) % P
  {
    var y := (a + c) * r;
    assert y * w == a * (r * w) + c * (r * w);
    ModMul(y, w, P);
    ModAdd(y % P * w, t, P);
    ModAdd(y * w, t, P);
  }

  /** The accumulator loop evaluates the message polynomial at r. */
  lemma {:induction false} AccumulateIsPolynomial(a: nat, msg: seq<byte>, r: nat)
    ensures Accumulate(a, msg, r) % P == (a * Power(r, BlockCount(msg)) + Polynomial(msg, r)) % P
    decreases |msg|
  {
    if msg == [] {
      assert a * Power(r, 0) + 0 == a;
    } else {
      hide Block, Power;
      var c, rest := Block(Head(msg)), msg[|Head(msg)|..];
      var w, t := Power(r, BlockCount(rest)), Polynomial(rest, r);
      AccumulateIsPolynomial((a + c) * r % P, rest, r);
      HornerStep(a, c, r, w, t);
      PowerStep(r, BlockCount(rest));
    }
  }

  lemma PowerStep(x: nat, k: nat)
    ensures Power(x, k + 1) == x * Power(x, k)
  {
  }

  // ----- the accumulator

  function Value(h: seq<nat>): nat
    requires |h| == 3
  {
    h[0] + h[1] * B64 + h[2] * B128
  }

  ghost predicate Reduced(h: seq<nat>, top: nat) {
    |h| == 3 && h[0] < B64 && h[1] < B64 && h[2] <= top
  }

  const R60: nat := 0xfffffff_ffffffff

  /** The first part of poly_block: the block is added into the accumulator. */
  method AddBlock(h: array<nat>, t0: nat, t1: nat, pad: nat) returns (a0: nat, a1: nat, a2: nat)
    requires h.Length == 3 && Reduced(h[..], 7)
    requires t0 < B64 && t1 < B64 && pad <= 1
    ensures a0 < B64 && a1 < B64 && a2 <= 9
    ensures a0 + a1 * B64 + a2 * B128 == Value(h[..]) + t0 + t1 * B64 + pad * B128
  {
    hide U64, U128, Hi64;
    var a := U128(h[0] + t0);
    Low128(h[0] + t0);
    Cut64(a);
    Low64(Hi64(a));
    var b := U128(h[1] + t1 + U64(Hi64(a)));
    Low128(h[1] + t1 + Hi64(a));
    Cut64(b);
    Low64(Hi64(b));
    Low64(h[2] + Hi64(b) + pad);
    a0, a1, a2 := U64(a), U64(b), U64(h[2] + U64(Hi64(b)) + pad);
  }

  /** The product of accumulator and key in columns, r1 / 4 having come back 5 times past 2^130. */
  lemma Columns(a0: int, a1: int, a2: int, r0: int, r1: int, s1: int, q: int)
    requires r1 == 4 * q && s1 == 5 * q
    ensures (a0 + a1 * B64 + a2 * B128) * (r0 + r1 * B64)
         == Mul(a0, r0) + Mul(a1, s1) + (Mul(a0, r1) + Mul(a1, r0) + Mul(a2, s1)) * B64 + Mul(a2, r0) * B128
            + P * (Mul(a1, q) + Mul(a2, q) * B64)
  {
  }

  lemma Sum128(x: nat, y: nat, z: nat)
    requires x + y + z < B128 && z < B64
    ensures U128(U128(x) + U128(y) + U64(z)) == x + y + z
    ensures z == 0 ==> U128(U128(x) + U128(y)) == x + y
  {
  }

  /** The second part: the column sums, none of which leaves its 128 bits, nor the top word its 64. */
  method Multiply(a0: nat, a1: nat, a2: nat, r0: nat, r1: nat, s1: nat) returns (d0: nat, d1: nat, d2: nat)
    requires a0 < B64 && a1 < B64 && a2 <= 9
    requires r0 <= R60 && r1 <= R60 && r1 % 4 == 0 && s1 == r1 + r1 / 4
    ensures d0 == Mul(a0, r0) + Mul(a1, s1) <= 3 * B64 * R60
    ensures d1 == Mul(a0, r1) + Mul(a1, r0) + Mul(a2, s1) <= 2 * B64 * R60 + 18 * R60
    ensures d2 == Mul(a2, r0) <= 9 * R60
  {
    hide U64, U128, Mul;
    MulBound(a0, r0, B64, R60);
    MulBound(a1, s1, B64, 2 * R60);
    MulBound(a0, r1, B64, R60);
    MulBound(a1, r0, B64, R60);
    MulBound(a2, s1, 9, 5 * R60 / 4);
    MulBound(a2, r0, 9, R60);
    Sum128(Mul(a0, r0), Mul(a1, s1), 0);
    Sum128(Mul(a0, r1), Mul(a1, r0), Mul(a2, s1));
    Low64(Mul(a2, r0));
    d0 := U128(U128(Mul(a0, r0)) + U128(Mul(a1, s1)));
    d1 := U128(U128(Mul(a0, r1)) + U128(Mul(a1, r0)) + U64(Mul(a2, s1)));
    d2 := U64(Mul(a2, r0));
  }

  /** The last part: carry the three columns and fold 2^130 to 5. */
  method FoldColumns(h: array<nat>, d0: nat, c1: nat, d2: nat) returns (ghost k: nat)
    requires h.Length == 3
    requires d0 <= 3 * B64 * R60 && c1 <= 2 * B64 * R60 + 18 * R60 && d2 <= 9 * R60
    modifies h
    ensures Reduced(h[..], 4)
    ensures Value(h[..]) + P * k == d0 + c1 * B64 + d2 * B128
  {
    hide U64, U128, Hi64, And;
    Cut64(d0);
    Low64(Hi64(d0));
    var d1 := U128(c1 + U64(Hi64(d0)));
    Low128(c1 + Hi64(d0));
    Cut64(d1);
    Low64(Hi64(d1));
    var g2 := U64(d2 + U64(Hi64(d1)));
    Low64(d2 + Hi64(d1));
    assert U64(d0) + U64(d1) * B64 + g2 * B128 == d0 + c1 * B64 + d2 * B128 && g2 <= 12 * R60;
    MaskOffLowTwo(g2);
    k := g2 / 4;
    FoldTop(h, U64(d0), U64(d1), g2);
  }

  method FoldTop(h: array<nat>, d0: nat, d1: nat, g2: nat)
    requires h.Length == 3 && d0 < B64 && d1 < B64 && g2 <= 12 * R60
    modifies h
    ensures Reduced(h[..], 4)
    ensures Value(h[..]) + P * (g2 / 4) == d0 + d1 * B64 + g2 * B128
  {
    hide U64, U128, Hi64, And;
    MaskOffLowTwo(g2);
    ghost var k := g2 / 4;
    var c := U64(And(g2, 0xffff_ffff_ffff_fffc) + g2 / 4);
    Low64(5 * k);
    assert c == 5 * k && g2 == 4 * k + And(g2, 3);
    var e := U128(d0 + c);
    Low128(d0 + c);
    Cut64(e);
    Low64(Hi64(e));
    var f := U128(d1 + U64(Hi64(e)));
    Low128(d1 + Hi64(e));
    Cut64(f);
    Low64(Hi64(f));
    Low64(And(g2, 3) + Hi64(f));
    h[0], h[1], h[2] := U64(e), U64(f), U64(And(g2, 3) + U64(Hi64(f)));
  }

  /** h = (h + m + pad * 2^128) * r, partially reduced mod 2^130 - 5. */
  method PolyBlock(h: array<nat>, t0: nat, t1: nat, pad: nat, r0: nat, r1: nat, s1: nat)
    requires h.Length == 3 && Reduced(h[..], 7)
    requires t0 < B64 && t1 < B64 && pad <= 1
    requires r0 <= R60 && r1 <= R60 && r1 % 4 == 0 && s1 == r1 + r1 / 4
    modifies h
    ensures Reduced(h[..], 4)
    ensures Value(h[..]) % P
         == (old(Value(h[..])) + t0 + t1 * B64 + pad * B128) * (r0 + r1 * B64) % P
  {
    hide Mul;
    var a0, a1, a2 := AddBlock(h, t0, t1, pad);
    var d0, d1, d2 := Multiply(a0, a1, a2, r0, r1, s1);
    ghost var q := r1 / 4;
    Columns(a0, a1, a2, r0, r1, s1, q);
    ghost var k := FoldColumns(h, d0, d1, d2);
    Congruent((a0 + a1 * B64 + a2 * B128) * (r0 + r1 * B64), Value(h[..]), Mul(a1, q) + Mul(a2, q) * B64 + k, P);
  }

  lemma MaskOffLowTwo(g: nat)
    requires g < B64
    ensures And(g, 0xffff_ffff_ffff_fffc) == g - g % 4 && And(g, 3) == g % 4
  {
    hide And;
    assert Pow2(2) == 4;
    Pow2Words();
    AndHighMask(g, 62, 2);
    AndLowMask(g, 2);
  }

  // ----- the authenticator

  /** The two masked key words are the clamped r of section 2.5. */
  lemma Clamp(k: seq<byte>)
    requires |k| == 16
    ensures var r0, r1 := And(Le(k[..8]), 0x0ffffffc_0fffffff), And(Le(k[8..]), 0x0ffffffc_0ffffffc);
      r0 <= R60 && r1 <= R60 && r1 % 4 == 0 && And(Le(k), RMASK) == r0 + r1 * B64
  {
    hide And, Le;
    var lo, hi := Le(k[..8]), Le(k[8..]);
    assert k == k[..8] + k[8..];
    LeAppend(k[..8], k[8..]);
    Pow2Words();
    Le64Bound(k[..8]);
    AndSplit(hi, lo, 0x0ffffffc_0ffffffc, 0x0ffffffc_0fffffff, 64);
    AndBound(lo, 0x0ffffffc_0fffffff);
    AndBound(hi, 0x0ffffffc_0ffffffc);
    assert Pow2(2) == 4;
    AndSplit(hi / 4, hi % 4, 0x3ffffff_03ffffff, 0, 2);
    AndZero(hi % 4);
  }

  lemma LeSplit8(s: seq<byte>)
    requires |s| >= 8
    ensures Le(s) == Le(s[..8]) + Le(s[8..]) * B64
  {
    hide Le;
    assert s == s[..8] + s[8..];
    LeAppend(s[..8], s[8..]);
    Pow2Words();
  }

  function Low8(m: seq<byte>): seq<byte> { if |m| < 8 then m else m[..8] }
  function Past8(m: seq<byte>): seq<byte> { if |m| < 8 then [] else m[8..] }

  // ----- which bits the clamp clears

  /** Byte j of a clamped key: the top four bits go from bytes 3, 7, 11 and 15, the bottom two from 4, 8 and 12. */
  function ClampedByte(b: byte, j: nat): byte {
    if j == 3 || j == 7 || j == 11 || j == 15 then b % 16 else if j == 4 || j == 8 || j == 12 then b - b % 4 else b
  }

  function Clamped(k: seq<byte>, j: nat): seq<byte>
    requires j + |k| <= 16
  {
    if k == [] then [] else [ClampedByte(k[0], j)] + Clamped(k[1..], j + 1)
  }

  function MaskByte(j: nat): byte {
    if j == 3 || j == 7 || j == 11 || j == 15 then 15 else if j == 4 || j == 8 || j == 12 then 252 else 255
  }

  function MaskFrom(j: nat): nat
    requires j <= 16
    decreases 16 - j
  {
    if j == 16 then 0 else MaskByte(j) + 256 * MaskFrom(j + 1)
  }

  lemma MaskIs()
    ensures MaskFrom(0) == RMASK
  {
    assert MaskFrom(12) == 0x0ffffffc;
    assert MaskFrom(8) == 0x0ffffffc_0ffffffc;
    assert MaskFrom(4) == 0x0ffffffc_0ffffffc_0ffffffc;
  }

  lemma AndByte(b: byte, j: nat)
    requires j < 16
    ensures And(b, MaskByte(j)) == ClampedByte(b, j)
  {
    hide And;
    assert Pow2(2) == 4 && Pow2(4) == 16 && Pow2(8) == 256;
    AndLowMask(b, 4);
    AndLowMask(b, 8);
    AndHighMask(b, 6, 2);
  }

  lemma {:induction false} ClampFrom(k: seq<byte>, j: nat)
    requires j + |k| == 16
    ensures And(Le(k), MaskFrom(j)) == Le(Clamped(k, j))
    decreases |k|
  {
    hide And, ClampedByte, MaskByte;
    if k == [] {
      AndZero(0);
    } else {
      ClampFrom(k[1..], j + 1);
      AndByte(k[0], j);
      assert Pow2(8) == 256;
      AndSplit(Le(k[1..]), k[0], MaskFrom(j + 1), MaskByte(j), 8);
      var c := Clamped(k, j);
      assert c[0] == ClampedByte(k[0], j) && c[1..] == Clamped(k[1..], j + 1);
    }
  }

  /** The clamp of section 2.5, byte by byte. */
  lemma ClampIs(k: seq<byte>)
    requires |k| == 16
    ensures And(Le(k), RMASK) == Le(Clamped(k, 0))
  {
    MaskIs();
    ClampFrom(k, 0);
  }

  /** The last, short block: its bytes, the marker after them, zeros. */
  method TailWords(s: seq<byte>) returns (t0: nat, t1: nat)
    requires 0 < |s| < 16
    ensures t0 < B64 && t1 < B64 && t0 + t1 * B64 == Block(s)
  {
    hide Or, Le;
    ghost var m := s + [1];
    t0, t1 := 0, 0;
    LeEmpty();
    for j := 0 to |s| + 1
      invariant t0 == Le(Low8(m[..j])) && t1 == Le(Past8(m[..j]))
    {
      var bv: byte := if j < |s| then s[j] else 1;
      assert m[..j + 1] == m[..j] + [bv];
      if j < 8 {
        LeOr(m[..j], bv);
        assert Low8(m[..j + 1]) == m[..j] + [bv] && Past8(m[..j + 1]) == [];
        t0 := Or(t0, bv * Pow2(8 * j));
      } else {
        LeOr(m[8..j], bv);
        assert Low8(m[..j + 1]) == Low8(m[..j]);
        assert Past8(m[..j]) == m[8..j] && Past8(m[..j + 1]) == m[8..j] + [bv];
        t1 := Or(t1, bv * Pow2(8 * (j - 8)));
      }
    }
    assert m[..|s| + 1] == m;
    LeSnoc(s, 1);
    TailValue(m);
  }

  lemma LeEmpty()
    ensures Le([]) == 0
  {
  }

  lemma TailValue(m: seq<byte>)
    requires |m| <= 16
    ensures Le(Low8(m)) < B64 && Le(Past8(m)) < B64
    ensures Le(m) == Le(Low8(m)) + Le(Past8(m)) * B64
  {
    hide Le;
    LeEmpty();
    LeWordBound(Low8(m));
    LeWordBound(Past8(m));
    if |m| >= 8 {
      LeSplit8(m);
    }
  }

  lemma LeWordBound(s: seq<byte>)
    requires |s| <= 8
    ensures Le(s) < B64
  {
    LeBound(s);
    Pow2Add(8 * |s|, 64 - 8 * |s|);
    Pow2Words();
    ProductBound(Pow2(8 * |s|), 1, Pow2(8 * |s|), Pow2(64 - 8 * |s|));
  }

  /** One masked subtraction of p takes the accumulator to its residue, of which the tag keeps 128 bits. */
  method FinalSubtract(h: array<nat>) returns (f0: nat, f1: nat)
    requires h.Length == 3 && Reduced(h[..], 4)
    ensures f0 < B64 && f1 < B64 && f0 + f1 * B64 == Value(h[..]) % P % B128
  {
    hide U64, U128, Hi64, And, Or;
    var g := U128(h[0] + 5);
    Low128(h[0] + 5);
    Cut64(g);
    Low64(Hi64(g));
    var g0 := U64(g);
    g := U128(h[1] + U64(Hi64(g)));
    Low128(h[1] + Hi64(U128(h[0] + 5)));
    Cut64(g);
    Low64(Hi64(g));
    var g1 := U64(g);
    var g2 := U64(h[2] + U64(Hi64(g)));
    Low64(h[2] + Hi64(g));
    Select(h[0], g0, g2 / 4);
    Select(h[1], g1, g2 / 4);
    var mask := U64(0 - g2 / 4);
    ghost var v := Value(h[..]);
    assert g0 + g1 * B64 + g2 * B128 == v + 5;
    f0 := Or(And(h[0], B64 - 1 - mask), And(g0, mask));
    f1 := Or(And(h[1], B64 - 1 - mask), And(g1, mask));
    Residue(v, g0 + g1 * B64, g2, h[0] + h[1] * B64, h[2]);
  }

  lemma Select(x: nat, y: nat, b: nat)
    requires x < B64 && y < B64 && b <= 1
    ensures U64(0 - b) < B64
    ensures Or(And(x, B64 - 1 - U64(0 - b)), And(y, U64(0 - b))) == if b == 1 then y else x
  {
    hide And, Or;
    Pow2Words();
    AndLowMask(x, 64);
    AndLowMask(y, 64);
    SmallMod(x, B64);
    SmallMod(y, B64);
    hide Pow2;
    AndZero(x);
    AndZero(y);
    OrZero(x);
    OrZero(y);
    assert U64(0 - b) == if b == 1 then B64 - 1 else 0;
  }

  /** v + 5 reaches 2^130 exactly when v >= p, and its low 128 bits are then those of v - p. */
  lemma Residue(v: nat, g: nat, g2: nat, low: nat, h2: nat)
    requires v == low + h2 * B128 && low < B128 && h2 <= 4
    requires v + 5 == g + g2 * B128 && g < B128
    ensures g2 / 4 <= 1 && (if g2 / 4 == 1 then g else low) == v % P % B128
  {
    if g2 / 4 == 1 {
      DivUnique(v, P, 1, v - P);
      DivUnique(v - P, B128, g2 - 4, g);
    } else {
      DivUnique(v, P, 0, v);
      DivUnique(v, B128, h2, low);
    }
  }

  /** The message loop has reached `off`: what is left of the accumulation starts from the words in h. */
  ghost predicate Absorbed(h: seq<nat>, msg: seq<byte>, off: nat, r: nat) {
    && Reduced(h, 4) && off <= |msg|
    && Accumulate(0, msg, r) % P == Accumulate(Value(h) % P, msg[off..], r) % P
  }

  lemma Absorb(h: seq<nat>, h': seq<nat>, msg: seq<byte>, off: nat, r: nat)
    requires Absorbed(h, msg, off, r) && off < |msg|
    requires Reduced(h', 4)
    requires Value(h') % P == (Value(h) + Block(Head(msg[off..]))) * r % P
    ensures Absorbed(h', msg, off + |Head(msg[off..])|, r)
  {
    var rest, v, c := msg[off..], Value(h), Block(Head(msg[off..]));
    assert (v % P + c) * r % P == (v + c) * r % P by {
      ModAdd(v, c, P);
      ModMul(v % P + c, r, P);
      ModMul(v + c, r, P);
    }
    assert rest[|Head(rest)|..] == msg[off + |Head(rest)|..];
  }

  lemma FullBlock(msg: seq<byte>, off: nat)
    requires off + 16 <= |msg|
    ensures Head(msg[off..]) == msg[off..off + 16]
    ensures Block(Head(msg[off..])) == Le(msg[off..off + 8]) + Le(msg[off + 8..off + 16]) * B64 + B128
  {
    hide Le;
    var s := msg[off..off + 16];
    assert Head(msg[off..]) == s;
    LeSplit8(s);
    assert s[..8] == msg[off..off + 8] && s[8..] == msg[off + 8..off + 16];
    Pow2Words();
  }

  lemma FullLength(n: nat)
    requires n < B64
    ensures And(n, 0xffff_ffff_ffff_fff0) == n - n % 16
  {
    hide And;
    assert Pow2(4) == 16;
    Pow2Words();
    AndHighMask(n, 60, 4);
  }

  lemma ZeroWords(h: seq<nat>, msg: seq<byte>, r: nat)
    requires |h| == 3 && h[0] == h[1] == h[2] == 0
    ensures Absorbed(h, msg, 0, r)
  {
    assert msg[0..] == msg;
    assert Value(h) % P == 0;
  }

  lemma {:induction false} AccumulateBound(a: nat, msg: seq<byte>, r: nat)
    requires a < P
    ensures Accumulate(a, msg, r) < P
    decreases |msg|
  {
    if msg != [] {
      AccumulateBound((a + Block(Head(msg))) * r % P, msg[|Head(msg)|..], r);
    }
  }

  lemma AccumulateNone(a: nat, r: nat)
    ensures Accumulate(a, [], r) == a
  {
  }

  lemma Absorbed128(h: seq<nat>, msg: seq<byte>, r: nat, f: nat)
    requires Absorbed(h, msg, |msg|, r) && f == Value(h) % P % B128
    ensures Accumulate(0, msg, r) % B128 == f
  {
    hide Block, Value;
    AccumulateBound(0, msg, r);
    assert msg[|msg|..] == [];
    hide Accumulate;
    AccumulateNone(Value(h) % P, r);
    SmallMod(Accumulate(0, msg, r), P);
    SmallMod(Value(h) % P, P);
  }

  lemma AddTruncated(x: nat, y: nat, z: nat, m: nat)
    requires m > 0 && x % m == y % m
    ensures (x + z) % m == (y + z) % m
  {
    ModAdd(x, z, m);
    ModAdd(y, z, m);
  }

  /** tag = (h + s) mod 2^128, written out byte by byte. */
  method AddKey(tag: array<byte>, h0: nat, h1: nat, key: seq<byte>)
    requires tag.Length == 16 && |key| == 32 && h0 < B64 && h1 < B64
    modifies tag
    ensures tag[..] == Bytes(h0 + h1 * B64 + Le(key[16..]), 16)
  {
    hide Le, U128, U64, Hi64, Bytes;
    var k16 := LoadLe64(key, 16);
    var k24 := LoadLe64(key, 24);
    LeSplit8(key[16..]);
    assert key[16..][..8] == key[16..24] && key[16..][8..] == key[24..32];
    var w := U128(h0 + k16);
    Low128(h0 + k16);
    Cut64(w);
    Low64(Hi64(w));
    var f0, f1 := U64(w), U64(h1 + k24 + U64(Hi64(w)));
    Cut64(h1 + k24 + Hi64(w));
    ghost var x := h0 + h1 * B64 + Le(key[16..]);
    assert x == f0 + f1 * B64 + B128 * Hi64(h1 + k24 + Hi64(w));
    TagWords(x, f0, f1, Hi64(h1 + k24 + Hi64(w)));
    for k := 0 to 8
      invariant forall j :: 0 <= j < k ==> tag[j] == Bytes(f0, 8)[j] && tag[j + 8] == Bytes(f1, 8)[j]
    {
      BytesAt(f0, 8, k);
      BytesAt(f1, 8, k);
      tag[k] := f0 / Pow2(8 * k) % 256;
      tag[k + 8] := f1 / Pow2(8 * k) % 256;
    }
    assert tag[..] == Bytes(f0, 8) + Bytes(f1, 8);
  }

  lemma TagWords(x: nat, f0: nat, f1: nat, c: nat)
    requires f0 < B64 && f1 < B64 && x == f0 + f1 * B64 + B128 * c
    ensures Bytes(x, 16) == Bytes(f0, 8) + Bytes(f1, 8)
  {
    hide Bytes;
    Pow2Words();
    Congruent(x, f0 + f1 * B64, c, B128);
    BytesMod(x, f0 + f1 * B64, 16);
    BytesPair(f0 + f1 * B64, f0, f1, 8);
  }

  /** The message loop of poly1305_mac and its short last block. */
  method AbsorbMessage(h: array<nat>, msg: seq<byte>, r0: nat, r1: nat, s1: nat)
    requires h.Length == 3 && h[0] == h[1] == h[2] == 0 && |msg| < B64
    requires r0 <= R60 && r1 <= R60 && r1 % 4 == 0 && s1 == r1 + r1 / 4
    modifies h
    ensures Absorbed(h[..], msg, |msg|, r0 + r1 * B64)
  {
    hide And, Le, Accumulate, Value, Block, Pow2, U64, Reduced, Absorbed;
    ghost var r := r0 + r1 * B64;
    var off := 0;
    var full := And(|msg|, 0xffff_ffff_ffff_fff0);
    FullLength(|msg|);
    ZeroWords(h[..], msg, r);
    while off < full
      invariant off <= full && off % 16 == 0
      invariant Absorbed(h[..], msg, off, r)
    {
      var t0 := LoadLe64(msg, off);
      var t1 := LoadLe64(msg, off + 8);
      ghost var before := h[..];
      AbsorbedReduced(before, msg, off, r);
      PolyBlock(h, t0, t1, 1, r0, r1, s1);
      FullBlock(msg, off);
      Absorb(before, h[..], msg, off, r);
      Low64(off + 16);
      off := U64(off + 16);
    }
    if off < |msg| {
      var t0, t1 := TailWords(msg[off..]);
      ghost var before := h[..];
      AbsorbedReduced(before, msg, off, r);
      assert |Head(msg[off..])| == |msg| - off && off + |Head(msg[off..])| == |msg|;
      PolyBlock(h, t0, t1, 0, r0, r1, s1);
      Absorb(before, h[..], msg, off, r);
    }
  }

  /** tag[0..15] = Poly1305(key[0..31], msg[0..len-1]). */
  method Poly1305Mac(tag: array<byte>, key: seq<byte>, msg: seq<byte>)
    requires tag.Length == 16 && |key| == 32 && |msg| < B64
    modifies tag
    ensures tag[..] == Mac(key, msg)
  {
    hide And, Le, Accumulate, Value, Block, Pow2, U64, Bytes, Absorbed;
    var k0 := LoadLe64(key, 0);
    var k8 := LoadLe64(key, 8);
    var r0, r1 := And(k0, 0x0ffffffc_0fffffff), And(k8, 0x0ffffffc_0ffffffc);
    ghost var r := And(Le(key[..16]), RMASK);
    Clamp(key[..16]);
    assert key[..16][..8] == key[0..8] && key[..16][8..] == key[8..16];
    Low64(r1 + r1 / 4);
    var s1 := U64(r1 + r1 / 4);
    var h := new nat[3](_ => 0);
    AbsorbMessage(h, msg, r0, r1, s1);
    AbsorbedReduced(h[..], msg, |msg|, r);
    var f0, f1 := FinalSubtract(h);
    ghost var s := Le(key[16..]);
    MacTail(h[..], msg, r, f0 + f1 * B64, s);
    AddKey(tag, f0, f1, key);
  }

  lemma AbsorbedReduced(h: seq<nat>, msg: seq<byte>, off: nat, r: nat)
    requires Absorbed(h, msg, off, r)
    ensures Reduced(h, 4) && Reduced(h, 7)
  {
  }

  lemma MacTail(h: seq<nat>, msg: seq<byte>, r: nat, f: nat, s: nat)
    requires Absorbed(h, msg, |msg|, r) && Reduced(h, 4) && f == Value(h) % P % B128
    ensures Bytes(f + s, 16) == Bytes(Accumulate(0, msg, r) + s, 16)
  {
    hide Bytes, Accumulate;
    Absorbed128(h, msg, r, f);
    Pow2Words();
    AddTruncated(Accumulate(0, msg, r), f, s, B128);
    BytesMod(Accumulate(0, msg, r) + s, f + s, 16);
  }

  /** The tag is the message polynomial at r, modulo 2^130 - 5, plus s, modulo 2^128. */
  lemma MacIsPolynomial(key: seq<byte>, msg: seq<byte>)
    requires |key| == 32
    ensures Le(Mac(key, msg)) == (Polynomial(msg, And(Le(key[..16]), RMASK)) % P + Le(key[16..])) % B128
  {
    hide Le, Bytes, And, Accumulate, Polynomial, Power, BlockCount, Pow2;
    var r := And(Le(key[..16]), RMASK);
    AccumulateIsPolynomial(0, msg, r);
    AccumulateBound(0, msg, r);
    SmallMod(Accumulate(0, msg, r), P);
    assert 0 * Power(r, BlockCount(msg)) == 0;
    LeBytes(Accumulate(0, msg, r) + Le(key[16..]), 16);
    Pow2Words();
  }
}
