/**
 bench/x25519.c, the encoding: 32 little-endian bytes to limbs through overlapping 64-bit
 windows, and limbs to the bytes of the one representative below p.
 */
module Encode25519 {
  import opened Words
  import opened Field25519

  function And8(x: byte, mask: byte): byte {
    AndBound(x, mask);
    And(x, mask)
  }

  function Or8(x: byte, y: byte): byte {
    assert Pow2(8) == 256;
    OrBound(x, y, 8);
    Or(x, y)
  }

  /** decodeUCoordinate of section 5 of RFC 7748: the top bit is dropped. */
  function DecodeU(n: seq<byte>): nat
    requires |n| == 32
  {
    Le(n[31 := And8(n[31], 127)])
  }

  /** decodeScalar25519 of section 5 of RFC 7748. */
  function DecodeScalar(n: seq<byte>): nat
    requires |n| == 32
  {
    Le(n[0 := And8(n[0], 248)][31 := Or8(And8(n[31], 127), 64)])
  }

  lemma DecodeUDropsTopBit(n: seq<byte>)
    requires |n| == 32
    ensures DecodeU(n) == Le(n) % Pow2(255)
  {
    hide Le, And, Pow2;
    var low, top := n[..31], And8(n[31], 127);
    assert n == low + [n[31]] && n[31 := top] == low + [top];
    LeSnoc(low, n[31]);
    LeSnoc(low, top);
    LeBound(low);
    Pow2Seven();
    AndLowMask(n[31], 7);
    Pow2Add(248, 7);
    TopBits(Le(n), Pow2(248), n[31], Le(low));
  }

  lemma Pow2Seven()
    ensures Pow2(7) == 128
  {
  }

  lemma TopBits(x: nat, p: nat, b: nat, l: nat)
    requires x == l + b * p && l < p
    ensures x % (p * 128) == l + b % 128 * p
  {
    DivUnique(x, p, b, l);
    DivDiv(x, p, 128);
  }

  // ----- what the decoded scalar is

  lemma ClampedTop(b: byte)
    ensures Or8(And8(b, 127), 64) == 64 + b % 64
  {
    hide Or, And, Pow2;
    assert Pow2(6) == 64 && Pow2(7) == 128 by {
      Pow2Small6();
    }
    AndLowMask(b, 7);
    OrTop(b % 128, 6);
    assert b % 128 % 64 == b % 64;
  }

  lemma Pow2Small6()
    ensures Pow2(3) == 8 && Pow2(5) == 32 && Pow2(6) == 64 && Pow2(7) == 128 && Pow2(8) == 256
  {
  }

  lemma ClampedLow(a: byte)
    ensures And8(a, 248) == a - a % 8
  {
    hide And, Pow2;
    Pow2Small6();
    AndHighMask(a, 5, 3);
  }

  /** The string by its first byte, its last, and what lies between. */
  lemma LeEnds(n: seq<byte>)
    requires |n| == 32
    ensures Le(n) == n[0] + 256 * Le(n[1..31]) + n[31] * Pow2(248) && 256 * Le(n[1..31]) + 256 <= Pow2(248)
  {
    hide Le, Pow2;
    var mid := n[1..31];
    assert n == [n[0]] + mid + [n[31]];
    assert |[n[0]] + mid| == 31;
    LeSnoc([n[0]] + mid, n[31]);
    LeAppend([n[0]], mid);
    LeOne(n[0]);
    LeBound(mid);
    Pow2Small6();
    Pow2Add(8, 240);
  }

  /** The scalar has its three low bits cleared, bit 254 set, bit 255 cleared, and no other bit changed. */
  lemma DecodeScalarIs(n: seq<byte>)
    requires |n| == 32
    ensures DecodeScalar(n) == Pow2(254) + Le(n) % Pow2(254) - Le(n) % 8
  {
    hide Le, Pow2, And8, Or8;
    var m := n[0 := And8(n[0], 248)][31 := Or8(And8(n[31], 127), 64)];
    ClampedTop(n[31]);
    ClampedLow(n[0]);
    LeEnds(n);
    LeEnds(m);
    assert m[1..31] == n[1..31];
    Pow2Small6();
    Pow2Add(8, 240);
    Pow2Add(248, 6);
    var w, q := Le(n[1..31]), Pow2(240);
    TopByte(n[31], n[0] + 256 * w, Pow2(248));
    LowByte(n[0], w, n[31], q, Le(n));
    Distributes(n[31] % 64, Pow2(248));
  }

  lemma Distributes(l: nat, p: nat)
    ensures (64 + l) * p == p * 64 + l * p
  {
  }

  lemma TopByte(b: nat, low: nat, p: nat)
    requires low < p
    ensures (low + b * p) % (p * 64) == low + b % 64 * p
  {
    var x := low + b * p;
    DivUnique(x, p, b, low);
    DivDiv(x, p, 64);
  }

  lemma LowByte(a: nat, w: nat, b: nat, q: nat, x: nat)
    requires x == a + 256 * w + b * (256 * q)
    ensures x % 8 == a % 8
  {
    var k := 32 * w + 32 * (b * q);
    assert b * (256 * q) == 256 * (b * q);
    assert x == (k + a / 8) * 8 + a % 8;
    DivUnique(x, 8, k + a / 8, a % 8);
  }

  /** What is above bit 254 does not matter to the bits below. */
  lemma HighBit(x: nat, t: nat, y: nat, i: nat)
    requires i < 254 && x == t * Pow2(254) + y
    ensures Bit(x, i) == Bit(y, i)
  {
    hide Pow2;
    Pow2Add(i, 253 - i);
    Pow2Half(254);
    EvenPart(t, Pow2(i), Pow2(253 - i), y);
  }

  lemma EvenPart(t: nat, a: nat, b: nat, y: nat)
    requires a > 0
    ensures (t * (2 * (a * b)) + y) / a % 2 == y / a % 2
  {
    var h := t * b;
    assert t * (2 * (a * b)) == (2 * h) * a;
    assert t * (2 * (a * b)) + y == (2 * h + y / a) * a + y % a;
    DivUnique(t * (2 * (a * b)) + y, a, 2 * h + y / a, y % a);
  }

  /** Nor what is below bit 3 to the bits from 3 on. */
  lemma LowBits(y: nat, i: nat)
    requires 3 <= i
    ensures Bit(y - y % 8, i) == Bit(y, i)
  {
    hide Pow2;
    Pow2Small6();
    Pow2Add(3, i - 3);
    DivDiv(y, 8, Pow2(i - 3));
    DivDiv(y - y % 8, 8, Pow2(i - 3));
  }

  lemma LowEight(x: nat)
    ensures x % Pow2(254) % 8 == x % 8 && Pow2(254) % 8 == 0 && x % 8 <= x % Pow2(254)
  {
    hide Pow2;
    Pow2Small6();
    Pow2Add(3, 251);
    DivDiv(x, 8, Pow2(251));
  }

  lemma DropTop254(x: nat, i: nat)
    requires i < 254
    ensures Bit(x % Pow2(254), i) == Bit(x, i)
  {
    hide Pow2, Bit;
    HighBit(x, x / Pow2(254), x % Pow2(254), i);
  }

  lemma AddTop254(y: nat, i: nat)
    requires i < 254
    ensures Bit(Pow2(254) + y, i) == Bit(y, i)
  {
    hide Pow2, Bit;
    HighBit(Pow2(254) + y, 1, y, i);
  }

  /** For every string: a multiple of 8 with bit 254 its highest. */
  lemma ScalarRange(n: seq<byte>)
    requires |n| == 32
    ensures DecodeScalar(n) % 8 == 0 && Pow2(254) <= DecodeScalar(n) < Pow2(255)
  {
    hide Le, Pow2, DecodeScalar;
    DecodeScalarIs(n);
    Pow2Half(255);
    LowEight(Le(n));
  }

  /** And its bits 3 to 253 are those of the string. */
  lemma ScalarBits(n: seq<byte>, i: nat)
    requires |n| == 32 && 3 <= i < 254
    ensures Bit(DecodeScalar(n), i) == Bit(Le(n), i)
  {
    hide Le, Pow2, DecodeScalar, Bit;
    DecodeScalarIs(n);
    LowEight(Le(n));
    var y := Le(n) % Pow2(254);
    DropTop254(Le(n), i);
    LowBits(y, i);
    AddTop254(y - y % 8, i);
  }

  // ----- bytes to limbs

  /** The eight bytes from k are bits 8k to 8k + 63. */
  lemma WordAt(n: seq<byte>, k: nat)
    requires k + 8 <= |n|
    ensures Le(n[k..k + 8]) == Shr(Le(n), 8 * k) % B64
  {
    hide Le, Pow2;
    Pow2Words();
    var a, b, c := n[..k], n[k..k + 8], n[k + 8..];
    assert n == a + n[k..] && n[k..] == b + c;
    LeAppend(a, n[k..]);
    LeAppend(b, c);
    LeBound(a);
    Le64Bound(b);
    DivUnique(Le(n), Pow2(8 * k), Le(n[k..]), Le(a));
    DivUnique(Le(n[k..]), B64, Le(c), Le(b));
  }

  lemma ModMod(x: nat, a: nat, b: nat)
    requires a > 0 && b > 0
    ensures x % (a * b) % a == x % a
  {
    DivDiv(x, a, b);
    DivUnique(x % (a * b), a, x / a % b, x % a);
  }

  /** 51 bits of a number, from bit s. */
  function Bits51(x: nat, s: nat): nat { Shr(x, s) % X1 }

  /** Shifting and masking a window leaves 51 bits of the string. */
  lemma Window(n: seq<byte>, k: nat, s: nat)
    requires k + 8 <= |n| && s <= 13
    ensures And(Shr(Le(n[k..k + 8]), s), M51) == Bits51(Le(n), 8 * k + s)
  {
    hide Le, And, Shr;
    WordAt(n, k);
    Mask51(Shr(Le(n[k..k + 8]), s));
    WindowValue(Le(n), k, s);
  }

  lemma Mask51(x: nat)
    ensures And(x, M51) == x % X1
  {
    hide And;
    Pow2At51();
    AndLowMask(x, 51);
  }

  lemma WindowValue(x: nat, k: nat, s: nat)
    requires s <= 13
    ensures Bits51(Shr(x, 8 * k) % B64, s) == Bits51(x, 8 * k + s)
  {
    ShiftedWord(Shr(x, 8 * k), s);
    ShrShr(x, 8 * k, s);
  }

  lemma ShrShr(x: nat, a: nat, b: nat)
    ensures Shr(Shr(x, a), b) == Shr(x, a + b)
  {
    hide Pow2;
    Pow2Add(a, b);
    DivDiv(x, Pow2(a), Pow2(b));
  }

  lemma ShiftedWord(x: nat, s: nat)
    requires s <= 13
    ensures Bits51(x % B64, s) == Bits51(x, s)
  {
    hide Pow2;
    Pow2At51();
    Pow2Words();
    Pow2Add(s, 64 - s);
    Pow2Add(51, 13 - s);
    WindowBits(x, Pow2(s), Pow2(64 - s), Pow2(13 - s));
  }

  lemma WindowBits(x: nat, s: nat, r: nat, t: nat)
    requires s > 0 && t > 0 && r == X1 * t && s * r == B64
    ensures x % B64 / s % X1 == x / s % X1
  {
    DivDiv(x, s, r);
    DivUnique(x % B64, s, x / s % r, x % s);
    ModMod(x / s, X1, t);
  }

  /** Five windows of 51 bits are the low 255. */
  lemma Digits(x: nat)
    ensures x % (P + 19) == Value(Bits51(x, 0), Bits51(x, 51), Bits51(x, 102), Bits51(x, 153), Bits51(x, 204))
  {
    LimbPowers();
    Pow2Small();
    hide Value, Pow2;
    DigitsOf(x);
  }

  lemma DigitsOf(x: nat)
    ensures x % (P + 19) == Value(x % X1, x / X1 % X1, x / X2 % X1, x / X3 % X1, x / X4 % X1)
  {
    DivDiv(x, X4, X1);
    DivDiv(x, X3, X1);
    DivDiv(x, X2, X1);
    DivDiv(x, X1, X1);
  }

  lemma LimbPowers()
    ensures Pow2(51) == X1 && Pow2(102) == X2 && Pow2(153) == X3 && Pow2(204) == X4 && Pow2(255) == P + 19
  {
    Pow2At51();
    Pow2Add(51, 51);
    Pow2Add(102, 51);
    Pow2Add(153, 51);
    Pow2Add(204, 51);
  }

  /** 32 little-endian bytes -> element o, the top bit dropped. */
  method Unpack25519(g: array<nat>, o: nat, n: seq<byte>)
    requires o + 5 <= g.Length && |n| == 32
    modifies g
    ensures Kept(old(g[..]), g[..], o) && Tight(g[..], o)
    ensures Num(g[..], o) == Le(n) % Pow2(255)
  {
    hide And, Le, Pow2, Shr, Value;
    LimbPowers();
    Window(n, 0, 0);
    Window(n, 6, 3);
    Window(n, 12, 6);
    Window(n, 19, 1);
    Window(n, 24, 12);
    Digits(Le(n));
    var w0 := LoadLe64(n, 0);
    var w1 := LoadLe64(n, 6);
    var w2 := LoadLe64(n, 12);
    var w3 := LoadLe64(n, 19);
    var w4 := LoadLe64(n, 24);
    g[o], g[o + 1], g[o + 2], g[o + 3], g[o + 4] :=
      And(Shr(w0, 0), M51), And(Shr(w1, 3), M51), And(Shr(w2, 6), M51), And(Shr(w3, 1), M51), And(Shr(w4, 12), M51);
  }

  lemma Pow2Small()
    ensures Pow2(0) == 1 && Pow2(1) == 2 && Pow2(3) == 8 && Pow2(6) == 64 && Pow2(12) == 4096
  {
    assert Pow2(6) == 64;
    Pow2Add(6, 6);
  }

  // ----- limbs to bytes

  /** The four carry lines shared by every pass of pack25519, and what they push out at 2^255. */
  method Ripple(h0: nat, h1: nat, h2: nat, h3: nat, h4: nat)
    returns (l0: nat, l1: nat, l2: nat, l3: nat, l4: nat, c: nat)
    requires h0 <= B64 / 2 && h1 <= B64 / 2 && h2 <= B64 / 2 && h3 <= B64 / 2 && h4 <= B64 / 2
    ensures l0 < X1 && l1 < X1 && l2 < X1 && l3 < X1 && l4 < X1
    ensures Value(h0, h1, h2, h3, h4) == Value(l0, l1, l2, l3, l4) + c * (P + 19)
  {
    hide Lo51, Hi51, Value, U64;
    Cut51(h0);
    Low64(h1 + Hi51(h0));
    var g1 := U64(h1 + Hi51(h0));
    Cut51(g1);
    Low64(h2 + Hi51(g1));
    var g2 := U64(h2 + Hi51(g1));
    Cut51(g2);
    Low64(h3 + Hi51(g2));
    var g3 := U64(h3 + Hi51(g2));
    Cut51(g3);
    Low64(h4 + Hi51(g3));
    var g4 := U64(h4 + Hi51(g3));
    Cut51(g4);
    l0, l1, l2, l3, l4, c := Lo51(h0), Lo51(g1), Lo51(g2), Lo51(g3), Lo51(g4), Hi51(g4);
    CarryValue(h0, h1, h2, h3, h4, l0, l1, l2, l3, l4, Hi51(h0), Hi51(g1), Hi51(g2), Hi51(g3), c);
  }

  /** The two carry passes of pack25519: any limbs below 2^63 end as 51-bit limbs of the same residue. */
  method TwoPasses(a0: nat, a1: nat, a2: nat, a3: nat, a4: nat)
    returns (h0: nat, h1: nat, h2: nat, h3: nat, h4: nat)
    requires a0 <= B64 / 2 && a1 <= B64 / 2 && a2 <= B64 / 2 && a3 <= B64 / 2 && a4 <= B64 / 2
    ensures h0 < X1 && h1 < X1 && h2 < X1 && h3 < X1 && h4 < X1
    ensures Value(h0, h1, h2, h3, h4) % P == Value(a0, a1, a2, a3, a4) % P
  {
    h0, h1, h2, h3, h4 := a0, a1, a2, a3, a4;
    for pass := 0 to 2
      invariant h0 <= B64 / 2 && h1 <= B64 / 2 && h2 <= B64 / 2 && h3 <= B64 / 2 && h4 <= B64 / 2
      invariant pass >= 1 ==> h0 <= X1 + 0x10_0000 && h1 < X1 && h2 < X1 && h3 < X1 && h4 < X1
      invariant pass == 2 ==> h0 < X1
      invariant Value(h0, h1, h2, h3, h4) % P == Value(a0, a1, a2, a3, a4) % P
    {
      var l0, l1, l2, l3, l4, c := Ripple(h0, h1, h2, h3, h4);
      FoldBack(h0, h1, h2, h3, h4, l0, l1, l2, l3, l4, c);
      hide Value;
      Low64(19 * c);
      Low64(l0 + 19 * c);
      h0, h1, h2, h3, h4 := U64(l0 + U64(19 * c)), l1, l2, l3, l4;
    }
  }

  lemma FoldBack(h0: nat, h1: nat, h2: nat, h3: nat, h4: nat, l0: nat, l1: nat, l2: nat, l3: nat, l4: nat, c: nat)
    requires l0 < X1 && l1 < X1 && l2 < X1 && l3 < X1 && l4 < X1
    requires h0 <= B64 / 2 && h1 <= B64 / 2 && h2 <= B64 / 2 && h3 <= B64 / 2 && h4 <= B64 / 2
    requires Value(h0, h1, h2, h3, h4) == Value(l0, l1, l2, l3, l4) + c * (P + 19)
    ensures c <= 0x2000
    ensures h0 <= X1 + 0x10_0000 && h1 < X1 && h2 < X1 && h3 < X1 && h4 < X1 ==> l0 + 19 * c < X1
    ensures Value(l0 + 19 * c, l1, l2, l3, l4) % P == Value(h0, h1, h2, h3, h4) % P
  {
    Congruent(Value(h0, h1, h2, h3, h4), Value(l0 + 19 * c, l1, l2, l3, l4), c, P);
  }

  /** The rest of the reduction: a carried element is v or v + p, and the limbs of v remain. */
  method Canonical(h0: nat, h1: nat, h2: nat, h3: nat, h4: nat)
    returns (l0: nat, l1: nat, l2: nat, l3: nat, l4: nat)
    requires h0 < X1 && h1 < X1 && h2 < X1 && h3 < X1 && h4 < X1
    ensures l0 < X1 && l1 < X1 && l2 < X1 && l3 < X1 && l4 < X1
    ensures Value(l0, l1, l2, l3, l4) == Value(h0, h1, h2, h3, h4) % P
  {
    hide Value, U64;
    Low64(h0 + 19);
    var g0, g1, g2, g3, g4, q := Ripple(U64(h0 + 19), h1, h2, h3, h4);
    QuotientBit(h0, h1, h2, h3, h4, g0, g1, g2, g3, g4, q);
    Low64(19 * q);
    Low64(g0 + 19 * q);
    g0 := U64(g0 + U64(19 * q));
    Low64(g0 + 0x7_ffff_ffff_ffed);
    Low64(g1 + M51);
    Low64(g2 + M51);
    Low64(g3 + M51);
    Low64(g4 + M51);
    var c;
    l0, l1, l2, l3, l4, c :=
      Ripple(U64(g0 + 0x7_ffff_ffff_ffed), U64(g1 + M51), U64(g2 + M51), U64(g3 + M51), U64(g4 + M51));
    DropTop(Value(h0, h1, h2, h3, h4), g0, g1, g2, g3, g4, q, l0, l1, l2, l3, l4, c);
  }

  /** Adding 19 carries out of bit 255 exactly when the element is at least p. */
  lemma QuotientBit(h0: nat, h1: nat, h2: nat, h3: nat, h4: nat,
                    g0: nat, g1: nat, g2: nat, g3: nat, g4: nat, q: nat)
    requires h0 < X1 && h1 < X1 && h2 < X1 && h3 < X1 && h4 < X1
    requires g0 < X1 && g1 < X1 && g2 < X1 && g3 < X1 && g4 < X1
    requires Value(h0 + 19, h1, h2, h3, h4) == Value(g0, g1, g2, g3, g4) + q * (P + 19)
    ensures 0 <= Value(h0, h1, h2, h3, h4) < P + 19
    ensures q == if Value(h0, h1, h2, h3, h4) >= P then 1 else 0
    ensures Value(g0 + 19 * q, g1, g2, g3, g4) == Value(h0, h1, h2, h3, h4) % P + 19
    ensures g0 + 19 * q < X1 + 19
  {
    var v := Value(h0, h1, h2, h3, h4);
    DivUnique(v, P, if v >= P then 1 else 0, if v >= P then v - P else v);
  }

  /** Adding 2^255 - 19 to the element plus 19 leaves the element, and bit 255 to be dropped. */
  lemma DropTop(v: nat, g0: nat, g1: nat, g2: nat, g3: nat, g4: nat, q: nat,
                l0: nat, l1: nat, l2: nat, l3: nat, l4: nat, c: nat)
    requires l0 < X1 && l1 < X1 && l2 < X1 && l3 < X1 && l4 < X1
    requires Value(g0, g1, g2, g3, g4) == v % P + 19
    requires Value(g0 + 0x7_ffff_ffff_ffed, g1 + M51, g2 + M51, g3 + M51, g4 + M51)
          == Value(l0, l1, l2, l3, l4) + c * (P + 19)
    ensures Value(l0, l1, l2, l3, l4) == v % P
  {
  }

  lemma ShiftOr(x: nat, lo: nat, hi: nat, k: nat, j: nat)
    requires x < Pow2(k) && j + k == 64 && lo < Pow2(j)
    ensures Or(x, U64((lo + hi * Pow2(j)) * Pow2(k))) == x + lo * Pow2(k)
  {
    hide Or, Pow2;
    Pow2Words();
    Pow2Add(j, k);
    ShiftedOut(lo, hi, Pow2(j), Pow2(k));
    OrDisjoint(x, lo, k);
  }

  lemma ShiftedOut(lo: nat, hi: nat, p: nat, q: nat)
    requires p * q == B64 && lo < p && q > 0
    ensures U64((lo + hi * p) * q) == lo * q
  {
    assert (lo + hi * p) * q == lo * q + hi * (p * q);
    MulMinusOne(p, q);
    ProductBound(lo, q, p - 1, q);
    DivUnique((lo + hi * p) * q, B64, hi, lo * q);
  }

  /** The five limbs as four 64-bit words. */
  method Words4(h0: nat, h1: nat, h2: nat, h3: nat, h4: nat) returns (w0: nat, w1: nat, w2: nat, w3: nat)
    requires h0 < X1 && h1 < X1 && h2 < X1 && h3 < X1 && h4 < X1
    ensures w0 < B64 && w1 < B64 && w2 < B64 && w3 < B64
    ensures w0 + w1 * B64 + w2 * B128 + w3 * (B64 * B128) == Value(h0, h1, h2, h3, h4)
  {
    hide Or, U64, Pow2;
    WordShifts();
    ShiftOr(h0, h1 % 0x2000, h1 / 0x2000, 51, 13);
    w0 := Or(h0, U64(h1 * X1));
    ShiftOr(h1 / 0x2000, h2 % 0x400_0000, h2 / 0x400_0000, 38, 26);
    w1 := Or(h1 / 0x2000, U64(h2 * 0x40_0000_0000));
    ShiftOr(h2 / 0x400_0000, h3 % 0x80_0000_0000, h3 / 0x80_0000_0000, 25, 39);
    w2 := Or(h2 / 0x400_0000, U64(h3 * 0x200_0000));
    ShiftOr(h3 / 0x80_0000_0000, h4, 0, 12, 52);
    w3 := Or(h3 / 0x80_0000_0000, U64(h4 * 0x1000));
  }

  lemma WordShifts()
    ensures Pow2(13) == 0x2000 && Pow2(51) == X1 && Pow2(26) == 0x400_0000 && Pow2(38) == 0x40_0000_0000
    ensures Pow2(39) == 0x80_0000_0000 && Pow2(25) == 0x200_0000 && Pow2(12) == 0x1000 && Pow2(52) == 2 * X1
  {
    assert Pow2(6) == 64 && Pow2(1) == 2;
    Pow2At51();
    hide Pow2;
    Pow2Add(6, 6);
    Pow2Add(12, 1);
    Pow2Add(13, 12);
    Pow2Add(25, 1);
    Pow2Add(25, 13);
    Pow2Add(26, 13);
    Pow2Add(51, 1);
  }

  /** Element n fully reduced mod p -> 32 little-endian bytes. */
  method Pack25519(out: array<byte>, g: array<nat>, n: nat)
    requires out.Length == 32 && n + 5 <= g.Length
    requires forall i | n <= i < n + 5 :: g[i] <= B64 / 2
    modifies out
    ensures out[..] == Bytes(Elt(g[..], n), 32)
  {
    hide Value, Bytes;
    var h0, h1, h2, h3, h4 := TwoPasses(g[n], g[n + 1], g[n + 2], g[n + 3], g[n + 4]);
    h0, h1, h2, h3, h4 := Canonical(h0, h1, h2, h3, h4);
    var w0, w1, w2, w3 := Words4(h0, h1, h2, h3, h4);
    FourWords(w0, w1, w2, w3);
    for k := 0 to 8
      invariant forall j | 0 <= j < k :: out[j] == Bytes(w0, 8)[j] && out[j + 8] == Bytes(w1, 8)[j]
      invariant forall j | 0 <= j < k :: out[j + 16] == Bytes(w2, 8)[j] && out[j + 24] == Bytes(w3, 8)[j]
    {
      BytesAt(w0, 8, k);
      BytesAt(w1, 8, k);
      BytesAt(w2, 8, k);
      BytesAt(w3, 8, k);
      out[k] := w0 / Pow2(8 * k) % 256;
      out[k + 8] := w1 / Pow2(8 * k) % 256;
      out[k + 16] := w2 / Pow2(8 * k) % 256;
      out[k + 24] := w3 / Pow2(8 * k) % 256;
    }
    assert out[..] == Bytes(w0, 8) + (Bytes(w1, 8) + (Bytes(w2, 8) + Bytes(w3, 8)));
  }

  lemma FourWords(w0: nat, w1: nat, w2: nat, w3: nat)
    requires w0 < B64 && w1 < B64 && w2 < B64 && w3 < B64
    ensures Bytes(w0 + w1 * B64 + w2 * B128 + w3 * (B64 * B128), 32)
         == Bytes(w0, 8) + (Bytes(w1, 8) + (Bytes(w2, 8) + Bytes(w3, 8)))
  {
    hide Bytes, Pow2;
    Pow2Words();
    Pow2Add(128, 64);
    var x2 := w2 + w3 * B64;
    var x1 := w1 + x2 * B64;
    BytesPair(x2, w2, w3, 8);
    BytesPair(x1, w1, x2, 16);
    BytesPair(w0 + x1 * B64, w0, x1, 24);
  }

  /** Pack after unpack reduces mod p, and is the identity exactly on the canonical strings. */
  lemma PackUnpack(n: seq<byte>)
    requires |n| == 32
    ensures Le(Bytes(Le(n) % Pow2(255) % P, 32)) == Le(n) % Pow2(255) % P
    ensures Le(n) < P <==> Bytes(Le(n) % Pow2(255) % P, 32) == n
  {
    hide Bytes, Le, Pow2;
    var x := Le(n) % Pow2(255) % P;
    assert Pow2(255) == P + 19 && Pow2(256) == 2 * (P + 19) by {
      LimbPowers();
      Pow2Small();
      Pow2Add(255, 1);
    }
    LeBytes(x, 32);
    SmallMod(x, Pow2(256));
    if Le(n) < P {
      SmallMod(Le(n), Pow2(255));
      SmallMod(Le(n), P);
      LeInjective(Bytes(x, 32), n);
    }
  }
}
