/**
 Machine words as natural numbers. A word operation of the source is written with its
 truncation (U64, U128) or its bit-by-bit meaning (And, Or, Xor), and the lemmas below turn
 masks, shifts and ors of disjoint bits into arithmetic.
 */
module Words {

  const B64: nat := 0x1_0000_0000_0000_0000
  const B128: nat := 0x1_0000_0000_0000_0000_0000_0000_0000_0000

  type byte = x: nat | x < 256

  function U64(x: int): nat { x % B64 }
  function U128(x: int): nat { x % B128 }
  function Hi64(x: nat): nat { x / B64 }

  function Pow2(k: nat): (r: nat)
    ensures r > 0
  {
    if k == 0 then 1 else 2 * Pow2(k - 1)
  }

  function Quotient(x: nat, d: nat): nat
    requires d > 0
  {
    x / d
  }

  /** `x >> k` */
  function Shr(x: nat, k: nat): nat { Quotient(x, Pow2(k)) }

  function And(x: nat, y: nat): nat {
    if x == 0 || y == 0 then 0 else 2 * And(x / 2, y / 2) + (if x % 2 == 1 && y % 2 == 1 then 1 else 0)
  }

  function Or(x: nat, y: nat): nat {
    if x == 0 then y else if y == 0 then x
    else 2 * Or(x / 2, y / 2) + (if x % 2 == 1 || y % 2 == 1 then 1 else 0)
  }

  function Xor(x: nat, y: nat): nat {
    if x == 0 then y else if y == 0 then x
    else 2 * Xor(x / 2, y / 2) + (if x % 2 != y % 2 then 1 else 0)
  }

  function Bit(x: nat, i: nat): (r: nat)
    ensures r < 2
  {
    x / Pow2(i) % 2
  }

  /** The little-endian value of a byte string. */
  function Le(s: seq<byte>): nat {
    if s == [] then 0 else s[0] + 256 * Le(s[1..])
  }

  // ----- powers of two and division

  lemma {:induction false} Pow2Add(a: nat, b: nat)
    ensures Pow2(a + b) == Pow2(a) * Pow2(b)
  {
    if a > 0 {
      Pow2Add(a - 1, b);
      TwiceProduct(Pow2(a - 1), Pow2(b));
    }
  }

  lemma TwiceProduct(x: int, y: int)
    ensures 2 * (x * y) == (2 * x) * y
  {
  }

  lemma ProductBound(x: nat, y: nat, a: nat, b: nat)
    requires x <= a && y <= b
    ensures x * y <= a * b
  {
  }

  /** A product kept as one term, for sums of products whose factors do not matter. */
  function Mul(x: int, y: int): int { x * y }

  lemma MulBound(x: nat, y: nat, a: nat, b: nat)
    requires x <= a && y <= b
    ensures 0 <= Mul(x, y) <= a * b
  {
    ProductBound(x, y, a, b);
  }

  lemma MulSign(k: int, d: int)
    requires d > 0
    ensures k >= 1 ==> k * d >= d
    ensures k <= -1 ==> k * d <= -d
  {
  }

  lemma DivUnique(x: int, d: int, q: int, r: int)
    requires d > 0 && x == q * d + r && 0 <= r < d
    ensures x / d == q && x % d == r
  {
    var k := x / d - q;
    assert k * d == (x / d) * d - q * d;
    MulSign(k, d);
  }

  lemma DivDiv(x: nat, a: nat, b: nat)
    requires a > 0 && b > 0
    ensures a * b > 0 && x / a / b == x / (a * b)
    ensures x % (a * b) == x % a + a * (x / a % b)
  {
    var q, r := x / a, x % a;
    Regroups(a, b, q / b, q % b, r);
    DivUnique(x, a * b, q / b, a * (q % b) + r);
  }

  lemma Regroups(a: nat, b: nat, s: nat, t: nat, r: nat)
    requires r < a && t < b
    ensures a * (s * b + t) + r == s * (a * b) + (a * t + r) && 0 <= a * t + r < a * b
  {
    assert a * (s * b + t) == s * (a * b) + a * t;
    ProductBound(a, t, a, b - 1);
    ProductBound(0, 0, a, t);
    assert a * (b - 1) == a * b - a;
  }

  // ----- congruence

  lemma Congruent(x: int, y: int, k: int, m: nat)
    requires m > 0 && x == y + m * k
    ensures x % m == y % m
  {
    DivUnique(x, m, y / m + k, y % m);
  }

  lemma ModAdd(x: int, y: int, m: nat)
    requires m > 0
    ensures (x % m + y) % m == (x + y) % m
  {
    Congruent(x % m + y, x + y, -(x / m), m);
  }

  lemma ModMul(x: int, y: int, m: nat)
    requires m > 0
    ensures ((x % m) * y) % m == (x * y) % m
  {
    var q := x / m;
    assert x * y == (x % m) * y + m * (q * y) by {
      assert x == x % m + m * q;
    }
    Congruent(x * y, (x % m) * y, q * y, m);
  }

  lemma ModAssociates(x: int, y: int, z: int, m: nat)
    requires m > 0
    ensures ((x * y % m) * z) % m == (x * (y * z % m)) % m
  {
    ModMul(x * y, z, m);
    ModMul(y * z, x, m);
    assert (x * y) * z == (y * z) * x;
  }

  // ----- truncation

  lemma Low64(x: nat)
    requires x < B64
    ensures U64(x) == x
  {
  }

  lemma Low128(x: nat)
    requires x < B128
    ensures U128(x) == x
  {
  }

  /** A word pair: the low half and what `>> 64` leaves. */
  lemma Cut64(x: nat)
    ensures x == U64(x) + Hi64(x) * B64 && U64(x) < B64
  {
  }

  // ----- masks and disjoint ors

  lemma Halve(h: nat, l: nat, k: nat)
    requires k > 0
    ensures (h * Pow2(k) + l) / 2 == h * Pow2(k - 1) + l / 2
    ensures (h * Pow2(k) + l) % 2 == l % 2
    ensures h * Pow2(k) == 2 * (h * Pow2(k - 1))
  {
    assert h * Pow2(k) == 2 * (h * Pow2(k - 1));
  }

  lemma AndGlue(x: nat, xl: nat, y: nat, yl: nat, r: nat)
    requires x % 2 == xl % 2 && y % 2 == yl % 2
    requires And(x / 2, y / 2) == r + And(xl / 2, yl / 2)
    ensures And(x, y) == 2 * r + And(xl, yl)
  {
    hide And;
    AndStep(x, y);
    AndStep(xl, yl);
  }

  lemma {:induction false} AndSplit(xh: nat, xl: nat, yh: nat, yl: nat, k: nat)
    requires xl < Pow2(k) && yl < Pow2(k)
    ensures And(xh * Pow2(k) + xl, yh * Pow2(k) + yl) == And(xh, yh) * Pow2(k) + And(xl, yl)
  {
    hide And;
    if k == 0 {
      AndZero(0);
      assert xh * Pow2(k) + xl == xh && yh * Pow2(k) + yl == yh;
      assert xl == yl == 0;
    } else {
      Halve(xh, xl, k);
      Halve(yh, yl, k);
      Halve(And(xh, yh), 0, k);
      AndSplit(xh, xl / 2, yh, yl / 2, k - 1);
      AndGlue(xh * Pow2(k) + xl, xl, yh * Pow2(k) + yl, yl, And(xh, yh) * Pow2(k - 1));
    }
  }

  lemma AndStep(x: nat, y: nat)
    ensures And(x, y) == 2 * And(x / 2, y / 2) + (if x % 2 == 1 && y % 2 == 1 then 1 else 0)
  {
  }

  lemma {:induction false} AndCommutes(x: nat, y: nat)
    ensures And(x, y) == And(y, x)
  {
    if x != 0 && y != 0 {
      AndCommutes(x / 2, y / 2);
    }
  }

  lemma {:induction false} AndZero(x: nat)
    ensures And(x, 0) == 0 && And(0, x) == 0
  {
  }

  lemma {:induction false} AndLowMask(x: nat, k: nat)
    ensures And(x, Pow2(k) - 1) == x % Pow2(k)
  {
    if k > 0 {
      var p := Pow2(k - 1);
      AndLowMask(x / 2, k - 1);
      DivDiv(x, 2, p);
      AndStep(x, Pow2(k) - 1);
      assert (Pow2(k) - 1) / 2 == p - 1 && (Pow2(k) - 1) % 2 == 1;
    }
  }

  lemma DivBelow(x: nat, p: nat, q: nat)
    requires p > 0 && x < q * p
    ensures x / p < q
  {
    MulSign(x / p - q, p);
    assert (x / p - q) * p == x / p * p - q * p;
  }

  lemma HighMaskAt(h: nat, l: nat, j: nat, k: nat)
    requires h < Pow2(j) && l < Pow2(k)
    ensures Pow2(k) <= Pow2(j + k)
    ensures And(h * Pow2(k) + l, Pow2(j + k) - Pow2(k)) == h * Pow2(k)
  {
    hide And, Pow2;
    Pow2Add(j, k);
    MulMinusOne(Pow2(j), Pow2(k));
    AndSplit(h, l, Pow2(j) - 1, 0, k);
    AndZero(l);
    AndLowMask(h, j);
    SmallMod(h, Pow2(j));
  }

  lemma SmallMod(x: nat, m: nat)
    requires x < m
    ensures x % m == x
  {
  }

  lemma MulMinusOne(q: nat, p: nat)
    requires q > 0
    ensures q * p >= p && (q - 1) * p == q * p - p
  {
  }

  /** `x & ~(2^k - 1)` on words of j + k bits. */
  lemma AndHighMask(x: nat, j: nat, k: nat)
    requires x < Pow2(j + k)
    ensures Pow2(k) <= Pow2(j + k) && And(x, Pow2(j + k) - Pow2(k)) == x - x % Pow2(k)
  {
    hide And, Pow2;
    Pow2Add(j, k);
    DivBelow(x, Pow2(k), Pow2(j));
    HighMaskAt(x / Pow2(k), x % Pow2(k), j, k);
  }

  lemma {:induction false} AndBound(x: nat, y: nat)
    ensures And(x, y) <= y && And(x, y) <= x
    decreases x
  {
    if x != 0 {
      AndBound(x / 2, y / 2);
    }
  }

  lemma {:induction false} OrBound(x: nat, y: nat, k: nat)
    requires x < Pow2(k) && y < Pow2(k)
    ensures Or(x, y) < Pow2(k)
  {
    if k > 0 {
      OrBound(x / 2, y / 2, k - 1);
      OrStep(x, y);
    }
  }

  lemma OrZero(x: nat)
    ensures Or(x, 0) == x && Or(0, x) == x
  {
  }

  // ----- exclusive or

  lemma XorZero(x: nat)
    ensures Xor(x, 0) == x && Xor(0, x) == x
  {
  }

  lemma XorStep(x: nat, y: nat)
    ensures Xor(x, y) == 2 * Xor(x / 2, y / 2) + (if x % 2 != y % 2 then 1 else 0)
    ensures Xor(x, y) / 2 == Xor(x / 2, y / 2) && (Xor(x, y) % 2 == 1 <==> x % 2 != y % 2)
  {
  }

  lemma SameHalves(x: nat, y: nat)
    requires x / 2 == y / 2 && (x % 2 == 1 <==> y % 2 == 1)
    ensures x == y
  {
  }

  lemma {:induction false} XorCommutes(x: nat, y: nat)
    ensures Xor(x, y) == Xor(y, x)
  {
    if x != 0 && y != 0 {
      XorCommutes(x / 2, y / 2);
    }
  }

  lemma {:induction false} XorCancels(x: nat, y: nat)
    ensures Xor(x, Xor(x, y)) == y
    decreases x + y
  {
    if x != 0 {
      XorCancels(x / 2, y / 2);
      hide Xor;
      XorStep(x, y);
      XorStep(x, Xor(x, y));
      SameHalves(Xor(x, Xor(x, y)), y);
    }
  }

  lemma {:induction false} XorBound(x: nat, y: nat, k: nat)
    requires x < Pow2(k) && y < Pow2(k)
    ensures Xor(x, y) < Pow2(k)
  {
    if k > 0 {
      XorBound(x / 2, y / 2, k - 1);
      XorStep(x, y);
    }
  }

  lemma OrStep(x: nat, y: nat)
    ensures Or(x, y) == 2 * Or(x / 2, y / 2) + (if x % 2 == 1 || y % 2 == 1 then 1 else 0)
  {
  }

  lemma Pow2Half(k: nat)
    requires k > 0
    ensures Pow2(k) == 2 * Pow2(k - 1)
  {
  }

  /** Or with the top bit of k + 1 sets it and keeps the bits below. */
  lemma {:induction false} OrTop(x: nat, k: nat)
    requires x < 2 * Pow2(k)
    ensures Or(x, Pow2(k)) == Pow2(k) + x % Pow2(k)
  {
    if k == 0 {
      OrStep(x, 1);
    } else {
      hide Or, Pow2;
      Pow2Half(k);
      OrTop(x / 2, k - 1);
      OrStep(x, Pow2(k));
      DivDiv(x, 2, Pow2(k - 1));
    }
  }

  lemma {:induction false} OrDisjoint(x: nat, y: nat, k: nat)
    requires x < Pow2(k)
    ensures Or(x, y * Pow2(k)) == x + y * Pow2(k) == Or(y * Pow2(k), x)
  {
    if k == 0 {
      assert y * Pow2(0) == y;
    } else {
      var w := y * Pow2(k - 1);
      assert y * Pow2(k) == 2 * w;
      OrDisjoint(x / 2, y, k - 1);
      OrStep(x, 2 * w);
      OrStep(2 * w, x);
    }
  }

  // ----- little-endian strings

  lemma {:induction false} LeBound(s: seq<byte>)
    ensures Le(s) < Pow2(8 * |s|)
  {
    if s != [] {
      LeBound(s[1..]);
      Pow2Add(8, 8 * |s[1..]|);
      assert Pow2(8) == 256;
    }
  }

  lemma {:induction false} LeAppend(s: seq<byte>, t: seq<byte>)
    ensures Le(s + t) == Le(s) + Pow2(8 * |s|) * Le(t)
  {
    if s == [] {
      assert s + t == t;
    } else {
      LeAppend(s[1..], t);
      assert (s + t)[1..] == s[1..] + t;
      Pow2Add(8, 8 * |s[1..]|);
      assert Pow2(8) == 256;
      var p, v := Pow2(8 * |s[1..]|), Le(t);
      assert 256 * (p * v) == (256 * p) * v;
    }
  }

  /** Little-endian strings of one length are determined by their values. */
  lemma {:induction false} LeInjective(s: seq<byte>, t: seq<byte>)
    requires |s| == |t| && Le(s) == Le(t)
    ensures s == t
  {
    if s != [] {
      assert s[0] == Le(s) % 256 && t[0] == Le(t) % 256;
      LeInjective(s[1..], t[1..]);
      assert s == [s[0]] + s[1..] && t == [t[0]] + t[1..];
    }
  }

  /** The eight bytes a 64-bit word is stored as, least significant first. */
  function Bytes(x: nat, n: nat): (s: seq<byte>)
    ensures |s| == n
  {
    if n == 0 then [] else [x % 256] + Bytes(x / 256, n - 1)
  }

  lemma {:induction false} LeBytes(x: nat, n: nat)
    ensures Le(Bytes(x, n)) == x % Pow2(8 * n)
  {
    if n > 0 {
      LeBytes(x / 256, n - 1);
      Pow2Add(8, 8 * (n - 1));
      assert Pow2(8) == 256;
      DivDiv(x, 256, Pow2(8 * (n - 1)));
      assert Bytes(x, n)[1..] == Bytes(x / 256, n - 1);
    }
  }

  /** Only the low 8n bits of a number reach its n bytes. */
  lemma BytesMod(x: nat, y: nat, n: nat)
    requires x % Pow2(8 * n) == y % Pow2(8 * n)
    ensures Bytes(x, n) == Bytes(y, n)
  {
    LeBytes(x, n);
    LeBytes(y, n);
    LeInjective(Bytes(x, n), Bytes(y, n));
  }

  /** Two stored words are one stored number. */
  lemma BytesPair(x: nat, lo: nat, hi: nat, n: nat)
    requires lo < B64 && hi < Pow2(8 * n) && x == lo + hi * B64
    ensures Bytes(x, 8 + n) == Bytes(lo, 8) + Bytes(hi, n)
  {
    hide Bytes, Le, Pow2;
    Pow2Words();
    Pow2Add(64, 8 * n);
    PairBound(lo, hi, Pow2(8 * n));
    LeBytes(x, 8 + n);
    LeBytes(lo, 8);
    LeBytes(hi, n);
    SmallMod(x, Pow2(64 + 8 * n));
    SmallMod(lo, B64);
    SmallMod(hi, Pow2(8 * n));
    LeAppend(Bytes(lo, 8), Bytes(hi, n));
    LeInjective(Bytes(x, 8 + n), Bytes(lo, 8) + Bytes(hi, n));
  }

  lemma PairBound(lo: nat, hi: nat, p: nat)
    requires lo < B64 && hi < p
    ensures lo + hi * B64 < B64 * p
  {
  }

  lemma {:induction false} BytesAt(x: nat, n: nat, k: nat)
    requires k < n
    ensures Bytes(x, n)[k] == x / Pow2(8 * k) % 256
  {
    if k > 0 {
      BytesAt(x / 256, n - 1, k - 1);
      Pow2Add(8, 8 * (k - 1));
      assert Pow2(8) == 256;
      DivDiv(x, 256, Pow2(8 * (k - 1)));
    }
  }

  lemma LeOne(b: byte)
    ensures Le([b]) == b
  {
    assert [b][1..] == [];
  }

  lemma LeSnoc(s: seq<byte>, b: byte)
    ensures Le(s + [b]) == Le(s) + b * Pow2(8 * |s|)
  {
    hide Le, Pow2;
    LeAppend(s, [b]);
    LeOne(b);
  }

  lemma LeOr(s: seq<byte>, b: byte)
    ensures Or(Le(s), b * Pow2(8 * |s|)) == Le(s + [b])
  {
    LeSnoc(s, b);
    LeBound(s);
    OrDisjoint(Le(s), b, 8 * |s|);
  }

  lemma Pow2Words()
    ensures Pow2(8) == 0x100 && Pow2(16) == 0x1_0000 && Pow2(32) == 0x1_0000_0000
    ensures Pow2(64) == B64 && Pow2(128) == B128
  {
    assert Pow2(8) == 0x100;
    hide Pow2;
    Pow2Add(8, 8);
    Pow2Add(16, 16);
    Pow2Add(32, 32);
    Pow2Add(64, 64);
  }

  lemma Le64Bound(s: seq<byte>)
    requires |s| == 8
    ensures Le(s) < B64
  {
    LeBound(s);
    Pow2Words();
  }

  /** le64 of the C sources: eight bytes from `o`, or-ed together under shifts. */
  method LoadLe64(p: seq<byte>, o: nat) returns (v: nat)
    requires o + 8 <= |p|
    ensures v == Le(p[o..o + 8]) < B64
  {
    v := 0;
    for k := 0 to 8
      invariant v == Le(p[o..o + k])
    {
      hide Or, Le, Pow2;
      var s, b := p[o..o + k], p[o + k];
      assert p[o..o + k + 1] == s + [b];
      LeOr(s, b);
      ProductBound(0, 0, b, Pow2(8 * k));
      v := Or(v, b * Pow2(8 * k));
    }
    Le64Bound(p[o..o + 8]);
  }
}
