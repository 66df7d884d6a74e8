/**
 bench/x25519.c, what the ladder's loop computes: its body is the doubling and the differential addition of
 the curve y^2 = x^3 + 486662 x^2 + x, and over the bits of a clamped scalar it adds up that multiple.
 */
module Montgomery {
  import opened Words
  import opened Field25519
  import opened Encode25519
  import opened X25519

  // ----- the formulas, over the integers

  /** a times b, by adding. */
  function Product(a: int, b: int): int
    decreases if a < 0 then -a else a
  {
    if a == 0 then 0 else if a > 0 then Product(a - 1, b) + b else Product(a + 1, b) - b
  }

  function Square(a: int): int { Product(a, a) }

  lemma {:induction false} ProductIs(a: int, b: int)
    ensures Product(a, b) == a * b
    decreases if a < 0 then -a else a
  {
    if a > 0 {
      ProductIs(a - 1, b);
    } else if a < 0 {
      ProductIs(a + 1, b);
    }
  }

  /** The same residue modulo p. */
  predicate Same(a: int, f: int) { a % P == f % P }

  lemma SumAndDifference(x: int, z: int)
    ensures Square(x + z) - Square(x - z) == 4 * Product(x, z)
    ensures Product(Square(x + z), Square(x - z)) == Square(Square(x) - Square(z))
    ensures Square(x + z) + 121665 * (4 * Product(x, z)) == Square(x) + 486662 * Product(x, z) + Square(z)
  {
    hide Product;
    ProductIs(x + z, x + z);
    ProductIs(x - z, x - z);
    ProductIs(x, z);
    ProductIs(x, x);
    ProductIs(z, z);
    ProductIs(Square(x + z), Square(x - z));
    ProductIs(Square(x) - Square(z), Square(x) - Square(z));
    SquareOfProduct(x + z, x - z);
    Conjugates(x, z);
  }

  lemma Conjugates(x: int, z: int)
    ensures (x + z) * (x - z) == x * x - z * z
  {
  }

  lemma SquareOfProduct(a: int, b: int)
    ensures a * a * (b * b) == a * b * (a * b)
  {
  }

  lemma Crossed(x2: int, z2: int, x3: int, z3: int)
    ensures Product(x3 - z3, x2 + z2) + Product(x3 + z3, x2 - z2) == 2 * (Product(x2, x3) - Product(z2, z3))
    ensures Product(x3 - z3, x2 + z2) - Product(x3 + z3, x2 - z2) == 2 * (Product(x3, z2) - Product(x2, z3))
  {
    hide Product;
    ProductIs(x3 - z3, x2 + z2);
    ProductIs(x3 + z3, x2 - z2);
    ProductIs(x2, x3);
    ProductIs(z2, z3);
    ProductIs(x3, z2);
    ProductIs(x2, z3);
  }

  lemma SquareOfTwice(a: int)
    ensures Square(2 * a) == 4 * Square(a) && Square(-a) == Square(a)
  {
    hide Product;
    ProductIs(2 * a, 2 * a);
    ProductIs(a, a);
    ProductIs(-a, -a);
  }

  // ----- and modulo p

  lemma MulSame(a: int, b: int, x: int, y: int)
    requires Same(a, x) && Same(b, y)
    ensures Same(MulP(a, b), Product(x, y))
  {
    ProductIs(x, y);
    MulModulo(a, b, x, y, P);
  }

  lemma MulModulo(a: int, b: int, x: int, y: int, m: nat)
    requires m > 0 && a % m == x % m && b % m == y % m
    ensures a * b % m % m == x * y % m
  {
    ModMul(a, b, m);
    ModMul(x, b, m);
    ModMul(b, x, m);
    ModMul(y, x, m);
    Turned(x, b, y);
    Reduced(a * b, m);
  }

  lemma Turned(x: int, b: int, y: int)
    ensures x * b == b * x && x * y == y * x
  {
  }

  lemma Reduced(a: int, m: nat)
    requires m > 0
    ensures a % m % m == a % m
  {
    SmallMod(a % m, m);
  }

  lemma AddSame(a: int, b: int, x: int, y: int)
    requires Same(a, x) && Same(b, y)
    ensures Same(AddP(a, b), x + y) && Same(SubP(a, b), x - y)
  {
    AddModulo(a, b, x, y, P);
  }

  lemma AddModulo(a: int, b: int, x: int, y: int, m: nat)
    requires m > 0 && a % m == x % m && b % m == y % m
    ensures (a + b) % m % m == (x + y) % m && (a - b) % m % m == (x - y) % m
  {
    var i, j := a / m - x / m, b / m - y / m;
    Apart(a, x, m);
    Apart(b, y, m);
    Spread(i, j, m);
    Congruent(a + b, x + y, i + j, m);
    Congruent(a - b, x - y, i - j, m);
    Reduced(a + b, m);
    Reduced(a - b, m);
  }

  lemma Apart(a: int, x: int, m: nat)
    requires m > 0 && a % m == x % m
    ensures a == x + m * (a / m - x / m)
  {
  }

  lemma Spread(i: int, j: int, m: nat)
    ensures m * (i + j) == m * i + m * j && m * (i - j) == m * i - m * j
  {
  }

  /** Doubling on the curve, up to a common factor. */
  ghost predicate Doubles(x: int, z: int, x': int, z': int) {
    && Same(x', Square(Square(x) - Square(z)))
    && Same(z', Product(4 * Product(x, z), Square(x) + 486662 * Product(x, z) + Square(z)))
  }

  /** Adding two points whose difference has coordinate x1, up to a common factor. */
  ghost predicate Adds(x2: int, z2: int, x3: int, z3: int, x1: int, x': int, z': int) {
    && Same(x', 4 * Square(Product(x2, x3) - Product(z2, z3)))
    && Same(z', Product(x1, 4 * Square(Product(x2, z3) - Product(x3, z2))))
  }

  lemma DoubleX(x: int, z: int, aa: nat, bb: nat)
    requires Same(aa, Square(x + z)) && Same(bb, Square(x - z))
    ensures Same(MulP(aa, bb), Square(Square(x) - Square(z)))
    ensures Same(SubP(aa, bb), 4 * Product(x, z))
  {
    hide Same, MulP, SubP, Square, Product;
    MulSame(aa, bb, Square(x + z), Square(x - z));
    AddSame(aa, bb, Square(x + z), Square(x - z));
    SumAndDifference(x, z);
  }

  lemma DoubleZ(x: int, z: int, aa: nat, e: nat)
    requires Same(aa, Square(x + z)) && Same(e, 4 * Product(x, z))
    ensures Same(MulP(e, AddP(aa, MulP(121665, e))), Product(4 * Product(x, z), Square(x) + 486662 * Product(x, z) + Square(z)))
  {
    hide Same, MulP, AddP, Square, Product;
    Itself(121665);
    MulSame(121665, e, 121665, 4 * Product(x, z));
    ProductIs(121665, 4 * Product(x, z));
    AddSame(aa, MulP(121665, e), Square(x + z), 121665 * (4 * Product(x, z)));
    SumAndDifference(x, z);
    MulSame(e, AddP(aa, MulP(121665, e)), 4 * Product(x, z), Square(x) + 486662 * Product(x, z) + Square(z));
  }

  lemma Itself(x: int)
    ensures Same(x, x)
  {
  }

  lemma Squared(a: int, x: int)
    requires Same(a, x)
    ensures Same(MulP(a, a), Square(x))
  {
    hide Same, MulP;
    MulSame(a, a, x, x);
    assert Product(x, x) == Square(x);
  }

  lemma AddX(x2: int, z2: int, x3: int, z3: int, da: nat, cb: nat)
    requires Same(da, Product(x3 - z3, x2 + z2)) && Same(cb, Product(x3 + z3, x2 - z2))
    ensures Same(MulP(AddP(da, cb), AddP(da, cb)), 4 * Square(Product(x2, x3) - Product(z2, z3)))
    ensures Same(MulP(SubP(da, cb), SubP(da, cb)), 4 * Square(Product(x2, z3) - Product(x3, z2)))
  {
    hide Same, MulP, AddP, SubP, Square, Product;
    Crossed(x2, z2, x3, z3);
    var sum, difference := Product(x2, x3) - Product(z2, z3), Product(x2, z3) - Product(x3, z2);
    AddSame(da, cb, Product(x3 - z3, x2 + z2), Product(x3 + z3, x2 - z2));
    Squared(AddP(da, cb), 2 * sum);
    Squared(SubP(da, cb), 2 * -difference);
    SquareOfTwice(sum);
    SquareOfTwice(difference);
    SquareOfTwice(-difference);
  }

  /** The loop's body doubles the first point and adds the second to it. */
  lemma StepOnCurve(s: Points, x1: nat)
    ensures var t := RfcStep(s, x1);
      Doubles(s.x2, s.z2, t.x2, t.z2) && Adds(s.x2, s.z2, s.x3, s.z3, x1, t.x3, t.z3)
  {
    hide Same, MulP, AddP, SubP, Square, Product;
    var a, b, c, d := AddP(s.x2, s.z2), SubP(s.x2, s.z2), AddP(s.x3, s.z3), SubP(s.x3, s.z3);
    Itself(s.x2);
    Itself(s.z2);
    Itself(s.x3);
    Itself(s.z3);
    Itself(x1);
    AddSame(s.x2, s.z2, s.x2, s.z2);
    AddSame(s.x3, s.z3, s.x3, s.z3);
    Squared(a, s.x2 + s.z2);
    Squared(b, s.x2 - s.z2);
    DoubleX(s.x2, s.z2, MulP(a, a), MulP(b, b));
    DoubleZ(s.x2, s.z2, MulP(a, a), SubP(MulP(a, a), MulP(b, b)));
    MulSame(d, a, s.x3 - s.z3, s.x2 + s.z2);
    MulSame(c, b, s.x3 + s.z3, s.x2 - s.z2);
    AddX(s.x2, s.z2, s.x3, s.z3, MulP(d, a), MulP(c, b));
    var difference := SubP(MulP(d, a), MulP(c, b));
    MulSame(x1, MulP(difference, difference), x1, 4 * Square(Product(s.x2, s.z3) - Product(s.x3, s.z2)));
  }

  // ----- the multiple a scalar names

  /**
   The n-th multiple and the one after it, by halving n: the n-th is the double of the half or the half and
   the one after it added, and so the next.
   */
  function Multiple(n: nat, x1: nat): Points {
    if n == 0 then Points(1, 0, x1, 1)
    else if n % 2 == 0 then RfcStep(Multiple(n / 2, x1), x1)
    else CSwap(1, RfcStep(CSwap(1, Multiple(n / 2, x1)), x1))
  }

  lemma Shifted(k: nat, t: nat)
    ensures k / Pow2(t) == 2 * (k / Pow2(t + 1)) + Bit(k, t)
  {
    assert Pow2(t + 1) == Pow2(t) * 2;
    DivDiv(k, Pow2(t), 2);
  }

  lemma TopBits(k: nat, t: nat)
    requires Pow2(254) <= k && t <= 254
    ensures k / Pow2(t) > 0
  {
    hide Pow2;
    Pow2Add(t, 254 - t);
    Above(k, Pow2(t), Pow2(254 - t));
  }

  lemma Above(k: nat, p: nat, q: nat)
    requires p > 0 && q > 0 && k >= p * q
    ensures k / p > 0
  {
    if k / p == 0 {
      DivUnique(k, p, 0, k % p);
      ProductBound(p, 1, p, q);
    }
  }

  /** After bits 254 down to t of a clamped scalar the two points are the multiples its top bits name. */
  lemma {:induction false} LadderMultiplies(k: nat, x1: nat, t: nat)
    requires Pow2(254) <= k < Pow2(255) && t <= 255
    ensures EagerLadder(k, x1, t) == Multiple(k / Pow2(t), x1)
    decreases 255 - t
  {
    hide Pow2, Bit, RfcStep, CSwap;
    if t == 255 {
      DivUnique(k, Pow2(255), 0, k);
    } else {
      LadderMultiplies(k, x1, t + 1);
      Shifted(k, t);
      TopBits(k, t);
      Unswapped(RfcStep(Multiple(k / Pow2(t + 1), x1), x1), Multiple(k / Pow2(t + 1), x1));
    }
  }

  lemma Unswapped(s: Points, t: Points)
    ensures CSwap(0, s) == s && CSwap(0, t) == t
  {
  }

  /** X25519 of any scalar and coordinate: the coordinate of the multiple the clamped scalar names. */
  lemma X25519Multiplies(n: seq<byte>, u: nat)
    requires |n| == 32
    ensures var k := DecodeScalar(n);
      RfcX25519(k, u) == MulP(Multiple(k, u).x2, Power(Multiple(k, u).z2, P - 2))
  {
    hide DecodeScalar, EagerLadder, Multiple, Power, MulP, Pow2, RfcX25519;
    ScalarRange(n);
    LadderMultiplies(DecodeScalar(n), u, 0);
    FinishLadder(DecodeScalar(n), u);
    PowZero(DecodeScalar(n));
  }

  lemma PowZero(k: nat)
    ensures k / Pow2(0) == k
  {
  }
}
