/**
 bench/x25519.c, the field: elements of GF(2^255 - 19) as five 64-bit limbs at radix 2^51 in
 one flat array, limb products in 128-bit columns, carries folded with 2^255 = 19.
 */
module Field25519 {
  import opened Words

  const P: nat := 0x7fffffff_ffffffff_ffffffff_ffffffff_ffffffff_ffffffff_ffffffff_ffffffed
  const X1: nat := 0x8_0000_0000_0000
  const X2: nat := X1 * X1
  const X3: nat := X1 * X2
  const X4: nat := X1 * X3
  const M51: nat := 0x7_ffff_ffff_ffff

  function MulP(x: int, y: int): (r: nat)
    ensures r < P
  {
    x * y % P
  }

  function AddP(x: int, y: int): (r: nat)
    ensures r < P
  {
    (x + y) % P
  }

  function SubP(x: int, y: int): (r: nat)
    ensures r < P
  {
    (x - y) % P
  }

  function Value(a0: int, a1: int, a2: int, a3: int, a4: int): int {
    a0 + a1 * X1 + a2 * X2 + a3 * X3 + a4 * X4
  }

  /** The number an element's limbs stand for, and its residue. */
  function Num(g: seq<nat>, o: nat): int
    requires o + 5 <= |g|
  {
    Value(g[o], g[o + 1], g[o + 2], g[o + 3], g[o + 4])
  }

  function Elt(g: seq<nat>, o: nat): nat
    requires o + 5 <= |g|
  {
    Num(g, o) % P
  }

  /** Carried: what a multiply leaves and a subtraction may take away. */
  ghost predicate Tight(g: seq<nat>, o: nat) {
    o + 5 <= |g| && forall i | o <= i < o + 5 :: g[i] <= X1
  }

  /** What an addition or a subtraction of carried elements leaves, and a multiply absorbs. */
  ghost predicate Loose(g: seq<nat>, o: nat) {
    o + 5 <= |g| && forall i | o <= i < o + 5 :: g[i] <= 4 * X1
  }

  /** Only the five limbs at `o` may have changed. */
  ghost predicate Kept(before: seq<nat>, after: seq<nat>, o: nat) {
    |before| == |after| && forall i | 0 <= i < |before| && !(o <= i < o + 5) :: after[i] == before[i]
  }

  /** An operand is the destination itself or does not overlap it. */
  ghost predicate Apart(a: nat, o: nat) { a == o || a + 5 <= o || o + 5 <= a }

  // ----- carries

  lemma Pow2At51()
    ensures Pow2(51) == X1
  {
    Pow2Words();
    Pow2Add(32, 16);
    Pow2Add(48, 3);
    assert Pow2(3) == 8;
  }

  /** `(uint64_t)t & M51` and `(uint64_t)(t >> 51)`. */
  function Lo51(t: nat): nat { And(U64(t), M51) }
  function Hi51(t: nat): nat { U64(t / X1) }

  lemma Cut51(t: nat)
    requires t < X1 * B64
    ensures t == Lo51(t) + X1 * Hi51(t) && Lo51(t) < X1
  {
    hide And;
    Pow2At51();
    AndLowMask(U64(t), 51);
    Low51(t);
  }

  lemma Low51(t: nat)
    ensures U64(t) % X1 == t % X1
  {
    DivDiv(t, X1, 0x2000);
    DivUnique(U64(t), X1, t / X1 % 0x2000, t % X1);
  }

  const COL: nat := 0x2_0000_0000_0000_0000_0000_0000_0000

  /** Five 128-bit column sums -> five 51-bit limbs at o, folding the top x19. */
  method CarryOut(g: array<nat>, o: nat, c0: nat, c1: nat, c2: nat, c3: nat, c4: nat)
    requires o + 5 <= g.Length
    requires c0 <= COL && c1 <= COL && c2 <= COL && c3 <= COL && c4 <= COL / 16
    modifies g
    ensures Kept(old(g[..]), g[..], o) && Tight(g[..], o)
    ensures Elt(g[..], o) == Value(c0, c1, c2, c3, c4) % P
  {
    hide Lo51, Hi51, U64, U128, Value;
    Cut51(c0);
    var t1 := U128(c1 + Hi51(c0));
    Low128(c1 + Hi51(c0));
    Cut51(t1);
    var t2 := U128(c2 + Hi51(t1));
    Low128(c2 + Hi51(t1));
    Cut51(t2);
    var t3 := U128(c3 + Hi51(t2));
    Low128(c3 + Hi51(t2));
    Cut51(t3);
    var t4 := U128(c4 + Hi51(t3));
    Low128(c4 + Hi51(t3));
    Cut51(t4);
    FoldTop(g, o, Lo51(c0), Lo51(t1), Lo51(t2), Lo51(t3), Lo51(t4), Hi51(t4));
    CarryValue(c0, c1, c2, c3, c4, Lo51(c0), Lo51(t1), Lo51(t2), Lo51(t3), Lo51(t4),
               Hi51(c0), Hi51(t1), Hi51(t2), Hi51(t3), Hi51(t4));
  }

  /** Carrying keeps the value; the last carry stands at 2^255. */
  lemma CarryValue(c0: int, c1: int, c2: int, c3: int, c4: int, l0: int, l1: int, l2: int, l3: int, l4: int,
                   h0: int, h1: int, h2: int, h3: int, h4: int)
    requires c0 == l0 + X1 * h0 && c1 + h0 == l1 + X1 * h1 && c2 + h1 == l2 + X1 * h2
    requires c3 + h2 == l3 + X1 * h3 && c4 + h3 == l4 + X1 * h4
    ensures Value(c0, c1, c2, c3, c4) == Value(l0, l1, l2, l3, l4) + h4 * (P + 19)
  {
  }

  method FoldTop(g: array<nat>, o: nat, l0: nat, l1: nat, g2: nat, g3: nat, g4: nat, c: nat)
    requires o + 5 <= g.Length
    requires l0 < X1 && l1 < X1 && g2 < X1 && g3 < X1 && g4 < X1 && c <= COL / 8 / X1
    modifies g
    ensures Kept(old(g[..]), g[..], o) && Tight(g[..], o)
    ensures Elt(g[..], o) == (Value(l0, l1, g2, g3, g4) + c * (P + 19)) % P
  {
    hide Lo51, Hi51, U64, U128;
    Low64(c * 19);
    Low64(l0 + c * 19);
    var g0 := U64(l0 + U64(c * 19));
    Cut51(g0);
    Low64(l1 + Hi51(g0));
    var g1 := U64(l1 + Hi51(g0));
    Cut51(g1);
    Low64(g2 + Hi51(g1));
    g[o], g[o + 1], g[o + 2], g[o + 3], g[o + 4] := Lo51(g0), Lo51(g1), U64(g2 + Hi51(g1)), g3, g4;
    assert Num(g[..], o) + c * P == Value(l0, l1, g2, g3, g4) + c * (P + 19);
    Congruent(Value(l0, l1, g2, g3, g4) + c * (P + 19), Num(g[..], o), c, P);
  }

  // ----- products

  /** One limb up: the top limb comes back times 19. */
  lemma ShiftLimb(r0: int, r1: int, r2: int, r3: int, r4: int, f4: int)
    requires f4 == r4 * 19
    ensures X1 * Value(r0, r1, r2, r3, r4) == Value(f4, r0, r1, r2, r3) + P * r4
  {
  }

  lemma Scale(s: int, r0: int, r1: int, r2: int, r3: int, r4: int)
    ensures s * Value(r0, r1, r2, r3, r4) == Value(s * r0, s * r1, s * r2, s * r3, s * r4)
  {
  }

  lemma AddValues(a0: int, a1: int, a2: int, a3: int, a4: int, b0: int, b1: int, b2: int, b3: int, b4: int)
    ensures Value(a0, a1, a2, a3, a4) + Value(b0, b1, b2, b3, b4)
         == Value(a0 + b0, a1 + b1, a2 + b2, a3 + b3, a4 + b4)
  {
  }

  lemma RowSum(s0: int, s1: int, s2: int, s3: int, s4: int, v: int, w1: int, w2: int, w3: int, w4: int)
    requires w1 == X1 * v && w2 == X2 * v && w3 == X3 * v && w4 == X4 * v
    ensures Value(s0, s1, s2, s3, s4) * v == s0 * v + s1 * w1 + s2 * w2 + s3 * w3 + s4 * w4
  {
  }

  lemma RowTerm(s: int, w: int, v: int, k: int)
    requires w == v + P * k
    ensures s * w == s * v + P * (s * k)
  {
  }

  /** What comes back past 2^255 when limbs s meet shifts of r, whose tops are k1 ... k4. */
  function Wrap(k1: int, k2: int, k3: int, k4: int, s1: int, s2: int, s3: int, s4: int): int {
    s1 * k1 + s2 * k2 + s3 * k3 + s4 * k4 + X1 * (s2 * k1 + s3 * k2 + s4 * k3) + X2 * (s3 * k1 + s4 * k2) + X3 * (s4 * k1)
  }

  /** Multiplying by limb i is multiplying the i-fold shift: v1 ... v4 are the shifts of v0 mod p. */
  lemma Rows(s0: int, s1: int, s2: int, s3: int, s4: int, v0: int, v1: int, v2: int, v3: int, v4: int,
             k1: int, k2: int, k3: int, k4: int)
    requires X1 * v0 == v1 + P * k1 && X1 * v1 == v2 + P * k2
    requires X1 * v2 == v3 + P * k3 && X1 * v3 == v4 + P * k4
    ensures Value(s0, s1, s2, s3, s4) * v0 == s0 * v0 + s1 * v1 + s2 * v2 + s3 * v3 + s4 * v4 + P * Wrap(k1, k2, k3, k4, s1, s2, s3, s4)
  {
    var j2, j3, j4 := k2 + X1 * k1, k3 + X1 * k2 + X2 * k1, k4 + X1 * k3 + X2 * k2 + X3 * k1;
    assert X2 * v0 == v2 + P * j2 && X3 * v0 == v3 + P * j3 && X4 * v0 == v4 + P * j4;
    RowSum(s0, s1, s2, s3, s4, v0, X1 * v0, X2 * v0, X3 * v0, X4 * v0);
    RowTerm(s1, X1 * v0, v1, k1);
    RowTerm(s2, X2 * v0, v2, j2);
    RowTerm(s3, X3 * v0, v3, j3);
    RowTerm(s4, X4 * v0, v4, j4);
  }

  function Dot3(x0: int, y0: int, x1: int, y1: int, x2: int, y2: int): int {
    Mul(x0, y0) + Mul(x1, y1) + Mul(x2, y2)
  }

  function Dot5(x0: int, y0: int, x1: int, y1: int, x2: int, y2: int, x3: int, y3: int, x4: int, y4: int): int {
    Mul(x0, y0) + Mul(x1, y1) + Mul(x2, y2) + Mul(x3, y3) + Mul(x4, y4)
  }

  lemma RowsAdd(r0: int, r1: int, r2: int, r3: int, r4: int, s0: int, s1: int, s2: int, s3: int, s4: int,
                f1: int, f2: int, f3: int, f4: int)
    ensures s0 * Value(r0, r1, r2, r3, r4) + s1 * Value(f4, r0, r1, r2, r3) + s2 * Value(f3, f4, r0, r1, r2)
            + s3 * Value(f2, f3, f4, r0, r1) + s4 * Value(f1, f2, f3, f4, r0)
         == Value(Dot5(r0, s0, f4, s1, f1, s4, f2, s3, f3, s2),
                  Dot5(r0, s1, r1, s0, f4, s2, f2, s4, f3, s3),
                  Dot5(r0, s2, r1, s1, r2, s0, f4, s3, f3, s4),
                  Dot5(r0, s3, r1, s2, r2, s1, r3, s0, f4, s4),
                  Dot5(r0, s4, r1, s3, r2, s2, r3, s1, r4, s0))
  {
    hide Value;
    Scale(s0, r0, r1, r2, r3, r4);
    Scale(s1, f4, r0, r1, r2, r3);
    Scale(s2, f3, f4, r0, r1, r2);
    Scale(s3, f2, f3, f4, r0, r1);
    Scale(s4, f1, f2, f3, f4, r0);
    AddValues(s0 * r0, s0 * r1, s0 * r2, s0 * r3, s0 * r4, s1 * f4, s1 * r0, s1 * r1, s1 * r2, s1 * r3);
    AddValues(s2 * f3, s2 * f4, s2 * r0, s2 * r1, s2 * r2, s3 * f2, s3 * f3, s3 * f4, s3 * r0, s3 * r1);
    AddValues(s0 * r0 + s1 * f4, s0 * r1 + s1 * r0, s0 * r2 + s1 * r1, s0 * r3 + s1 * r2, s0 * r4 + s1 * r3,
              s2 * f3 + s3 * f2, s2 * f4 + s3 * f3, s2 * r0 + s3 * f4, s2 * r1 + s3 * r0, s2 * r2 + s3 * r1);
    AddValues(s0 * r0 + s1 * f4 + (s2 * f3 + s3 * f2), s0 * r1 + s1 * r0 + (s2 * f4 + s3 * f3),
              s0 * r2 + s1 * r1 + (s2 * r0 + s3 * f4), s0 * r3 + s1 * r2 + (s2 * r1 + s3 * r0),
              s0 * r4 + s1 * r3 + (s2 * r2 + s3 * r1), s4 * f1, s4 * f2, s4 * f3, s4 * f4, s4 * r0);
  }

  /** The product of two elements, column by column. */
  lemma MulColumns(r0: int, r1: int, r2: int, r3: int, r4: int, s0: int, s1: int, s2: int, s3: int, s4: int,
                   f1: int, f2: int, f3: int, f4: int)
    requires f1 == r1 * 19 && f2 == r2 * 19 && f3 == r3 * 19 && f4 == r4 * 19
    ensures Value(r0, r1, r2, r3, r4) * Value(s0, s1, s2, s3, s4)
         == Value(Dot5(r0, s0, f4, s1, f1, s4, f2, s3, f3, s2),
                  Dot5(r0, s1, r1, s0, f4, s2, f2, s4, f3, s3),
                  Dot5(r0, s2, r1, s1, r2, s0, f4, s3, f3, s4),
                  Dot5(r0, s3, r1, s2, r2, s1, r3, s0, f4, s4),
                  Dot5(r0, s4, r1, s3, r2, s2, r3, s1, r4, s0)) + P * Wrap(r4, r3, r2, r1, s1, s2, s3, s4)
  {
    hide Value, Dot5, Wrap;
    ShiftLimb(r0, r1, r2, r3, r4, f4);
    ShiftLimb(f4, r0, r1, r2, r3, f3);
    ShiftLimb(f3, f4, r0, r1, r2, f2);
    ShiftLimb(f2, f3, f4, r0, r1, f1);
    Rows(s0, s1, s2, s3, s4, Value(r0, r1, r2, r3, r4), Value(f4, r0, r1, r2, r3), Value(f3, f4, r0, r1, r2),
         Value(f2, f3, f4, r0, r1), Value(f1, f2, f3, f4, r0), r4, r3, r2, r1);
    RowsAdd(r0, r1, r2, r3, r4, s0, s1, s2, s3, s4, f1, f2, f3, f4);
  }

  const L: nat := 0x20_0000_0000_0000

  /** Five products of limbs, the first factors perhaps times 19: the column stays inside 128 bits. */
  lemma Column5(x0: nat, y0: nat, x1: nat, y1: nat, x2: nat, y2: nat, x3: nat, y3: nat, x4: nat, y4: nat)
    requires y0 <= L && y1 <= L && y2 <= L && y3 <= L && y4 <= L
    requires x0 <= 19 * L && x1 <= 19 * L && x2 <= 19 * L && x3 <= 19 * L && x4 <= 19 * L
    ensures 0 <= Dot5(x0, y0, x1, y1, x2, y2, x3, y3, x4, y4) <= COL
    ensures x0 <= L && x1 <= L && x2 <= L && x3 <= L && x4 <= L ==>
      Dot5(x0, y0, x1, y1, x2, y2, x3, y3, x4, y4) <= COL / 16
  {
    hide Mul;
    MulBound(x0, y0, 19 * L, L);
    MulBound(x1, y1, 19 * L, L);
    MulBound(x2, y2, 19 * L, L);
    MulBound(x3, y3, 19 * L, L);
    MulBound(x4, y4, 19 * L, L);
    if x0 <= L && x1 <= L && x2 <= L && x3 <= L && x4 <= L {
      MulBound(x0, y0, L, L);
      MulBound(x1, y1, L, L);
      MulBound(x2, y2, L, L);
      MulBound(x3, y3, L, L);
      MulBound(x4, y4, L, L);
    }
  }

  /** Three products, the first factors doubled or times 38. */
  lemma Column3(x0: nat, y0: nat, x1: nat, y1: nat, x2: nat, y2: nat)
    requires y0 <= L && y1 <= L && y2 <= L
    requires x0 <= 38 * L && x1 <= 38 * L && x2 <= 38 * L
    ensures 0 <= Dot3(x0, y0, x1, y1, x2, y2) <= COL
    ensures x0 <= 2 * L && x1 <= 2 * L && x2 <= 2 * L ==> Dot3(x0, y0, x1, y1, x2, y2) <= COL / 16
  {
    hide Mul;
    MulBound(x0, y0, 38 * L, L);
    MulBound(x1, y1, 38 * L, L);
    MulBound(x2, y2, 38 * L, L);
    if x0 <= 2 * L && x1 <= 2 * L && x2 <= 2 * L {
      MulBound(x0, y0, 2 * L, L);
      MulBound(x1, y1, 2 * L, L);
      MulBound(x2, y2, 2 * L, L);
    }
  }

  /** The column sums of fmul. */
  method MulSums(r0: nat, r1: nat, r2: nat, r3: nat, r4: nat, s0: nat, s1: nat, s2: nat, s3: nat, s4: nat)
    returns (t0: nat, t1: nat, t2: nat, t3: nat, t4: nat)
    requires r0 <= L && r1 <= L && r2 <= L && r3 <= L && r4 <= L
    requires s0 <= L && s1 <= L && s2 <= L && s3 <= L && s4 <= L
    ensures t0 <= COL && t1 <= COL && t2 <= COL && t3 <= COL && t4 <= COL / 16
    ensures Value(t0, t1, t2, t3, t4) % P == Value(r0, r1, r2, r3, r4) * Value(s0, s1, s2, s3, s4) % P
  {
    hide U64, U128, Value, Dot5, Wrap;
    Low64(r1 * 19);
    Low64(r2 * 19);
    Low64(r3 * 19);
    Low64(r4 * 19);
    var f1, f2, f3, f4 := U64(r1 * 19), U64(r2 * 19), U64(r3 * 19), U64(r4 * 19);
    Column5(r0, s0, f4, s1, f1, s4, f2, s3, f3, s2);
    Low128(Dot5(r0, s0, f4, s1, f1, s4, f2, s3, f3, s2));
    Column5(r0, s1, r1, s0, f4, s2, f2, s4, f3, s3);
    Low128(Dot5(r0, s1, r1, s0, f4, s2, f2, s4, f3, s3));
    Column5(r0, s2, r1, s1, r2, s0, f4, s3, f3, s4);
    Low128(Dot5(r0, s2, r1, s1, r2, s0, f4, s3, f3, s4));
    Column5(r0, s3, r1, s2, r2, s1, r3, s0, f4, s4);
    Low128(Dot5(r0, s3, r1, s2, r2, s1, r3, s0, f4, s4));
    Column5(r0, s4, r1, s3, r2, s2, r3, s1, r4, s0);
    Low128(Dot5(r0, s4, r1, s3, r2, s2, r3, s1, r4, s0));
    t0 := U128(Dot5(r0, s0, f4, s1, f1, s4, f2, s3, f3, s2));
    t1 := U128(Dot5(r0, s1, r1, s0, f4, s2, f2, s4, f3, s3));
    t2 := U128(Dot5(r0, s2, r1, s1, r2, s0, f4, s3, f3, s4));
    t3 := U128(Dot5(r0, s3, r1, s2, r2, s1, r3, s0, f4, s4));
    t4 := U128(Dot5(r0, s4, r1, s3, r2, s2, r3, s1, r4, s0));
    MulColumns(r0, r1, r2, r3, r4, s0, s1, s2, s3, s4, f1, f2, f3, f4);
    Congruent(Value(r0, r1, r2, r3, r4) * Value(s0, s1, s2, s3, s4), Value(t0, t1, t2, t3, t4),
              Wrap(r4, r3, r2, r1, s1, s2, s3, s4), P);
  }

  lemma ModProduct(x: int, y: int)
    ensures (x % P) * (y % P) % P == x * y % P
  {
    ModMul(x, y % P, P);
    ModMul(y, x, P);
  }

  /** o = a * b mod p. o may alias a or b. */
  method FMul(g: array<nat>, o: nat, a: nat, b: nat)
    requires o + 5 <= g.Length && Loose(g[..], a) && Loose(g[..], b)
    modifies g
    ensures Kept(old(g[..]), g[..], o) && Tight(g[..], o)
    ensures Elt(g[..], o) == MulP(old(Elt(g[..], a)), old(Elt(g[..], b)))
  {
    hide Value;
    ModProduct(Num(g[..], a), Num(g[..], b));
    var t0, t1, t2, t3, t4 := MulSums(g[a], g[a + 1], g[a + 2], g[a + 3], g[a + 4],
                                      g[b], g[b + 1], g[b + 2], g[b + 3], g[b + 4]);
    CarryOut(g, o, t0, t1, t2, t3, t4);
  }

  /** The column sums of fsq: each cross term once, doubled. */
  method SqSums(r0: nat, r1: nat, r2: nat, r3: nat, r4: nat)
    returns (t0: nat, t1: nat, t2: nat, t3: nat, t4: nat)
    requires r0 <= L && r1 <= L && r2 <= L && r3 <= L && r4 <= L
    ensures t0 <= COL && t1 <= COL && t2 <= COL && t3 <= COL && t4 <= COL / 16
    ensures Value(t0, t1, t2, t3, t4) % P == Value(r0, r1, r2, r3, r4) * Value(r0, r1, r2, r3, r4) % P
  {
    hide U64, U128, Value, Dot3, Wrap;
    Low64(r0 * 2);
    Low64(r1 * 2);
    Low64(r2 * 38);
    Low64(r4 * 19);
    Low64(r4 * 38);
    Low64(r3 * 19);
    var d0, d1, d2, d419 := U64(r0 * 2), U64(r1 * 2), U64(r2 * 38), U64(r4 * 19);
    var d4, r319 := U64(d419 * 2), U64(r3 * 19);
    Column3(r0, r0, d4, r1, d2, r3);
    Low128(Dot3(r0, r0, d4, r1, d2, r3));
    Column3(d0, r1, d4, r2, r319, r3);
    Low128(Dot3(d0, r1, d4, r2, r319, r3));
    Column3(d0, r2, r1, r1, d4, r3);
    Low128(Dot3(d0, r2, r1, r1, d4, r3));
    Column3(d0, r3, d1, r2, d419, r4);
    Low128(Dot3(d0, r3, d1, r2, d419, r4));
    Column3(d0, r4, d1, r3, r2, r2);
    Low128(Dot3(d0, r4, d1, r3, r2, r2));
    t0 := U128(Dot3(r0, r0, d4, r1, d2, r3));
    t1 := U128(Dot3(d0, r1, d4, r2, r319, r3));
    t2 := U128(Dot3(d0, r2, r1, r1, d4, r3));
    t3 := U128(Dot3(d0, r3, d1, r2, d419, r4));
    t4 := U128(Dot3(d0, r4, d1, r3, r2, r2));
    SqColumns(r0, r1, r2, r3, r4, d0, d1, d2, d419, d4, r319);
    Congruent(Value(r0, r1, r2, r3, r4) * Value(r0, r1, r2, r3, r4), Value(t0, t1, t2, t3, t4),
              Wrap(r4, r3, r2, r1, r1, r2, r3, r4), P);
  }

  lemma SqColumns(r0: int, r1: int, r2: int, r3: int, r4: int,
                  d0: int, d1: int, d2: int, f4: int, d4: int, f3: int)
    requires d0 == r0 * 2 && d1 == r1 * 2 && d2 == r2 * 38 && f4 == r4 * 19 && d4 == f4 * 2 && f3 == r3 * 19
    ensures Value(Dot3(r0, r0, d4, r1, d2, r3), Dot3(d0, r1, d4, r2, f3, r3), Dot3(d0, r2, r1, r1, d4, r3),
                  Dot3(d0, r3, d1, r2, f4, r4), Dot3(d0, r4, d1, r3, r2, r2)) + P * Wrap(r4, r3, r2, r1, r1, r2, r3, r4)
         == Value(r0, r1, r2, r3, r4) * Value(r0, r1, r2, r3, r4)
  {
  }

  /** o = a^2 mod p, the cross terms doubled once. */
  method FSq(g: array<nat>, o: nat, a: nat)
    requires o + 5 <= g.Length && Loose(g[..], a)
    modifies g
    ensures Kept(old(g[..]), g[..], o) && Tight(g[..], o)
    ensures Elt(g[..], o) == MulP(old(Elt(g[..], a)), old(Elt(g[..], a)))
  {
    hide Value;
    ModProduct(Num(g[..], a), Num(g[..], a));
    var t0, t1, t2, t3, t4 := SqSums(g[a], g[a + 1], g[a + 2], g[a + 3], g[a + 4]);
    CarryOut(g, o, t0, t1, t2, t3, t4);
  }

  // ----- sums and differences

  /** o = a + b, limbwise; the next multiply carries. */
  method FAdd(g: array<nat>, o: nat, a: nat, b: nat)
    requires o + 5 <= g.Length && Apart(a, o) && Apart(b, o)
    requires Tight(g[..], a) && Tight(g[..], b)
    modifies g
    ensures Kept(old(g[..]), g[..], o) && Loose(g[..], o)
    ensures Elt(g[..], o) == AddP(old(Elt(g[..], a)), old(Elt(g[..], b)))
  {
    hide Value, U64, Elt, AddP;
    ghost var s := g[..];
    for i := 0 to 5
      invariant Kept(s, g[..], o)
      invariant forall j | o + i <= j < o + 5 :: g[j] == s[j]
      invariant forall j | o <= j < o + i :: g[j] == s[a + (j - o)] + s[b + (j - o)]
    {
      Low64(s[a + i] + s[b + i]);
      g[o + i] := U64(g[a + i] + g[b + i]);
    }
    SumOf(s, g[..], o, a, b);
  }

  lemma SumOf(s: seq<nat>, t: seq<nat>, o: nat, a: nat, b: nat)
    requires o + 5 <= |t| && a + 5 <= |s| && b + 5 <= |s|
    requires forall j | o <= j < o + 5 :: t[j] == s[a + (j - o)] + s[b + (j - o)]
    ensures Elt(t, o) == AddP(Elt(s, a), Elt(s, b))
  {
    hide Value;
    AddValues(s[a], s[a + 1], s[a + 2], s[a + 3], s[a + 4], s[b], s[b + 1], s[b + 2], s[b + 3], s[b + 4]);
    ModSum(Num(s, a), Num(s, b));
  }

  lemma ModSum(x: int, y: int)
    ensures (x % P + y % P) % P == (x + y) % P && (x % P - y % P) % P == (x - y) % P
  {
    ModAdd(x, y % P, P);
    ModAdd(y, x, P);
    ModAdd(x, -(y % P), P);
    Congruent(x - y % P, x - y, y / P, P);
  }

  lemma SubLimb(x: nat, y: nat, c: nat)
    requires x <= X1 && y <= X1 <= c <= 2 * X1
    ensures U64(U64(x + c) - y) == x + c - y
  {
  }

  /** o = a - b + 2p, limbwise, so no limb goes negative. */
  method FSub(g: array<nat>, o: nat, a: nat, b: nat)
    requires o + 5 <= g.Length && Apart(a, o) && Apart(b, o)
    requires Tight(g[..], a) && Tight(g[..], b)
    modifies g
    ensures Kept(old(g[..]), g[..], o) && Loose(g[..], o)
    ensures Elt(g[..], o) == SubP(old(Elt(g[..], a)), old(Elt(g[..], b)))
  {
    hide U64, Value;
    ghost var s := g[..];
    SubLimb(s[a], s[b], 0xf_ffff_ffff_ffda);
    SubLimb(s[a + 1], s[b + 1], 0xf_ffff_ffff_fffe);
    SubLimb(s[a + 2], s[b + 2], 0xf_ffff_ffff_fffe);
    SubLimb(s[a + 3], s[b + 3], 0xf_ffff_ffff_fffe);
    SubLimb(s[a + 4], s[b + 4], 0xf_ffff_ffff_fffe);
    g[o], g[o + 1], g[o + 2], g[o + 3], g[o + 4] :=
      U64(U64(g[a] + 0xf_ffff_ffff_ffda) - g[b]),
      U64(U64(g[a + 1] + 0xf_ffff_ffff_fffe) - g[b + 1]),
      U64(U64(g[a + 2] + 0xf_ffff_ffff_fffe) - g[b + 2]),
      U64(U64(g[a + 3] + 0xf_ffff_ffff_fffe) - g[b + 3]),
      U64(U64(g[a + 4] + 0xf_ffff_ffff_fffe) - g[b + 4]);
    TwiceP(s[a], s[a + 1], s[a + 2], s[a + 3], s[a + 4], s[b], s[b + 1], s[b + 2], s[b + 3], s[b + 4]);
    Congruent(Num(s, a) - Num(s, b) + 2 * P, Num(s, a) - Num(s, b), 2, P);
    ModSum(Num(s, a), Num(s, b));
  }

  lemma TwiceP(a0: int, a1: int, a2: int, a3: int, a4: int, b0: int, b1: int, b2: int, b3: int, b4: int)
    requires b0 <= X1 && b1 <= X1 && b2 <= X1 && b3 <= X1 && b4 <= X1
    ensures Value(a0 + 0xf_ffff_ffff_ffda - b0, a1 + 0xf_ffff_ffff_fffe - b1, a2 + 0xf_ffff_ffff_fffe - b2,
                  a3 + 0xf_ffff_ffff_fffe - b3, a4 + 0xf_ffff_ffff_fffe - b4)
         == Value(a0, a1, a2, a3, a4) - Value(b0, b1, b2, b3, b4) + 2 * P
  {
  }
}
