/**
 bench/x25519.c, the ladder: X25519 of RFC 7748 over the field of Field25519, every element at
 its offset in one flat limb array.
 */
module X25519 {
  import opened Words
  import opened Field25519
  import opened Encode25519

  const FA := 0
  const FB := 5
  const FC := 10
  const FD := 15
  const FE := 20
  const FF := 25
  const FX := 30
  const FK := 35
  const FZ2 := 40
  const FZ9 := 45
  const FZ11 := 50
  const FZ5 := 55
  const FZ10 := 60
  const FZ50 := 65
  const FT := 70
  const GLIMBS := 75

  // ----- section 5 of RFC 7748

  datatype Points = Points(x2: nat, z2: nat, x3: nat, z3: nat)

  function CSwap(swap: nat, s: Points): Points {
    if swap == 1 then Points(s.x3, s.z3, s.x2, s.z2) else s
  }

  /** One pass of the RFC's loop after its conditional swap; a24 is 121665. */
  function RfcStep(s: Points, x1: nat): Points {
    var A := AddP(s.x2, s.z2);
    var AA := MulP(A, A);
    var B := SubP(s.x2, s.z2);
    var BB := MulP(B, B);
    var E := SubP(AA, BB);
    var C := AddP(s.x3, s.z3);
    var D := SubP(s.x3, s.z3);
    var DA := MulP(D, A);
    var CB := MulP(C, B);
    Points(MulP(AA, BB), MulP(E, AddP(AA, MulP(121665, E))),
           MulP(AddP(DA, CB), AddP(DA, CB)), MulP(x1, MulP(SubP(DA, CB), SubP(DA, CB))))
  }

  /** The RFC's lazy-swap ladder after bits 254 down to t: the points and the pending swap. */
  function RfcLadder(k: nat, x1: nat, t: nat): (Points, nat)
    requires t <= 255
    decreases 255 - t
  {
    if t == 255 then (Points(1, 0, x1, 1), 0)
    else
      var (s, swap) := RfcLadder(k, x1, t + 1);
      var kt := Bit(k, t);
      (RfcStep(CSwap((swap + kt) % 2, s), x1), kt)
  }

  function Power(x: nat, e: nat): (r: nat)
    ensures r < P
  {
    if e == 0 then 1 else MulP(x, Power(x, e - 1))
  }

  /** x_2 * z_2^(p - 2) after the last swap. */
  function RfcX25519(k: nat, u: nat): nat {
    var (s, swap) := RfcLadder(k, u, 0);
    var r := CSwap(swap, s);
    MulP(r.x2, Power(r.z2, P - 2))
  }

  // ----- eager swaps

  /** The ladder of the source: swapped back after every step. */
  function EagerLadder(k: nat, x1: nat, t: nat): Points
    requires t <= 255
    decreases 255 - t
  {
    if t == 255 then Points(1, 0, x1, 1)
    else
      var b := Bit(k, t);
      CSwap(b, RfcStep(CSwap(b, EagerLadder(k, x1, t + 1)), x1))
  }

  lemma SwapTwice(a: nat, b: nat, s: Points)
    requires a < 2 && b < 2
    ensures CSwap(a, CSwap(b, s)) == CSwap((b + a) % 2, s)
  {
  }

  /** Swapping back at once is the RFC's ladder with its pending swap carried out. */
  lemma {:induction false} EagerIsLazy(k: nat, x1: nat, t: nat)
    requires t <= 255
    ensures RfcLadder(k, x1, t).1 < 2
    ensures EagerLadder(k, x1, t) == CSwap(RfcLadder(k, x1, t).1, RfcLadder(k, x1, t).0)
    decreases 255 - t
  {
    if t < 255 {
      hide RfcStep, CSwap, Bit;
      EagerIsLazy(k, x1, t + 1);
      SwapTwice(Bit(k, t), RfcLadder(k, x1, t + 1).1, RfcLadder(k, x1, t + 1).0);
    }
  }

  // ----- the register file

  datatype Reg = Reg(x: nat, tight: bool)

  /** The limb array holds, at every described offset, limbs of the described residue and bound. */
  ghost predicate Rep(g: seq<nat>, v: map<nat, Reg>) {
    |g| == GLIMBS && forall o | o in v :: o % 5 == 0 && o < GLIMBS && Holds(g, o, v[o])
  }

  ghost predicate Holds(g: seq<nat>, o: nat, r: Reg)
    requires |g| == GLIMBS && o % 5 == 0 && o < GLIMBS
  {
    Elt(g, o) == r.x && Loose(g, o) && (r.tight ==> Tight(g, o))
  }

  lemma KeptElt(before: seq<nat>, after: seq<nat>, o: nat, x: nat)
    requires Kept(before, after, o) && x + 5 <= |before| && (x + 5 <= o || o + 5 <= x)
    ensures Elt(after, x) == Elt(before, x)
    ensures Tight(before, x) ==> Tight(after, x)
    ensures Loose(before, x) ==> Loose(after, x)
  {
    hide Value;
  }

  lemma Multiples(x: nat, o: nat)
    requires x % 5 == 0 && o % 5 == 0 && x != o
    ensures x + 5 <= o || o + 5 <= x
  {
  }

  lemma TightIsLoose(g: seq<nat>, o: nat)
    ensures Tight(g, o) ==> Loose(g, o)
  {
  }

  lemma Put(before: seq<nat>, after: seq<nat>, v: map<nat, Reg>, o: nat, r: Reg)
    requires Rep(before, v) && o % 5 == 0 && o < GLIMBS
    requires Kept(before, after, o) && Elt(after, o) == r.x
    requires if r.tight then Tight(after, o) else Loose(after, o)
    ensures Rep(after, v[o := r])
  {
    hide Elt, Tight, Loose;
    TightIsLoose(after, o);
    forall x | x in v && x != o ensures x % 5 == 0 && x < GLIMBS && Holds(after, x, v[x]) {
      assert Holds(before, x, v[x]);
      Multiples(x, o);
      KeptElt(before, after, o, x);
    }
  }

  method Mul25519(g: array<nat>, o: nat, a: nat, b: nat, ghost v: map<nat, Reg>) returns (ghost w: map<nat, Reg>)
    requires Rep(g[..], v) && a in v && b in v && o % 5 == 0 && o < GLIMBS
    modifies g
    ensures w == v[o := Reg(MulP(v[a].x, v[b].x), true)] && Rep(g[..], w)
  {
    hide Elt, Tight, Loose, Kept, MulP, AddP, SubP;
    ghost var before := g[..];
    assert Holds(before, a, v[a]) && Holds(before, b, v[b]);
    FMul(g, o, a, b);
    w := v[o := Reg(MulP(v[a].x, v[b].x), true)];
    Put(before, g[..], v, o, w[o]);
  }

  method Sq25519(g: array<nat>, o: nat, a: nat, ghost v: map<nat, Reg>) returns (ghost w: map<nat, Reg>)
    requires Rep(g[..], v) && a in v && o % 5 == 0 && o < GLIMBS
    modifies g
    ensures w == v[o := Reg(MulP(v[a].x, v[a].x), true)] && Rep(g[..], w)
  {
    hide Elt, Tight, Loose, Kept, MulP, AddP, SubP;
    ghost var before := g[..];
    assert Holds(before, a, v[a]);
    FSq(g, o, a);
    w := v[o := Reg(MulP(v[a].x, v[a].x), true)];
    Put(before, g[..], v, o, w[o]);
  }

  method Add25519(g: array<nat>, o: nat, a: nat, b: nat, ghost v: map<nat, Reg>) returns (ghost w: map<nat, Reg>)
    requires Rep(g[..], v) && a in v && b in v && v[a].tight && v[b].tight && o % 5 == 0 && o < GLIMBS
    modifies g
    ensures w == v[o := Reg(AddP(v[a].x, v[b].x), false)] && Rep(g[..], w)
  {
    hide Elt, Tight, Loose, Kept, MulP, AddP, SubP;
    ghost var before := g[..];
    assert Holds(before, a, v[a]) && Holds(before, b, v[b]);
    FAdd(g, o, a, b);
    w := v[o := Reg(AddP(v[a].x, v[b].x), false)];
    Put(before, g[..], v, o, w[o]);
  }

  method Sub25519(g: array<nat>, o: nat, a: nat, b: nat, ghost v: map<nat, Reg>) returns (ghost w: map<nat, Reg>)
    requires Rep(g[..], v) && a in v && b in v && v[a].tight && v[b].tight && o % 5 == 0 && o < GLIMBS
    modifies g
    ensures w == v[o := Reg(SubP(v[a].x, v[b].x), false)] && Rep(g[..], w)
  {
    hide Elt, Tight, Loose, Kept, MulP, AddP, SubP;
    ghost var before := g[..];
    assert Holds(before, a, v[a]) && Holds(before, b, v[b]);
    FSub(g, o, a, b);
    w := v[o := Reg(SubP(v[a].x, v[b].x), false)];
    Put(before, g[..], v, o, w[o]);
  }

  // ----- conditional swap

  lemma SwapLimb(x: nat, y: nat, b: nat)
    requires x < B64 && y < B64 && b < 2
    ensures var t := And(U64(0 - b), Xor(x, y));
      Xor(x, t) == (if b == 1 then y else x) && Xor(y, t) == (if b == 1 then x else y)
  {
    hide And, Xor;
    Pow2Words();
    XorBound(x, y, 64);
    AndLowMask(Xor(x, y), 64);
    SmallMod(Xor(x, y), B64);
    AndCommutes(U64(0 - b), Xor(x, y));
    AndZero(Xor(x, y));
    XorCancels(x, y);
    XorCommutes(x, y);
    XorCancels(y, x);
    XorZero(x);
    XorZero(y);
  }

  ghost predicate SameLimbs(s: seq<nat>, a: nat, t: seq<nat>, o: nat)
    requires a + 5 <= |s| && o + 5 <= |t|
  {
    t[o] == s[a] && t[o + 1] == s[a + 1] && t[o + 2] == s[a + 2] && t[o + 3] == s[a + 3] && t[o + 4] == s[a + 4]
  }

  /** What the limb at j is once the first i limbs of p and q are exchanged. */
  ghost function Exchanged(s: seq<nat>, p: nat, q: nat, i: nat, j: nat): nat
    requires p + i <= |s| && q + i <= |s| && j < |s|
  {
    if p <= j < p + i then s[q + j - p] else if q <= j < q + i then s[p + j - q] else s[j]
  }

  /** The xor-and-mask loop of sel25519. */
  method SwapLimbs(g: array<nat>, p: nat, q: nat, b: nat)
    requires p + 5 <= g.Length && q + 5 <= g.Length && (p + 5 <= q || q + 5 <= p) && b < 2
    requires forall i | 0 <= i < g.Length && (p <= i < p + 5 || q <= i < q + 5) :: g[i] < B64
    modifies g
    ensures forall j | 0 <= j < g.Length && !(p <= j < p + 5) && !(q <= j < q + 5) :: g[j] == old(g[j])
    ensures SameLimbs(old(g[..]), if b == 1 then q else p, g[..], p)
    ensures SameLimbs(old(g[..]), if b == 1 then p else q, g[..], q)
  {
    hide And, Xor, U64;
    ghost var s := g[..];
    var c := U64(0 - b);
    for i := 0 to 5
      invariant forall j | 0 <= j < |s| :: g[j] == if b == 1 then Exchanged(s, p, q, i, j) else s[j]
    {
      assert g[p + i] == s[p + i] && g[q + i] == s[q + i];
      SwapLimb(s[p + i], s[q + i], b);
      var t := And(c, Xor(g[p + i], g[q + i]));
      g[p + i] := Xor(g[p + i], t);
      g[q + i] := Xor(g[q + i], t);
    }
  }

  /** Constant-time swap of elements p and q when b == 1. */
  method Sel25519(g: array<nat>, p: nat, q: nat, b: nat, ghost v: map<nat, Reg>) returns (ghost w: map<nat, Reg>)
    requires Rep(g[..], v) && p in v && q in v && p != q && v[p].tight && v[q].tight && b < 2
    modifies g
    ensures w == (if b == 1 then v[p := v[q]][q := v[p]] else v) && Rep(g[..], w)
  {
    hide Elt;
    ghost var s := g[..];
    assert Holds(s, p, v[p]) && Holds(s, q, v[q]);
    Multiples(p, q);
    SwapLimbs(g, p, q, b);
    w := if b == 1 then v[p := v[q]][q := v[p]] else v;
    Swapped(s, g[..], p, q, b, v);
  }

  lemma Swapped(s: seq<nat>, t: seq<nat>, p: nat, q: nat, b: nat, v: map<nat, Reg>)
    requires Rep(s, v) && p in v && q in v && p != q && |t| == |s|
    requires forall j | 0 <= j < |s| && !(p <= j < p + 5) && !(q <= j < q + 5) :: t[j] == s[j]
    requires SameLimbs(s, if b == 1 then q else p, t, p) && SameLimbs(s, if b == 1 then p else q, t, q)
    ensures Rep(t, if b == 1 then v[p := v[q]][q := v[p]] else v)
  {
    hide Holds;
    var w := if b == 1 then v[p := v[q]][q := v[p]] else v;
    assert Holds(s, p, v[p]) && Holds(s, q, v[q]);
    Moved(s, t, if b == 1 then q else p, p, w[p]);
    Moved(s, t, if b == 1 then p else q, q, w[q]);
    forall x | x in v && x != p && x != q ensures x % 5 == 0 && x < GLIMBS && Holds(t, x, v[x]) {
      assert Holds(s, x, v[x]);
      Multiples(x, p);
      Multiples(x, q);
      Moved(s, t, x, x, v[x]);
    }
  }

  lemma Moved(s: seq<nat>, t: seq<nat>, a: nat, o: nat, r: Reg)
    requires |s| == |t| == GLIMBS && a % 5 == o % 5 == 0 && a < GLIMBS && o < GLIMBS
    requires Holds(s, a, r) && SameLimbs(s, a, t, o)
    ensures Holds(t, o, r)
  {
    hide Value;
  }

  // ----- inversion

  lemma {:induction false} PowerAdd(x: nat, a: nat, b: nat)
    ensures MulP(Power(x, a), Power(x, b)) == Power(x, a + b)
  {
    if a == 0 {
      SmallMod(Power(x, b), P);
    } else {
      PowerAdd(x, a - 1, b);
      ModAssociates(x, Power(x, a - 1), Power(x, b), P);
    }
  }

  /** o = o^(2^n): n back-to-back squarings. */
  method FSqN(g: array<nat>, o: nat, n: nat, ghost v: map<nat, Reg>, ghost z: nat, ghost e: nat)
    returns (ghost w: map<nat, Reg>)
    requires Rep(g[..], v) && o in v && v[o] == Reg(Power(z, e), true) && o % 5 == 0 && o < GLIMBS
    modifies g
    ensures w == v[o := Reg(Power(z, e * Pow2(n)), true)] && Rep(g[..], w)
  {
    hide Rep, Power, MulP, Pow2;
    w := v;
    ghost var f := e;
    PowersOfTwo(e, 0);
    for k := 0 to n
      invariant f == e * Pow2(k)
      invariant w == v[o := Reg(Power(z, f), true)] && Rep(g[..], w)
    {
      PowerAdd(z, f, f);
      w := Sq25519(g, o, o, w);
      PowersOfTwo(e, k);
      f := f + f;
    }
  }

  lemma PowersOfTwo(e: nat, k: nat)
    ensures e * Pow2(0) == e && e * Pow2(k) + e * Pow2(k) == e * Pow2(k + 1)
  {
    assert Pow2(k + 1) == 2 * Pow2(k);
  }

  method FCopy(g: array<nat>, o: nat, a: nat, ghost v: map<nat, Reg>) returns (ghost w: map<nat, Reg>)
    requires Rep(g[..], v) && a in v && a != o && o % 5 == 0 && o < GLIMBS
    modifies g
    ensures w == v[o := v[a]] && Rep(g[..], w)
  {
    hide Elt;
    ghost var s := g[..];
    assert Holds(s, a, v[a]);
    Multiples(a, o);
    for i := 0 to 5
      invariant Kept(s, g[..], o)
      invariant forall j | o <= j < o + i :: g[j] == s[a + (j - o)]
    {
      g[o + i] := g[a + i];
    }
    w := v[o := v[a]];
    Copied(s, g[..], a, o, v[a]);
    Put(s, g[..], v, o, v[a]);
  }

  lemma Copied(s: seq<nat>, t: seq<nat>, a: nat, o: nat, r: Reg)
    requires |s| == |t| == GLIMBS && a % 5 == o % 5 == 0 && a < GLIMBS && o < GLIMBS
    requires Holds(s, a, r) && SameLimbs(s, a, t, o)
    ensures Elt(t, o) == r.x && if r.tight then Tight(t, o) else Loose(t, o)
  {
    hide Value;
  }

  /** The register at o is z to the power e, carried. */
  ghost predicate Pow(w: map<nat, Reg>, o: nat, z: nat, e: nat) { o in w && w[o] == Reg(Power(z, e), true) }

  method MulPow(g: array<nat>, o: nat, a: nat, b: nat, ghost v: map<nat, Reg>, ghost z: nat, ghost d: nat, ghost e: nat)
    returns (ghost w: map<nat, Reg>)
    requires Rep(g[..], v) && Pow(v, a, z, d) && Pow(v, b, z, e) && o % 5 == 0 && o < GLIMBS
    modifies g
    ensures w == v[o := Reg(Power(z, d + e), true)] && Rep(g[..], w)
  {
    hide Rep, Power, MulP;
    PowerAdd(z, d, e);
    w := Mul25519(g, o, a, b, v);
  }

  method SqPow(g: array<nat>, o: nat, a: nat, ghost v: map<nat, Reg>, ghost z: nat, ghost e: nat)
    returns (ghost w: map<nat, Reg>)
    requires Rep(g[..], v) && Pow(v, a, z, e) && o % 5 == 0 && o < GLIMBS
    modifies g
    ensures w == v[o := Reg(Power(z, 2 * e), true)] && Rep(g[..], w)
  {
    hide Rep, Power, MulP;
    PowerAdd(z, e, e);
    w := Sq25519(g, o, a, v);
  }

  lemma Repunit(a: nat, b: nat)
    ensures (Pow2(a) - 1) * Pow2(b) + (Pow2(b) - 1) == Pow2(a + b) - 1
  {
    Pow2Add(a, b);
  }

  /** Nothing described by v has changed, except perhaps the inversion's scratch. */
  ghost predicate ScratchOnly(v: map<nat, Reg>, w: map<nat, Reg>) {
    forall o | o in v && o < FZ2 :: o in w && w[o] == v[o]
  }

  /** The first part of the addition chain: exponents 9, 11 and 2^5 - 1. */
  method InvStart(g: array<nat>, io: nat, ghost v: map<nat, Reg>, ghost z: nat) returns (ghost w: map<nat, Reg>)
    requires Rep(g[..], v) && io < FZ2 && Pow(v, io, z, 1)
    modifies g
    ensures Rep(g[..], w) && ScratchOnly(v, w)
    ensures Pow(w, FZ11, z, 11) && Pow(w, FZ5, z, Pow2(5) - 1)
  {
    hide Rep, Power;
    ghost var v1 := SqPow(g, FZ2, io, v, z, 1);
    ghost var v2 := SqPow(g, FZ9, FZ2, v1, z, 2);
    ghost var v3 := SqPow(g, FZ9, FZ9, v2, z, 4);
    w := MulPow(g, FZ9, FZ9, io, v3, z, 8, 1);
    assert ScratchOnly(v, w) && Pow(w, FZ9, z, 9) && Pow(w, FZ2, z, 2);
    w := InvFive(g, w, z);
  }

  method InvFive(g: array<nat>, ghost v: map<nat, Reg>, ghost z: nat) returns (ghost w: map<nat, Reg>)
    requires Rep(g[..], v) && Pow(v, FZ9, z, 9) && Pow(v, FZ2, z, 2)
    modifies g
    ensures Rep(g[..], w) && ScratchOnly(v, w)
    ensures Pow(w, FZ11, z, 11) && Pow(w, FZ5, z, Pow2(5) - 1)
  {
    hide Rep, Power;
    w := MulPow(g, FZ11, FZ9, FZ2, v, z, 9, 2);
    w := SqPow(g, FZ5, FZ11, w, z, 11);
    w := MulPow(g, FZ5, FZ5, FZ9, w, z, 22, 9);
    assert Pow2(5) - 1 == 31;
  }

  method InvTen(g: array<nat>, ghost v: map<nat, Reg>, ghost z: nat) returns (ghost w: map<nat, Reg>)
    requires Rep(g[..], v) && Pow(v, FZ5, z, Pow2(5) - 1) && Pow(v, FZ11, z, 11)
    modifies g
    ensures Rep(g[..], w) && ScratchOnly(v, w)
    ensures Pow(w, FZ11, z, 11) && Pow(w, FZ10, z, Pow2(10) - 1)
  {
    hide Rep, Power, Pow2;
    w := FCopy(g, FZ10, FZ5, v);
    w := FSqN(g, FZ10, 5, w, z, Pow2(5) - 1);
    Repunit(5, 5);
    w := MulPow(g, FZ10, FZ10, FZ5, w, z, (Pow2(5) - 1) * Pow2(5), Pow2(5) - 1);
  }

  /** The middle: exponent 2^50 - 1. */
  method InvMiddle(g: array<nat>, ghost v: map<nat, Reg>, ghost z: nat) returns (ghost w: map<nat, Reg>)
    requires Rep(g[..], v) && Pow(v, FZ10, z, Pow2(10) - 1) && Pow(v, FZ11, z, 11)
    modifies g
    ensures Rep(g[..], w) && ScratchOnly(v, w)
    ensures Pow(w, FZ11, z, 11) && Pow(w, FZ50, z, Pow2(50) - 1)
  {
    hide Rep, Power, Pow2;
    w := FCopy(g, FT, FZ10, v);
    w := FSqN(g, FT, 10, w, z, Pow2(10) - 1);
    Repunit(10, 10);
    w := MulPow(g, FT, FT, FZ10, w, z, (Pow2(10) - 1) * Pow2(10), Pow2(10) - 1);
    w := FCopy(g, FZ50, FT, w);
    w := FSqN(g, FZ50, 20, w, z, Pow2(20) - 1);
    Repunit(20, 20);
    w := MulPow(g, FZ50, FZ50, FT, w, z, (Pow2(20) - 1) * Pow2(20), Pow2(20) - 1);
    w := FSqN(g, FZ50, 10, w, z, Pow2(40) - 1);
    Repunit(40, 10);
    w := MulPow(g, FZ50, FZ50, FZ10, w, z, (Pow2(40) - 1) * Pow2(10), Pow2(10) - 1);
  }

  /** The end: exponent 2^255 - 21. */
  method InvEnd(g: array<nat>, ghost v: map<nat, Reg>, ghost z: nat) returns (ghost w: map<nat, Reg>)
    requires Rep(g[..], v) && Pow(v, FZ50, z, Pow2(50) - 1) && Pow(v, FZ11, z, 11)
    modifies g
    ensures Rep(g[..], w) && ScratchOnly(v, w)
    ensures Pow(w, FZ10, z, P - 2)
  {
    hide Rep, Power, Pow2;
    w := FCopy(g, FT, FZ50, v);
    w := FSqN(g, FT, 50, w, z, Pow2(50) - 1);
    Repunit(50, 50);
    w := MulPow(g, FT, FT, FZ50, w, z, (Pow2(50) - 1) * Pow2(50), Pow2(50) - 1);
    w := FCopy(g, FZ10, FT, w);
    w := FSqN(g, FZ10, 100, w, z, Pow2(100) - 1);
    Repunit(100, 100);
    w := MulPow(g, FZ10, FZ10, FT, w, z, (Pow2(100) - 1) * Pow2(100), Pow2(100) - 1);
    w := FSqN(g, FZ10, 50, w, z, Pow2(200) - 1);
    Repunit(200, 50);
    w := MulPow(g, FZ10, FZ10, FZ50, w, z, (Pow2(200) - 1) * Pow2(50), Pow2(50) - 1);
    w := FSqN(g, FZ10, 5, w, z, Pow2(250) - 1);
    Repunit(250, 5);
    PrimeExponent();
    w := MulPow(g, FZ10, FZ10, FZ11, w, z, (Pow2(250) - 1) * Pow2(5), 11);
  }

  lemma PrimeExponent()
    ensures (Pow2(250) - 1) * Pow2(5) + 11 == P - 2
  {
    Pow2Words();
    assert Pow2(5) == 32 && Pow2(1) == 2;
    hide Pow2;
    Pow2Add(128, 64);
    Pow2Add(192, 32);
    Pow2Add(224, 16);
    Pow2Add(240, 8);
    Pow2Add(248, 1);
    Pow2Add(249, 1);
  }

  lemma ScratchTrans(u: map<nat, Reg>, v: map<nat, Reg>, w: map<nat, Reg>)
    requires ScratchOnly(u, v) && ScratchOnly(v, w)
    ensures ScratchOnly(u, w)
  {
  }

  method InvChain(g: array<nat>, io: nat, ghost v: map<nat, Reg>, ghost z: nat) returns (ghost w: map<nat, Reg>)
    requires Rep(g[..], v) && io < FZ2 && Pow(v, io, z, 1)
    modifies g
    ensures Rep(g[..], w) && ScratchOnly(v, w) && Pow(w, FZ10, z, P - 2)
  {
    hide Rep, Power, Pow2, Pow, ScratchOnly;
    ghost var v1 := InvStart(g, io, v, z);
    ghost var v2 := InvTen(g, v1, z);
    ScratchTrans(v, v1, v2);
    ghost var v3 := InvMiddle(g, v2, z);
    ScratchTrans(v, v2, v3);
    w := InvEnd(g, v3, z);
    ScratchTrans(v, v3, w);
  }

  /** io = io^(p-2) = 1/io: the ref10 addition chain. */
  method Inv25519(g: array<nat>, io: nat, ghost v: map<nat, Reg>) returns (ghost w: map<nat, Reg>)
    requires Rep(g[..], v) && io < FZ2 && io in v && v[io].tight && v[io].x < P
    modifies g
    ensures Rep(g[..], w)
    ensures forall o | o in v && o < FZ2 && o != io :: o in w && w[o] == v[o]
    ensures Pow(w, io, v[io].x, P - 2)
  {
    ghost var z := v[io].x;
    PowerOne(z);
    assert Pow(v, io, z, 1) && io % 5 == 0;
    hide Rep, Power, Pow2;
    w := InvChain(g, io, v, z);
    w := FCopy(g, io, FZ10, w);
  }

  lemma PowerOne(z: nat)
    requires z < P
    ensures Power(z, 1) == z
  {
    assert Power(z, 0) == 1;
    assert z * 1 == z;
    SmallMod(z, P);
  }

  // ----- the ladder

  ghost predicate AtPoints(w: map<nat, Reg>, s: Points, x1: nat) {
    && FA in w && FB in w && FC in w && FD in w && FX in w && FK in w
    && w[FA] == Reg(s.x2, true) && w[FB] == Reg(s.x3, true)
    && w[FC] == Reg(s.z2, true) && w[FD] == Reg(s.z3, true)
    && w[FX] == Reg(x1, true) && w[FK] == Reg(121665, true)
  }

  lemma Commutes(x: int, y: int)
    ensures MulP(x, y) == MulP(y, x) && AddP(x, y) == AddP(y, x)
  {
  }

  lemma Opposite(x: int, y: int)
    ensures SubP(x, y) == 0 == SubP(y, x) || SubP(x, y) + SubP(y, x) == P
  {
  }

  lemma SquareOfOpposite(d: int, e: int)
    requires d == 0 == e || d + e == P
    ensures MulP(d, d) == MulP(e, e)
  {
    if d + e == P {
      DifferenceOfSquares(d, e);
      Congruent(Mul(d, d), Mul(e, e), d - e, P);
    }
  }

  lemma DifferenceOfSquares(d: int, e: int)
    requires d + e == P
    ensures Mul(d, d) == Mul(e, e) + P * (d - e)
  {
  }

  /** The loop body's sums, differences and first products: A^2, B^2, CB and DA. */
  method StepProducts(g: array<nat>, ghost v: map<nat, Reg>, ghost s: Points, ghost x1: nat)
    returns (ghost w: map<nat, Reg>)
    requires Rep(g[..], v) && AtPoints(v, s, x1)
    modifies g
    ensures Rep(g[..], w) && FX in w && FK in w && w[FX] == v[FX] && w[FK] == v[FK]
    ensures FA in w && w[FA] == Reg(MulP(AddP(s.x3, s.z3), SubP(s.x2, s.z2)), true)
    ensures FC in w && w[FC] == Reg(MulP(SubP(s.x3, s.z3), AddP(s.x2, s.z2)), true)
    ensures FD in w && w[FD] == Reg(MulP(AddP(s.x2, s.z2), AddP(s.x2, s.z2)), true)
    ensures FF in w && w[FF] == Reg(MulP(SubP(s.x2, s.z2), SubP(s.x2, s.z2)), true)
  {
    hide Rep, MulP, AddP, SubP;
    w := Add25519(g, FE, FA, FC, v);
    w := Sub25519(g, FA, FA, FC, w);
    w := Add25519(g, FC, FB, FD, w);
    w := Sub25519(g, FB, FB, FD, w);
    w := Sq25519(g, FD, FE, w);
    w := Sq25519(g, FF, FA, w);
    w := Mul25519(g, FA, FC, FA, w);
    w := Mul25519(g, FC, FB, FE, w);
  }

  /** The rest of the loop body: the new points from A^2 = aa, B^2 = bb, CB = cb and DA = da. */
  method StepPoints(g: array<nat>, ghost v: map<nat, Reg>, ghost aa: nat, ghost bb: nat, ghost cb: nat,
                    ghost da: nat, ghost x1: nat)
    returns (ghost w: map<nat, Reg>)
    requires Rep(g[..], v) && FA in v && FC in v && FD in v && FF in v && FX in v && FK in v
    requires v[FA] == Reg(cb, true) && v[FC] == Reg(da, true) && v[FD] == Reg(aa, true) && v[FF] == Reg(bb, true)
    requires v[FX] == Reg(x1, true) && v[FK] == Reg(121665, true)
    modifies g
    ensures Rep(g[..], w)
    ensures AtPoints(w, Points(MulP(aa, bb), MulP(SubP(aa, bb), AddP(aa, MulP(121665, SubP(aa, bb)))),
                               MulP(AddP(da, cb), AddP(da, cb)), MulP(x1, MulP(SubP(da, cb), SubP(da, cb)))), x1)
  {
    hide Rep, MulP, AddP, SubP;
    Commutes(cb, da);
    Opposite(cb, da);
    SquareOfOpposite(SubP(cb, da), SubP(da, cb));
    Commutes(SubP(aa, bb), 121665);
    Commutes(MulP(121665, SubP(aa, bb)), aa);
    Commutes(MulP(SubP(da, cb), SubP(da, cb)), x1);
    w := Add25519(g, FE, FA, FC, v);
    w := Sub25519(g, FA, FA, FC, w);
    w := Sq25519(g, FB, FA, w);
    w := Sub25519(g, FC, FD, FF, w);
    w := Mul25519(g, FA, FC, FK, w);
    w := Add25519(g, FA, FA, FD, w);
    w := Mul25519(g, FC, FC, FA, w);
    w := Mul25519(g, FA, FD, FF, w);
    w := Mul25519(g, FD, FB, FX, w);
    w := Sq25519(g, FB, FE, w);
  }

  method SwapPoints(g: array<nat>, r: nat, ghost v: map<nat, Reg>, ghost s: Points, ghost x1: nat)
    returns (ghost w: map<nat, Reg>)
    requires Rep(g[..], v) && AtPoints(v, s, x1) && r < 2
    modifies g
    ensures Rep(g[..], w) && AtPoints(w, CSwap(r, s), x1)
  {
    hide Rep;
    w := Sel25519(g, FA, FB, r, v);
    w := Sel25519(g, FC, FD, r, w);
  }

  /** The loop body of the ladder. */
  method LadderStep(g: array<nat>, r: nat, ghost v: map<nat, Reg>, ghost s: Points, ghost x1: nat)
    returns (ghost w: map<nat, Reg>)
    requires Rep(g[..], v) && AtPoints(v, s, x1) && r < 2
    modifies g
    ensures Rep(g[..], w) && AtPoints(w, CSwap(r, RfcStep(CSwap(r, s), x1)), x1)
  {
    hide Rep, MulP, AddP, SubP;
    ghost var c := CSwap(r, s);
    w := SwapPoints(g, r, v, s, x1);
    w := StepProducts(g, w, c, x1);
    ghost var a, b := AddP(c.x2, c.z2), SubP(c.x2, c.z2);
    w := StepPoints(g, w, MulP(a, a), MulP(b, b), MulP(AddP(c.x3, c.z3), b), MulP(SubP(c.x3, c.z3), a), x1);
    w := SwapPoints(g, r, w, RfcStep(c, x1), x1);
  }

  lemma {:induction false} LeBit(s: seq<byte>, i: nat)
    requires i < 8 * |s|
    ensures Bit(Le(s), i) == s[i / 8] / Pow2(i % 8) % 2
  {
    hide Le, Pow2;
    var k := i / 8;
    assert s == s[..k] + s[k..];
    LeAppend(s[..k], s[k..]);
    LeBound(s[..k]);
    var t := s[k..];
    DivUnique(Le(s), Pow2(8 * k), Le(t), Le(s[..k]));
    Pow2Add(8 * k, i % 8);
    DivDiv(Le(s), Pow2(8 * k), Pow2(i % 8));
    FirstBit(t, i % 8);
  }

  lemma BitOfSum(x: nat, b: nat, p: nat, m: nat)
    requires p > 0 && x == b + p * (2 * m)
    ensures x / p % 2 == b / p % 2
  {
    DivUnique(x, p, b / p + 2 * m, b % p);
  }

  lemma Regroup(p: nat, q: nat, r: nat)
    requires p * q == 128
    ensures 256 * r == p * (2 * (q * r))
  {
    assert p * (2 * (q * r)) == 2 * (p * q) * r;
  }

  lemma FirstBit(t: seq<byte>, j: nat)
    requires t != [] && j < 8
    ensures Le(t) / Pow2(j) % 2 == t[0] / Pow2(j) % 2
  {
    var rest := Le(t[1..]);
    assert Le(t) == t[0] + 256 * rest;
    hide Le;
    Pow2Add(j, 7 - j);
    assert Pow2(7) == 128;
    hide Pow2;
    Regroup(Pow2(j), Pow2(7 - j), rest);
    BitOfSum(Le(t), t[0], Pow2(j), Pow2(7 - j) * rest);
  }

  method Ladder(g: array<nat>, z: array<byte>, ghost v: map<nat, Reg>, ghost x1: nat)
    returns (ghost w: map<nat, Reg>)
    requires z.Length == 32 && Rep(g[..], v) && AtPoints(v, Points(1, 0, x1, 1), x1)
    modifies g
    ensures Rep(g[..], w) && AtPoints(w, EagerLadder(Le(z[..]), x1, 0), x1)
  {
    w := v;
    var i := 254;
    while i >= 0
      invariant -1 <= i <= 254
      invariant Rep(g[..], w) && AtPoints(w, EagerLadder(Le(z[..]), x1, i + 1), x1)
    {
      hide Rep, AtPoints, RfcStep, CSwap, Le, Pow2;
      LeBit(z[..], i);
      var r := z[i / 8] / Pow2(i % 8) % 2;
      w := LadderStep(g, r, w, EagerLadder(Le(z[..]), x1, i + 1), x1);
      i := i - 1;
    }
  }

  // ----- the whole function

  /** The scratch array's constant: the element 121665. */
  ghost predicate HasConstant(g: seq<nat>) {
    |g| == GLIMBS && Elt(g, FK) == 121665 && Tight(g, FK)
  }

  ghost predicate Small(g: seq<nat>, o: nat, c: nat) {
    o + 5 <= |g| && g[o] == c && forall i | o < i < o + 5 :: g[i] == 0
  }

  lemma SmallElt(g: seq<nat>, o: nat, c: nat)
    requires Small(g, o, c) && c < 200000
    ensures Elt(g, o) == c && Tight(g, o)
  {
    SmallMod(c, P);
  }

  /** The four points' starting limbs. */
  method StartPoints(g: array<nat>)
    requires g.Length == GLIMBS && HasConstant(g[..]) && Tight(g[..], FX)
    modifies g
    ensures HasConstant(g[..]) && Tight(g[..], FX) && Num(g[..], FX) == old(Num(g[..], FX))
    ensures Small(g[..], FA, 1) && SameLimbs(g[..], FX, g[..], FB) && Small(g[..], FC, 0) && Small(g[..], FD, 1)
  {
    hide Value;
    for i := 0 to 5
      invariant forall j | 0 <= j < i :: g[j] == 0
      invariant forall j | FB <= j < FB + i :: g[j] == g[FX - FB + j]
      invariant forall j | FC <= j < FC + i :: g[j] == 0
      invariant forall j | FD <= j < FD + i :: g[j] == 0
      invariant forall j | FX <= j < GLIMBS :: g[j] == old(g[j])
    {
      g[FA + i] := 0;
      g[FB + i] := g[FX + i];
      g[FC + i] := 0;
      g[FD + i] := 0;
    }
    g[FA] := 1;
    g[FD] := 1;
  }

  lemma StartRep(g: seq<nat>, x1: nat) returns (v: map<nat, Reg>)
    requires HasConstant(g) && Tight(g, FX) && Elt(g, FX) == x1
    requires Small(g, FA, 1) && SameLimbs(g, FX, g, FB) && Small(g, FC, 0) && Small(g, FD, 1)
    ensures Rep(g, v) && AtPoints(v, Points(1, 0, x1, 1), x1)
    ensures v.Keys == {FA, FB, FC, FD, FX, FK}
  {
    hide Elt;
    SmallElt(g, FA, 1);
    SmallElt(g, FC, 0);
    SmallElt(g, FD, 1);
    TightIsLoose(g, FA);
    TightIsLoose(g, FC);
    TightIsLoose(g, FD);
    TightIsLoose(g, FK);
    TightIsLoose(g, FX);
    hide Loose;
    Moved(g, g, FX, FB, Reg(x1, true));
    v := map[FA := Reg(1, true), FB := Reg(x1, true), FC := Reg(0, true), FD := Reg(1, true),
             FX := Reg(x1, true), FK := Reg(121665, true)];
  }

  /** The clamped scalar, byte by byte. */
  method Clamp(z: array<byte>, n: seq<byte>)
    requires z.Length == 32 && |n| == 32
    modifies z
    ensures Le(z[..]) == DecodeScalar(n)
  {
    for i := 0 to 32
      invariant z[..i] == n[..i]
    {
      z[i] := n[i];
    }
    assert z[..] == n;
    z[31] := Or8(And8(n[31], 127), 64);
    z[0] := And8(n[0], 248);
    assert z[..] == n[0 := And8(n[0], 248)][31 := Or8(And8(n[31], 127), 64)];
  }

  /** q = X25519(n, p): scalar n, u-coordinate p; g and z are the caller's scratch. */
  method X25519(q: array<byte>, n: seq<byte>, p: seq<byte>, g: array<nat>, z: array<byte>)
    requires q.Length == 32 && |n| == 32 && |p| == 32 && z.Length == 32 && HasConstant(g[..])
    modifies q, g, z
    ensures q[..] == Bytes(RfcX25519(DecodeScalar(n), DecodeU(p) % P), 32)
    ensures HasConstant(g[..])
  {
    hide DecodeScalar, Bytes, Le, Pow2;
    Clamp(z, n);
    Unpack25519(g, FX, p);
    DecodeUDropsTopBit(p);
    StartPoints(g);
    ghost var x1 := Elt(g[..], FX);
    ghost var v := StartRep(g[..], x1);
    v := Ladder(g, z, v, x1);
    ghost var k := Le(z[..]);
    FinishLadder(k, x1);
    FinishWith(q, g, v, k, x1);
  }

  lemma FinishLadder(k: nat, x1: nat)
    ensures EagerLadder(k, x1, 0) == CSwap(RfcLadder(k, x1, 0).1, RfcLadder(k, x1, 0).0)
    ensures RfcX25519(k, x1) == MulP(EagerLadder(k, x1, 0).x2, Power(EagerLadder(k, x1, 0).z2, P - 2))
  {
    hide EagerLadder, RfcLadder, Power, MulP;
    EagerIsLazy(k, x1, 0);
  }

  /** The inversion, the last product and the encoding. */
  method FinishWith(q: array<byte>, g: array<nat>, ghost v: map<nat, Reg>, ghost k: nat, ghost x1: nat)
    requires q.Length == 32 && Rep(g[..], v) && AtPoints(v, EagerLadder(k, x1, 0), x1)
    modifies q, g
    ensures q[..] == Bytes(MulP(EagerLadder(k, x1, 0).x2, Power(EagerLadder(k, x1, 0).z2, P - 2)), 32)
    ensures HasConstant(g[..])
  {
    ghost var s := EagerLadder(k, x1, 0);
    hide EagerLadder, Power, MulP, Bytes;
    EltBelow(g[..], v, FC);
    ghost var w := Inv25519(g, FC, v);
    w := Mul25519(g, FA, FA, FC, w);
    Described(g[..], w, FA);
    Described(g[..], w, FK);
    Pack25519(q, g, FA);
  }

  lemma EltBelow(g: seq<nat>, v: map<nat, Reg>, o: nat)
    requires Rep(g, v) && o in v
    ensures v[o].x < P
  {
    assert Holds(g, o, v[o]);
  }

  lemma Described(g: seq<nat>, w: map<nat, Reg>, o: nat)
    requires Rep(g, w) && o in w && w[o].tight
    ensures |g| == GLIMBS && o + 5 <= |g| && Elt(g, o) == w[o].x && Tight(g, o) && forall i | o <= i < o + 5 :: g[i] <= B64 / 2
  {
    hide Elt;
    assert Holds(g, o, w[o]);
  }
}
