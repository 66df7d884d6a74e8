/**
 tools/sweep_classify.py, normalise: registers numbered in order of first appearance. Two bodies
 get the same numbers exactly when one is the other with its registers renamed.
 */
module SweepNormal {
  import opened Options
  import opened SweepDead

  /** A normalised token: a register by its number in order of appearance, or text. */
  datatype Name = V(k: nat) | T(s: string)

  function IndexOf(order: seq<Id>, r: Id): (k: nat)
    ensures k <= |order|
    ensures k < |order| ==> order[k] == r
    ensures k == |order| ==> r !in order
  {
    if order == [] || order[0] == r then 0 else 1 + IndexOf(order[1..], r)
  }

  function Seen(order: seq<Id>, r: Id): seq<Id> { if r in order then order else order + [r] }

  function RenLine(order: seq<Id>, l: Line): (seq<Id>, seq<Name>) {
    if l == [] then (order, [])
    else
      var (o, out) := RenLine(order, l[..|l| - 1]);
      match l[|l| - 1]
      case Txt(s) => (o, out + [T(s)])
      case Reg(r) => (Seen(o, r), out + [V(IndexOf(o, r))])
  }

  function RenBody(ls: seq<Line>): (seq<Id>, seq<seq<Name>>) {
    if ls == [] then ([], [])
    else
      var (o, out) := RenBody(ls[..|ls| - 1]);
      var (o', line) := RenLine(o, ls[|ls| - 1]);
      (o', out + [line])
  }

  // ----- the dictionary

  /** names gives each register of order its number, and no other. */
  ghost predicate Numbers(names: map<Id, nat>, order: seq<Id>) {
    && |names| == |order| && (forall r :: r in names <==> r in order)
    && (forall r | r in names :: names[r] == IndexOf(order, r))
  }

  lemma {:induction false} IndexSnoc(order: seq<Id>, r: Id, x: Id)
    requires r !in order
    ensures IndexOf(order + [r], x) == if x in order then IndexOf(order, x) else if x == r then |order| else |order| + 1
  {
    if order != [] {
      assert (order + [r])[1..] == order[1..] + [r];
      IndexSnoc(order[1..], r, x);
    } else {
      assert order + [r] == [r];
    }
  }

  lemma NumbersSeen(names: map<Id, nat>, order: seq<Id>, r: Id)
    requires Numbers(names, order) && r !in names
    ensures Numbers(names[r := |names|], order + [r]) && IndexOf(order, r) == |names|
  {
    forall x | x in names[r := |names|]
      ensures names[r := |names|][x] == IndexOf(order + [r], x)
    {
      IndexSnoc(order, r, x);
    }
  }

  lemma NoNumbers()
    ensures Numbers(map[], [])
  {
  }

  // ----- renamings

  ghost predicate NoDup(l: seq<Id>) { forall i, j | 0 <= i < j < |l| :: l[i] != l[j] }

  ghost predicate Injective(f: map<Id, Id>) { forall x, y | x in f && y in f && f[x] == f[y] :: x == y }

  /** Line m is line l with its registers renamed by f. */
  ghost predicate Like(f: map<Id, Id>, l: Line, m: Line) {
    |l| == |m| && forall i | 0 <= i < |l| ::
      if l[i].Reg? then l[i].n in f && m[i] == Reg(f[l[i].n]) else m[i] == l[i]
  }

  /** b is a with its registers renamed, different registers differently. */
  ghost predicate Renaming(f: map<Id, Id>, a: seq<Line>, b: seq<Line>) {
    Injective(f) && |a| == |b| && forall i | 0 <= i < |a| :: Like(f, a[i], b[i])
  }

  ghost predicate Covers(f: map<Id, Id>, order: seq<Id>) { forall r | r in order :: r in f }

  function Mapped(f: map<Id, Id>, order: seq<Id>): seq<Id> {
    seq(|order|, i requires 0 <= i < |order| => if order[i] in f then f[order[i]] else "")
  }

  lemma {:induction false} IndexMapped(f: map<Id, Id>, order: seq<Id>, r: Id)
    requires Injective(f) && Covers(f, order) && r in f
    ensures IndexOf(Mapped(f, order), f[r]) == IndexOf(order, r)
    ensures f[r] in Mapped(f, order) <==> r in order
  {
    if order != [] {
      assert order[0] in order;
      assert forall x | x in order[1..] :: x in order;
      assert Mapped(f, order)[1..] == Mapped(f, order[1..]);
      IndexMapped(f, order[1..], r);
      assert order == [order[0]] + order[1..];
      assert Mapped(f, order) == [f[order[0]]] + Mapped(f, order[1..]);
    }
  }

  lemma SeenMapped(f: map<Id, Id>, order: seq<Id>, r: Id)
    requires Injective(f) && Covers(f, order) && r in f
    ensures Seen(Mapped(f, order), f[r]) == Mapped(f, Seen(order, r)) && Covers(f, Seen(order, r))
  {
    IndexMapped(f, order, r);
  }

  /** Renamed lines come out the same, and their orders of appearance correspond. */
  lemma {:induction false} LikeLine(f: map<Id, Id>, order: seq<Id>, l: Line, m: Line)
    requires Injective(f) && Covers(f, order) && Like(f, l, m)
    ensures var (o, out) := RenLine(order, l);
      RenLine(Mapped(f, order), m) == (Mapped(f, o), out) && Covers(f, o)
  {
    if l != [] {
      hide Mapped, Seen, Injective, Covers;
      var n := |l| - 1;
      assert Like(f, l[..n], m[..n]);
      LikeLine(f, order, l[..n], m[..n]);
      var o := RenLine(order, l[..n]).0;
      if l[n].Reg? {
        IndexMapped(f, o, l[n].n);
        SeenMapped(f, o, l[n].n);
      }
    }
  }

  lemma {:induction false} LikeBody(f: map<Id, Id>, a: seq<Line>, b: seq<Line>)
    requires Renaming(f, a, b)
    ensures var (o, out) := RenBody(a);
      RenBody(b) == (Mapped(f, o), out) && Covers(f, o)
  {
    if a == [] {
      assert Mapped(f, []) == [];
    } else {
      hide Mapped, RenLine, Like;
      var n := |a| - 1;
      LikeBody(f, a[..n], b[..n]);
      LikeLine(f, RenBody(a[..n]).0, a[n], b[n]);
    }
  }

  // ----- and back

  /** Registers at the same place have the same number, in orders that have not gone on to them. */
  ghost predicate Alike(oa: seq<Id>, ob: seq<Id>, l: Line, m: Line) {
    |l| == |m| && forall i | 0 <= i < |l| ::
      if l[i].Reg? then m[i].Reg? && IndexOf(oa, l[i].n) == IndexOf(ob, m[i].n) < |oa| else m[i] == l[i]
  }

  lemma {:induction false} IndexGrows(o: seq<Id>, o': seq<Id>, r: Id)
    requires o <= o'
    ensures IndexOf(o, r) < |o| ==> IndexOf(o', r) == IndexOf(o, r)
  {
    if o != [] && o[0] != r {
      assert o'[0] == o[0] && o[1..] <= o'[1..];
      IndexGrows(o[1..], o'[1..], r);
    }
  }

  lemma AlikeGrows(oa: seq<Id>, ob: seq<Id>, oa': seq<Id>, ob': seq<Id>, l: Line, m: Line)
    requires Alike(oa, ob, l, m) && oa <= oa' && ob <= ob' && |oa| == |ob|
    ensures Alike(oa', ob', l, m)
  {
    forall i | 0 <= i < |l| && l[i].Reg?
      ensures IndexOf(oa', l[i].n) == IndexOf(ob', m[i].n) < |oa'|
    {
      IndexGrows(oa, oa', l[i].n);
      IndexGrows(ob, ob', m[i].n);
    }
  }

  lemma {:induction false} RenGrows(order: seq<Id>, l: Line)
    requires NoDup(order)
    ensures order <= RenLine(order, l).0 && NoDup(RenLine(order, l).0) && |RenLine(order, l).1| == |l|
  {
    if l != [] {
      RenGrows(order, l[..|l| - 1]);
    }
  }

  lemma SeenBoth(oa: seq<Id>, ob: seq<Id>, x: Id, y: Id)
    requires |oa| == |ob| && IndexOf(oa, x) == IndexOf(ob, y)
    ensures |Seen(oa, x)| == |Seen(ob, y)| && oa <= Seen(oa, x) && ob <= Seen(ob, y)
    ensures IndexOf(Seen(oa, x), x) == IndexOf(Seen(ob, y), y) == IndexOf(oa, x) < |Seen(oa, x)|
  {
    if x !in oa {
      IndexSnoc(oa, x, x);
    }
    if y !in ob {
      IndexSnoc(ob, y, y);
    }
  }

  /** Lines that come out the same name their registers alike. */
  lemma {:induction false} SameLine(oa: seq<Id>, ob: seq<Id>, l: Line, m: Line)
    requires |oa| == |ob| && NoDup(oa) && NoDup(ob) && RenLine(oa, l).1 == RenLine(ob, m).1
    ensures var oa', ob' := RenLine(oa, l).0, RenLine(ob, m).0;
      |oa'| == |ob'| && Alike(oa', ob', l, m)
  {
    RenGrows(oa, l);
    RenGrows(ob, m);
    if l != [] {
      hide Alike, IndexOf, Seen, NoDup;
      var n := |l| - 1;
      var l', m' := l[..n], m[..n];
      var (pa, xa) := RenLine(oa, l');
      var (pb, xb) := RenLine(ob, m');
      assert RenLine(oa, l).1[..n] == xa && RenLine(ob, m).1[..n] == xb by {
        RenGrows(oa, l');
        RenGrows(ob, m');
      }
      SameLine(oa, ob, l', m');
      assert RenLine(oa, l).1[n] == RenLine(ob, m).1[n];
      if l[n].Reg? {
        SeenBoth(pa, pb, l[n].n, m[n].n);
        AlikeGrows(pa, pb, Seen(pa, l[n].n), Seen(pb, m[n].n), l', m');
        AlikeSnoc(Seen(pa, l[n].n), Seen(pb, m[n].n), l, m);
      } else {
        AlikeSnoc(pa, pb, l, m);
      }
    } else {
      assert m == [];
    }
  }

  lemma AlikeSnoc(oa: seq<Id>, ob: seq<Id>, l: Line, m: Line)
    requires |l| == |m| > 0 && Alike(oa, ob, l[..|l| - 1], m[..|m| - 1])
    requires if l[|l| - 1].Reg? then m[|l| - 1].Reg? && IndexOf(oa, l[|l| - 1].n) == IndexOf(ob, m[|l| - 1].n) < |oa| else m[|l| - 1] == l[|l| - 1]
    ensures Alike(oa, ob, l, m)
  {
    assert forall i | 0 <= i < |l| - 1 :: l[i] == l[..|l| - 1][i] && m[i] == m[..|m| - 1][i];
  }

  ghost predicate AlikeAll(oa: seq<Id>, ob: seq<Id>, a: seq<Line>, b: seq<Line>) {
    |a| == |b| && forall i | 0 <= i < |a| :: Alike(oa, ob, a[i], b[i])
  }

  lemma {:induction false} BodyNoDup(a: seq<Line>)
    ensures NoDup(RenBody(a).0) && |RenBody(a).1| == |a|
  {
    if a != [] {
      BodyNoDup(a[..|a| - 1]);
      RenGrows(RenBody(a[..|a| - 1]).0, a[|a| - 1]);
    }
  }

  lemma {:induction false} SameBody(a: seq<Line>, b: seq<Line>)
    requires RenBody(a).1 == RenBody(b).1
    ensures |RenBody(a).0| == |RenBody(b).0| && AlikeAll(RenBody(a).0, RenBody(b).0, a, b)
  {
    BodyNoDup(a);
    BodyNoDup(b);
    if a != [] {
      hide Alike, NoDup, RenLine;
      var n := |a| - 1;
      var a', b' := a[..n], b[..n];
      BodyNoDup(a');
      BodyNoDup(b');
      var oa, ob := RenBody(a').0, RenBody(b').0;
      assert RenBody(a).1[..n] == RenBody(a').1 && RenBody(b).1[..n] == RenBody(b').1;
      SameBody(a', b');
      assert RenBody(a).1[n] == RenBody(b).1[n];
      SameLine(oa, ob, a[n], b[n]);
      RenGrows(oa, a[n]);
      RenGrows(ob, b[n]);
      forall i | 0 <= i < n
        ensures Alike(RenBody(a).0, RenBody(b).0, a[i], b[i])
      {
        assert a[i] == a'[i] && b[i] == b'[i];
        AlikeGrows(oa, ob, RenBody(a).0, RenBody(b).0, a[i], b[i]);
      }
    } else {
      assert b == [];
    }
  }

  function Paired(oa: seq<Id>, ob: seq<Id>): map<Id, Id>
    requires |oa| == |ob|
  {
    map r | r in oa :: if IndexOf(oa, r) < |ob| then ob[IndexOf(oa, r)] else ""
  }

  lemma PairedRenames(oa: seq<Id>, ob: seq<Id>, a: seq<Line>, b: seq<Line>)
    requires |oa| == |ob| && NoDup(oa) && NoDup(ob) && AlikeAll(oa, ob, a, b)
    ensures Renaming(Paired(oa, ob), a, b)
  {
    var f := Paired(oa, ob);
    forall i | 0 <= i < |a|
      ensures Like(f, a[i], b[i])
    {
      assert Alike(oa, ob, a[i], b[i]);
    }
    forall x, y | x in f && y in f && f[x] == f[y]
      ensures x == y
    {
      assert IndexOf(oa, x) == IndexOf(oa, y);
    }
  }

  /** Two bodies get the same numbers at the same places exactly when, dead code dropped, one is the other renamed. */
  lemma NumberedExact(a: seq<Line>, b: seq<Line>)
    ensures RenBody(Normal(a)).1 == RenBody(Normal(b)).1 <==> exists f :: Renaming(f, Normal(a), Normal(b))
  {
    hide Renaming, Normal, RenBody, NoDup;
    var x, y := Normal(a), Normal(b);
    if RenBody(x).1 == RenBody(y).1 {
      SameBody(x, y);
      BodyNoDup(x);
      BodyNoDup(y);
      PairedRenames(RenBody(x).0, RenBody(y).0, x, y);
    }
    if f :| Renaming(f, x, y) {
      LikeBody(f, x, y);
    }
  }
}
