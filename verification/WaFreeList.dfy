/**
 stdlib/runtime_wasm_alloc.c: the free list as a value. A list in address order with no two
 entries touching is the only such list for the bytes it covers.
 */
module WaFreeList {

  datatype Ext = Ext(at: nat, size: nat)

  predicate In(e: Ext, x: int) { e.at <= x < e.at + e.size }

  ghost predicate Covers(l: seq<Ext>, x: int) { exists i :: 0 <= i < |l| && In(l[i], x) }

  /** Address order, entries apart or touching. */
  ghost predicate Sorted(l: seq<Ext>) {
    && (forall i | 0 <= i < |l| :: l[i].size > 0)
    && (forall i, j | 0 <= i < j < |l| :: l[i].at + l[i].size <= l[j].at)
  }

  ghost predicate Touch(l: seq<Ext>, k: int) { 0 <= k && k + 1 < |l| && l[k].at + l[k].size == l[k + 1].at }

  /** The list's own form: in order, and no two entries that could be one. */
  ghost predicate Canonical(l: seq<Ext>) { Sorted(l) && forall k :: !Touch(l, k) }

  ghost predicate SameCover(l: seq<Ext>, m: seq<Ext>) { forall x :: Covers(l, x) <==> Covers(m, x) }

  // ----- nurl_wa_insert on values

  /** How many entries lie below a. */
  function Position(l: seq<Ext>, a: nat): (k: nat)
    ensures k <= |l|
    ensures forall i | 0 <= i < k :: l[i].at < a
    ensures k < |l| ==> a <= l[k].at
  {
    if l == [] || a <= l[0].at then 0
    else
      var k := Position(l[1..], a);
      assert forall i | 1 <= i < k + 1 :: l[i] == l[1..][i - 1];
      k + 1
  }

  function JoinNext(l: seq<Ext>, k: nat): seq<Ext> {
    if k + 1 < |l| && l[k].at + l[k].size == l[k + 1].at then
      l[..k] + [Ext(l[k].at, l[k].size + l[k + 1].size)] + l[k + 2..]
    else l
  }

  function Place(l: seq<Ext>, e: Ext): seq<Ext> {
    var k := Position(l, e.at);
    l[..k] + [e] + l[k..]
  }

  /** Placed in order, then joined with the entry after it and with the entry before it. */
  function Insert(l: seq<Ext>, e: Ext): seq<Ext> {
    var k := Position(l, e.at);
    var joined := JoinNext(Place(l, e), k);
    if k > 0 then JoinNext(joined, k - 1) else joined
  }

  // ----- what it covers

  lemma JoinCovers(l: seq<Ext>, k: nat)
    ensures SameCover(JoinNext(l, k), l)
  {
    var m := JoinNext(l, k);
    if m != l {
      forall x
        ensures Covers(m, x) <==> Covers(l, x)
      {
        if Covers(m, x) {
          var i :| 0 <= i < |m| && In(m[i], x);
          if i < k {
            assert m[i] == l[i];
          } else if i == k {
            assert In(l[k], x) || In(l[k + 1], x);
          } else {
            assert m[i] == l[i + 1];
          }
        }
        if Covers(l, x) {
          var i :| 0 <= i < |l| && In(l[i], x);
          if i < k {
            assert m[i] == l[i];
          } else if i <= k + 1 {
            assert In(m[k], x);
          } else {
            assert m[i - 1] == l[i];
          }
        }
      }
    }
  }

  lemma PlaceCovers(l: seq<Ext>, e: Ext, x: int)
    ensures Covers(Place(l, e), x) <==> Covers(l, x) || In(e, x)
  {
    var k, m := Position(l, e.at), Place(l, e);
    assert m[k] == e;
    if Covers(l, x) {
      var i :| 0 <= i < |l| && In(l[i], x);
      assert l[i] == m[if i < k then i else i + 1];
    }
    if Covers(m, x) && !In(e, x) {
      var i :| 0 <= i < |m| && In(m[i], x);
      assert m[i] == l[if i < k then i else i - 1];
    }
  }

  /** Freeing is set union on the bytes covered. */
  lemma InsertCovers(l: seq<Ext>, e: Ext, x: int)
    ensures Covers(Insert(l, e), x) <==> Covers(l, x) || In(e, x)
  {
    hide Covers, Place, JoinNext, In;
    var k := Position(l, e.at);
    PlaceCovers(l, e, x);
    JoinCovers(Place(l, e), k);
    if k > 0 {
      JoinCovers(JoinNext(Place(l, e), k), k - 1);
    }
  }

  // ----- the form it keeps

  ghost predicate Apart(l: seq<Ext>, e: Ext) { e.size > 0 && forall x | In(e, x) :: !Covers(l, x) }

  lemma PlaceSorted(l: seq<Ext>, e: Ext)
    requires Sorted(l) && Apart(l, e)
    ensures Sorted(Place(l, e))
  {
    forall i | 0 <= i < |l|
      ensures if i < Position(l, e.at) then l[i].at + l[i].size <= e.at else e.at + e.size <= l[i].at
    {
      if i < Position(l, e.at) {
        assert !In(l[i], e.at) by {
          assert In(e, e.at);
        }
      } else {
        assert In(l[i], l[i].at);
        assert Covers(l, l[i].at);
        assert !In(e, l[i].at);
        assert e.at <= l[Position(l, e.at)].at;
      }
    }
  }

  lemma JoinSorted(l: seq<Ext>, k: nat)
    requires Sorted(l)
    ensures Sorted(JoinNext(l, k))
  {
    var m := JoinNext(l, k);
    if m != l {
      assert forall i | 0 <= i < |m| ::
          && m[i].at == l[if i <= k then i else i + 1].at
          && m[i].at + m[i].size == l[if i < k then i else i + 1].at + l[if i < k then i else i + 1].size;
    }
  }

  /** Entries that touch after a join touched before it, and not at the join. */
  lemma JoinTouch(l: seq<Ext>, k: nat, j: int)
    requires Touch(JoinNext(l, k), j)
    ensures if JoinNext(l, k) == l then j != k && Touch(l, j) else if j < k then Touch(l, j) else Touch(l, j + 1)
  {
  }

  lemma InsertCanonical(l: seq<Ext>, e: Ext)
    requires Canonical(l) && Apart(l, e)
    ensures Canonical(Insert(l, e))
  {
    hide Covers, JoinNext, Touch;
    var k, m := Position(l, e.at), Place(l, e);
    PlaceSorted(l, e);
    PlaceTouches(l, e);
    JoinSorted(m, k);
    forall j: int | Touch(JoinNext(m, k), j)
      ensures j + 1 == k
    {
      JoinTouch(m, k, j);
    }
    if k > 0 {
      JoinLast(JoinNext(m, k), k - 1);
    } else {
      NoTouchBelow(JoinNext(m, k));
    }
  }

  lemma JoinLast(l: seq<Ext>, k: nat)
    requires Sorted(l) && forall j: int | Touch(l, j) :: j == k
    ensures Canonical(JoinNext(l, k))
  {
    hide JoinNext, Touch;
    JoinSorted(l, k);
    forall j: int | Touch(JoinNext(l, k), j)
      ensures false
    {
      JoinTouch(l, k, j);
    }
  }

  lemma NoTouchBelow(l: seq<Ext>)
    ensures !Touch(l, -1)
  {
  }

  /** Away from the new entry, neighbours are neighbours of the old list. */
  lemma PlaceTouch(l: seq<Ext>, e: Ext, j: int)
    requires Touch(Place(l, e), j)
    ensures j + 1 < Position(l, e.at) ==> Touch(l, j)
    ensures j > Position(l, e.at) ==> Touch(l, j - 1)
  {
    var k, m := Position(l, e.at), Place(l, e);
    if j + 1 < k {
      assert m[j] == l[j] && m[j + 1] == l[j + 1];
    } else if j > k {
      assert m[j] == l[j - 1] && m[j + 1] == l[j];
    }
  }

  /** Only the new entry can touch a neighbour. */
  lemma PlaceTouches(l: seq<Ext>, e: Ext)
    requires Canonical(l)
    ensures forall j: int | Touch(Place(l, e), j) :: j == Position(l, e.at) || j + 1 == Position(l, e.at)
  {
    forall j: int | Touch(Place(l, e), j)
      ensures j == Position(l, e.at) || j + 1 == Position(l, e.at)
    {
      hide Sorted, Touch, Place;
      PlaceTouch(l, e, j);
    }
  }

  // ----- one list for each set of bytes

  lemma {:induction false} CanonicalUnique(l: seq<Ext>, m: seq<Ext>)
    requires Canonical(l) && Canonical(m) && SameCover(l, m)
    ensures l == m
  {
    if l == [] || m == [] {
      if m != [] {
        LeastCovered(m, 0);
      }
      if l != [] {
        LeastCovered(l, 0);
      }
    } else {
      FirstSame(l, m);
      TailCover(l, m);
      TailCanonical(l);
      TailCanonical(m);
      CanonicalUnique(l[1..], m[1..]);
      assert l == [l[0]] + l[1..] && m == [m[0]] + m[1..];
    }
  }

  lemma LeastCovered(l: seq<Ext>, x: int)
    requires Canonical(l) && l != []
    ensures Covers(l, l[0].at) && (Covers(l, x) ==> l[0].at <= x)
    ensures l[0].at <= x < l[0].at + l[0].size ==> Covers(l, x)
    ensures !Covers(l, l[0].at + l[0].size)
  {
    assert In(l[0], l[0].at);
    if l[0].at <= x < l[0].at + l[0].size {
      assert In(l[0], x);
    }
    if Covers(l, x) {
      var i :| 0 <= i < |l| && In(l[i], x);
    }
    assert !Touch(l, 0);
    forall i | 0 <= i < |l|
      ensures !In(l[i], l[0].at + l[0].size)
    {
      if i > 1 {
        assert l[1].at <= l[i].at;
      }
    }
  }

  lemma FirstSame(l: seq<Ext>, m: seq<Ext>)
    requires Canonical(l) && Canonical(m) && SameCover(l, m) && l != [] && m != []
    ensures l[0] == m[0]
  {
    hide Covers, Canonical;
    LeastCovered(l, m[0].at);
    LeastCovered(m, l[0].at);
    LeastCovered(l, m[0].at + m[0].size);
    LeastCovered(m, l[0].at + l[0].size);
  }

  lemma TailCanonical(l: seq<Ext>)
    requires Canonical(l) && l != []
    ensures Canonical(l[1..])
  {
    forall k
      ensures !Touch(l[1..], k)
    {
      assert !Touch(l, k + 1);
    }
  }

  lemma TailCovers(l: seq<Ext>, x: int)
    requires Sorted(l) && l != []
    ensures Covers(l[1..], x) <==> Covers(l, x) && l[0].at + l[0].size <= x
  {
    if Covers(l[1..], x) {
      var i :| 0 <= i < |l[1..]| && In(l[1..][i], x);
      assert In(l[i + 1], x);
    }
    if Covers(l, x) && l[0].at + l[0].size <= x {
      var i :| 0 <= i < |l| && In(l[i], x);
      assert l[i] == l[1..][i - 1];
    }
  }

  lemma TailCover(l: seq<Ext>, m: seq<Ext>)
    requires Sorted(l) && Sorted(m) && SameCover(l, m) && l != [] && m != [] && l[0] == m[0]
    ensures SameCover(l[1..], m[1..])
  {
    forall x
      ensures Covers(l[1..], x) <==> Covers(m[1..], x)
    {
      hide Covers;
      TailCovers(l, x);
      TailCovers(m, x);
    }
  }

  // ----- the order of frees does not show

  function FreeAll(l: seq<Ext>, es: seq<Ext>): seq<Ext> {
    if es == [] then l else Insert(FreeAll(l, es[..|es| - 1]), es[|es| - 1])
  }

  /** Blocks that can all be freed: apart from the list and from each other. */
  ghost predicate AllApart(l: seq<Ext>, es: seq<Ext>) {
    && (forall i | 0 <= i < |es| :: Apart(l, es[i]))
    && (forall i, j | 0 <= i < j < |es| :: es[i].at + es[i].size <= es[j].at || es[j].at + es[j].size <= es[i].at)
  }

  lemma {:induction false} FreeAllForm(l: seq<Ext>, es: seq<Ext>)
    requires Canonical(l) && AllApart(l, es)
    ensures Canonical(FreeAll(l, es))
    ensures forall x :: Covers(FreeAll(l, es), x) <==> Covers(l, x) || Covers(es, x)
  {
    if es != [] {
      hide Canonical, Insert;
      var es', e := es[..|es| - 1], es[|es| - 1];
      FreeAllForm(l, es');
      forall x
        ensures Covers(es, x) <==> Covers(es', x) || In(e, x)
      {
        CoversSnoc(es, x);
      }
      assert Apart(FreeAll(l, es'), e) by {
        LastApart(l, es);
      }
      InsertCanonical(FreeAll(l, es'), e);
      forall x
        ensures Covers(FreeAll(l, es), x) <==> Covers(l, x) || Covers(es, x)
      {
        InsertCovers(FreeAll(l, es'), e, x);
      }
    }
  }

  lemma CoversSnoc(es: seq<Ext>, x: int)
    requires es != []
    ensures Covers(es, x) <==> Covers(es[..|es| - 1], x) || In(es[|es| - 1], x)
  {
    var es' := es[..|es| - 1];
    if Covers(es', x) {
      var i :| 0 <= i < |es'| && In(es'[i], x);
      assert In(es[i], x);
    }
    if Covers(es, x) {
      var i :| 0 <= i < |es| && In(es[i], x);
      assert i < |es'| ==> es[i] == es'[i];
    }
  }

  lemma LastApart(l: seq<Ext>, es: seq<Ext>)
    requires es != [] && AllApart(l, es)
    ensures Apart(es[..|es| - 1], es[|es| - 1])
  {
  }

  /** Whatever order the same blocks are freed in, the list ends the same. */
  lemma FreeOrder(l: seq<Ext>, es: seq<Ext>, fs: seq<Ext>)
    requires Canonical(l) && AllApart(l, es) && AllApart(l, fs)
    requires forall e :: e in es <==> e in fs
    ensures FreeAll(l, es) == FreeAll(l, fs)
  {
    FreeAllForm(l, es);
    FreeAllForm(l, fs);
    forall x
      ensures Covers(es, x) <==> Covers(fs, x)
    {
      CoverOfSet(es, fs, x);
      CoverOfSet(fs, es, x);
    }
    CanonicalUnique(FreeAll(l, es), FreeAll(l, fs));
  }

  lemma CoverOfSet(es: seq<Ext>, fs: seq<Ext>, x: int)
    requires forall e :: e in es ==> e in fs
    ensures Covers(es, x) ==> Covers(fs, x)
  {
    if Covers(es, x) {
      var i :| 0 <= i < |es| && In(es[i], x);
      assert es[i] in fs;
      var j :| 0 <= j < |fs| && fs[j] == es[i];
      assert In(fs[j], x);
    }
  }

  // ----- first fit

  /** The first entry of at least need bytes, or the length of the list. */
  function FirstFit(l: seq<Ext>, need: nat): (k: nat)
    ensures k <= |l|
    ensures k < |l| ==> l[k].size >= need
    ensures forall i | 0 <= i < k :: l[i].size < need
  {
    if l == [] || l[0].size >= need then 0
    else
      var k := FirstFit(l[1..], need);
      assert forall i | 1 <= i < k + 1 :: l[i] == l[1..][i - 1];
      k + 1
  }

  function Without(l: seq<Ext>, k: nat): seq<Ext>
    requires k < |l|
  {
    l[..k] + l[k + 1..]
  }

  lemma WithoutForm(l: seq<Ext>, k: nat)
    requires Canonical(l) && k < |l|
    ensures Canonical(Without(l, k))
    ensures forall x :: Covers(Without(l, k), x) <==> Covers(l, x) && !In(l[k], x)
  {
    WithoutCanonical(l, k);
    forall x
      ensures Covers(Without(l, k), x) <==> Covers(l, x) && !In(l[k], x)
    {
      WithoutCovers(l, k, x);
    }
  }

  lemma WithoutCanonical(l: seq<Ext>, k: nat)
    requires Canonical(l) && k < |l|
    ensures Canonical(Without(l, k))
  {
    var m := Without(l, k);
    assert Sorted(m);
    forall j
      ensures !Touch(m, j)
    {
      if 0 <= j && j + 1 < |m| {
        assert !Touch(l, j) && !Touch(l, j + 1);
        if j + 1 == k {
          assert l[j].at + l[j].size <= l[k].at < l[k].at + l[k].size <= l[k + 1].at;
        }
      }
    }
  }

  lemma OnlyOne(l: seq<Ext>, i: nat, j: nat, x: int)
    requires Sorted(l) && i < |l| && j < |l| && In(l[i], x) && In(l[j], x)
    ensures i == j
  {
  }

  lemma WithoutCovers(l: seq<Ext>, k: nat, x: int)
    requires Sorted(l) && k < |l|
    ensures Covers(Without(l, k), x) <==> Covers(l, x) && !In(l[k], x)
  {
    hide Sorted, In;
    var m := Without(l, k);
    if Covers(m, x) {
      var i :| 0 <= i < |m| && In(m[i], x);
      var i' := if i < k then i else i + 1;
      assert m[i] == l[i'];
      if In(l[k], x) {
        OnlyOne(l, i', k, x);
      }
    }
    if Covers(l, x) && !In(l[k], x) {
      var i :| 0 <= i < |l| && In(l[i], x);
      assert l[i] == m[if i < k then i else i - 1];
    }
  }

  /** A request the list can serve takes the lowest address that fits. */
  lemma LowestFit(l: seq<Ext>, need: nat, i: nat)
    requires Canonical(l) && i < |l| && l[i].size >= need
    ensures FirstFit(l, need) < |l| && l[FirstFit(l, need)].at <= l[i].at
  {
    var k := FirstFit(l, need);
    if k < i {
      assert l[k].at + l[k].size <= l[i].at;
    }
  }
}
