/**
 unikernel/runtime_bare.c, struct NbRwHolder: which locks a holder reads and how often, four entries
 in the record and the rest in a block that grows by doubling and goes when the four suffice again.
 */
module HolderRecord {
  datatype Ent = Ent(l: nat, c: nat)

  const INLINE := 4

  /** Every lock has one entry, and a positive count. */
  ghost predicate Clean(s: seq<Ent>) {
    && (forall i | 0 <= i < |s| :: s[i].c > 0)
    && forall i, j | 0 <= i < j < |s| :: s[i].l != s[j].l
  }

  /** How often the holder reads lock l. */
  function Count(s: seq<Ent>, l: nat): nat {
    if s == [] then 0 else if s[0].l == l then s[0].c else Count(s[1..], l)
  }

  lemma {:induction false} CountAt(s: seq<Ent>, l: nat)
    requires Clean(s)
    ensures forall k | 0 <= k < |s| && s[k].l == l :: Count(s, l) == s[k].c
    ensures (forall k | 0 <= k < |s| :: s[k].l != l) ==> Count(s, l) == 0
  {
    if s != [] {
      CountAt(s[1..], l);
      forall k | 0 <= k < |s| && s[k].l == l
        ensures Count(s, l) == s[k].c
      {
        assert k > 0 ==> s[1..][k - 1] == s[k];
      }
    }
  }

  /** The list with entry k gone and the last one in its place. */
  function Dropped(s: seq<Ent>, k: nat): seq<Ent>
    requires k < |s|
  {
    s[k := s[|s| - 1]][..|s| - 1]
  }

  lemma DroppedCounts(s: seq<Ent>, k: nat, l: nat)
    requires Clean(s) && k < |s|
    ensures Clean(Dropped(s, k)) && Count(Dropped(s, k), l) == if l == s[k].l then 0 else Count(s, l)
  {
    var t := Dropped(s, k);
    CountAt(s, l);
    CountAt(t, l);
    if l != s[k].l && exists i :: 0 <= i < |s| && s[i].l == l {
      var i :| 0 <= i < |s| && s[i].l == l;
      assert t[if i == |s| - 1 then k else i] == s[i];
    }
  }

  lemma AddedCounts(s: seq<Ent>, h: nat, l: nat)
    requires Clean(s) && Count(s, h) == 0
    ensures Clean(s + [Ent(h, 1)]) && Count(s + [Ent(h, 1)], l) == if l == h then 1 else Count(s, l)
  {
    var t := s + [Ent(h, 1)];
    CountAt(s, h);
    CountAt(s, l);
    assert Clean(t);
    CountAt(t, l);
    assert t[|s|].l == h;
    if i: nat :| i < |s| && s[i].l == l {
      assert t[i] == s[i];
    }
  }

  lemma SetCounts(s: seq<Ent>, k: nat, c: nat, l: nat)
    requires Clean(s) && k < |s| && c > 0
    ensures Clean(s[k := s[k].(c := c)]) && Count(s[k := s[k].(c := c)], l) == if l == s[k].l then c else Count(s, l)
  {
    var t := s[k := s[k].(c := c)];
    CountAt(s, l);
    CountAt(t, l);
    if i: nat :| i < |s| && s[i].l == l {
      assert t[i].l == l;
    }
  }

  class Record {
    var n: nat
    const inner: array<Ent>
    var more: array<Ent>

    ghost predicate Valid()
      reads this, inner, more
    {
      && inner.Length == INLINE && inner != more && n <= INLINE + more.Length && (more.Length > 0 ==> n > INLINE)
      && Clean(List())
    }

    ghost function List(): seq<Ent>
      requires inner.Length == INLINE && inner != more && n <= INLINE + more.Length
      reads this, inner, more
    {
      if n <= INLINE then inner[..n] else inner[..] + more[..n - INLINE]
    }

    constructor ()
      ensures Valid() && List() == [] && fresh(inner) && fresh(more)
    {
      n, inner, more := 0, new Ent[INLINE](_ => Ent(0, 0)), new Ent[0];
    }

    /** nb_rw_ent */
    function EntAt(k: nat): (e: Ent)
      requires inner.Length == INLINE && inner != more && n <= INLINE + more.Length && k < n
      reads this, inner, more
      ensures e == List()[k]
    {
      if k < INLINE then inner[k] else more[k - INLINE]
    }

    method SetEnt(k: nat, e: Ent)
      requires inner.Length == INLINE && inner != more && n <= INLINE + more.Length && k < n
      modifies inner, more
      ensures List() == old(List())[k := e]
    {
      if k < INLINE {
        inner[k] := e;
      } else {
        more[k - INLINE] := e;
      }
    }

    /** nb_rw_find: newest first; the entry of lock l, or none. */
    method Find(l: nat) returns (k: int)
      requires Valid()
      ensures if Count(List(), l) == 0 then k == -1 else 0 <= k < n && List()[k] == Ent(l, Count(List(), l))
    {
      k := n - 1;
      CountAt(List(), l);
      while k >= 0
        invariant -1 <= k < n
        invariant forall i | k < i < n :: List()[i].l != l
      {
        if EntAt(k).l == l {
          return;
        }
        k := k - 1;
      }
    }

    /** nb_rw_add: the block for entries past the inline ones doubles when it is full. */
    method Add(l: nat)
      requires Valid() && Count(List(), l) == 0
      modifies this`n, this`more, inner, more
      ensures Valid() && List() == old(List()) + [Ent(l, 1)] && (more == old(more) || fresh(more))
      ensures forall x :: Count(List(), x) == if x == l then 1 else old(Count(List(), x))
    {
      ghost var s := List();
      if n >= INLINE + more.Length {
        Grow();
      }
      n := n + 1;
      SetEnt(n - 1, Ent(l, 1));
      assert List() == s + [Ent(l, 1)];
      forall x
        ensures Count(List(), x) == if x == l then 1 else Count(s, x)
      {
        AddedCounts(s, l, x);
      }
      AddedCounts(s, l, 0);
    }

    /** realloc: the entries past the inline ones, in a block twice as long. */
    method Grow()
      requires inner.Length == INLINE && inner != more && n == INLINE + more.Length
      modifies this`more
      ensures fresh(more) && more.Length > old(more.Length) && n < INLINE + more.Length && List() == old(List())
    {
      var cap := if more.Length > 0 then more.Length * 2 else INLINE;
      var block := new Ent[cap](_ => Ent(0, 0));
      var was := more;
      for i := 0 to was.Length
        invariant more == was && was[..] == old(more[..]) && block[..i] == was[..i]
      {
        block[i] := was[i];
      }
      more := block;
      assert more[..n - INLINE] == old(more[..]);
    }

    /** nb_rw_drop: the last entry takes its place. */
    method Drop(k: nat)
      requires Valid() && k < n
      modifies this`n, this`more, inner, more
      ensures Valid() && List() == Dropped(old(List()), k) && (more == old(more) || fresh(more))
      ensures forall x :: Count(List(), x) == if x == old(List()[k].l) then 0 else old(Count(List(), x))
    {
      ghost var s := List();
      SetEnt(k, EntAt(n - 1));
      n := n - 1;
      assert List() == Dropped(s, k);
      if n <= INLINE && more.Length > 0 {
        more := new Ent[0];
      }
      forall x
        ensures Count(List(), x) == if x == s[k].l then 0 else Count(s, x)
      {
        DroppedCounts(s, k, x);
      }
      DroppedCounts(s, k, 0);
    }

    /** One more or one fewer read of the lock entry k is for. */
    method SetCount(k: nat, c: nat)
      requires Valid() && k < n && c > 0
      modifies inner, more
      ensures Valid() && List() == old(List())[k := old(List()[k]).(c := c)]
      ensures forall x :: Count(List(), x) == if x == old(List()[k].l) then c else old(Count(List(), x))
    {
      ghost var s := List();
      SetEnt(k, EntAt(k).(c := c));
      forall x
        ensures Count(List(), x) == if x == s[k].l then c else Count(s, x)
      {
        SetCounts(s, k, c, x);
      }
      SetCounts(s, k, c, 0);
    }
  }
}
