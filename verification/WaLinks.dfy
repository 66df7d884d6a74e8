/**
 stdlib/runtime_wasm_alloc.c: the free list in memory. A header sits in the 16-byte unit at its
 block's address, so a header write and a payload write to one unit collide.
 */
module WaLinks {
  import opened WaFreeList

  const M: nat := 0x1_0000_0000

  datatype Unit = Unset | Hdr(size: nat, free: bool, next: nat) | Raw(bytes: seq<nat>)

  type Memory = map<nat, Unit>

  function Look(mem: Memory, a: nat): Unit { if a in mem then mem[a] else Unset }

  function StartOf(l: seq<Ext>, i: nat): nat { if i < |l| then l[i].at else 0 }

  /** The list in memory: from head, each header holds its entry's size and the next entry's address. */
  ghost predicate Linked(mem: Memory, head: nat, l: seq<Ext>) {
    && head == StartOf(l, 0)
    && forall i | 0 <= i < |l| :: Look(mem, l[i].at) == Hdr(l[i].size, true, StartOf(l, i + 1))
  }

  /** Entries lie above address 0 and end within the 32-bit address space. */
  ghost predicate Placed(l: seq<Ext>) { forall i | 0 <= i < |l| :: 0 < l[i].at < M && l[i].at + l[i].size <= M }

  /** Outside e and the list's bytes memory is as it was. */
  ghost predicate Kept(mem: Memory, mem': Memory, l: seq<Ext>, e: Ext) {
    forall a: nat | !Covers(l, a) && !In(e, a) :: Look(mem', a) == Look(mem, a)
  }

  /** What memory says of entry i, and of where the list goes on from it. */
  lemma Entry(mem: Memory, head: nat, l: seq<Ext>, i: nat)
    requires Linked(mem, head, l) && i < |l|
    ensures Look(mem, l[i].at) == Hdr(l[i].size, true, StartOf(l, i + 1))
  {
    hide StartOf;
  }

  lemma StartIs(l: seq<Ext>, i: nat)
    requires Placed(l)
    ensures i < |l| ==> StartOf(l, i) == l[i].at > 0
    ensures i >= |l| ==> StartOf(l, i) == 0
  {
  }

  lemma EntryCovered(l: seq<Ext>, i: nat)
    requires Sorted(l) && i < |l|
    ensures Covers(l, l[i].at)
  {
    assert In(l[i], l[i].at);
  }

  lemma Addresses(l: seq<Ext>, e: Ext, i: nat)
    requires Sorted(l) && Apart(l, e) && i < |l|
    ensures l[i].at != e.at && forall j | 0 <= j < |l| && j != i :: l[j].at != l[i].at
  {
    EntryCovered(l, i);
    assert In(e, e.at);
  }

  /** Writing the header of entry e and the link before it puts e in the list. */
  lemma LinkPlaced(mem: Memory, head: nat, l: seq<Ext>, e: Ext, mem': Memory, head': nat)
    requires Linked(mem, head, l) && Sorted(l) && Apart(l, e) && e.at > 0
    requires var k := Position(l, e.at);
      && Look(mem', e.at) == Hdr(e.size, true, StartOf(l, k))
      && (if k == 0 then head' == e.at else head' == head && Look(mem', l[k - 1].at) == Hdr(l[k - 1].size, true, e.at))
      && (forall a: nat | a != e.at && (k == 0 || a != l[k - 1].at) :: Look(mem', a) == Look(mem, a))
    ensures Linked(mem', head', Place(l, e))
  {
    hide Look, Sorted, Apart, StartOf, Place;
    var k, m := Position(l, e.at), Place(l, e);
    PlacedHead(l, e);
    forall i | 0 <= i < |m|
      ensures Look(mem', m[i].at) == Hdr(m[i].size, true, StartOf(m, i + 1))
    {
      PlacedStart(l, e, i);
      if i < k {
        Addresses(l, e, i);
      } else if i > k {
        Addresses(l, e, i - 1);
      }
    }
  }

  lemma PlacedHead(l: seq<Ext>, e: Ext)
    ensures |Place(l, e)| == |l| + 1
    ensures StartOf(Place(l, e), 0) == if Position(l, e.at) == 0 then e.at else StartOf(l, 0)
  {
  }

  lemma PlacedStart(l: seq<Ext>, e: Ext, i: nat)
    requires i <= |l|
    ensures |Place(l, e)| == |l| + 1
    ensures var k, m := Position(l, e.at), Place(l, e);
      && m[i] == (if i < k then l[i] else if i == k then e else l[i - 1])
      && StartOf(m, i + 1) == if i + 1 < k then StartOf(l, i + 1) else if i + 1 == k then e.at else StartOf(l, i)
  {
  }

  /** Growing entry k over the next one and taking its link joins the two. */
  lemma LinkJoined(mem: Memory, head: nat, l: seq<Ext>, k: nat)
    requires Linked(mem, head, l) && Sorted(l) && k + 1 < |l| && l[k].at + l[k].size == l[k + 1].at
    ensures Linked(mem[l[k].at := Hdr(l[k].size + l[k + 1].size, true, StartOf(l, k + 2))], head, JoinNext(l, k))
  {
    hide JoinNext, StartOf, Sorted;
    var m, mem' := JoinNext(l, k), mem[l[k].at := Hdr(l[k].size + l[k + 1].size, true, StartOf(l, k + 2))];
    JoinedHead(l, k);
    forall i | 0 <= i < |m|
      ensures Look(mem', m[i].at) == Hdr(m[i].size, true, StartOf(m, i + 1))
    {
      JoinedStart(l, k, i);
      if i != k {
        var j := if i < k then i else i + 1;
        if l[j].at == l[k].at {
          OneAddress(l, j, k);
        }
      }
    }
  }

  lemma JoinedHead(l: seq<Ext>, k: nat)
    requires k + 1 < |l| && l[k].at + l[k].size == l[k + 1].at
    ensures |JoinNext(l, k)| == |l| - 1 && StartOf(JoinNext(l, k), 0) == StartOf(l, 0)
  {
  }

  lemma JoinedStart(l: seq<Ext>, k: nat, i: nat)
    requires k + 1 < |l| && l[k].at + l[k].size == l[k + 1].at && i + 1 < |l|
    ensures var m := JoinNext(l, k);
      && |m| == |l| - 1
      && m[i] == (if i < k then l[i] else if i == k then Ext(l[k].at, l[k].size + l[k + 1].size) else l[i + 1])
      && StartOf(m, i + 1) == if i < k then StartOf(l, i + 1) else StartOf(l, i + 2)
  {
  }

  lemma JoinPlaced(l: seq<Ext>, k: nat)
    requires Placed(l)
    ensures Placed(JoinNext(l, k))
  {
    var m := JoinNext(l, k);
    if m != l {
      assert forall i | 0 <= i < |m| ::
          && m[i].at == l[if i <= k then i else i + 1].at
          && m[i].at + m[i].size == l[if i < k then i else i + 1].at + l[if i < k then i else i + 1].size;
    }
  }

  lemma PlacePlaced(l: seq<Ext>, e: Ext)
    requires Placed(l) && 0 < e.at < M && e.at + e.size <= M
    ensures Placed(Place(l, e))
  {
  }

  /** Headers inside the old list's bytes, or e's, are all that an insertion writes. */
  lemma KeptJoin(mem: Memory, mem': Memory, l: seq<Ext>, e: Ext, m: seq<Ext>, k: nat, u: Unit)
    requires Kept(mem, mem', l, e) && Sorted(m) && k < |m|
    requires forall x :: Covers(m, x) <==> Covers(l, x) || In(e, x)
    ensures Kept(mem, mem'[m[k].at := u], l, e)
  {
    EntryCovered(m, k);
  }

  lemma SumInRange(x: nat, y: nat)
    requires x <= M && 0 < y && x % M == y
    ensures x == y
  {
  }

  lemma StartFirst(mem: Memory, head: nat, l: seq<Ext>)
    requires Linked(mem, head, l)
    ensures head == StartOf(l, 0)
  {
  }

  lemma OneAddress(l: seq<Ext>, i: nat, j: nat)
    requires Sorted(l) && i < |l| && j < |l| && l[i].at == l[j].at
    ensures i == j
  {
  }

  lemma OneAddresses(l: seq<Ext>, i: nat, j: nat)
    requires Sorted(l) && i < j < |l|
    ensures l[i].at != l[j].at
  {
  }

  lemma NoJoin(l: seq<Ext>, k: nat)
    ensures !Touch(l, k) ==> JoinNext(l, k) == l
  {
  }

  lemma InRange(l: seq<Ext>, k: nat)
    requires Placed(l) && k < |l|
    ensures l[k].at + l[k].size <= M
    ensures Touch(l, k) ==> (l[k].at + l[k].size) % M == l[k + 1].at
  {
  }

  lemma ApartSize(l: seq<Ext>, e: Ext)
    requires Apart(l, e)
    ensures e.size > 0
  {
  }

  lemma JoinKeeps(l: seq<Ext>, k: nat)
    requires k < |l|
    ensures k < |JoinNext(l, k)| && JoinNext(l, k)[k].at == l[k].at
  {
  }

  lemma PlacedKept(mem: Memory, mem': Memory, l: seq<Ext>, e: Ext)
    requires Sorted(l) && e.size > 0
    requires forall a: nat | a != e.at && (Position(l, e.at) == 0 || a != l[Position(l, e.at) - 1].at) :: Look(mem', a) == Look(mem, a)
    ensures Kept(mem, mem', l, e)
  {
    if Position(l, e.at) > 0 {
      EntryCovered(l, Position(l, e.at) - 1);
    }
  }

  /** A write outside the list's bytes leaves it linked. */
  lemma LinkedKept(mem: Memory, mem': Memory, head: nat, l: seq<Ext>)
    requires Linked(mem, head, l) && Sorted(l)
    requires forall a: nat | Covers(l, a) :: Look(mem', a) == Look(mem, a)
    ensures Linked(mem', head, l)
  {
    hide StartOf, Look, Covers, Sorted;
    forall i | 0 <= i < |l|
      ensures Look(mem', l[i].at) == Hdr(l[i].size, true, StartOf(l, i + 1))
    {
      EntryCovered(l, i);
      Entry(mem, head, l, i);
    }
  }

  /** Taking entry k out: the link before it takes over its link. */
  lemma LinkWithout(mem: Memory, head: nat, l: seq<Ext>, k: nat, mem': Memory, head': nat)
    requires Linked(mem, head, l) && Sorted(l) && k < |l|
    requires if k == 0 then head' == StartOf(l, 1) && mem' == mem
             else head' == head && mem' == mem[l[k - 1].at := Hdr(l[k - 1].size, true, StartOf(l, k + 1))]
    ensures Linked(mem', head', Without(l, k))
  {
    hide StartOf, Sorted, Without;
    var m := Without(l, k);
    WithoutHead(l, k);
    forall i | 0 <= i < |m|
      ensures Look(mem', m[i].at) == Hdr(m[i].size, true, StartOf(m, i + 1))
    {
      WithoutStart(l, k, i);
      var j := if i < k then i else i + 1;
      if k > 0 && l[j].at == l[k - 1].at {
        OneAddress(l, j, k - 1);
      }
    }
  }

  lemma WithoutHead(l: seq<Ext>, k: nat)
    requires k < |l|
    ensures |Without(l, k)| == |l| - 1 && StartOf(Without(l, k), 0) == StartOf(l, if k == 0 then 1 else 0)
  {
  }

  lemma WithoutStart(l: seq<Ext>, k: nat, i: nat)
    requires k < |l| && i + 1 < |l|
    ensures var m := Without(l, k);
      && m[i] == l[if i < k then i else i + 1]
      && StartOf(m, i + 1) == StartOf(l, if i + 1 < k then i + 1 else i + 2)
  {
  }

  // ----- where blocks may lie

  /** A block: whole 16-byte units, at least a header, inside the memory there is. */
  ghost predicate Good(e: Ext, limit: nat) {
    e.at % 16 == 0 && e.size % 16 == 0 && 16 <= e.size && 0 < e.at && e.at + e.size <= limit
  }

  ghost predicate AllGood(l: seq<Ext>, limit: nat) { forall i | 0 <= i < |l| :: Good(l[i], limit) }

  lemma GoodPlaced(l: seq<Ext>, limit: nat)
    requires AllGood(l, limit) && limit <= M
    ensures Placed(l)
  {
  }

  lemma GoodJoin(l: seq<Ext>, k: nat, limit: nat)
    requires AllGood(l, limit)
    ensures AllGood(JoinNext(l, k), limit)
  {
    var m := JoinNext(l, k);
    if m != l {
      assert Good(l[k], limit) && Good(l[k + 1], limit);
      assert Good(m[k], limit);
      forall i | 0 <= i < |m|
        ensures Good(m[i], limit)
      {
        assert i != k ==> m[i] == l[if i < k then i else i + 1];
      }
    }
  }

  lemma GoodInsert(l: seq<Ext>, e: Ext, limit: nat)
    requires AllGood(l, limit) && Good(e, limit)
    ensures AllGood(Insert(l, e), limit)
  {
    hide JoinNext, Good;
    var k := Position(l, e.at);
    assert AllGood(Place(l, e), limit);
    GoodJoin(Place(l, e), k, limit);
    if k > 0 {
      GoodJoin(JoinNext(Place(l, e), k), k - 1, limit);
    }
  }
}
