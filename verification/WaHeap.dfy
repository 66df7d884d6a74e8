/**
 stdlib/runtime_wasm_alloc.c: the heap. Every operation keeps the free list canonical and the
 arenas shared out exactly, and leaves the payload of every other live block alone.
 */
module WaHeap {
  import opened Words
  import opened WaFreeList
  import opened WaTiling
  import opened WaLinks
  import opened WaStates

  /** A byte of memory, where the unit it lies in holds bytes. */
  function ByteAt(mem: Memory, a: nat): int {
    var u := Look(mem, a - a % 16);
    if u.Raw? && a % 16 < |u.bytes| then u.bytes[a % 16] else -1
  }

  /** p is the payload of a block that was not live before, with room for n bytes; no other block moved. */
  ghost predicate NewBlock(g: Tiles, g': Tiles, p: nat, n: nat) {
    && p >= HDR && p % 16 == 0 && p - HDR !in g.live && p - HDR in g'.live
    && g'.live == g.live[p - HDR := g'.live[p - HDR]] && g'.live[p - HDR] >= HDR + n
  }

  /** The block at raw is cut in two: what is before p belongs to nobody, p's block holds n bytes. */
  ghost predicate Aligned(g: Tiles, g1: Tiles, g': Tiles, raw: nat, p: nat, align: nat, n: nat) {
    && Multiple(p, align) && NewBlock(g, g1, raw, n + align + HDR) && raw < p && p - raw <= g1.live[raw - HDR]
    && g' == Shim(g1, raw - HDR, p - raw) && p - HDR in g'.live && g'.live[p - HDR] >= HDR + n
  }

  /** The header before a payload says that its block is free: a repeated free goes no further. */
  ghost predicate SaysFree(mem: Memory, b: nat) { Look(mem, b).Hdr? && Look(mem, b).free }

  lemma EntryBefore(l: seq<Ext>, k: nat)
    requires Sorted(l) && 0 < k < |l|
    ensures l[k - 1].at != l[k].at
  {
    assert l[k - 1].at < l[k].at;
  }

  /** A live block's header says that it is not free. */
  lemma LiveSays(mem: Memory, head: nat, g: Tiles, limit: nat, s: nat)
    requires ValidState(mem, head, g, limit) && s in g.live
    ensures !SaysFree(mem, s)
  {
  }

  /** malloc of n bytes has nothing to give: too much is asked for, or no entry is large enough and memory does not grow. */
  ghost predicate Unservable(l: seq<Ext>, n: nat, grow: int) {
    n > TOO_BIG || (grow < 0 && forall i | 0 <= i < |l| :: l[i].size < Need(n))
  }

  lemma NullExactly(g: Tiles, limit: nat, n: nat, grow: int, g': Tiles, limit': nat, p: nat)
    requires Allocated(g, limit, n, grow, g', limit', p)
    ensures p == 0 <==> Unservable(g.fl, n, grow)
  {
    hide Need, FromList, FromArena;
    var k := FirstFit(g.fl, Need(n));
    assert k < |g.fl| ==> g.fl[k].size >= Need(n);
  }

  /** What realloc answers and leaves, in each of its branches; g1 is the heap malloc left when it was asked. */
  ghost predicate Resized(g: Tiles, limit: nat, p: nat, n: nat, grow: int, g1: Tiles, g': Tiles, limit': nat, q: nat) {
    if p == 0 then Allocated(g, limit, n, grow, g', limit', q)
    else
      && p >= HDR && p - HDR in g.live
      && if n == 0 then q == 0 && g' == Release(g, p - HDR) && limit' == limit
         else if g.live[p - HDR] >= HDR + n then q == p && g' == g && limit' == limit
         else Allocated(g, limit, n, grow, g1, limit', q) && p - HDR in g1.live && g' == if q == 0 then g1 else Release(g1, p - HDR)
  }

  /** For a request of some bytes realloc answers null exactly when the block is too small, or none, and malloc has nothing to give. */
  lemma ResizedNull(g: Tiles, limit: nat, p: nat, n: nat, grow: int, g1: Tiles, g': Tiles, limit': nat, q: nat)
    requires Resized(g, limit, p, n, grow, g1, g', limit', q) && n > 0
    ensures q == 0 <==> (p == 0 || g.live[p - HDR] < HDR + n) && Unservable(g.fl, n, grow)
  {
    hide Unservable, Allocated, Release;
    if p == 0 {
      NullExactly(g, limit, n, grow, g', limit', q);
    } else if g.live[p - HDR] < HDR + n {
      NullExactly(g, limit, n, grow, g1, limit', q);
    }
  }

  function Min(a: nat, b: nat): nat { if a < b then a else b }

  /** The units of n bytes from p, as they were, are found from q on. */
  ghost predicate Copied(mem: Memory, mem': Memory, p: nat, q: nat, n: nat) {
    forall a: nat | p <= a < p + n && (a - p) % 16 == 0 :: Look(mem', q + (a - p)) == Look(mem, a)
  }

  ghost predicate Zeros(mem: Memory, p: nat, n: nat) { forall a: nat | p <= a < p + n :: ByteAt(mem, a) == 0 }

  function Times(n: nat, m: nat): nat {
    ProductBound(0, 0, n, m);
    n * m
  }

  /** The product in 32 bits, divided back, shows whether it wrapped. */
  lemma OverflowCheck(n: nat, m: nat)
    requires 0 < n < M && m < M
    ensures Times(n, m) % M / n == m <==> Times(n, m) < M
  {
    if n * m < M {
      DivUnique(n * m, n, m, 0);
    } else {
      var x := n * m % M;
      assert x / n == m ==> x >= m * n;
    }
  }

  class Heap {
    var mem: Memory
    var head: nat
    ghost var g: Tiles
    ghost var limit: nat

    constructor ()
      ensures Valid() && g == Tiles([], map[], map[])
    {
      mem, head, g, limit := map[], 0, Tiles([], map[], map[]), 0;
      new;
      NothingTiled();
    }

    ghost predicate Valid()
      reads this
    {
      ValidState(mem, head, g, limit)
    }

    /** *link: the list head when link is null, else the next field of the block it points into. */
    function Deref(link: nat): nat
      reads this
    {
      if link == 0 then head else if Look(mem, link).Hdr? then Look(mem, link).next else 0
    }

    function SizeOf(b: nat): nat
      reads this
    {
      if Look(mem, b).Hdr? then Look(mem, b).size else 0
    }

    /** *link = to */
    method SetLink(link: nat, to: nat)
      requires link > 0 ==> Look(mem, link).Hdr?
      modifies `mem, `head
      ensures link == 0 ==> head == to && mem == old(mem)
      ensures link > 0 ==> head == old(head) && mem == old(mem)[link := old(Look(mem, link)).(next := to)]
    {
      if link == 0 {
        head := to;
      } else {
        mem := mem[link := Look(mem, link).(next := to)];
      }
    }

    /** The place before the first entry at or above b. */
    method FindPlace(b: nat, ghost l: seq<Ext>) returns (link: nat)
      requires Linked(mem, head, l) && Placed(l)
      ensures link == if Position(l, b) == 0 then 0 else l[Position(l, b) - 1].at
      ensures Deref(link) == StartOf(l, Position(l, b))
    {
      hide StartOf, Linked, Placed;
      link := 0;
      ghost var k := 0;
      StartFirst(mem, head, l);
      StartIs(l, 0);
      while Deref(link) != 0 && Deref(link) < b
        invariant 0 <= k <= Position(l, b)
        invariant link == if k == 0 then 0 else l[k - 1].at
        invariant Deref(link) == StartOf(l, k)
        decreases |l| - k
      {
        StartIs(l, k);
        Entry(mem, head, l, k);
        link := Deref(link);
        k := k + 1;
      }
      StartIs(l, k);
    }

    /** Forward merge: entry k takes in the one it touches. */
    method Merge(b: nat, ghost l: seq<Ext>, ghost k: nat)
      requires Linked(mem, head, l) && Sorted(l) && Placed(l) && k < |l| && b == l[k].at
      modifies `mem, `head
      ensures Linked(mem, head, JoinNext(l, k)) && head == old(head)
      ensures mem == old(mem) || mem == old(mem)[b := Look(mem, b)]
      ensures SaysFree(mem, b)
    {
      hide Sorted, JoinNext, StartOf, Linked, Placed;
      StartIs(l, k);
      StartIs(l, k + 1);
      var next := Deref(b);
      Entry(mem, head, l, k);
      NoJoin(l, k);
      InRange(l, k);
      if next != 0 && (b + SizeOf(b)) % M == next {
        SumInRange(b + SizeOf(b), next);
        Entry(mem, head, l, k + 1);
        LinkJoined(mem, head, l, k);
        mem := mem[b := Hdr(SizeOf(b) + SizeOf(next), true, Deref(next))];
      }
    }

    /** The entry whose next is b. */
    method FindBefore(b: nat, ghost l: seq<Ext>, ghost k: nat) returns (p: nat)
      requires Linked(mem, head, l) && Sorted(l) && Placed(l) && 0 < k < |l| && l[k].at == b
      ensures p == l[k - 1].at
    {
      hide Sorted, StartOf, Linked, Placed;
      p := head;
      ghost var j := 0;
      StartFirst(mem, head, l);
      StartIs(l, 0);
      while p != 0 && Deref(p) != b
        invariant 0 <= j < k && p == l[j].at
        decreases k - j
      {
        Entry(mem, head, l, j);
        StartIs(l, j + 1);
        p := Deref(p);
        j := j + 1;
      }
      StartIs(l, j);
      Entry(mem, head, l, j);
      StartIs(l, j + 1);
      OneAddress(l, j + 1, k);
    }

    /** nurl_wa_insert: the list becomes the one that also covers b's block. */
    method Insert(b: nat, ghost l: seq<Ext>)
      requires Linked(mem, head, l) && Canonical(l) && Placed(l)
      requires Look(mem, b).Hdr? && 0 < b < M && b + Look(mem, b).size <= M && Apart(l, Ext(b, Look(mem, b).size))
      modifies `mem, `head
      ensures Linked(mem, head, WaFreeList.Insert(l, Ext(b, old(Look(mem, b)).size)))
      ensures Kept(old(mem), mem, l, Ext(b, old(Look(mem, b)).size)) && SaysFree(mem, b)
    {
      hide StartOf, Covers, Linked, Placed, JoinNext, Place, In, Kept, Sorted, Apart;
      ghost var e := Ext(b, SizeOf(b));
      ghost var k, m := Position(l, b), Place(l, e);
      var link := FindPlace(b, l);
      if link != 0 {
        StartIs(l, k - 1);
        Entry(mem, head, l, k - 1);
        Addresses(l, e, k - 1);
      } else if k > 0 {
        StartIs(l, k - 1);
      }
      mem := mem[b := Hdr(SizeOf(b), true, Deref(link))];
      SetLink(link, b);
      ghost var mem1 := mem;
      LinkPlaced(old(mem), old(head), l, e, mem, head);
      PlaceSorted(l, e);
      PlacePlaced(l, e);
      PlacedStart(l, e, k);
      forall x
        ensures Covers(m, x) <==> Covers(l, x) || In(e, x)
      {
        PlaceCovers(l, e, x);
      }
      ApartSize(l, e);
      PlacedKept(old(mem), mem, l, e);
      Merge(b, m, k);
      JoinSorted(m, k);
      JoinPlaced(m, k);
      JoinCovers(m, k);
      JoinKeeps(m, k);
      if mem != mem1 {
        KeptJoin(old(mem), mem1, l, e, m, k, Look(mem, b));
      }
      if link != 0 {
        ghost var m2, mem2 := JoinNext(m, k), mem;
        var p := FindBefore(b, m2, k);
        StartIs(m2, k - 1);
        EntryBefore(m2, k);
        if p != 0 {
          Merge(p, m2, k - 1);
          if mem != mem2 {
            KeptJoin(old(mem), mem2, l, e, m2, k - 1, Look(mem, p));
          }
        }
      }
    }

    // ----- allocation

    /** Take the first entry that is large enough off the list. */
    method TakeFit(need: nat, ghost l: seq<Ext>) returns (b: nat)
      requires Linked(mem, head, l) && Sorted(l) && Placed(l)
      modifies `mem, `head
      ensures var k := FirstFit(l, need);
        if k == |l| then b == 0 && mem == old(mem) && head == old(head)
        else && b == l[k].at > 0 && Linked(mem, head, Without(l, k)) && Look(mem, b) == old(Look(mem, b)) && SizeOf(b) == l[k].size
             && (forall a: nat | !Covers(l, a) :: Look(mem, a) == old(Look(mem, a)))
    {
      hide StartOf, Linked, Placed, Sorted, Without, Covers;
      var link := 0;
      b := 0;
      ghost var k := 0;
      StartFirst(mem, head, l);
      StartIs(l, 0);
      while Deref(link) != 0
        invariant 0 <= k <= FirstFit(l, need)
        invariant link == if k == 0 then 0 else l[k - 1].at
        invariant Deref(link) == StartOf(l, k)
        invariant k > 0 ==> Look(mem, link) == Hdr(l[k - 1].size, true, StartOf(l, k))
        invariant b == 0 && mem == old(mem) && head == old(head)
        decreases |l| - k
      {
        StartIs(l, k);
        Entry(mem, head, l, k);
        var next := Deref(link);
        if SizeOf(next) >= need {
          b := next;
          if k > 0 {
            StartIs(l, k - 1);
            EntryCovered(l, k - 1);
            OneAddresses(l, k - 1, k);
          }
          SetLink(link, Deref(b));
          LinkWithout(old(mem), old(head), l, k, mem, head);
          break;
        }
        link := next;
        k := k + 1;
      }
      StartIs(l, k);
    }

    /** nurl_wa_arena: fresh pages from memory.grow, whose answer is grow. */
    method Arena(bytes: nat, grow: int) returns (b: nat)
      requires bytes <= TOO_BIG + 32 && Grows(limit, grow, Pages(bytes))
      modifies `mem
      ensures grow < 0 ==> b == 0 && mem == old(mem)
      ensures grow >= 0 ==> b == ArenaAt(grow, bytes).at > 0
      ensures grow >= 0 ==> mem == old(mem)[b := Hdr(ArenaAt(grow, bytes).size, false, 0)]
    {
      var want := if bytes < CHUNK then CHUNK else bytes;
      var pages := (want + 65535) % M / 65536;
      if grow < 0 {
        return 0;
      }
      b := grow * 65536 % M;
      EnoughPages(bytes);
      ArenaAddress(grow, Pages(bytes));
      mem := mem[b := Hdr(pages * 65536 % M, false, 0)];
    }

    /** The tail of a block goes back to the list when it is worth keeping. */
    method Split(b: nat, need: nat, ghost rest: seq<Ext>, ghost e: Ext, ghost lim: nat)
      requires Linked(mem, head, rest) && Canonical(rest) && AllGood(rest, lim) && lim <= M
      requires Good(e, lim) && Apart(rest, e) && b == e.at && Look(mem, b).Hdr? && SizeOf(b) == e.size
      requires need % 16 == 0 && 0 < need <= e.size
      modifies `mem, `head
      ensures var t := Taken(e.size, need);
        && Linked(mem, head, if t < e.size then WaFreeList.Insert(rest, Ext(b + t, e.size - t)) else rest)
        && HeaderOf(Look(mem, b), t)
      ensures Kept(old(mem), mem, rest, e)
    {
      hide StartOf, Covers, Linked, Placed, Canonical, WaFreeList.Insert;
      ghost var t := Taken(e.size, need);
      ghost var l' := rest;
      GoodPlaced(rest, lim);
      assert In(e, b);
      if SizeOf(b) >= need + HDR + 16 {
        var r := b + need;
        mem := mem[r := Hdr(SizeOf(b) - need, false, 0)];
        assert r != b && Look(mem, b) == old(Look(mem, b));
        mem := mem[b := Look(mem, b).(size := need)];
        ghost var mem1, f := mem, Ext(r, e.size - need);
        CanonicalSorted(rest);
        assert In(e, r);
        LinkedKept(old(mem), mem, head, rest);
        Insert(r, rest);
        InsertCanonical(rest, f);
        InsertCovers(rest, f, b);
        l' := WaFreeList.Insert(rest, f);
        assert Look(mem, b) == Look(mem1, b);
      }
      ghost var mem2 := mem;
      mem := mem[b := Look(mem, b).(free := false, next := 0)];
      CanonicalSorted(l');
      LinkedKept(mem2, mem, head, l');
    }

    /** nurl_wa_alloc: the lowest entry that fits, or the start of a fresh arena. */
    method Alloc(n: nat, grow: int) returns (p: nat)
      requires Valid() && n < M && (n <= TOO_BIG ==> Grows(limit, grow, Pages(Need(n))))
      modifies this
      ensures Valid() && Allocated(old(g), old(limit), n, grow, g, limit, p)
      ensures UnitsKept(old(mem), mem, old(g), Ext(0, 0))
      ensures p == 0 ==> mem == old(mem) && head == old(head) && g == old(g) && limit == old(limit)
      ensures p > 0 ==> NewBlock(old(g), g, p, n)
    {
      hide Round, And, Need, FirstFit, ValidState, Canonical, Covers, Linked, AllGood, Good, Ready, WaFreeList.Insert, Without, Kept,
           Mark, Allocated, UnitsKept, Taken, Tiled, ArenaAt, Pages, Grows, Apart, HeaderOf, Placed, Sorted, Larger, Look;
      p := 0;
      UnitsSame(mem, g);
      var n' := if n == 0 then 1 else n;
      if n' > TOO_BIG {
        AllocatedNone(g, limit, n, grow);
        return;
      }
      RoundUp(n');
      NeedIs(n);
      var need := Round(n') + HDR;
      ghost var l := g.fl;
      ghost var k := FirstFit(l, need);
      ValidParts(mem, head, g, limit);
      ghost var e := if k < |l| then l[k] else if grow >= 0 then ArenaAt(grow, need) else Ext(0, 0);
      ghost var rest := if k < |l| then Without(l, k) else l;
      var b := TakeFit(need, l);
      if b == 0 {
        b := Arena(need, grow);
        if b == 0 {
          AllocatedNone(g, limit, n, grow);
          return;
        }
        ArenaReady(old(mem), mem, head, g, limit, grow, need);
      } else {
        FitReady(old(mem), old(head), mem, g, limit, need);
      }
      ghost var mem1 := mem;
      ReadyParts(old(mem), mem, g, limit, rest, e, need);
      Split(b, need, rest, e, Larger(limit, e));
      CarveValid(old(mem), old(head), mem1, mem, head, g, limit, rest, e, need);
      AllocatedSome(g, limit, n, grow);
      limit := Larger(limit, e);
      g := Carve(g, rest, e, need);
      p := b + HDR;
    }

    // ----- the C interface

    /** free: the block's bytes join the list; a null pointer is ignored. */
    method Free(p: nat)
      requires Valid() && (p == 0 || (p >= HDR && (p - HDR in g.live || SaysFree(mem, p - HDR))))
      modifies this
      ensures Valid() && limit == old(limit)
      ensures p == 0 || p - HDR !in old(g).live ==> g == old(g) && mem == old(mem) && head == old(head)
      ensures p > 0 && p - HDR in old(g).live ==>
        g == Release(old(g), p - HDR) && UnitsKept(old(mem), mem, old(g), Ext(p - HDR, old(g).live[p - HDR]))
      ensures p > 0 ==> SaysFree(mem, p - HDR)
    {
      hide Canonical, Covers, Linked, AllGood, Good, WaFreeList.Insert, Kept, Mark, UnitsKept, Tiled, Apart, Placed, Sorted, StartOf;
      if p == 0 {
        return;
      }
      var b := p - HDR;
      if b in g.live {
        LiveSays(mem, head, g, limit, b);
      }
      if Look(mem, b).Hdr? && Look(mem, b).free {
        return;
      }
      ValidParts(mem, head, g, limit);
      LiveApart(g, b);
      LiveGood(g, limit, b);
      Insert(b, g.fl);
      ReleaseValid(old(mem), old(head), mem, head, g, limit, b);
      g := Release(g, b);
    }

    /** malloc_usable_size */
    function UsableSize(p: nat): nat
      reads this
    {
      if p < HDR || SizeOf(p - HDR) < HDR then 0 else SizeOf(p - HDR) - HDR
    }

    /** What the owner of a block writes into its payload. */
    method Store(ghost s: nat, a: nat, u: Unit)
      requires Valid() && InLive(g, s, a) && a > s
      modifies `mem
      ensures Valid() && mem == old(mem)[a := u]
    {
      hide ValidState;
      WriteValid(mem, head, g, limit, s, a, u);
      mem := mem[a := u];
    }

    /** memcpy of whole units from one payload to another. */
    method Copy(q: nat, p: nat, have: nat)
      requires Valid() && p >= HDR && q >= HDR && p - HDR in g.live && q - HDR in g.live && p != q
      requires have + HDR <= g.live[p - HDR] && have + HDR <= g.live[q - HDR] && have % 16 == 0
      modifies `mem
      ensures Valid()
      ensures Copied(old(mem), mem, p, q, have)
      ensures UnitsKept(old(mem), mem, g, Ext(q - HDR, g.live[q - HDR]))
    {
      hide ValidState, Copied, Tiled;
      var off := 0;
      CopiedNone(mem, p, q);
      while off < have
        invariant 0 <= off <= have && off % 16 == 0 && Valid()
        invariant Copied(old(mem), mem, p, q, off)
        invariant forall a: nat | !(q <= a < q + off) :: Look(mem, a) == old(Look(mem, a))
      {
        ValidTiled(mem, head, g, limit);
        LiveDisjoint(g, p - HDR, q - HDR);
        ghost var mem1 := mem;
        Store(q - HDR, q + off, Look(mem, p + off));
        CopiedMore(old(mem), mem1, p, q, off);
        off := off + 16;
      }
    }

    /** memset to zero from the start of a payload, unit by unit. */
    method Clear(p: nat, total: nat)
      requires Valid() && p >= HDR && p % 16 == 0 && p - HDR in g.live && total + HDR <= g.live[p - HDR]
      modifies `mem
      ensures Valid()
      ensures Zeros(mem, p, total)
      ensures UnitsKept(old(mem), mem, g, Ext(p - HDR, g.live[p - HDR]))
    {
      hide ValidState, Zeros;
      var off := 0;
      NoZeros(mem, p);
      while off < total
        invariant 0 <= off < total + 16 && off % 16 == 0 && Valid()
        invariant Zeros(mem, p, if off < total then off else total)
        invariant forall a: nat | !(p <= a < p + total) :: Look(mem, a) == old(Look(mem, a))
      {
        var r := if total - off < 16 then total - off else 16;
        var u := Look(mem, p + off);
        var bytes := if u.Raw? && |u.bytes| == 16 then u.bytes else seq(16, i => 0);
        ghost var mem1 := mem;
        var zeroed := Raw(seq(r, i => 0) + bytes[r..]);
        Store(p - HDR, p + off, zeroed);
        assert forall a: nat | a != p + off :: Look(mem, a) == Look(mem1, a);
        ZeroUnit(mem1, p, off, r, zeroed);
        off := off + 16;
      }
    }

    /** The part of realloc that needs a larger block: malloc, memcpy, free. */
    method Move(p: nat, n: nat, have: nat, grow: int) returns (q: nat, ghost g1: Tiles)
      requires Valid() && n < M && p >= HDR && p - HDR in g.live && have + HDR == g.live[p - HDR] && have < n
      requires n <= TOO_BIG ==> Grows(limit, grow, Pages(Need(n)))
      modifies this
      ensures Valid() && Resized(old(g), old(limit), p, n, grow, g1, g, limit, q)
      ensures q == 0 <==> Unservable(old(g).fl, n, grow)
      ensures q == 0 ==> g == old(g) && mem == old(mem) && head == old(head)
      ensures q > 0 ==> q != p && q % 16 == 0 && q >= HDR && q - HDR in g.live && g.live[q - HDR] >= HDR + n
      ensures q > 0 ==> p - HDR !in g.live && Copied(old(mem), mem, p, q, have)
      ensures UnitsKept(old(mem), mem, old(g), Ext(p - HDR, old(g).live[p - HDR]))
    {
      hide ValidState, Allocated, UnitsKept, Copied, Look, Mark, WaFreeList.Insert, Tiled, Good, Grows, Need, Pages;
      UnitsSameBut(mem, g, Ext(p - HDR, g.live[p - HDR]));
      BlockIs(mem, head, g, limit, p - HDR);
      q := Alloc(n, grow);
      g1 := g;
      NullExactly(old(g), old(limit), n, grow, g, limit, q);
      if q == 0 {
        return;
      }
      ghost var mem1 := mem;
      Copy(q, p, have);
      ghost var mem2 := mem;
      ValidTiled(mem, head, g, limit);
      Free(p);
      ReallocEnds(old(mem), mem1, mem2, mem, old(g), g1, p, q, have);
    }

    /** realloc: the old bytes come along, or the old block stays as it is. */
    method Realloc(p: nat, n: nat, grow: int) returns (q: nat, ghost g1: Tiles)
      requires Valid() && n < M && (p == 0 || (p >= HDR && p - HDR in g.live))
      requires n <= TOO_BIG ==> Grows(limit, grow, Pages(Need(n)))
      modifies this
      ensures Valid() && Resized(old(g), old(limit), p, n, grow, g1, g, limit, q)
      ensures n > 0 ==> (q == 0 <==> (p == 0 || old(g).live[p - HDR] < HDR + n) && Unservable(old(g).fl, n, grow))
      ensures q > 0 ==> q % 16 == 0 && q >= HDR && q - HDR in g.live && g.live[q - HDR] >= HDR + n
      ensures q > 0 && p > 0 ==> Copied(old(mem), mem, p, q, Min(old(g).live[p - HDR] - HDR, n))
      ensures q == 0 && (p == 0 || n > 0) ==> g == old(g) && mem == old(mem) && head == old(head)
      ensures q != p && q > 0 && p > 0 ==> p - HDR !in g.live
      ensures UnitsKept(old(mem), mem, old(g), if p > 0 then Ext(p - HDR, old(g).live[p - HDR]) else Ext(0, 0))
    {
      hide ValidState, Allocated, UnitsKept, Copied, Look, Mark, WaFreeList.Insert, Tiled, Good, Grows, Need, Pages, Unservable, Release;
      g1 := g;
      if p == 0 {
        q := Alloc(n, grow);
        NullExactly(old(g), old(limit), n, grow, g, limit, q);
        return;
      }
      BlockIs(mem, head, g, limit, p - HDR);
      if n == 0 {
        Free(p);
        return 0, g1;
      }
      UnitsSameBut(mem, g, Ext(p - HDR, g.live[p - HDR]));
      var have := UsableSize(p);
      if have >= n {
        CopiedSelf(mem, p, n);
        return p, g1;
      }
      q, g1 := Move(p, n, have, grow);
      ResizedNull(old(g), old(limit), p, n, grow, g1, g, limit, q);
    }

    /** calloc: the product must not wrap, and the bytes are zero. */
    method Calloc(n: nat, m: nat, grow: int) returns (p: nat)
      requires Valid() && n < M && m < M
      requires Times(n, m) % M <= TOO_BIG ==> Grows(limit, grow, Pages(Need(Times(n, m) % M)))
      modifies this
      ensures Valid() && UnitsKept(old(mem), mem, old(g), Ext(0, 0))
      ensures p == 0 <==> Times(n, m) >= M || Unservable(old(g).fl, Times(n, m), grow)
      ensures Times(n, m) < M ==> Allocated(old(g), old(limit), Times(n, m), grow, g, limit, p)
      ensures p == 0 ==> g == old(g) && mem == old(mem) && head == old(head)
      ensures p > 0 ==> p % 16 == 0 && p >= HDR && p - HDR in g.live && g.live[p - HDR] >= HDR + Times(n, m)
      ensures p > 0 ==> Zeros(mem, p, Times(n, m))
    {
      hide ValidState, Allocated, UnitsKept, Look, Tiled, Good, Grows, Need, Pages, Zeros, Times, UsableSize, Unservable;
      var total := Times(n, m) % M;
      p := 0;
      UnitsSame(mem, g);
      if n > 0 {
        OverflowCheck(n, m);
      }
      if n != 0 && total / n != m {
        return;
      }
      NoWrap(n, m);
      p := Alloc(total, grow);
      NullExactly(old(g), old(limit), total, grow, g, limit, p);
      if p != 0 {
        ghost var mem1 := mem;
        Clear(p, total);
        ValidTiled(mem, head, g, limit);
        ClearKeeps(old(mem), mem1, mem, old(g), g, p);
      }
    }

    /** reallocarray */
    method ReallocArray(p: nat, n: nat, m: nat, grow: int) returns (q: nat, ghost g1: Tiles)
      requires Valid() && n < M && m < M && (p == 0 || (p >= HDR && p - HDR in g.live))
      requires Times(n, m) % M <= TOO_BIG ==> Grows(limit, grow, Pages(Need(Times(n, m) % M)))
      modifies this
      ensures Valid()
      ensures Times(n, m) >= M ==> q == 0 && g == old(g) && mem == old(mem) && head == old(head)
      ensures Times(n, m) < M ==> Resized(old(g), old(limit), p, Times(n, m), grow, g1, g, limit, q)
      ensures 0 < Times(n, m) < M ==>
        (q == 0 <==> (p == 0 || old(g).live[p - HDR] < HDR + Times(n, m)) && Unservable(old(g).fl, Times(n, m), grow))
      ensures q > 0 ==> q >= HDR && q - HDR in g.live && g.live[q - HDR] >= HDR + Times(n, m)
      ensures q > 0 && p > 0 ==> Copied(old(mem), mem, p, q, Min(old(g).live[p - HDR] - HDR, Times(n, m)))
      ensures q == 0 && (p == 0 || Times(n, m) > 0) ==> g == old(g) && mem == old(mem) && head == old(head)
      ensures q != p && q > 0 && p > 0 ==> p - HDR !in g.live
      ensures UnitsKept(old(mem), mem, old(g), if p > 0 then Ext(p - HDR, old(g).live[p - HDR]) else Ext(0, 0))
    {
      hide ValidState, UnitsKept, Look, Mark, WaFreeList.Insert, Tiled, Good, Grows, Need, Pages, Times, UsableSize, Unservable, Resized, Copied;
      var total := Times(n, m) % M;
      if n > 0 {
        OverflowCheck(n, m);
      }
      if n != 0 && total / n != m {
        UnitsSameBut(mem, g, if p > 0 then Ext(p - HDR, g.live[p - HDR]) else Ext(0, 0));
        return 0, g;
      }
      NoWrap(n, m);
      q, g1 := Realloc(p, total, grow);
    }

    /**
     aligned_alloc: above 16, a longer block is taken and its suffix, from an aligned address,
     becomes the block; the sum passed to malloc is a 32-bit one.
     */
    method AlignedAlloc(k: nat, align: nat, n: nat, grow: int) returns (p: nat, ghost raw: nat, ghost g1: Tiles)
      requires Valid() && k < 32 && align == Pow2(k) && n < M
      requires var r := if align <= 16 then n else (n + align + HDR) % M;
        r <= TOO_BIG ==> Grows(limit, grow, Pages(Need(r)))
      modifies this
      ensures align <= 16 ==> Valid() && Allocated(old(g), old(limit), n, grow, g, limit, p)
      ensures align > 16 ==> Allocated(old(g), old(limit), (n + align + HDR) % M, grow, g1, limit, raw)
      ensures align > 16 && raw == 0 ==> p == 0 && Valid() && g == old(g) && mem == old(mem) && head == old(head)
      ensures align > 16 && raw > 0 ==> (Aligned(old(g), g1, g, raw, p, align, n) <==> NoWrapAt(raw, align, n))
      ensures align > 16 && raw > 0 && NoWrapAt(raw, align, n) ==> Valid() && UnitsKept(old(mem), mem, old(g), Ext(0, 0))
    {
      hide ValidState, Allocated, Look, Tiled, Good, Grows, Need, Pages, Shim, And, Pow2, Aligned, UnitsKept, NoWrapAt;
      raw, g1 := 0, g;
      if align <= 16 {
        p := Alloc(n, grow);
        return;
      }
      var extra := align + HDR;
      var r := Alloc((n + extra) % M, grow);
      raw, g1 := r, g;
      if r == 0 {
        return 0, r, g;
      }
      MaskOf(0, k);
      var aligned := And((r + extra) % M, M - align);
      BlockIs(mem, head, g, limit, r - HDR);
      var orig := r - HDR;
      var shim := (aligned - HDR) % M;
      ghost var mem1 := mem;
      mem := mem[shim := Hdr((SizeOf(orig) - (aligned - r)) % M, false, 0)];
      p := aligned;
      AlignTail(k, old(mem), mem1, mem, head, old(g), old(limit), g, limit, r, align, n, grow, mem[shim]);
      if NoWrapAt(r, align, n) {
        g := Shim(g, orig, aligned - r);
      }
    }
  }

  /** After the shim's header is written: either the heap with the suffix as a block, or no aligned block at all. */
  lemma AlignTail(k: nat, mem: Memory, mem1: Memory, mem2: Memory, head: nat, g: Tiles, limit0: nat, g1: Tiles, limit: nat,
                  raw: nat, align: nat, n: nat, grow: int, u: Unit)
    requires ValidState(mem1, head, g1, limit) && k < 32 && align == Pow2(k) && align > 16 && n < M && raw > 0 && align <= M
    requires Allocated(g, limit0, (n + align + HDR) % M, grow, g1, limit, raw)
    requires NewBlock(g, g1, raw, (n + align + HDR) % M) && UnitsKept(mem, mem1, g, Ext(0, 0))
    requires var a := And((raw + (align + HDR)) % M, M - align);
      u == Hdr((g1.live[raw - HDR] - (a - raw)) % M, false, 0) && mem2 == mem1[(a - HDR) % M := u]
    ensures var a := And((raw + (align + HDR)) % M, M - align);
      if NoWrapAt(raw, align, n) then
        raw < a && a - raw <= g1.live[raw - HDR] && ValidState(mem2, head, Shim(g1, raw - HDR, a - raw), limit)
        && Aligned(g, g1, Shim(g1, raw - HDR, a - raw), raw, a, align, n) && UnitsKept(mem, mem2, g, Ext(0, 0))
      else !Aligned(g, g1, g1, raw, a, align, n)
  {
    hide And, Pow2, ValidState, Allocated, Aligned, Look, Tiled, Good, Shim, UnitsKept, NoWrapAt, AlignedAddr, InBlock;
    var a := And((raw + (align + HDR)) % M, M - align);
    AlignServed(k, mem1, head, g, limit0, g1, limit, raw, align, n, grow);
    if NoWrapAt(raw, align, n) {
      NoWrapMeans(raw, align, n);
      SmallMod(n + align + HDR, M);
      AlignEnds(k, mem1, head, g, g1, limit, raw, align, n, u);
      ValidTiled(mem1, head, g1, limit);
      ShimKeeps(mem, mem1, mem2, g, g1, raw, (a - HDR) % M, u);
    } else {
      AlignedIn(g, g1, g1, raw, a, align, n);
    }
  }

  lemma NoWrapMeans(raw: nat, align: nat, n: nat)
    requires NoWrapAt(raw, align, n)
    ensures n + align + HDR < M
  {
  }

  /** The aligned address lies in the block malloc gave exactly when nothing wraps. */
  lemma AlignServed(k: nat, mem: Memory, head: nat, g: Tiles, limit0: nat, g1: Tiles, limit: nat, raw: nat, align: nat, n: nat, grow: int)
    requires ValidState(mem, head, g1, limit) && k < 32 && align == Pow2(k) && align > 16 && n < M && raw > 0
    requires Allocated(g, limit0, (n + align + HDR) % M, grow, g1, limit, raw)
    requires NewBlock(g, g1, raw, (n + align + HDR) % M)
    ensures align <= M / 2 && And((raw + (align + HDR)) % M, M - align) == AlignedAddr(raw, align)
    ensures InBlock(AlignedAddr(raw, align), raw, g1.live[raw - HDR] - HDR, n) <==> NoWrapAt(raw, align, n)
  {
    hide And, Pow2, ValidState, InBounds, Tiled, Good, Allocated, InBlock, NoWrapAt, AlignedAddr;
    BoundsOf(mem, head, g1, limit);
    LiveGood(g1, limit, raw - HDR);
    PowerOfTwo(k);
    HalfAtMost(k);
    MaskIs(raw, k);
    NotTooBig(g, limit0, (n + align + HDR) % M, grow, g1, limit, raw);
    ServedSize(g, limit0, (n + align + HDR) % M, grow, g1, limit, raw);
    AlignedFits(n, align, raw, g1.live[raw - HDR] - HDR);
  }

  lemma NotTooBig(g: Tiles, limit: nat, n: nat, grow: int, g': Tiles, limit': nat, p: nat)
    requires Allocated(g, limit, n, grow, g', limit', p) && p > 0
    ensures n <= TOO_BIG
  {
    hide Need, FromList, FromArena;
  }

  lemma HalfAtMost(k: nat)
    requires k < 32
    ensures Pow2(k) <= M / 2
  {
    hide Pow2;
    Pow2Words();
    Pow2Add(k, 31 - k);
    assert Pow2(31) == M / 2 by {
      Pow2Add(31, 1);
      SmallPowers();
    }
    ProductBound(Pow2(k), 1, Pow2(k), Pow2(31 - k));
  }

  lemma MaskIs(raw: nat, k: nat)
    requires k < 32 && Pow2(k) <= M
    ensures And((raw + (Pow2(k) + HDR)) % M, M - Pow2(k)) == AlignedAddr(raw, Pow2(k))
  {
    hide And, Pow2;
    MaskOf((raw + (Pow2(k) + HDR)) % M, k);
    SmallMod((raw + (Pow2(k) + HDR)) % M, M);
  }

  /** A suffix of malloc's block lies in it. */
  lemma AlignedIn(g: Tiles, g1: Tiles, g': Tiles, raw: nat, p: nat, align: nat, n: nat)
    requires raw >= HDR && raw - HDR in g1.live && g1.live[raw - HDR] >= HDR
    requires !InBlock(p, raw, g1.live[raw - HDR] - HDR, n)
    ensures !Aligned(g, g1, g', raw, p, align, n)
  {
    hide Mark, Multiple;
  }

  /** The shim's header lies in the new block, so no block that was live before is written. */
  lemma ShimKeeps(mem: Memory, mem1: Memory, mem2: Memory, g: Tiles, g1: Tiles, raw: nat, shim: nat, u: Unit)
    requires Tiled(g1) && raw >= HDR && raw - HDR in g1.live && raw - HDR !in g.live && g1.live == g.live[raw - HDR := g1.live[raw - HDR]]
    requires UnitsKept(mem, mem1, g, Ext(0, 0)) && mem2 == mem1[shim := u] && InLive(g1, raw - HDR, shim)
    ensures UnitsKept(mem, mem2, g, Ext(0, 0))
  {
    hide Tiled, Look;
    forall s: nat, a: nat | InLive(g, s, a)
      ensures Look(mem2, a) == Look(mem, a)
    {
      assert InLive(g1, s, a);
      LiveDisjoint(g1, s, raw - HDR);
      assert a != shim;
      LookElsewhere(mem1, shim, u, a);
    }
  }

  lemma LookElsewhere(mem: Memory, x: nat, u: Unit, a: nat)
    requires a != x
    ensures Look(mem[x := u], a) == Look(mem, a)
  {
  }

  lemma NoWrap(n: nat, m: nat)
    requires n < M && m < M && (n > 0 ==> Times(n, m) % M / n == m)
    ensures Times(n, m) < M && Times(n, m) % M == Times(n, m)
  {
    if n > 0 {
      OverflowCheck(n, m);
      SmallMod(Times(n, m), M);
    }
  }

  lemma CopiedSelf(mem: Memory, p: nat, n: nat)
    ensures Copied(mem, mem, p, p, n)
  {
  }

  lemma CopiedNone(mem: Memory, p: nat, q: nat)
    ensures Copied(mem, mem, p, q, 0)
  {
  }

  lemma CopiedMore(mem: Memory, mem1: Memory, p: nat, q: nat, n: nat)
    requires Copied(mem, mem1, p, q, n) && n % 16 == 0 && Look(mem1, p + n) == Look(mem, p + n)
    ensures Copied(mem, mem1[q + n := Look(mem1, p + n)], p, q, n + 16)
  {
    var mem2 := mem1[q + n := Look(mem1, p + n)];
    forall a: nat | p <= a < p + n + 16 && (a - p) % 16 == 0
      ensures Look(mem2, q + (a - p)) == Look(mem, a)
    {
      if a < p + n {
        assert Look(mem1, q + (a - p)) == Look(mem, a);
      } else {
        assert a == p + n;
      }
    }
  }

  lemma NoZeros(mem: Memory, p: nat)
    ensures Zeros(mem, p, 0)
  {
  }

  lemma ZeroUnit(mem: Memory, p: nat, off: nat, r: nat, u: Unit)
    requires p % 16 == 0 && off % 16 == 0 && r <= 16 && Zeros(mem, p, off)
    requires u.Raw? && |u.bytes| == 16 && (forall j | 0 <= j < r :: u.bytes[j] == 0)
    ensures Zeros(mem[p + off := u], p, off + r)
  {
    var mem' := mem[p + off := u];
    forall a: nat | p <= a < p + off + r
      ensures ByteAt(mem', a) == 0
    {
      if a < p + off {
        assert ByteAt(mem, a) == 0;
      } else {
        assert a % 16 == a - p - off;
      }
    }
  }

  lemma BlockIs(mem: Memory, head: nat, g: Tiles, limit: nat, s: nat)
    requires ValidState(mem, head, g, limit) && s in g.live
    ensures HeaderOf(Look(mem, s), g.live[s]) && g.live[s] >= HDR && g.live[s] % 16 == 0 && s % 16 == 0
  {
    LiveGood(g, limit, s);
  }

  lemma UnitsSameBut(mem: Memory, g: Tiles, e: Ext)
    ensures UnitsKept(mem, mem, g, e)
  {
  }

  lemma ClearKeeps(mem: Memory, mem1: Memory, mem2: Memory, g: Tiles, g1: Tiles, p: nat)
    requires Tiled(g1) && p >= HDR && p - HDR in g1.live && p - HDR !in g.live && g1.live == g.live[p - HDR := g1.live[p - HDR]]
    requires UnitsKept(mem, mem1, g, Ext(0, 0)) && UnitsKept(mem1, mem2, g1, Ext(p - HDR, g1.live[p - HDR]))
    ensures UnitsKept(mem, mem2, g, Ext(0, 0))
  {
    hide Tiled, Look;
    forall s: nat, a: nat | InLive(g, s, a)
      ensures Look(mem2, a) == Look(mem, a)
    {
      assert InLive(g1, s, a);
      LiveDisjoint(g1, s, p - HDR);
    }
  }

  lemma ReallocEnds(mem: Memory, mem1: Memory, mem2: Memory, mem3: Memory, g: Tiles, g1: Tiles, p: nat, q: nat, have: nat)
    requires Tiled(g1) && p >= HDR && q >= HDR && p - HDR in g.live && q - HDR in g1.live && q - HDR !in g.live
    requires g1.live == g.live[q - HDR := g1.live[q - HDR]]
    requires have + HDR <= g1.live[q - HDR] && have + HDR == g.live[p - HDR]
    requires UnitsKept(mem, mem1, g, Ext(0, 0)) && UnitsKept(mem1, mem2, g1, Ext(q - HDR, g1.live[q - HDR]))
    requires UnitsKept(mem2, mem3, g1, Ext(p - HDR, g1.live[p - HDR]))
    requires Copied(mem1, mem2, p, q, have)
    ensures Copied(mem, mem3, p, q, have)
    ensures UnitsKept(mem, mem3, g, Ext(p - HDR, g.live[p - HDR]))
  {
    hide Tiled, Look;
    LiveDisjoint(g1, p - HDR, q - HDR);
    forall a: nat | p <= a < p + have && (a - p) % 16 == 0
      ensures Look(mem3, q + (a - p)) == Look(mem, a)
    {
      assert InLive(g1, q - HDR, q + (a - p)) && InLive(g, p - HDR, a);
    }
    forall s: nat, a: nat | InLive(g, s, a) && !In(Ext(p - HDR, g.live[p - HDR]), a)
      ensures Look(mem3, a) == Look(mem, a)
    {
      assert InLive(g1, s, a);
      LiveDisjoint(g1, s, q - HDR);
    }
  }

  /** The shim's header makes the suffix from the aligned address a block of its own. */
  lemma AlignEnds(k: nat, mem: Memory, head: nat, g: Tiles, g1: Tiles, limit: nat, raw: nat, align: nat, n: nat, u: Unit)
    requires ValidState(mem, head, g1, limit) && k < 32 && align == Pow2(k) && align > 16 && NoWrapAt(raw, align, n)
    requires NewBlock(g, g1, raw, n + (align + HDR)) && align <= M
    requires var a := And((raw + (align + HDR)) % M, M - align);
      u == Hdr((g1.live[raw - HDR] - (a - raw)) % M, false, 0)
    ensures var a := And((raw + (align + HDR)) % M, M - align);
      && raw < a && a - raw <= g1.live[raw - HDR] && InLive(g1, raw - HDR, (a - HDR) % M)
      && ValidState(mem[(a - HDR) % M := u], head, Shim(g1, raw - HDR, a - raw), limit)
      && Aligned(g, g1, Shim(g1, raw - HDR, a - raw), raw, a, align, n)
  {
    hide And, Pow2, ValidState, Mark, AlignedTo, Multiple, Shim, Tiled;
    ShimPlace(k, mem, head, g1, limit, raw, align, n);
    var a := AlignedTo(raw, align);
    var rest := g1.live[raw - HDR] - (a - raw);
    SmallMod(rest, M);
    ShimValid(mem, head, g1, limit, raw - HDR, a - raw, u);
    ShimIs(g1, raw - HDR, a - raw);
  }

  lemma ShimPlace(k: nat, mem: Memory, head: nat, g: Tiles, limit: nat, raw: nat, align: nat, n: nat)
    requires ValidState(mem, head, g, limit) && k < 32 && align == Pow2(k) && align > 16 && NoWrapAt(raw, align, n)
    requires raw >= HDR && raw - HDR in g.live && g.live[raw - HDR] >= HDR + (n + align + HDR)
    ensures var a := AlignedTo(raw, align);
      && align <= M && a == And((raw + (align + HDR)) % M, M - align) && Multiple(a, align) && raw + HDR < a < M && (a - raw) % 16 == 0
      && a - raw + HDR + n <= g.live[raw - HDR] < M
  {
    hide And, Pow2, ValidState, InBounds, Tiled, Good, AlignedTo, Multiple;
    BoundsOf(mem, head, g, limit);
    LiveGood(g, limit, raw - HDR);
    PowerOfTwo(k);
    WholeUnits(raw);
    AlignedPlace(raw, align);
    ShimRoom(raw, align, n, g.live[raw - HDR], limit, AlignedTo(raw, align));
    MaskAligns(raw, k);
  }

  lemma WholeUnits(raw: nat)
    requires raw >= HDR && (raw - HDR) % 16 == 0
    ensures raw % 16 == 0
  {
  }

  lemma ShimRoom(raw: nat, align: nat, n: nat, size: nat, limit: nat, a: nat)
    requires raw > HDR && raw % 16 == 0 && a % 16 == 0 && raw + HDR < a <= raw + align + HDR
    requires size >= HDR + (n + align + HDR) && raw - HDR + size <= limit <= M && NoWrapAt(raw, align, n)
    ensures raw + (align + HDR) < M && a < M && (a - raw) % 16 == 0 && a - raw + HDR + n <= size < M
  {
  }

  lemma MaskAligns(raw: nat, k: nat)
    requires raw + (Pow2(k) + HDR) < M && k < 32
    ensures Pow2(k) <= M && And((raw + (Pow2(k) + HDR)) % M, M - Pow2(k)) == AlignedTo(raw, Pow2(k))
  {
    hide And, Pow2;
    MaskOf(raw + (Pow2(k) + HDR), k);
  }

  lemma MaskOf(x: nat, k: nat)
    requires x < M && k < 32
    ensures Pow2(k) <= M && And(x % M, M - Pow2(k)) == x - x % Pow2(k)
  {
    hide And, Pow2;
    Pow2Words();
    AndHighMask(x, 32 - k, k);
    SmallMod(x, M);
  }

  lemma BoundsOf(mem: Memory, head: nat, g: Tiles, limit: nat)
    requires ValidState(mem, head, g, limit)
    ensures InBounds(g, limit)
  {
  }

  lemma {:induction false} PowerOfTwo(k: nat)
    requires Pow2(k) > 16
    ensures Pow2(k) % 16 == 0 && k > 4
  {
    if k <= 4 {
      SmallPowers();
    } else {
      Pow2Add(k - 4, 4);
      SmallPowers();
    }
  }

  lemma SmallPowers()
    ensures Pow2(0) == 1 && Pow2(1) == 2 && Pow2(2) == 4 && Pow2(3) == 8 && Pow2(4) == 16
  {
  }

  lemma ShimIs(g: Tiles, s: nat, cut: nat)
    requires s in g.live && cut <= g.live[s]
    ensures s + cut in Shim(g, s, cut).live && Shim(g, s, cut).live[s + cut] == g.live[s] - cut
  {
    hide Mark;
  }

  lemma ValidTiled(mem: Memory, head: nat, g: Tiles, limit: nat)
    requires ValidState(mem, head, g, limit)
    ensures Tiled(g)
  {
  }

  lemma LiveGood(g: Tiles, limit: nat, s: nat)
    requires InBounds(g, limit) && s in g.live
    ensures Good(Ext(s, g.live[s]), limit) && 0 < s && s + g.live[s] <= limit <= M && g.live[s] >= HDR
    ensures s % 16 == 0 && g.live[s] % 16 == 0
  {
    hide AllGood;
  }
}
