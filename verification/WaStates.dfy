/**
 stdlib/runtime_wasm_alloc.c: when memory, list head and owners fit together, and that taking,
 giving back and writing keep it so.
 */
module WaStates {
  import opened Words
  import opened WaFreeList
  import opened WaTiling
  import opened WaLinks

  const CHUNK := 0x10_0000
  const PAGE := 0x1_0000
  const TOO_BIG := 0xF000_0000

  /** nurl_wa_round: up to the next multiple of 16, in 32 bits. */
  function Round(n: nat): nat { And((n + 15) % M, M - 16) }

  lemma RoundUp(n: nat)
    requires n <= TOO_BIG
    ensures Round(n) % 16 == 0 && n <= Round(n) < n + 16
  {
    hide And;
    Pow2Words();
    assert Pow2(4) == 16;
    AndHighMask(n + 15, 28, 4);
  }

  function Need(n: nat): nat { Round(if n == 0 then 1 else n) + HDR }

  function Pages(bytes: nat): nat { ((if bytes < CHUNK then CHUNK else bytes) + 65535) % M / 65536 }

  /** The fewest whole pages that hold the request and a chunk; the sum before the division does not wrap. */
  lemma EnoughPages(bytes: nat)
    requires bytes <= TOO_BIG + 32
    ensures bytes <= Pages(bytes) * PAGE < M && Pages(bytes) > 0
    ensures var most := if bytes < CHUNK then CHUNK else bytes; (Pages(bytes) - 1) * PAGE < most <= Pages(bytes) * PAGE
  {
  }

  /** memory.grow: minus one, or the old page count with that many fresh pages after it. */
  ghost predicate Grows(limit: nat, grow: int, pages: nat) {
    grow >= 0 ==> grow > 0 && limit <= grow * PAGE && (grow + pages) * PAGE <= M
  }

  function ArenaAt(grow: int, bytes: nat): Ext
    requires grow >= 0
  {
    Ext(grow * PAGE, Pages(bytes) * PAGE)
  }

  ghost predicate HeaderOf(u: Unit, size: nat) { u.Hdr? && u.size == size && !u.free }

  // ----- states of the heap

  ghost predicate InBounds(g: Tiles, limit: nat) {
    && limit <= M && AllGood(g.fl, limit)
    && (forall s | s in g.live :: Good(Ext(s, g.live[s]), limit))
    && (forall x | x in g.own :: x < limit)
  }

  ghost predicate Headers(mem: Memory, g: Tiles) { forall s | s in g.live :: HeaderOf(Look(mem, s), g.live[s]) }

  ghost predicate ValidState(mem: Memory, head: nat, g: Tiles, limit: nat) {
    Tiled(g) && Linked(mem, head, g.fl) && InBounds(g, limit) && Headers(mem, g)
  }

  /** Every unit of every live block but e is as it was. */
  ghost predicate UnitsKept(mem: Memory, mem': Memory, g: Tiles, e: Ext) {
    forall s: nat, a: nat | InLive(g, s, a) && !In(e, a) :: Look(mem', a) == Look(mem, a)
  }

  lemma KeptUnits(mem: Memory, mem': Memory, g: Tiles, e: Ext)
    requires Tiled(g) && Kept(mem, mem', g.fl, e)
    ensures UnitsKept(mem, mem', g, e)
  {
    forall s: nat, a: nat | InLive(g, s, a) && !In(e, a)
      ensures Look(mem', a) == Look(mem, a)
    {
      assert Owned(g, a, Live(s));
      assert !Owned(g, a, Free);
    }
  }

  /** What nurl_wa_alloc answers and leaves, by the list and memory.grow's answer. */
  ghost predicate Allocated(g: Tiles, limit: nat, n: nat, grow: int, g': Tiles, limit': nat, p: nat) {
    var need := Need(n);
    if n > TOO_BIG || (FirstFit(g.fl, need) == |g.fl| && grow < 0) then
      p == 0 && g' == g && limit' == limit
    else if FirstFit(g.fl, need) < |g.fl| then
      g' == FromList(g, need) && p == g.fl[FirstFit(g.fl, need)].at + HDR && limit' == limit
    else
      var e := ArenaAt(grow, need);
      g' == FromArena(g, e, need) && p == e.at + HDR && limit' == e.at + e.size
  }

  lemma ArenaAddress(grow: int, pages: nat)
    requires grow > 0 && (grow + pages) * PAGE <= M && pages > 0
    ensures 0 < grow * PAGE < M && grow * 65536 % M == grow * PAGE
  {
  }

  lemma CanonicalSorted(l: seq<Ext>)
    requires Canonical(l)
    ensures Sorted(l)
  {
  }

  function Larger(limit: nat, e: Ext): nat { if e.at + e.size > limit then e.at + e.size else limit }

  lemma ValidParts(mem: Memory, head: nat, g: Tiles, limit: nat)
    requires ValidState(mem, head, g, limit)
    ensures Linked(mem, head, g.fl) && Canonical(g.fl) && Sorted(g.fl) && Placed(g.fl) && AllGood(g.fl, limit)
  {
    GoodPlaced(g.fl, limit);
  }

  /** What Split and Carve need, once entry e has left the list. */
  ghost predicate Ready(mem: Memory, mem1: Memory, g: Tiles, limit: nat, rest: seq<Ext>, e: Ext, need: nat) {
    && Carvable(g, rest, e, need) && Apart(rest, e) && Good(e, Larger(limit, e)) && Larger(limit, e) <= M
    && AllGood(rest, Larger(limit, e)) && Look(mem1, e.at).Hdr? && Look(mem1, e.at).size == e.size
    && need % 16 == 0 && HDR + 1 <= need
    && (forall a: nat | !Covers(g.fl, a) && !In(e, a) :: Look(mem1, a) == Look(mem, a))
    && (forall s: nat, a: nat | In(e, a) :: !InLive(g, s, a))
  }

  lemma ReadyParts(mem: Memory, mem1: Memory, g: Tiles, limit: nat, rest: seq<Ext>, e: Ext, need: nat)
    requires Ready(mem, mem1, g, limit, rest, e, need)
    ensures Canonical(rest) && Apart(rest, e) && Good(e, Larger(limit, e)) && Larger(limit, e) <= M
    ensures AllGood(rest, Larger(limit, e)) && 0 < need <= e.size && need % 16 == 0
    ensures Look(mem1, e.at).Hdr? && Look(mem1, e.at).size == e.size
  {
    hide Canonical, Apart, Good, Larger, AllGood, Covers;
  }

  lemma FitReady(mem: Memory, head: nat, mem1: Memory, g: Tiles, limit: nat, need: nat)
    requires ValidState(mem, head, g, limit) && FirstFit(g.fl, need) < |g.fl| && need % 16 == 0 && HDR + 1 <= need
    requires var e := g.fl[FirstFit(g.fl, need)];
      && Look(mem1, e.at) == Look(mem, e.at)
      && (forall a: nat | !Covers(g.fl, a) :: Look(mem1, a) == Look(mem, a))
    ensures Ready(mem, mem1, g, limit, Without(g.fl, FirstFit(g.fl, need)), g.fl[FirstFit(g.fl, need)], need)
    ensures Larger(limit, g.fl[FirstFit(g.fl, need)]) == limit
  {
    hide Covers, Canonical, FirstFit, StartOf;
    var k := FirstFit(g.fl, need);
    var e, rest := g.fl[k], Without(g.fl, k);
    FromListTiled(g, need);
    Entry(mem, head, g.fl, k);
    assert Good(e, limit);
    forall a: nat, s: nat | In(e, a)
      ensures !InLive(g, s, a)
    {
      assert InLive(g, s, a) <==> Owned(g, a, Live(s));
      InsideCovered(g.fl, k, a);
      assert Owned(g, a, Free);
    }
    assert AllGood(rest, limit);
    assert Apart(rest, e) by {
      WithoutForm(g.fl, k);
    }
  }

  lemma InsideCovered(l: seq<Ext>, k: nat, a: nat)
    requires k < |l| && In(l[k], a)
    ensures Covers(l, a)
  {
  }

  lemma ArenaFresh(g: Tiles, limit: nat, e: Ext)
    requires Tiled(g) && InBounds(g, limit) && limit <= e.at
    ensures Span(e) !! g.own.Keys
    ensures forall a: nat | In(e, a) :: !Covers(g.fl, a)
    ensures forall s: nat, a: nat | In(e, a) :: !InLive(g, s, a)
  {
    hide Covers, Canonical, AllGood;
    forall a: nat, s: nat | In(e, a)
      ensures !InLive(g, s, a) && !Covers(g.fl, a)
    {
      assert InLive(g, s, a) <==> Owned(g, a, Live(s));
      assert Covers(g.fl, a) <==> Owned(g, a, Free);
    }
  }

  lemma ArenaGood(limit: nat, grow: int, need: nat)
    requires grow >= 0 && need <= TOO_BIG + 32 && Grows(limit, grow, Pages(need))
    ensures var e := ArenaAt(grow, need);
      && Good(e, e.at + e.size) && e.at + e.size <= M && need <= e.size && limit <= e.at
      && Larger(limit, e) == e.at + e.size
  {
    hide Pages;
    EnoughPages(need);
    WholePages(grow);
    WholePages(Pages(need));
  }

  lemma WholePages(k: int)
    ensures k * PAGE % 16 == 0
  {
    assert k * PAGE == 16 * (k * 4096);
  }

  lemma ArenaReady(mem: Memory, mem1: Memory, head: nat, g: Tiles, limit: nat, grow: int, need: nat)
    requires ValidState(mem, head, g, limit) && grow >= 0 && need % 16 == 0 && HDR + 1 <= need <= TOO_BIG + 32
    requires Grows(limit, grow, Pages(need)) && mem1 == mem[ArenaAt(grow, need).at := Hdr(ArenaAt(grow, need).size, false, 0)]
    ensures Ready(mem, mem1, g, limit, g.fl, ArenaAt(grow, need), need)
    ensures Larger(limit, ArenaAt(grow, need)) == ArenaAt(grow, need).at + ArenaAt(grow, need).size
    ensures Linked(mem1, head, g.fl)
  {
    hide Covers, Canonical, Pages, Linked, Good, AllGood, ArenaAt, Larger, FromArena, Span, Tiled;
    var e := ArenaAt(grow, need);
    ArenaGood(limit, grow, need);
    ArenaFresh(g, limit, e);
    FromArenaTiled(g, e, need);
    GoodLarger(g.fl, limit, Larger(limit, e));
    ValidParts(mem, head, g, limit);
    GoodStart(e, Larger(limit, e));
    LinkedKept(mem, mem1, head, g.fl);
  }

  lemma GoodStart(e: Ext, limit: nat)
    requires Good(e, limit)
    ensures In(e, e.at) && e.size > 0
  {
  }

  lemma GoodLarger(l: seq<Ext>, limit: nat, limit': nat)
    requires AllGood(l, limit) && limit <= limit'
    ensures AllGood(l, limit')
  {
  }

  lemma CarveUnits(mem: Memory, mem1: Memory, mem2: Memory, g: Tiles, limit: nat, rest: seq<Ext>, e: Ext, need: nat)
    requires Tiled(g) && Ready(mem, mem1, g, limit, rest, e, need) && Kept(mem1, mem2, rest, e)
    ensures UnitsKept(mem, mem2, g, Ext(0, 0))
  {
    hide Covers, Canonical, Look, AllGood, Good;
    forall s: nat, a: nat | InLive(g, s, a)
      ensures Look(mem2, a) == Look(mem, a)
    {
      assert Owned(g, a, Live(s));
      assert !Owned(g, a, Free);
      assert !In(e, a) && !Covers(rest, a);
    }
  }

  lemma CarveBounds(g: Tiles, limit: nat, rest: seq<Ext>, e: Ext, need: nat)
    requires Tiled(g) && InBounds(g, limit) && Carvable(g, rest, e, need) && need % 16 == 0 && need >= 16
    requires Good(e, Larger(limit, e)) && Larger(limit, e) <= M && AllGood(rest, Larger(limit, e))
    ensures InBounds(Carve(g, rest, e, need), Larger(limit, e))
  {
    hide Covers, Canonical, Insert, AllGood, Tiled, Carvable;
    var h, t, lim := Carve(g, rest, e, need), Taken(e.size, need), Larger(limit, e);
    if t < e.size {
      GoodInsert(rest, Ext(e.at + t, e.size - t), lim);
    }
    CarveTiled(g, rest, e, need);
    forall x | x in h.own
      ensures x < lim
    {
      assert x in g.own.Keys + Span(e);
    }
  }

  /** Taking from entry e leaves a valid heap and every block that was live as it was. */
  lemma CarveValid(mem: Memory, head: nat, mem1: Memory, mem2: Memory, head2: nat, g: Tiles, limit: nat,
                   rest: seq<Ext>, e: Ext, need: nat)
    requires ValidState(mem, head, g, limit) && Ready(mem, mem1, g, limit, rest, e, need)
    requires Linked(mem2, head2, Carve(g, rest, e, need).fl) && Kept(mem1, mem2, rest, e)
    requires HeaderOf(Look(mem2, e.at), Taken(e.size, need))
    ensures ValidState(mem2, head2, Carve(g, rest, e, need), Larger(limit, e))
    ensures UnitsKept(mem, mem2, g, Ext(0, 0)) && e.at !in g.live && e.at % 16 == 0 && e.at > 0
    ensures e.at in Carve(g, rest, e, need).live && Carve(g, rest, e, need).live[e.at] >= need
  {
    hide Covers, Canonical, Look, AllGood, Kept, Linked, Insert, Mark, Tiled, InBounds;
    CarveTiled(g, rest, e, need);
    CarveUnits(mem, mem1, mem2, g, limit, rest, e, need);
    CarveBounds(g, limit, rest, e, need);
    var h := Carve(g, rest, e, need);
    forall s | s in h.live
      ensures HeaderOf(Look(mem2, s), h.live[s])
    {
      if s != e.at {
        LivePositive(g, s);
        assert InLive(g, s, s);
        assert Look(mem2, s) == Look(mem, s);
      }
    }
  }

  lemma LivePositive(g: Tiles, s: nat)
    requires Tiled(g) && s in g.live
    ensures g.live[s] > 0
  {
  }

  lemma UnitsSame(mem: Memory, g: Tiles)
    ensures UnitsKept(mem, mem, g, Ext(0, 0))
  {
  }

  lemma NeedIs(n: nat)
    ensures Need(n) == Round(if n == 0 then 1 else n) + HDR
    ensures TOO_BIG == 0xF000_0000 && HDR == 16 && M == 0x1_0000_0000
  {
  }

  lemma AllocatedNone(g: Tiles, limit: nat, n: nat, grow: int)
    requires n > TOO_BIG || (FirstFit(g.fl, Need(n)) == |g.fl| && grow < 0)
    ensures Allocated(g, limit, n, grow, g, limit, 0)
  {
    hide Need, FirstFit;
  }

  lemma AllocatedSome(g: Tiles, limit: nat, n: nat, grow: int)
    requires n <= TOO_BIG
    ensures var need := Need(n);
      var k := FirstFit(g.fl, need);
      && (k < |g.fl| ==> Allocated(g, limit, n, grow, Carve(g, Without(g.fl, k), g.fl[k], need), limit, g.fl[k].at + HDR))
      && (k == |g.fl| && grow >= 0 ==>
            var e := ArenaAt(grow, need);
            Allocated(g, limit, n, grow, Carve(g, g.fl, e, need), e.at + e.size, e.at + HDR))
  {
    hide Need, FirstFit, Carve, ArenaAt;
  }

  // ----- giving back

  lemma ReleaseBounds(g: Tiles, limit: nat, s: nat)
    requires Tiled(g) && InBounds(g, limit) && s in g.live
    ensures InBounds(Release(g, s), limit)
  {
    hide Covers, Canonical, Insert, AllGood, Tiled, Good;
    ReleaseTiled(g, s);
    GoodInsert(g.fl, Ext(s, g.live[s]), limit);
  }

  lemma ReleaseValid(mem: Memory, head: nat, mem2: Memory, head2: nat, g: Tiles, limit: nat, s: nat)
    requires ValidState(mem, head, g, limit) && s in g.live
    requires Linked(mem2, head2, Release(g, s).fl) && Kept(mem, mem2, g.fl, Ext(s, g.live[s]))
    ensures ValidState(mem2, head2, Release(g, s), limit)
    ensures UnitsKept(mem, mem2, g, Ext(s, g.live[s]))
  {
    hide Covers, Canonical, Look, AllGood, Kept, Linked, Insert, Mark, InBounds;
    var e, h := Ext(s, g.live[s]), Release(g, s);
    ReleaseTiled(g, s);
    ReleaseBounds(g, limit, s);
    KeptUnits(mem, mem2, g, e);
    forall r | r in h.live
      ensures HeaderOf(Look(mem2, r), h.live[r])
    {
      LivePositive(g, r);
      LiveDisjoint(g, r, s);
      assert InLive(g, r, r);
    }
  }

  // ----- writing

  /** A write into a payload touches no header the heap goes by. */
  lemma WriteValid(mem: Memory, head: nat, g: Tiles, limit: nat, s: nat, a: nat, u: Unit)
    requires ValidState(mem, head, g, limit) && InLive(g, s, a) && a > s
    ensures ValidState(mem[a := u], head, g, limit)
  {
    hide Canonical, Covers, AllGood, InBounds, Linked;
    assert Owned(g, a, Live(s));
    assert !Owned(g, a, Free);
    ValidParts(mem, head, g, limit);
    LinkedKept(mem, mem[a := u], head, g.fl);
    forall r | r in g.live
      ensures HeaderOf(Look(mem[a := u], r), g.live[r])
    {
      LivePositive(g, r);
      assert InLive(g, r, r);
      assert a == r ==> Owned(g, a, Live(r));
    }
  }

  // ----- alignment

  lemma ShimBounds(g: Tiles, limit: nat, s: nat, cut: nat)
    requires Tiled(g) && InBounds(g, limit) && s in g.live && cut % 16 == 0 && 0 < cut && cut + HDR <= g.live[s]
    ensures InBounds(Shim(g, s, cut), limit)
  {
    hide Covers, Canonical, AllGood, Tiled;
    ShimTiled(g, s, cut);
    var h := Shim(g, s, cut);
    assert Good(Ext(s, g.live[s]), limit);
    forall x | x in h.own
      ensures x < limit
    {
      assert x in g.own.Keys;
    }
  }

  lemma ShimValid(mem: Memory, head: nat, g: Tiles, limit: nat, s: nat, cut: nat, u: Unit)
    requires ValidState(mem, head, g, limit) && s in g.live && cut % 16 == 0 && 0 < cut && cut + HDR <= g.live[s]
    requires HeaderOf(u, g.live[s] - cut)
    ensures ValidState(mem[s + cut := u], head, Shim(g, s, cut), limit)
  {
    hide Covers, Canonical, AllGood, InBounds, Linked, Tiled, Mark;
    ShimTiled(g, s, cut);
    ShimBounds(g, limit, s, cut);
    assert InLive(g, s, s + cut);
    WriteValid(mem, head, g, limit, s, s + cut, u);
    var h := Shim(g, s, cut);
    forall r | r in h.live
      ensures HeaderOf(Look(mem[s + cut := u], r), h.live[r])
    {
      if r != s + cut {
        assert r in g.live;
      }
    }
  }

  /** The aligned address in a block: the last multiple of align at or below raw + align + 16. */
  function AlignedTo(raw: nat, align: nat): nat
    requires align > 0
  {
    raw + align + HDR - (raw + align + HDR) % align
  }

  ghost predicate Multiple(a: nat, align: nat) { align > 0 && a % align == 0 }

  lemma AlignedPlace(raw: nat, align: nat)
    requires raw % 16 == 0 && align % 16 == 0 && align > 16
    ensures var a := AlignedTo(raw, align);
      Multiple(a, align) && a % 16 == 0 && raw + HDR < a <= raw + align + HDR
  {
    var x := raw + align + HDR;
    var q := x / align;
    DivUnique(q * align, align, q, 0);
    assert x - x % align == q * align;
    var k := align / 16;
    assert align == 16 * k;
    DivUnique(q * align, 16, q * k, 0) by {
      assert q * (16 * k) == (q * k) * 16;
    }
  }

  /** The address aligned_alloc computes, in 32 bits. */
  function AlignedAddr(raw: nat, align: nat): nat
    requires align > 0
  {
    (raw + align + HDR) % M - (raw + align + HDR) % M % align
  }

  /** n bytes from a lie inside the payload of the block at raw, past its start. */
  ghost predicate InBlock(a: nat, raw: nat, usable: nat, n: nat) { raw < a && a + n <= raw + usable }

  /** What malloc may answer to a request for r bytes. */
  ghost predicate Serves(raw: nat, usable: nat, r: nat) {
    raw >= HDR && raw % 16 == 0 && r <= usable < r + 48 && raw + usable <= M
  }

  /** When what aligned_alloc computes in 32 bits does not wrap: the request, and for no bytes at all the address. */
  predicate NoWrapAt(raw: nat, align: nat, n: nat) { n + align + HDR < M && (n > 0 || raw + align + HDR < M) }

  /**
   The payload lies in the block that serves the request, n + align + 16 in 32 bits, exactly when
   neither that sum nor, for a request of no bytes, the address wraps.
   */
  lemma AlignedFits(n: nat, align: nat, raw: nat, usable: nat)
    requires n < M && align % 16 == 0 && 16 < align <= M / 2
    requires Serves(raw, usable, (n + align + HDR) % M)
    ensures InBlock(AlignedAddr(raw, align), raw, usable, n) <==> NoWrapAt(raw, align, n)
    ensures NoWrapAt(raw, align, n) ==> AlignedAddr(raw, align) == AlignedTo(raw, align)
  {
    hide AlignedAddr, AlignedTo, Multiple;
    AlignedPlace(raw, align);
    AddrIs(raw, align);
    PlaceFits(n, align, raw, usable, AlignedAddr(raw, align));
  }

  lemma AddrIs(raw: nat, align: nat)
    requires align > 0 && raw + align + HDR < 2 * M
    ensures if raw + align + HDR < M then AlignedAddr(raw, align) == AlignedTo(raw, align)
            else AlignedAddr(raw, align) <= raw + align + HDR - M
  {
    var x := raw + align + HDR;
    if x < M {
      SmallMod(x, M);
    } else {
      DivUnique(x, M, 1, x - M);
    }
  }

  lemma PlaceFits(n: nat, align: nat, raw: nat, usable: nat, a: nat)
    requires n < M && 16 < align <= M / 2 && Serves(raw, usable, (n + align + HDR) % M)
    requires if raw + align + HDR < M then raw + HDR < a <= raw + align + HDR else a <= raw + align + HDR - M
    ensures InBlock(a, raw, usable, n) <==> NoWrapAt(raw, align, n)
  {
  }

  /** A wrapped request: 2^32 - 16 bytes at 32 asks malloc for 32 bytes, and the payload ends past any block that serves it. */
  lemma AlignedWraps(raw: nat, usable: nat)
    requires Serves(raw, usable, (M - 16 + 32 + HDR) % M)
    ensures usable < 80 && AlignedTo(raw, 32) + (M - 16) > raw + usable && !InBlock(AlignedAddr(raw, 32), raw, usable, M - 16)
  {
    AlignedPlace(raw, 32);
    AlignedFits(M - 16, 32, raw, usable);
  }

  /** A request of no bytes at 32, served by the last 48 bytes of a full memory: no sum wraps but the address, to null. */
  lemma AlignedNull()
    ensures var n, align, raw, usable := 0, 32, M - 48, 48;
      Serves(raw, usable, (n + align + HDR) % M) && n + align + HDR < M && AlignedAddr(raw, align) == 0
  {
  }

  /** Such a block is reached: a first request leaves 64 bytes of an arena that ends memory, the next takes them. */
  lemma AlignedNullReached() returns (gs: seq<Tiles>, os: seq<Op>)
    ensures IsRun(gs, os) && |os| == 2 && os[1] == Op.Alloc(Need(48))
    ensures M - 64 in gs[2].live && gs[2].live[M - 64] == 64 && gs[1].fl == [Ext(M - 64, 64)]
  {
    hide Mark, Span, Round;
    RoundUp(48);
    var e := Ext(M - CHUNK, CHUNK);
    var g0 := Tiles([], map[], map[]);
    var g1 := FromArena(g0, e, CHUNK - 64);
    InsertNone(Ext(M - 64, 64));
    var g2 := FromList(g1, 64);
    os := [AllocGrown(e, CHUNK - 64), Op.Alloc(64)];
    gs := [g0, g1, g2];
    assert gs[..2][..1] == [g0] && os[..1][..0] == [];
    assert IsRun(gs[..2][..1], os[..1][..0]);
    assert IsRun(gs[..2], os[..1]);
  }

  lemma InsertNone(e: Ext)
    ensures Insert([], e) == [e]
  {
  }

  /**
   A block nurl_wa_alloc hands out is less than 48 bytes longer than asked for, and it is the whole entry,
   or the entry without a tail that has room for a header and 16 bytes.
   */
  lemma ServedSize(g: Tiles, limit: nat, n: nat, grow: int, g': Tiles, limit': nat, p: nat)
    requires Allocated(g, limit, n, grow, g', limit', p) && p > 0 && n <= TOO_BIG
    ensures p >= HDR && p - HDR in g'.live && g'.live[p - HDR] < HDR + n + 48
    ensures var k := FirstFit(g.fl, Need(n));
      var e, t := if k < |g.fl| then g.fl[k] else ArenaAt(grow, Need(n)), g'.live[p - HDR];
      p == e.at + HDR && (t == e.size || (t == Need(n) && e.size - t >= HDR + 16))
  {
    hide Insert, Mark, Round;
    RoundUp(if n == 0 then 1 else n);
  }
}
