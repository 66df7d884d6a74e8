/**
 stdlib/runtime_wasm_alloc.c: who owns each byte of the arenas. Free list, live blocks and the
 prefixes aligned_alloc skips share the arenas out exactly, whatever is allocated and freed.
 */
module WaTiling {
  import opened WaFreeList

  datatype Tag = Free | Live(start: nat) | Dead

  datatype Tiles = Tiles(fl: seq<Ext>, live: map<nat, nat>, own: map<nat, Tag>)

  ghost predicate InLive(g: Tiles, s: nat, x: nat) { s in g.live && s <= x < s + g.live[s] }

  ghost predicate Owned(g: Tiles, x: nat, tag: Tag) { x in g.own && g.own[x] == tag }

  /** Each byte of the arenas has one owner: the free list, one live block, or nobody again. */
  ghost predicate Tiled(g: Tiles) {
    && Canonical(g.fl)
    && (forall x: nat :: Covers(g.fl, x) <==> Owned(g, x, Free))
    && (forall s: nat, x: nat :: InLive(g, s, x) <==> Owned(g, x, Live(s)))
    && (forall s | s in g.live :: g.live[s] > 0)
  }

  function Span(e: Ext): set<nat> { set x: nat | e.at <= x < e.at + e.size && In(e, x) }

  function Mark(own: map<nat, Tag>, e: Ext, tag: Tag): map<nat, Tag> {
    own + (map x: nat | e.at <= x < e.at + e.size && In(e, x) :: tag)
  }

  // ----- what the operations do to the tiles

  const HDR := 16

  /** The part of an entry of this size a request takes: the rest is worth keeping from 32 bytes up. */
  function Taken(size: nat, need: nat): nat { if size >= need + HDR + 16 then need else size }

  /** Entry e, no longer on the list rest, serves a request; what is left of it goes back. */
  function Carve(g: Tiles, rest: seq<Ext>, e: Ext, need: nat): Tiles {
    var t := Taken(e.size, need);
    Tiles(if t < e.size then Insert(rest, Ext(e.at + t, e.size - t)) else rest,
          g.live[e.at := t],
          Mark(Mark(g.own, e, Free), Ext(e.at, t), Live(e.at)))
  }

  function FromList(g: Tiles, need: nat): Tiles
    requires FirstFit(g.fl, need) < |g.fl|
  {
    var k := FirstFit(g.fl, need);
    Carve(g, Without(g.fl, k), g.fl[k], need)
  }

  function FromArena(g: Tiles, e: Ext, need: nat): Tiles { Carve(g, g.fl, e, need) }

  function Release(g: Tiles, s: nat): Tiles
    requires s in g.live
  {
    var e := Ext(s, g.live[s]);
    Tiles(Insert(g.fl, e), g.live - {s}, Mark(g.own, e, Free))
  }

  /** aligned_alloc: the block's suffix stays live, the skipped prefix belongs to nobody. */
  function Shim(g: Tiles, s: nat, cut: nat): Tiles
    requires s in g.live && cut <= g.live[s]
  {
    var size := g.live[s] - cut;
    Tiles(g.fl, (g.live - {s})[s + cut := size],
          Mark(Mark(g.own, Ext(s, cut), Dead), Ext(s + cut, size), Live(s + cut)))
  }

  // ----- exact sharing is kept

  lemma MarkAt(own: map<nat, Tag>, e: Ext, tag: Tag, x: nat)
    ensures x in Mark(own, e, tag) <==> x in own || In(e, x)
    ensures x in Mark(own, e, tag) ==> Mark(own, e, tag)[x] == if In(e, x) then tag else own[x]
  {
  }

  lemma LiveApart(g: Tiles, s: nat)
    requires Tiled(g) && s in g.live
    ensures Apart(g.fl, Ext(s, g.live[s]))
  {
    var e := Ext(s, g.live[s]);
    forall x | In(e, x)
      ensures !Covers(g.fl, x)
    {
      assert InLive(g, s, x);
      assert Owned(g, x, Live(s));
      assert !Owned(g, x, Free);
    }
  }

  lemma ReleaseTiled(g: Tiles, s: nat)
    requires Tiled(g) && s in g.live
    ensures Tiled(Release(g, s)) && Release(g, s).own.Keys == g.own.Keys
  {
    hide Covers, Canonical, Insert;
    var e, h := Ext(s, g.live[s]), Release(g, s);
    LiveApart(g, s);
    InsertCanonical(g.fl, e);
    forall x: nat
      ensures Covers(h.fl, x) <==> Owned(h, x, Free)
    {
      InsertCovers(g.fl, e, x);
      MarkAt(g.own, e, Free, x);
      assert In(e, x) ==> InLive(g, s, x);
      assert Covers(g.fl, x) <==> Owned(g, x, Free);
    }
    forall r: nat, x: nat
      ensures InLive(h, r, x) <==> Owned(h, x, Live(r))
    {
      MarkAt(g.own, e, Free, x);
      assert InLive(g, r, x) <==> Owned(g, x, Live(r));
      assert InLive(g, s, x) <==> Owned(g, x, Live(s));
    }
    KeysKept(g, s, e, Free);
  }

  lemma KeysKept(g: Tiles, s: nat, e: Ext, tag: Tag)
    requires Tiled(g) && s in g.live && s <= e.at && e.at + e.size <= s + g.live[s]
    ensures Mark(g.own, e, tag).Keys == g.own.Keys
  {
    forall x: nat
      ensures x in Mark(g.own, e, tag) <==> x in g.own
    {
      MarkAt(g.own, e, tag, x);
      assert In(e, x) ==> InLive(g, s, x);
      assert InLive(g, s, x) ==> Owned(g, x, Live(s));
    }
  }

  /** What Carve needs of its list: all that is free but e, and e free or new. */
  ghost predicate Carvable(g: Tiles, rest: seq<Ext>, e: Ext, need: nat) {
    && Canonical(rest) && 0 < need <= e.size
    && (forall x: nat :: Covers(rest, x) <==> Covers(g.fl, x) && !In(e, x))
    && (forall x: nat | In(e, x) && x in g.own :: g.own[x] == Free)
  }

  lemma CarveFree(g: Tiles, rest: seq<Ext>, e: Ext, need: nat)
    requires Tiled(g) && Carvable(g, rest, e, need)
    ensures var h := Carve(g, rest, e, need);
      Canonical(h.fl) && forall x: nat :: Covers(h.fl, x) <==> Owned(h, x, Free)
  {
    hide Covers, Canonical, Insert;
    var h, t := Carve(g, rest, e, need), Taken(e.size, need);
    var r := Ext(e.at + t, e.size - t);
    if t < e.size {
      assert Apart(rest, r);
      InsertCanonical(rest, r);
    }
    forall x: nat
      ensures Covers(h.fl, x) <==> Owned(h, x, Free)
    {
      if t < e.size {
        InsertCovers(rest, r, x);
      }
      MarkAt(Mark(g.own, e, Free), Ext(e.at, t), Live(e.at), x);
      MarkAt(g.own, e, Free, x);
      assert Covers(g.fl, x) <==> Owned(g, x, Free);
    }
  }

  lemma CarveTiled(g: Tiles, rest: seq<Ext>, e: Ext, need: nat)
    requires Tiled(g) && Carvable(g, rest, e, need)
    ensures Tiled(Carve(g, rest, e, need)) && e.at !in g.live
    ensures Carve(g, rest, e, need).own.Keys == g.own.Keys + Span(e)
  {
    hide Covers, Canonical, Insert;
    var h, t := Carve(g, rest, e, need), Taken(e.size, need);
    CarveFree(g, rest, e, need);
    assert In(e, e.at);
    assert InLive(g, e.at, e.at) <==> Owned(g, e.at, Live(e.at));
    forall r: nat, x: nat
      ensures InLive(h, r, x) <==> Owned(h, x, Live(r))
    {
      MarkAt(Mark(g.own, e, Free), Ext(e.at, t), Live(e.at), x);
      MarkAt(g.own, e, Free, x);
      assert InLive(g, r, x) <==> Owned(g, x, Live(r));
      assert InLive(g, e.at, x) <==> Owned(g, x, Live(e.at));
    }
    forall x: nat
      ensures x in h.own <==> x in g.own || In(e, x)
    {
      MarkAt(Mark(g.own, e, Free), Ext(e.at, t), Live(e.at), x);
      MarkAt(g.own, e, Free, x);
    }
  }

  lemma FromListTiled(g: Tiles, need: nat)
    requires Tiled(g) && need > 0 && FirstFit(g.fl, need) < |g.fl|
    ensures Carvable(g, Without(g.fl, FirstFit(g.fl, need)), g.fl[FirstFit(g.fl, need)], need)
    ensures Tiled(FromList(g, need)) && FromList(g, need).own.Keys == g.own.Keys
  {
    var k := FirstFit(g.fl, need);
    var e := g.fl[k];
    WithoutForm(g.fl, k);
    forall x: nat | In(e, x)
      ensures x in g.own && g.own[x] == Free
    {
      assert Covers(g.fl, x);
    }
    CarveTiled(g, Without(g.fl, k), e, need);
    assert Span(e) <= g.own.Keys;
  }

  lemma FromArenaTiled(g: Tiles, e: Ext, need: nat)
    requires Tiled(g) && 0 < need <= e.size && Span(e) !! g.own.Keys
    ensures Carvable(g, g.fl, e, need)
    ensures Tiled(FromArena(g, e, need)) && FromArena(g, e, need).own.Keys == g.own.Keys + Span(e)
  {
    hide Covers;
    forall x: nat
      ensures Covers(g.fl, x) <==> Covers(g.fl, x) && !In(e, x)
    {
      assert In(e, x) ==> x in Span(e);
      assert Covers(g.fl, x) <==> Owned(g, x, Free);
    }
    forall x: nat | In(e, x)
      ensures x !in g.own
    {
      assert x in Span(e);
    }
    CarveTiled(g, g.fl, e, need);
  }

  lemma ShimFree(g: Tiles, s: nat, cut: nat, x: nat)
    requires Tiled(g) && s in g.live && 0 < cut < g.live[s]
    ensures var h := Shim(g, s, cut);
      (Covers(h.fl, x) <==> Owned(h, x, Free)) && (x in h.own <==> x in g.own)
  {
    hide Covers, Canonical;
    var size := g.live[s] - cut;
    MarkAt(Mark(g.own, Ext(s, cut), Dead), Ext(s + cut, size), Live(s + cut), x);
    MarkAt(g.own, Ext(s, cut), Dead, x);
    assert Covers(g.fl, x) <==> Owned(g, x, Free);
    assert InLive(g, s, x) <==> Owned(g, x, Live(s));
  }

  lemma ShimLive(g: Tiles, s: nat, cut: nat, r: nat, x: nat)
    requires Tiled(g) && s in g.live && 0 < cut < g.live[s]
    ensures var h := Shim(g, s, cut);
      InLive(h, r, x) <==> Owned(h, x, Live(r))
  {
    hide Covers, Canonical;
    var size := g.live[s] - cut;
    MarkAt(Mark(g.own, Ext(s, cut), Dead), Ext(s + cut, size), Live(s + cut), x);
    MarkAt(g.own, Ext(s, cut), Dead, x);
    assert InLive(g, r, x) <==> Owned(g, x, Live(r));
    assert InLive(g, s, x) <==> Owned(g, x, Live(s));
    assert InLive(g, s, s + cut) <==> Owned(g, s + cut, Live(s));
    assert InLive(g, s + cut, s + cut) <==> Owned(g, s + cut, Live(s + cut));
  }

  lemma ShimTiled(g: Tiles, s: nat, cut: nat)
    requires Tiled(g) && s in g.live && 0 < cut < g.live[s]
    ensures Tiled(Shim(g, s, cut)) && Shim(g, s, cut).own.Keys == g.own.Keys
  {
    hide Covers, Canonical, InLive, Owned, Mark;
    var h := Shim(g, s, cut);
    forall x: nat
      ensures Covers(h.fl, x) <==> Owned(h, x, Free)
      ensures x in h.own <==> x in g.own
    {
      ShimFree(g, s, cut, x);
    }
    forall r: nat, x: nat
      ensures InLive(h, r, x) <==> Owned(h, x, Live(r))
    {
      ShimLive(g, s, cut, r, x);
    }
  }

  // ----- what follows

  /** Two live blocks never overlap. */
  lemma LiveDisjoint(g: Tiles, s: nat, r: nat)
    requires Tiled(g) && s in g.live && r in g.live && s != r
    ensures s + g.live[s] <= r || r + g.live[r] <= s
  {
    assert InLive(g, s, s) && InLive(g, r, r);
    if s < r {
      assert InLive(g, s, r) ==> Owned(g, r, Live(s));
    } else {
      assert InLive(g, r, s) ==> Owned(g, s, Live(r));
    }
  }

  // ----- runs

  datatype Op = Alloc(need: nat) | AllocGrown(arena: Ext, need: nat) | Give(s: nat) | Align(s: nat, cut: nat)

  ghost predicate Enabled(g: Tiles, o: Op) {
    match o
    case Alloc(need) => need > 0 && FirstFit(g.fl, need) < |g.fl|
    case AllocGrown(e, need) => 0 < need <= e.size && Span(e) !! g.own.Keys && FirstFit(g.fl, need) == |g.fl|
    case Give(s) => s in g.live
    case Align(s, cut) => s in g.live && 0 < cut < g.live[s]
  }

  ghost function Step(g: Tiles, o: Op): Tiles
    requires Enabled(g, o)
  {
    match o
    case Alloc(need) => FromList(g, need)
    case AllocGrown(e, need) => FromArena(g, e, need)
    case Give(s) => Release(g, s)
    case Align(s, cut) => Shim(g, s, cut)
  }

  /** States gs passed through by operations os from an empty heap. */
  ghost predicate IsRun(gs: seq<Tiles>, os: seq<Op>) {
    && |gs| == |os| + 1
    && (if os == [] then gs[0] == Tiles([], map[], map[])
        else
          var n := |os| - 1;
          IsRun(gs[..n + 1], os[..n]) && Enabled(gs[n], os[n]) && gs[n + 1] == Step(gs[n], os[n]))
  }

  /** Bytes the arenas of a run have brought in. */
  function Grown(os: seq<Op>): set<nat> {
    if os == [] then {}
    else Grown(os[..|os| - 1]) + (if os[|os| - 1].AllocGrown? then Span(os[|os| - 1].arena) else {})
  }

  lemma StepTiled(g: Tiles, o: Op)
    requires Tiled(g) && Enabled(g, o)
    ensures Tiled(Step(g, o))
    ensures Step(g, o).own.Keys == g.own.Keys + if o.AllocGrown? then Span(o.arena) else {}
  {
    hide Tiled, FromList, FromArena, Release, Shim, FirstFit, Span;
    match o
    case Alloc(need) => FromListTiled(g, need);
    case AllocGrown(e, need) => FromArenaTiled(g, e, need);
    case Give(s) => ReleaseTiled(g, s);
    case Align(s, cut) => ShimTiled(g, s, cut);
  }

  /** After any run, what the arenas brought is shared out exactly: nothing lost, nothing twice. */
  lemma {:induction false} RunTiled(gs: seq<Tiles>, os: seq<Op>)
    requires IsRun(gs, os)
    ensures Tiled(gs[|os|]) && gs[|os|].own.Keys == Grown(os)
  {
    if os == [] {
      NothingTiled();
    } else {
      hide Tiled, Step, Enabled, Span;
      var n := |os| - 1;
      RunTiled(gs[..n + 1], os[..n]);
      StepTiled(gs[n], os[n]);
    }
  }

  lemma NothingTiled()
    ensures Tiled(Tiles([], map[], map[]))
  {
    assert forall x :: !Covers([], x);
  }

  /** A skipped prefix is never handed out again. */
  lemma DeadStays(g: Tiles, o: Op, x: nat)
    requires Tiled(g) && Enabled(g, o) && Owned(g, x, Dead)
    ensures Owned(Step(g, o), x, Dead)
  {
    hide Covers, Canonical, Insert;
    match o {
      case Alloc(need) =>
        FromListTiled(g, need);
        CarveDead(g, Without(g.fl, FirstFit(g.fl, need)), g.fl[FirstFit(g.fl, need)], need, x);
      case AllocGrown(e, need) =>
        FromArenaTiled(g, e, need);
        CarveDead(g, g.fl, e, need, x);
      case Give(s) =>
        MarkAt(g.own, Ext(s, g.live[s]), Free, x);
        assert InLive(g, s, x) <==> Owned(g, x, Live(s));
      case Align(s, cut) =>
        MarkAt(Mark(g.own, Ext(s, cut), Dead), Ext(s + cut, g.live[s] - cut), Live(s + cut), x);
        MarkAt(g.own, Ext(s, cut), Dead, x);
        assert InLive(g, s, x) <==> Owned(g, x, Live(s));
    }
  }

  lemma CarveDead(g: Tiles, rest: seq<Ext>, e: Ext, need: nat, x: nat)
    requires Carvable(g, rest, e, need) && Owned(g, x, Dead)
    ensures Owned(Carve(g, rest, e, need), x, Dead)
  {
    hide Covers, Canonical, Insert;
    MarkAt(Mark(g.own, e, Free), Ext(e.at, Taken(e.size, need)), Live(e.at), x);
    MarkAt(g.own, e, Free, x);
  }
}
