/**
 unikernel/runtime_bare.c: the lists in memory. Every queue is threaded through one next field,
 the timer list through tnext, and each method below leaves the links spelling out what the
 scheduler's lists are to be.
 */
module SchedLinks {
  import opened Options
  import opened SchedCore

  type Links = map<nat, nat>

  function Look(m: Links, c: nat): nat { if c in m then m[c] else 0 }

  function At(l: seq<nat>, i: nat): nat { if i < |l| then l[i] else 0 }

  /** From h, following the links spells l. */
  ghost predicate Chain(m: Links, h: nat, l: seq<nat>) {
    h == At(l, 0) && forall i | 0 <= i < |l| :: l[i] > 0 && Look(m, l[i]) == At(l, i + 1)
  }

  /** Queues with a tail pointer; a joiner list and the drain list have only a head. */
  predicate HasTail(n: QName) { !n.JoinQ? && !n.Drain? }

  lemma ChainAt(m: Links, h: nat, l: seq<nat>, i: nat)
    requires Chain(m, h, l) && i < |l|
    ensures l[i] > 0 && Look(m, l[i]) == At(l, i + 1)
  {
    hide At;
  }

  lemma AtIs(l: seq<nat>, i: nat)
    ensures At(l, i) == if i < |l| then l[i] else 0
  {
  }

  /** A link written outside a list leaves the list as it was. */
  lemma ChainKept(m: Links, h: nat, l: seq<nat>, c: nat, to: nat)
    requires Chain(m, h, l) && c !in l
    ensures Chain(m[c := to], h, l)
  {
    hide At;
  }

  lemma ChainPush(m: Links, h: nat, l: seq<nat>, c: nat)
    requires Chain(m, h, l) && c !in l && c > 0 && NoDup(l)
    ensures var m1 := m[c := 0];
      if l == [] then Chain(m1, c, [c]) else Chain(m1[l[|l| - 1] := c], h, l + [c])
  {
    var m1 := m[c := 0];
    if l != [] {
      hide At;
      var m2, r := m1[l[|l| - 1] := c], l + [c];
      AtIs(r, 0);
      AtIs(l, 0);
      forall i | 0 <= i < |r|
        ensures r[i] > 0 && Look(m2, r[i]) == At(r, i + 1)
      {
        AtIs(r, i + 1);
        if i < |l| {
          ChainAt(m, h, l, i);
          AtIs(l, i + 1);
          assert i + 1 < |l| ==> l[i] != l[|l| - 1];
          assert l[i] in l;
        } else {
          assert l[|l| - 1] in l;
        }
      }
    }
  }

  lemma ChainPushFront(m: Links, h: nat, l: seq<nat>, c: nat)
    requires Chain(m, h, l) && c !in l && c > 0
    ensures Chain(m[c := h], c, [c] + l)
  {
    hide At;
    var r := [c] + l;
    AtIs(r, 0);
    AtIs(l, 0);
    forall i | 0 <= i < |r|
      ensures r[i] > 0 && Look(m[c := h], r[i]) == At(r, i + 1)
    {
      AtIs(r, i + 1);
      if i > 0 {
        ChainAt(m, h, l, i - 1);
        AtIs(l, i);
        assert l[i - 1] in l;
      }
    }
  }

  lemma ChainPop(m: Links, h: nat, l: seq<nat>)
    requires Chain(m, h, l) && l != [] && NoDup(l)
    ensures Chain(m[h := 0], Look(m, h), l[1..])
  {
    hide At;
    var r := l[1..];
    AtIs(l, 0);
    ChainAt(m, h, l, 0);
    AtIs(l, 1);
    AtIs(r, 0);
    forall i | 0 <= i < |r|
      ensures r[i] > 0 && Look(m[h := 0], r[i]) == At(r, i + 1)
    {
      ChainAt(m, h, l, i + 1);
      AtIs(l, i + 2);
      AtIs(r, i + 1);
      assert l[i + 1] != l[0];
    }
  }

  function CutAt(l: seq<nat>, k: nat): seq<nat>
    requires k < |l|
  {
    l[..k] + l[k + 1..]
  }

  lemma AtCut(l: seq<nat>, k: nat, i: nat)
    requires k < |l|
    ensures |CutAt(l, k)| == |l| - 1 && At(CutAt(l, k), i) == if i < k then At(l, i) else At(l, i + 1)
    ensures i + 1 < |l| ==> CutAt(l, k)[i] == l[if i < k then i else i + 1]
  {
  }

  /** Linking around entry k. */
  lemma ChainCut(m: Links, h: nat, l: seq<nat>, k: nat)
    requires Chain(m, h, l) && k < |l| && NoDup(l)
    ensures var r := CutAt(l, k);
      if k == 0 then Chain(m[l[k] := 0], Look(m, l[k]), r)
      else Chain(m[l[k - 1] := Look(m, l[k])][l[k] := 0], h, r)
  {
    var r := CutAt(l, k);
    if k == 0 {
      AtIs(l, 0);
      assert r == l[1..];
      ChainPop(m, h, l);
    } else {
      hide At, CutAt, NoDup;
      var m2 := m[l[k - 1] := Look(m, l[k])][l[k] := 0];
      AtCut(l, k, 0);
      ChainAt(m, h, l, k);
      forall i | 0 <= i < |r|
        ensures r[i] > 0 && Look(m2, r[i]) == At(r, i + 1)
      {
        var j := if i < k then i else i + 1;
        AtCut(l, k, i);
        AtCut(l, k, i + 1);
        ChainAt(m, h, l, j);
        DistinctAt(l, j, k);
        if j != k - 1 {
          DistinctAt(l, j, k - 1);
        }
      }
    }
  }

  lemma AtInsert(l: seq<nat>, k: nat, c: nat, i: nat)
    requires k <= |l|
    ensures At(InsertAt(l, k, c), i) == if i < k then At(l, i) else if i == k then c else At(l, i - 1)
  {
  }

  /** After a link to c before entry k > 0, entry i of the longer list leads to the next one. */
  lemma InsertLink(m: Links, h: nat, l: seq<nat>, k: nat, c: nat, i: nat)
    requires Chain(m, h, l) && 0 < k <= |l| && NoDup(l) && c !in l && c > 0 && i <= |l|
    ensures var r, m2 := InsertAt(l, k, c), m[c := At(l, k)][l[k - 1] := c];
      |r| == |l| + 1 && r[i] > 0 && Look(m2, r[i]) == At(r, i + 1)
  {
    InsertLength(l, k, c);
    AtInsert(l, k, c, i + 1);
    InsertedAt(l, k, c, i);
    hide At, InsertAt, NoDup;
    assert l[k - 1] in l;
    if i != k {
      var j := if i < k then i else i - 1;
      ChainAt(m, h, l, j);
      assert l[j] in l;
      if l[j] == l[k - 1] {
        DupAt(l, j, k - 1);
      }
    }
  }

  /** A new link before entry k. */
  lemma ChainInsert(m: Links, h: nat, l: seq<nat>, k: nat, c: nat)
    requires Chain(m, h, l) && k <= |l| && NoDup(l) && c !in l && c > 0
    ensures var r := InsertAt(l, k, c);
      var m1 := m[c := At(l, k)];
      if k == 0 then Chain(m1, c, r) else Chain(m1[l[k - 1] := c], h, r)
  {
    var r := InsertAt(l, k, c);
    if k == 0 {
      ChainPushFront(m, h, l, c);
      assert r == [c] + l;
    } else {
      InsertLength(l, k, c);
      AtInsert(l, k, c, 0);
      hide InsertAt, NoDup, Look;
      forall i | 0 <= i < |r|
        ensures r[i] > 0 && Look(m[c := At(l, k)][l[k - 1] := c], r[i]) == At(r, i + 1)
      {
        InsertLink(m, h, l, k, c, i);
      }
    }
  }

  lemma DistinctAt(l: seq<nat>, i: nat, j: nat)
    requires NoDup(l) && i < |l| && j < |l| && i != j
    ensures l[i] != l[j]
  {
  }

  lemma DupAt(l: seq<nat>, i: nat, j: nat)
    requires NoDup(l) && i < |l| && j < |l| && l[i] == l[j]
    ensures i == j
  {
  }

  // ----- all the queues at once

  type Ends = map<QName, nat>

  function EndOf(e: Ends, n: QName): nat { if n in e then e[n] else 0 }

  function Last(l: seq<nat>): nat { if l == [] then 0 else l[|l| - 1] }

  /** The heads, tails and links spell every queue. */
  ghost predicate Threaded(next: Links, head: Ends, tail: Ends, s: Core) {
    && (forall n :: Chain(next, EndOf(head, n), Q(s, n)))
    && (forall n | HasTail(n) :: EndOf(tail, n) == Last(Q(s, n)))
  }

  /** No entry is on two queues, or on one twice. */
  ghost predicate Apart(s: Core) {
    && (forall n :: NoDup(Q(s, n)))
    && (forall n, m, x | x in Q(s, n) && x in Q(s, m) :: n == m)
  }

  ghost predicate Nowhere(s: Core, c: nat) { c > 0 && forall n :: c !in Q(s, n) }

  lemma ListedApart(s: Core)
    requires Listed(s)
    ensures Apart(s)
  {
    hide NoDup;
  }

  /** Links changed only at c, which no queue holds, or at entries of queue n: the other queues stand. */
  lemma OthersThreaded(next: Links, next': Links, head: Ends, head': Ends, tail: Ends, tail': Ends, s: Core, n: QName, l: seq<nat>, c: nat)
    requires Threaded(next, head, tail, s) && Apart(s)
    requires forall x | x != c && x !in Q(s, n) :: Look(next', x) == Look(next, x)
    requires forall m | m != n :: c !in Q(s, m)
    requires forall m | m != n :: EndOf(head', m) == EndOf(head, m) && EndOf(tail', m) == EndOf(tail, m)
    requires Chain(next', EndOf(head', n), l) && (HasTail(n) ==> EndOf(tail', n) == Last(l))
    ensures Threaded(next', head', tail', SetQ(s, n, l))
  {
    hide NoDup, At, Last, Look, EndOf;
    SetQAt(s, n, l);
    forall m
      ensures Chain(next', EndOf(head', m), Q(SetQ(s, n, l), m))
    {
      if m != n {
        assert Chain(next, EndOf(head, m), Q(s, m));
        ChainSame(next, next', EndOf(head, m), Q(s, m)) by {
          forall x | x in Q(s, m)
            ensures Look(next', x) == Look(next, x)
          {
          }
        }
      }
    }
  }

  lemma ChainSame(m: Links, m': Links, h: nat, l: seq<nat>)
    requires Chain(m, h, l) && forall x | x in l :: Look(m', x) == Look(m, x)
    ensures Chain(m', h, l)
  {
    hide At;
  }

  lemma ThreadPush(next: Links, head: Ends, tail: Ends, s: Core, n: QName, c: nat)
    requires Threaded(next, head, tail, s) && Apart(s) && Nowhere(s, c) && HasTail(n)
    ensures var l, t := Q(s, n), EndOf(tail, n);
      && (t == 0 <==> l == [])
      && (if t == 0 then Threaded(next[c := 0], head[n := c], tail[n := c], SetQ(s, n, l + [c]))
          else Threaded(next[c := 0][t := c], head, tail[n := c], SetQ(s, n, l + [c])))
  {
    hide At, NoDup;
    var l := Q(s, n);
    ChainPush(next, EndOf(head, n), l, c);
    if l != [] {
      ChainAt(next, EndOf(head, n), l, |l| - 1);
      OthersThreaded(next, next[c := 0][l[|l| - 1] := c], head, head, tail, tail[n := c], s, n, l + [c], c);
    } else {
      assert l + [c] == [c];
      OthersThreaded(next, next[c := 0], head, head[n := c], tail, tail[n := c], s, n, l + [c], c);
    }
  }

  lemma ThreadPushFront(next: Links, head: Ends, tail: Ends, s: Core, n: QName, c: nat)
    requires Threaded(next, head, tail, s) && Apart(s) && Nowhere(s, c)
    ensures var l, h := Q(s, n), EndOf(head, n);
      && (HasTail(n) ==> (EndOf(tail, n) == 0 <==> l == []))
      && Threaded(next[c := h], head[n := c], if EndOf(tail, n) == 0 then tail[n := c] else tail, SetQ(s, n, [c] + l))
  {
    hide At, NoDup;
    var l, h := Q(s, n), EndOf(head, n);
    ChainPushFront(next, h, l, c);
    if l != [] {
      ChainAt(next, h, l, |l| - 1);
    }
    OthersThreaded(next, next[c := h], head, head[n := c], tail, if EndOf(tail, n) == 0 then tail[n := c] else tail, s, n, [c] + l, c);
  }

  lemma LastCut(l: seq<nat>, k: nat)
    requires NoDup(l) && k < |l|
    ensures Last(CutAt(l, k)) == if Last(l) == l[k] then (if k == 0 then 0 else l[k - 1]) else Last(l)
  {
    if Last(l) == l[k] {
      DupAt(l, k, |l| - 1);
    }
  }

  /** Taking out entry k; prev is the entry before it, or 0. */
  lemma ThreadCut(next: Links, head: Ends, tail: Ends, s: Core, n: QName, k: nat)
    requires Threaded(next, head, tail, s) && Apart(s) && k < |Q(s, n)|
    ensures var l := Q(s, n);
      var c, prev := l[k], if k == 0 then 0 else l[k - 1];
      var tail' := if EndOf(tail, n) == c then tail[n := prev] else tail;
      && c > 0 && (prev > 0 <==> k > 0)
      && (if k == 0 then Threaded(next[c := 0], head[n := Look(next, c)], tail', SetQ(s, n, l[..k] + l[k + 1..]))
          else Threaded(next[prev := Look(next, c)][c := 0], head, tail', SetQ(s, n, l[..k] + l[k + 1..])))
  {
    hide At, NoDup, Last;
    var l := Q(s, n);
    var c, prev, r := l[k], if k == 0 then 0 else l[k - 1], CutAt(l, k);
    var tail' := if EndOf(tail, n) == c then tail[n := prev] else tail;
    ChainAt(next, EndOf(head, n), l, k);
    if k > 0 {
      ChainAt(next, EndOf(head, n), l, k - 1);
    }
    ChainCut(next, EndOf(head, n), l, k);
    LastCut(l, k);
    CutOthers(s, n, c);
    if k == 0 {
      OthersThreaded(next, next[c := 0], head, head[n := Look(next, c)], tail, tail', s, n, r, c);
    } else {
      OthersThreaded(next, next[prev := Look(next, c)][c := 0], head, head, tail, tail', s, n, r, c);
    }
  }

  lemma CutOthers(s: Core, n: QName, c: nat)
    requires Apart(s) && c in Q(s, n)
    ensures forall m | m != n :: c !in Q(s, m)
  {
    hide NoDup;
  }

  lemma QueueAt(next: Links, head: Ends, tail: Ends, s: Core, n: QName, i: nat)
    requires Threaded(next, head, tail, s)
    ensures i == 0 && Q(s, n) != [] ==> EndOf(head, n) == Q(s, n)[0] > 0
    ensures Q(s, n) == [] ==> EndOf(head, n) == 0
    ensures i < |Q(s, n)| ==> Q(s, n)[i] > 0 && Look(next, Q(s, n)[i]) == if i + 1 < |Q(s, n)| then Q(s, n)[i + 1] else 0
  {
    assert Chain(next, EndOf(head, n), Q(s, n));
  }

  lemma CutKeepsApart(s: Core, n: QName, k: nat)
    requires Apart(s) && k < |Q(s, n)|
    ensures var l := Q(s, n);
      var t := SetQ(s, n, l[..k] + l[k + 1..]);
      Apart(t) && forall m :: l[k] !in Q(t, m)
  {
    hide NoDup;
    var l := Q(s, n);
    WithoutOne(l, k);
    SetQAt(s, n, l[..k] + l[k + 1..]);
    assert l[k] in Q(s, n);
  }

  lemma PutKeepsApart(s: Core, n: QName, c: nat, front: bool)
    requires Apart(s) && Nowhere(s, c)
    ensures Apart(SetQ(s, n, if front then [c] + Q(s, n) else Q(s, n) + [c]))
  {
    hide NoDup;
    NoDupPush(Q(s, n), c);
    SetQAt(s, n, if front then [c] + Q(s, n) else Q(s, n) + [c]);
  }

  // ----- the scheduler's globals

  class Sched {
    var next: Links
    var head: Ends
    var tail: Ends
    var tnext: Links
    var timers: nat
    var co: map<nat, Coro>
    var cur: nat
    ghost var core: Core

    constructor ()
      ensures Linked() && core == Core(map[], [], map[], 0)
    {
      next, head, tail, tnext, timers, co, cur := map[], map[], map[], map[], 0, map[], 0;
      core := Core(map[], [], map[], 0);
    }

    /** The fields spell the scheduler's lists. */
    ghost predicate Linked()
      reads this
    {
      && Threaded(next, head, tail, core) && Chain(tnext, timers, core.tq)
      && core.co == co && core.cur == cur
    }

    /** nb_rq_push, nb_wq_push */
    method Push(n: QName, c: nat)
      requires Linked() && Apart(core) && Nowhere(core, c) && HasTail(n)
      modifies this
      ensures Linked() && core == SetQ(old(core), n, Q(old(core), n) + [c])
      ensures co == old(co) && cur == old(cur) && Apart(core)
      ensures forall x | x != c && x !in Q(old(core), n) :: Look(next, x) == Look(old(next), x)
    {
      hide Threaded, Chain, Apart, Nowhere, Q;
      TailIn(next, head, tail, core, n);
      ThreadPush(next, head, tail, core, n, c);
      PutKeepsApart(core, n, c, false);
      next := next[c := 0];
      var t := EndOf(tail, n);
      if t != 0 {
        next := next[t := c];
      } else {
        head := head[n := c];
      }
      tail := tail[n := c];
      core := SetQ(core, n, Q(core, n) + [c]);
    }

    /** nb_rq_push_front; a joiner or drain list is pushed the same way, with no tail to keep. */
    method PushFront(n: QName, c: nat)
      requires Linked() && Apart(core) && Nowhere(core, c)
      modifies this
      ensures Linked() && core == SetQ(old(core), n, [c] + Q(old(core), n))
      ensures co == old(co) && cur == old(cur) && Apart(core)
      ensures forall x | x != c :: Look(next, x) == Look(old(next), x)
    {
      hide Threaded, Chain, Apart, Nowhere, Q;
      ThreadPushFront(next, head, tail, core, n, c);
      PutKeepsApart(core, n, c, true);
      next := next[c := EndOf(head, n)];
      head := head[n := c];
      if EndOf(tail, n) == 0 {
        tail := tail[n := c];
      }
      core := SetQ(core, n, [c] + Q(core, n));
    }

    /** nb_wq_pop, and nb_rq_pop in the build that takes the head. */
    method Pop(n: QName) returns (c: nat)
      requires Linked() && Apart(core)
      modifies this
      ensures Linked() && Apart(core) && co == old(co) && cur == old(cur)
      ensures Q(old(core), n) == [] ==> c == 0 && core == old(core)
      ensures Q(old(core), n) != [] ==> c == Q(old(core), n)[0] && core == SetQ(old(core), n, Q(old(core), n)[1..]) && Nowhere(core, c)
    {
      hide Threaded, Chain, Apart, Q;
      QueueAt(next, head, tail, core, n, 0);
      c := EndOf(head, n);
      if c == 0 {
        return;
      }
      ghost var l := Q(core, n);
      QueueAt(next, head, tail, core, n, 1);
      ThreadCut(next, head, tail, core, n, 0);
      CutKeepsApart(core, n, 0);
      assert l[..0] + l[0 + 1..] == l[1..];
      head := head[n := Look(next, c)];
      if EndOf(head, n) == 0 {
        tail := tail[n := 0];
      }
      next := next[c := 0];
      core := SetQ(core, n, l[1..]);
      TailAfter(next, head, tail, old(tail), core, n, c);
    }

    /** The head of a queue, or 0. */
    method First(n: QName) returns (c: nat)
      requires Linked()
      ensures c == if Q(core, n) == [] then 0 else Q(core, n)[0]
      ensures Q(core, n) != [] ==> c > 0
    {
      hide Threaded, Chain, Q;
      QueueAt(next, head, tail, core, n, 0);
      c := EndOf(head, n);
    }

    /** Walk to entry pick of the run queue. */
    method Seek(pick: nat) returns (prev: nat, c: nat)
      requires Linked() && (Q(core, RunQ) != [] ==> pick < |Q(core, RunQ)|)
      ensures Q(core, RunQ) == [] ==> c == 0
      ensures Q(core, RunQ) != [] ==>
        c == Q(core, RunQ)[pick] > 0 && prev == if pick == 0 then 0 else Q(core, RunQ)[pick - 1]
    {
      hide Threaded, Chain, Q;
      QueueAt(next, head, tail, core, RunQ, 0);
      prev, c := 0, EndOf(head, RunQ);
      if c == 0 {
        return;
      }
      ghost var l := Q(core, RunQ);
      var k := 0;
      while k < pick
        invariant 0 <= k <= pick && c == l[k] > 0 && prev == if k == 0 then 0 else l[k - 1]
      {
        QueueAt(next, head, tail, core, RunQ, k);
        QueueAt(next, head, tail, core, RunQ, k + 1);
        prev, c := c, Look(next, c);
        k := k + 1;
      }
    }

    /** nb_rq_pop in a simulation: the entry the seed's stream picks, whichever it is. */
    method PopAt(pick: nat) returns (c: nat)
      requires Linked() && Apart(core) && (Q(core, RunQ) != [] ==> pick < |Q(core, RunQ)|)
      modifies this
      ensures Linked() && Apart(core) && co == old(co) && cur == old(cur)
      ensures Q(old(core), RunQ) == [] ==> c == 0 && core == old(core)
      ensures Q(old(core), RunQ) != [] ==> c == Q(old(core), RunQ)[pick] > 0 && Nowhere(core, c)
      ensures Q(old(core), RunQ) != [] ==>
        core == SetQ(old(core), RunQ, Q(old(core), RunQ)[..pick] + Q(old(core), RunQ)[pick + 1..])
    {
      hide Threaded, Chain, Apart, Q;
      ghost var l := Q(core, RunQ);
      var prev;
      prev, c := Seek(pick);
      if c == 0 {
        return;
      }
      ThreadCut(next, head, tail, core, RunQ, pick);
      CutKeepsApart(core, RunQ, pick);
      if prev != 0 {
        next := next[prev := Look(next, c)];
      } else {
        head := head[RunQ := Look(next, c)];
      }
      if EndOf(tail, RunQ) == c {
        tail := tail[RunQ := prev];
      }
      next := next[c := 0];
      core := SetQ(core, RunQ, l[..pick] + l[pick + 1..]);
    }

    // ----- the timer list

    /** *pp: the list head, or the tnext of the entry pp stands for. */
    function Deref(pp: nat): nat
      reads this
    {
      if pp == 0 then timers else Look(tnext, pp)
    }

    function WakeAt(c: nat): int
      reads this
    {
      if c in co then co[c].wakeAt else 0
    }

    /** nb_timer_add: after every entry due no later. */
    method TimerAdd(c: nat, at: int)
      requires Linked() && NoDup(core.tq) && Sorted(core.tq, core.co) && c in co && c !in core.tq && c > 0
      modifies this
      ensures Linked() && core == SchedCore.TimerAdd(old(core), c, at)
    {
      hide Threaded, Chain, InsertAt;
      ghost var l, k, h := core.tq, TimerPlace(core.tq, core.co, at), timers;
      ghost var was := co;
      co := co[c := co[c].(wakeAt := at)];
      core := core.(co := co);
      ThreadedCo(next, head, tail, old(core), core);
      var pp := FindTimer(at, l, was, c);
      ChainInsert(tnext, timers, l, k, c);
      InsertIs(l, k, c);
      tnext := tnext[c := Deref(pp)];
      if pp == 0 {
        timers := c;
      } else {
        tnext := tnext[pp := c];
      }
      core := core.(tq := l[..k] + [c] + l[k..]);
      ThreadedTq(next, head, tail, old(core).(co := co), core);
    }

    /** The entry after which a deadline belongs, or 0 for the front. */
    method FindTimer(at: int, ghost l: seq<nat>, ghost was: map<nat, Coro>, ghost c: nat) returns (pp: nat)
      requires Chain(tnext, timers, l) && Sorted(l, was) && c !in l
      requires forall x | x in was && x != c :: x in co && co[x].wakeAt == was[x].wakeAt
      ensures var k := TimerPlace(l, was, at);
        pp == (if k == 0 then 0 else l[k - 1]) && Deref(pp) == At(l, k) && (k > 0 ==> pp > 0)
    {
      hide Chain, At;
      pp := 0;
      ghost var k, end := 0, TimerPlace(l, was, at);
      ChainHead(tnext, timers, l);
      AtIs(l, 0);
      while Deref(pp) != 0 && WakeAt(Deref(pp)) <= at
        invariant 0 <= k <= end && pp == (if k == 0 then 0 else l[k - 1]) && Deref(pp) == At(l, k) && (k > 0 ==> pp > 0)
        decreases |l| - k
      {
        AtIs(l, k);
        assert l[k] in l;
        PlaceStops(l, was, at, k);
        ChainAt(tnext, timers, l, k);
        pp := Deref(pp);
        k := k + 1;
      }
      AtIs(l, k);
      if k < |l| {
        ChainAt(tnext, timers, l, k);
        assert l[k] in l;
        PlaceGoes(l, was, at, k);
      }
    }

    /** nb_timer_remove: nothing happens when the coroutine is not on the list. */
    method TimerRemove(c: nat)
      requires Linked() && NoDup(core.tq)
      modifies this
      ensures Linked() && core == old(core).(tq := Remove(old(core).tq, c))
    {
      hide Threaded, Chain, At;
      ghost var l := core.tq;
      var pp, found := FindEntry(c, l);
      if found {
        ghost var k := IndexOf(l, c);
        ChainCut(tnext, timers, l, k);
        assert CutAt(l, k) == l[..k] + l[k + 1..];
        RemoveIs(l, c);
        if pp == 0 {
          timers := Look(tnext, c);
        } else {
          tnext := tnext[pp := Look(tnext, c)];
        }
        tnext := tnext[c := 0];
        core := core.(tq := l[..k] + l[k + 1..]);
        ThreadedTq(next, head, tail, old(core), core);
      } else {
        RemoveNone(l, c);
      }
    }

    method FindEntry(c: nat, ghost l: seq<nat>) returns (pp: nat, found: bool)
      requires Chain(tnext, timers, l) && NoDup(l)
      ensures found <==> c in l
      ensures found ==> var k := IndexOf(l, c); k < |l| && pp == if k == 0 then 0 else l[k - 1]
      ensures found ==> (pp > 0 <==> IndexOf(l, c) > 0)
    {
      hide Chain, At;
      pp, found := 0, false;
      ghost var k := 0;
      ChainHead(tnext, timers, l);
      AtIs(l, 0);
      while Deref(pp) != 0
        invariant 0 <= k <= |l| && c !in l[..k]
        invariant pp == (if k == 0 then 0 else l[k - 1]) && Deref(pp) == At(l, k) && (k > 0 ==> pp > 0)
        decreases |l| - k
      {
        AtIs(l, k);
        if Deref(pp) == c {
          found := true;
          IndexIs(l, k);
          return;
        }
        ChainAt(tnext, timers, l, k);
        pp := Deref(pp);
        k := k + 1;
      }
      AtIs(l, k);
      if k < |l| {
        ChainAt(tnext, timers, l, k);
      }
    }

    // ----- waking

    /** A coroutine on no queue becomes runnable, at the tail of the run queue or at its head. */
    method MakeReady(c: nat, front: bool)
      requires Linked() && Apart(core) && Nowhere(core, c) && c in co
      modifies this
      ensures Linked() && Apart(core) && core == Ready(old(core), c, front)
      ensures forall x | x != c && x !in Q(old(core), RunQ) :: Look(next, x) == Look(old(next), x)
    {
      hide Threaded, Chain, Apart, Q;
      co := co[c := co[c].(st := Runnable)];
      core := SetCo(core, c, Runnable);
      ThreadedCo(next, head, tail, old(core), core);
      SameQueues(old(core), core, c);
      if front {
        PushFront(RunQ, c);
      } else {
        Push(RunQ, c);
      }
    }

    /** A waiter popped from a queue becomes runnable; main's node has no place to go to. */
    method WakeOne(n: QName) returns (w: nat)
      requires Linked() && Apart(core) && n != RunQ && (forall x | x in Q(core, n) :: x == MAIN || x in co)
      modifies this
      ensures Linked() && Apart(core)
      ensures Q(old(core), n) == [] ==> w == 0 && core == old(core)
      ensures Q(old(core), n) != [] ==> w == Q(old(core), n)[0] > 0 && core == WakeHead(old(core), n)
    {
      hide Threaded, Chain, Apart, Q;
      assert Q(core, n) != [] ==> Q(core, n)[0] in Q(core, n);
      w := Pop(n);
      if w != 0 && w != MAIN {
        MakeReady(w, false);
      }
      assert Q(old(core), n) != [] ==> w > 0;
    }

    /** pthread_cond_broadcast's loop, which pops until the queue is empty. */
    method WakeEvery(n: QName)
      requires Linked() && Apart(core) && n != RunQ && (forall x | x in Q(core, n) :: x == MAIN || x in co)
      modifies this
      ensures Linked() && Apart(core) && core == WakeAll(old(core), n)
    {
      hide Threaded, Chain, Apart, Q;
      var w := 1;
      while w != 0
        invariant Linked() && Apart(core) && WakeAll(core, n) == WakeAll(old(core), n)
        invariant forall x | x in Q(core, n) :: x == MAIN || x in co
        invariant w == 0 ==> Q(core, n) == []
        decreases |Q(core, n)|, w
      {
        ghost var before := core;
        w := WakeOne(n);
        if w != 0 {
          WakeHeadQueue(before, n);
          w := 1;
        }
      }
    }

    /** nb_wake_joiners and nb_fiber_ended: the whole list is taken first, then walked. */
    method WakeList(n: QName)
      requires Linked() && Apart(core) && (n.JoinQ? || n.Drain?) && (forall x | x in Q(core, n) :: x in co && x > MAIN)
      modifies this
      ensures Linked() && Apart(core) && core == WakeAll(old(core), n)
    {
      hide Threaded, Chain, Apart, Q;
      ghost var rest, g := Q(core, n), core;
      var j := EndOf(head, n);
      ChainOf(next, head, tail, core, n);
      QueueAt(next, head, tail, core, n, 0);
      if j == 0 {
        NoneToWake(core, n);
        return;
      }
      InQueueMap(core, n);
      ListOnly(core, n);
      head := head[n := 0];
      core := SetQ(core, n, []);
      Emptied(next, old(head), head, tail, old(core), n);
      while j != 0
        invariant Linked() && Apart(core) && Chain(next, j, rest) && NoDup(rest)
        invariant Q(g, n) == rest && n in g.q && core == SetQ(g, n, []) && WakeAll(g, n) == WakeAll(old(core), n)
        invariant forall x | x in rest :: x in co && x > MAIN && Nowhere(core, x)
        decreases |rest|
      {
        RestHead(next, j, rest);
        var after := Look(next, j);
        ghost var was := next;
        next := next[j := 0];
        UnlinkRest(was, head, tail, core, j);
        ChainPop(was, j, rest);
        WakeInto(g, n);
        RestKept(core, j, rest);
        ghost var next1 := next;
        MakeReady(j, false);
        ChainSame(next1, next, after, rest[1..]);
        g := WakeHead(g, n);
        rest := rest[1..];
        j := after;
      }
      NothingLeft(next, j, rest);
      NoneToWake(g, n);
      EmptySet(g, n);
    }

    /** nb_timers_expire: how many entries were due. */
    method TimersExpire(now: int) returns (n: nat)
      requires Linked() && Lists(core)
      modifies this
      ensures Linked() && core == Expire(old(core), now) && Lists(core) && cur == old(cur)
      ensures n > 0 <==> Due(old(core), now)
    {
      hide Threaded, Chain, Lists, Apart, Remove, Nowhere, Q;
      n := 0;
      TimerFacts(tnext, timers, core);
      while timers != 0 && WakeAt(timers) <= now
        invariant Linked() && Lists(core) && Expire(core, now) == Expire(old(core), now) && cur == old(cur)
        invariant timers == At(core.tq, 0) && (core.tq != [] ==> timers > 0 && timers in co)
        invariant if n > 0 then Due(old(core), now) else core == old(core)
        decreases |core.tq|
      {
        ghost var before := core;
        var c := timers;
        TimerHead(core);
        UntimeLists(core, c, 0);
        PopTimer(tnext, timers, core);
        timers := Look(tnext, c);
        tnext := tnext[c := 0];
        co := co[c := co[c].(last := 0)];
        core := SetLast(core.(tq := core.tq[1..]), c, 0);
        ThreadedTq(next, head, tail, before, core);
        LooseNowhere(core, c);
        ReadyLists(core, c, false);
        MakeReady(c, false);
        TimerFacts(tnext, timers, core);
        n := n + 1;
      }
    }

    /** nb_unpark */
    method Unpark(c: nat, front: bool)
      requires Linked() && Lists(core) && (Is(core, c, Parked) ==> forall n :: c !in Q(core, n))
      modifies this
      ensures Linked() && core == SchedCore.Unpark(old(core), c, front)
    {
      hide Threaded, Chain, Lists, Apart, Remove, Nowhere;
      if c !in co {
        return;
      }
      if co[c].st != Parked {
        co := co[c := co[c].(permit := true)];
        core := SchedCore.Unpark(core, c, front);
        ThreadedCo(next, head, tail, old(core), core);
        return;
      }
      UntimeLists(core, c, 1);
      ListsNoDup(core);
      TimerRemove(c);
      ghost var t := core;
      co := co[c := co[c].(last := 1)];
      core := SetLast(core, c, 1);
      ThreadedCo(next, head, tail, t, core);
      LooseNowhere(core, c);
      MakeReady(c, front);
    }

    /** The running coroutine goes on a queue and is switched out: nb_wq_push, or a push at the head, and nb_park. */
    method ParkOn(n: QName)
      requires Linked() && Part(core) && cur > 0 && n != RunQ
      modifies this
      ensures Linked() && core == SchedCore.ParkOn(old(core), n, !HasTail(n))
    {
      hide Threaded, Chain, Lists, Apart, Nowhere, Q;
      RunningLoose(core);
      LooseNowhere(core, cur);
      if HasTail(n) {
        Push(n, cur);
      } else {
        PushFront(n, cur);
      }
      ghost var t := core;
      co := co[cur := co[cur].(st := Parked)];
      cur := 0;
      core := SetCo(core, core.cur, Parked).(cur := 0);
      ThreadedCo(next, head, tail, t, core);
    }

    /** The runner consumes a banked permit. */
    method SpendPermit()
      requires Linked() && cur in co
      modifies this
      ensures Linked() && core == TakePermit(old(core))
    {
      hide Threaded, Chain;
      co := co[cur := co[cur].(permit := false)];
      core := TakePermit(core);
      ThreadedCo(next, head, tail, old(core), core);
    }

    method SetLastResult(c: nat, last: int)
      requires Linked() && c in co
      modifies this
      ensures Linked() && core == SetLast(old(core), c, last)
    {
      hide Threaded, Chain;
      co := co[c := co[c].(last := last)];
      core := SetLast(core, c, last);
      ThreadedCo(next, head, tail, old(core), core);
    }

    /** A new coroutine, at the tail of the run queue. */
    method Spawn(c: nat)
      requires Linked() && Apart(core) && Nowhere(core, c) && c !in core.tq
      modifies this
      ensures Linked() && core == SchedCore.Spawn(old(core), c)
    {
      hide Threaded, Chain, Apart, Nowhere, Q;
      ghost var s := core;
      co := co[c := Coro(Runnable, 0, 0, false)];
      core := core.(co := co);
      ThreadedCo(next, head, tail, s, core);
      SameQueues(s, core, c);
      Push(RunQ, c);
    }

    /** The running coroutine's body has returned. */
    method End()
      requires Linked() && Apart(core) && cur in co
      modifies this
      ensures Linked() && Apart(core) && core == SchedCore.End(old(core))
    {
      hide Threaded, Chain, Apart, Q;
      ghost var s := core;
      co := co[cur := co[cur].(st := Ended)];
      cur := 0;
      core := SchedCore.End(s);
      ThreadedCo(next, head, tail, s, core);
      SameQueues(s, core, s.cur);
    }

    /** nb_coro_free */
    method Reap(c: nat)
      requires Linked()
      modifies this
      ensures Linked() && core == SchedCore.Reap(old(core), c)
    {
      hide Threaded, Chain, Q;
      co := co - {c};
      core := SchedCore.Reap(core, c);
      ThreadedCo(next, head, tail, old(core), core);
    }

    /** The running coroutine parks on no queue, with a timer when there is a deadline. */
    method ParkTimer(at: Option<int>)
      requires Linked() && Part(core) && cur > 0
      modifies this
      ensures Linked() && core == if at.Some? then ParkTimed(old(core), at.value) else ParkBare(old(core))
    {
      hide Threaded, Chain, NoDup, TimerPlace;
      RunningLoose(core);
      if at.Some? {
        TimerAdd(cur, at.value);
      }
      ghost var t := core;
      co := co[cur := co[cur].(st := Parked)];
      cur := 0;
      core := ParkBare(core);
      ThreadedCo(next, head, tail, t, core);
    }

    /** nb_step_bounded up to the switch: ran is the coroutine switched to, or 0, and wait how long the machine slept. */
    method StepBounded(budget: int, first: int, read: int, slept: int, pick: nat) returns (progress: bool, ran: nat, wait: int)
      requires Linked() && Part(core) && cur == 0 && (Q(core, RunQ) != [] ==> pick < |Q(core, RunQ)|)
      requires first <= read && Slept(core, read, slept, budget)
      modifies this
      ensures Linked() && Part(core) && ran == cur
      ensures (core, progress) == Scheduled(old(core), first, LastReading(old(core), read, slept), pick)
      ensures wait == if Idles(old(core), first, read) then SleepFor(old(core), read, budget) else 0
      ensures budget < 0 ==> (progress <==> !Stuck(old(core)))
    {
      hide Threaded, Chain, Lists, Apart, Nowhere, Runs, Expire;
      ran, wait := 0, 0;
      ListsNoDup(core);
      TimerFacts(tnext, timers, core);
      ScheduledPart(core, first, if timers != 0 && WakeAt(timers) > read then slept else read, pick);
      if timers != 0 && WakeAt(timers) <= first {
        var n := TimersExpire(first);
        return n > 0, 0, 0;
      }
      var c := PopAt(pick);
      if c == 0 {
        TimerFacts(tnext, timers, core);
        NothingDue(core, read);
        if timers == 0 {
          return false, 0, 0;
        }
        var now := read;
        if WakeAt(timers) > read {
          wait := WakeAt(timers) - read;
          if budget >= 0 && wait > budget {
            wait := budget;
          }
          now := slept;
        }
        var n := TimersExpire(now);
        return n > 0, 0, wait;
      }
      ghost var t := core;
      PickIn(old(core), pick);
      co := co[c := co[c].(st := Running)];
      cur := c;
      core := SetCo(core, c, Running).(cur := c);
      ThreadedCo(next, head, tail, t, core);
      return true, c, 0;
    }
  }

  /** Emptying a queue by its head, the tail pointer is cleared when nothing is left. */
  lemma TailAfter(next: Links, head: Ends, tail: Ends, was: Ends, s: Core, n: QName, c: nat)
    requires Threaded(next, head, if EndOf(was, n) == c then was[n := 0] else was, s) && c > 0
    requires tail == if EndOf(head, n) == 0 then was[n := 0] else was
    ensures Threaded(next, head, tail, s)
  {
    hide At;
    var tail', l := if EndOf(was, n) == c then was[n := 0] else was, Q(s, n);
    QueueAt(next, head, tail', s, n, 0);
    if l != [] {
      QueueAt(next, head, tail', s, n, |l| - 1);
    }
    forall m | HasTail(m)
      ensures EndOf(tail, m) == Last(Q(s, m))
    {
      assert EndOf(tail', m) == Last(Q(s, m));
    }
  }

  lemma ChainHead(m: Links, h: nat, l: seq<nat>)
    requires Chain(m, h, l)
    ensures h == At(l, 0)
  {
    hide At;
  }

  lemma ThreadedCo(next: Links, head: Ends, tail: Ends, s: Core, t: Core)
    requires Threaded(next, head, tail, s) && t.q == s.q
    ensures Threaded(next, head, tail, t)
  {
    hide Chain, Last;
    assert forall n :: Q(t, n) == Q(s, n);
  }

  lemma ThreadedTq(next: Links, head: Ends, tail: Ends, s: Core, t: Core)
    requires Threaded(next, head, tail, s) && t.q == s.q
    ensures Threaded(next, head, tail, t)
  {
    ThreadedCo(next, head, tail, s, t);
  }

  /** Entries before the place are due no later, and the one at it is due later. */
  lemma PlaceStops(l: seq<nat>, co: map<nat, Coro>, at: int, k: nat)
    requires Sorted(l, co) && k < |l| && l[k] in co && co[l[k]].wakeAt <= at
    ensures k < TimerPlace(l, co, at)
  {
    var p := TimerPlace(l, co, at);
    assert p < |l| ==> l[p] in l;
  }

  lemma PlaceGoes(l: seq<nat>, co: map<nat, Coro>, at: int, k: nat)
    requires k < |l| && l[k] in co && co[l[k]].wakeAt > at
    ensures TimerPlace(l, co, at) <= k
  {
  }

  function IndexOf(l: seq<nat>, c: nat): (k: nat)
    ensures k <= |l|
    ensures k < |l| ==> l[k] == c
    ensures c in l ==> k < |l|
  {
    if l == [] || l[0] == c then 0 else 1 + IndexOf(l[1..], c)
  }

  lemma IndexIs(l: seq<nat>, k: nat)
    requires NoDup(l) && k < |l|
    ensures IndexOf(l, l[k]) == k && l[k] in l
  {
    DupAt(l, k, IndexOf(l, l[k]));
  }

  lemma RemoveIs(l: seq<nat>, c: nat)
    requires c in l
    ensures Remove(l, c) == l[..IndexOf(l, c)] + l[IndexOf(l, c) + 1..]
  {
    if l[0] != c {
      RemoveIs(l[1..], c);
    }
  }

  lemma RemoveNone(l: seq<nat>, c: nat)
    requires c !in l
    ensures Remove(l, c) == l
  {
    if l != [] {
      RemoveNone(l[1..], c);
      assert l == [l[0]] + l[1..];
    }
  }

  lemma TailIn(next: Links, head: Ends, tail: Ends, s: Core, n: QName)
    requires Threaded(next, head, tail, s) && HasTail(n)
    ensures EndOf(tail, n) == 0 || EndOf(tail, n) in Q(s, n)
  {
  }

  lemma SameQueues(s: Core, t: Core, c: nat)
    requires t.q == s.q
    ensures Apart(s) ==> Apart(t)
    ensures Nowhere(s, c) ==> Nowhere(t, c)
    ensures forall n :: Q(t, n) == Q(s, n)
  {
    hide NoDup;
    assert forall n :: Q(t, n) == Q(s, n);
  }

  lemma WakeHeadQueue(s: Core, n: QName)
    requires n != RunQ && Q(s, n) != []
    ensures Q(WakeHead(s, n), n) == Q(s, n)[1..] && WakeAll(s, n) == WakeAll(WakeHead(s, n), n)
    ensures forall x | x in s.co :: x in WakeHead(s, n).co
    ensures forall x | x in Q(s, n)[1..] :: x in Q(s, n)
  {
  }

  lemma ChainOf(next: Links, head: Ends, tail: Ends, s: Core, n: QName)
    requires Threaded(next, head, tail, s)
    ensures Chain(next, EndOf(head, n), Q(s, n))
  {
    hide Chain;
  }

  lemma ListOnly(s: Core, n: QName)
    requires Apart(s) && forall x | x in Q(s, n) :: x > 0
    ensures NoDup(Q(s, n)) && Apart(SetQ(s, n, [])) && forall x | x in Q(s, n) :: Nowhere(SetQ(s, n, []), x)
  {
    hide NoDup;
    SetQAt(s, n, []);
    assert NoDup([]) by {
      EmptyNoDup();
    }
  }

  lemma EmptyNoDup()
    ensures NoDup([])
  {
  }

  lemma Emptied(next: Links, head: Ends, head': Ends, tail: Ends, s: Core, n: QName)
    requires Threaded(next, head, tail, s) && !HasTail(n) && head' == head[n := 0]
    ensures Threaded(next, head', tail, SetQ(s, n, [])) && WakeAll(s, n) == WakeAll(s, n)
  {
    SetQAt(s, n, []);
    forall m
      ensures Chain(next, EndOf(head', m), Q(SetQ(s, n, []), m))
    {
      assert Chain(next, EndOf(head, m), Q(s, m));
    }
  }

  lemma NoneToWake(s: Core, n: QName)
    requires Q(s, n) == []
    ensures WakeAll(s, n) == s
  {
  }

  lemma InQueueMap(s: Core, n: QName)
    requires Q(s, n) != []
    ensures n in s.q
  {
  }

  lemma EmptySet(s: Core, n: QName)
    requires Q(s, n) == [] && n in s.q
    ensures SetQ(s, n, []) == s
  {
    assert s.q[n := []] == s.q;
  }

  lemma NothingLeft(next: Links, j: nat, rest: seq<nat>)
    requires Chain(next, j, rest) && j == 0
    ensures rest == []
  {
  }

  lemma RestHead(next: Links, j: nat, rest: seq<nat>)
    requires Chain(next, j, rest) && j != 0
    ensures rest != [] && rest[0] == j
  {
  }

  /** A link cleared outside every queue. */
  lemma UnlinkRest(next: Links, head: Ends, tail: Ends, s: Core, j: nat)
    requires Threaded(next, head, tail, s) && Nowhere(s, j)
    ensures Threaded(next[j := 0], head, tail, s)
  {
    forall n
      ensures Chain(next[j := 0], EndOf(head, n), Q(s, n))
    {
      assert Chain(next, EndOf(head, n), Q(s, n));
      ChainKept(next, EndOf(head, n), Q(s, n), j, 0);
    }
  }

  /** Waking the first of a list already taken is waking the head of the list. */
  lemma WakeInto(g: Core, n: QName)
    requires (n.JoinQ? || n.Drain?) && Q(g, n) != [] && Q(g, n)[0] > MAIN
    ensures var w := Q(g, n)[0];
      && SetQ(WakeHead(g, n), n, []) == Ready(SetQ(g, n, []), w, false)
      && Q(WakeHead(g, n), n) == Q(g, n)[1..] && WakeAll(g, n) == WakeAll(WakeHead(g, n), n) && n in WakeHead(g, n).q
  {
    hide WakeAll;
    WakeHeadQueue(g, n);
    var w := Q(g, n)[0];
    var a, b := SetQ(WakeHead(g, n), n, []), Ready(SetQ(g, n, []), w, false);
    assert a.q == b.q;
  }

  lemma RestKept(s: Core, j: nat, rest: seq<nat>)
    requires NoDup(rest) && rest != [] && rest[0] == j && forall x | x in rest :: x in s.co && x > MAIN && Nowhere(s, x)
    ensures NoDup(rest[1..])
    ensures forall x | x in rest[1..] :: x != j && x in rest && x !in Q(s, RunQ) && Nowhere(Ready(s, j, false), x) && x in Ready(s, j, false).co
  {
    var r := rest[1..];
    assert forall i | 0 <= i < |r| :: r[i] == rest[i + 1];
    forall x | x in r
      ensures x != j && x in rest && x !in Q(s, RunQ) && Nowhere(Ready(s, j, false), x) && x in Ready(s, j, false).co
    {
      assert Nowhere(s, x);
      SetQAt(SetCo(s, j, Runnable), RunQ, Q(s, RunQ) + [j]);
      forall n
        ensures x !in Q(Ready(s, j, false), n)
      {
        assert x !in Q(s, n);
      }
    }
  }

  lemma TimerFacts(tnext: Links, timers: nat, s: Core)
    requires Chain(tnext, timers, s.tq) && Lists(s)
    ensures timers == At(s.tq, 0) && (s.tq != [] ==> timers > 0 && timers in s.co && timers == s.tq[0]) && (s.tq == [] ==> timers == 0)
    ensures Apart(s)
  {
    ListedApart(s);
    assert s.tq != [] ==> s.tq[0] in s.tq;
  }

  lemma NothingDue(s: Core, now: int)
    ensures s.tq == [] ==> Expire(s, now) == s
  {
  }

  lemma PopTimer(tnext: Links, timers: nat, s: Core)
    requires Chain(tnext, timers, s.tq) && Lists(s) && s.tq != []
    ensures Chain(tnext[timers := 0], Look(tnext, timers), s.tq[1..])
  {
    ChainPop(tnext, timers, s.tq);
  }

  lemma LooseNowhere(s: Core, c: nat)
    requires Loose(s, c) && Lists(s)
    ensures Nowhere(s, c) && Apart(s) && c in s.co
  {
    ListedApart(s);
  }

  lemma ListsNoDup(s: Core)
    requires Lists(s)
    ensures NoDup(s.tq) && Apart(s) && Sorted(s.tq, s.co)
  {
    ListedApart(s);
  }

  lemma PickIn(s: Core, pick: nat)
    requires Part(s) && pick < |Q(s, RunQ)|
    ensures Q(s, RunQ)[pick] in s.co
  {
    assert Q(s, RunQ)[pick] in Q(s, RunQ);
    assert Is(s, Q(s, RunQ)[pick], Runnable);
  }
}
