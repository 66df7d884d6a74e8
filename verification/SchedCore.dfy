/**
 unikernel/runtime_bare.c: which list each coroutine is on. A coroutine is on the run queue, on
 one wait queue, on the timer list, or on none, and its state says which.
 */
module SchedCore {

  // 0 is no coroutine, MAIN the main context's node in an rwlock's queue; coroutines are above it.
  const MAIN := 1

  datatype QName = RunQ | Drain | MutexQ(m: nat) | CondQ(c: nat) | RwQ(r: nat) | JoinQ(t: nat)

  datatype CState = Runnable | Running | Parked | Ended

  datatype Coro = Coro(st: CState, wakeAt: int, last: int, permit: bool)

  datatype Core = Core(q: map<QName, seq<nat>>, tq: seq<nat>, co: map<nat, Coro>, cur: nat)

  function Q(s: Core, n: QName): seq<nat> { if n in s.q then s.q[n] else [] }

  predicate Is(s: Core, c: nat, st: CState) { c in s.co && s.co[c].st == st }

  ghost predicate NoDup(l: seq<nat>) { forall i, j | 0 <= i < j < |l| :: l[i] != l[j] }

  /** Queued where its state says, and in one place only. */
  ghost predicate Listed(s: Core) {
    && (forall n :: NoDup(Q(s, n)))
    && (forall n, x | x in Q(s, n) :: (x == MAIN && n.RwQ?) || Is(s, x, if n == RunQ then Runnable else Parked))
    && (forall n, m, x | x in Q(s, n) && x in Q(s, m) :: n == m)
    && (forall c | Is(s, c, Runnable) :: c in Q(s, RunQ))
  }

  ghost predicate Sorted(tq: seq<nat>, co: map<nat, Coro>) {
    && (forall c | c in tq :: c in co)
    && (forall i, j | 0 <= i < j < |tq| :: co[tq[i]].wakeAt <= co[tq[j]].wakeAt)
  }

  /** The timer list holds parked coroutines that are on no other list, soonest first. */
  ghost predicate Timed(s: Core) {
    && NoDup(s.tq) && Sorted(s.tq, s.co)
    && (forall c | c in s.tq :: Is(s, c, Parked) && forall n :: c !in Q(s, n))
  }

  ghost predicate Lists(s: Core) { Listed(s) && Timed(s) && 0 !in s.co && MAIN !in s.co }

  ghost predicate Runs(s: Core) { forall c :: Is(s, c, Running) <==> c == s.cur > 0 }

  /** The partition every switch point keeps. */
  ghost predicate Part(s: Core) { Lists(s) && Runs(s) }

  // ----- moves

  function SetCo(s: Core, c: nat, st: CState): Core {
    if c in s.co then s.(co := s.co[c := s.co[c].(st := st)]) else s
  }

  function SetQ(s: Core, n: QName, l: seq<nat>): Core { s.(q := s.q[n := l]) }

  /** nb_rq_push or nb_rq_push_front on a coroutine that becomes runnable. */
  function Ready(s: Core, c: nat, front: bool): Core {
    SetQ(SetCo(s, c, Runnable), RunQ, if front then [c] + Q(s, RunQ) else Q(s, RunQ) + [c])
  }

  /** The running coroutine goes on a queue, parks and is switched out. */
  function ParkOn(s: Core, n: QName, front: bool): Core {
    SetQ(SetCo(s, s.cur, Parked), n, if front then [s.cur] + Q(s, n) else Q(s, n) + [s.cur]).(cur := 0)
  }

  function ParkBare(s: Core): Core { SetCo(s, s.cur, Parked).(cur := 0) }

  /** Before the first entry that is due later. */
  function TimerPlace(tq: seq<nat>, co: map<nat, Coro>, at: int): (k: nat)
    ensures k <= |tq|
    ensures forall i | 0 <= i < k :: tq[i] in co && co[tq[i]].wakeAt <= at
    ensures k < |tq| && tq[k] in co ==> co[tq[k]].wakeAt > at
  {
    if tq == [] || tq[0] !in co || co[tq[0]].wakeAt > at then 0
    else
      var k := TimerPlace(tq[1..], co, at);
      assert forall i | 1 <= i < k + 1 :: tq[i] == tq[1..][i - 1];
      k + 1
  }

  function TimerAdd(s: Core, c: nat, at: int): Core {
    var k := TimerPlace(s.tq, s.co, at);
    var t := if c in s.co then s.(co := s.co[c := s.co[c].(wakeAt := at)]) else s;
    t.(tq := s.tq[..k] + [c] + s.tq[k..])
  }

  function ParkTimed(s: Core, at: int): Core { ParkBare(TimerAdd(s, s.cur, at)) }

  function Remove(l: seq<nat>, c: nat): (r: seq<nat>)
    ensures forall x :: x in r ==> x in l
  {
    if l == [] then [] else if l[0] == c then l[1..] else [l[0]] + Remove(l[1..], c)
  }

  /** The head of a wait queue becomes runnable; main's node only leaves the queue. */
  function WakeHead(s: Core, n: QName): Core
    requires Q(s, n) != []
  {
    var w, t := Q(s, n)[0], SetQ(s, n, Q(s, n)[1..]);
    if w == MAIN then t else Ready(t, w, false)
  }

  function WakeAll(s: Core, n: QName): Core
    decreases |Q(s, n)|
  {
    if Q(s, n) == [] || n == RunQ then s else WakeAll(WakeHead(s, n), n)
  }

  function SetLast(s: Core, c: nat, last: int): Core {
    if c in s.co then s.(co := s.co[c := s.co[c].(last := last)]) else s
  }

  /** nb_timers_expire: everything due becomes runnable, in deadline order, marked timed out. */
  function Expire(s: Core, now: int): Core
    decreases |s.tq|
  {
    if s.tq == [] || s.tq[0] !in s.co || s.co[s.tq[0]].wakeAt > now then s
    else Expire(Ready(SetLast(s.(tq := s.tq[1..]), s.tq[0], 0), s.tq[0], false), now)
  }

  /** nb_unpark: bank a permit, or take the coroutine off the timer list and make it runnable. */
  function Unpark(s: Core, c: nat, front: bool): Core {
    if c !in s.co then s
    else if s.co[c].st != Parked then s.(co := s.co[c := s.co[c].(permit := true)])
    else Ready(SetLast(s.(tq := Remove(s.tq, c)), c, 1), c, front)
  }

  /** nurl_fiber_wake */
  function Wake(s: Core, c: nat): (Core, bool) {
    if !Is(s, c, Parked) then (s, false) else (Unpark(s, c, false), true)
  }

  /** nb_rq_pop takes whichever entry the build picks, and the scheduler switches to it. */
  function Pick(s: Core, k: nat): Core
    requires k < |Q(s, RunQ)|
  {
    var l := Q(s, RunQ);
    SetCo(SetQ(s, RunQ, l[..k] + l[k + 1..]), l[k], Running).(cur := l[k])
  }

  function Yield(s: Core): Core { Ready(s, s.cur, false).(cur := 0) }

  function End(s: Core): Core { SetCo(s, s.cur, Ended).(cur := 0) }

  function Spawn(s: Core, c: nat): Core {
    SetQ(s.(co := s.co[c := Coro(Runnable, 0, 0, false)]), RunQ, Q(s, RunQ) + [c])
  }

  function Reap(s: Core, c: nat): Core { s.(co := s.co - {c}) }

  function TakePermit(s: Core): Core {
    if s.cur in s.co then s.(co := s.co[s.cur := s.co[s.cur].(permit := false)]) else s
  }

  /** Main's node in an rwlock's queue. */
  function MainWaits(s: Core, r: nat): Core { SetQ(s, RwQ(r), Q(s, RwQ(r)) + [MAIN]) }

  // ----- every move keeps the lists apart

  lemma SetQAt(s: Core, n: QName, l: seq<nat>)
    ensures forall m :: Q(SetQ(s, n, l), m) == if m == n then l else Q(s, m)
  {
  }

  /** What a coroutine that is on no list can be made. */
  ghost predicate Loose(s: Core, c: nat) { c in s.co && c > 0 && c !in s.tq && forall n :: c !in Q(s, n) }

  lemma RunningLoose(s: Core)
    requires Part(s) && s.cur > 0
    ensures Loose(s, s.cur) && Is(s, s.cur, Running)
  {
    assert Is(s, s.cur, Running);
  }

  lemma NoDupPush(l: seq<nat>, c: nat)
    requires NoDup(l) && c !in l
    ensures NoDup(l + [c]) && NoDup([c] + l)
  {
  }

  /** A coroutine on no list goes on one queue, in the state that queue asks for. */
  lemma PutListed(s: Core, t: Core, n: QName, c: nat, front: bool)
    requires Listed(s) && forall m :: c !in Q(s, m)
    requires forall m :: Q(t, m) == if m == n then (if front then [c] + Q(s, n) else Q(s, n) + [c]) else Q(s, m)
    requires Is(t, c, if n == RunQ then Runnable else Parked) || (c == MAIN && n.RwQ? && c !in t.co)
    requires forall x, st | x != c :: Is(t, x, st) <==> Is(s, x, st)
    ensures Listed(t)
  {
    hide NoDup;
    NoDupPush(Q(s, n), c);
    forall m, x
      ensures x in Q(t, m) <==> (x == c && m == n) || x in Q(s, m)
    {
      assert m != n ==> Q(t, m) == Q(s, m);
    }
  }

  /** Taking one entry out of a queue, with its coroutine going into a state no queue holds. */
  lemma TakeListed(s: Core, t: Core, n: QName, k: nat, c: nat)
    requires Listed(s) && k < |Q(s, n)| && c == Q(s, n)[k]
    requires forall m :: Q(t, m) == if m == n then Q(s, n)[..k] + Q(s, n)[k + 1..] else Q(s, m)
    requires forall x, st | x != c :: Is(t, x, st) <==> Is(s, x, st)
    requires !Is(t, c, Runnable)
    ensures Listed(t) && forall m :: c !in Q(t, m)
  {
    var l, l' := Q(s, n), Q(s, n)[..k] + Q(s, n)[k + 1..];
    WithoutOne(l, k);
    forall m, x
      ensures x in Q(t, m) <==> x in Q(s, m) && x != c
    {
      assert m != n ==> Q(t, m) == Q(s, m);
      assert c in Q(s, n);
    }
  }

  lemma WithoutOne(l: seq<nat>, k: nat)
    requires NoDup(l) && k < |l|
    ensures var r := l[..k] + l[k + 1..];
      NoDup(r) && forall x :: x in r <==> x in l && x != l[k]
  {
    var r := l[..k] + l[k + 1..];
    forall x
      ensures x in r <==> x in l && x != l[k]
    {
      if x in l && x != l[k] {
        var i :| 0 <= i < |l| && l[i] == x;
        assert x == r[if i < k then i else i - 1];
      }
    }
  }

  lemma TimedSame(s: Core, t: Core)
    requires Timed(s) && t.tq == s.tq
    requires forall c | c in s.tq :: Is(t, c, Parked) && t.co[c].wakeAt == s.co[c].wakeAt && forall n :: c !in Q(t, n)
    ensures Timed(t)
  {
    hide NoDup;
    assert forall i | 0 <= i < |t.tq| :: t.tq[i] in s.tq;
  }

  /** A loose coroutine goes on a queue. */
  lemma PutLists(s: Core, t: Core, n: QName, c: nat, front: bool)
    requires Lists(s) && Loose(s, c) && t.tq == s.tq && t.co.Keys == s.co.Keys
    requires forall m :: Q(t, m) == if m == n then (if front then [c] + Q(s, n) else Q(s, n) + [c]) else Q(s, m)
    requires Is(t, c, if n == RunQ then Runnable else Parked)
    requires forall x | x in s.co && x != c :: t.co[x] == s.co[x]
    ensures Lists(t)
  {
    hide Listed, Timed, NoDup;
    assert Listed(s) && Timed(s);
    PutListed(s, t, n, c, front);
    forall x | x in s.tq
      ensures Is(t, x, Parked) && t.co[x].wakeAt == s.co[x].wakeAt && forall m :: x !in Q(t, m)
    {
      TimedAt(s, x);
    }
    TimedSame(s, t);
  }

  lemma TimedAt(s: Core, x: nat)
    requires Timed(s) && x in s.tq
    ensures Is(s, x, Parked) && forall n :: x !in Q(s, n)
  {
  }

  lemma ReadyLists(s: Core, c: nat, front: bool)
    requires Lists(s) && Loose(s, c)
    ensures Lists(Ready(s, c, front))
    ensures forall x, st | x != c :: Is(Ready(s, c, front), x, st) <==> Is(s, x, st)
    ensures Is(Ready(s, c, front), c, Runnable)
  {
    hide Lists, Loose;
    var t := SetCo(s, c, Runnable);
    assert c in s.co by {
      LooseIn(s, c);
    }
    SetQAt(t, RunQ, if front then [c] + Q(s, RunQ) else Q(s, RunQ) + [c]);
    PutLists(s, Ready(s, c, front), RunQ, c, front);
  }

  lemma LooseIn(s: Core, c: nat)
    requires Loose(s, c)
    ensures c in s.co && c > 0
  {
  }

  /** Once the running coroutine is in another state and the loop is back, nothing runs. */
  lemma RunsOut(s: Core, t: Core)
    requires Runs(s) && t.cur == 0
    requires forall x | x in t.co :: if x == s.cur then t.co[x].st != Running else x in s.co && t.co[x].st == s.co[x].st
    ensures Runs(t)
  {
    forall x
      ensures !Is(t, x, Running)
    {
      assert Is(s, x, Running) <==> x == s.cur > 0;
    }
  }

  lemma RunsKept(s: Core, t: Core, c: nat)
    requires Runs(s) && t.cur == s.cur && !Is(s, c, Running) && !Is(t, c, Running)
    requires forall x, st | x != c :: Is(t, x, st) <==> Is(s, x, st)
    ensures Runs(t)
  {
  }

  lemma ParkOnPart(s: Core, n: QName, front: bool)
    requires Part(s) && s.cur > 0 && n != RunQ
    ensures Part(ParkOn(s, n, front))
  {
    hide Lists, Loose, Runs;
    RunningLoose(s);
    var t := SetCo(s, s.cur, Parked);
    SetQAt(t, n, if front then [s.cur] + Q(s, n) else Q(s, n) + [s.cur]);
    PutLists(s, ParkOn(s, n, front), n, s.cur, front);
    RunsOut(s, ParkOn(s, n, front));
  }

  lemma ParkBarePart(s: Core)
    requires Part(s) && s.cur > 0
    ensures Part(ParkBare(s))
    ensures Loose(ParkBare(s), s.cur) && Is(ParkBare(s), s.cur, Parked)
  {
    hide NoDup, Runs;
    RunningLoose(s);
    var t := ParkBare(s);
    assert forall n :: Q(t, n) == Q(s, n);
    TimedSame(s, t);
    RunsOut(s, t);
  }

  // ----- the timer list

  function InsertAt(l: seq<nat>, k: nat, c: nat): seq<nat>
    requires k <= |l|
  {
    l[..k] + [c] + l[k..]
  }

  lemma InsertedAt(l: seq<nat>, k: nat, c: nat, i: nat)
    requires k <= |l| && i <= |l|
    ensures InsertAt(l, k, c)[i] == if i < k then l[i] else if i == k then c else l[i - 1]
  {
  }

  lemma InsertedIn(l: seq<nat>, k: nat, c: nat, x: nat)
    requires k <= |l|
    ensures x in InsertAt(l, k, c) <==> x in l || x == c
  {
    var r := InsertAt(l, k, c);
    assert r[k] == c;
    if x in l {
      var i :| 0 <= i < |l| && l[i] == x;
      assert r[if i < k then i else i + 1] == x;
    }
  }

  lemma InsertedNoDup(l: seq<nat>, k: nat, c: nat)
    requires NoDup(l) && c !in l && k <= |l|
    ensures NoDup(InsertAt(l, k, c))
  {
    forall i, j | 0 <= i < j < |InsertAt(l, k, c)|
      ensures InsertAt(l, k, c)[i] != InsertAt(l, k, c)[j]
    {
      hide InsertAt;
      InsertedAt(l, k, c, i);
      InsertedAt(l, k, c, j);
    }
  }

  /** nb_timer_add keeps deadlines in order, after every entry due no later: equals keep their order. */
  lemma TimerAddSorted(s: Core, c: nat, at: int)
    requires Sorted(s.tq, s.co) && c in s.co && c !in s.tq
    ensures var k, t := TimerPlace(s.tq, s.co, at), TimerAdd(s, c, at);
      && Sorted(t.tq, t.co) && t.tq == InsertAt(s.tq, k, c) && t.co[c] == s.co[c].(wakeAt := at)
      && (forall i | 0 <= i < k :: s.co[s.tq[i]].wakeAt <= at) && (forall i | k <= i < |s.tq| :: s.co[s.tq[i]].wakeAt > at)
  {
    hide InsertAt, TimerPlace;
    var k, t := TimerPlace(s.tq, s.co, at), TimerAdd(s, c, at);
    assert t.tq == InsertAt(s.tq, k, c) by {
      InsertIs(s.tq, k, c);
    }
    forall x | x in t.tq
      ensures x in t.co
    {
      InsertedIn(s.tq, k, c, x);
    }
    forall i, j | 0 <= i < j < |t.tq|
      ensures t.co[t.tq[i]].wakeAt <= t.co[t.tq[j]].wakeAt
    {
      InsertLength(s.tq, k, c);
      InsertedAt(s.tq, k, c, i);
      InsertedAt(s.tq, k, c, j);
    }
  }

  lemma InsertIs(l: seq<nat>, k: nat, c: nat)
    requires k <= |l|
    ensures InsertAt(l, k, c) == l[..k] + [c] + l[k..]
  {
  }

  lemma InsertLength(l: seq<nat>, k: nat, c: nat)
    requires k <= |l|
    ensures |InsertAt(l, k, c)| == |l| + 1
  {
  }

  lemma ParkTimedPart(s: Core, at: int)
    requires Part(s) && s.cur > 0
    ensures Part(ParkTimed(s, at))
  {
    hide NoDup, TimerPlace, Runs, InsertAt;
    RunningLoose(s);
    TimerAddSorted(s, s.cur, at);
    var t, k := ParkTimed(s, at), TimerPlace(s.tq, s.co, at);
    InsertedNoDup(s.tq, k, s.cur);
    forall x
      ensures x in t.tq <==> x in s.tq || x == s.cur
    {
      InsertedIn(s.tq, k, s.cur, x);
    }
    assert forall n :: Q(t, n) == Q(s, n);
    RunsOut(s, t);
    ParkTimedLists(s, t);
  }

  lemma ParkTimedLists(s: Core, t: Core)
    requires Part(s) && s.cur > 0 && Loose(s, s.cur) && NoDup(t.tq) && Sorted(t.tq, t.co)
    requires t.co.Keys == s.co.Keys && Is(t, s.cur, Parked) && Is(s, s.cur, Running)
    requires forall x | x in s.co && x != s.cur :: t.co[x] == s.co[x]
    requires forall x :: x in t.tq <==> x in s.tq || x == s.cur
    requires forall n :: Q(t, n) == Q(s, n)
    ensures Lists(t)
  {
    hide NoDup, Runs;
  }

  // ----- waking

  lemma RemovedIs(l: seq<nat>, c: nat)
    requires NoDup(l)
    ensures NoDup(Remove(l, c)) && c !in Remove(l, c)
    ensures forall x :: x in Remove(l, c) <==> x in l && x != c
  {
    if l != [] {
      assert forall i | 0 <= i < |l[1..]| :: l[1..][i] == l[i + 1];
      RemovedIs(l[1..], c);
      if l[0] != c {
        assert l[0] !in l[1..];
      }
    }
  }

  lemma SortedTail(l: seq<nat>, co: map<nat, Coro>)
    requires Sorted(l, co) && l != []
    ensures Sorted(l[1..], co) && l[0] in co && forall x | x in l[1..] :: co[l[0]].wakeAt <= co[x].wakeAt
  {
    assert forall i | 0 <= i < |l[1..]| :: l[1..][i] == l[i + 1];
    assert l[0] in l;
  }

  lemma SortedCons(a: nat, r: seq<nat>, co: map<nat, Coro>)
    requires Sorted(r, co) && a in co && forall x | x in r :: co[a].wakeAt <= co[x].wakeAt
    ensures Sorted([a] + r, co)
  {
    var l := [a] + r;
    forall i, j | 0 <= i < j < |l|
      ensures l[i] in co && l[j] in co && co[l[i]].wakeAt <= co[l[j]].wakeAt
    {
      assert l[j] == r[j - 1] && r[j - 1] in r;
      assert i > 0 ==> l[i] == r[i - 1];
    }
    forall c | c in l
      ensures c in co
    {
    }
  }

  lemma {:induction false} RemovedSorted(l: seq<nat>, co: map<nat, Coro>, c: nat)
    requires Sorted(l, co)
    ensures Sorted(Remove(l, c), co)
  {
    if l != [] {
      hide Sorted;
      SortedTail(l, co);
      RemovedSorted(l[1..], co, c);
      if l[0] != c {
        SortedCons(l[0], Remove(l[1..], c), co);
      }
    }
  }

  /** Off the timer list, a parked coroutine that no queue holds is on no list at all. */
  lemma UntimeLists(s: Core, c: nat, last: int)
    requires Lists(s) && Is(s, c, Parked) && forall n :: c !in Q(s, n)
    ensures var t := SetLast(s.(tq := Remove(s.tq, c)), c, last);
      Lists(t) && Loose(t, c) && t.cur == s.cur && t.co.Keys == s.co.Keys
    ensures forall x, st :: Is(SetLast(s.(tq := Remove(s.tq, c)), c, last), x, st) <==> Is(s, x, st)
  {
    hide NoDup, Remove;
    var t := SetLast(s.(tq := Remove(s.tq, c)), c, last);
    RemovedIs(s.tq, c);
    RemovedSorted(s.tq, s.co, c);
    assert forall n :: Q(t, n) == Q(s, n);
    assert forall x, st :: Is(t, x, st) <==> Is(s, x, st);
    assert Sorted(t.tq, t.co) by {
      assert forall i | 0 <= i < |t.tq| :: t.tq[i] in t.tq;
    }
  }

  lemma UnparkPart(s: Core, c: nat, front: bool)
    requires Part(s) && (Is(s, c, Parked) ==> forall n :: c !in Q(s, n))
    ensures Part(Unpark(s, c, front))
  {
    hide NoDup, Remove, Lists, Loose;
    if Is(s, c, Parked) {
      var t := SetLast(s.(tq := Remove(s.tq, c)), c, 1);
      UntimeLists(s, c, 1);
      ReadyLists(t, c, front);
      RunsKept(s, Ready(t, c, front), c);
    } else if c in s.co {
      PermitPart(s, c, true);
    }
  }

  lemma PermitPart(s: Core, c: nat, permit: bool)
    requires Part(s) && c in s.co
    ensures Part(s.(co := s.co[c := s.co[c].(permit := permit)]))
  {
    hide NoDup;
    var t := s.(co := s.co[c := s.co[c].(permit := permit)]);
    assert forall n :: Q(t, n) == Q(s, n);
    assert forall x, st :: Is(t, x, st) <==> Is(s, x, st);
    TimedSame(s, t);
  }

  /** Unparking a coroutine that waits on a queue puts it on two lists at once. */
  lemma UnparkExact(s: Core, c: nat, front: bool)
    requires Part(s) && c in s.co
    ensures Part(Unpark(s, c, front)) <==> (s.co[c].st == Parked ==> forall n :: c !in Q(s, n))
  {
    if s.co[c].st == Parked && exists n :: c in Q(s, n) {
      var n :| c in Q(s, n);
      var t := Unpark(s, c, front);
      assert n != RunQ;
      assert c in Q(t, n) && c in Q(t, RunQ);
    } else {
      UnparkPart(s, c, front);
    }
  }

  lemma WakeHeadPart(s: Core, n: QName)
    requires Part(s) && n != RunQ && Q(s, n) != []
    ensures Part(WakeHead(s, n))
  {
    hide NoDup, Timed;
    var w, t := Q(s, n)[0], SetQ(s, n, Q(s, n)[1..]);
    SetQAt(s, n, Q(s, n)[1..]);
    assert w in Q(s, n);
    TakeListed(s, t, n, 0, w) by {
      assert Q(s, n)[..0] + Q(s, n)[0 + 1..] == Q(s, n)[1..];
    }
    HeadTimed(s, t, n);
    if w != MAIN {
      assert Loose(t, w);
      ReadyLists(t, w, false);
      RunsKept(s, Ready(t, w, false), w);
    } else {
      RunsKept(s, t, MAIN);
    }
  }

  lemma HeadTimed(s: Core, t: Core, n: QName)
    requires Timed(s) && Q(s, n) != [] && t == SetQ(s, n, Q(s, n)[1..])
    ensures Timed(t) && Q(s, n)[0] !in t.tq
  {
    SetQAt(s, n, Q(s, n)[1..]);
    assert Q(s, n)[0] in Q(s, n);
    forall x | x in s.tq
      ensures forall m :: x !in Q(t, m)
    {
      assert x !in Q(s, n);
      forall m
        ensures x !in Q(t, m)
      {
        assert x !in Q(s, m);
      }
    }
  }

  lemma {:induction false} WakeAllPart(s: Core, n: QName)
    requires Part(s) && n != RunQ
    ensures Part(WakeAll(s, n)) && Q(WakeAll(s, n), n) == []
    decreases |Q(s, n)|
  {
    if Q(s, n) != [] {
      hide Part;
      WakeHeadPart(s, n);
      WakeAllPart(WakeHead(s, n), n);
    }
  }

  lemma TimerHead(s: Core)
    requires Lists(s) && s.tq != []
    ensures Remove(s.tq, s.tq[0]) == s.tq[1..] && Is(s, s.tq[0], Parked) && forall n :: s.tq[0] !in Q(s, n)
  {
    assert s.tq[0] in s.tq;
  }

  lemma {:induction false} ExpirePart(s: Core, now: int)
    requires Part(s)
    ensures Part(Expire(s, now))
    decreases |s.tq|
  {
    if s.tq != [] && s.tq[0] in s.co && s.co[s.tq[0]].wakeAt <= now {
      hide Lists, Loose, Remove;
      var c := s.tq[0];
      TimerHead(s);
      UntimeLists(s, c, 0);
      var t := SetLast(s.(tq := s.tq[1..]), c, 0);
      ReadyLists(t, c, false);
      RunsKept(s, Ready(t, c, false), c);
      ExpirePart(Ready(t, c, false), now);
    }
  }

  // ----- running

  lemma PickPart(s: Core, k: nat)
    requires Part(s) && s.cur == 0 && k < |Q(s, RunQ)|
    ensures Part(Pick(s, k)) && Pick(s, k).cur > 0
  {
    hide NoDup, Timed;
    var l, c, t := Q(s, RunQ), Q(s, RunQ)[k], Pick(s, k);
    assert c in Q(s, RunQ);
    assert Is(s, c, Runnable);
    SetQAt(s, RunQ, l[..k] + l[k + 1..]);
    TakeListed(s, t, RunQ, k, c);
    PickTimed(s, k);
  }

  lemma PickTimed(s: Core, k: nat)
    requires Timed(s) && k < |Q(s, RunQ)| && Is(s, Q(s, RunQ)[k], Runnable)
    ensures Timed(Pick(s, k))
  {
    hide NoDup;
    var l, c, t := Q(s, RunQ), Q(s, RunQ)[k], Pick(s, k);
    SetQAt(s, RunQ, l[..k] + l[k + 1..]);
    forall x | x in s.tq
      ensures Is(t, x, Parked) && t.co[x].wakeAt == s.co[x].wakeAt && forall n :: x !in Q(t, n)
    {
      TimedAt(s, x);
      forall n
        ensures x !in Q(t, n)
      {
        assert x !in Q(s, n);
      }
    }
    TimedSame(s, t);
  }

  lemma YieldPart(s: Core)
    requires Part(s) && s.cur > 0
    ensures Part(Yield(s))
  {
    hide Lists, Loose, Runs;
    RunningLoose(s);
    ReadyLists(s, s.cur, false);
    ListsCur(Ready(s, s.cur, false), 0);
    RunsOut(s, Yield(s));
  }

  lemma ListsCur(s: Core, c: nat)
    requires Lists(s)
    ensures Lists(s.(cur := c))
  {
    hide NoDup;
    var t := s.(cur := c);
    assert forall n :: Q(t, n) == Q(s, n);
    assert forall x, st :: Is(t, x, st) <==> Is(s, x, st);
  }

  lemma EndPart(s: Core)
    requires Part(s) && s.cur > 0
    ensures Part(End(s)) && Loose(End(s), s.cur) && Is(End(s), s.cur, Ended)
  {
    hide NoDup, Runs;
    RunningLoose(s);
    var t := End(s);
    assert forall n :: Q(t, n) == Q(s, n);
    TimedSame(s, t);
    RunsOut(s, t);
  }

  lemma SpawnPart(s: Core, c: nat)
    requires Part(s) && c > MAIN && c !in s.co
    ensures Part(Spawn(s, c))
  {
    hide NoDup;
    var t := Spawn(s, c);
    SetQAt(s, RunQ, Q(s, RunQ) + [c]);
    assert forall n :: c !in Q(s, n) by {
      assert forall st :: !Is(s, c, st);
    }
    PutListed(s, t, RunQ, c, false);
    assert !Is(s, c, Parked);
    forall x | x in s.tq
      ensures Is(t, x, Parked) && t.co[x].wakeAt == s.co[x].wakeAt && forall n :: x !in Q(t, n)
    {
      TimedAt(s, x);
      forall n
        ensures x !in Q(t, n)
      {
        assert x !in Q(s, n);
      }
    }
    TimedSame(s, t);
    RunsKept(s, t, c);
  }

  /** Freeing an ended coroutine. */
  lemma ReapPart(s: Core, c: nat)
    requires Part(s) && Is(s, c, Ended)
    ensures Part(Reap(s, c))
  {
    hide NoDup;
    var t := Reap(s, c);
    assert forall n :: Q(t, n) == Q(s, n);
    assert forall x, st :: Is(t, x, st) <==> Is(s, x, st) && x != c;
    assert forall x | x in s.tq :: x != c;
    TimedSame(s, t);
    assert Listed(t);
    RunsKept(s, t, c);
  }

  lemma MainWaitsPart(s: Core, r: nat)
    requires Part(s) && forall n :: MAIN !in Q(s, n)
    ensures Part(MainWaits(s, r))
  {
    hide NoDup;
    var t := MainWaits(s, r);
    SetQAt(s, RwQ(r), Q(s, RwQ(r)) + [MAIN]);
    PutListed(s, t, RwQ(r), MAIN, false);
    forall x | x in s.tq
      ensures Is(t, x, Parked) && t.co[x].wakeAt == s.co[x].wakeAt && forall n :: x !in Q(t, n)
    {
      TimedAt(s, x);
      forall n
        ensures x !in Q(t, n)
      {
        assert x !in Q(s, n);
      }
    }
    TimedSame(s, t);
    RunsKept(s, t, MAIN);
  }

  // ----- the scheduler step

  /** The first deadline has passed. */
  predicate Due(s: Core, now: int) { s.tq != [] && s.tq[0] in s.co && s.co[s.tq[0]].wakeAt <= now }

  /** Nothing is runnable and no timer is armed. */
  predicate Stuck(s: Core) { Q(s, RunQ) == [] && s.tq == [] }

  /**
   nb_step_bounded up to the switch: due timers first, then a runnable coroutine, else the
   machine idles until now, its last reading of the clock.
   */
  function Scheduled(s: Core, first: int, now: int, pick: nat): (Core, bool)
    requires Q(s, RunQ) != [] ==> pick < |Q(s, RunQ)|
  {
    if Due(s, first) then (Expire(s, first), true)
    else if Q(s, RunQ) != [] then (Pick(s, pick), true)
    else (Expire(s, now), Due(s, now))
  }

  /** How long the idle step sleeps: until the first deadline, or the caller's budget if that is sooner. */
  function SleepFor(s: Core, read: int, budget: int): int {
    if s.tq == [] || s.tq[0] !in s.co then 0
    else
      var wait := s.co[s.tq[0]].wakeAt - read;
      if budget >= 0 && wait > budget then budget else wait
  }

  /** Nothing to do before the first deadline, which is still to come. */
  predicate Idles(s: Core, first: int, read: int) {
    !Due(s, first) && Q(s, RunQ) == [] && s.tq != [] && s.tq[0] in s.co && s.co[s.tq[0]].wakeAt > read
  }

  /** The clock as the idle branch last read it: again after a sleep, if it slept. */
  function LastReading(s: Core, read: int, slept: int): int {
    if s.tq != [] && s.tq[0] in s.co && s.co[s.tq[0]].wakeAt > read then slept else read
  }

  /** The idle sleep passes no armed deadline and no budget, and ends at one of them. */
  lemma SleepExact(s: Core, first: int, read: int, budget: int)
    requires Part(s) && Idles(s, first, read)
    ensures var w := SleepFor(s, read, budget);
      && (forall c | c in s.tq :: read + w <= s.co[c].wakeAt) && (budget >= 0 ==> 0 <= w <= budget)
      && ((budget >= 0 && w == budget) || (w > 0 && read + w == s.co[s.tq[0]].wakeAt))
  {
    hide Listed, Runs, NoDup;
  }

  /** The clock does not go back, and a sleep lasts at least as long as asked. */
  predicate Slept(s: Core, read: int, now: int, budget: int) {
    now >= read && now >= read + SleepFor(s, read, budget)
  }

  /** The unbounded step answers 0 exactly when the run queue and the timer list are empty. */
  lemma StepExact(s: Core, first: int, read: int, now: int, pick: nat)
    requires Part(s) && first <= read && Slept(s, read, now, -1)
    requires Q(s, RunQ) != [] ==> pick < |Q(s, RunQ)|
    ensures !Scheduled(s, first, now, pick).1 <==> Stuck(s)
  {
    if s.tq != [] {
      assert s.tq[0] in s.tq;
    }
  }

  lemma ScheduledPart(s: Core, first: int, now: int, pick: nat)
    requires Part(s) && s.cur == 0 && (Q(s, RunQ) != [] ==> pick < |Q(s, RunQ)|)
    ensures Part(Scheduled(s, first, now, pick).0)
  {
    hide Part;
    if Due(s, first) {
      ExpirePart(s, first);
    } else if Q(s, RunQ) != [] {
      PickPart(s, pick);
    } else {
      ExpirePart(s, now);
    }
  }

  /** From a stuck state the scheduler changes nothing, whatever the clock says. */
  lemma StuckStays(s: Core, first: int, now: int, pick: nat)
    requires Stuck(s)
    ensures Scheduled(s, first, now, pick) == (s, false)
  {
  }

  // ----- permits

  /** An unpark that finds its coroutine unparked is banked; nurl_fiber_wake banks nothing. */
  lemma UnparkBanks(s: Core, c: nat, front: bool)
    requires c in s.co && s.co[c].st != Parked
    ensures Unpark(s, c, front).co[c].permit && Unpark(s, c, front).q == s.q && Unpark(s, c, front).tq == s.tq
    ensures Wake(s, c) == (s, false)
  {
  }

  /** Two unparks of a parked coroutine leave it on the run queue once, the second one banked. */
  lemma UnparkTwice(s: Core, c: nat, front: bool, again: bool)
    requires Part(s) && Is(s, c, Parked) && forall n :: c !in Q(s, n)
    ensures var t := Unpark(Unpark(s, c, front), c, again);
      Part(t) && Is(t, c, Runnable) && t.co[c].permit && Q(t, RunQ) == Q(Unpark(s, c, front), RunQ)
  {
    hide Part;
    UnparkPart(s, c, front);
    UnparkPart(Unpark(s, c, front), c, again);
  }

  /** The moves a coroutine's permit can be exposed to. */
  datatype Move =
    | MParkOn(n: QName, front: bool) | MPark | MParkTimed(at: int) | MWakeHead(n: QName) | MWakeAll(n: QName)
    | MExpire(now: int) | MUnpark(c: nat, front: bool) | MPick(k: nat) | MYield | MEnd | MSpawn(c: nat) | MReap(c: nat)
    | MTake | MForget | MMainWaits(r: nat)

  /** What the runtime asks before each move. */
  ghost predicate Allowed(s: Core, m: Move) {
    match m
    case MParkOn(n, _) => s.cur > 0 && n != RunQ
    case MPark => s.cur > 0
    case MParkTimed(_) => s.cur > 0
    case MWakeHead(n) => n != RunQ && Q(s, n) != []
    case MWakeAll(n) => n != RunQ
    case MExpire(_) => true
    case MUnpark(c, _) => Is(s, c, Parked) ==> forall n :: c !in Q(s, n)
    case MPick(k) => s.cur == 0 && k < |Q(s, RunQ)|
    case MYield => s.cur > 0
    case MEnd => s.cur > 0
    case MSpawn(c) => c > MAIN && c !in s.co
    case MReap(c) => Is(s, c, Ended)
    case MTake => s.cur > 0
    case MForget => s.cur > 0
    case MMainWaits(_) => forall n :: MAIN !in Q(s, n)
  }

  ghost function Made(s: Core, m: Move): Core
    requires Allowed(s, m)
  {
    match m
    case MParkOn(n, front) => ParkOn(s, n, front)
    case MPark => ParkBare(s)
    case MParkTimed(at) => ParkTimed(s, at)
    case MWakeHead(n) => WakeHead(s, n)
    case MWakeAll(n) => WakeAll(s, n)
    case MExpire(now) => Expire(s, now)
    case MUnpark(c, front) => Unpark(s, c, front)
    case MPick(k) => Pick(s, k)
    case MYield => Yield(s)
    case MEnd => End(s)
    case MSpawn(c) => Spawn(s, c)
    case MReap(c) => Reap(s, c)
    case MTake => TakePermit(s)
    case MForget => SetLast(s, s.cur, 0)
    case MMainWaits(r) => MainWaits(s, r)
  }

  lemma MovePart(s: Core, m: Move)
    requires Part(s) && Allowed(s, m)
    ensures Part(Made(s, m))
  {
    hide Part;
    match m
    case MParkOn(n, front) => ParkOnPart(s, n, front);
    case MPark => ParkBarePart(s);
    case MParkTimed(at) => ParkTimedPart(s, at);
    case MWakeHead(n) => WakeHeadPart(s, n);
    case MWakeAll(n) => WakeAllPart(s, n);
    case MExpire(now) => ExpirePart(s, now);
    case MUnpark(c, front) => UnparkPart(s, c, front);
    case MPick(k) => PickPart(s, k);
    case MYield => YieldPart(s);
    case MEnd => EndPart(s);
    case MSpawn(c) => SpawnPart(s, c);
    case MReap(c) => ReapPart(s, c);
    case MTake => TakePart(s);
    case MForget => ForgetPart(s);
    case MMainWaits(r) => MainWaitsPart(s, r);
  }

  lemma ForgetPart(s: Core)
    requires Part(s) && s.cur > 0
    ensures Part(SetLast(s, s.cur, 0))
  {
    hide NoDup;
    var t := SetLast(s, s.cur, 0);
    assert Is(s, s.cur, Running);
    assert forall n :: Q(t, n) == Q(s, n);
    assert forall x, st :: Is(t, x, st) <==> Is(s, x, st);
    TimedSame(s, t);
  }

  lemma TakePart(s: Core)
    requires Part(s) && s.cur > 0
    ensures Part(TakePermit(s))
  {
    assert Is(s, s.cur, Running);
    PermitPart(s, s.cur, false);
  }

  ghost predicate IsRun(ss: seq<Core>, ms: seq<Move>) {
    && |ss| == |ms| + 1
    && (if ms == [] then ss[0] == Core(map[], [], map[], 0)
        else
          var n := |ms| - 1;
          IsRun(ss[..n + 1], ms[..n]) && Allowed(ss[n], ms[n]) && ss[n + 1] == Made(ss[n], ms[n]))
  }

  /** Over every run: no coroutine is ever on two lists, or in a state its place does not show. */
  lemma {:induction false} RunPart(ss: seq<Core>, ms: seq<Move>)
    requires IsRun(ss, ms)
    ensures Part(ss[|ms|])
  {
    if ms != [] {
      hide Part, Allowed, Made;
      var n := |ms| - 1;
      RunPart(ss[..n + 1], ms[..n]);
      MovePart(ss[n], ms[n]);
    }
  }

  lemma {:induction false} WakeAllPermit(s: Core, n: QName, c: nat)
    requires c in s.co
    ensures c in WakeAll(s, n).co && WakeAll(s, n).co[c].permit == s.co[c].permit
    decreases |Q(s, n)|
  {
    if Q(s, n) != [] && n != RunQ {
      WakeAllPermit(WakeHead(s, n), n, c);
    }
  }

  lemma {:induction false} ExpirePermit(s: Core, now: int, c: nat)
    requires c in s.co
    ensures c in Expire(s, now).co && Expire(s, now).co[c].permit == s.co[c].permit
    decreases |s.tq|
  {
    if Due(s, now) {
      ExpirePermit(Ready(SetLast(s.(tq := s.tq[1..]), s.tq[0], 0), s.tq[0], false), now, c);
    }
  }

  /** A banked permit stays banked until its coroutine's own park takes it. */
  lemma PermitStays(s: Core, m: Move, c: nat)
    requires Part(s) && Allowed(s, m) && c in s.co && s.co[c].permit && s.co[c].st != Ended
    requires !(m == MTake && s.cur == c)
    ensures c in Made(s, m).co && Made(s, m).co[c].permit
  {
    hide Part, TimerPlace;
    match m {
      case MWakeAll(n) => WakeAllPermit(s, n, c);
      case MExpire(now) => ExpirePermit(s, now, c);
      case _ =>
    }
  }

  // ----- what a park returns

  lemma {:induction false} WakeAllLast(s: Core, n: QName, c: nat)
    requires c in s.co
    ensures c in WakeAll(s, n).co && WakeAll(s, n).co[c].last == s.co[c].last
    decreases |Q(s, n)|
  {
    if Q(s, n) != [] && n != RunQ {
      WakeAllLast(WakeHead(s, n), n, c);
    }
  }

  /** Expiry touches the parked coroutines of the timer list, those that are due, and answers them 0. */
  lemma {:induction false} ExpireLast(s: Core, now: int, c: nat)
    requires c in s.co
    ensures var t := Expire(s, now);
      && c in t.co && (t.co[c] == s.co[c] || (c in s.tq && s.co[c].wakeAt <= now && t.co[c].st == Runnable && t.co[c].last == 0))
    decreases |s.tq|
  {
    if Due(s, now) {
      ExpireLast(Ready(SetLast(s.(tq := s.tq[1..]), s.tq[0], 0), s.tq[0], false), now, c);
    }
  }

  /** A coroutine parked by a park call is woken by an unpark, which answers 1, or by its deadline, which answers 0, and by nothing else. */
  lemma WokenHow(s: Core, m: Move, c: nat)
    requires Part(s) && Allowed(s, m) && Is(s, c, Parked) && forall n :: c !in Q(s, n)
    ensures var t := Made(s, m);
      && c in t.co
      && (if m.MUnpark? && m.c == c then Is(t, c, Runnable) && t.co[c].last == 1
          else t.co[c] == s.co[c] || (m.MExpire? && c in s.tq && s.co[c].wakeAt <= m.now && Is(t, c, Runnable) && t.co[c].last == 0))
  {
    hide Part, TimerPlace;
    Unqueued(s, m, c);
    match m {
      case MWakeAll(n) => WakeAllSame(s, n, c);
      case MExpire(now) => ExpireLast(s, now, c);
      case _ =>
    }
  }

  lemma Unqueued(s: Core, m: Move, c: nat)
    requires Part(s) && Is(s, c, Parked) && forall n :: c !in Q(s, n)
    ensures s.cur > 0 ==> c != s.cur
    ensures m.MWakeHead? && Q(s, m.n) != [] ==> Q(s, m.n)[0] != c
    ensures m.MPick? && m.k < |Q(s, RunQ)| ==> Q(s, RunQ)[m.k] != c
  {
    hide Timed, NoDup;
    if s.cur > 0 {
      RunningLoose(s);
      assert Is(s, s.cur, Running);
    }
    assert m.MWakeHead? && Q(s, m.n) != [] ==> Q(s, m.n)[0] in Q(s, m.n);
    assert m.MPick? && m.k < |Q(s, RunQ)| ==> Q(s, RunQ)[m.k] in Q(s, RunQ);
  }

  lemma {:induction false} WakeAllSame(s: Core, n: QName, c: nat)
    requires c in s.co && c !in Q(s, n)
    ensures c in WakeAll(s, n).co && WakeAll(s, n).co[c] == s.co[c]
    decreases |Q(s, n)|
  {
    if Q(s, n) != [] && n != RunQ {
      assert Q(s, n)[0] in Q(s, n);
      WakeAllSame(WakeHead(s, n), n, c);
    }
  }

  /** The answer stays until the coroutine's own next park: only parked coroutines are answered. */
  lemma LastStays(s: Core, m: Move, c: nat)
    requires Part(s) && Allowed(s, m) && (Is(s, c, Runnable) || Is(s, c, Running))
    ensures c in Made(s, m).co && (Made(s, m).co[c].last == s.co[c].last || (m == MForget && s.cur == c))
  {
    hide Part, TimerPlace;
    match m {
      case MWakeAll(n) => WakeAllLast(s, n, c);
      case MExpire(now) =>
        ExpireLast(s, now, c);
        NotTimed(s, c);
      case _ =>
    }
  }

  lemma NotTimed(s: Core, c: nat)
    requires Part(s) && (Is(s, c, Runnable) || Is(s, c, Running))
    ensures c !in s.tq
  {
    hide NoDup;
  }
}
