/**
 unikernel/runtime_bare.c: every step of the runtime keeps its invariant.
 */
module RuntimeSteps {
  import opened Options
  import opened SchedCore
  import opened Runtime
  import RwLock

  // ----- steps that only make sleepers runnable

  /** Queues whose waiters only a release, a grant or an end may wake. */
  predicate Guarded(n: QName) { n.MutexQ? || n.RwQ? || n.JoinQ? }

  /** Nobody goes to sleep or ends, and whoever wakes leaves its queue, which is not a guarded one. */
  ghost predicate Quiet(s: Core, t: Core) {
    && t.co.Keys == s.co.Keys
    && (forall c | Is(t, c, Parked) :: Is(s, c, Parked))
    && (forall c | Awake(s, c) :: Awake(t, c))
    && (forall c :: Is(t, c, Ended) <==> Is(s, c, Ended))
    && (forall n | Guarded(n) :: Q(t, n) == Q(s, n))
    && (forall n, c | n != RunQ && c != MAIN :: c in Q(t, n) <==> c in Q(s, n) && Is(t, c, Parked))
    && (forall n, c | c in Q(s, n) && Guarded(n) && c != MAIN :: Is(t, c, Parked))
  }

  lemma QuietHome(s: State, t: State)
    requires AtHome(s) && Quiet(s.core, t.core) && t.pc == s.pc
    ensures AtHome(t)
  {
    hide Is, Q, Home;
    forall n, c | n != RunQ && c != MAIN
      ensures HomeAt(t, n, c)
    {
      assert HomeAt(s, n, c);
    }
  }

  lemma QuietWakened(s: State, t: State)
    requires Wakened(s) && Quiet(s.core, t.core) && t.pc == s.pc && t.locked == s.locked
    ensures Wakened(t)
  {
    forall m | m !in t.locked && Q(t.core, MutexQ(m)) != []
      ensures exists c :: Contends(t, c, m)
    {
      var c :| Contends(s, c, m);
      assert Contends(t, c, m);
    }
  }

  lemma QuietRwAt(s: State, t: State, r: nat)
    requires RwAt(s, r) && t.pc == s.pc && t.rw == s.rw && t.main == s.main
    requires Q(t.core, RwQ(r)) == Q(s.core, RwQ(r)) && forall c | Awake(s.core, c) :: Awake(t.core, c)
    ensures RwAt(t, r)
  {
    hide Awake, Q, RwLock.Inv, Names;
  }

  lemma QuietRw(s: State, t: State)
    requires RwLinked(s) && Quiet(s.core, t.core) && t.pc == s.pc && t.rw == s.rw && t.main == s.main
    ensures RwLinked(t)
  {
    hide RwAt;
    forall r
      ensures RwAt(t, r)
    {
      QuietRwAt(s, t, r);
    }
  }

  lemma QuietJoined(s: State, t: State)
    requires Joined(s) && AtHome(s) && Quiet(s.core, t.core) && t.pc == s.pc && t.main == s.main && Lists(s.core)
    requires t.joinable == s.joinable && t.handles == s.handles
    ensures Joined(t)
  {
    hide Is, Q;
    forall c | c in t.pc && t.pc[c].InJoin?
      ensures Is(t.core, c, Parked) <==> Is(s.core, c, Parked)
    {
      var n := JoinQ(s.pc[c].t);
      assert c != MAIN;
      assert HomeAt(s, n, c);
    }
  }

  lemma QuietInv(s: State, t: State)
    requires Inv(s) && Quiet(s.core, t.core) && Part(t.core)
    requires t == s.(core := t.core, seqs := t.seqs, fibers := t.fibers)
    ensures Inv(t)
  {
    hide Quiet, AtHome, Wakened, RwLinked, Joined;
    QuietHome(s, t);
    QuietWakened(s, t);
    QuietRw(s, t);
    QuietJoined(s, t);
  }

  // ----- which moves are quiet

  lemma QuietTrans(s: Core, t: Core, u: Core)
    requires Quiet(s, t) && Quiet(t, u)
    ensures Quiet(s, u)
  {
    hide Is, Q;
  }

  lemma QuietSame(s: Core, t: Core)
    requires t.q == s.q && t.co.Keys == s.co.Keys && Lists(s)
    requires forall c | c in s.co :: (t.co[c].st == Parked <==> s.co[c].st == Parked) && (t.co[c].st == Ended <==> s.co[c].st == Ended)
    ensures Quiet(s, t)
  {
    assert forall n :: Q(t, n) == Q(s, n);
    assert forall c :: Is(t, c, Parked) <==> Is(s, c, Parked);
  }

  /** A coroutine on no queue becomes runnable. */
  lemma ReadyQuiet(s: Core, c: nat, front: bool)
    requires Lists(s) && Loose(s, c) && !Is(s, c, Ended)
    ensures Quiet(s, Ready(s, c, front))
  {
    hide Timed, NoDup;
    var t := Ready(s, c, front);
    SetQAt(SetCo(s, c, Runnable), RunQ, if front then [c] + Q(s, RunQ) else Q(s, RunQ) + [c]);
    assert forall n | n != RunQ :: Q(t, n) == Q(s, n);
    assert forall x, st | x != c :: Is(t, x, st) <==> Is(s, x, st);
    forall n, x | x in Q(s, n) && Guarded(n) && x != MAIN
      ensures Is(t, x, Parked)
    {
      assert x != c;
    }
  }

  lemma YieldQuiet(s: Core)
    requires Part(s) && s.cur > 0
    ensures Quiet(s, Yield(s))
  {
    hide Lists, Runs, Loose;
    RunningLoose(s);
    ReadyQuiet(s, s.cur, false);
    ReadyLists(s, s.cur, false);
    QuietSame(Ready(s, s.cur, false), Yield(s));
    QuietTrans(s, Ready(s, s.cur, false), Yield(s));
  }

  lemma UntimeQuiet(s: Core, c: nat, last: int)
    requires Lists(s)
    ensures Quiet(s, SetLast(s.(tq := Remove(s.tq, c)), c, last))
  {
    hide Remove, Lists;
    QuietSame(s, SetLast(s.(tq := Remove(s.tq, c)), c, last));
  }

  lemma UnparkQuiet(s: Core, c: nat, front: bool)
    requires Part(s) && (Is(s, c, Parked) ==> forall n :: c !in Q(s, n))
    ensures Quiet(s, Unpark(s, c, front))
  {
    hide Remove, Lists, Loose, Quiet;
    if Is(s, c, Parked) {
      var t := SetLast(s.(tq := Remove(s.tq, c)), c, 1);
      UntimeLists(s, c, 1);
      UntimeQuiet(s, c, 1);
      ReadyQuiet(t, c, front);
      QuietTrans(s, t, Ready(t, c, front));
    } else {
      QuietSame(s, Unpark(s, c, front));
    }
  }

  lemma {:induction false} ExpireQuiet(s: Core, now: int)
    requires Part(s)
    ensures Quiet(s, Expire(s, now))
    decreases |s.tq|
  {
    if Due(s, now) {
      hide Lists, Loose, Remove, Quiet, Runs;
      var c := s.tq[0];
      TimerHead(s);
      UntimeLists(s, c, 0);
      UntimeQuiet(s, c, 0);
      var t := SetLast(s.(tq := s.tq[1..]), c, 0);
      ReadyLists(t, c, false);
      RunsKept(s, Ready(t, c, false), c);
      ReadyQuiet(t, c, false);
      QuietTrans(s, t, Ready(t, c, false));
      ExpireQuiet(Ready(t, c, false), now);
      QuietTrans(s, Ready(t, c, false), Expire(s, now));
    } else {
      QuietSame(s, s);
    }
  }

  lemma PickQuiet(s: Core, k: nat)
    requires Part(s) && k < |Q(s, RunQ)|
    ensures Quiet(s, Pick(s, k))
  {
    hide Timed, NoDup;
    var c, t := Q(s, RunQ)[k], Pick(s, k);
    assert c in Q(s, RunQ);
    assert Is(s, c, Runnable);
    SetQAt(s, RunQ, Q(s, RunQ)[..k] + Q(s, RunQ)[k + 1..]);
    assert forall n | n != RunQ :: Q(t, n) == Q(s, n);
    assert forall x | x != c :: Is(t, x, Parked) <==> Is(s, x, Parked);
    assert forall x :: Is(t, x, Ended) <==> Is(s, x, Ended);
  }

  lemma SleepQuiet(s: Core, first: int, now: int, pick: nat)
    requires Part(s) && s.cur == 0 && (Q(s, RunQ) != [] ==> pick < |Q(s, RunQ)|)
    ensures Quiet(s, Scheduled(s, first, now, pick).0)
  {
    hide Quiet, Part;
    if Due(s, first) {
      ExpireQuiet(s, first);
    } else if Q(s, RunQ) != [] {
      PickQuiet(s, pick);
    } else {
      ExpireQuiet(s, now);
    }
  }

  /** What taking the head of a wait queue and making it runnable does to every list and state. */
  lemma WakeHeadFacts(s: Core, n: QName)
    requires Part(s) && n != RunQ && Q(s, n) != []
    ensures var w, t := Q(s, n)[0], WakeHead(s, n);
      && t.co.Keys == s.co.Keys && t.cur == s.cur
      && (forall m | m != RunQ :: Q(t, m) == if m == n then Q(s, n)[1..] else Q(s, m))
      && (forall x, st | x != w || w == MAIN :: Is(t, x, st) <==> Is(s, x, st))
      && (w != MAIN ==> Is(s, w, Parked) && Is(t, w, Runnable))
      && w !in Q(s, n)[1..] && (forall m | m != n :: w !in Q(s, m))
  {
    hide Timed;
    var w, l := Q(s, n)[0], Q(s, n)[1..];
    SetQAt(s, n, l);
    assert w in Q(s, n);
    assert w != MAIN ==> Is(s, w, Parked);
    assert forall i | 0 <= i < |l| :: l[i] == Q(s, n)[i + 1];
    if w != MAIN {
      SetQAt(SetCo(SetQ(s, n, l), w, Runnable), RunQ, Q(SetQ(s, n, l), RunQ) + [w]);
    }
  }

  lemma WakeHeadQuiet(s: Core, n: QName)
    requires Part(s) && n != RunQ && !Guarded(n) && Q(s, n) != []
    ensures Quiet(s, WakeHead(s, n))
  {
    hide WakeHead, NoDup, Timed, Q;
    WakeHeadFacts(s, n);
    var w, t := Q(s, n)[0], WakeHead(s, n);
    assert w in Q(s, n);
    assert w != MAIN by {
      assert !n.RwQ?;
    }
    forall m, c | m != RunQ && c != MAIN
      ensures c in Q(t, m) <==> c in Q(s, m) && Is(t, c, Parked)
    {
      assert c in Q(s, n) <==> c == w || c in Q(s, n)[1..];
    }
  }

  lemma {:induction false} WakeAllQuiet(s: Core, n: QName)
    requires Part(s) && n != RunQ && !Guarded(n)
    ensures Quiet(s, WakeAll(s, n))
    decreases |Q(s, n)|
  {
    if Q(s, n) == [] {
      QuietSame(s, s);
    } else {
      hide Part, Quiet;
      WakeHeadPart(s, n);
      WakeHeadQuiet(s, n);
      WakeAllQuiet(WakeHead(s, n), n);
      QuietTrans(s, WakeHead(s, n), WakeAll(s, n));
    }
  }

  // ----- the runner goes to sleep

  /** Coroutine c, which ran, is parked, on the queue home if there is one; nothing else has moved. */
  ghost predicate Sleeps(s: Core, t: Core, c: nat, home: Option<QName>) {
    && t.co.Keys == s.co.Keys && Is(t, c, Parked) && Is(s, c, Running)
    && (forall x, st | x != c :: Is(t, x, st) <==> Is(s, x, st))
    && (forall n | n != RunQ :: if home == Some(n) then forall x :: x in Q(t, n) <==> x == c || x in Q(s, n) else Q(t, n) == Q(s, n))
    && (forall n :: c !in Q(s, n)) && c > MAIN
  }

  lemma RunnerFacts(s: Core)
    requires Part(s) && s.cur > 0
    ensures Is(s, s.cur, Running) && s.cur > MAIN && (forall n :: s.cur !in Q(s, n)) && s.cur !in s.tq
  {
    RunningLoose(s);
  }

  lemma ParkOnSleeps(s: Core, n: QName, front: bool)
    requires Part(s) && s.cur > 0 && n != RunQ
    ensures Sleeps(s, ParkOn(s, n, front), s.cur, Some(n))
  {
    hide Part;
    RunnerFacts(s);
    SetQAt(SetCo(s, s.cur, Parked), n, if front then [s.cur] + Q(s, n) else Q(s, n) + [s.cur]);
  }

  lemma ParkSleeps(s: Core)
    requires Part(s) && s.cur > 0
    ensures Sleeps(s, ParkBare(s), s.cur, None) && forall at :: Sleeps(s, ParkTimed(s, at), s.cur, None)
  {
    hide Part, TimerPlace;
    RunnerFacts(s);
    assert forall n :: Q(ParkBare(s), n) == Q(s, n);
    forall at
      ensures Sleeps(s, ParkTimed(s, at), s.cur, None)
    {
      assert forall n :: Q(ParkTimed(s, at), n) == Q(s, n);
    }
  }

  /** t is s with c asleep inside the call p. */
  ghost predicate Parks(s: State, t: State, c: nat, p: Pc) {
    && Sleeps(s.core, t.core, c, Home(p)) && c in s.pc && t.pc == s.pc[c := p]
    && t.locked == s.locked && t.main == s.main && t.joinable == s.joinable
  }

  lemma ParksHome(s: State, t: State, c: nat, p: Pc)
    requires AtHome(s) && Parks(s, t, c, p)
    ensures AtHome(t)
  {
    hide Is, Q, Home;
    forall n, x | n != RunQ && x != MAIN
      ensures HomeAt(t, n, x)
    {
      assert HomeAt(s, n, x);
    }
  }

  lemma ParksWakened(s: State, t: State, c: nat, p: Pc)
    requires Wakened(s) && Parks(s, t, c, p)
    requires s.pc[c].InLock? ==> s.pc[c].m in s.locked
    requires p.InLock? ==> p.m in s.locked
    ensures Wakened(t)
  {
    forall m | m !in t.locked && Q(t.core, MutexQ(m)) != []
      ensures exists x :: Contends(t, x, m)
    {
      assert Q(t.core, MutexQ(m)) == Q(s.core, MutexQ(m));
      var x :| Contends(s, x, m);
      assert Contends(t, x, m);
    }
  }

  lemma SleepsRw(s: Core, t: Core, c: nat, home: Option<QName>, r: nat)
    requires Sleeps(s, t, c, home) && home != Some(RwQ(r))
    ensures Q(t, RwQ(r)) == Q(s, RwQ(r)) && forall x | x != c :: Awake(t, x) <==> Awake(s, x)
  {
    hide Is, Q;
  }

  lemma ParksRwAt(s: State, t: State, c: nat, p: Pc, r: nat)
    requires RwAt(s, r) && Parks(s, t, c, p) && LockAt(t, r) == LockAt(s, r) && !s.pc[c].InRw? && p != InRw(r)
    ensures RwAt(t, r)
  {
    hide Is, Awake, Q, RwLock.Inv, Names, Sleeps;
    SleepsRw(s.core, t.core, c, Home(p), r);
  }

  lemma ParksRw(s: State, t: State, c: nat, p: Pc)
    requires RwLinked(s) && Parks(s, t, c, p) && t.rw == s.rw && !s.pc[c].InRw? && !p.InRw?
    ensures RwLinked(t)
  {
    hide RwAt, Parks;
    forall r
      ensures RwAt(t, r)
    {
      ParksRwAt(s, t, c, p, r);
    }
  }

  lemma ParksJoined(s: State, t: State, c: nat, p: Pc)
    requires Joined(s) && Parks(s, t, c, p) && !s.pc[c].InJoin? && t.handles <= s.handles
    requires p.InJoin? ==> p.t in s.handles && p.t !in t.handles && !Is(s.core, p.t, Ended) && p.t != c
    ensures Joined(t)
  {
    hide Q;
    forall x | x in t.pc && t.pc[x].InJoin?
      ensures JoinOk(t, t.pc[x].t) && (Is(t.core, x, Parked) <==> !Is(t.core, t.pc[x].t, Ended))
    {
      if x != c {
        assert JoinOk(s, s.pc[x].t);
      }
      assert Is(t.core, t.pc[x].t, Ended) <==> Is(s.core, t.pc[x].t, Ended);
    }
    if p.InJoin? {
      assert forall x | x in s.pc && s.pc[x].InJoin? :: JoinOk(s, s.pc[x].t);
    }
  }

  lemma ParksInv(s: State, t: State, c: nat, p: Pc)
    requires Inv(s) && Parks(s, t, c, p) && Part(t.core) && t.rw == s.rw && t.handles <= s.handles
    requires s.pc[c] == Body || s.pc[c].InLock? || s.pc[c].InCond? || s.pc[c].InDrain?
    requires !p.InRw? && (s.pc[c].InLock? ==> s.pc[c].m in s.locked) && (p.InLock? ==> p.m in s.locked)
    requires p.InJoin? ==> p.t in s.handles && p.t !in t.handles && !Is(s.core, p.t, Ended) && p.t != c
    ensures Inv(t)
  {
    hide AtHome, Wakened, RwLinked, Joined, Part;
    ParksHome(s, t, c, p);
    ParksWakened(s, t, c, p);
    ParksRw(s, t, c, p);
    ParksJoined(s, t, c, p);
  }

  lemma ParkAtInv(s: State, n: QName, front: bool, p: Pc)
    requires Inv(s) && s.core.cur > 0 && s.core.cur in s.pc && Home(p) == Some(n) && n != RunQ
    requires s.pc[s.core.cur] == Body || s.pc[s.core.cur].InLock? || s.pc[s.core.cur].InCond? || s.pc[s.core.cur].InDrain?
    requires s.pc[s.core.cur].InLock? ==> s.pc[s.core.cur].m in s.locked
    requires !p.InRw? && !p.InJoin? && (p.InLock? ==> p.m in s.locked)
    ensures Inv(ParkAt(s, n, front, p))
  {
    hide AtHome, Wakened, RwLinked, Joined, Part, Sleeps;
    ParkOnPart(s.core, n, front);
    ParkOnSleeps(s.core, n, front);
    ParksInv(s, ParkAt(s, n, front, p), s.core.cur, p);
  }

  // ----- releasing a mutex

  lemma FreedInv(s: State, m: nat)
    requires Inv(s) && Q(s.core, MutexQ(m)) == []
    ensures Inv(s.(locked := s.locked - {m}))
  {
    var t := s.(locked := s.locked - {m});
    SameHome(s, t);
    assert RwLinked(t) by {
      SameRw(s, t);
    }
    forall x | x !in t.locked && Q(t.core, MutexQ(x)) != []
      ensures exists c :: Contends(t, c, x)
    {
      var c :| Contends(s, c, x);
      assert Contends(t, c, x);
    }
  }

  lemma SameHome(s: State, t: State)
    requires AtHome(s) && t.core == s.core && t.pc == s.pc
    ensures AtHome(t)
  {
    forall n, c | n != RunQ && c != MAIN
      ensures HomeAt(t, n, c)
    {
      assert HomeAt(s, n, c);
    }
  }

  lemma SameRw(s: State, t: State)
    requires RwLinked(s) && t.core == s.core && t.pc == s.pc && t.rw == s.rw && t.main == s.main
    ensures RwLinked(t)
  {
    forall r
      ensures RwAt(t, r)
    {
      hide RwLock.Inv, Names;
      assert RwAt(s, r);
    }
  }

  /** The head of mutex m's queue wakes inside its lock call. */
  lemma MutexWakes(s: State, m: nat)
    requires Inv(s) && Q(s.core, MutexQ(m)) != []
    ensures var w, t := Q(s.core, MutexQ(m))[0], s.(locked := s.locked - {m}, core := WakeHead(s.core, MutexQ(m)));
      && Contends(t, w, m) && AtHome(t) && RwLinked(t) && Joined(t)
  {
    hide WakeHead, Wakened, Part, RwLock.Inv, Names;
    var n := MutexQ(m);
    WakeHeadFacts(s.core, n);
    var w, t := Q(s.core, n)[0], s.(locked := s.locked - {m}, core := WakeHead(s.core, n));
    WaiterHome(s, n);
    forall x, c | x != RunQ && c != MAIN
      ensures HomeAt(t, x, c)
    {
      assert HomeAt(s, x, c);
      assert c in Q(s.core, n) <==> c == w || c in Q(s.core, n)[1..];
    }
    forall r
      ensures RwAt(t, r)
    {
      assert RwAt(s, r);
    }
    forall c | c in t.pc && t.pc[c].InJoin?
      ensures Is(t.core, c, Parked) <==> Is(s.core, c, Parked)
    {
    }
    assert forall c :: Is(t.core, c, Ended) <==> Is(s.core, c, Ended);
  }

  lemma WaiterHome(s: State, n: QName)
    requires Inv(s) && n != RunQ && Q(s.core, n) != [] && !n.RwQ?
    ensures var w := Q(s.core, n)[0]; w in s.pc && Home(s.pc[w]) == Some(n) && w != MAIN && Is(s.core, w, Parked)
  {
    var w := Q(s.core, n)[0];
    assert w in Q(s.core, n);
    assert w != MAIN;
    assert HomeAt(s, n, w);
  }

  lemma ReleaseInv(s: State, m: nat)
    requires Inv(s)
    ensures Inv(Release(s, m))
  {
    if Q(s.core, MutexQ(m)) == [] {
      FreedInv(s, m);
    } else {
      hide AtHome, RwLinked, Joined, Part, WakeHead;
      var n := MutexQ(m);
      var w, t := Q(s.core, n)[0], s.(locked := s.locked - {m}, core := WakeHead(s.core, n));
      MutexWakes(s, m);
      WakeHeadPart(s.core, n);
      WakeHeadFacts(s.core, n);
      forall x | x !in t.locked && Q(t.core, MutexQ(x)) != []
        ensures exists c :: Contends(t, c, x)
      {
        if x == m {
          assert Contends(t, w, m);
        } else {
          var c :| Contends(s, c, x);
          assert Contends(t, c, x);
        }
      }
    }
  }

  // ----- taking a mutex, and going on

  /** The runner leaves a call, or never was in one. */
  lemma GoesOnInv(s: State, t: State)
    requires Inv(s) && s.core.cur > 0 && s.core.cur in s.pc
    requires t == s.(locked := t.locked, pc := s.pc[s.core.cur := Body]) && s.locked <= t.locked
    requires !s.pc[s.core.cur].InRw? && !s.pc[s.core.cur].InJoin?
    requires s.pc[s.core.cur].InLock? ==> s.pc[s.core.cur].m in t.locked
    ensures Inv(t)
  {
    hide RwLock.Inv, Names, Lists;
    var c := s.core.cur;
    assert Is(s.core, c, Running);
    forall n, x | n != RunQ && x != MAIN
      ensures HomeAt(t, n, x)
    {
      assert HomeAt(s, n, x);
    }
    GoesOnWakened(s, t);
    forall r
      ensures RwAt(t, r)
    {
      assert RwAt(s, r);
    }
  }

  lemma GoesOnWakened(s: State, t: State)
    requires Wakened(s) && s.core.cur in s.pc && t.core == s.core && t.pc == s.pc[s.core.cur := Body] && s.locked <= t.locked
    requires s.pc[s.core.cur].InLock? ==> s.pc[s.core.cur].m in t.locked
    ensures Wakened(t)
  {
    forall m | m !in t.locked && Q(t.core, MutexQ(m)) != []
      ensures exists c :: Contends(t, c, m)
    {
      var c :| Contends(s, c, m);
      assert Contends(t, c, m);
    }
  }

  lemma MoreLocked(s: State, t: State)
    requires Wakened(s) && t.core == s.core && t.pc == s.pc && s.locked <= t.locked
    ensures Wakened(t)
  {
    forall m | m !in t.locked && Q(t.core, MutexQ(m)) != []
      ensures exists c :: Contends(t, c, m)
    {
      var c :| Contends(s, c, m);
      assert Contends(t, c, m);
    }
  }

  /** Main starts or stops driving for something other than an rwlock or a join. */
  lemma MainInv(s: State, t: State)
    requires Inv(s) && t == s.(locked := t.locked, main := t.main) && s.locked <= t.locked
    requires forall r :: s.main != Driving(ForRw(r)) && t.main != Driving(ForRw(r))
    requires t.main.Driving? ==> !t.main.goal.ForEnd?
    ensures Inv(t)
  {
    hide RwLock.Inv, Names;
    SameHome(s, t);
    MoreLocked(s, t);
    forall r
      ensures RwAt(t, r)
    {
      assert RwAt(s, r);
      assert s.main != Driving(ForRw(r)) && t.main != Driving(ForRw(r));
    }
  }

  lemma LockTestInv(s: State, m: nat)
    requires Inv(s)
    requires s.core.cur > 0 ==> s.core.cur in s.pc
    requires s.core.cur > 0 ==> s.pc[s.core.cur] == Body || s.pc[s.core.cur] == InLock(m) || s.pc[s.core.cur].InCond?
    requires s.core.cur == 0 ==> s.main == Free || s.main == Driving(ForMutex(m)) || (s.main.Driving? && s.main.goal.ForCond?)
    ensures Inv(LockTest(s, m))
  {
    hide Inv;
    if s.core.cur > 0 {
      if m in s.locked {
        ParkAtInv(s, MutexQ(m), false, InLock(m));
      } else {
        GoesOnInv(s, LockTest(s, m));
      }
    } else {
      MainInv(s, LockTest(s, m));
    }
  }

  lemma TryLockInv(s: State, m: nat)
    requires Inv(s)
    ensures Inv(s.(locked := s.locked + {m}))
  {
    var t := s.(locked := s.locked + {m});
    SameHome(s, t);
    MoreLocked(s, t);
    SameRw(s, t);
  }

  // ----- reader-writer locks

  /** Whoever runs waits on no rwlock. */
  lemma NotWaiting(s: State, r: nat)
    requires Inv(s) && (if s.core.cur > 0 then s.core.cur in s.pc && s.pc[s.core.cur] == Body else s.main == Free)
    ensures !RwLock.Waiting(LockAt(s, r), Me(s))
  {
    hide RwLock.Inv;
    var v, l, h := LockAt(s, r), Q(s.core, RwQ(r)), Me(s);
    assert RwAt(s, r);
    assert s.core.cur > 0 ==> Is(s.core, h, Running) && h != MAIN;
    forall i | 0 <= i < |v.queue|
      ensures v.queue[i].id != h
    {
      assert l[i] in l;
      assert HomeAt(s, RwQ(r), h);
    }
  }

  lemma RwSetInv(s: State, r: nat, v: RwLock.Rw)
    requires Inv(s) && RwLock.Inv(v) && RwLock.Unmoved(LockAt(s, r), v)
    ensures Inv(s.(rw := s.rw[r := v]))
  {
    hide RwLock.Inv;
    var t := s.(rw := s.rw[r := v]);
    SameHome(s, t);
    MoreLocked(s, t);
    forall x
      ensures RwAt(t, x)
    {
      assert RwAt(s, x);
    }
  }

  lemma NamesSnoc(q: seq<RwLock.Waiter>, l: seq<nat>, q': seq<RwLock.Waiter>, h: nat)
    requires Names(q, l) && |q'| == |q| + 1 && q'[..|q|] == q && q'[|q|].id == h
    ensures Names(q', l + [h])
  {
    forall i | 0 <= i < |q'|
      ensures q'[i].id == (l + [h])[i]
    {
      assert i < |q| ==> q'[i] == q'[..|q|][i];
    }
  }

  /** A coroutine queues for the lock. */
  lemma RwWaitsInv(s: State, r: nat, v: RwLock.Rw)
    requires Inv(s) && s.core.cur > 0 && s.core.cur in s.pc && s.pc[s.core.cur] == Body
    requires RwLock.Inv(v) && RwLock.Added(LockAt(s, r), v, s.core.cur)
    ensures Inv(ParkAt(s.(rw := s.rw[r := v]), RwQ(r), false, InRw(r)))
  {
    hide RwLock.Inv, AtHome, Wakened, Joined, Part, Sleeps;
    var c, t := s.core.cur, ParkAt(s.(rw := s.rw[r := v]), RwQ(r), false, InRw(r));
    ParkOnPart(s.core, RwQ(r), false);
    ParkOnSleeps(s.core, RwQ(r), false);
    ParksHome(s, t, c, InRw(r));
    ParksWakened(s, t, c, InRw(r));
    ParksJoined(s, t, c, InRw(r));
    forall x
      ensures RwAt(t, x)
    {
      assert RwAt(s, x);
      if x == r {
        ParkedRwAt(s, t, r, v);
      } else {
        ParksRwAt(s, t, c, InRw(r), x);
      }
    }
  }

  lemma ParkedRwAt(s: State, t: State, r: nat, v: RwLock.Rw)
    requires RwAt(s, r) && s.core.cur > 0 && t == ParkAt(s.(rw := s.rw[r := v]), RwQ(r), false, InRw(r))
    requires Sleeps(s.core, t.core, s.core.cur, Some(RwQ(r))) && s.core.cur in s.pc && s.pc[s.core.cur] == Body
    requires RwLock.Inv(v) && RwLock.Added(LockAt(s, r), v, s.core.cur)
    ensures RwAt(t, r)
  {
    hide RwLock.Inv, Names, Is;
    var c, l := s.core.cur, Q(s.core, RwQ(r));
    SetQAt(SetCo(s.core, c, Parked), RwQ(r), l + [c]);
    assert Q(t.core, RwQ(r)) == l + [c];
    NamesSnoc(LockAt(s, r).queue, l, v.queue, c);
    forall h | h in v.granted
      ensures LetIn(t, r, h)
    {
      assert LetIn(s, r, h);
    }
  }

  /** Main queues by its own node. */
  lemma RwMainWaitsInv(s: State, r: nat, v: RwLock.Rw)
    requires Inv(s) && s.core.cur == 0 && s.main == Free
    requires RwLock.Inv(v) && RwLock.Added(LockAt(s, r), v, MAIN)
    ensures Inv(s.(rw := s.rw[r := v], core := MainWaits(s.core, r), main := Driving(ForRw(r))))
  {
    hide RwLock.Inv, Part, Names;
    var t := s.(rw := s.rw[r := v], core := MainWaits(s.core, r), main := Driving(ForRw(r)));
    var l := Q(s.core, RwQ(r));
    assert forall n :: MAIN !in Q(s.core, n) by {
      MainNowhere(s);
    }
    MainWaitsPart(s.core, r);
    SetQAt(s.core, RwQ(r), l + [MAIN]);
    forall n, c | n != RunQ && c != MAIN
      ensures HomeAt(t, n, c)
    {
      assert HomeAt(s, n, c);
    }
    forall m | m !in t.locked && Q(t.core, MutexQ(m)) != []
      ensures exists c :: Contends(t, c, m)
    {
      var c :| Contends(s, c, m);
      assert Contends(t, c, m);
    }
    assert RwAt(s, r);
    NamesSnoc(LockAt(s, r).queue, l, v.queue, MAIN);
    forall x
      ensures RwAt(t, x)
    {
      assert RwAt(s, x);
      forall h | h in LockAt(s, x).granted
        ensures h != MAIN
      {
        assert LetIn(s, x, h);
      }
    }
  }

  lemma MainNowhere(s: State)
    requires Inv(s) && s.main == Free
    ensures forall n :: MAIN !in Q(s.core, n)
  {
    forall n
      ensures MAIN !in Q(s.core, n)
    {
      if n.RwQ? {
        assert RwAt(s, n.r);
      }
    }
  }

  /** What waking the first k of queue n does. */
  ghost predicate WokeN(s: Core, t: Core, n: QName, k: nat) {
    var l := Q(s, n);
    && k <= |l| && Part(t) && t.co.Keys == s.co.Keys && t.cur == s.cur
    && (forall m | m != RunQ :: Q(t, m) == if m == n then l[k..] else Q(s, m))
    && (forall x, st | x !in l[..k] || x == MAIN :: Is(t, x, st) <==> Is(s, x, st))
    && (forall x | x in l[..k] && x != MAIN :: Is(t, x, Runnable))
    && (forall x | x in l :: x in l[..k] <==> x !in l[k..])
  }

  lemma WokeOne(s: Core, t: Core, u: Core, n: QName, k: nat)
    requires Part(s) && n != RunQ && Q(s, n) != [] && k > 0 && t == WakeHead(s, n) && WokeN(t, u, n, k - 1)
    ensures WokeN(s, u, n, k)
  {
    hide Part, WakeHead;
    var l := Q(s, n);
    WakeHeadFacts(s, n);
    var a, b := l[1..][..k - 1], l[1..][k - 1..];
    assert l[..k] == [l[0]] + a && b == l[k..] && l[1..] == a + b;
    assert l == [l[0]] + l[1..];
    forall x
      ensures x in l[..k] <==> x == l[0] || x in a
      ensures x in l <==> x == l[0] || x in a || x in b
    {
    }
    assert l[0] !in a && l[0] !in b by {
      assert l[0] !in a + b;
    }
  }

  lemma {:induction false} WakeNFacts(s: Core, n: QName, k: nat)
    requires Part(s) && n != RunQ && k <= |Q(s, n)|
    ensures WokeN(s, WakeN(s, n, k), n, k)
    decreases k
  {
    if k > 0 {
      hide Part, WakeHead, WokeN;
      WakeHeadPart(s, n);
      WakeHeadFacts(s, n);
      WakeNFacts(WakeHead(s, n), n, k - 1);
      WokeOne(s, WakeHead(s, n), WakeN(s, n, k), n, k);
    }
  }

  lemma PrefixIds(q: seq<RwLock.Waiter>, l: seq<nat>, k: nat)
    requires Names(q, l) && k <= |q|
    ensures forall h :: h in RwLock.Ids(q[..k]) <==> h in l[..k]
    ensures Names(q[k..], l[k..])
  {
    forall h
      ensures h in RwLock.Ids(q[..k]) <==> h in l[..k]
    {
      if h in l[..k] {
        var i :| 0 <= i < k && l[..k][i] == h;
        assert q[..k][i].id == h;
      }
      if h in RwLock.Ids(q[..k]) {
        var i :| 0 <= i < k && q[..k][i].id == h;
        assert l[..k][i] == h;
      }
    }
  }

  /** An unlock grants to the first of the queue, and the runtime wakes the same ones. */
  lemma RwGrantsInv(s: State, r: nat, v: RwLock.Rw)
    requires Inv(s) && RwLock.Inv(v) && RwLock.Granting(LockAt(s, r), v)
    ensures var k := |LockAt(s, r).queue| - |v.queue|;
      Inv(s.(rw := s.rw[r := v], core := WakeN(s.core, RwQ(r), k)))
  {
    hide RwLock.Inv, Part, Names, WakeN, Lists, RwLock.Ids, RwLock.Granting, RwAt, Joined, Wakened, AtHome;
    var u, n := LockAt(s, r), RwQ(r);
    var l := Q(s.core, n);
    GrantingLess(u, v);
    assert RwAt(s, r);
    QueueLength(s, r);
    var k := |u.queue| - |v.queue|;
    var t := s.(rw := s.rw[r := v], core := WakeN(s.core, n, k));
    WakeNFacts(s.core, n, k);
    WokenIn(s, l, k);
    GrantsHome(s, t, n, k);
    GrantsWakened(s, t, n, l[..k]);
    RwGrantedAt(s, t, r, v, k);
    forall x
      ensures RwAt(t, x)
    {
      assert RwAt(s, x);
      if x != r {
        GrantsOtherRw(s, t, n, k, x);
      }
    }
    GrantsJoined(s, t, n, l[..k]);
  }

  lemma QueueLength(s: State, r: nat)
    requires RwAt(s, r)
    ensures |LockAt(s, r).queue| == |Q(s.core, RwQ(r))|
  {
    hide RwLock.Inv;
  }

  lemma WokenIn(s: State, l: seq<nat>, k: nat)
    requires k <= |l|
    ensures forall x | x in l[..k] :: x in l
  {
  }

  lemma GrantsHome(s: State, t: State, n: QName, k: nat)
    requires AtHome(s) && WokeN(s.core, t.core, n, k) && t.pc == s.pc && n != RunQ
    ensures AtHome(t)
  {
    hide Part;
    forall m, c | m != RunQ && c != MAIN
      ensures HomeAt(t, m, c)
    {
      assert HomeAt(s, m, c) && HomeAt(s, n, c);
    }
  }

  lemma GrantsOtherRw(s: State, t: State, n: QName, k: nat, x: nat)
    requires RwAt(s, x) && WokeN(s.core, t.core, n, k) && t.pc == s.pc && t.main == s.main && n.RwQ? && n.r != x
    requires LockAt(t, x) == LockAt(s, x)
    ensures RwAt(t, x)
  {
    hide RwLock.Inv, Names, Part;
    LetInKept(s, t, x, Q(s.core, n)[..k]);
    assert Q(t.core, RwQ(x)) == Q(s.core, RwQ(x));
  }

  lemma NamesLength(q: seq<RwLock.Waiter>, l: seq<nat>)
    requires Names(q, l)
    ensures |q| == |l|
  {
  }

  lemma LetInKept(s: State, t: State, x: nat, woken: seq<nat>)
    requires RwAt(s, x) && t.pc == s.pc && t.main == s.main && LockAt(t, x) == LockAt(s, x)
    requires forall c, st | c !in woken || c == MAIN :: Is(t.core, c, st) <==> Is(s.core, c, st)
    requires forall c | c in woken && c != MAIN :: Is(t.core, c, Runnable)
    ensures forall h | h in LockAt(s, x).granted :: LetIn(t, x, h)
  {
    hide RwLock.Inv, Names;
    forall h | h in LockAt(s, x).granted
      ensures LetIn(t, x, h)
    {
      assert LetIn(s, x, h);
    }
  }

  lemma GrantsWakened(s: State, t: State, n: QName, woken: seq<nat>)
    requires Wakened(s) && t.pc == s.pc && t.locked == s.locked && n.RwQ?
    requires forall m | m != RunQ && m != n :: Q(t.core, m) == Q(s.core, m)
    requires forall c, st | c !in woken || c == MAIN :: Is(t.core, c, st) <==> Is(s.core, c, st)
    requires forall c | c in woken && c != MAIN :: Is(t.core, c, Runnable)
    ensures Wakened(t)
  {
    forall m | m !in t.locked && Q(t.core, MutexQ(m)) != []
      ensures exists c :: Contends(t, c, m)
    {
      var c :| Contends(s, c, m);
      assert Contends(t, c, m);
    }
  }

  lemma GrantsJoined(s: State, t: State, n: QName, woken: seq<nat>)
    requires Joined(s) && AtHome(s) && n.RwQ? && t.pc == s.pc && t.main == s.main && t.joinable == s.joinable && t.handles == s.handles
    requires t.core.co.Keys == s.core.co.Keys
    requires forall c, st | c !in woken || c == MAIN :: Is(t.core, c, st) <==> Is(s.core, c, st)
    requires forall c | c in woken && c != MAIN :: Is(t.core, c, Runnable) && c in Q(s.core, n)
    ensures Joined(t)
  {
    forall c | c in woken && c != MAIN
      ensures Is(s.core, c, Parked) && c in s.pc && s.pc[c] == InRw(n.r)
    {
      assert HomeAt(s, n, c);
    }
    forall c
      ensures Is(t.core, c, Ended) <==> Is(s.core, c, Ended)
    {
    }
  }

  /** The lock granted: its machine and the runtime agree on who is in, who waits and who is awake. */
  lemma RwGrantedAt(s: State, t: State, r: nat, v: RwLock.Rw, k: nat)
    requires AtHome(s) && RwAt(s, r) && RwLock.Inv(v) && RwLock.Granting(LockAt(s, r), v)
    requires k == |LockAt(s, r).queue| - |v.queue| && k <= |Q(s.core, RwQ(r))|
    requires t.pc == s.pc && t.main == s.main && LockAt(t, r) == v && Q(t.core, RwQ(r)) == Q(s.core, RwQ(r))[k..]
    requires forall c, st | c !in Q(s.core, RwQ(r))[..k] || c == MAIN :: Is(t.core, c, st) <==> Is(s.core, c, st)
    requires forall c | c in Q(s.core, RwQ(r))[..k] && c != MAIN :: Is(t.core, c, Runnable)
    requires forall c | c in Q(s.core, RwQ(r)) :: c in Q(s.core, RwQ(r))[..k] <==> c !in Q(s.core, RwQ(r))[k..]
    ensures RwAt(t, r)
  {
    hide RwLock.Inv, Names, RwLock.Ids;
    var u, l := LockAt(s, r), Q(s.core, RwQ(r));
    PrefixIds(u.queue, l, k) by {
      NamesLength(u.queue, l);
    }
    forall h | h in v.granted
      ensures LetIn(t, r, h)
    {
      if h in u.granted {
        assert LetIn(s, r, h);
      } else {
        assert h in l[..k] && h in l;
        assert h != MAIN ==> HomeAt(s, RwQ(r), h);
      }
    }
    assert forall c | c in l[k..] :: c in l;
  }

  lemma RwCallInv(s: State, r: nat, o: RwLock.Op)
    requires Inv(s) && (if s.core.cur > 0 then s.core.cur in s.pc && s.pc[s.core.cur] == Body else s.main == Free)
    requires Asked(s, Rw(r, o))
    ensures Inv(RwCall(s, r, o))
  {
    hide Inv, RwLock.Inv, RwLock.Do, ParkAt, WakeN, RwLock.Waiting, RwLock.Granting, RwLock.Added;
    var v := LockAt(s, r);
    var (t, out) := RwLock.Do(v, Me(s), o);
    NotWaiting(s, r);
    assert RwLock.Inv(v) by {
      RwInvAt(s, r);
    }
    RwLock.StepInv(v, Me(s), o);
    if o == RwLock.UnRd || o == RwLock.UnWr {
      RwLock.UnlockMoves(v, Me(s), o);
      RwGrantsInv(s, r, t);
      GrantingLess(v, t);
    } else {
      RwLock.AskMoves(v, Me(s), o);
      if out == RwLock.Waits {
        if s.core.cur > 0 {
          RwWaitsInv(s, r, t);
        } else {
          RwMainWaitsInv(s, r, t);
        }
      } else {
        RwSetInv(s, r, t);
      }
    }
  }

  lemma GrantingLess(v: RwLock.Rw, t: RwLock.Rw)
    requires RwLock.Granting(v, t)
    ensures |t.queue| <= |v.queue|
  {
  }

  lemma RwInvAt(s: State, r: nat)
    requires Inv(s)
    ensures RwLock.Inv(LockAt(s, r))
  {
    hide RwLock.Inv, Names;
    assert RwAt(s, r);
  }

  /** A granted waiter records its lock and goes on; mine is whose wait ends. */
  lemma RwGoInv(s: State, t: State, r: nat, h: nat)
    requires Inv(s) && h in LockAt(s, r).granted && t.core == s.core
    requires t == s.(rw := s.rw[r := RwLock.Do(LockAt(s, r), h, RwLock.Go).0], pc := t.pc, main := t.main)
    requires if h == MAIN then t.main == Free && t.pc == s.pc else t.pc == s.pc[h := Body] && t.main == s.main && Is(s.core, h, Running)
    ensures Inv(t)
  {
    hide RwLock.Inv, Names, RwLock.Do, Part, RwAt, Joined, AtHome, Wakened;
    RwGoLinked(s, t, r, h);
    RwGoRest(s, t, r, h);
  }

  lemma RwGoLinked(s: State, t: State, r: nat, h: nat)
    requires Inv(s) && h in LockAt(s, r).granted && t.core == s.core
    requires t.rw == s.rw[r := RwLock.Do(LockAt(s, r), h, RwLock.Go).0]
    requires if h == MAIN then t.main == Free && t.pc == s.pc else t.pc == s.pc[h := Body] && t.main == s.main && Is(s.core, h, Running)
    ensures RwLinked(t) && LetIn(s, r, h)
  {
    hide RwLock.Inv, Names, RwLock.Do, Part, Joined, AtHome, Wakened;
    var v := LockAt(s, r);
    RwInvAt(s, r);
    RwLock.StepInv(v, h, RwLock.Go);
    RwLock.GoMoves(v, h);
    assert RwAt(s, r) && LetIn(s, r, h);
    forall x
      ensures RwAt(t, x)
    {
      assert RwAt(s, x);
      MainGranted(s, r, h, x);
      RwGoneAt(s, t, r, h, x);
    }
  }

  lemma RwGoRest(s: State, t: State, r: nat, h: nat)
    requires Inv(s) && LetIn(s, r, h) && t == s.(rw := t.rw, pc := t.pc, main := t.main)
    requires if h == MAIN then t.main == Free && t.pc == s.pc else t.pc == s.pc[h := Body] && t.main == s.main && Is(s.core, h, Running)
    ensures AtHome(t) && Wakened(t) && Joined(t)
  {
    hide RwLinked, Part;
    forall n, c | n != RunQ && c != MAIN
      ensures HomeAt(t, n, c)
    {
      assert HomeAt(s, n, c);
    }
    forall m | m !in t.locked && Q(t.core, MutexQ(m)) != []
      ensures exists c :: Contends(t, c, m)
    {
      var c :| Contends(s, c, m);
      assert Contends(t, c, m);
    }
  }

  /** Main's node, once granted, is in no queue. */
  lemma MainGranted(s: State, r: nat, h: nat, x: nat)
    requires Inv(s) && h in LockAt(s, r).granted
    ensures h == MAIN ==> MAIN !in Q(s.core, RwQ(x))
    ensures MAIN !in s.pc
  {
    hide RwLock.Inv;
    assert RwAt(s, r) && LetIn(s, r, h) && RwAt(s, x);
    if h == MAIN && x == r {
      RwLock.GrantedNotQueued(LockAt(s, r), h);
      var l := Q(s.core, RwQ(r));
      assert forall i | 0 <= i < |l| :: l[i] == LockAt(s, r).queue[i].id;
    }
  }

  lemma RwGoneAt(s: State, t: State, r: nat, h: nat, x: nat)
    requires RwAt(s, x) && t.core == s.core && LetIn(s, r, h)
    requires LockAt(t, x) == LockAt(s, x) || (RwLock.Inv(LockAt(t, x)) && x == r)
    requires LockAt(t, x).queue == LockAt(s, x).queue
    requires LockAt(t, x).granted == if x == r then LockAt(s, x).granted - {h} else LockAt(s, x).granted
    requires if h == MAIN then t.main == Free && t.pc == s.pc else h in s.pc && t.pc == s.pc[h := Body] && t.main == s.main
    requires (h == MAIN ==> MAIN !in Q(s.core, RwQ(x))) && MAIN !in s.pc
    ensures RwAt(t, x)
  {
    hide RwLock.Inv, Names;
    forall g | g in LockAt(t, x).granted
      ensures LetIn(t, x, g)
    {
      assert LetIn(s, x, g);
    }
  }
}
