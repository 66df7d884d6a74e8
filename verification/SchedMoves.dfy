/**
 unikernel/runtime_bare.c, the scheduler's moves one after another: who comes off which queue by what,
 which order the run queue keeps, and when a deadline that was armed can end a park.
 */
module SchedMoves {
  import opened Options
  import opened SchedCore

  // ----- order and causes

  /** The run queue is first in first out: only a pick takes from it, and only an admitting unpark puts somebody ahead. */
  lemma RunOrder(s: Core, m: Move)
    requires Part(s) && Allowed(s, m)
    ensures var l, t := Q(s, RunQ), Q(Made(s, m), RunQ);
      if m.MPick? then t == l[..m.k] + l[m.k + 1..] && Made(s, m).cur == l[m.k]
      else if m.MUnpark? && m.front && Is(s, m.c, Parked) then t == [m.c] + l
      else l <= t
  {
    hide Part, TimerPlace;
    match m {
      case MWakeAll(n) => WakeAllOrder(s, n);
      case MExpire(now) => ExpireOrder(s, now);
      case _ =>
    }
  }

  lemma {:induction false} WakeAllOrder(s: Core, n: QName)
    ensures Q(s, RunQ) <= Q(WakeAll(s, n), RunQ)
    decreases |Q(s, n)|
  {
    if Q(s, n) != [] && n != RunQ {
      WakeAllOrder(WakeHead(s, n), n);
    }
  }

  lemma {:induction false} ExpireOrder(s: Core, now: int)
    ensures Q(s, RunQ) <= Q(Expire(s, now), RunQ)
    decreases |s.tq|
  {
    if Due(s, now) {
      ExpireOrder(Ready(SetLast(s.(tq := s.tq[1..]), s.tq[0], 0), s.tq[0], false), now);
    }
  }

  /** Waking a whole queue puts its coroutines behind the run queue, in their order. */
  lemma {:induction false} WakesInOrder(s: Core, n: QName)
    requires Part(s) && n != RunQ && !n.RwQ?
    ensures Q(WakeAll(s, n), RunQ) == Q(s, RunQ) + Q(s, n) && Q(WakeAll(s, n), n) == []
    decreases |Q(s, n)|
  {
    if Q(s, n) != [] {
      WakeHeadPart(s, n);
      HeadRow(s, n);
      hide Part, WakeHead;
      WakesInOrder(WakeHead(s, n), n);
      assert Q(s, n) == [Q(s, n)[0]] + Q(s, n)[1..];
    }
  }

  lemma HeadRow(s: Core, n: QName)
    requires Part(s) && n != RunQ && !n.RwQ? && Q(s, n) != []
    ensures var h, t := Q(s, n)[0], WakeHead(s, n); Q(t, RunQ) == Q(s, RunQ) + [h] && Q(t, n) == Q(s, n)[1..]
  {
    hide NoDup, Timed;
    assert Q(s, n)[0] in Q(s, n);
  }

  /** The first k timers are due, and no other. */
  ghost predicate DueUpTo(s: Core, now: int, k: nat) {
    && k <= |s.tq|
    && (forall i | 0 <= i < k :: s.tq[i] in s.co && s.co[s.tq[i]].wakeAt <= now)
    && (forall i | k <= i < |s.tq| :: s.tq[i] in s.co && s.co[s.tq[i]].wakeAt > now)
  }

  /** The head of the timer list, woken by its deadline. */
  function HeadExpired(s: Core): Core
    requires s.tq != []
  {
    Ready(SetLast(s.(tq := s.tq[1..]), s.tq[0], 0), s.tq[0], false)
  }

  lemma HeadExpires(s: Core, now: int)
    requires Part(s) && Due(s, now)
    ensures var t := HeadExpired(s);
      && Part(t) && t.tq == s.tq[1..] && Q(t, RunQ) == Q(s, RunQ) + [s.tq[0]] && Expire(s, now) == Expire(t, now)
      && forall k: nat | DueUpTo(t, now, k) :: DueUpTo(s, now, k + 1)
  {
    FirstExpires(s, now);
    TimersIn(s);
    hide Part;
    var t := HeadExpired(s);
    forall k: nat | DueUpTo(t, now, k)
      ensures DueUpTo(s, now, k + 1)
    {
      assert forall i | 1 <= i < |s.tq| :: s.tq[i] == t.tq[i - 1];
    }
  }

  lemma OneMore(run: seq<nat>, l: seq<nat>, k: nat)
    requires k < |l|
    ensures run + [l[0]] + l[1..][..k] == run + l[..k + 1] && l[1..][k..] == l[k + 1..]
  {
  }

  /** Expiry puts the timers that are due behind the run queue, soonest first, and leaves the rest. */
  lemma {:induction false} ExpiresInOrder(s: Core, now: int) returns (k: nat)
    requires Part(s)
    ensures DueUpTo(s, now, k)
    ensures Expire(s, now).tq == s.tq[k..] && Q(Expire(s, now), RunQ) == Q(s, RunQ) + s.tq[..k]
    decreases |s.tq|
  {
    if Due(s, now) {
      HeadExpires(s, now);
      hide Part, HeadExpired, Expire, DueUpTo;
      k := ExpiresInOrder(HeadExpired(s), now);
      DueFits(HeadExpired(s), now, k);
      OneMore(Q(s, RunQ), s.tq, k);
      k := k + 1;
    } else {
      TimersIn(s);
      k := 0;
    }
  }

  lemma DueFits(s: Core, now: int, k: nat)
    requires DueUpTo(s, now, k)
    ensures k <= |s.tq|
  {
  }

  lemma TimersIn(s: Core)
    requires Part(s)
    ensures forall i | 0 <= i < |s.tq| :: s.tq[i] in s.co && s.co[s.tq[0]].wakeAt <= s.co[s.tq[i]].wakeAt
    ensures forall i | 1 <= i < |s.tq| :: s.tq[i] != s.tq[0]
  {
    hide Listed, Runs;
    assert forall i | 0 <= i < |s.tq| :: s.tq[i] in s.tq;
  }

  /** A wait queue is left by its head when it is woken, or by all of them together, and in no other way. */
  lemma LeavesBy(s: Core, m: Move, n: QName, c: nat)
    requires Part(s) && Allowed(s, m) && n != RunQ && c in Q(s, n)
    ensures c in Q(Made(s, m), n) || m == MWakeAll(n) || (m == MWakeHead(n) && c == Q(s, n)[0])
  {
    hide Part, TimerPlace;
    match m {
      case MWakeAll(k) =>
        if k != n {
          WakeAllOther(s, k, n);
        }
      case MExpire(now) => ExpireOther(s, now, n);
      case _ =>
    }
  }

  lemma {:induction false} WakeAllOther(s: Core, k: QName, n: QName)
    requires n != RunQ && n != k
    ensures Q(WakeAll(s, k), n) == Q(s, n)
    decreases |Q(s, k)|
  {
    if Q(s, k) != [] && k != RunQ {
      WakeAllOther(WakeHead(s, k), k, n);
    }
  }

  lemma {:induction false} ExpireOther(s: Core, now: int, n: QName)
    requires n != RunQ
    ensures Q(Expire(s, now), n) == Q(s, n)
    decreases |s.tq|
  {
    if Due(s, now) {
      ExpireOther(Ready(SetLast(s.(tq := s.tq[1..]), s.tq[0], 0), s.tq[0], false), now, n);
    }
  }

  // ----- deadlines

  /** Parked with this deadline on the timer list. */
  predicate Armed(s: Core, c: nat, at: int) { c in s.tq && Is(s, c, Parked) && s.co[c].wakeAt == at }

  /** Woken with this answer. */
  predicate Woken(s: Core, c: nat, last: int) { Is(s, c, Runnable) && s.co[c].last == last }

  /** Expiry ends exactly the parks whose deadlines have come, answers them 0, and leaves every other timer as it is. */
  lemma {:induction false} ExpireExact(s: Core, now: int, c: nat, at: int)
    requires Part(s) && Armed(s, c, at)
    ensures var t := Expire(s, now); if at <= now then Woken(t, c, 0) && c !in t.tq else Armed(t, c, at)
    decreases |s.tq|
  {
    hide Part;
    SoonestFirst(s, c);
    if Due(s, now) {
      var h := s.tq[0];
      var t := Ready(SetLast(s.(tq := s.tq[1..]), h, 0), h, false);
      FirstExpires(s, now);
      if h == c {
        ExpiredStays(t, now, c);
      } else {
        assert c in s.tq[1..];
        ExpireExact(t, now, c, at);
      }
    }
  }

  lemma SoonestFirst(s: Core, c: nat)
    requires Part(s) && c in s.tq
    ensures s.tq[0] in s.co && s.co[s.tq[0]].wakeAt <= s.co[c].wakeAt && c in s.co
  {
    hide Listed, Runs, NoDup;
  }

  lemma FirstExpires(s: Core, now: int)
    requires Part(s) && Due(s, now)
    ensures var h := s.tq[0];
      var t := Ready(SetLast(s.(tq := s.tq[1..]), h, 0), h, false);
      Part(t) && h !in t.tq
  {
    TimerHead(s);
    var h := s.tq[0];
    UntimeLists(s, h, 0);
    assert Remove(s.tq, h) == s.tq[1..];
    var u := SetLast(s.(tq := s.tq[1..]), h, 0);
    ReadyLists(u, h, false);
    RunsKept(s, Ready(u, h, false), h);
  }

  lemma {:induction false} ExpiredStays(s: Core, now: int, c: nat)
    requires Part(s) && Woken(s, c, 0) && c !in s.tq
    ensures Woken(Expire(s, now), c, 0) && c !in Expire(s, now).tq
    decreases |s.tq|
  {
    hide Part;
    if Due(s, now) {
      FirstExpires(s, now);
      ExpiredStays(Ready(SetLast(s.(tq := s.tq[1..]), s.tq[0], 0), s.tq[0], false), now, c);
    }
  }

  /** What a move makes of an armed park: an unpark ends it with 1, its deadline with 0, and nothing else touches it. */
  lemma ArmedMove(s: Core, m: Move, c: nat, at: int)
    requires Part(s) && Allowed(s, m) && Armed(s, c, at)
    ensures var t := Made(s, m);
      if m.MUnpark? && m.c == c then Woken(t, c, 1)
      else if m.MExpire? && at <= m.now then Woken(t, c, 0)
      else Armed(t, c, at)
  {
    NoQueue(s, c);
    hide Part;
    WokenHow(s, m, c);
    match m {
      case MExpire(now) => ExpireExact(s, now, c, at);
      case MUnpark(x, _) => RemoveOthers(s.tq, x);
      case MWakeAll(n) => WakeAllTimers(s, n);
      case MParkTimed(a) =>
      case _ =>
    }
  }

  lemma NoQueue(s: Core, c: nat)
    requires Part(s) && c in s.tq
    ensures forall n :: c !in Q(s, n)
  {
    hide NoDup, Listed;
  }

  lemma {:induction false} RemoveOthers(l: seq<nat>, x: nat)
    ensures forall c | c in l && c != x :: c in Remove(l, x)
  {
    if l != [] {
      RemoveOthers(l[1..], x);
    }
  }

  lemma {:induction false} WakeAllTimers(s: Core, n: QName)
    ensures WakeAll(s, n).tq == s.tq
    decreases |Q(s, n)|
  {
    if Q(s, n) != [] && n != RunQ {
      WakeAllTimers(WakeHead(s, n), n);
    }
  }

  /** A park with a deadline is armed with the deadline asked for, and nobody else's timer is touched. */
  lemma ParkTimedArms(s: Core, at: int)
    requires Part(s) && s.cur > 0
    ensures Armed(ParkTimed(s, at), s.cur, at)
    ensures forall c, a | Armed(s, c, a) :: Armed(ParkTimed(s, at), c, a)
  {
    RunningLoose(s);
    hide Part, TimerPlace;
  }

  // ----- moves in a row

  ghost predicate Leads(s: Core, ms: seq<Move>, t: Core)
    decreases |ms|
  {
    if ms == [] then t == s else Allowed(s, ms[0]) && Leads(Made(s, ms[0]), ms[1..], t)
  }

  lemma LeadsCons(s: Core, m: Move, rest: seq<Move>, t: Core)
    requires Allowed(s, m) && Leads(Made(s, m), rest, t)
    ensures Leads(s, [m] + rest, t)
  {
    hide Allowed, Made;
    assert ([m] + rest)[1..] == rest;
  }

  lemma {:induction false} LeadsOn(s: Core, ms: seq<Move>, t: Core, more: seq<Move>, u: Core)
    requires Leads(s, ms, t) && Leads(t, more, u)
    ensures Leads(s, ms + more, u)
    decreases |ms|
  {
    hide Allowed, Made;
    if ms == [] {
      assert ms + more == more;
    } else {
      LeadsOn(Made(s, ms[0]), ms[1..], t, more, u);
      hide Leads;
      LeadsCons(s, ms[0], ms[1..] + more, u);
      assert ms + more == [ms[0]] + (ms[1..] + more);
    }
  }

  lemma OneMove(s: Core, m: Move)
    requires Allowed(s, m)
    ensures Leads(s, [m], Made(s, m))
  {
    assert [m][1..] == [];
  }

  /** Nothing among these moves ends the park of c, armed for at. */
  ghost predicate Spares(ms: seq<Move>, c: nat, at: int) {
    forall m | m in ms :: !(m.MUnpark? && m.c == c) && (m.MExpire? ==> m.now < at)
  }

  lemma {:induction false} ArmedThrough(s: Core, ms: seq<Move>, t: Core, c: nat, at: int)
    requires Part(s) && Leads(s, ms, t) && Armed(s, c, at) && Spares(ms, c, at)
    ensures Armed(t, c, at)
    decreases |ms|
  {
    if ms != [] {
      hide Part, Allowed, Made;
      MovePart(s, ms[0]);
      ArmedMove(s, ms[0], c, at);
      ArmedThrough(Made(s, ms[0]), ms[1..], t, c, at);
    }
  }

  ghost predicate Leaves(ms: seq<Move>, n: QName) { MWakeAll(n) in ms || MWakeHead(n) in ms }

  lemma {:induction false} QueuedThrough(s: Core, ms: seq<Move>, t: Core, n: QName, c: nat)
    requires Part(s) && Leads(s, ms, t) && n != RunQ && c in Q(s, n) && !Leaves(ms, n)
    ensures c in Q(t, n)
    decreases |ms|
  {
    if ms != [] {
      hide Part, Allowed, Made;
      MovePart(s, ms[0]);
      LeavesBy(s, ms[0], n, c);
      QueuedThrough(Made(s, ms[0]), ms[1..], t, n, c);
    }
  }

  // ----- ends

  predicate Alive(s: Core, c: nat) { c in s.co && s.co[c].st != Ended }

  /** A coroutine ends by its own end and is gone only once freed; nothing else ends, frees or revives one. */
  lemma AliveMove(s: Core, m: Move, c: nat)
    requires Part(s) && Allowed(s, m)
    ensures var t := Made(s, m);
      && (Alive(s, c) ==> if m.MEnd? && c == s.cur then Is(t, c, Ended) else Alive(t, c))
      && (Is(s, c, Ended) ==> if m == MReap(c) then c !in t.co else Is(t, c, Ended))
      && (c !in s.co ==> if m == MSpawn(c) then Alive(t, c) else c !in t.co)
  {
    if s.cur > 0 {
      RunningLoose(s);
    }
    hide Part, Loose, TimerPlace;
    match m {
      case MWakeHead(n) => HeadParked(s, n);
      case MWakeAll(n) => WakeAllLives(s, n, c);
      case MExpire(now) => ExpireLives(s, now, c);
      case MPick(k) => PickedRunnable(s, k);
      case _ =>
    }
  }

  lemma PickedRunnable(s: Core, k: nat)
    requires Part(s) && k < |Q(s, RunQ)|
    ensures Is(s, Q(s, RunQ)[k], Runnable)
  {
    hide NoDup, Timed;
    assert Q(s, RunQ)[k] in Q(s, RunQ);
  }

  lemma {:induction false} WakeAllLives(s: Core, n: QName, c: nat)
    requires Part(s)
    ensures var t := WakeAll(s, n); (Alive(s, c) <==> Alive(t, c)) && (Is(s, c, Ended) <==> Is(t, c, Ended))
    decreases |Q(s, n)|
  {
    if Q(s, n) != [] && n != RunQ {
      WakeHeadPart(s, n);
      HeadParked(s, n);
      hide Part;
      WakeAllLives(WakeHead(s, n), n, c);
    }
  }

  lemma HeadParked(s: Core, n: QName)
    requires Part(s) && Q(s, n) != [] && n != RunQ
    ensures Q(s, n)[0] == MAIN || Is(s, Q(s, n)[0], Parked)
  {
    hide NoDup, Timed;
    assert Q(s, n)[0] in Q(s, n);
  }

  lemma {:induction false} ExpireLives(s: Core, now: int, c: nat)
    requires Part(s)
    ensures var t := Expire(s, now); (Alive(s, c) <==> Alive(t, c)) && (Is(s, c, Ended) <==> Is(t, c, Ended))
    decreases |s.tq|
  {
    if Due(s, now) {
      FirstExpires(s, now);
      TimerHead(s);
      hide Part;
      ExpireLives(Ready(SetLast(s.(tq := s.tq[1..]), s.tq[0], 0), s.tq[0], false), now, c);
    }
  }

  lemma {:induction false} LivesThrough(s: Core, ms: seq<Move>, t: Core, c: nat)
    requires Part(s) && Leads(s, ms, t) && MEnd !in ms
    ensures Alive(s, c) ==> Alive(t, c)
    ensures Is(s, c, Ended) && MReap(c) !in ms ==> Is(t, c, Ended)
    ensures Is(t, c, Ended) ==> Is(s, c, Ended)
    decreases |ms|
  {
    if ms != [] {
      hide Part, Allowed, Made;
      MovePart(s, ms[0]);
      AliveMove(s, ms[0], c);
      LivesThrough(Made(s, ms[0]), ms[1..], t, c);
    }
  }

  /** Nobody comes to a wait queue but by a park on it, or main by waiting there. */
  lemma EmptyMove(s: Core, m: Move, n: QName)
    requires Part(s) && Allowed(s, m) && n != RunQ && Q(s, n) == []
    ensures Q(Made(s, m), n) == [] || (m.MParkOn? && m.n == n) || (m.MMainWaits? && n == RwQ(m.r))
  {
    hide Part, TimerPlace;
    match m {
      case MWakeAll(k) =>
        if k != n {
          WakeAllOther(s, k, n);
        }
      case MExpire(now) => ExpireOther(s, now, n);
      case _ =>
    }
  }

  ghost predicate Joins(ms: seq<Move>, n: QName) {
    exists m :: m in ms && ((m.MParkOn? && m.n == n) || (m.MMainWaits? && n == RwQ(m.r)))
  }

  lemma {:induction false} EmptyThrough(s: Core, ms: seq<Move>, t: Core, n: QName)
    requires Part(s) && Leads(s, ms, t) && n != RunQ && Q(s, n) == [] && !Joins(ms, n)
    ensures Q(t, n) == []
    decreases |ms|
  {
    if ms != [] {
      hide Part, Allowed, Made;
      MovePart(s, ms[0]);
      assert ms[0] in ms;
      EmptyMove(s, ms[0], n);
      assert forall m | m in ms[1..] :: m in ms;
      EmptyThrough(Made(s, ms[0]), ms[1..], t, n);
    }
  }
}
