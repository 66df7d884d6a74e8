/**
 unikernel/runtime_bare.c: what each call has when it returns. A lock call returns holding the mutex and
 only then, a join when the coroutine has ended, a drain when no fiber is left, an rwlock wait as a holder.
 */
module RuntimeLocks {
  import opened Options
  import opened SchedCore
  import opened SchedMoves
  import opened Runtime
  import opened RuntimeSteps
  import opened RuntimeRuns
  import opened RuntimeMoves
  import RwLock

  /** The caller is back in its own code: running in its body, or main free. */
  predicate Back(s: State, t: State) {
    if s.core.cur > 0 then
      t.core.cur == s.core.cur && Is(t.core, s.core.cur, Running) && s.core.cur in t.pc && t.pc[s.core.cur] == Body
    else t.main == Free
  }

  // ----- mutexes

  /** pthread_mutex_lock returns exactly when the mutex was free, and then holds it; else its caller sleeps last in the queue, or main drives. */
  lemma AcquireExact(s: State, e: Event, m: nat)
    requires Inv(s) && Enabled(s, e) && Asks(s, e, m)
    ensures var t, c := Next(s, e), s.core.cur;
      if m !in s.locked then Back(s, t) && t.locked == s.locked + {m}
      else
        && !Back(s, t) && t.locked == s.locked
        && (c > 0 ==> Is(t.core, c, Parked) && t.pc[c] == InLock(m) && Q(t.core, MutexQ(m)) == Q(s.core, MutexQ(m)) + [c])
        && (c == 0 ==> t.main == Driving(ForMutex(m)) && t.core == s.core)
  {
    hide AtHome, Wakened, RwLinked, Joined, Part;
    PartOf(s);
    if s.core.cur > 0 {
      RunnerFacts(s.core);
    }
  }

  /** pthread_mutex_trylock takes the mutex when it is free, and returns either way. */
  lemma TryLockExact(s: State, m: nat)
    requires Inv(s) && Enabled(s, Calls(TryLock(m)))
    ensures var t := Next(s, Calls(TryLock(m))); Back(s, t) && t.locked == s.locked + {m} && t.core == s.core
  {
    hide AtHome, Wakened, RwLinked, Joined, Part;
    PartOf(s);
    if s.core.cur > 0 {
      RunnerFacts(s.core);
    }
  }

  /** The step takes mutex m for its caller. */
  ghost predicate Takes(s: State, e: Event, m: nat)
    requires Enabled(s, e)
  {
    (Asks(s, e, m) && Back(s, Next(s, e))) || (e == Calls(TryLock(m)) && m !in s.locked)
  }

  lemma ReapLocks(s: State, t: nat)
    ensures ReapIt(s, t).locked == s.locked
  {
  }

  lemma FinishLocks(s: State)
    ensures Finish(s).locked == s.locked
  {
    hide WakeAll, End, Reap;
  }

  lemma CallLocks(s: State, o: Op, m: nat)
    ensures m in Call(s, o).locked && m !in s.locked ==> o == Lock(m) || o == TryLock(m)
    ensures m in s.locked && m !in Call(s, o).locked ==> Frees(Calls(o), m)
  {
    hide WakeHead, WakeAll, ParkOn, ParkTimed, ParkBare, Unpark, Yield, Finish, ReapIt, SchedCore.Spawn, SetLast,
      TakePermit, WakeN, RwLock.Do, MainWaits;
    FinishLocks(s);
    match o {
      case Join(t) => ReapLocks(s, t);
      case Detach(t) => ReapLocks(s, t);
      case _ =>
    }
  }

  /** No other step takes m, and none but the releasing calls frees it. */
  lemma LocksChange(s: State, e: Event, m: nat)
    requires Inv(s) && Enabled(s, e)
    ensures m !in s.locked && m in Next(s, e).locked ==> Takes(s, e, m)
    ensures m in s.locked && m !in Next(s, e).locked ==> Frees(e, m)
  {
    hide Inv, Call, ReapIt, ParkOn, ParkBare, Scheduled, RwLock.Do, Back, Frees;
    match e {
      case Calls(o) => CallLocks(s, o, m);
      case Resumes =>
        match s.pc[s.core.cur] {
          case InJoin(t) => ReapLocks(s, t);
          case _ =>
        }
      case MainOn =>
        match s.main.goal {
          case ForEnd(t) => ReapLocks(s, t);
          case _ =>
        }
      case Steps(_, _, _) =>
    }
    if Asks(s, e, m) {
      AcquireExact(s, e, m);
    }
  }

  lemma ReleaseWakes(u: State, m: nat)
    requires Part(u.core)
    ensures var t, l := Release(u, m), Q(u.core, MutexQ(m));
      && t.locked == u.locked - {m}
      && if l == [] then t.core == u.core else Is(t.core, l[0], Runnable) && Q(t.core, MutexQ(m)) == l[1..]
  {
    hide Part, WakeHead;
    if Q(u.core, MutexQ(m)) != [] {
      WakeHeadFacts(u.core, MutexQ(m));
      HeadParked(u.core, MutexQ(m));
      MainElsewhere(u.core, m);
    }
  }

  lemma MainElsewhere(s: Core, m: nat)
    requires Part(s)
    ensures MAIN !in Q(s, MutexQ(m))
  {
    hide NoDup, Timed;
  }

  /** A releasing call, but for a park by main, which does nothing, frees that mutex alone and wakes who has waited for it longest. */
  lemma ReleaseExact(s: State, e: Event, m: nat)
    requires Inv(s) && Enabled(s, e) && Frees(e, m) && (s.core.cur > 0 || !e.o.Park?)
    ensures var t, l := Next(s, e), Q(s.core, MutexQ(m));
      t.locked == s.locked - {m} && (l != [] ==> Is(t.core, l[0], Runnable) && Q(t.core, MutexQ(m)) == l[1..])
  {
    hide Inv, Part, Release, ParkOn, ParkTimed, ParkBare, TakePermit, SetLast;
    PartOf(s);
    var c := s.core.cur;
    match e.o {
      case CondWait(n, _) =>
        var u := if c > 0 then ParkAt(s, CondQ(n), false, InCond(n, m)) else s.(main := Driving(ForCond(n, SeqOf(s, n), m)));
        if c > 0 {
          ParkOnPart(s.core, CondQ(n), false);
          Elsewhere(s.core, CondQ(n), m);
        }
        ReleaseWakes(u, m);
      case Park(at, _) =>
        RunnerFacts(s.core);
        if s.core.co[c].permit {
          TakePart(s.core);
          Spent(s.core, m);
          ReleaseWakes(s.(core := TakePermit(s.core)), m);
        } else {
          var core := SetLast(s.core, c, 0);
          ForgetPart(s.core);
          Forgets(s.core, c);
          var u := s.(core := if at.Some? then ParkTimed(core, at.value) else ParkBare(core), pc := s.pc[c := InPark]);
          if at.Some? {
            ParkTimedPart(core, at.value);
          } else {
            ParkBarePart(core);
          }
          Asleep(s.core, at, m);
          ReleaseWakes(u, m);
        }
      case _ => ReleaseWakes(s, m);
    }
  }

  lemma Elsewhere(s: Core, n: QName, m: nat)
    requires n.CondQ?
    ensures Q(ParkOn(s, n, false), MutexQ(m)) == Q(s, MutexQ(m))
  {
  }

  lemma Spent(s: Core, m: nat)
    ensures Q(TakePermit(s), MutexQ(m)) == Q(s, MutexQ(m))
  {
  }

  lemma Asleep(s: Core, at: Option<int>, m: nat)
    ensures var core := SetLast(s, s.cur, 0);
      Q(if at.Some? then ParkTimed(core, at.value) else ParkBare(core), MutexQ(m)) == Q(s, MutexQ(m))
  {
    hide TimerPlace;
  }

  // ----- over runs

  lemma {:induction false} RunAt(ss: seq<State>, es: seq<Event>, k: nat)
    requires RunsFrom(ss, es) && Inv(ss[0]) && k <= |es|
    ensures Inv(ss[k]) && (k < |es| ==> Enabled(ss[k], es[k]) && ss[k + 1] == Next(ss[k], es[k]))
    decreases |es|
  {
    if es != [] {
      hide Inv, Enabled, Next;
      var n := |es| - 1;
      RunAt(ss[..n + 1], es[..n], if k < n then k else n);
      if k == n + 1 {
        RunAt(ss[..n + 1], es[..n], n);
        StepInv(ss[n], es[n]);
      }
    }
  }

  /** A mutex that is held stays held until a releasing call. */
  lemma {:induction false} HeldThrough(ss: seq<State>, es: seq<Event>, i: nat, j: nat, m: nat)
    requires RunsFrom(ss, es) && Inv(ss[0]) && i <= j <= |es| && m in ss[i].locked
    requires forall k | i <= k < j :: !Frees(es[k], m)
    ensures m in ss[j].locked
    decreases j
  {
    if i < j {
      hide Inv, Enabled, Next, Frees;
      HeldThrough(ss, es, i, j - 1, m);
      RunAt(ss, es, j - 1);
      LocksChange(ss[j - 1], es[j - 1], m);
    }
  }

  ghost predicate TakesAt(ss: seq<State>, es: seq<Event>, i: nat, m: nat) {
    i < |es| && i < |ss| && Enabled(ss[i], es[i]) && Takes(ss[i], es[i], m)
  }

  /** Mutual exclusion, over every run and schedule: between two steps that take a mutex there is one that releases it. */
  lemma MutexExcludes(ss: seq<State>, es: seq<Event>, i: nat, j: nat, m: nat) returns (k: nat)
    requires RunsFrom(ss, es) && Inv(ss[0]) && i < j && TakesAt(ss, es, i, m) && TakesAt(ss, es, j, m)
    ensures i < k < j && Frees(es[k], m)
  {
    hide Inv, Enabled, Next, Frees, Asks, Back;
    RunAt(ss, es, i);
    RunAt(ss, es, j);
    TakenLocked(ss[i], es[i], m);
    TakenLocked(ss[j], es[j], m);
    if forall k | i < k < j :: !Frees(es[k], m) {
      HeldThrough(ss, es, i + 1, j, m);
      assert false;
    }
    k :| i < k < j && Frees(es[k], m);
  }

  lemma TakenLocked(s: State, e: Event, m: nat)
    requires Inv(s) && Enabled(s, e) && Takes(s, e, m)
    ensures m !in s.locked && m in Next(s, e).locked
  {
    hide Inv, Next, Back;
    if e == Calls(TryLock(m)) {
      TryLockExact(s, m);
    } else {
      AcquireExact(s, e, m);
    }
  }

  /** From boot: a mutex that is held was taken by some step, and has not been released since. */
  lemma {:induction false} HeldByTaker(ss: seq<State>, es: seq<Event>, m: nat) returns (i: nat)
    requires RunsFrom(ss, es) && ss[0] == BOOT && m in ss[|es|].locked
    ensures TakesAt(ss, es, i, m) && forall k | i < k < |es| :: m in ss[k].locked
    decreases |es|
  {
    hide Inv, Enabled, Next, Takes;
    BootInv();
    i := 0;
    if es == [] {
      assert false;
    } else {
      var n := |es| - 1;
      RunAt(ss, es, n);
      if m in ss[n].locked {
        i := HeldByTaker(ss[..n + 1], es[..n], m);
      } else {
        LocksChange(ss[n], es[n], m);
        i := n;
      }
    }
  }

  // ----- joins, drains, rwlock waits

  /** nb_join returns at once exactly when the coroutine has ended; else its caller waits on the coroutine. */
  lemma JoinExact(s: State, t: nat)
    requires Inv(s) && Enabled(s, Calls(Join(t)))
    ensures var u, c := Next(s, Calls(Join(t))), s.core.cur;
      if Is(s.core, t, Ended) then Back(s, u) && t !in u.core.co
      else
        && !Back(s, u) && (c > 0 ==> Is(u.core, c, Parked) && c in Q(u.core, JoinQ(t)) && u.pc[c] == InJoin(t))
        && (c == 0 ==> u.main == Driving(ForEnd(t)))
  {
    hide AtHome, Wakened, RwLinked, Joined, Part;
    PartOf(s);
    if s.core.cur > 0 {
      RunnerFacts(s.core);
    }
  }

  /** And a joiner that runs again finds the coroutine ended, frees it and returns. */
  lemma JoinReturns(s: State, t: nat)
    requires Inv(s) && Enabled(s, Resumes) && s.pc[s.core.cur] == InJoin(t)
    ensures Is(s.core, t, Ended) && Back(s, Next(s, Resumes)) && t !in Next(s, Resumes).core.co
  {
    JoinedEnded(s, t);
    PartOf(s);
    hide AtHome, Wakened, RwLinked, Joined, Part;
    RunnerFacts(s.core);
  }

  /** nurl_runtime_run returns to a coroutine exactly when no fiber is left. */
  lemma DrainExact(s: State, e: Event)
    requires Inv(s) && Enabled(s, e) && s.core.cur > 0 && (e == Calls(Draining) || (e == Resumes && s.pc[s.core.cur] == InDrain))
    ensures var t := Next(s, e);
      if s.fibers == {} then Back(s, t) else Is(t.core, s.core.cur, Parked) && s.core.cur in Q(t.core, Drain)
  {
    hide AtHome, Wakened, RwLinked, Joined, Part;
    PartOf(s);
    RunnerFacts(s.core);
  }

  /** A coroutine that runs again inside rdlock or wrlock returns, and its hold is recorded. */
  lemma RwReturns(s: State, r: nat)
    requires Inv(s) && Enabled(s, Resumes) && s.pc[s.core.cur] == InRw(r)
    ensures var t := Next(s, Resumes);
      && Back(s, t) && s.core.cur !in LockAt(t, r).granted
      && if LockAt(s, r).granted[s.core.cur] then LockAt(t, r).writer == Some(s.core.cur) else s.core.cur in LockAt(t, r).entries
  {
    RunnerGranted(s, r);
    PartOf(s);
    hide AtHome, Wakened, RwLinked, Joined, Part;
    RunnerFacts(s.core);
  }

  // ----- main's wait on a condition

  /** What main watches moves only by a signal or a broadcast on that condition. */
  lemma WatchMoves(s: State, e: Event, c: nat)
    requires Enabled(s, e) && SeqOf(Next(s, e), c) != SeqOf(s, c)
    ensures e == Calls(Signal(c)) || e == Calls(Broadcast(c))
  {
    hide WakeHead, WakeAll, ParkOn, ParkTimed, ParkBare, Unpark, Yield, SchedCore.Spawn, SetLast, TakePermit, WakeN,
      RwLock.Do, MainWaits, End, Reap, Scheduled, Asked, Met;
  }

  /** A signal nobody is queued for reaches a main that waits, and a broadcast always does. */
  lemma SignalMain(s: State, c: nat, seen: nat, m: nat)
    requires s.main == Driving(ForCond(c, seen, m)) && SeqOf(s, c) == seen
    ensures Q(s.core, CondQ(c)) == [] ==> Met(Call(s, Signal(c)), s.main.goal)
    ensures Met(Call(s, Broadcast(c)), s.main.goal)
  {
    hide WakeHead, WakeAll;
  }

  /** Main inside a condition's wait or a drain goes on no sooner than a signal has come, or every coroutine has ended. */
  lemma MainDrives(s: State, o: Op)
    requires s.core.cur == 0 && (o.CondWait? || o.Draining?)
    ensures var t := Call(s, o);
      && t.main.Driving? && !Back(s, t)
      && (o.CondWait? ==> t.main.goal.ForCond? && t.main.goal.c == o.c && t.main.goal.m == o.m && !Met(t, t.main.goal))
      && (o.Draining? ==> t.core == s.core && (Met(t, t.main.goal) <==> forall c | c in s.core.co :: Is(s.core, c, Ended)))
  {
    hide WakeHead;
  }
}
