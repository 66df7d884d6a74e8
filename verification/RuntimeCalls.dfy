/**
 unikernel/runtime_bare.c: the calls on the runtime's own fields. Each method does what the
 machine's step does, and so keeps what the machine's steps keep.
 */
module RuntimeCalls {
  import opened Options
  import opened SchedCore
  import opened SchedLinks
  import opened Runtime
  import opened RuntimeSteps
  import opened RuntimeRuns
  import RwLock

  lemma InvLists(s: State)
    requires Inv(s)
    ensures Lists(s.core) && Apart(s.core) && Part(s.core)
  {
    hide AtHome, Wakened, RwLinked, Joined, Timed;
    ListedApart(s.core);
  }

  /** Everyone on a wait queue is a coroutine, or main's node. */
  lemma InvQueued(s: State, n: QName)
    requires Inv(s) && n != RunQ
    ensures forall x | x in Q(s.core, n) :: x == MAIN || x in s.core.co
    ensures !n.RwQ? ==> forall x | x in Q(s.core, n) :: x > MAIN
  {
    hide AtHome, Wakened, RwLinked, Joined, Timed;
    forall x | x in Q(s.core, n)
      ensures (x == MAIN && n.RwQ?) || (x in s.core.co && x > MAIN)
    {
      assert (x == MAIN && n.RwQ?) || Is(s.core, x, Parked);
    }
  }

  function StepTo(s: State, first: int, now: int, pick: nat): State
    requires Q(s.core, RunQ) != [] ==> pick < |Q(s.core, RunQ)|
  {
    s.(core := Scheduled(s.core, first, now, pick).0)
  }

  class Bare {
    const sched: Sched
    var pc: map<nat, Pc>
    var main: MainPc
    var locked: set<nat>
    var seqs: map<nat, nat>
    var joinable: set<nat>
    var fibers: set<nat>
    ghost var handles: set<nat>
    ghost var rw: map<nat, RwLock.Rw>

    /** The machine's state these fields stand for. */
    ghost function Abs(): State
      reads this, sched
    {
      State(sched.core, pc, main, locked, rw, seqs, joinable, handles, fibers)
    }

    ghost predicate Valid()
      reads this, sched
    {
      sched.Linked() && Inv(Abs())
    }

    constructor ()
      ensures Valid() && Abs() == BOOT && fresh(sched)
    {
      sched := new Sched();
      pc, main, locked, seqs, joinable, fibers, handles, rw := map[], Free, {}, map[], {}, {}, {}, map[];
      new;
      BootInv();
    }

    /** nurl__bare_mutex_release */
    method MutexRelease(m: nat)
      requires Valid()
      modifies this`locked, sched
      ensures Valid() && Abs() == Release(old(Abs()), m)
    {
      hide Inv;
      InvLists(Abs());
      InvQueued(Abs(), MutexQ(m));
      ReleaseInv(Abs(), m);
      locked := locked - {m};
      var w := sched.WakeOne(MutexQ(m));
    }

    /** pthread_mutex_lock, from a test of the mutex to its taking or to the next switch. */
    method MutexLock(m: nat)
      requires Valid()
      requires sched.cur > 0 ==> sched.cur in pc && (pc[sched.cur] == Body || pc[sched.cur] == InLock(m) || pc[sched.cur].InCond?)
      requires sched.cur == 0 ==> main == Free || main == Driving(ForMutex(m)) || (main.Driving? && main.goal.ForCond?)
      modifies this`pc, this`main, this`locked, sched
      ensures Valid() && Abs() == LockTest(old(Abs()), m)
    {
      hide Inv;
      InvLists(Abs());
      LockTestInv(Abs(), m);
      if sched.cur > 0 {
        if m in locked {
          pc := pc[sched.cur := InLock(m)];
          sched.ParkOn(MutexQ(m));
        } else {
          locked := locked + {m};
          pc := pc[sched.cur := Body];
        }
      } else if m in locked {
        main := Driving(ForMutex(m));
      } else {
        locked := locked + {m};
        main := Free;
      }
    }

    /** pthread_cond_wait up to the switch: queue, park, then release the mutex. */
    method CondWait(c: nat, m: nat)
      requires Valid() && (if sched.cur > 0 then sched.cur in pc && pc[sched.cur] == Body else main == Free)
      modifies this`pc, this`main, this`locked, sched
      ensures Valid() && Abs() == Call(old(Abs()), Runtime.CondWait(c, m))
    {
      hide Inv, Release, Threaded, Chain, Part, Lists, Apart;
      InvLists(Abs());
      ghost var s := Abs();
      if sched.cur > 0 {
        ParkAtInv(s, CondQ(c), false, InCond(c, m));
        pc := pc[sched.cur := InCond(c, m)];
        sched.ParkOn(CondQ(c));
      } else {
        main := Driving(ForCond(c, if c in seqs then seqs[c] else 0, m));
        MainInv(s, Abs());
      }
      MutexRelease(m);
    }

    /** pthread_cond_signal */
    method CondSignal(c: nat)
      requires Valid()
      modifies this`seqs, sched
      ensures Valid() && Abs() == Call(old(Abs()), Signal(c))
    {
      hide Inv;
      InvLists(Abs());
      InvQueued(Abs(), CondQ(c));
      SignalInv(Abs(), c);
      var w := sched.WakeOne(CondQ(c));
      if w == 0 {
        BumpSeq(c);
      }
    }

    /** A signal nobody queued for is counted for a waiting main. */
    method BumpSeq(c: nat)
      modifies this`seqs
      ensures Abs() == Bump(old(Abs()), c)
    {
      if main.Driving? && main.goal.ForCond? && main.goal.c == c {
        seqs := seqs[c := (if c in seqs then seqs[c] else 0) + 1];
      }
    }

    /** pthread_cond_broadcast */
    method CondBroadcast(c: nat)
      requires Valid()
      modifies this`seqs, sched
      ensures Valid() && Abs() == Call(old(Abs()), Broadcast(c))
    {
      hide Inv;
      InvLists(Abs());
      InvQueued(Abs(), CondQ(c));
      SignalInv(Abs(), c);
      hide Bump, WakeAll;
      sched.WakeEvery(CondQ(c));
      BumpSeq(c);
    }

    /** nurl_fiber_unpark and nurl_bare_unpark_admit */
    method Unpark(c: nat, front: bool)
      requires Valid() && (Is(sched.core, c, Parked) ==> c in pc && pc[c] == InPark)
      modifies sched
      ensures Valid() && Abs() == Call(old(Abs()), Unparking(c, front))
    {
      hide Inv;
      InvLists(Abs());
      if Is(sched.core, c, Parked) {
        ParkedNowhere(Abs(), c);
      }
      UnparkInv(Abs(), c, front);
      sched.Unpark(c, front);
    }

    /** nurl_fiber_wake: 1 woken, 0 no longer parked, and then nothing is banked. */
    method FiberWake(c: nat) returns (r: bool)
      requires Valid() && (Is(sched.core, c, Parked) ==> c in pc && pc[c] == InPark)
      modifies sched
      ensures Valid() && Abs() == Call(old(Abs()), Waking(c))
      ensures r == Wake(old(sched.core), c).1
    {
      hide Inv;
      if c !in sched.co || sched.co[c].st != Parked {
        return false;
      }
      Unpark(c, false);
      return true;
    }

    // ----- coroutines come and go

    /** pthread_create and the fiber calls: the new coroutine runs when somebody blocks. */
    method Spawn(c: nat, join: bool, fiber: bool)
      requires Valid() && c > MAIN && c !in sched.co
      modifies this`pc, this`joinable, this`handles, this`fibers, sched
      ensures Valid() && Abs() == Call(old(Abs()), Spawning(c, join, fiber))
    {
      hide Inv;
      InvLists(Abs());
      SpawnInv(Abs(), c, join, fiber);
      StrangerNowhere(Abs(), c);
      pc := pc[c := Body];
      if join {
        joinable, handles := joinable + {c}, handles + {c};
      }
      if fiber {
        fibers := fibers + {c};
      }
      sched.Spawn(c);
    }

    /** nb_coro_free: the stack, the records and the coroutine go. */
    method FreeCoro(t: nat)
      requires sched.Linked()
      modifies this`pc, this`joinable, this`handles, sched
      ensures sched.Linked() && Abs() == ReapIt(old(Abs()), t)
    {
      pc, joinable, handles := pc - {t}, joinable - {t}, handles - {t};
      sched.Reap(t);
    }

    /** nb_join up to the switch: an ended coroutine is freed at once, else the joiner goes on its list. */
    method Join(t: nat)
      requires Valid() && (if sched.cur > 0 then sched.cur in pc && pc[sched.cur] == Body else main == Free)
      requires Asked(Abs(), Op.Join(t))
      modifies this`pc, this`main, this`joinable, this`handles, sched
      ensures Valid() && Abs() == Call(old(Abs()), Op.Join(t))
    {
      hide Inv, ReapIt;
      InvLists(Abs());
      JoinInv(Abs(), t);
      if t in sched.co && sched.co[t].st == Ended {
        FreeCoro(t);
        return;
      }
      handles := handles - {t};
      if sched.cur > 0 {
        pc := pc[sched.cur := InJoin(t)];
        sched.ParkOn(JoinQ(t));
      } else {
        main := Driving(ForEnd(t));
      }
    }

    /** nb_detach */
    method Detach(t: nat)
      requires Valid() && t in handles
      modifies this`pc, this`joinable, this`handles, sched
      ensures Valid() && Abs() == Call(old(Abs()), Op.Detach(t))
    {
      hide Inv, ReapIt;
      DetachBody(Abs(), t);
      if t in sched.co && sched.co[t].st == Ended {
        FreeCoro(t);
      } else {
        joinable, handles := joinable - {t}, handles - {t};
      }
    }

    /** What follows the switch back from a coroutine that ended: joiners, the drain waiters, the coroutine itself. */
    method Finish()
      requires Valid() && sched.cur > 0 && sched.cur in pc && pc[sched.cur] == Body
      modifies this`pc, this`joinable, this`handles, this`fibers, sched
      ensures Valid() && Abs() == Runtime.Finish(old(Abs()))
    {
      hide Inv, ReapIt, WakeAll;
      ghost var s := Abs();
      var c := sched.cur;
      CurIn(s);
      InvLists(s);
      InvQueued(s, JoinQ(c));
      FinishInv(s);
      sched.End();
      sched.WakeList(JoinQ(c));
      var was := c in fibers;
      fibers := fibers - {c};
      EndedInv(s, Abs());
      if was && fibers == {} {
        InvLists(Abs());
        InvQueued(Abs(), Drain);
        sched.WakeList(Drain);
      }
      if c !in joinable {
        FreeCoro(c);
      }
    }

    /** One turn of nb_drive_until: a step of the scheduler, which makes none exactly when the runtime is deadlocked. */
    method Turn(first: int, read: int, slept: int, pick: nat) returns (more: bool)
      requires Valid() && sched.cur == 0 && main.Driving? && !Met(Abs(), main.goal)
      requires Q(sched.core, RunQ) != [] ==> pick < |Q(sched.core, RunQ)|
      requires first <= read && Slept(sched.core, read, slept, -1)
      modifies sched
      ensures Valid() && Abs() == StepTo(old(Abs()), first, LastReading(old(sched.core), read, slept), pick)
      ensures more <==> !Deadlocked(old(Abs()))
    {
      hide Inv, Scheduled, Met;
      ghost var s := Abs();
      InvLists(s);
      var ran, wait;
      ghost var now := LastReading(sched.core, read, slept);
      more, ran, wait := sched.StepBounded(-1, first, read, slept, pick);
      StepsInv(s, first, now, pick);
      assert Abs() == StepTo(s, first, now, pick);
    }

    /** nurl_runtime_run up to the switch. */
    method RuntimeRun()
      requires Valid() && (if sched.cur > 0 then sched.cur in pc && pc[sched.cur] == Body else main == Free)
      modifies this`pc, this`main, sched
      ensures Valid() && Abs() == Call(old(Abs()), Draining)
    {
      hide Inv;
      InvLists(Abs());
      DrainBody(Abs());
      if sched.cur > 0 {
        if fibers != {} {
          pc := pc[sched.cur := InDrain];
          sched.ParkOn(Drain);
        }
      } else {
        main := Driving(ForAll);
      }
    }

    // ----- parking

    /**
     nurl_fiber_park_with_mutex_ms, and nurl_bare_park_ms with no mutex, up to the switch: -1 from main, 1 with a
     permit, and no answer yet from who sleeps.
     */
    method Park(at: Option<int>, hand: Option<nat>) returns (answer: Option<int>)
      requires Valid() && (if sched.cur > 0 then sched.cur in pc && pc[sched.cur] == Body else main == Free)
      modifies this`pc, this`locked, sched
      ensures Valid() && Abs() == ParkCall(old(Abs()), at, hand)
      ensures answer == if old(sched.cur) == 0 then Some(-1) else if old(sched.co[sched.cur].permit) then Some(1) else None
    {
      if sched.cur == 0 {
        return Some(-1);
      }
      hide Inv, Release;
      InvLists(Abs());
      ghost var s := Abs();
      var c := sched.cur;
      CurIn(s);
      if sched.co[c].permit {
        PermitInv(s);
        sched.SpendPermit();
        if hand.Some? {
          MutexRelease(hand.value);
        }
        return Some(1);
      }
      LastInv(s, c, 0);
      sched.SetLastResult(c, 0);
      ghost var u := Abs();
      InvLists(u);
      pc := pc[c := InPark];
      sched.ParkTimer(at);
      SleepInv(u, Abs());
      if hand.Some? {
        MutexRelease(hand.value);
      }
      return None;
    }

    /** The rest of a park once its coroutine runs again: the deadline is off the timer list already, and the answer is returned. */
    method ParkReturns(timed: bool) returns (r: int)
      requires Valid() && sched.cur > 0 && sched.cur in pc && pc[sched.cur] == InPark
      modifies this`pc, sched
      ensures Valid() && Abs() == Resume(old(Abs())) && r == old(sched.co)[old(sched.cur)].last
    {
      hide Inv;
      var c := sched.cur;
      CurIn(Abs());
      InvLists(Abs());
      ResumeInv(Abs());
      if timed {
        OffTimers(Abs(), c);
        sched.TimerRemove(c);
      }
      pc := pc[c := Body];
      r := sched.co[c].last;
    }
  }

  lemma CurIn(s: State)
    requires Inv(s) && s.core.cur > 0
    ensures s.core.cur in s.core.co && s.core.cur !in s.core.tq && s.core.cur > MAIN
  {
    hide AtHome, Wakened, RwLinked, Joined;
    RunnerFacts(s.core);
  }

  /** A coroutine that is not there is on no list. */
  lemma StrangerNowhere(s: State, c: nat)
    requires Inv(s) && c > MAIN && c !in s.core.co
    ensures Nowhere(s.core, c) && c !in s.core.tq
  {
    hide AtHome, Wakened, RwLinked, Joined, NoDup;
    assert forall n, x | x in Q(s.core, n) :: x == MAIN || x in s.core.co;
    assert forall x | x in s.core.tq :: x in s.core.co;
  }

  lemma OffTimers(s: State, c: nat)
    requires Inv(s) && c !in s.core.tq
    ensures NoDup(s.core.tq) && s.core.(tq := Remove(s.core.tq, c)) == s.core
  {
    hide AtHome, Wakened, RwLinked, Joined;
    RemoveNone(s.core.tq, c);
  }
}
