/**
 unikernel/runtime_bare.c: joining, ending and parking keep the invariant too, so every run does;
 and what that says about deadlock, wakeups and handoffs.
 */
module RuntimeRuns {
  import opened Options
  import opened SchedCore
  import opened Runtime
  import opened RuntimeSteps
  import RwLock

  // ----- coroutines come and go

  lemma ReapHome(s: State, u: State, t: nat)
    requires AtHome(s) && Is(s.core, t, Ended) && Listed(s.core) && u.core == Reap(s.core, t)
    requires u.pc.Keys == s.pc.Keys - {t} && (forall x | x in u.pc && Is(s.core, x, Parked) :: u.pc[x] == s.pc[x])
    ensures AtHome(u)
  {
    assert forall n :: Q(u.core, n) == Q(s.core, n);
    forall n, x | n != RunQ && x != MAIN
      ensures HomeAt(u, n, x)
    {
      assert HomeAt(s, n, x);
    }
  }

  lemma ReapWakened(s: State, u: State, t: nat)
    requires Wakened(s) && Is(s.core, t, Ended) && u.core == Reap(s.core, t) && u.locked == s.locked
    requires forall x | x in s.pc && s.pc[x].InLock? && x != t :: x in u.pc && u.pc[x] == s.pc[x]
    ensures Wakened(u)
  {
    forall m | m !in u.locked && Q(u.core, MutexQ(m)) != []
      ensures exists c :: Contends(u, c, m)
    {
      var c :| Contends(s, c, m);
      assert Contends(u, c, m);
    }
  }

  /** A step that touches neither lock r, nor its queue, nor those inside its wait. */
  lemma RwMoved(s: State, u: State, r: nat)
    requires RwAt(s, r) && LockAt(u, r) == LockAt(s, r) && Q(u.core, RwQ(r)) == Q(s.core, RwQ(r))
    requires forall h | h in s.pc && s.pc[h] == InRw(r) && Awake(s.core, h) :: h in u.pc && u.pc[h] == InRw(r) && Awake(u.core, h)
    requires forall c | c in u.pc && u.pc[c] == InRw(r) :: c in s.pc && s.pc[c] == InRw(r)
    requires s.main == Driving(ForRw(r)) <==> u.main == Driving(ForRw(r))
    ensures RwAt(u, r)
  {
    hide RwLock.Inv, Names, Awake, Q;
    forall h | h in LockAt(u, r).granted
      ensures LetIn(u, r, h)
    {
      assert LetIn(s, r, h);
    }
  }

  lemma ReapFacts(s: Core, t: nat)
    requires Is(s, t, Ended)
    ensures forall n :: Q(Reap(s, t), n) == Q(s, n)
    ensures !Awake(s, t) && forall x | x != t :: Awake(Reap(s, t), x) <==> Awake(s, x)
  {
  }

  ghost predicate Reaped(s: State, u: State, t: nat) {
    && Is(s.core, t, Ended) && u.core == Reap(s.core, t) && u.rw == s.rw && u.pc.Keys == s.pc.Keys - {t}
    && (forall x | x in u.pc :: s.pc[x].InRw? || u.pc[x].InRw? ==> u.pc[x] == s.pc[x])
    && (forall r :: s.main == Driving(ForRw(r)) <==> u.main == Driving(ForRw(r)))
  }

  lemma ReapRwAt(s: State, u: State, t: nat, r: nat)
    requires RwAt(s, r) && Reaped(s, u, t)
    ensures RwAt(u, r)
  {
    hide RwAt, Awake, Q, Is, Reap;
    ReapFacts(s.core, t);
    forall h | h in s.pc && s.pc[h] == InRw(r) && Awake(s.core, h)
      ensures h in u.pc && u.pc[h] == InRw(r) && Awake(u.core, h)
    {
      assert h != t;
      assert h in u.pc.Keys;
    }
    assert s.main == Driving(ForRw(r)) ==> u.main == Driving(ForRw(r));
    RwMoved(s, u, r);
  }

  lemma ReapRw(s: State, u: State, t: nat)
    requires RwLinked(s) && Reaped(s, u, t)
    ensures RwLinked(u)
  {
    hide RwAt, Reaped;
    forall r
      ensures RwAt(u, r)
    {
      ReapRwAt(s, u, t, r);
    }
  }

  /** An ended coroutine is freed, by its joiner c going on if there is one, or by main. */
  lemma ReapInv(s: State, u: State, t: nat, c: nat)
    requires Inv(s) && Is(s.core, t, Ended)
    requires u == s.(core := Reap(s.core, t), pc := u.pc, main := u.main, joinable := s.joinable - {t}, handles := s.handles - {t})
    requires u.pc == s.pc - {t} || (c != t && c in s.pc && s.pc[c] == InJoin(t) && Is(s.core, c, Running) && u.pc == (s.pc - {t})[c := Body])
    requires forall x | x in s.pc && s.pc[x] == InJoin(t) :: x == c && u.pc != s.pc - {t}
    requires if s.main == Driving(ForEnd(t)) then u.main == Free else u.main == s.main
    ensures Inv(u)
  {
    hide RwLock.Inv, RwAt;
    ReapPart(s.core, t);
    ReapHome(s, u, t);
    ReapWakened(s, u, t);
    ReapRw(s, u, t);
    ReapJoined(s, u, t, c);
  }

  lemma ReapJoined(s: State, u: State, t: nat, c: nat)
    requires Joined(s) && Is(s.core, t, Ended) && s.pc.Keys == s.core.co.Keys
    requires u == s.(core := Reap(s.core, t), pc := u.pc, main := u.main, joinable := s.joinable - {t}, handles := s.handles - {t})
    requires u.pc == s.pc - {t} || (c != t && c in s.pc && s.pc[c] == InJoin(t) && u.pc == (s.pc - {t})[c := Body])
    requires forall x | x in s.pc && s.pc[x] == InJoin(t) :: x == c && u.pc != s.pc - {t}
    requires if s.main == Driving(ForEnd(t)) then u.main == Free else u.main == s.main
    ensures Joined(u)
  {
    forall x | x in u.pc && u.pc[x].InJoin?
      ensures JoinOk(u, u.pc[x].t) && (Is(u.core, x, Parked) <==> !Is(u.core, u.pc[x].t, Ended))
    {
      assert u.pc[x] == s.pc[x] && s.pc[x].t != t;
      assert JoinOk(s, s.pc[x].t);
    }
  }

  lemma SpawnInv(s: State, c: nat, join: bool, fiber: bool)
    requires Inv(s) && c > MAIN && c !in s.core.co
    ensures Inv(Call(s, Spawning(c, join, fiber)))
  {
    hide RwAt, Timed, NoDup;
    var t := Call(s, Spawning(c, join, fiber));
    SpawnPart(s.core, c);
    SpawnFacts(s.core, c);
    forall n, x | n != RunQ && x != MAIN
      ensures HomeAt(t, n, x)
    {
      assert HomeAt(s, n, x);
    }
    SpawnWakened(s, t, c);
    forall r
      ensures RwAt(t, r)
    {
      RwMoved(s, t, r);
    }
    SpawnJoined(s, t, c);
  }

  lemma SpawnFacts(s: Core, c: nat)
    requires Part(s) && c > MAIN && c !in s.co
    ensures forall n | n != RunQ :: Q(Spawn(s, c), n) == Q(s, n)
    ensures forall x, st | x != c :: Is(Spawn(s, c), x, st) <==> Is(s, x, st)
    ensures Is(Spawn(s, c), c, Runnable) && forall n :: c !in Q(s, n)
  {
    assert forall st :: !Is(s, c, st);
  }

  lemma SpawnWakened(s: State, t: State, c: nat)
    requires Wakened(s) && c !in s.pc && t.pc == s.pc[c := Body] && t.locked == s.locked
    requires forall n | n != RunQ :: Q(t.core, n) == Q(s.core, n)
    requires forall x, st | x != c :: Is(t.core, x, st) <==> Is(s.core, x, st)
    ensures Wakened(t)
  {
    forall m | m !in t.locked && Q(t.core, MutexQ(m)) != []
      ensures exists x :: Contends(t, x, m)
    {
      var x :| Contends(s, x, m);
      assert Contends(t, x, m);
    }
  }

  lemma SpawnJoined(s: State, t: State, c: nat)
    requires Joined(s) && c !in s.core.co && c !in s.pc && t.pc == s.pc[c := Body] && t.main == s.main
    requires t.core.co.Keys == s.core.co.Keys + {c}
    requires (t.joinable == s.joinable && t.handles == s.handles) || (t.joinable == s.joinable + {c} && t.handles == s.handles + {c})
    requires forall x, st | x != c :: Is(t.core, x, st) <==> Is(s.core, x, st)
    ensures Joined(t)
  {
    forall x | x in t.pc && t.pc[x].InJoin?
      ensures JoinOk(t, t.pc[x].t) && (Is(t.core, x, Parked) <==> !Is(t.core, t.pc[x].t, Ended))
    {
      assert JoinOk(s, s.pc[x].t);
    }
  }

  lemma DetachInv(s: State, t: nat)
    requires Inv(s) && t in s.handles && !Is(s.core, t, Ended)
    ensures Inv(s.(joinable := s.joinable - {t}, handles := s.handles - {t}))
  {
    var u := s.(joinable := s.joinable - {t}, handles := s.handles - {t});
    SameHome(s, u);
    MoreLocked(s, u);
    SameRw(s, u);
    forall x | x in u.pc && u.pc[x].InJoin?
      ensures JoinOk(u, u.pc[x].t)
    {
      assert JoinOk(s, s.pc[x].t);
    }
  }

  /** Main starts driving for the end of a coroutine. */
  lemma MainJoinInv(s: State, t: nat)
    requires Inv(s) && t in s.handles && s.main == Free
    ensures Inv(s.(handles := s.handles - {t}, main := Driving(ForEnd(t))))
  {
    hide RwLock.Inv, Names;
    var u := s.(handles := s.handles - {t}, main := Driving(ForEnd(t)));
    SameHome(s, u);
    MoreLocked(s, u);
    forall r
      ensures RwAt(u, r)
    {
      assert RwAt(s, r);
    }
    forall x | x in u.pc && u.pc[x].InJoin?
      ensures JoinOk(u, u.pc[x].t)
    {
      assert JoinOk(s, s.pc[x].t);
    }
  }

  lemma JoinInv(s: State, t: nat)
    requires Inv(s) && t in s.handles && t != s.core.cur
    requires if s.core.cur > 0 then s.core.cur in s.pc && s.pc[s.core.cur] == Body else s.main == Free
    ensures Inv(Call(s, Join(t)))
  {
    hide Part, AtHome, Wakened, RwLinked, Sleeps;
    assert forall x | x in s.pc && s.pc[x].InJoin? :: JoinOk(s, s.pc[x].t);
    if Is(s.core, t, Ended) {
      assert s.main != Driving(ForEnd(t));
      ReapInv(s, ReapIt(s, t), t, 0);
    } else if s.core.cur > 0 {
      var u := s.(handles := s.handles - {t});
      ParkOnPart(s.core, JoinQ(t), true);
      ParkOnSleeps(s.core, JoinQ(t), true);
      ParksInv(s, ParkAt(u, JoinQ(t), true, InJoin(t)), s.core.cur, InJoin(t));
    } else {
      MainJoinInv(s, t);
    }
  }

  // ----- ending

  lemma {:induction false} WakeAllIsN(s: Core, n: QName, k: nat)
    requires Part(s) && n != RunQ && k == |Q(s, n)|
    ensures WakeAll(s, n) == WakeN(s, n, k)
    decreases k
  {
    if k > 0 {
      hide Part, WakeHead;
      WakeHeadPart(s, n);
      WakeHeadFacts(s, n);
      WakeAllIsN(WakeHead(s, n), n, k - 1);
    }
  }

  /** The coroutine has ended and its joiner, if it has one, is awake. */
  lemma EndFacts(s: Core)
    requires Part(s) && s.cur > 0
    ensures var c, t := s.cur, WakeAll(End(s), JoinQ(s.cur));
      && Part(t) && t.cur == 0 && t.co.Keys == s.co.Keys && Is(t, c, Ended)
      && (forall n | n != RunQ :: Q(t, n) == if n == JoinQ(c) then [] else Q(s, n))
      && (forall x, st | x != c && x !in Q(s, JoinQ(c)) :: Is(t, x, st) <==> Is(s, x, st))
      && (forall x | x in Q(s, JoinQ(c)) :: x != c && x != MAIN && Is(t, x, Runnable) && Is(s, x, Parked))
  {
    hide Lists, Runs;
    var c, e := s.cur, End(s);
    RunnerFacts(s);
    EndPart(s);
    assert forall n :: Q(e, n) == Q(s, n);
    var k := |Q(e, JoinQ(c))|;
    WakeAllIsN(e, JoinQ(c), k);
    WakeNFacts(e, JoinQ(c), k);
    assert Q(e, JoinQ(c))[..k] == Q(s, JoinQ(c));
    JoinersParked(s, c);
  }

  lemma JoinersParked(s: Core, c: nat)
    requires Part(s)
    ensures forall x | x in Q(s, JoinQ(c)) :: x != MAIN && Is(s, x, Parked)
  {
    hide Timed;
  }

  lemma EndedHome(s: State, t: State, c: nat)
    requires AtHome(s) && Is(s.core, c, Running) && t.pc == s.pc && t.core.co.Keys == s.core.co.Keys && Is(t.core, c, Ended)
    requires forall n | n != RunQ :: Q(t.core, n) == if n == JoinQ(c) then [] else Q(s.core, n)
    requires forall x, st | x != c && x !in Q(s.core, JoinQ(c)) :: Is(t.core, x, st) <==> Is(s.core, x, st)
    requires forall x | x in Q(s.core, JoinQ(c)) :: Is(t.core, x, Runnable)
    ensures AtHome(t)
  {
    forall n, x | n != RunQ && x != MAIN
      ensures HomeAt(t, n, x)
    {
      assert HomeAt(s, n, x) && HomeAt(s, JoinQ(c), x);
    }
  }

  lemma EndedJoined(s: State, t: State, c: nat)
    requires Joined(s) && AtHome(s) && t.main == s.main && t.pc == s.pc && t.joinable == s.joinable && t.handles == s.handles
    requires t.core.co.Keys == s.core.co.Keys && Is(t.core, c, Ended) && Is(s.core, c, Running) && s.pc[c] == Body && MAIN !in s.pc
    requires forall x, st | x != c && x !in Q(s.core, JoinQ(c)) :: Is(t.core, x, st) <==> Is(s.core, x, st)
    requires forall x | x in Q(s.core, JoinQ(c)) :: x != MAIN && Is(t.core, x, Runnable) && Is(s.core, x, Parked)
    ensures Joined(t)
  {
    forall x | x in Q(s.core, JoinQ(c))
      ensures x in s.pc && s.pc[x] == InJoin(c)
    {
      assert HomeAt(s, JoinQ(c), x);
    }
    forall x | x in t.pc && t.pc[x].InJoin?
      ensures Is(t.core, x, Parked) <==> !Is(t.core, t.pc[x].t, Ended)
    {
      var y := s.pc[x].t;
      assert HomeAt(s, JoinQ(y), x);
      assert y in Q(s.core, JoinQ(c)) ==> !Is(t.core, y, Ended) && !Is(s.core, y, Ended);
    }
  }

  lemma EndedInv(s: State, t: State)
    requires Inv(s) && s.core.cur > 0 && s.core.cur in s.pc && s.pc[s.core.cur] == Body
    requires t == s.(core := WakeAll(End(s.core), JoinQ(s.core.cur)), fibers := t.fibers)
    ensures Inv(t) && Is(t.core, s.core.cur, Ended) && t.core.cur == 0
  {
    hide RwAt, WakeAll, End, Part;
    var c := s.core.cur;
    RunnerFacts(s.core);
    EndFacts(s.core);
    MainNoPc(s);
    EndedHome(s, t, c);
    EndedJoined(s, t, c);
    forall x | x in Q(s.core, JoinQ(c))
      ensures x in s.pc && s.pc[x] == InJoin(c)
    {
      assert HomeAt(s, JoinQ(c), x);
    }
    forall m | m !in t.locked && Q(t.core, MutexQ(m)) != []
      ensures exists x :: Contends(t, x, m)
    {
      var x :| Contends(s, x, m);
      assert Contends(t, x, m);
    }
    forall r
      ensures RwAt(t, r)
    {
      RwMoved(s, t, r);
    }
  }

  lemma MainNoPc(s: State)
    requires Inv(s)
    ensures MAIN !in s.pc
  {
  }

  lemma FinishInv(s: State)
    requires Inv(s) && s.core.cur > 0 && s.core.cur in s.pc && s.pc[s.core.cur] == Body
    ensures Inv(Finish(s))
  {
    hide AtHome, Wakened, RwLinked, WakeAll, End, Part;
    var c := s.core.cur;
    var t := s.(core := WakeAll(End(s.core), JoinQ(c)), fibers := s.fibers - {c});
    EndedInv(s, t);
    var u := if c in s.fibers && t.fibers == {} then t.(core := WakeAll(t.core, Drain)) else t;
    if c in s.fibers && t.fibers == {} {
      WakeAllPart(t.core, Drain);
      WakeAllQuiet(t.core, Drain);
      QuietInv(t, u);
      QuietEnded(t.core, u.core, c);
    }
    if c !in s.joinable {
      assert forall x | x in u.pc && u.pc[x].InJoin? :: JoinOk(u, u.pc[x].t);
      ReapInv(u, ReapIt(u, c), c, 0);
    }
  }

  lemma QuietEnded(s: Core, t: Core, c: nat)
    requires Quiet(s, t) && Is(s, c, Ended)
    ensures Is(t, c, Ended)
  {
  }

  // ----- parking

  ghost predicate InBody(s: State) { s.core.cur > 0 && s.core.cur in s.pc && s.pc[s.core.cur] == Body }

  lemma SleepInv(s: State, t: State)
    requires Inv(s) && InBody(s) && t == s.(core := t.core, pc := s.pc[s.core.cur := InPark])
    requires t.core == ParkBare(s.core) || exists at :: t.core == ParkTimed(s.core, at)
    ensures Inv(t)
  {
    hide Inv, Sleeps, Part, ParkTimed, ParkBare;
    assert Part(s.core) by {
      PartOf(s);
    }
    ParkSleeps(s.core);
    if t.core == ParkBare(s.core) {
      ParkBarePart(s.core);
    } else {
      var at :| t.core == ParkTimed(s.core, at);
      ParkTimedPart(s.core, at);
    }
    ParksInv(s, t, s.core.cur, InPark);
  }

  lemma PartOf(s: State)
    requires Inv(s)
    ensures Part(s.core) && s.pc.Keys == s.core.co.Keys
  {
    hide Part;
  }

  lemma LastInv(s: State, c: nat, last: int)
    requires Inv(s)
    ensures Inv(s.(core := SetLast(s.core, c, last)))
  {
    hide AtHome, Wakened, RwLinked, Joined, NoDup;
    var t := SetLast(s.core, c, last);
    assert forall n :: Q(t, n) == Q(s.core, n);
    assert forall x, st :: Is(t, x, st) <==> Is(s.core, x, st);
    TimedSame(s.core, t);
    QuietSame(s.core, t);
    QuietInv(s, s.(core := t));
  }

  lemma ReleaseIfInv(s: State, m: Option<nat>)
    requires Inv(s)
    ensures Inv(ReleaseIf(s, m))
  {
    hide Inv, Release;
    match m
    case None =>
    case Some(x) => ReleaseInv(s, x);
  }

  lemma PermitInv(s: State)
    requires Inv(s) && s.core.cur > 0
    ensures Inv(s.(core := TakePermit(s.core)))
  {
    hide AtHome, Wakened, RwLinked, Joined, Lists, Runs;
    TakePart(s.core);
    QuietSame(s.core, TakePermit(s.core));
    QuietInv(s, s.(core := TakePermit(s.core)));
  }

  lemma ParkCallInv(s: State, at: Option<int>, hand: Option<nat>)
    requires Inv(s) && (s.core.cur > 0 ==> InBody(s))
    ensures Inv(ParkCall(s, at, hand))
  {
    hide Inv, ParkTimed, ParkBare, ReleaseIf, TakePermit;
    if s.core.cur > 0 {
      if s.core.cur in s.core.co && s.core.co[s.core.cur].permit {
        PermitInv(s);
        ReleaseIfInv(s.(core := TakePermit(s.core)), hand);
      } else {
        var u := s.(core := SetLast(s.core, s.core.cur, 0));
        LastInv(s, s.core.cur, 0);
        var t := u.(core := if at.Some? then ParkTimed(u.core, at.value) else ParkBare(u.core), pc := u.pc[u.core.cur := InPark]);
        SleepInv(u, t);
        ReleaseIfInv(t, hand);
      }
    }
  }

  // ----- condition variables

  lemma CondWaitInv(s: State, c: nat, m: nat)
    requires Inv(s) && (if s.core.cur > 0 then InBody(s) else s.main == Free)
    ensures Inv(Call(s, CondWait(c, m)))
  {
    hide Inv, Release, ParkAt;
    var t := if s.core.cur > 0 then ParkAt(s, CondQ(c), false, InCond(c, m)) else s.(main := Driving(ForCond(c, SeqOf(s, c), m)));
    if s.core.cur > 0 {
      ParkAtInv(s, CondQ(c), false, InCond(c, m));
    } else {
      MainInv(s, t);
    }
    ReleaseInv(t, m);
  }

  lemma SignalInv(s: State, c: nat)
    requires Inv(s)
    ensures Inv(Call(s, Signal(c))) && Inv(Call(s, Broadcast(c)))
  {
    hide Inv, WakeHead, WakeAll, Quiet, Part;
    PartOf(s);
    if Q(s.core, CondQ(c)) != [] {
      WakeHeadPart(s.core, CondQ(c));
      WakeHeadQuiet(s.core, CondQ(c));
      QuietInv(s, Call(s, Signal(c)));
    } else {
      BumpInv(s, c);
    }
    WakeAllPart(s.core, CondQ(c));
    WakeAllQuiet(s.core, CondQ(c));
    QuietInv(s, s.(core := WakeAll(s.core, CondQ(c))));
    BumpInv(s.(core := WakeAll(s.core, CondQ(c))), c);
  }

  lemma BumpInv(s: State, c: nat)
    requires Inv(s)
    ensures Inv(Bump(s, c))
  {
    hide AtHome, Wakened, RwLinked, Joined, Lists, Runs;
    QuietSame(s.core, s.core);
    QuietInv(s, Bump(s, c));
  }

  // ----- unparking

  lemma ParkedNowhere(s: State, c: nat)
    requires Inv(s) && Is(s.core, c, Parked) && c in s.pc && s.pc[c] == InPark
    ensures forall n :: c !in Q(s.core, n)
  {
    hide Timed;
    forall n
      ensures c !in Q(s.core, n)
    {
      if n != RunQ {
        assert HomeAt(s, n, c);
      }
    }
  }

  lemma UnparkInv(s: State, c: nat, front: bool)
    requires Inv(s) && (Is(s.core, c, Parked) ==> c in s.pc && s.pc[c] == InPark)
    ensures Inv(s.(core := Unpark(s.core, c, front)))
  {
    hide Inv, Unpark, Quiet, Part;
    PartOf(s);
    if Is(s.core, c, Parked) {
      ParkedNowhere(s, c);
    }
    UnparkPart(s.core, c, front);
    UnparkQuiet(s.core, c, front);
    QuietInv(s, s.(core := Unpark(s.core, c, front)));
  }

  lemma YieldInv(s: State)
    requires Inv(s) && s.core.cur > 0
    ensures Inv(s.(core := Yield(s.core)))
  {
    hide Inv, Yield, Quiet, Part;
    PartOf(s);
    YieldPart(s.core);
    YieldQuiet(s.core);
    QuietInv(s, s.(core := Yield(s.core)));
  }

  // ----- every step

  lemma CallInv(s: State, o: Op)
    requires Inv(s) && (if s.core.cur > 0 then InBody(s) else s.main == Free) && Asked(s, o)
    ensures Inv(Call(s, o))
  {
    hide Inv, LockTest, Release, ParkAt, RwCall, Finish, ParkCall, Unpark, Yield, ParkTimed, WakeHead, WakeAll, Bump, ReapIt, InBody;
    match o {
      case Lock(m) => LockBody(s, m);
      case TryLock(m) => TryLockInv(s, m);
      case Unlock(m) => ReleaseInv(s, m);
      case CondWait(c, m) => CondWaitInv(s, c, m);
      case Signal(c) => SignalInv(s, c);
      case Broadcast(c) => SignalInv(s, c);
      case Rw(r, op) => RwBody(s, r, op);
      case Join(t) => JoinBody(s, t);
      case Detach(t) => DetachBody(s, t);
      case Spawning(c, join, fiber) => SpawnInv(s, c, join, fiber);
      case Exit => ExitBody(s);
      case Draining => DrainBody(s);
      case Park(at, hand) => ParkCallInv(s, at, hand);
      case Sleep(until) => SleepBody(s, until);
      case Yielding =>
        if s.core.cur > 0 {
          YieldInv(s);
        }
      case Unparking(c, front) => UnparkInv(s, c, front);
      case Waking(c) => UnparkInv(s, c, false);
    }
  }

  lemma LockBody(s: State, m: nat)
    requires Inv(s) && (if s.core.cur > 0 then InBody(s) else s.main == Free)
    ensures Inv(LockTest(s, m))
  {
    hide Inv, LockTest;
    LockTestInv(s, m);
  }

  lemma RwBody(s: State, r: nat, o: RwLock.Op)
    requires Inv(s) && (if s.core.cur > 0 then InBody(s) else s.main == Free) && Asked(s, Rw(r, o))
    ensures Inv(RwCall(s, r, o))
  {
    hide Inv, RwCall, Asked;
    RwCallInv(s, r, o);
  }

  lemma JoinBody(s: State, t: nat)
    requires Inv(s) && (if s.core.cur > 0 then InBody(s) else s.main == Free) && t in s.handles && t != s.core.cur
    ensures Inv(Call(s, Join(t)))
  {
    hide Inv, Call;
    JoinInv(s, t);
  }

  lemma DetachBody(s: State, t: nat)
    requires Inv(s) && t in s.handles
    ensures Inv(Call(s, Detach(t)))
  {
    hide Part, AtHome, Wakened, RwLinked, ReapIt;
    if Is(s.core, t, Ended) {
      assert forall x | x in s.pc && s.pc[x].InJoin? :: JoinOk(s, s.pc[x].t);
      assert s.main != Driving(ForEnd(t));
      ReapsIt(s, t);
      ReapInv(s, ReapIt(s, t), t, 0);
    } else {
      DetachInv(s, t);
    }
  }

  lemma ReapsIt(s: State, t: nat)
    ensures ReapIt(s, t) == s.(core := Reap(s.core, t), pc := s.pc - {t}, joinable := s.joinable - {t}, handles := s.handles - {t})
  {
  }

  lemma ExitBody(s: State)
    requires Inv(s) && (s.core.cur > 0 ==> InBody(s))
    ensures Inv(if s.core.cur > 0 then Finish(s) else s)
  {
    hide Inv, Finish;
    if s.core.cur > 0 {
      FinishInv(s);
    }
  }

  lemma DrainBody(s: State)
    requires Inv(s) && (if s.core.cur > 0 then InBody(s) else s.main == Free)
    ensures Inv(Call(s, Draining))
  {
    hide Inv, ParkAt;
    if s.core.cur > 0 {
      ParkAtInv(s, Drain, true, InDrain);
    } else {
      MainInv(s, s.(main := Driving(ForAll)));
    }
  }

  lemma SleepBody(s: State, until: int)
    requires Inv(s) && (s.core.cur > 0 ==> InBody(s))
    ensures Inv(Call(s, Sleep(until)))
  {
    hide Inv, ParkTimed;
    if s.core.cur > 0 {
      SleepInv(s, s.(core := ParkTimed(s.core, until), pc := s.pc[s.core.cur := InPark]));
    }
  }

  /** A coroutine running inside rdlock or wrlock has been granted the lock. */
  lemma RunnerGranted(s: State, r: nat)
    requires Inv(s) && s.core.cur > 0 && s.core.cur in s.pc && s.pc[s.core.cur] == InRw(r)
    ensures s.core.cur in LockAt(s, r).granted && Is(s.core, s.core.cur, Running) && s.core.cur != MAIN
  {
    hide RwLock.Inv, Names;
    RunnerFacts(s.core);
    assert RwAt(s, r);
    assert HomeAt(s, RwQ(r), s.core.cur);
  }

  lemma ResumeInv(s: State)
    requires Inv(s) && s.core.cur > 0 && s.core.cur in s.pc
    ensures Inv(Resume(s))
  {
    hide Inv, LockTest, ParkAt, ReapIt, RwLock.Do;
    var c := s.core.cur;
    match s.pc[c] {
      case Body =>
      case InLock(m) => LockTestInv(s, m);
      case InCond(_, m) => LockTestInv(s, m);
      case InRw(r) =>
        RunnerGranted(s, r);
        RwGoInv(s, Resume(s), r, c);
      case InJoin(t) => JoinerInv(s, t);
      case InDrain =>
        if s.fibers == {} {
          GoesOnInv(s, Resume(s));
        } else {
          ParkAtInv(s, Drain, true, InDrain);
        }
      case InPark => GoesOnInv(s, Resume(s));
    }
  }

  lemma JoinerInv(s: State, t: nat)
    requires Inv(s) && s.core.cur > 0 && s.core.cur in s.pc && s.pc[s.core.cur] == InJoin(t)
    ensures Inv(ReapIt(s, t).(pc := (s.pc - {t})[s.core.cur := Body]))
  {
    hide Part, AtHome, Wakened, RwLinked;
    RunnerFacts(s.core);
    assert Is(s.core, t, Ended) && s.core.cur != t;
    assert s.main != Driving(ForEnd(t));
    var u := ReapIt(s, t).(pc := (s.pc - {t})[s.core.cur := Body]);
    assert s.core.cur in u.pc && s.core.cur in (s.pc - {t}) && u.pc != s.pc - {t};
    ReapInv(s, u, t, s.core.cur);
  }

  lemma MainOnInv(s: State, g: Goal)
    requires Inv(s) && s.core.cur == 0 && s.main == Driving(g) && Met(s, g)
    ensures Inv(MainGoes(s, g))
  {
    hide Inv, LockTest, RwLock.Do, ReapIt;
    match g {
      case ForMutex(m) => LockTestInv(s, m);
      case ForCond(_, _, m) => LockTestInv(s, m);
      case ForRw(r) => RwGoInv(s, MainGoes(s, g), r, MAIN);
      case ForEnd(t) => MainReaps(s, t);
      case ForAll => MainInv(s, MainGoes(s, g));
    }
  }

  lemma MainReaps(s: State, t: nat)
    requires Inv(s) && s.main == Driving(ForEnd(t)) && Is(s.core, t, Ended)
    ensures Inv(ReapIt(s, t).(main := Free))
  {
    hide Part, AtHome, Wakened, RwLinked;
    ReapsIt(s, t);
    ReapInv(s, ReapIt(s, t).(main := Free), t, 0);
  }

  lemma StepsInv(s: State, first: int, now: int, pick: nat)
    requires Inv(s) && s.core.cur == 0 && (Q(s.core, RunQ) != [] ==> pick < |Q(s.core, RunQ)|)
    ensures Inv(s.(core := Scheduled(s.core, first, now, pick).0))
  {
    hide Inv, Scheduled, Quiet, Part;
    PartOf(s);
    ScheduledPart(s.core, first, now, pick);
    SleepQuiet(s.core, first, now, pick);
    QuietInv(s, s.(core := Scheduled(s.core, first, now, pick).0));
  }

  lemma StepInv(s: State, e: Event)
    requires Inv(s) && Enabled(s, e)
    ensures Inv(Next(s, e))
  {
    hide Inv, Call, Resume, MainGoes, Scheduled, Asked, Met;
    match e {
      case Calls(o) => CallInv(s, o);
      case Resumes => ResumeInv(s);
      case MainOn => MainOnInv(s, s.main.goal);
      case Steps(first, now, pick) => StepsInv(s, first, now, pick);
    }
  }

  // ----- every run

  /** States passed through from boot, whatever is called and whichever runnable coroutine is picked. */
  ghost predicate IsRun(ss: seq<State>, es: seq<Event>) {
    && |ss| == |es| + 1
    && (if es == [] then ss[0] == BOOT
        else
          var n := |es| - 1;
          IsRun(ss[..n + 1], es[..n]) && Enabled(ss[n], es[n]) && ss[n + 1] == Next(ss[n], es[n]))
  }

  lemma BootInv()
    ensures Inv(BOOT)
  {
    hide RwLock.Inv;
    RwLock.FreeInv();
    assert forall n :: Q(BOOT.core, n) == [];
    forall r
      ensures RwAt(BOOT, r)
    {
      assert LockAt(BOOT, r) == RwLock.FREE;
    }
  }

  lemma {:induction false} RunInv(ss: seq<State>, es: seq<Event>)
    requires IsRun(ss, es)
    ensures |ss| == |es| + 1 && Inv(ss[|es|])
  {
    if es == [] {
      BootInv();
    } else {
      hide Inv, Enabled, Next;
      var n := |es| - 1;
      RunInv(ss[..n + 1], es[..n]);
      StepInv(ss[n], es[n]);
    }
  }

  /** The partition, in every reachable state. */
  lemma RunPartition(ss: seq<State>, es: seq<Event>)
    requires IsRun(ss, es)
    ensures Part(ss[|es|].core)
  {
    hide IsRun, Inv;
    RunInv(ss, es);
    PartOf(ss[|es|]);
  }

  /** No wakeup is lost: a free mutex with waiters has a contender on the run queue or running. */
  lemma NoLostWakeup(ss: seq<State>, es: seq<Event>, m: nat) returns (c: nat)
    requires IsRun(ss, es) && m !in ss[|es|].locked && Q(ss[|es|].core, MutexQ(m)) != []
    ensures var s := ss[|es|];
      c in s.pc && s.pc[c] == InLock(m) && (c in Q(s.core, RunQ) || c == s.core.cur)
  {
    hide IsRun, AtHome, RwLinked, Joined, Timed;
    RunInv(ss, es);
    c :| Contends(ss[|es|], c, m);
  }

  /** Every rwlock, in every reachable state. */
  lemma RunRwLocks(ss: seq<State>, es: seq<Event>, r: nat)
    requires IsRun(ss, es)
    ensures RwLock.Inv(LockAt(ss[|es|], r)) && Names(LockAt(ss[|es|], r).queue, Q(ss[|es|].core, RwQ(r)))
  {
    hide IsRun, RwLock.Inv, Names;
    RunInv(ss, es);
    assert RwAt(ss[|es|], r);
  }

  // ----- a wake the callers must not make

  /** Main holds mutex 0 when coroutine 2 asks for it. */
  const QUEUES: seq<Event> := [Calls(Spawning(2, false, true)), Calls(Lock(0)), Steps(0, 0, 0), Calls(Lock(0))]

  lemma FourSteps(s: seq<State>, e: seq<Event>)
    requires |s| == 5 && |e| == 4 && s[0] == BOOT
    requires Enabled(s[0], e[0]) && s[1] == Next(s[0], e[0]) && Enabled(s[1], e[1]) && s[2] == Next(s[1], e[1])
    requires Enabled(s[2], e[2]) && s[3] == Next(s[2], e[2]) && Enabled(s[3], e[3]) && s[4] == Next(s[3], e[3])
    ensures IsRun(s, e)
  {
    hide Enabled, Next;
    assert IsRun(s[..1], e[..0]);
    assert IsRun(s[..2], e[..1]) by {
      assert s[..2][..1] == s[..1] && e[..1][..0] == e[..0];
    }
    assert IsRun(s[..3], e[..2]) by {
      assert s[..3][..2] == s[..2] && e[..2][..1] == e[..1];
    }
    assert IsRun(s[..4], e[..3]) by {
      assert s[..4][..3] == s[..3] && e[..3][..2] == e[..2];
    }
  }

  lemma Spawned() returns (s: State)
    ensures Enabled(BOOT, QUEUES[0]) && Enabled(Next(BOOT, QUEUES[0]), QUEUES[1]) && s == Next(Next(BOOT, QUEUES[0]), QUEUES[1])
    ensures Q(s.core, RunQ) == [2] && s.core.cur == 0 && s.core.tq == [] && s.main == Free && s.locked == {0}
    ensures s.core.co.Keys == {2} && s.pc == map[2 := Body] && forall n | n != RunQ :: Q(s.core, n) == []
  {
    s := Next(Next(BOOT, QUEUES[0]), QUEUES[1]);
  }

  lemma LockHeld(s: State) returns (t: State)
    requires Q(s.core, RunQ) == [2] && s.core.cur == 0 && s.core.tq == [] && s.main == Free && s.locked == {0}
    requires s.core.co.Keys == {2} && s.pc == map[2 := Body] && forall n | n != RunQ :: Q(s.core, n) == []
    ensures Enabled(s, QUEUES[2]) && Enabled(Next(s, QUEUES[2]), QUEUES[3]) && t == Next(Next(s, QUEUES[2]), QUEUES[3])
    ensures Is(t.core, 2, Parked) && Q(t.core, MutexQ(0)) == [2]
  {
    var u := Next(s, QUEUES[2]);
    assert u.core.cur == 2 && Q(u.core, MutexQ(0)) == Q(s.core, MutexQ(0)) == [];
    t := Next(u, QUEUES[3]);
    assert Q(t.core, MutexQ(0)) == Q(u.core, MutexQ(0)) + [2];
  }

  /**
   2 is now asleep on the mutex's queue, and unparking it, as nurl_fiber_unpark does with any parked
   handle, puts it on two lists through its one link.
   */
  lemma UnparkQueued(front: bool) returns (ss: seq<State>)
    ensures IsRun(ss, QUEUES)
    ensures var s, t := ss[|QUEUES|], Call(ss[|QUEUES|], Unparking(2, front));
      && Is(s.core, 2, Parked) && Part(s.core) && !Part(t.core) && 2 in Q(t.core, MutexQ(0)) && 2 in Q(t.core, RunQ)
  {
    hide Enabled, Next, Part, IsRun;
    var s := Spawned();
    var t := LockHeld(s);
    ss := [BOOT, Next(BOOT, QUEUES[0]), s, Next(s, QUEUES[2]), t];
    FourSteps(ss, QUEUES);
    RunPartition(ss, QUEUES);
    UnparkExact(t.core, 2, front);
  }

  // ----- deadlock

  /** Main drives for something that has not come, and the scheduler has nothing left to do. */
  predicate Deadlocked(s: State) { s.core.cur == 0 && s.main.Driving? && !Met(s, s.main.goal) && Stuck(s.core) }

  /** The drive loop's unbounded step answers 0 exactly when nothing is runnable and no timer is armed. */
  lemma VerdictExact(s: State, first: int, read: int, now: int, pick: nat)
    requires Inv(s) && Enabled(s, Steps(first, now, pick)) && s.main.Driving?
    requires first <= read && Slept(s.core, read, now, -1)
    ensures !Scheduled(s.core, first, now, pick).1 <==> Deadlocked(s)
  {
    hide Part, Scheduled;
    StepExact(s.core, first, read, now, pick);
  }

  /** No step leaves a deadlock. */
  lemma DeadlockStays(s: State, e: Event)
    requires Deadlocked(s) && Enabled(s, e)
    ensures Next(s, e) == s
  {
    match e
    case Steps(first, now, pick) => StuckStays(s.core, first, now, pick);
    case _ =>
  }

  ghost predicate RunsFrom(ss: seq<State>, es: seq<Event>) {
    && |ss| == |es| + 1
    && (es == [] || (var n := |es| - 1; RunsFrom(ss[..n + 1], es[..n]) && Enabled(ss[n], es[n]) && ss[n + 1] == Next(ss[n], es[n])))
  }

  /** When the verdict falls, the awaited condition can never come true, whatever the schedule. */
  lemma {:induction false} DeadlockForever(ss: seq<State>, es: seq<Event>)
    requires RunsFrom(ss, es) && Deadlocked(ss[0])
    ensures ss[|es|] == ss[0] && !Met(ss[|es|], ss[0].main.goal)
  {
    if es != [] {
      hide Next, Enabled;
      var n := |es| - 1;
      DeadlockForever(ss[..n + 1], es[..n]);
      DeadlockStays(ss[n], es[n]);
    }
  }

  /** In a deadlock every coroutine has ended or waits on a queue or a park with no deadline. */
  lemma DeadlockAsleep(s: State, c: nat)
    requires Inv(s) && Deadlocked(s) && c in s.core.co
    ensures s.core.co[c].st == Ended || (s.core.co[c].st == Parked && c !in s.core.tq)
  {
    hide AtHome, RwLinked, Joined, Wakened;
    assert Is(s.core, c, Runnable) ==> c in Q(s.core, RunQ);
    assert Is(s.core, c, Running) ==> c == s.core.cur;
  }

  // ----- handoffs and permits

  /** pthread_cond_wait from a coroutine: when the mutex is free the caller is asleep on the queue's end. */
  lemma CondWaitHandsOff(s: State, c: nat, m: nat)
    requires Inv(s) && InBody(s)
    ensures var t, me := Call(s, CondWait(c, m)), s.core.cur;
      && m !in t.locked && t.core.cur == 0 && Is(t.core, me, Parked)
      && Q(t.core, CondQ(c)) == Q(s.core, CondQ(c)) + [me] && t.pc[me] == InCond(c, m)
      && (Q(s.core, MutexQ(m)) != [] ==> Contends(t, Q(s.core, MutexQ(m))[0], m))
  {
    hide AtHome, RwLinked, Joined, Wakened, Part;
    var me, u := s.core.cur, ParkAt(s, CondQ(c), false, InCond(c, m));
    RunnerFacts(s.core);
    ParkOnPart(s.core, CondQ(c), false);
    SetQAt(SetCo(s.core, me, Parked), CondQ(c), Q(s.core, CondQ(c)) + [me]);
    ParkAtInv(s, CondQ(c), false, InCond(c, m));
    if Q(s.core, MutexQ(m)) != [] {
      WakeHeadFacts(u.core, MutexQ(m));
      MutexWakes(u, m);
      assert me !in Q(s.core, MutexQ(m));
    }
  }

  /** So the next signal reaches it, whoever makes it and however late the caller runs. */
  lemma SignalReaches(s: State, c: nat)
    requires Inv(s) && Q(s.core, CondQ(c)) != []
    ensures var t := Call(s, Signal(c)); Is(t.core, Q(s.core, CondQ(c))[0], Runnable) && t.seqs == s.seqs
  {
    hide AtHome, RwLinked, Joined, Wakened, Part, WakeHead;
    WakeHeadFacts(s.core, CondQ(c));
    WaiterHome(s, CondQ(c));
  }

  /** nurl_fiber_park_with_mutex(_ms): the mutex is released with the caller already asleep. */
  lemma ParkHandsOff(s: State, at: Option<int>, m: nat)
    requires Inv(s) && InBody(s) && !s.core.co[s.core.cur].permit
    ensures var t, me := Call(s, Park(at, Some(m))), s.core.cur;
      m !in t.locked && t.core.cur == 0 && Is(t.core, me, Parked) && (at.Some? ==> me in t.core.tq)
  {
    hide AtHome, RwLinked, Joined, Wakened, Part, TimerPlace;
    var me := s.core.cur;
    RunnerFacts(s.core);
    LastInv(s, me, 0);
    var u := s.(core := SetLast(s.core, me, 0));
    var t := u.(core := if at.Some? then ParkTimed(u.core, at.value) else ParkBare(u.core), pc := u.pc[me := InPark]);
    SleepInv(u, t);
    ParkSleeps(u.core);
    assert at.Some? ==> t.core.tq[TimerPlace(u.core.tq, u.core.co, at.value)] == me;
    if Q(t.core, MutexQ(m)) != [] {
      WakeHeadFacts(t.core, MutexQ(m));
    }
  }

  /** With a permit banked, a park returns at once: the caller runs on and the permit is spent. */
  lemma PermitSpent(s: State, at: Option<int>, hand: Option<nat>)
    requires Inv(s) && InBody(s) && s.core.co[s.core.cur].permit
    ensures var t := Call(s, Park(at, hand));
      && t.core.cur == s.core.cur && InBody(t) && Is(t.core, s.core.cur, Running) && !t.core.co[s.core.cur].permit
      && (hand.Some? ==> hand.value !in t.locked)
  {
    hide AtHome, RwLinked, Joined, Wakened, Part;
    RunnerFacts(s.core);
    var u := s.(core := TakePermit(s.core));
    PermitInv(s);
    if hand.Some? && Q(u.core, MutexQ(hand.value)) != [] {
      var w := Q(u.core, MutexQ(hand.value))[0];
      assert w in Q(u.core, MutexQ(hand.value));
      RunnerFacts(u.core);
    }
  }

  /** c lives and its permit is banked. */
  predicate Banked(s: Core, c: nat) { c in s.co && s.co[c].permit && s.co[c].st != Ended }

  lemma {:induction false} WakeAllBanked(s: Core, n: QName, c: nat)
    requires Banked(s, c)
    ensures Banked(WakeAll(s, n), c)
    decreases |Q(s, n)|
  {
    if Q(s, n) != [] && n != RunQ {
      WakeAllBanked(WakeHead(s, n), n, c);
    }
  }

  lemma {:induction false} WakeNBanked(s: Core, n: QName, k: nat, c: nat)
    requires Banked(s, c)
    ensures Banked(WakeN(s, n, k), c)
    decreases k
  {
    if k > 0 && Q(s, n) != [] {
      WakeNBanked(WakeHead(s, n), n, k - 1, c);
    }
  }

  lemma {:induction false} ExpireBanked(s: Core, now: int, c: nat)
    requires Banked(s, c)
    ensures Banked(Expire(s, now), c)
    decreases |s.tq|
  {
    if Due(s, now) {
      ExpireBanked(Ready(SetLast(s.(tq := s.tq[1..]), s.tq[0], 0), s.tq[0], false), now, c);
    }
  }

  lemma ReleaseBanked(s: State, m: nat, c: nat)
    requires Banked(s.core, c)
    ensures Banked(Release(s, m).core, c)
  {
  }

  lemma ParkBanked(s: Core, c: nat)
    requires Banked(s, c)
    ensures Banked(ParkBare(s), c) && forall n, front :: Banked(ParkOn(s, n, front), c)
    ensures forall at :: Banked(ParkTimed(s, at), c)
  {
    hide TimerPlace;
  }

  lemma RwBanked(s: State, r: nat, o: RwLock.Op, c: nat)
    requires Banked(s.core, c)
    ensures Banked(RwCall(s, r, o).core, c)
  {
    hide RwLock.Do, ParkOn, WakeN, Banked, MainWaits;
    var v := LockAt(s, r);
    var (t, out) := RwLock.Do(v, Me(s), o);
    ParkBanked(s.core, c);
    if |t.queue| <= |v.queue| {
      WakeNBanked(s.core, RwQ(r), |v.queue| - |t.queue|, c);
    }
    MainWaitsBanked(s.core, r, c);
  }

  lemma MainWaitsBanked(s: Core, r: nat, c: nat)
    requires Banked(s, c)
    ensures Banked(MainWaits(s, r), c)
  {
  }

  lemma FinishBanked(s: State, c: nat)
    requires Banked(s.core, c) && s.core.cur != c
    ensures Banked(Finish(s).core, c)
  {
    hide WakeAll;
    WakeAllBanked(End(s.core), JoinQ(s.core.cur), c);
    WakeAllBanked(WakeAll(End(s.core), JoinQ(s.core.cur)), Drain, c);
  }

  lemma PickBanked(s: Core, first: int, now: int, pick: nat, c: nat)
    requires Banked(s, c) && (Q(s, RunQ) != [] ==> pick < |Q(s, RunQ)|)
    ensures Banked(Scheduled(s, first, now, pick).0, c)
  {
    hide Expire;
    ExpireBanked(s, first, c);
    ExpireBanked(s, now, c);
  }

  /** Whatever else happens, a banked permit waits for its coroutine's own park call. */
  lemma PermitKept(s: State, e: Event, c: nat)
    requires Inv(s) && Enabled(s, e) && Banked(s.core, c)
    requires e.Calls? && s.core.cur == c ==> !e.o.Park? && e.o != Exit
    ensures Banked(Next(s, e).core, c)
  {
    hide WakeAll, WakeN, Expire, Release, ParkOn, ParkTimed, ParkBare, RwCall, RwLock.Do, Call, Resume, Scheduled, Inv;
    ParkBanked(s.core, c);
    match e {
      case Calls(o) => CallBanked(s, o, c);
      case Resumes => ResumeBanked(s, c);
      case MainOn =>
      case Steps(first, now, pick) => PickBanked(s.core, first, now, pick, c);
    }
  }

  lemma ResumeBanked(s: State, c: nat)
    requires Inv(s) && s.core.cur > 0 && s.core.cur in s.pc && Banked(s.core, c)
    ensures Banked(Resume(s).core, c)
  {
    hide AtHome, Wakened, RwLinked, Part, ParkOn, ParkBare, RwLock.Do;
    RunnerFacts(s.core);
    ParkBanked(s.core, c);
    if s.pc[s.core.cur].InJoin? {
      assert Is(s.core, s.pc[s.core.cur].t, Ended);
    }
  }

  lemma CallBanked(s: State, o: Op, c: nat)
    requires Banked(s.core, c) && (s.core.cur == c ==> !o.Park? && o != Exit)
    requires o.Spawning? ==> o.c != c
    ensures Banked(Call(s, o).core, c)
  {
    hide WakeAll, WakeN, ParkOn, ParkTimed, ParkBare, Release, RwCall, Finish;
    ParkBanked(s.core, c);
    match o {
      case Unlock(m) => ReleaseBanked(s, m, c);
      case CondWait(cv, m) =>
        ReleaseBanked(if s.core.cur > 0 then ParkAt(s, CondQ(cv), false, InCond(cv, m)) else s.(main := Driving(ForCond(cv, SeqOf(s, cv), m))), m, c);
      case Broadcast(cv) => WakeAllBanked(s.core, CondQ(cv), c);
      case Rw(r, op) => RwBanked(s, r, op, c);
      case Exit =>
        if s.core.cur > 0 {
          FinishBanked(s, c);
        }
      case Park(at, hand) => ParkCallBanked(s, at, hand, c);
      case _ =>
    }
  }

  lemma ParkCallBanked(s: State, at: Option<int>, hand: Option<nat>, c: nat)
    requires Banked(s.core, c) && s.core.cur != c
    ensures Banked(ParkCall(s, at, hand).core, c)
  {
    hide ParkTimed, ParkBare, Release;
    var t := SetLast(s.core, s.core.cur, 0);
    ParkBanked(t, c);
    var u := s.(core := TakePermit(s.core));
    var v := s.(core := if at.Some? then ParkTimed(t, at.value) else ParkBare(t), pc := s.pc[s.core.cur := InPark]);
    if hand.Some? {
      ReleaseBanked(u, hand.value, c);
      ReleaseBanked(v, hand.value, c);
    }
  }

  /** Steps in which c neither parks nor ends. */
  ghost predicate NoPark(ss: seq<State>, es: seq<Event>, c: nat) {
    && |ss| == |es| + 1
    && (es == [] ||
        (var n := |es| - 1;
         && NoPark(ss[..n + 1], es[..n], c)
         && (es[n].Calls? && ss[n].core.cur == c ==> !es[n].o.Park? && es[n].o != Exit)))
  }

  /** An unpark before the park: however long it takes c to park, the park returns at once. */
  lemma {:induction false} UnparkNotLost(ss: seq<State>, es: seq<Event>, c: nat)
    requires RunsFrom(ss, es) && NoPark(ss, es, c) && Inv(ss[0]) && Banked(ss[0].core, c)
    ensures Inv(ss[|es|]) && Banked(ss[|es|].core, c)
  {
    if es != [] {
      hide Next, Enabled, Inv;
      var n := |es| - 1;
      UnparkNotLost(ss[..n + 1], es[..n], c);
      StepInv(ss[n], es[n]);
      PermitKept(ss[n], es[n], c);
    }
  }
}
