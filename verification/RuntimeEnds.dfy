/**
 unikernel/runtime_bare.c: how coroutines end. Only its own return ends one, only its join, its detach or
 its end frees one, none is leaked, and nobody sleeps on for fibers that are gone.
 */
module RuntimeEnds {
  import opened Options
  import opened SchedCore
  import opened SchedMoves
  import opened Runtime
  import opened RuntimeSteps
  import opened RuntimeRuns
  import opened RuntimeMoves
  import RwLock

  predicate Ends(s: State, e: Event, c: nat) { e == Calls(Exit) && c == s.core.cur > 0 }

  lemma FinishLives(s: State, c: nat)
    requires Inv(s) && s.core.cur > 0 && InBody(s)
    ensures var t := Finish(s).core;
      && (Alive(s.core, c) && c != s.core.cur ==> Alive(t, c))
      && (c == s.core.cur ==> if c in s.joinable then Is(t, c, Ended) else c !in t.co)
      && (Is(s.core, c, Ended) ==> Is(t, c, Ended))
      && (c !in s.core.co ==> c !in t.co)
  {
    hide Inv, Part, End, WakeAll;
    PartOf(s);
    var d := s.core.cur;
    RunnerFacts(s.core);
    var t := Made(s.core, MEnd);
    MovePart(s.core, MEnd);
    AliveMove(s.core, MEnd, c);
    AliveMove(s.core, MEnd, d);
    var u := Made(t, MWakeAll(JoinQ(d)));
    MovePart(t, MWakeAll(JoinQ(d)));
    AliveMove(t, MWakeAll(JoinQ(d)), c);
    AliveMove(t, MWakeAll(JoinQ(d)), d);
    AliveMove(u, MWakeAll(Drain), c);
    AliveMove(u, MWakeAll(Drain), d);
  }

  /** A coroutine ends by its own return and by nothing else, and stays until its join or its detach frees it. */
  lemma EndsOnly(s: State, e: Event, c: nat)
    requires Inv(s) && Enabled(s, e)
    ensures var t := Next(s, e).core;
      && (Alive(s.core, c) ==> if Ends(s, e, c) then !Alive(t, c) else Alive(t, c))
      && (Is(s.core, c, Ended) && !Buries(s, e, c) ==> Is(t, c, Ended))
      && (Is(t, c, Ended) ==> Is(s.core, c, Ended) || Ends(s, e, c))
  {
    hide Inv, Makes, Part, Finish;
    if e == Calls(Exit) {
      if s.core.cur > 0 {
        FinishLives(s, c);
      }
    } else {
      hide Next, Enabled;
      PartOf(s);
      var ms := StepMakes(s, e);
      EndlessMakes(s, e, ms, Next(s, e).core, c);
      LivesThrough(s.core, ms, Next(s, e).core, c);
    }
  }

  lemma EndlessMakes(s: State, e: Event, ms: seq<Move>, t: Core, c: nat)
    requires Makes(s, e, ms, t)
    ensures Leads(s.core, ms, t) && (e != Calls(Exit) ==> MEnd !in ms) && (!Buries(s, e, c) ==> MReap(c) !in ms)
  {
    hide Leads, Buries;
  }

  // ----- no coroutine is leaked

  /** Somebody is still to join or detach c, or waits to. */
  ghost predicate Claimed(s: State, c: nat) {
    c in s.handles || s.main == Driving(ForEnd(c)) || exists d :: d in s.pc && s.pc[d] == InJoin(c)
  }

  /** An ended coroutine is kept only for its joiner, and every coroutine kept so has one to come. */
  ghost predicate Kept(s: State) {
    && (forall c | c in s.joinable :: Claimed(s, c))
    && (forall c | Is(s.core, c, Ended) :: c in s.joinable && c in s.pc && s.pc[c] == Body)
  }

  /** A coroutine is kept for a join from its spawn until it is freed or detached. */
  lemma JoinableMoves(s: State, e: Event, c: nat)
    requires Inv(s) && Enabled(s, e)
    ensures var t := Next(s, e);
      && (c in t.joinable ==> c in s.joinable || (e.Calls? && e.o.Spawning? && e.o.c == c && e.o.join))
      && (c in s.joinable && c !in t.joinable ==> Buries(s, e, c))
  {
    hide Inv, WakeHead, WakeAll, ParkOn, ParkTimed, ParkBare, Unpark, Yield, SchedCore.Spawn, SetLast, TakePermit,
      WakeN, RwLock.Do, MainWaits, End, Reap, Scheduled, Asked, Met;
    if e.Calls? {
      match e.o {
        case Rw(r, o) => RwKeeps(s, r, o);
        case _ =>
      }
    }
  }

  lemma RwKeeps(s: State, r: nat, o: RwLock.Op)
    ensures var t := RwCall(s, r, o);
      t.joinable == s.joinable && t.handles == s.handles && t.fibers == s.fibers
      && (t.main == s.main || s.core.cur == 0) && t.pc.Keys >= s.pc.Keys
      && forall d | d in t.pc :: if d in s.pc && t.pc[d] == s.pc[d] then true else d == s.core.cur && t.pc[d] == InRw(r)
  {
    hide WakeN, RwLock.Do, ParkOn, MainWaits;
  }

  lemma CallPc(s: State, o: Op, d: nat)
    requires Inv(s) && Enabled(s, Calls(o)) && d in s.pc && d != s.core.cur
    ensures var t := Call(s, o); (d in t.pc && t.pc[d] == s.pc[d]) || (d !in t.pc && Buries(s, Calls(o), d))
  {
    hide Inv, WakeHead, WakeAll, ParkOn, ParkTimed, ParkBare, Unpark, Yield, SchedCore.Spawn, SetLast, TakePermit,
      RwCall, Finish, End, Reap, Wake;
    match o {
      case Rw(r, op) => RwKeeps(s, r, op);
      case Spawning(c, _, _) => PcIsCo(s);
      case Exit => FinishPc(s, d);
      case _ =>
    }
  }

  lemma FinishPc(s: State, d: nat)
    ensures var t := Finish(s);
      && (d != s.core.cur && d in s.pc ==> d in t.pc && t.pc[d] == s.pc[d])
      && t.main == s.main
  {
    hide WakeAll, End, Reap;
  }

  /** Nobody else's place in its calls is touched, but what is freed is forgotten. */
  lemma PcStays(s: State, e: Event, d: nat)
    requires Inv(s) && Enabled(s, e) && d in s.pc && d != s.core.cur
    ensures var t := Next(s, e); (d in t.pc && t.pc[d] == s.pc[d]) || (d !in t.pc && Buries(s, e, d))
  {
    hide Inv, Call, ParkOn, ParkBare, Reap, Scheduled, RwLock.Do, Met;
    if e.Calls? {
      CallPc(s, e.o, d);
    }
  }

  lemma PcIsCo(s: State)
    requires Inv(s)
    ensures s.pc.Keys == s.core.co.Keys
  {
    hide Part, Wakened, RwLinked, Joined, HomeAt;
  }

  lemma CallHandles(s: State, o: Op, c: nat)
    requires c in s.handles && c in Call(s, o).joinable
    ensures c in Call(s, o).handles || o == Join(c)
  {
    hide WakeHead, WakeAll, ParkOn, ParkTimed, ParkBare, Unpark, Yield, SchedCore.Spawn, SetLast, TakePermit, RwCall,
      Finish, Reap, Wake;
    match o {
      case Rw(r, op) => RwKeeps(s, r, op);
      case Exit =>
        if s.core.cur > 0 {
          FinishHandles(s, c);
        }
      case _ =>
    }
  }

  lemma FinishHandles(s: State, c: nat)
    requires c in s.handles && c in Finish(s).joinable
    ensures c in Finish(s).handles
  {
    hide WakeAll, End, Reap;
  }

  lemma HandleStays(s: State, e: Event, c: nat)
    requires Enabled(s, e) && c in s.handles && c in Next(s, e).joinable
    ensures c in Next(s, e).handles || e == Calls(Join(c))
  {
    hide Call, ParkOn, ParkBare, Reap, Scheduled, RwLock.Do, Met, Asked;
    if e.Calls? {
      CallHandles(s, e.o, c);
    }
  }

  lemma MainStays(s: State, e: Event, c: nat)
    requires Enabled(s, e) && s.main == Driving(ForEnd(c)) && c in Next(s, e).joinable
    ensures Next(s, e).main == s.main
  {
    hide WakeHead, WakeAll, ParkOn, ParkTimed, ParkBare, Unpark, Yield, SchedCore.Spawn, SetLast, TakePermit, WakeN,
      RwCall, MainWaits, End, Reap, Scheduled, Met, Asked;
    if e.Calls? && e.o.Rw? {
      RwKeeps(s, e.o.r, e.o.o);
    }
  }

  /** A join takes over its handle's claim. */
  lemma JoinClaims(s: State, c: nat)
    requires Enabled(s, Calls(Join(c))) && c in Next(s, Calls(Join(c))).joinable
    ensures Claimed(Next(s, Calls(Join(c))), c)
  {
    hide ParkOn, Reap;
    var u := Next(s, Calls(Join(c)));
    if s.core.cur > 0 {
      assert s.core.cur in u.pc && u.pc[s.core.cur] == InJoin(c);
    }
  }

  lemma ClaimStays(s: State, e: Event, c: nat)
    requires Inv(s) && Kept(s) && Enabled(s, e) && c in Next(s, e).joinable
    ensures Claimed(Next(s, e), c)
  {
    hide Inv, Next, Enabled;
    if c !in s.joinable {
      JoinableMoves(s, e, c);
      SpawnClaims(s, e, c);
    } else if e == Calls(Join(c)) {
      JoinClaims(s, c);
    } else if c in s.handles {
      HandleStays(s, e, c);
    } else if s.main == Driving(ForEnd(c)) {
      MainStays(s, e, c);
    } else {
      var d :| d in s.pc && s.pc[d] == InJoin(c);
      if d == s.core.cur {
        JoinerFrees(s, e, c);
        assert false;
      } else if d in Next(s, e).pc {
        PcStays(s, e, d);
      } else {
        GoneEnded(s, e, d);
        assert false;
      }
    }
  }

  lemma SpawnClaims(s: State, e: Event, c: nat)
    requires Enabled(s, e) && e.Calls? && e.o.Spawning? && e.o.c == c && e.o.join
    ensures c in Next(s, e).handles
  {
  }

  lemma GoneEnded(s: State, e: Event, d: nat)
    requires Inv(s) && Enabled(s, e) && d in s.pc && d != s.core.cur && d !in Next(s, e).pc
    ensures Is(s.core, d, Ended)
  {
    hide Inv, Next, Enabled;
    EndsOnly(s, e, d);
    StepInv(s, e);
    PcIsCo(s);
    PcIsCo(Next(s, e));
  }

  lemma JoinerFrees(s: State, e: Event, c: nat)
    requires Inv(s) && Enabled(s, e) && s.core.cur in s.pc && s.pc[s.core.cur] == InJoin(c)
    ensures c !in Next(s, e).joinable
  {
    hide Inv, Part;
    PcIsCo(s);
    PartOf(s);
    NoZero(s.core);
  }

  lemma NoZero(s: Core)
    requires Part(s)
    ensures 0 !in s.co
  {
  }

  lemma EndedKept(s: State, e: Event, c: nat)
    requires Inv(s) && Kept(s) && Enabled(s, e) && Is(Next(s, e).core, c, Ended)
    ensures var t := Next(s, e); c in t.joinable && c in t.pc && t.pc[c] == Body
  {
    EndsOnly(s, e, c);
    if Ends(s, e, c) {
      ExitKept(s, c);
    } else {
      StillKept(s, e, c);
    }
  }

  lemma ExitKept(s: State, c: nat)
    requires Inv(s) && Enabled(s, Calls(Exit)) && c == s.core.cur > 0 && Is(Finish(s).core, c, Ended)
    ensures var t := Finish(s); c in t.joinable && c in t.pc && t.pc[c] == Body
  {
    hide Inv, End, WakeAll;
    FinishLives(s, c);
  }

  lemma StillKept(s: State, e: Event, c: nat)
    requires Inv(s) && Kept(s) && Enabled(s, e) && Is(Next(s, e).core, c, Ended) && Is(s.core, c, Ended)
    ensures var t := Next(s, e); c in t.joinable && c in t.pc && t.pc[c] == Body
  {
    hide Inv, Next, Enabled, Buries;
    JoinableMoves(s, e, c);
    NotRunning(s, c);
    PcStays(s, e, c);
    if Buries(s, e, c) {
      BuriedGone(s, e, c);
      assert false;
    }
  }

  lemma NotRunning(s: State, c: nat)
    requires Inv(s) && Is(s.core, c, Ended)
    ensures c != s.core.cur
  {
    hide AtHome, Wakened, RwLinked, Joined, Lists;
    assert s.core.cur > 0 ==> Is(s.core, s.core.cur, Running);
    PartOf(s);
    NoZero(s.core);
  }

  lemma BuriedGone(s: State, e: Event, c: nat)
    requires Inv(s) && Enabled(s, e) && Is(s.core, c, Ended) && Buries(s, e, c)
    ensures !Is(Next(s, e).core, c, Ended)
  {
    NotRunning(s, c);
    hide Inv;
  }

  lemma KeptStep(s: State, e: Event)
    requires Inv(s) && Kept(s) && Enabled(s, e)
    ensures Kept(Next(s, e))
  {
    hide Inv, Next, Enabled, Claimed;
    var t := Next(s, e);
    forall c | c in t.joinable
      ensures Claimed(t, c)
    {
      ClaimStays(s, e, c);
    }
    forall c | Is(t.core, c, Ended)
      ensures c in t.joinable && c in t.pc && t.pc[c] == Body
    {
      EndedKept(s, e, c);
    }
  }

  // ----- nobody drains for fibers that are gone

  /** Every fiber counted lives, and once none is left nobody sleeps in nurl_runtime_run. */
  ghost predicate Drained(s: State) {
    (forall c | c in s.fibers :: Alive(s.core, c)) && (s.fibers == {} ==> Q(s.core, Drain) == [])
  }

  /** A fiber is counted from its spawn until it ends. */
  lemma FiberMoves(s: State, e: Event, c: nat)
    requires Enabled(s, e)
    ensures c in Next(s, e).fibers <==> (c in s.fibers && !Ends(s, e, c)) || (e.Calls? && e.o.Spawning? && e.o.c == c && e.o.fiber)
  {
    hide WakeHead, WakeAll, ParkOn, ParkTimed, ParkBare, Unpark, Yield, SchedCore.Spawn, SetLast, TakePermit, RwCall,
      MainWaits, End, Reap, Scheduled, Met, Asked;
    if e.Calls? && e.o.Rw? {
      RwKeeps(s, e.o.r, e.o.o);
    }
  }

  lemma SpawnAlive(s: State, e: Event, c: nat)
    requires Enabled(s, e) && e.Calls? && e.o.Spawning? && e.o.c == c
    ensures Alive(Next(s, e).core, c)
  {
  }

  lemma LastDrains(s: State)
    requires Inv(s) && s.core.cur > 0 && InBody(s) && Finish(s).fibers == {} && s.core.cur in s.fibers
    ensures Q(Finish(s).core, Drain) == []
  {
    hide Inv, End, Part;
    PartOf(s);
    var c := s.core.cur;
    MovePart(s.core, MEnd);
    MovePart(End(s.core), MWakeAll(JoinQ(c)));
    WakeAllPart(WakeAll(End(s.core), JoinQ(c)), Drain);
  }

  lemma DrainQuietStep(s: State, e: Event)
    requires Inv(s) && Enabled(s, e) && s.fibers == {} && Q(s.core, Drain) == []
    ensures Q(Next(s, e).core, Drain) == []
  {
    hide Inv, Makes, Next, Enabled, Part;
    var ms := StepMakes(s, e);
    PartOf(s);
    NoneDrain(s, e, ms, Next(s, e).core);
    EmptyThrough(s.core, ms, Next(s, e).core, Drain);
  }

  lemma NoneDrain(s: State, e: Event, ms: seq<Move>, t: Core)
    requires Makes(s, e, ms, t) && s.fibers == {}
    ensures Leads(s.core, ms, t) && !Joins(ms, Drain)
  {
    hide Leads;
  }

  lemma DrainedStep(s: State, e: Event)
    requires Inv(s) && Drained(s) && Enabled(s, e)
    ensures Drained(Next(s, e))
  {
    hide Inv, Next, Enabled, Alive;
    var t := Next(s, e);
    forall c | c in t.fibers
      ensures Alive(t.core, c)
    {
      FiberMoves(s, e, c);
      EndsOnly(s, e, c);
      if c !in s.fibers || Ends(s, e, c) {
        SpawnAlive(s, e, c);
      }
    }
    if t.fibers == {} {
      NoFiberLeft(s, e);
    }
  }

  lemma NoFiberLeft(s: State, e: Event)
    requires Inv(s) && Drained(s) && Enabled(s, e) && Next(s, e).fibers == {}
    ensures Q(Next(s, e).core, Drain) == []
  {
    hide Inv, Next, Finish;
    if s.fibers == {} {
      DrainQuietStep(s, e);
    } else {
      var c :| c in s.fibers;
      FiberMoves(s, e, c);
      assert Ends(s, e, c);
      ExitNext(s);
      LastDrains(s);
    }
  }

  lemma ExitNext(s: State)
    requires Enabled(s, Calls(Exit)) && s.core.cur > 0
    ensures Next(s, Calls(Exit)) == Finish(s) && InBody(s)
  {
    hide Finish;
  }

  // ----- over runs

  ghost predicate Tidy(s: State) { Kept(s) && Drained(s) }

  /** In every reachable state: no ended coroutine is kept for nobody, and nobody sleeps in a drain that is over. */
  lemma {:induction false} RunTidy(ss: seq<State>, es: seq<Event>)
    requires RuntimeRuns.IsRun(ss, es)
    ensures |ss| == |es| + 1 && Inv(ss[|es|]) && Tidy(ss[|es|])
  {
    if es == [] {
      BootInv();
    } else {
      hide Inv, Enabled, Next, Kept, Drained;
      var n := |es| - 1;
      RunTidy(ss[..n + 1], es[..n]);
      StepInv(ss[n], es[n]);
      KeptStep(ss[n], es[n]);
      DrainedStep(ss[n], es[n]);
    }
  }

  // ----- calls that must move somebody

  /** A yield puts its caller last on the run queue. */
  lemma YieldsLast(s: State)
    requires Inv(s) && InBody(s)
    ensures var t, c := Call(s, Yielding), s.core.cur;
      t.core.cur == 0 && Q(t.core, RunQ) == Q(s.core, RunQ) + [c] && Is(t.core, c, Runnable) && t.pc == s.pc
  {
    hide Inv, Part;
    PartOf(s);
    RunnerFacts(s.core);
  }

  /** A spawned coroutine is last on the run queue, at the start of its body. */
  lemma SpawnsLast(s: State, c: nat, join: bool, fiber: bool)
    requires Inv(s) && Drained(s) && Enabled(s, Calls(Spawning(c, join, fiber)))
    ensures var t := Call(s, Spawning(c, join, fiber));
      && Q(t.core, RunQ) == Q(s.core, RunQ) + [c] && Is(t.core, c, Runnable) && !t.core.co[c].permit && t.pc[c] == Body
      && (c in t.handles <==> join) && (c in t.fibers <==> fiber)
  {
    hide Part, AtHome, Wakened, RwLinked;
    PcIsCo(s);
  }

  /** An unpark makes a parked coroutine runnable, first or last as asked, and answers its park 1; any other lives on with a permit. */
  lemma UnparkReaches(s: State, c: nat, front: bool)
    requires Inv(s) && Enabled(s, Calls(Unparking(c, front)))
    ensures var t, l := Call(s, Unparking(c, front)).core, Q(s.core, RunQ);
      if Is(s.core, c, Parked) then Woken(t, c, 1) && Q(t, RunQ) == if front then [c] + l else l + [c]
      else if c in s.core.co then t.co[c] == s.core.co[c].(permit := true) && t.q == s.core.q && t.tq == s.core.tq
      else t == s.core
  {
    hide Inv, Remove;
  }

  /** nurl_fiber_wake reaches a parked coroutine, and only that. */
  lemma WakingReaches(s: State, c: nat)
    ensures var t, l := Call(s, Waking(c)), Q(s.core, RunQ);
      if Is(s.core, c, Parked) then Woken(t.core, c, 1) && Q(t.core, RunQ) == l + [c] else t == s
  {
    hide Remove;
  }

  /** A broadcast makes everyone who waits on the condition runnable. */
  lemma BroadcastReaches(s: State, c: nat, w: nat)
    requires Inv(s) && w in Q(s.core, CondQ(c))
    ensures var t := Call(s, Broadcast(c)); Is(t.core, w, Runnable) && Q(t.core, CondQ(c)) == []
  {
    hide Inv, Part, WakeAll;
    PartOf(s);
    WakeAllPart(s.core, CondQ(c));
    WakesAll(s.core, CondQ(c), w);
  }

  lemma {:induction false} WakesAll(s: Core, n: QName, w: nat)
    requires Part(s) && n != RunQ && !n.RwQ? && (w in Q(s, n) || Is(s, w, Runnable))
    ensures Is(WakeAll(s, n), w, Runnable)
    decreases |Q(s, n)|
  {
    if Q(s, n) != [] {
      var h := Q(s, n)[0];
      HeadCoroutine(s, n);
      WakeHeadPart(s, n);
      WakeHeadFacts(s, n);
      hide Part, WakeHead;
      if w in Q(s, n) && w != h {
        assert w in Q(s, n)[1..];
      }
      WakesAll(WakeHead(s, n), n, w);
    }
  }

  lemma HeadCoroutine(s: Core, n: QName)
    requires Part(s) && n != RunQ && !n.RwQ? && Q(s, n) != []
    ensures Q(s, n)[0] != MAIN && Is(s, Q(s, n)[0], Parked)
  {
    hide NoDup, Timed;
    assert Q(s, n)[0] in Q(s, n);
  }

  /** A park without a permit leaves its caller asleep, on the timer list exactly when it gave a deadline. */
  lemma ParkAsleep(s: State, at: Option<int>)
    requires Inv(s) && InBody(s) && !s.core.co[s.core.cur].permit
    ensures var t, me := Call(s, Park(at, None)), s.core.cur;
      && t.core.cur == 0 && Is(t.core, me, Parked) && t.pc[me] == InPark && (me in t.core.tq <==> at.Some?)
      && t.locked == s.locked && forall n :: Q(t.core, n) == Q(s.core, n)
  {
    hide Inv, Part, TimerPlace;
    PartOf(s);
    RunnerFacts(s.core);
    if at.Some? {
      var core := SetLast(s.core, s.core.cur, 0);
      assert ParkTimed(core, at.value).tq[TimerPlace(core.tq, core.co, at.value)] == s.core.cur;
    }
  }
}
