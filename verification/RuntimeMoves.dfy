/**
 unikernel/runtime_bare.c: every step of the runtime is a row of scheduler moves, and which step may make
 which move. So who is woken, by what, and when.
 */
module RuntimeMoves {
  import opened Options
  import opened SchedCore
  import opened SchedMoves
  import opened Runtime
  import opened RuntimeSteps
  import opened RuntimeRuns
  import RwLock

  /** Calls that free mutex m. */
  predicate Frees(e: Event, m: nat) {
    e.Calls? && (e.o == Unlock(m) || (e.o.CondWait? && e.o.m == m) || (e.o.Park? && e.o.hand == Some(m)))
  }

  /** What may wake the waiters of a queue. */
  predicate WakesFrom(s: State, e: Event, n: QName) {
    match n
    case RunQ => false
    case MutexQ(m) => Frees(e, m)
    case CondQ(c) => e == Calls(Signal(c)) || e == Calls(Broadcast(c))
    case RwQ(r) => e == Calls(Op.Rw(r, RwLock.UnRd)) || e == Calls(Op.Rw(r, RwLock.UnWr))
    case JoinQ(t) => e == Calls(Exit) && s.core.cur == t
    case Drain => e == Calls(Exit)
  }

  /** What may put its caller on a queue. */
  predicate Enters(s: State, e: Event, n: QName) {
    match n
    case RunQ => false
    case MutexQ(m) => Asks(s, e, m)
    case CondQ(c) => e.Calls? && e.o.CondWait? && e.o.c == c
    case RwQ(r) => e == Calls(Op.Rw(r, RwLock.Rd)) || e == Calls(Op.Rw(r, RwLock.Wr))
    case JoinQ(t) => e == Calls(Join(t)) && !Is(s.core, t, Ended)
    case Drain => (e == Calls(Draining) || (e == Resumes && s.core.cur in s.pc && s.pc[s.core.cur] == InDrain)) && s.fibers != {}
  }

  /** The step goes on inside pthread_mutex_lock(m): called, woken in it, or coming to it from a condition's wait. */
  predicate Asks(s: State, e: Event, m: nat) {
    match e
    case Calls(o) => o == Lock(m)
    case Resumes => s.core.cur in s.pc && (s.pc[s.core.cur] == InLock(m) || (s.pc[s.core.cur].InCond? && s.pc[s.core.cur].m == m))
    case MainOn => s.main.Driving? && (s.main.goal == ForMutex(m) || (s.main.goal.ForCond? && s.main.goal.m == m))
    case Steps(_, _, _) => false
  }

  /** What may free coroutine c: its join, its detach, or its own end. */
  predicate Buries(s: State, e: Event, c: nat) {
    match e
    case Calls(o) => o == Join(c) || o == Detach(c) || (o == Exit && s.core.cur == c && c !in s.joinable)
    case Resumes => s.core.cur in s.pc && s.pc[s.core.cur] == InJoin(c)
    case MainOn => s.main == Driving(ForEnd(c))
    case Steps(_, _, _) => false
  }

  /** Which moves step e may make. */
  predicate MoveOf(s: State, e: Event, m: Move) {
    match m
    case MWakeHead(n) => WakesFrom(s, e, n)
    case MWakeAll(n) => WakesFrom(s, e, n)
    case MExpire(now) => e.Steps? && (now == e.first || now == e.now)
    case MPick(_) => e.Steps?
    case MUnpark(c, front) => e == Calls(Unparking(c, front)) || e == Calls(Waking(c))
    case MParkOn(n, front) => Enters(s, e, n) && (front <==> n.JoinQ? || n.Drain?)
    case MPark => e.Calls? && e.o.Park? && e.o.at == None
    case MParkTimed(at) => e == Calls(Sleep(at)) || (e.Calls? && e.o.Park? && e.o.at == Some(at))
    case MMainWaits(r) => Enters(s, e, RwQ(r))
    case MReap(c) => Buries(s, e, c)
    case MSpawn(c) => e.Calls? && e.o.Spawning? && e.o.c == c
    case MYield => e == Calls(Yielding)
    case MEnd => e == Calls(Exit)
    case MTake => e.Calls? && e.o.Park?
    case MForget => e.Calls? && e.o.Park?
  }

  ghost predicate Makes(s: State, e: Event, ms: seq<Move>, t: Core) {
    Leads(s.core, ms, t) && forall m | m in ms :: MoveOf(s, e, m)
  }

  lemma MakesNone(s: State, e: Event)
    ensures Makes(s, e, [], s.core)
  {
  }

  lemma MakesOne(s: State, e: Event, m: Move, t: Core)
    requires Allowed(s.core, m) && MoveOf(s, e, m) && t == Made(s.core, m)
    ensures Makes(s, e, [m], t)
  {
    OneMove(s.core, m);
  }

  lemma MakesMore(s: State, e: Event, ms: seq<Move>, t: Core, m: Move, u: Core)
    requires Makes(s, e, ms, t) && Allowed(t, m) && MoveOf(s, e, m) && u == Made(t, m)
    ensures Makes(s, e, ms + [m], u)
  {
    hide Allowed, Made, MoveOf;
    OneMove(t, m);
    LeadsOn(s.core, ms, t, [m], u);
  }

  lemma ReleaseMakes(s: State, e: Event, ms: seq<Move>, t: State, m: nat) returns (more: seq<Move>)
    requires Makes(s, e, ms, t.core) && Frees(e, m)
    ensures Makes(s, e, more, Release(t, m).core)
  {
    hide Makes, WakeHead;
    more := ms;
    if Q(t.core, MutexQ(m)) != [] {
      MakesMore(s, e, ms, t.core, MWakeHead(MutexQ(m)), WakeHead(t.core, MutexQ(m)));
      more := ms + [MWakeHead(MutexQ(m))];
    }
  }

  lemma LockTestMakes(s: State, e: Event, m: nat) returns (ms: seq<Move>)
    requires Asks(s, e, m)
    ensures Makes(s, e, ms, LockTest(s, m).core)
  {
    ms := [];
    if s.core.cur > 0 && m in s.locked {
      ms := [MParkOn(MutexQ(m), false)];
      MakesOne(s, e, MParkOn(MutexQ(m), false), LockTest(s, m).core);
    }
  }

  lemma {:induction false} WakeNMakes(s: State, e: Event, ms: seq<Move>, t: Core, n: QName, k: nat) returns (more: seq<Move>)
    requires Makes(s, e, ms, t) && WakesFrom(s, e, n)
    ensures Makes(s, e, more, WakeN(t, n, k))
    decreases k
  {
    hide Makes, WakeHead;
    if k == 0 || Q(t, n) == [] {
      more := ms;
    } else {
      MakesMore(s, e, ms, t, MWakeHead(n), WakeHead(t, n));
      more := WakeNMakes(s, e, ms + [MWakeHead(n)], WakeHead(t, n), n, k - 1);
    }
  }

  lemma RwMakes(s: State, r: nat, o: RwLock.Op) returns (ms: seq<Move>)
    requires Inv(s) && (if s.core.cur > 0 then InBody(s) else s.main == Free) && Asked(s, Op.Rw(r, o))
    ensures Makes(s, Calls(Op.Rw(r, o)), ms, RwCall(s, r, o).core)
  {
    hide Inv, WakeN, ParkAt;
    var e := Calls(Op.Rw(r, o));
    var v := LockAt(s, r);
    var (t, out) := RwLock.Do(v, Me(s), o);
    ms := [];
    if o == RwLock.UnRd || o == RwLock.UnWr {
      MakesNone(s, e);
      ms := WakeNMakes(s, e, [], s.core, RwQ(r), if |t.queue| <= |v.queue| then |v.queue| - |t.queue| else 0);
      NoneWoken(s.core, RwQ(r));
    } else if out == RwLock.Waits {
      if s.core.cur > 0 {
        ParkAtIs(s, t, r);
        ms := [MParkOn(RwQ(r), false)];
        MakesOne(s, e, MParkOn(RwQ(r), false), ParkOn(s.core, RwQ(r), false));
      } else {
        MainNowhere(s);
        ms := [MMainWaits(r)];
        MakesOne(s, e, MMainWaits(r), MainWaits(s.core, r));
      }
    }
  }

  lemma NoneWoken(s: Core, n: QName)
    ensures WakeN(s, n, 0) == s
  {
  }

  lemma ParkAtIs(s: State, t: RwLock.Rw, r: nat)
    ensures ParkAt(s.(rw := s.rw[r := t]), RwQ(r), false, InRw(r)).core == ParkOn(s.core, RwQ(r), false)
  {
  }

  lemma ExitMakes(s: State) returns (ms: seq<Move>)
    requires Inv(s) && s.core.cur > 0 && InBody(s)
    ensures Makes(s, Calls(Exit), ms, Finish(s).core)
  {
    hide Inv, Makes, End, WakeAll, Reap;
    var e, c := Calls(Exit), s.core.cur;
    MakesOne(s, e, MEnd, End(s.core));
    var t := s.(core := WakeAll(End(s.core), JoinQ(c)), fibers := s.fibers - {c});
    MakesMore(s, e, [MEnd], End(s.core), MWakeAll(JoinQ(c)), t.core);
    EndedInv(s, t);
    ms := [MEnd] + [MWakeAll(JoinQ(c))];
    var u := t;
    if c in s.fibers && t.fibers == {} {
      u := t.(core := WakeAll(t.core, Drain));
      MakesMore(s, e, ms, t.core, MWakeAll(Drain), u.core);
      ms := ms + [MWakeAll(Drain)];
      DrainQuiet(t, u, c);
    }
    if c !in s.joinable {
      MakesMore(s, e, ms, u.core, MReap(c), Reap(u.core, c));
      ms := ms + [MReap(c)];
    }
  }

  lemma DrainQuiet(t: State, u: State, c: nat)
    requires Inv(t) && Is(t.core, c, Ended) && u.core == WakeAll(t.core, Drain)
    ensures Is(u.core, c, Ended)
  {
    hide AtHome, Wakened, RwLinked, Joined, WakeAll;
    WakeAllPart(t.core, Drain);
    WakeAllQuiet(t.core, Drain);
    QuietEnded(t.core, u.core, c);
  }

  lemma ParkMakes(s: State, at: Option<int>, hand: Option<nat>) returns (ms: seq<Move>)
    requires Inv(s) && (if s.core.cur > 0 then InBody(s) else s.main == Free)
    ensures Makes(s, Calls(Park(at, hand)), ms, ParkCall(s, at, hand).core)
  {
    hide Inv, Makes, Release, ParkTimed, ParkBare, SetLast, TakePermit;
    var e, c := Calls(Park(at, hand)), s.core.cur;
    MakesNone(s, e);
    ms := [];
    if c > 0 {
      var t := s;
      if c in s.core.co && s.core.co[c].permit {
        MakesOne(s, e, MTake, TakePermit(s.core));
        ms := [MTake];
        t := s.(core := TakePermit(s.core));
      } else {
        var core := SetLast(s.core, c, 0);
        SetLastCur(s.core, c);
        MakesOne(s, e, MForget, core);
        var m := if at.Some? then MParkTimed(at.value) else MPark;
        t := s.(core := if at.Some? then ParkTimed(core, at.value) else ParkBare(core), pc := s.pc[c := InPark]);
        MakesMore(s, e, [MForget], core, m, t.core);
        ms := [MForget] + [m];
      }
      if hand.Some? {
        ms := ReleaseMakes(s, e, ms, t, hand.value);
      }
    }
  }

  lemma SetLastCur(s: Core, c: nat)
    ensures SetLast(s, c, 0).cur == s.cur
  {
  }

  lemma CallMakes(s: State, o: Op) returns (ms: seq<Move>)
    requires Inv(s) && (if s.core.cur > 0 then InBody(s) else s.main == Free) && Asked(s, o)
    ensures Makes(s, Calls(o), ms, Call(s, o).core)
  {
    hide Inv, Makes, RwCall, Finish, ParkCall, Release, LockTest, WakeHead, WakeAll, Unpark, ParkTimed, ParkOn, Yield,
      Reap, SchedCore.Spawn;
    var e := Calls(o);
    MakesNone(s, e);
    ms := [];
    match o {
      case Lock(m) => ms := LockTestMakes(s, e, m);
      case Unlock(m) => ms := ReleaseMakes(s, e, [], s, m);
      case CondWait(c, m) =>
        var t := s.(main := Driving(ForCond(c, SeqOf(s, c), m)));
        if s.core.cur > 0 {
          t := ParkAt(s, CondQ(c), false, InCond(c, m));
          MakesOne(s, e, MParkOn(CondQ(c), false), t.core);
          ms := [MParkOn(CondQ(c), false)];
        }
        ms := ReleaseMakes(s, e, ms, t, m);
      case Signal(c) =>
        if Q(s.core, CondQ(c)) != [] {
          MakesOne(s, e, MWakeHead(CondQ(c)), WakeHead(s.core, CondQ(c)));
          ms := [MWakeHead(CondQ(c))];
        }
      case Broadcast(c) =>
        MakesOne(s, e, MWakeAll(CondQ(c)), WakeAll(s.core, CondQ(c)));
        ms := [MWakeAll(CondQ(c))];
      case Rw(r, op) => ms := RwMakes(s, r, op);
      case Join(t) =>
        if Is(s.core, t, Ended) {
          MakesOne(s, e, MReap(t), Reap(s.core, t));
          ms := [MReap(t)];
        } else if s.core.cur > 0 {
          MakesOne(s, e, MParkOn(JoinQ(t), true), ParkOn(s.core, JoinQ(t), true));
          ms := [MParkOn(JoinQ(t), true)];
        }
      case Detach(t) =>
        if Is(s.core, t, Ended) {
          MakesOne(s, e, MReap(t), Reap(s.core, t));
          ms := [MReap(t)];
        }
      case Spawning(c, _, _) =>
        MakesOne(s, e, MSpawn(c), SchedCore.Spawn(s.core, c));
        ms := [MSpawn(c)];
      case Exit =>
        if s.core.cur > 0 {
          ms := ExitMakes(s);
        }
      case Draining =>
        if s.core.cur > 0 && s.fibers != {} {
          MakesOne(s, e, MParkOn(Drain, true), ParkOn(s.core, Drain, true));
          ms := [MParkOn(Drain, true)];
        }
      case Park(at, hand) => ms := ParkMakes(s, at, hand);
      case Sleep(until) =>
        if s.core.cur > 0 {
          MakesOne(s, e, MParkTimed(until), ParkTimed(s.core, until));
          ms := [MParkTimed(until)];
        }
      case Yielding =>
        if s.core.cur > 0 {
          MakesOne(s, e, MYield, Yield(s.core));
          ms := [MYield];
        }
      case Unparking(c, front) =>
        UnparkFree(s, c);
        MakesOne(s, e, MUnpark(c, front), Unpark(s.core, c, front));
        ms := [MUnpark(c, front)];
      case Waking(c) =>
        UnparkFree(s, c);
        if Is(s.core, c, Parked) {
          MakesOne(s, e, MUnpark(c, false), Unpark(s.core, c, false));
          ms := [MUnpark(c, false)];
        }
      case TryLock(_) =>
    }
  }

  lemma UnparkFree(s: State, c: nat)
    requires Inv(s) && (Is(s.core, c, Parked) ==> c in s.pc && s.pc[c] == InPark)
    ensures Is(s.core, c, Parked) ==> forall n :: c !in Q(s.core, n)
  {
    hide Inv;
    if Is(s.core, c, Parked) {
      ParkedNowhere(s, c);
    }
  }

  lemma ResumeMakes(s: State) returns (ms: seq<Move>)
    requires Inv(s) && Enabled(s, Resumes)
    ensures Makes(s, Resumes, ms, Resume(s).core)
  {
    hide Inv, Makes, LockTest, ParkOn, ParkBare, Reap;
    MakesNone(s, Resumes);
    ms := [];
    match s.pc[s.core.cur] {
      case InLock(m) => ms := LockTestMakes(s, Resumes, m);
      case InCond(_, m) => ms := LockTestMakes(s, Resumes, m);
      case InRw(r) => RunnerGranted(s, r);
      case InJoin(t) =>
        JoinedEnded(s, t);
        MakesOne(s, Resumes, MReap(t), Reap(s.core, t));
        ms := [MReap(t)];
      case InDrain =>
        if s.fibers != {} {
          MakesOne(s, Resumes, MParkOn(Drain, true), ParkOn(s.core, Drain, true));
          ms := [MParkOn(Drain, true)];
        }
      case _ =>
    }
  }

  /** A joiner runs again only when the coroutine it joins has ended. */
  lemma JoinedEnded(s: State, t: nat)
    requires Inv(s) && s.core.cur > 0 && s.core.cur in s.pc && s.pc[s.core.cur] == InJoin(t)
    ensures Is(s.core, t, Ended)
  {
    hide AtHome, Wakened, RwLinked;
    RunnerFacts(s.core);
    assert s.pc[s.core.cur].InJoin?;
  }

  lemma MainMakes(s: State, g: Goal) returns (ms: seq<Move>)
    requires Inv(s) && s.core.cur == 0 && s.main == Driving(g) && Met(s, g)
    ensures Makes(s, MainOn, ms, MainGoes(s, g).core)
  {
    hide Inv, Makes, LockTest, Reap;
    MakesNone(s, MainOn);
    ms := [];
    match g {
      case ForMutex(m) => ms := LockTestMakes(s, MainOn, m);
      case ForCond(_, _, m) => ms := LockTestMakes(s, MainOn, m);
      case ForEnd(t) =>
        MakesOne(s, MainOn, MReap(t), Reap(s.core, t));
        ms := [MReap(t)];
      case _ =>
    }
  }

  /** Every step is a row of moves, each one that the step may make. */
  lemma StepMakes(s: State, e: Event) returns (ms: seq<Move>)
    requires Inv(s) && Enabled(s, e)
    ensures Makes(s, e, ms, Next(s, e).core)
  {
    hide Inv, Makes, Call, Resume, MainGoes, Expire, Pick;
    match e {
      case Calls(o) => ms := CallMakes(s, o);
      case Resumes => ms := ResumeMakes(s);
      case MainOn => ms := MainMakes(s, s.main.goal);
      case Steps(first, now, pick) =>
        if Due(s.core, first) {
          MakesOne(s, e, MExpire(first), Expire(s.core, first));
          ms := [MExpire(first)];
        } else if Q(s.core, RunQ) != [] {
          MakesOne(s, e, MPick(pick), Pick(s.core, pick));
          ms := [MPick(pick)];
        } else {
          MakesOne(s, e, MExpire(now), Expire(s.core, now));
          ms := [MExpire(now)];
        }
    }
  }

  // ----- who leaves a wait queue, and by what

  /** Nobody leaves a mutex, condition, lock, join or drain queue but by the calls that wake from it. */
  lemma WaitsOn(s: State, e: Event, n: QName, c: nat)
    requires Inv(s) && Enabled(s, e) && n != RunQ && c in Q(s.core, n) && !WakesFrom(s, e, n)
    ensures c in Q(Next(s, e).core, n)
  {
    hide Inv, Makes, Next, Enabled;
    var ms := StepMakes(s, e);
    PartOf(s);
    MakesOnly(s, e, ms, Next(s, e).core, n);
    QueuedThrough(s.core, ms, Next(s, e).core, n, c);
  }

  lemma MakesOnly(s: State, e: Event, ms: seq<Move>, t: Core, n: QName)
    requires Makes(s, e, ms, t)
    ensures Leads(s.core, ms, t) && (!WakesFrom(s, e, n) ==> !Leaves(ms, n))
  {
    hide WakesFrom, Leads;
  }

  /** So over runs: without such a call a waiter sleeps on, whatever else happens. */
  lemma {:induction false} SleepsOn(ss: seq<State>, es: seq<Event>, n: QName, c: nat)
    requires RunsFrom(ss, es) && Inv(ss[0]) && n != RunQ && c in Q(ss[0].core, n)
    requires forall i | 0 <= i < |es| :: !WakesFrom(ss[i], es[i], n)
    ensures Inv(ss[|es|]) && c in Q(ss[|es|].core, n)
  {
    if es != [] {
      hide Inv, Next, Enabled, WakesFrom;
      var k := |es| - 1;
      assert forall i | 0 <= i < k :: ss[..k + 1][i] == ss[i] && es[..k][i] == es[i];
      SleepsOn(ss[..k + 1], es[..k], n, c);
      WaitsOn(ss[k], es[k], n, c);
      StepInv(ss[k], es[k]);
    }
  }

  // ----- deadlines

  /** A park with a deadline, its caller holding no permit, is armed with that deadline and no answer yet. */
  lemma ParkArms(s: State, at: int, hand: Option<nat>)
    requires Inv(s) && InBody(s) && !s.core.co[s.core.cur].permit
    ensures var t := Call(s, Park(Some(at), hand)).core; Armed(t, s.core.cur, at) && t.co[s.core.cur].last == 0
  {
    hide Inv, ParkTimed, Release, Part, Made, SetLast;
    var c := s.core.cur;
    PartOf(s);
    RunnerFacts(s.core);
    ForgetPart(s.core);
    var core := SetLast(s.core, c, 0);
    Forgets(s.core, c);
    ParkTimedPart(core, at);
    ParkTimedArms(core, at);
    TimedLast(core, at);
    var t := s.(core := ParkTimed(core, at), pc := s.pc[c := InPark]);
    if hand.Some? {
      ReleaseSpares(t, hand.value, c, at);
    }
  }

  lemma Forgets(s: Core, c: nat)
    requires c in s.co
    ensures SetLast(s, c, 0).cur == s.cur && c in SetLast(s, c, 0).co && SetLast(s, c, 0).co[c].last == 0
  {
  }

  lemma TimedLast(s: Core, at: int)
    requires s.cur in s.co
    ensures s.cur in ParkTimed(s, at).co && ParkTimed(s, at).co[s.cur].last == s.co[s.cur].last
  {
    hide TimerPlace;
  }

  lemma ReleaseSpares(s: State, m: nat, c: nat, at: int)
    requires Part(s.core) && Armed(s.core, c, at)
    ensures var t := Release(s, m).core; Armed(t, c, at) && t.co[c].last == s.core.co[c].last
  {
    hide Part, WakeHead;
    if Q(s.core, MutexQ(m)) != [] {
      NoQueue(s.core, c);
      ArmedMove(s.core, MWakeHead(MutexQ(m)), c, at);
      WokenHow(s.core, MWakeHead(MutexQ(m)), c);
    }
  }

  /** A sleep is armed with the time it is to last until. */
  lemma SleepArms(s: State, until: int)
    requires Inv(s) && InBody(s)
    ensures Armed(Call(s, Sleep(until)).core, s.core.cur, until)
  {
    hide Inv, ParkTimed, Part;
    PartOf(s);
    ParkTimedArms(s.core, until);
  }

  predicate Unparks(e: Event, c: nat) { e.Calls? && (e.o == Waking(c) || (e.o.Unparking? && e.o.c == c)) }

  /** The clock readings of a step. */
  predicate Before(e: Event, at: int) { e.Steps? ==> e.first < at && e.now < at }

  /**
   A timed park ends with 1 by an unpark of its coroutine, with 0 by a step whose clock has reached the
   deadline, and by nothing else; and the first step whose clock has reached it does end it.
   */
  lemma ArmedStep(s: State, e: Event, c: nat, at: int)
    requires Inv(s) && Enabled(s, e) && Armed(s.core, c, at)
    ensures var t := Next(s, e).core;
      if Unparks(e, c) then Woken(t, c, 1)
      else if Before(e, at) then Armed(t, c, at)
      else if at <= e.first then Woken(t, c, 0)
      else Armed(t, c, at) || Woken(t, c, 0)
  {
    hide Inv, Makes, Armed, Woken, Part;
    PartOf(s);
    if e.Steps? {
      StepsArmed(s, e, c, at);
    } else if Unparks(e, c) {
      UnparkArmed(s, e, c, at);
    } else {
      hide Next, Enabled;
      var ms := StepMakes(s, e);
      MakesSpare(s, e, ms, Next(s, e).core, c, at);
      ArmedThrough(s.core, ms, Next(s, e).core, c, at);
    }
  }

  lemma MakesSpare(s: State, e: Event, ms: seq<Move>, t: Core, c: nat, at: int)
    requires Makes(s, e, ms, t) && !Unparks(e, c) && !e.Steps?
    ensures Leads(s.core, ms, t) && Spares(ms, c, at)
  {
    hide Leads;
    assert forall m | m in ms :: MoveOf(s, e, m);
  }

  lemma UnparkArmed(s: State, e: Event, c: nat, at: int)
    requires Inv(s) && Enabled(s, e) && Armed(s.core, c, at) && Unparks(e, c)
    ensures Woken(Next(s, e).core, c, 1)
  {
    hide Inv, Part, Unpark, Woken;
    PartOf(s);
    NoQueue(s.core, c);
    ArmedMove(s.core, MUnpark(c, e.o.Unparking? && e.o.front), c, at);
  }

  lemma StepsArmed(s: State, e: Event, c: nat, at: int)
    requires Inv(s) && Enabled(s, e) && Armed(s.core, c, at) && e.Steps?
    ensures var t := Next(s, e).core;
      if Before(e, at) then Armed(t, c, at) else if at <= e.first then Woken(t, c, 0) else Armed(t, c, at) || Woken(t, c, 0)
  {
    hide Inv, Part, Expire, Pick, Woken, Made;
    PartOf(s);
    SoonestFirst(s.core, c);
    ExpireExact(s.core, e.first, c, at);
    ExpireExact(s.core, e.now, c, at);
    if Q(s.core, RunQ) != [] {
      ArmedMove(s.core, MPick(e.pick), c, at);
      PickIs(s.core, e.pick);
    }
  }

  lemma PickIs(s: Core, k: nat)
    requires k < |Q(s, RunQ)| && s.cur == 0
    ensures Allowed(s, MPick(k)) && Made(s, MPick(k)) == Pick(s, k)
  {
  }

  /** Over runs: while no clock reading has reached the deadline and nobody unparks it, the coroutine stays parked, its deadline armed. */
  lemma {:induction false} ArmedRun(ss: seq<State>, es: seq<Event>, c: nat, at: int)
    requires RunsFrom(ss, es) && Inv(ss[0]) && Armed(ss[0].core, c, at)
    requires forall i | 0 <= i < |es| :: Before(es[i], at) && !Unparks(es[i], c)
    ensures Inv(ss[|es|]) && Armed(ss[|es|].core, c, at)
  {
    if es != [] {
      hide Inv, Next, Enabled, Armed, Before, Unparks;
      var k := |es| - 1;
      assert forall i | 0 <= i < k :: es[..k][i] == es[i];
      ArmedRun(ss[..k + 1], es[..k], c, at);
      ArmedStep(ss[k], es[k], c, at);
      StepInv(ss[k], es[k]);
    }
  }
}
