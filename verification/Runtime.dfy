/**
 unikernel/runtime_bare.c: the whole runtime as a machine whose steps are the stretches between
 switch points. Each step is one call by whoever runs, one resumption inside a call that waited,
 main going on once what it drives for has come, or one scheduler step.
 */
module Runtime {
  import opened Options
  import opened SchedCore
  import RwLock

  /** Where a coroutine will go on when it next runs: in its body, or inside a call that waited. */
  datatype Pc = Body | InLock(m: nat) | InCond(c: nat, m: nat) | InRw(r: nat) | InJoin(t: nat) | InDrain | InPark

  /** What the main context drives the scheduler for. */
  datatype Goal = ForMutex(m: nat) | ForCond(c: nat, seen: nat, m: nat) | ForRw(r: nat) | ForEnd(t: nat) | ForAll

  datatype MainPc = Free | Driving(goal: Goal)

  /** handles are the joinable handles nobody has joined or detached yet. */
  datatype State = State(core: Core, pc: map<nat, Pc>, main: MainPc, locked: set<nat>, rw: map<nat, RwLock.Rw>,
                         seqs: map<nat, nat>, joinable: set<nat>, handles: set<nat>, fibers: set<nat>)

  const BOOT := State(Core(map[], [], map[], 0), map[], Free, {}, map[], map[], {}, {}, {})

  function LockAt(s: State, r: nat): RwLock.Rw { if r in s.rw then s.rw[r] else RwLock.FREE }

  function SeqOf(s: State, c: nat): nat { if c in s.seqs then s.seqs[c] else 0 }

  /** The holder who is running: the coroutine, or the main context. */
  function Me(s: State): nat { if s.core.cur > 0 then s.core.cur else MAIN }

  /** The queue a coroutine waits on inside a call. */
  function Home(p: Pc): Option<QName> {
    match p
    case Body => None
    case InLock(m) => Some(MutexQ(m))
    case InCond(c, _) => Some(CondQ(c))
    case InRw(r) => Some(RwQ(r))
    case InJoin(t) => Some(JoinQ(t))
    case InDrain => Some(Drain)
    case InPark => None
  }

  // ----- pieces of calls

  function ParkAt(s: State, n: QName, front: bool, p: Pc): State {
    s.(core := ParkOn(s.core, n, front), pc := s.pc[s.core.cur := p])
  }

  /** nurl__bare_mutex_release: free the mutex and wake one waiter, which will test it again. */
  function Release(s: State, m: nat): State {
    var t := s.(locked := s.locked - {m});
    if Q(t.core, MutexQ(m)) == [] then t else t.(core := WakeHead(t.core, MutexQ(m)))
  }

  function ReleaseIf(s: State, m: Option<nat>): State {
    match m
    case None => s
    case Some(x) => Release(s, x)
  }

  /** pthread_mutex_lock from its test on, for whoever runs. */
  function LockTest(s: State, m: nat): State {
    if s.core.cur > 0 then
      if m in s.locked then ParkAt(s, MutexQ(m), false, InLock(m))
      else s.(locked := s.locked + {m}, pc := s.pc[s.core.cur := Body])
    else if m in s.locked then s.(main := Driving(ForMutex(m)))
    else s.(locked := s.locked + {m}, main := Free)
  }

  function WakeN(s: Core, n: QName, k: nat): Core
    decreases k
  {
    if k == 0 || Q(s, n) == [] then s else WakeN(WakeHead(s, n), n, k - 1)
  }

  function ReapIt(s: State, t: nat): State {
    s.(core := Reap(s.core, t), pc := s.pc - {t}, joinable := s.joinable - {t}, handles := s.handles - {t})
  }

  /** The step after a coroutine's body has returned: joiners, the drain waiters, the coroutine itself. */
  function Finish(s: State): State {
    var c := s.core.cur;
    var t := s.(core := WakeAll(End(s.core), JoinQ(c)), fibers := s.fibers - {c});
    var u := if c in s.fibers && t.fibers == {} then t.(core := WakeAll(t.core, Drain)) else t;
    if c in s.joinable then u else ReapIt(u, c)
  }

  function RwCall(s: State, r: nat, o: RwLock.Op): State {
    var v := LockAt(s, r);
    var (t, out) := RwLock.Do(v, Me(s), o);
    var u := s.(rw := s.rw[r := t]);
    match out
    case Waits =>
      if s.core.cur > 0 then ParkAt(u, RwQ(r), false, InRw(r))
      else u.(core := MainWaits(s.core, r), main := Driving(ForRw(r)))
    case Done => if |t.queue| <= |v.queue| then u.(core := WakeN(s.core, RwQ(r), |v.queue| - |t.queue|)) else u
    case _ => u
  }

  // ----- calls

  datatype Op =
    | Lock(m: nat) | TryLock(m: nat) | Unlock(m: nat)
    | CondWait(c: nat, m: nat) | Signal(c: nat) | Broadcast(c: nat)
    | Rw(r: nat, o: RwLock.Op)
    | Join(t: nat) | Detach(t: nat) | Spawning(c: nat, join: bool, fiber: bool) | Exit | Draining
    | Park(at: Option<int>, hand: Option<nat>) | Sleep(until: int) | Yielding | Unparking(c: nat, front: bool) | Waking(c: nat)

  function Bump(s: State, c: nat): State {
    if s.main.Driving? && s.main.goal.ForCond? && s.main.goal.c == c then s.(seqs := s.seqs[c := SeqOf(s, c) + 1]) else s
  }

  function ParkCall(s: State, at: Option<int>, hand: Option<nat>): State {
    if s.core.cur == 0 then s
    else if s.core.cur in s.core.co && s.core.co[s.core.cur].permit then ReleaseIf(s.(core := TakePermit(s.core)), hand)
    else
      var core := SetLast(s.core, s.core.cur, 0);
      ReleaseIf(s.(core := if at.Some? then ParkTimed(core, at.value) else ParkBare(core), pc := s.pc[s.core.cur := InPark]), hand)
  }

  function Call(s: State, o: Op): State {
    var inside := s.core.cur > 0;
    match o
    case Lock(m) => LockTest(s, m)
    case TryLock(m) => if m in s.locked then s else s.(locked := s.locked + {m})
    case Unlock(m) => Release(s, m)
    case CondWait(c, m) =>
      Release(if inside then ParkAt(s, CondQ(c), false, InCond(c, m)) else s.(main := Driving(ForCond(c, SeqOf(s, c), m))), m)
    case Signal(c) => if Q(s.core, CondQ(c)) != [] then s.(core := WakeHead(s.core, CondQ(c))) else Bump(s, c)
    case Broadcast(c) => Bump(s.(core := WakeAll(s.core, CondQ(c))), c)
    case Rw(r, o) => RwCall(s, r, o)
    case Join(t) =>
      if Is(s.core, t, Ended) then ReapIt(s, t)
      else
        var u := s.(handles := s.handles - {t});
        if inside then ParkAt(u, JoinQ(t), true, InJoin(t)) else u.(main := Driving(ForEnd(t)))
    case Detach(t) =>
      if Is(s.core, t, Ended) then ReapIt(s, t) else s.(joinable := s.joinable - {t}, handles := s.handles - {t})
    case Spawning(c, join, fiber) =>
      s.(core := Spawn(s.core, c), pc := s.pc[c := Body],
         joinable := if join then s.joinable + {c} else s.joinable, handles := if join then s.handles + {c} else s.handles,
         fibers := if fiber then s.fibers + {c} else s.fibers)
    case Exit => if inside then Finish(s) else s
    case Draining =>
      if inside then if s.fibers == {} then s else ParkAt(s, Drain, true, InDrain)
      else s.(main := Driving(ForAll))
    case Park(at, hand) => ParkCall(s, at, hand)
    case Sleep(until) => if inside then s.(core := ParkTimed(s.core, until), pc := s.pc[s.core.cur := InPark]) else s
    case Yielding => if inside then s.(core := Yield(s.core)) else s
    case Unparking(c, front) => s.(core := Unpark(s.core, c, front))
    case Waking(c) => s.(core := Wake(s.core, c).0)
  }

  /** A coroutine goes on inside the call it waited in. */
  function Resume(s: State): State
    requires s.core.cur in s.pc
  {
    var c := s.core.cur;
    match s.pc[c]
    case Body => s
    case InLock(m) => LockTest(s, m)
    case InCond(_, m) => LockTest(s, m)
    case InRw(r) =>
      if c in LockAt(s, r).granted then s.(rw := s.rw[r := RwLock.Do(LockAt(s, r), c, RwLock.Go).0], pc := s.pc[c := Body])
      else s.(core := ParkBare(s.core))
    case InJoin(t) => ReapIt(s, t).(pc := (s.pc - {t})[c := Body])
    case InDrain => if s.fibers == {} then s.(pc := s.pc[c := Body]) else ParkAt(s, Drain, true, InDrain)
    case InPark => s.(pc := s.pc[c := Body])
  }

  predicate AllEnded(s: State) { forall c | c in s.core.co :: s.core.co[c].st == Ended }

  predicate Met(s: State, g: Goal) {
    match g
    case ForMutex(m) => m !in s.locked
    case ForCond(c, seen, _) => SeqOf(s, c) != seen
    case ForRw(r) => MAIN in LockAt(s, r).granted
    case ForEnd(t) => Is(s.core, t, Ended)
    case ForAll => AllEnded(s)
  }

  /** Main goes on once its predicate holds. */
  function MainGoes(s: State, g: Goal): State {
    match g
    case ForMutex(m) => LockTest(s, m)
    case ForCond(_, _, m) => LockTest(s, m)
    case ForRw(r) => s.(rw := s.rw[r := RwLock.Do(LockAt(s, r), MAIN, RwLock.Go).0], main := Free)
    case ForEnd(t) => ReapIt(s, t).(main := Free)
    case ForAll => s.(main := Free)
  }

  // ----- steps

  datatype Event = Calls(o: Op) | Resumes | MainOn | Steps(first: int, now: int, pick: nat)

  /**
   What callers owe the runtime: handles passed to unpark and wake name coroutines parked through
   the park calls, a handle is joined or detached once, rwlocks are released by who holds them, and a
   coroutine releases its rwlocks before it ends.
   */
  ghost predicate Asked(s: State, o: Op) {
    match o
    case Rw(r, op) =>
      && op != RwLock.Go
      && (op == RwLock.UnRd ==> Me(s) in LockAt(s, r).entries)
      && (op == RwLock.UnWr ==> LockAt(s, r).writer == Some(Me(s)))
    case Join(t) => t in s.handles && t != s.core.cur
    case Detach(t) => t in s.handles
    case Spawning(c, _, _) => c > MAIN && c !in s.core.co
    case Unparking(c, _) => Is(s.core, c, Parked) ==> c in s.pc && s.pc[c] == InPark
    case Waking(c) => Is(s.core, c, Parked) ==> c in s.pc && s.pc[c] == InPark
    case Exit => forall r :: s.core.cur !in LockAt(s, r).entries && LockAt(s, r).writer != Some(s.core.cur)
    case _ => true
  }

  ghost predicate Enabled(s: State, e: Event) {
    match e
    case Calls(o) => (if s.core.cur > 0 then s.core.cur in s.pc && s.pc[s.core.cur] == Body else s.main == Free) && Asked(s, o)
    case Resumes => s.core.cur > 0 && s.core.cur in s.pc && s.pc[s.core.cur] != Body
    case MainOn => s.core.cur == 0 && s.main.Driving? && Met(s, s.main.goal)
    case Steps(_, _, pick) =>
      && s.core.cur == 0 && (s.main.Driving? ==> !Met(s, s.main.goal))
      && (Q(s.core, RunQ) != [] ==> pick < |Q(s.core, RunQ)|)
  }

  ghost function Next(s: State, e: Event): State
    requires Enabled(s, e)
  {
    match e
    case Calls(o) => Call(s, o)
    case Resumes => Resume(s)
    case MainOn => MainGoes(s, s.main.goal)
    case Steps(first, now, pick) => s.(core := Scheduled(s.core, first, now, pick).0)
  }

  // ----- what every step keeps

  ghost predicate HomeAt(s: State, n: QName, c: nat) {
    c in Q(s.core, n) <==> Is(s.core, c, Parked) && c in s.pc && Home(s.pc[c]) == Some(n)
  }

  /** A coroutine that waits inside a call is on that call's queue, and every queue holds only such. */
  ghost predicate AtHome(s: State) {
    s.pc.Keys == s.core.co.Keys && forall n, c | n != RunQ && c != MAIN :: HomeAt(s, n, c)
  }

  predicate Awake(s: Core, c: nat) { Is(s, c, Runnable) || Is(s, c, Running) }

  /** Awake inside pthread_mutex_lock: about to test the mutex. */
  ghost predicate Contends(s: State, c: nat, m: nat) { c in s.pc && s.pc[c] == InLock(m) && Awake(s.core, c) }

  /** A free mutex somebody queues for has a contender awake. */
  ghost predicate Wakened(s: State) {
    forall m | m !in s.locked && Q(s.core, MutexQ(m)) != [] :: exists c :: Contends(s, c, m)
  }

  ghost predicate Names(q: seq<RwLock.Waiter>, l: seq<nat>) { |q| == |l| && forall i | 0 <= i < |q| :: q[i].id == l[i] }

  /** Who lock r let in is awake inside its wait. */
  ghost predicate LetIn(s: State, r: nat, h: nat) {
    if h == MAIN then s.main == Driving(ForRw(r)) else h in s.pc && s.pc[h] == InRw(r) && Awake(s.core, h)
  }

  /** Lock r is as its own machine has it, its queue is the list in the runtime, and its waiters wait or are let in. */
  ghost predicate RwAt(s: State, r: nat) {
    var v, l := LockAt(s, r), Q(s.core, RwQ(r));
    && RwLock.Inv(v) && Names(v.queue, l)
    && (forall h | h in v.granted :: LetIn(s, r, h))
    && (forall c | c in s.pc && s.pc[c] == InRw(r) :: c in l || c in v.granted)
    && (MAIN in l ==> s.main == Driving(ForRw(r))) && (s.main == Driving(ForRw(r)) ==> MAIN in l || MAIN in v.granted)
  }

  ghost predicate RwLinked(s: State) { forall r :: RwAt(s, r) }

  /** Who joins a coroutine is its only joiner, and is asleep exactly until it ends. */
  ghost predicate Joined(s: State) {
    && s.handles <= s.joinable <= s.core.co.Keys
    && (forall c | c in s.pc && s.pc[c].InJoin? :: JoinOk(s, s.pc[c].t) && (Is(s.core, c, Parked) <==> !Is(s.core, s.pc[c].t, Ended)))
    && (forall c, d | c in s.pc && d in s.pc && s.pc[c].InJoin? && s.pc[d] == s.pc[c] :: c == d)
    && (s.main.Driving? && s.main.goal.ForEnd? ==>
          JoinOk(s, s.main.goal.t) && forall c | c in s.pc :: s.pc[c] != InJoin(s.main.goal.t))
  }

  ghost predicate JoinOk(s: State, t: nat) { t in s.joinable && t !in s.handles }

  ghost predicate Inv(s: State) { Part(s.core) && AtHome(s) && Wakened(s) && RwLinked(s) && Joined(s) }
}
