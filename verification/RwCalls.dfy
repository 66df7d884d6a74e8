/**
 unikernel/runtime_bare.c, nurl_rwlock_*: the lock's own fields, the wants of its waiters and the
 holders' records, against the lock's machine.
 */
module RwCalls {
  import opened Options
  import opened SchedCore
  import opened SchedLinks
  import opened Runtime
  import opened RuntimeSteps
  import opened RuntimeRuns
  import RwLock

  /** The counters and the writer of a lock, as the C structure has them; its queue is in the links. */
  datatype NbRw = NbRw(readers: nat, writing: bool, writer: Option<nat>)

  function RwOf(locks: map<nat, NbRw>, r: nat): NbRw { if r in locks then locks[r] else NbRw(0, false, None) }

  /** The fields say what the machine's lock says. */
  ghost predicate Says(f: NbRw, v: RwLock.Rw) { f.readers == v.readers && f.writing == v.writing && f.writer == v.writer }

  /** Every queued waiter wants what it queued for. */
  ghost predicate Wanted(want: map<nat, bool>, q: seq<RwLock.Waiter>) {
    forall i | 0 <= i < |q| :: q[i].id in want && want[q[i].id] == q[i].write
  }

  ghost predicate DistinctIds(q: seq<RwLock.Waiter>) { forall i, j | 0 <= i < j < |q| :: q[i].id != q[j].id }

  lemma WakeNSnoc(s: Core, n: QName, k: nat)
    requires k < |Q(s, n)| && Part(s) && n != RunQ
    ensures Q(WakeN(s, n, k), n) != [] && WakeN(s, n, k + 1) == WakeHead(WakeN(s, n, k), n)
    ensures Part(WakeN(s, n, k)) && Q(WakeN(s, n, k), n) == Q(s, n)[k..]
    decreases k
  {
    hide Part, WakeHead;
    WakeNFacts(s, n, k);
    if k > 0 {
      WakeHeadPart(s, n);
      WakeHeadFacts(s, n);
      WakeNSnoc(WakeHead(s, n), n, k - 1);
    }
  }

  /** nb_rw_grant: while the head can have the lock, it gets it and wakes, if it is not main, holding it. */
  method Grant(sched: Sched, f: NbRw, want: map<nat, bool>, r: nat, ghost u: RwLock.Rw) returns (f': NbRw, want': map<nat, bool>)
    requires sched.Linked() && Part(sched.core) && Names(u.queue, Q(sched.core, RwQ(r)))
    requires f.readers == u.readers && f.writing == u.writing && Wanted(want, u.queue) && DistinctIds(u.queue)
    modifies sched
    ensures sched.Linked()
    ensures var t := RwLock.Grant(u);
      && |t.queue| <= |u.queue| && f' == NbRw(t.readers, t.writing, f.writer)
      && sched.core == WakeN(old(sched.core), RwQ(r), |u.queue| - |t.queue|)
      && want' == want - RwLock.Ids(u.queue[..|u.queue| - |t.queue|])
  {
    hide Part, Names, WakeHead, Wanted, DistinctIds, RwLock.Ids;
    f', want' := f, want;
    ghost var g, k := u, 0;
    var n := RwQ(r);
    GrantStarts(sched.core, u, want, r);
    while true
      invariant sched.Linked() && Part(sched.core) && k + |g.queue| == |u.queue| && g.queue == u.queue[k..]
      invariant RwLock.Grant(g) == RwLock.Grant(u) && f'.readers == g.readers && f'.writing == g.writing && f'.writer == f.writer
      invariant sched.core == WakeN(old(sched.core), n, k) && Names(g.queue, Q(sched.core, n))
      invariant want' == want - RwLock.Ids(u.queue[..k]) && Wanted(want', g.queue) && DistinctIds(g.queue)
      decreases |g.queue|
    {
      HeadIs(sched.core, g, want', r);
      var c := sched.First(n);
      if c == 0 {
        GrantEnds(g);
        return;
      }
      var write := want'[c];
      if f'.writing || (write && f'.readers > 0) {
        GrantEnds(g);
        return;
      }
      GrantNext(old(sched.core), sched.core, u, g, want, want', r, k);
      var w := sched.WakeOne(n);
      f' := if write then f'.(writing := true) else f'.(readers := f'.readers + 1);
      want' := want' - {c};
      GrantStep(g);
      g := RwLock.LetIn(g);
      k := k + 1;
      if write {
        GrantEnds(g);
        return;
      }
    }
  }

  lemma GrantStarts(s: Core, u: RwLock.Rw, want: map<nat, bool>, r: nat)
    requires Names(u.queue, Q(s, RwQ(r)))
    ensures u.queue[0..] == u.queue && want - RwLock.Ids(u.queue[..0]) == want && WakeN(s, RwQ(r), 0) == s
  {
    assert RwLock.Ids(u.queue[..0]) == {};
  }

  lemma HeadIs(s: Core, g: RwLock.Rw, want: map<nat, bool>, r: nat)
    requires Names(g.queue, Q(s, RwQ(r))) && Wanted(want, g.queue) && Part(s)
    ensures g.queue == [] <==> Q(s, RwQ(r)) == []
    ensures g.queue != [] ==> Q(s, RwQ(r))[0] == g.queue[0].id && g.queue[0].id in want && want[g.queue[0].id] == g.queue[0].write
    ensures Apart(s) && forall x | x in Q(s, RwQ(r)) :: x == MAIN || x in s.co
  {
    hide Timed;
    ListedApart(s);
    assert forall x | x in Q(s, RwQ(r)) :: x == MAIN || Is(s, x, Parked);
  }

  lemma GrantEnds(g: RwLock.Rw)
    requires g.queue == [] || !RwLock.CanHave(g, g.queue[0]) || g.writing
    ensures RwLock.Grant(g) == g
  {
  }

  lemma GrantStep(g: RwLock.Rw)
    requires g.queue != [] && RwLock.CanHave(g, g.queue[0])
    ensures RwLock.Grant(g) == if g.queue[0].write then RwLock.LetIn(g) else RwLock.Grant(RwLock.LetIn(g))
    ensures g.queue[0].write ==> RwLock.Grant(RwLock.LetIn(g)) == RwLock.LetIn(g)
  {
  }

  lemma GrantNext(s0: Core, s: Core, u: RwLock.Rw, g: RwLock.Rw, want: map<nat, bool>, want': map<nat, bool>, r: nat, k: nat)
    requires Part(s0) && Names(u.queue, Q(s0, RwQ(r))) && k < |u.queue| && g.queue == u.queue[k..] && g.queue != []
    requires s == WakeN(s0, RwQ(r), k) && Names(g.queue, Q(s, RwQ(r))) && Part(s)
    requires want' == want - RwLock.Ids(u.queue[..k]) && Wanted(want', g.queue) && DistinctIds(g.queue)
    ensures var c, t := g.queue[0].id, WakeHead(s, RwQ(r));
      && t == WakeN(s0, RwQ(r), k + 1) && Part(t) && Q(s, RwQ(r)) != [] && Names(g.queue[1..], Q(t, RwQ(r)))
      && want' - {c} == want - RwLock.Ids(u.queue[..k + 1]) && Wanted(want' - {c}, g.queue[1..]) && DistinctIds(g.queue[1..])
      && g.queue[1..] == u.queue[k + 1..]
  {
    hide Part, WakeHead, WakeN;
    assert |Q(s0, RwQ(r))| == |u.queue|;
    WakeNSnoc(s0, RwQ(r), k);
    WakeHeadPart(s, RwQ(r));
    WakeHeadFacts(s, RwQ(r));
    var c := g.queue[0].id;
    IdsSnoc(u.queue, k);
    assert forall i | 0 <= i < |g.queue[1..]| :: g.queue[1..][i] == g.queue[i + 1];
  }

  lemma IdsSnoc(q: seq<RwLock.Waiter>, k: nat)
    requires k < |q|
    ensures RwLock.Ids(q[..k + 1]) == RwLock.Ids(q[..k]) + {q[k].id}
  {
    assert q[..k + 1] == q[..k] + [q[k]];
    assert forall i | 0 <= i < k :: q[..k + 1][i] == q[..k][i];
    assert q[..k + 1][k] == q[k];
  }

  // ----- the fields and the machine's locks

  /** held[h][r] counts how often holder h has recorded that it reads lock r. */
  type Records = map<nat, map<nat, nat>>

  function CountIn(held: Records, h: nat, r: nat): nat { if h in held && r in held[h] then held[h][r] else 0 }

  function SetCount(held: Records, h: nat, r: nat, c: nat): Records {
    held[h := (if h in held then held[h] else map[])[r := c]]
  }

  function VOf(rw: map<nat, RwLock.Rw>, r: nat): RwLock.Rw { if r in rw then rw[r] else RwLock.FREE }

  ghost predicate RepAt(f: NbRw, want: map<nat, bool>, held: Records, v: RwLock.Rw, r: nat) {
    && Says(f, v) && Wanted(want, v.queue) && (forall h | h in v.granted :: h !in want)
    && (forall h :: CountIn(held, h, r) == if h in v.entries then v.entries[h] else 0)
  }

  ghost predicate Rep(locks: map<nat, NbRw>, want: map<nat, bool>, held: Records, rw: map<nat, RwLock.Rw>) {
    forall r :: RepOf(locks, want, held, rw, r)
  }

  ghost predicate RepOf(locks: map<nat, NbRw>, want: map<nat, bool>, held: Records, rw: map<nat, RwLock.Rw>, r: nat) {
    RepAt(RwOf(locks, r), want, held, VOf(rw, r), r)
  }

  /** The wants of holders who wait elsewhere are left alone. */
  ghost predicate WantKept(want: map<nat, bool>, want': map<nat, bool>, v: RwLock.Rw) {
    && (forall i | 0 <= i < |v.queue| && v.queue[i].id in want :: v.queue[i].id in want' && want'[v.queue[i].id] == want[v.queue[i].id])
    && (forall h | h in v.granted && h !in want :: h !in want')
  }

  lemma RepSet(locks: map<nat, NbRw>, want: map<nat, bool>, held: Records, rw: map<nat, RwLock.Rw>,
               r: nat, f: NbRw, want': map<nat, bool>, held': Records, v: RwLock.Rw)
    requires Rep(locks, want, held, rw) && RepAt(f, want', held', v, r)
    requires forall x | x != r :: WantKept(want, want', VOf(rw, x)) && forall h :: CountIn(held', h, x) == CountIn(held, h, x)
    ensures Rep(locks[r := f], want', held', rw[r := v])
  {
    var locks', rw' := locks[r := f], rw[r := v];
    forall x: nat
      ensures RepOf(locks', want', held', rw', x)
    {
      hide CountIn;
      assert RepOf(locks, want, held, rw, x);
      if x != r {
        assert WantKept(want, want', VOf(rw, x));
      }
    }
  }

  lemma SameWant(want: map<nat, bool>, v: RwLock.Rw)
    ensures WantKept(want, want, v)
  {
  }

  lemma CountSet(held: Records, h: nat, r: nat, c: nat)
    ensures forall x, y :: CountIn(SetCount(held, h, r, c), x, y) == if x == h && y == r then c else CountIn(held, x, y)
  {
  }

  ghost predicate Acting(s: State) { if s.core.cur > 0 then s.core.cur in s.pc && s.pc[s.core.cur] == Body else s.main == Free }

  /** The rwlock part of the runtime's fields. */
  class RwBare {
    const sched: Sched
    var pc: map<nat, Pc>
    var main: MainPc
    var locks: map<nat, NbRw>
    var want: map<nat, bool>
    var held: Records
    ghost var rw: map<nat, RwLock.Rw>
    ghost var rest: State

    constructor (s: Sched, ghost start: State)
      requires s.Linked() && Inv(start) && start.core == s.core && start.pc == map[] && start.main == Free && start.rw == map[]
      ensures sched == s && Valid() && Abs() == start
    {
      sched, pc, main, locks, want, held, rw, rest := s, map[], Free, map[], map[], map[], map[], start;
    }

    /** The machine's state: the rest of it is as given. */
    ghost function Abs(): State
      reads this, sched
    {
      rest.(core := sched.core, pc := pc, main := main, rw := rw)
    }

    ghost predicate Valid()
      reads this, sched
    {
      sched.Linked() && Inv(Abs()) && Rep(locks, want, held, rw)
    }

    function Holder(): nat
      reads sched
    {
      if sched.cur > 0 then sched.cur else MAIN
    }

    /** The lock's fields and the running holder's count of it. */
    method Put(r: nat, f: NbRw, c: nat, ghost v: RwLock.Rw)
      requires Rep(locks[r := f], want, SetCount(held, Holder(), r, c), rw[r := v])
      modifies this`locks, this`held, this`rw
      ensures Rep(locks, want, held, rw) && Abs() == old(Abs()).(rw := old(rw)[r := v])
    {
      hide Rep, SetCount;
      locks, held, rw := locks[r := f], SetCount(held, Holder(), r, c), rw[r := v];
    }

    /** nb_rw_wait up to the switch. */
    method Wait(r: nat, write: bool, ghost v: RwLock.Rw)
      requires sched.Linked() && Part(sched.core) && Inv(Abs()) && Acting(Abs())
      requires Rep(locks, want[Holder() := write], held, rw[r := v])
      modifies this`pc, this`main, this`want, this`rw, sched
      ensures sched.Linked() && Rep(locks, want, held, rw) && Abs() == Queued(old(Abs()), r, v)
    {
      hide Inv, Rep, Part, Threaded, Chain, SetCount;
      want := want[Holder() := write];
      rw := rw[r := v];
      if sched.cur > 0 {
        pc := pc[sched.cur := InRw(r)];
        sched.ParkOn(RwQ(r));
      } else {
        MainNode(old(Abs()));
        sched.Push(RwQ(r), MAIN);
        main := Driving(ForRw(r));
      }
    }

    /** What an operation reads before it decides: its holder, the lock, its count of it, the head. */
    method Look(r: nat) returns (me: nat, f: NbRw, c: nat, first: nat)
      requires Valid() && Acting(Abs())
      ensures Part(sched.core) && me == Me(Abs()) == Holder() && f == RwOf(locks, r) && Says(f, LockAt(Abs(), r)) && c == CountIn(held, me, r)
      ensures (first == 0 <==> LockAt(Abs(), r).queue == []) && (c > 0 <==> me in LockAt(Abs(), r).entries)
      ensures me in LockAt(Abs(), r).entries ==> LockAt(Abs(), r).entries[me] == c
      ensures forall x :: !RwLock.Waiting(VOf(rw, x), me)
    {
      hide Inv, RwLock.Inv, Rep, RwLock.Waiting, CountIn, Part, Names, Acting, Threaded, Chain;
      me, f := Holder(), RwOf(locks, r);
      Facts(Abs(), locks, want, held, r, me);
      InvPart(Abs());
      c := CountIn(held, me, r);
      first := sched.First(RwQ(r));
    }

    /** nurl_rwlock_rdlock: a counted re-read, a panic, the lock, or a place in the queue. */
    method RdLock(r: nat) returns (panics: bool)
      requires Valid() && Acting(Abs())
      modifies this`pc, this`main, this`locks, this`want, this`held, this`rw, sched
      ensures Valid() && Abs() == RwCall(old(Abs()), r, RwLock.Rd)
      ensures panics <==> RwLock.RdLock(LockAt(old(Abs()), r), Me(old(Abs()))).1 == RwLock.Panics
    {
      hide Inv, Rep, RwLock.Waiting, CountIn, SetCount, Part, Queued, Acting, RwCall, RwLock.RdLock, RwLock.Arrive, Threaded, Chain;
      ghost var s, v := Abs(), LockAt(Abs(), r);
      var me, f, c, first := Look(r);
      RdCases(s, r);
      Kept(s, r, RwLock.Rd);
      panics := false;
      if c > 0 {
        ghost var t := v.(entries := v.entries[me := c + 1]);
        RepRead(s, locks, want, held, r, me, c + 1, f, t);
        Put(r, f, c + 1, t);
      } else if f.writer == Some(me) {
        RepSame(s, locks, want, held, r, f);
        rw := rw[r := v];
        panics := true;
      } else if !f.writing && first == 0 {
        ghost var t := v.(readers := v.readers + 1, entries := v.entries[me := 1]);
        RepRead(s, locks, want, held, r, me, 1, f.(readers := f.readers + 1), t);
        Put(r, f.(readers := f.readers + 1), 1, t);
      } else {
        RepArrive(s, locks, want, held, r, me, false);
        Wait(r, false, RwLock.Arrive(v, me, false));
      }
    }

    /** nurl_rwlock_wrlock: a panic, the lock, or a place in the queue. */
    method WrLock(r: nat) returns (panics: bool)
      requires Valid() && Acting(Abs())
      modifies this`pc, this`main, this`locks, this`want, this`rw, sched
      ensures Valid() && Abs() == RwCall(old(Abs()), r, RwLock.Wr)
      ensures panics <==> RwLock.WrLock(LockAt(old(Abs()), r), Me(old(Abs()))).1 == RwLock.Panics
    {
      hide Inv, Rep, RwLock.Waiting, CountIn, Part, Queued, Acting, RwCall, RwLock.WrLock, RwLock.Arrive, Threaded, Chain;
      ghost var s, v := Abs(), LockAt(Abs(), r);
      var me, f, c, first := Look(r);
      WrCases(s, r);
      Kept(s, r, RwLock.Wr);
      panics := false;
      if f.writer == Some(me) || c > 0 {
        RepSame(s, locks, want, held, r, f);
        rw := rw[r := v];
        panics := true;
      } else if !f.writing && f.readers == 0 && first == 0 {
        ghost var t := v.(writing := true, writer := Some(me));
        RepLock(s, locks, want, held, r, NbRw(f.readers, true, Some(me)), t);
        locks, rw := locks[r := NbRw(f.readers, true, Some(me))], rw[r := t];
      } else {
        RepArrive(s, locks, want, held, r, me, true);
        Wait(r, true, RwLock.Arrive(v, me, true));
      }
    }

    /** nb_rw_wait's test: a holder inside its wait has been let in exactly when it wants nothing any more. */
    method LetInYet(r: nat) returns (yes: bool)
      requires Valid() && Inside(Abs(), r)
      ensures yes <==> Me(Abs()) in LockAt(Abs(), r).granted
      ensures sched.cur > 0 ==> yes
    {
      hide Inv, Rep, RwLock.Inv;
      InsideFacts(Abs(), locks, want, held, r);
      yes := Holder() !in want;
    }

    /** nurl_rwlock_rdlock and nurl_rwlock_wrlock after the wait: the holder records what it was let in for. */
    method Took(r: nat, write: bool)
      requires Valid() && Inside(Abs(), r)
      requires Me(Abs()) in LockAt(Abs(), r).granted && LockAt(Abs(), r).granted[Me(Abs())] == write
      modifies this`pc, this`main, this`locks, this`held, this`rw
      ensures Valid() && Abs() == if sched.cur > 0 then Resume(old(Abs())) else MainGoes(old(Abs()), ForRw(r))
    {
      hide Inv, Rep, CountIn, SetCount, Threaded, Chain, LockTest, ReapIt;
      ghost var s, v := Abs(), LockAt(Abs(), r);
      var me, f := Holder(), RwOf(locks, r);
      ghost var t := RwLock.Resume(v, me).0;
      InsideKept(s, r);
      RepTook(s, locks, want, held, r, me, write);
      if write {
        locks := locks[r := f.(writer := Some(me))];
      } else {
        held := SetCount(held, me, r, 1);
      }
      rw := rw[r := t];
      if sched.cur > 0 {
        pc := pc[me := Body];
      } else {
        main := Free;
      }
    }

    /** nurl_rwlock_tryrdlock */
    method TryRdLock(r: nat) returns (taken: bool)
      requires Valid() && Acting(Abs())
      modifies this`locks, this`held, this`rw
      ensures Valid() && Abs() == RwCall(old(Abs()), r, RwLock.TryRd)
      ensures taken <==> RwLock.TryRdLock(LockAt(old(Abs()), r), Me(old(Abs()))).1 == RwLock.Taken
    {
      hide Inv, Rep, RwLock.Waiting, CountIn, SetCount, Part, Acting, RwCall, RwLock.TryRdLock, Threaded, Chain;
      ghost var s, v := Abs(), LockAt(Abs(), r);
      var me, f, c, first := Look(r);
      TryRdCases(s, r);
      Kept(s, r, RwLock.TryRd);
      taken := true;
      if c > 0 {
        ghost var t := v.(entries := v.entries[me := c + 1]);
        RepRead(s, locks, want, held, r, me, c + 1, f, t);
        Put(r, f, c + 1, t);
      } else if f.writing || first != 0 {
        RepSame(s, locks, want, held, r, f);
        rw := rw[r := v];
        taken := false;
      } else {
        ghost var t := v.(readers := v.readers + 1, entries := v.entries[me := 1]);
        RepRead(s, locks, want, held, r, me, 1, f.(readers := f.readers + 1), t);
        Put(r, f.(readers := f.readers + 1), 1, t);
      }
    }

    /** nurl_rwlock_trywrlock */
    method TryWrLock(r: nat) returns (taken: bool)
      requires Valid() && Acting(Abs())
      modifies this`locks, this`rw
      ensures Valid() && Abs() == RwCall(old(Abs()), r, RwLock.TryWr)
      ensures taken <==> RwLock.TryWrLock(LockAt(old(Abs()), r), Me(old(Abs()))).1 == RwLock.Taken
    {
      hide Inv, Rep, RwLock.Waiting, CountIn, Part, Acting, RwCall, RwLock.TryWrLock, Threaded, Chain;
      ghost var s, v := Abs(), LockAt(Abs(), r);
      var me, f, c, first := Look(r);
      TryWrCases(s, r);
      Kept(s, r, RwLock.TryWr);
      taken := false;
      if f.writing || f.readers > 0 || first != 0 || c > 0 {
        RepSame(s, locks, want, held, r, f);
        rw := rw[r := v];
      } else {
        ghost var t := v.(writing := true, writer := Some(me));
        RepLock(s, locks, want, held, r, NbRw(f.readers, true, Some(me)), t);
        locks, rw := locks[r := NbRw(f.readers, true, Some(me))], rw[r := t];
        taken := true;
      }
    }

    /** nb_rw_grant on the lock's fields. */
    method LetWaitersIn(r: nat)
      requires sched.Linked() && Part(sched.core) && Rep(locks, want, held, rw)
      requires Names(VOf(rw, r).queue, Q(sched.core, RwQ(r))) && Alone(rw, r)
      modifies this`locks, this`want, this`rw, sched
      ensures sched.Linked() && Rep(locks, want, held, rw) && Abs() == Granted(old(Abs()), r)
    {
      hide Part, Rep, Names, Threaded, Chain, RwLock.Grant, RwLock.Ids, Alone;
      ghost var u := VOf(rw, r);
      InvDistinct(sched.core, u.queue, r);
      RepGrant(locks, want, held, rw, r);
      var f, w := Grant(sched, RwOf(locks, r), want, r, u);
      locks, want, rw := locks[r := f], w, rw[r := RwLock.Grant(u)];
    }

    /** nurl_rwlock_rdunlock */
    method RdUnlock(r: nat)
      requires Valid() && Acting(Abs()) && Asked(Abs(), Op.Rw(r, RwLock.UnRd))
      modifies this`locks, this`want, this`held, this`rw, sched
      ensures Valid() && Abs() == RwCall(old(Abs()), r, RwLock.UnRd)
    {
      hide Inv, Rep, RwLock.Waiting, CountIn, SetCount, Part, Acting, RwCall, RwLock.RdUnlock, Threaded, Chain, Alone, Granted;
      ghost var s, v := Abs(), LockAt(Abs(), r);
      var me, f, c, first := Look(r);
      RdUnlockCases(s, r);
      Kept(s, r, RwLock.UnRd);
      if c > 1 {
        ghost var t := v.(entries := v.entries[me := c - 1]);
        RepRead(s, locks, want, held, r, me, c - 1, f, t);
        Put(r, f, c - 1, t);
        return;
      }
      ghost var t := v.(entries := v.entries - {me}, readers := if v.readers > 0 then v.readers - 1 else 0);
      var last := f.readers == 1;
      f := f.(readers := if f.readers > 0 then f.readers - 1 else 0);
      RepDrop(s, locks, want, held, r, me, f, t);
      Put(r, f, 0, t);
      if last {
        Lonely(s, r, t);
        LetWaitersIn(r);
      }
    }

    /** nurl_rwlock_wrunlock */
    method WrUnlock(r: nat)
      requires Valid() && Acting(Abs()) && Asked(Abs(), Op.Rw(r, RwLock.UnWr))
      modifies this`locks, this`want, this`rw, sched
      ensures Valid() && Abs() == RwCall(old(Abs()), r, RwLock.UnWr)
    {
      hide Inv, Rep, RwLock.Waiting, CountIn, Part, Acting, RwCall, RwLock.WrUnlock, Threaded, Chain, Alone, Granted;
      ghost var s, v := Abs(), LockAt(Abs(), r);
      var me, f, c, first := Look(r);
      WrUnlockCases(s, r);
      Kept(s, r, RwLock.UnWr);
      ghost var t := v.(writer := None, writing := false);
      RepLock(s, locks, want, held, r, NbRw(f.readers, false, None), t);
      locks, rw := locks[r := NbRw(f.readers, false, None)], rw[r := t];
      Lonely(s, r, t);
      LetWaitersIn(r);
    }
  }

  /** Nobody queued for lock r queues for another. */
  ghost predicate Alone(rw: map<nat, RwLock.Rw>, r: nat) {
    forall x, h | x != r && h in RwLock.Ids(VOf(rw, x).queue) :: h !in RwLock.Ids(VOf(rw, r).queue)
  }

  /** Lock r with what the head of its queue can have let in, and those let in awake. */
  function Granted(s: State, r: nat): State {
    var u := VOf(s.rw, r);
    var t := RwLock.Grant(u);
    s.(rw := s.rw[r := t], core := WakeN(s.core, RwQ(r), if |t.queue| <= |u.queue| then |u.queue| - |t.queue| else 0))
  }

  lemma Kept(s: State, r: nat, o: RwLock.Op)
    requires Inv(s) && Acting(s) && Asked(s, Op.Rw(r, o))
    ensures Inv(RwCall(s, r, o)) && Part(s.core)
  {
    hide Inv;
    InvPart(s);
    ActingMeans(s);
    RwCallInv(s, r, o);
  }

  /** Whoever runs is queued for lock r from here on. */
  function Queued(s: State, r: nat, t: RwLock.Rw): State {
    var u := s.(rw := s.rw[r := t]);
    if s.core.cur > 0 then ParkAt(u, RwQ(r), false, InRw(r))
    else u.(core := MainWaits(s.core, r), main := Driving(ForRw(r)))
  }

  lemma RdCases(s: State, r: nat)
    ensures var v, me, t := LockAt(s, r), Me(s), RwCall(s, r, RwLock.Rd);
      && (RwLock.RdLock(v, me).1 == RwLock.Panics <==> me !in v.entries && v.writer == Some(me))
      && if me in v.entries then t == s.(rw := s.rw[r := v.(entries := v.entries[me := v.entries[me] + 1])])
         else if v.writer == Some(me) then t == s.(rw := s.rw[r := v])
         else if !v.writing && v.queue == [] then t == s.(rw := s.rw[r := v.(readers := v.readers + 1, entries := v.entries[me := 1])])
         else t == Queued(s, r, RwLock.Arrive(v, me, false))
  {
    hide ParkAt, MainWaits;
  }

  lemma WrCases(s: State, r: nat)
    ensures var v, me, t := LockAt(s, r), Me(s), RwCall(s, r, RwLock.Wr);
      && (RwLock.WrLock(v, me).1 == RwLock.Panics <==> me in v.entries || v.writer == Some(me))
      && if v.writer == Some(me) || me in v.entries then t == s.(rw := s.rw[r := v])
         else if !v.writing && v.readers == 0 && v.queue == [] then t == s.(rw := s.rw[r := v.(writing := true, writer := Some(me))])
         else t == Queued(s, r, RwLock.Arrive(v, me, true))
  {
    hide ParkAt, MainWaits;
  }

  lemma TryRdCases(s: State, r: nat)
    ensures var v, me, t := LockAt(s, r), Me(s), RwCall(s, r, RwLock.TryRd);
      && (RwLock.TryRdLock(v, me).1 == RwLock.Taken <==> me in v.entries || (!v.writing && v.queue == []))
      && if me in v.entries then t == s.(rw := s.rw[r := v.(entries := v.entries[me := v.entries[me] + 1])])
         else if v.writing || v.queue != [] then t == s.(rw := s.rw[r := v])
         else t == s.(rw := s.rw[r := v.(readers := v.readers + 1, entries := v.entries[me := 1])])
  {
    hide ParkAt, MainWaits;
  }

  lemma TryWrCases(s: State, r: nat)
    ensures var v, me, t := LockAt(s, r), Me(s), RwCall(s, r, RwLock.TryWr);
      var no := v.writing || v.readers > 0 || v.queue != [] || me in v.entries;
      && (RwLock.TryWrLock(v, me).1 == RwLock.Taken <==> !no)
      && t == s.(rw := s.rw[r := if no then v else v.(writing := true, writer := Some(me))])
  {
    hide ParkAt, MainWaits;
  }

  /** Lock r as v leaves it, its waiters let in. */
  lemma RdUnlockCases(s: State, r: nat)
    ensures var v, me, t := LockAt(s, r), Me(s), RwCall(s, r, RwLock.UnRd);
      var u := v.(entries := v.entries - {me}, readers := if v.readers > 0 then v.readers - 1 else 0);
      && if me in v.entries && v.entries[me] > 1 then t == s.(rw := s.rw[r := v.(entries := v.entries[me := v.entries[me] - 1])])
         else if v.readers > 0 && u.readers == 0 then t == Granted(s.(rw := s.rw[r := u]), r)
         else t == s.(rw := s.rw[r := u])
  {
    hide ParkAt, MainWaits, RwLock.Grant, WakeHead;
    var v, me := LockAt(s, r), Me(s);
    var u := v.(entries := v.entries - {me}, readers := if v.readers > 0 then v.readers - 1 else 0);
    RwLock.GrantMoves(u);
    assert s.rw[r := u][r := RwLock.Grant(u)] == s.rw[r := RwLock.Grant(u)];
  }

  lemma WrUnlockCases(s: State, r: nat)
    ensures RwCall(s, r, RwLock.UnWr) == Granted(s.(rw := s.rw[r := LockAt(s, r).(writer := None, writing := false)]), r)
  {
    hide ParkAt, MainWaits, RwLock.Grant, WakeHead, WakeN;
    var u := LockAt(s, r).(writer := None, writing := false);
    RwLock.GrantMoves(u);
    assert s.rw[r := u][r := RwLock.Grant(u)] == s.rw[r := RwLock.Grant(u)];
  }

  lemma ActingMeans(s: State)
    requires Acting(s)
    ensures if s.core.cur > 0 then s.core.cur in s.pc && s.pc[s.core.cur] == Body else s.main == Free
  {
  }

  lemma InvPart(s: State)
    requires Inv(s)
    ensures Part(s.core)
  {
    hide Part;
  }

  lemma MainNode(s: State)
    requires Inv(s) && Acting(s) && s.core.cur == 0
    ensures Nowhere(s.core, MAIN) && Apart(s.core)
  {
    hide AtHome, Wakened, Joined, Timed;
    MainNowhere(s);
    ListedApart(s.core);
  }

  /** What the fields say of lock r, and that whoever runs waits for none. */
  lemma Facts(s: State, locks: map<nat, NbRw>, want: map<nat, bool>, held: Records, r: nat, me: nat)
    requires Inv(s) && Acting(s) && Rep(locks, want, held, s.rw) && me == Me(s)
    ensures var v := LockAt(s, r);
      && Says(RwOf(locks, r), v) && Names(v.queue, Q(s.core, RwQ(r))) && (v.queue == [] <==> Q(s.core, RwQ(r)) == [])
      && (CountIn(held, me, r) > 0 <==> me in v.entries) && (me in v.entries ==> v.entries[me] == CountIn(held, me, r))
    ensures forall x :: !RwLock.Waiting(VOf(s.rw, x), me)
  {
    hide RwLock.Readers, RwLock.Writers, AtHome, Wakened, Joined, Part, RwLock.Waiting, CountIn;
    assert RwAt(s, r) && RepOf(locks, want, held, s.rw, r);
    forall x
      ensures !RwLock.Waiting(VOf(s.rw, x), me)
    {
      NotWaiting(s, x);
    }
  }

  lemma RepRead(s: State, locks: map<nat, NbRw>, want: map<nat, bool>, held: Records, r: nat, me: nat, c: nat, f: NbRw, t: RwLock.Rw)
    requires Rep(locks, want, held, s.rw) && Says(f, t) && t.queue == LockAt(s, r).queue && t.granted == LockAt(s, r).granted
    requires t.entries == LockAt(s, r).entries[me := c]
    ensures Rep(locks[r := f], want, SetCount(held, me, r, c), s.rw[r := t])
  {
    hide CountIn, SetCount;
    CountSet(held, me, r, c);
    assert RepOf(locks, want, held, s.rw, r);
    forall x
      ensures WantKept(want, want, VOf(s.rw, x))
    {
      SameWant(want, VOf(s.rw, x));
    }
    RepSet(locks, want, held, s.rw, r, f, want, SetCount(held, me, r, c), t);
  }

  lemma RepSame(s: State, locks: map<nat, NbRw>, want: map<nat, bool>, held: Records, r: nat, f: NbRw)
    requires Rep(locks, want, held, s.rw) && Says(f, LockAt(s, r))
    ensures Rep(locks, want, held, s.rw[r := LockAt(s, r)])
  {
    var rw' := s.rw[r := LockAt(s, r)];
    forall x: nat
      ensures RepOf(locks, want, held, rw', x)
    {
      hide RepAt;
      assert RepOf(locks, want, held, s.rw, x);
    }
  }

  lemma RepArrive(s: State, locks: map<nat, NbRw>, want: map<nat, bool>, held: Records, r: nat, me: nat, write: bool)
    requires Rep(locks, want, held, s.rw)
    requires forall x :: !RwLock.Waiting(VOf(s.rw, x), me)
    ensures Rep(locks, want[me := write], held, s.rw[r := RwLock.Arrive(LockAt(s, r), me, write)])
  {
    hide CountIn;
    var rw', want' := s.rw[r := RwLock.Arrive(LockAt(s, r), me, write)], want[me := write];
    forall x: nat
      ensures RepOf(locks, want', held, rw', x)
    {
      assert RepOf(locks, want, held, s.rw, x);
      assert !RwLock.Waiting(VOf(s.rw, x), me);
    }
  }

  lemma RepLock(s: State, locks: map<nat, NbRw>, want: map<nat, bool>, held: Records, r: nat, f: NbRw, t: RwLock.Rw)
    requires Rep(locks, want, held, s.rw) && Says(f, t)
    requires t.queue == LockAt(s, r).queue && t.granted == LockAt(s, r).granted && t.entries == LockAt(s, r).entries
    ensures Rep(locks[r := f], want, held, s.rw[r := t])
  {
    hide CountIn;
    assert RepOf(locks, want, held, s.rw, r);
    forall x
      ensures WantKept(want, want, VOf(s.rw, x))
    {
      SameWant(want, VOf(s.rw, x));
    }
    RepSet(locks, want, held, s.rw, r, f, want, held, t);
  }

  lemma RepDrop(s: State, locks: map<nat, NbRw>, want: map<nat, bool>, held: Records, r: nat, me: nat, f: NbRw, t: RwLock.Rw)
    requires Rep(locks, want, held, s.rw) && Says(f, t) && t.queue == LockAt(s, r).queue && t.granted == LockAt(s, r).granted
    requires t.entries == LockAt(s, r).entries - {me}
    ensures Rep(locks[r := f], want, SetCount(held, me, r, 0), s.rw[r := t])
  {
    hide CountIn, SetCount;
    CountSet(held, me, r, 0);
    assert RepOf(locks, want, held, s.rw, r);
    forall x
      ensures WantKept(want, want, VOf(s.rw, x))
    {
      SameWant(want, VOf(s.rw, x));
    }
    RepSet(locks, want, held, s.rw, r, f, want, SetCount(held, me, r, 0), t);
  }

  /** Waiters of lock r wait for no other, and its queue is still the list once its other fields change. */
  lemma Lonely(s: State, r: nat, t: RwLock.Rw)
    requires Inv(s) && t.queue == LockAt(s, r).queue
    ensures Alone(s.rw[r := t], r) && Names(VOf(s.rw[r := t], r).queue, Q(s.core, RwQ(r)))
  {
    hide RwLock.Inv, Part, AtHome, Wakened, Joined;
    InvPart(s);
    ListedApart(s.core) by {
      InvListed(s);
    }
    var rw := s.rw[r := t];
    assert RwAt(s, r);
    forall x, h | x != r && h in RwLock.Ids(VOf(rw, x).queue)
      ensures h !in RwLock.Ids(VOf(rw, r).queue)
    {
      assert RwAt(s, x);
      InList(VOf(rw, x).queue, Q(s.core, RwQ(x)), h);
      if h in RwLock.Ids(VOf(rw, r).queue) {
        InList(VOf(rw, r).queue, Q(s.core, RwQ(r)), h);
      }
    }
  }

  lemma InvListed(s: State)
    requires Inv(s)
    ensures Listed(s.core)
  {
    hide AtHome, Wakened, RwLinked, Joined, Timed, Listed;
  }

  lemma InList(q: seq<RwLock.Waiter>, l: seq<nat>, h: nat)
    requires Names(q, l) && h in RwLock.Ids(q)
    ensures h in l
  {
    var i :| 0 <= i < |q| && q[i].id == h;
    assert l[i] == h;
  }

  lemma GrantKeeps(u: RwLock.Rw)
    ensures RwLock.Grant(u).writer == u.writer && RwLock.Grant(u).entries == u.entries
    decreases |u.queue|
  {
    if u.queue != [] && RwLock.CanHave(u, u.queue[0]) && !u.queue[0].write {
      GrantKeeps(RwLock.LetIn(u));
    }
  }

  lemma InvDistinct(s: Core, q: seq<RwLock.Waiter>, r: nat)
    requires Part(s) && Names(q, Q(s, RwQ(r)))
    ensures DistinctIds(q)
  {
    hide Timed, Runs;
    assert NoDup(Q(s, RwQ(r)));
  }

  /** The wants of those let in go, and nobody else's. */
  lemma RepGrant(locks: map<nat, NbRw>, want: map<nat, bool>, held: Records, rw: map<nat, RwLock.Rw>, r: nat)
    requires Rep(locks, want, held, rw) && Alone(rw, r) && DistinctIds(VOf(rw, r).queue)
    ensures var u, f := VOf(rw, r), RwOf(locks, r);
      var t := RwLock.Grant(u);
      && Says(f, u) && Wanted(want, u.queue) && |t.queue| <= |u.queue|
      && Rep(locks[r := NbRw(t.readers, t.writing, f.writer)], want - RwLock.Ids(u.queue[..|u.queue| - |t.queue|]), held, rw[r := t])
  {
    hide CountIn, RwLock.Grant;
    var u, f := VOf(rw, r), RwOf(locks, r);
    var t := RwLock.Grant(u);
    RwLock.GrantMoves(u);
    GrantKeeps(u);
    assert RepOf(locks, want, held, rw, r);
    var k := |u.queue| - |t.queue|;
    var gone := RwLock.Ids(u.queue[..k]);
    RestApart(u.queue, k);
    assert RepAt(NbRw(t.readers, t.writing, f.writer), want - gone, held, t, r);
    forall x | x != r
      ensures WantKept(want, want - gone, VOf(rw, x))
    {
      KeptApart(want, rw, r, x, k);
    }
    RepSet(locks, want, held, rw, r, NbRw(t.readers, t.writing, f.writer), want - gone, held, t);
  }

  lemma RestApart(q: seq<RwLock.Waiter>, k: nat)
    requires k <= |q| && DistinctIds(q)
    ensures forall i | 0 <= i < |q[k..]| :: q[k..][i] == q[k + i] && q[k + i].id !in RwLock.Ids(q[..k])
    ensures RwLock.Ids(q[..k]) <= RwLock.Ids(q)
  {
    forall h | h in RwLock.Ids(q[..k])
      ensures h in RwLock.Ids(q)
    {
      var i :| 0 <= i < k && q[..k][i].id == h;
      assert q[i].id == h;
    }
  }

  lemma KeptApart(want: map<nat, bool>, rw: map<nat, RwLock.Rw>, r: nat, x: nat, k: nat)
    requires Alone(rw, r) && x != r && k <= |VOf(rw, r).queue| && DistinctIds(VOf(rw, r).queue)
    ensures WantKept(want, want - RwLock.Ids(VOf(rw, r).queue[..k]), VOf(rw, x))
  {
    var q := VOf(rw, x).queue;
    RestApart(VOf(rw, r).queue, k);
    forall i | 0 <= i < |q|
      ensures q[i].id !in RwLock.Ids(VOf(rw, r).queue[..k])
    {
      assert q[i].id in RwLock.Ids(q);
    }
  }

  ghost predicate Inside(s: State, r: nat) {
    if s.core.cur > 0 then s.core.cur in s.pc && s.pc[s.core.cur] == InRw(r) else s.main == Driving(ForRw(r))
  }

  lemma InsideKept(s: State, r: nat)
    requires Inv(s) && Inside(s, r) && Me(s) in LockAt(s, r).granted
    ensures Inv(if s.core.cur > 0 then Resume(s) else MainGoes(s, ForRw(r)))
  {
    hide Inv, LockTest, ReapIt;
    if s.core.cur > 0 {
      ResumeInv(s);
    } else {
      MainOnInv(s, ForRw(r));
    }
  }

  lemma InsideFacts(s: State, locks: map<nat, NbRw>, want: map<nat, bool>, held: Records, r: nat)
    requires Inv(s) && Inside(s, r) && Rep(locks, want, held, s.rw)
    ensures Me(s) !in want <==> Me(s) in LockAt(s, r).granted
    ensures s.core.cur > 0 ==> Me(s) in LockAt(s, r).granted
  {
    hide RwLock.Inv, AtHome, Wakened, Joined, Part, CountIn;
    assert RwAt(s, r) && RepOf(locks, want, held, s.rw, r);
    if s.core.cur > 0 {
      RunnerGranted(s, r);
    } else if MAIN !in LockAt(s, r).granted {
      NamedIn(LockAt(s, r).queue, Q(s.core, RwQ(r)), MAIN);
    }
  }

  lemma NamedIn(q: seq<RwLock.Waiter>, l: seq<nat>, h: nat)
    requires Names(q, l) && h in l
    ensures exists i :: 0 <= i < |q| && q[i].id == h
  {
    var i :| 0 <= i < |l| && l[i] == h;
    assert q[i].id == h;
  }

  lemma RepTook(s: State, locks: map<nat, NbRw>, want: map<nat, bool>, held: Records, r: nat, me: nat, write: bool)
    requires Rep(locks, want, held, s.rw) && me in LockAt(s, r).granted && LockAt(s, r).granted[me] == write
    ensures var f, t := RwOf(locks, r), RwLock.Resume(LockAt(s, r), me).0;
      if write then Rep(locks[r := f.(writer := Some(me))], want, held, s.rw[r := t])
      else Rep(locks, want, SetCount(held, me, r, 1), s.rw[r := t])
  {
    hide CountIn, SetCount;
    CountSet(held, me, r, 1);
    var v, f := LockAt(s, r), RwOf(locks, r);
    assert RepOf(locks, want, held, s.rw, r);
    forall x
      ensures WantKept(want, want, VOf(s.rw, x))
    {
      SameWant(want, VOf(s.rw, x));
    }
    var t := RwLock.Resume(v, me).0;
    if write {
      RepSet(locks, want, held, s.rw, r, f.(writer := Some(me)), want, held, t);
    } else {
      RepSet(locks, want, held, s.rw, r, f, want, SetCount(held, me, r, 1), t);
      SetBack(locks, want, SetCount(held, me, r, 1), s.rw[r := t], r);
    }
  }

  lemma SetBack(locks: map<nat, NbRw>, want: map<nat, bool>, held: Records, rw: map<nat, RwLock.Rw>, r: nat)
    requires Rep(locks[r := RwOf(locks, r)], want, held, rw)
    ensures Rep(locks, want, held, rw)
  {
    var locks' := locks[r := RwOf(locks, r)];
    forall x: nat
      ensures RepOf(locks, want, held, rw, x)
    {
      hide RepAt;
      assert RepOf(locks', want, held, rw, x);
    }
  }
}
