/**
 unikernel/runtime_bare.c, the reader-writer lock: one lock, any holders, whatever order they
 run in. A release lets in what the head of the queue can have, before the waiter has run.
 */
module RwLock {
  import opened Options

  datatype Waiter = Waiter(id: nat, write: bool)

  /**
   A lock: the two counters and the writer the C structure has, the waiters in order of arrival,
   who has been granted it and has not run since, and how often each reader has recorded it.
   */
  datatype Rw = Rw(readers: nat, writing: bool, writer: Option<nat>, queue: seq<Waiter>,
                   granted: map<nat, bool>, entries: map<nat, nat>)

  datatype Outcome = Taken | Waits | Refused | Panics | Done

  const FREE := Rw(0, false, None, [], map[], map[])

  // ----- the operations, up to the switch where they wait

  predicate CanHave(r: Rw, w: Waiter) { !r.writing && (w.write ==> r.readers == 0) }

  function LetIn(r: Rw): Rw
    requires r.queue != []
  {
    var c := r.queue[0];
    Rw(if c.write then r.readers else r.readers + 1, r.writing || c.write, r.writer, r.queue[1..],
       r.granted[c.id := c.write], r.entries)
  }

  /** nb_rw_grant: one writer, or the run of readers up to the next writer. */
  function Grant(r: Rw): Rw
    decreases |r.queue|
  {
    if r.queue == [] || !CanHave(r, r.queue[0]) then r
    else if r.queue[0].write then LetIn(r)
    else Grant(LetIn(r))
  }

  function Arrive(r: Rw, h: nat, write: bool): Rw { r.(queue := r.queue + [Waiter(h, write)]) }

  function RdLock(r: Rw, h: nat): (Rw, Outcome) {
    if h in r.entries then (r.(entries := r.entries[h := r.entries[h] + 1]), Taken)
    else if r.writer == Some(h) then (r, Panics)
    else if !r.writing && r.queue == [] then (r.(readers := r.readers + 1, entries := r.entries[h := 1]), Taken)
    else (Arrive(r, h, false), Waits)
  }

  function WrLock(r: Rw, h: nat): (Rw, Outcome) {
    if r.writer == Some(h) || h in r.entries then (r, Panics)
    else if !r.writing && r.readers == 0 && r.queue == [] then (r.(writing := true, writer := Some(h)), Taken)
    else (Arrive(r, h, true), Waits)
  }

  /** What a granted waiter does when it runs: it records what it was given. */
  function Resume(r: Rw, h: nat): (Rw, Outcome) {
    if h !in r.granted then (r, Refused)
    else
      var t := r.(granted := r.granted - {h});
      (if r.granted[h] then t.(writer := Some(h)) else t.(entries := t.entries[h := 1]), Taken)
  }

  function RdUnlock(r: Rw, h: nat): (Rw, Outcome) {
    if h in r.entries && r.entries[h] > 1 then (r.(entries := r.entries[h := r.entries[h] - 1]), Done)
    else
      var t := r.(entries := r.entries - {h});
      if t.readers == 0 then (t, Done)
      else
        var u := t.(readers := t.readers - 1);
        (if u.readers == 0 then Grant(u) else u, Done)
  }

  function WrUnlock(r: Rw, h: nat): (Rw, Outcome) { (Grant(r.(writer := None, writing := false)), Done) }

  function TryRdLock(r: Rw, h: nat): (Rw, Outcome) {
    if h in r.entries then (r.(entries := r.entries[h := r.entries[h] + 1]), Taken)
    else if r.writing || r.queue != [] then (r, Refused)
    else (r.(readers := r.readers + 1, entries := r.entries[h := 1]), Taken)
  }

  function TryWrLock(r: Rw, h: nat): (Rw, Outcome) {
    if r.writing || r.readers > 0 || r.queue != [] || h in r.entries then (r, Refused)
    else (r.(writing := true, writer := Some(h)), Taken)
  }

  // ----- what holds in every reachable state

  ghost function Readers(r: Rw): set<nat> {
    r.entries.Keys + (set h | h in r.granted && !r.granted[h])
  }

  ghost function Writers(r: Rw): set<nat> {
    (if r.writer.Some? then {r.writer.value} else {}) + (set h | h in r.granted && r.granted[h])
  }

  /** Queued or granted: the holder is inside rdlock or wrlock. */
  ghost predicate Waiting(r: Rw, h: nat) { h in r.granted || exists i :: 0 <= i < |r.queue| && r.queue[i].id == h }

  /** The counters count exactly the recorded holders and those granted but not yet resumed. */
  ghost predicate Counted(r: Rw) {
    && r.readers == |Readers(r)| && |Writers(r)| == (if r.writing then 1 else 0)
    && r.entries.Keys !! r.granted.Keys
    && (r.writer.Some? ==> r.writer.value !in r.granted)
    && (forall h | h in r.entries :: r.entries[h] > 0)
  }

  /** No queued waiter already holds the lock it queues for, nor queues twice. */
  ghost predicate QueueClean(r: Rw) {
    && (forall i | 0 <= i < |r.queue| :: r.queue[i].id !in Readers(r) && r.queue[i].id !in Writers(r))
    && (forall i, j | 0 <= i < j < |r.queue| :: r.queue[i].id != r.queue[j].id)
  }

  ghost predicate HeadBlocked(r: Rw) { r.queue != [] ==> !CanHave(r, r.queue[0]) }

  ghost predicate Inv(r: Rw) { Counted(r) && !(r.writing && r.readers > 0) && QueueClean(r) && HeadBlocked(r) }

  // ----- granting

  /** Everything but the head being blocked. */
  ghost predicate Sound(r: Rw) { Counted(r) && !(r.writing && r.readers > 0) && QueueClean(r) }

  lemma LetInSets(r: Rw)
    requires r.queue != [] && r.queue[0].id !in r.granted
    ensures var c, t := r.queue[0], LetIn(r);
      && Readers(t) == (if c.write then Readers(r) else Readers(r) + {c.id})
      && Writers(t) == (if c.write then Writers(r) + {c.id} else Writers(r))
  {
  }

  lemma HeadFresh(r: Rw)
    requires QueueClean(r) && r.queue != []
    ensures var c := r.queue[0].id;
      c !in Readers(r) && c !in Writers(r) && c !in r.granted && c !in r.entries && r.writer != Some(c)
  {
  }

  lemma LetInClean(r: Rw)
    requires QueueClean(r) && r.queue != []
    ensures QueueClean(LetIn(r))
  {
    hide Readers, Writers;
    var t := LetIn(r);
    HeadFresh(r);
    LetInSets(r);
    assert forall i | 0 <= i < |t.queue| :: t.queue[i] == r.queue[i + 1];
  }

  lemma LetInCounted(r: Rw)
    requires Counted(r) && QueueClean(r) && r.queue != [] && CanHave(r, r.queue[0])
    ensures Counted(LetIn(r))
  {
    hide Readers, Writers, QueueClean;
    HeadFresh(r);
    LetInSets(r);
  }

  lemma LetInSound(r: Rw)
    requires Sound(r) && r.queue != [] && CanHave(r, r.queue[0])
    ensures Sound(LetIn(r))
  {
    hide Counted, QueueClean;
    LetInClean(r);
    LetInCounted(r);
  }

  lemma {:induction false} GrantSound(r: Rw)
    requires Sound(r)
    ensures Inv(Grant(r))
    decreases |r.queue|
  {
    if r.queue == [] || !CanHave(r, r.queue[0]) {
    } else {
      hide Sound, Inv;
      LetInSound(r);
      if r.queue[0].write {
        WriterBlocks(LetIn(r));
      } else {
        GrantSound(LetIn(r));
      }
    }
  }

  lemma WriterBlocks(r: Rw)
    requires Sound(r) && r.writing
    ensures Inv(r)
  {
  }

  // ----- every operation keeps it

  datatype Op = Rd | Wr | Go | UnRd | UnWr | TryRd | TryWr

  function Do(r: Rw, h: nat, o: Op): (Rw, Outcome) {
    match o
    case Rd => RdLock(r, h)
    case Wr => WrLock(r, h)
    case Go => Resume(r, h)
    case UnRd => RdUnlock(r, h)
    case UnWr => WrUnlock(r, h)
    case TryRd => TryRdLock(r, h)
    case TryWr => TryWrLock(r, h)
  }

  /** A holder inside a wait does nothing else, and unlocks only what it has. */
  ghost predicate Enabled(r: Rw, h: nat, o: Op) {
    match o
    case Go => h in r.granted
    case UnRd => !Waiting(r, h) && h in r.entries
    case UnWr => !Waiting(r, h) && r.writer == Some(h)
    case _ => !Waiting(r, h)
  }

  lemma TakenSets(r: Rw, h: nat)
    requires h !in r.granted
    ensures Readers(r.(readers := r.readers + 1, entries := r.entries[h := 1])) == Readers(r) + {h}
    ensures r.writer == None ==> Writers(r.(writing := true, writer := Some(h))) == Writers(r) + {h}
    ensures h in r.entries ==> Readers(r.(entries := r.entries[h := r.entries[h] + 1])) == Readers(r)
  {
  }

  /** A lock nobody writes has no recorded writer and no granted one. */
  lemma NoWriter(r: Rw)
    requires Counted(r) && !r.writing
    ensures Writers(r) == {} && r.writer == None
  {
    assert Writers(r) == {};
  }

  lemma RdLockInv(r: Rw, h: nat)
    requires Inv(r) && !Waiting(r, h)
    ensures Inv(RdLock(r, h).0) && Inv(TryRdLock(r, h).0)
  {
    hide Readers, Writers;
    TakenSets(r, h);
    EntrySets(r);
    if h in r.entries {
      EntryMore(r, h, r.entries[h] + 1);
    } else if !r.writing && r.queue == [] {
      NoWriter(r);
      WritersSame(r, r.(readers := r.readers + 1, entries := r.entries[h := 1]));
      assert h !in Readers(r);
    } else if r.writer != Some(h) {
      ArriveInv(r, h, false);
    }
  }

  lemma EntrySets(r: Rw)
    ensures forall h :: h in Readers(r) <==> h in r.entries || (h in r.granted && !r.granted[h])
    ensures forall h :: h in Writers(r) <==> r.writer == Some(h) || (h in r.granted && r.granted[h])
  {
  }

  lemma WritersSame(r: Rw, t: Rw)
    requires t.writer == r.writer && t.granted == r.granted
    ensures Writers(t) == Writers(r)
  {
  }

  /** A counted re-read changes who holds the lock not at all. */
  lemma EntryMore(r: Rw, h: nat, c: nat)
    requires Inv(r) && h in r.entries && c > 0
    ensures Inv(r.(entries := r.entries[h := c]))
  {
    hide Readers, Writers;
    var t := r.(entries := r.entries[h := c]);
    EntrySets(r);
    EntrySets(t);
    assert Readers(t) == Readers(r);
    WritersSame(r, t);
  }

  lemma ArriveInv(r: Rw, h: nat, write: bool)
    requires Inv(r) && !Waiting(r, h) && h !in r.entries && r.writer != Some(h)
    requires r.queue != [] || !CanHave(r, Waiter(h, write))
    ensures Inv(Arrive(r, h, write))
  {
    hide Readers, Writers;
    var t := Arrive(r, h, write);
    EntrySets(r);
    EntrySets(t);
    assert Readers(t) == Readers(r);
    WritersSame(r, t);
    assert h !in Readers(r) && h !in Writers(r);
    assert r.queue != [] ==> t.queue[0] == r.queue[0];
  }

  lemma WrLockInv(r: Rw, h: nat)
    requires Inv(r) && !Waiting(r, h)
    ensures Inv(WrLock(r, h).0) && Inv(TryWrLock(r, h).0)
  {
    hide Readers, Writers;
    if r.writer == Some(h) || h in r.entries {
      if !r.writing {
        NoWriter(r);
      }
    } else if !r.writing && r.readers == 0 && r.queue == [] {
      NoWriter(r);
      TakenSets(r, h);
      EntrySets(r);
      ReadersSame(r, r.(writing := true, writer := Some(h)));
    } else {
      ArriveInv(r, h, true);
    }
  }

  lemma ReadersSame(r: Rw, t: Rw)
    requires t.entries.Keys == r.entries.Keys && t.granted == r.granted
    ensures Readers(t) == Readers(r)
  {
  }

  /** Resuming turns a grant into a record: the same holders. */
  lemma ResumeInv(r: Rw, h: nat)
    requires Inv(r) && h in r.granted
    ensures Inv(Resume(r, h).0)
    ensures Readers(Resume(r, h).0) == Readers(r) && Writers(Resume(r, h).0) == Writers(r)
  {
    hide Readers, Writers;
    var t := Resume(r, h).0;
    EntrySets(r);
    EntrySets(t);
    if r.granted[h] && r.writer.Some? {
      TwoWriters(r, h, r.writer.value);
    }
    assert Readers(t) == Readers(r);
    assert Writers(t) == Writers(r);
  }

  lemma TwoWriters(r: Rw, x: nat, y: nat)
    requires Counted(r) && x in Writers(r) && y in Writers(r)
    ensures x == y
  {
    hide Writers;
    if x != y {
      assert {x, y} <= Writers(r);
      Cards({x, y}, Writers(r));
    }
  }

  lemma {:induction false} Cards(a: set<nat>, b: set<nat>)
    requires a <= b
    ensures |a| <= |b|
    decreases a
  {
    if a != {} {
      var x :| x in a;
      Cards(a - {x}, b - {x});
    }
  }

  lemma RdUnlockInv(r: Rw, h: nat)
    requires Inv(r) && h in r.entries
    ensures Inv(RdUnlock(r, h).0)
  {
    hide Readers, Writers, Grant;
    if r.entries[h] > 1 {
      EntryMore(r, h, r.entries[h] - 1);
    } else {
      HasReader(r, h);
      RdDropSound(r, h);
      var t := Dropped(r, h);
      if t.readers == 0 {
        GrantSound(t);
      }
    }
  }

  lemma HasReader(r: Rw, h: nat)
    requires Counted(r) && h in r.entries
    ensures r.readers > 0
  {
    assert h in Readers(r);
  }

  function Dropped(r: Rw, h: nat): Rw
    requires r.readers > 0
  {
    r.(entries := r.entries - {h}, readers := r.readers - 1)
  }

  lemma DroppedSets(r: Rw, h: nat)
    requires r.readers > 0 && h in r.entries && r.entries.Keys !! r.granted.Keys
    ensures Readers(r) == Readers(Dropped(r, h)) + {h} && h !in Readers(Dropped(r, h)) && Writers(Dropped(r, h)) == Writers(r)
  {
    var t := Dropped(r, h);
    assert forall x :: x in t.entries <==> x in r.entries && x != h;
    EntrySets(r);
    EntrySets(t);
    WritersSame(r, t);
  }

  /** One reader fewer: what is left is sound, and while readers remain the head stays blocked. */
  lemma RdDropSound(r: Rw, h: nat)
    requires Inv(r) && h in r.entries && r.readers > 0
    ensures Sound(Dropped(r, h)) && (r.readers > 1 ==> HeadBlocked(Dropped(r, h)))
  {
    hide Readers, Writers;
    DroppedSets(r, h);
  }

  lemma WrUnlockInv(r: Rw, h: nat)
    requires Inv(r) && r.writer == Some(h)
    ensures Inv(WrUnlock(r, h).0)
  {
    hide Readers, Writers, Grant;
    var t := r.(writer := None, writing := false);
    EntrySets(r);
    EntrySets(t);
    assert Writers(r) == Writers(t) + {h} && h !in Writers(t);
    ReadersSame(r, t);
    GrantSound(t);
  }

  lemma StepInv(r: Rw, h: nat, o: Op)
    requires Inv(r) && Enabled(r, h, o)
    ensures Inv(Do(r, h, o).0)
  {
    hide Inv, RdLock, WrLock, Resume, RdUnlock, WrUnlock, TryRdLock, TryWrLock;
    match o
    case Rd => RdLockInv(r, h);
    case Wr => WrLockInv(r, h);
    case Go => ResumeInv(r, h);
    case UnRd => RdUnlockInv(r, h);
    case UnWr => WrUnlockInv(r, h);
    case TryRd => RdLockInv(r, h);
    case TryWr => WrLockInv(r, h);
  }

  // ----- what a call answers

  /** rdlock panics for the writer alone, is granted at once exactly to a reader again or when nobody writes or waits, and rdunlock undoes it. */
  lemma RdLockExact(r: Rw, h: nat)
    requires Inv(r) && !Waiting(r, h)
    ensures var (t, out) := RdLock(r, h);
      && (out == Panics <==> r.writer == Some(h))
      && (out == Taken <==> h in r.entries || (Writers(r) == {} && r.queue == []))
      && (out == Taken ==> Readers(t) == Readers(r) + {h} && RdUnlock(t, h) == (r, Done))
      && (out == Waits ==> t == r.(queue := r.queue + [Waiter(h, false)])) && out in {Panics, Taken, Waits}
  {
    hide Readers, Writers, QueueClean;
    EntrySets(r);
    TakenSets(r, h);
    WritesExact(r);
    if h in r.entries {
      HasReader(r, h);
      assert r.entries[h := r.entries[h] + 1][h := r.entries[h]] == r.entries;
    } else {
      assert r.entries[h := 1] - {h} == r.entries;
    }
  }

  /** Somebody is writing exactly when the lock says so. */
  lemma WritesExact(r: Rw)
    requires Counted(r) && !(r.writing && r.readers > 0)
    ensures Writers(r) == {} <==> !r.writing
    ensures Readers(r) == {} <==> r.readers == 0
    ensures r.writer.Some? ==> r.writing && r.writer.value !in r.entries
  {
    hide Readers, Writers;
    EntrySets(r);
  }

  /** wrlock panics for who holds the lock already, is granted at once exactly when nobody holds it or waits, and wrunlock undoes it. */
  lemma WrLockExact(r: Rw, h: nat)
    requires Inv(r) && !Waiting(r, h)
    ensures var (t, out) := WrLock(r, h);
      && (out == Panics <==> r.writer == Some(h) || h in r.entries)
      && (out == Taken <==> Readers(r) == {} && Writers(r) == {} && r.queue == [])
      && (out == Taken ==> Writers(t) == {h} && WrUnlock(t, h) == (r, Done))
      && (out == Waits ==> t == r.(queue := r.queue + [Waiter(h, true)])) && out in {Panics, Taken, Waits}
  {
    hide Readers, Writers, QueueClean;
    EntrySets(r);
    WritesExact(r);
    if !r.writing {
      NoWriter(r);
      TakenSets(r, h);
    }
  }

  /** The try calls take what the waiting calls would take at once, and are refused otherwise. */
  lemma TryExact(r: Rw, h: nat)
    requires Inv(r) && !Waiting(r, h)
    ensures TryRdLock(r, h) == if RdLock(r, h).1 == Taken then RdLock(r, h) else (r, Refused)
    ensures TryWrLock(r, h) == if WrLock(r, h).1 == Taken then WrLock(r, h) else (r, Refused)
  {
    hide Readers, Writers, QueueClean;
    WritesExact(r);
  }

  // ----- every run

  datatype Act = Act(h: nat, o: Op)

  /** States passed through from a free lock, by any holders in any order. */
  ghost predicate IsRun(rs: seq<Rw>, acts: seq<Act>) {
    && |rs| == |acts| + 1
    && (if acts == [] then rs[0] == FREE
        else
          var n := |acts| - 1;
          && IsRun(rs[..n + 1], acts[..n])
          && Enabled(rs[n], acts[n].h, acts[n].o) && rs[n + 1] == Do(rs[n], acts[n].h, acts[n].o).0)
  }

  lemma FreeInv()
    ensures Inv(FREE)
  {
    assert Readers(FREE) == {} && Writers(FREE) == {};
  }

  lemma {:induction false} RunInv(rs: seq<Rw>, acts: seq<Act>)
    requires IsRun(rs, acts)
    ensures Inv(rs[|acts|])
  {
    if acts == [] {
      FreeInv();
    } else {
      hide Inv, Do, Enabled;
      var n := |acts| - 1;
      RunInv(rs[..n + 1], acts[..n]);
      StepInv(rs[n], acts[n].h, acts[n].o);
    }
  }

  // ----- unlocks by someone who holds nothing

  function Bit(b: bool): int { if b then 1 else 0 }

  /** Grants keep the gap between who holds the lock and what the counters say. */
  lemma {:induction false} GrantGap(r: Rw)
    requires QueueClean(r)
    ensures |Readers(Grant(r))| - Grant(r).readers == |Readers(r)| - r.readers
    ensures |Writers(Grant(r))| - Bit(Grant(r).writing) == |Writers(r)| - Bit(r.writing)
    decreases |r.queue|
  {
    if r.queue != [] && CanHave(r, r.queue[0]) {
      hide Readers, Writers, QueueClean;
      HeadFresh(r);
      LetInSets(r);
      if !r.queue[0].write {
        LetInClean(r);
        GrantGap(LetIn(r));
      }
    }
  }

  /** rdunlock keeps the invariant exactly when its caller reads the lock or nobody does. */
  lemma RdUnlockExact(r: Rw, h: nat)
    requires Inv(r) && !Waiting(r, h)
    ensures Inv(RdUnlock(r, h).0) <==> h in r.entries || r.readers == 0
    ensures Harmless(r, RdUnlock(r, h).0, h) <==> h in r.entries || r.readers == 0
  {
    if h in r.entries {
      RdUnlockInv(r, h);
    } else {
      assert r.(entries := r.entries - {h}) == r by {
        assert r.entries - {h} == r.entries;
      }
      if r.readers > 0 {
        UncountedUnlock(r, h);
      }
    }
  }

  lemma UncountedUnlock(r: Rw, h: nat)
    requires Inv(r) && h !in r.entries && r.readers > 0
    ensures !Counted(RdUnlock(r, h).0)
  {
    hide Readers, Writers, Grant, QueueClean, HeadBlocked;
    var u := r.(readers := r.readers - 1);
    assert r.entries - {h} == r.entries;
    CleanSame(r, u);
    GrantGap(u);
  }

  lemma CleanSame(r: Rw, u: Rw)
    requires QueueClean(r) && u.queue == r.queue && u.entries == r.entries && u.granted == r.granted && u.writer == r.writer
    ensures QueueClean(u) && Readers(u) == Readers(r)
  {
    hide Readers, Writers;
    ReadersSame(r, u);
    WritersSame(r, u);
  }

  /** The lock is sound after h's unlock, and nobody else has lost it. */
  ghost predicate Harmless(r: Rw, t: Rw, h: nat) { Inv(t) && forall x | x != h && x in Holders(r) :: x in Holders(t) }

  /** wrunlock harms nobody exactly when its caller is the recorded writer, or nobody writes. */
  lemma WrUnlockExact(r: Rw, h: nat)
    requires Inv(r)
    ensures Harmless(r, WrUnlock(r, h).0, h) <==> r.writer == Some(h) || !r.writing
  {
    hide Readers, Writers, Grant, QueueClean, Ids;
    var t := r.(writer := None, writing := false);
    EntrySets(r);
    EntrySets(t);
    ReadersSame(r, t);
    if r.writer.Some? {
      WrUnlockInv(r, r.writer.value);
      WriterGone(r, t);
    } else {
      CleanSame(r, t);
      WritersSame(r, t);
      GrantGap(t);
      if !r.writing {
        GrantSound(t);
        var k := GrantPrefix(t);
      }
    }
  }

  /** Without its recorded writer: everyone else stays, the writer does not. */
  lemma WriterGone(r: Rw, t: Rw)
    requires Inv(r) && r.writer.Some? && t == r.(writer := None, writing := false)
    ensures forall x | x != r.writer.value && x in Holders(r) :: x in Holders(Grant(t))
    ensures r.writer.value !in Holders(Grant(t))
  {
    hide Grant, Readers, Writers, QueueClean, Ids;
    WrDropSound(r, r.writer.value);
    WriterOut(r, t);
    var k := GrantPrefix(t);
    GrantClean(t, r.writer.value);
  }

  lemma WriterOut(r: Rw, t: Rw)
    requires Inv(r) && r.writer.Some? && t == r.(writer := None, writing := false)
    ensures forall x | x != r.writer.value && x in Holders(r) :: x in Holders(t)
    ensures r.writer.value !in Holders(t) && forall i | 0 <= i < |t.queue| :: t.queue[i].id != r.writer.value
  {
    ReadersSame(r, t);
  }

  /** A prefix of the queue holds only who queued. */
  lemma GrantClean(t: Rw, w: nat)
    requires QueueClean(t) && w !in Holders(t) && forall i | 0 <= i < |t.queue| :: t.queue[i].id != w
    ensures w !in Holders(Grant(t))
  {
    hide Grant, Readers, Writers, QueueClean, Holders;
    var k := GrantPrefix(t);
    assert forall i | 0 <= i < k :: t.queue[..k][i] == t.queue[i];
  }

  /** Somebody else's unlock: the writer's lock is gone under it, and the caller can take it for itself. */
  lemma WrUnlockForeign()
    ensures var r := Rw(0, true, Some(7), [], map[], map[]);
      var t := WrUnlock(r, 3).0;
      && Inv(r) && Inv(t) && 7 in Holders(r) && 7 !in Holders(t) && TryWrLock(t, 3).1 == Taken && !Harmless(r, t, 3)
  {
    var r := Rw(0, true, Some(7), [], map[], map[]);
    assert Readers(r) == {} && Writers(r) == {7};
  }

  /** An unlock while the writer let in has not run: the lock is free under it. */
  lemma WrUnlockGranted()
    ensures var r := Rw(0, true, None, [], map[7 := true], map[]);
      var t := WrUnlock(r, 3).0;
      && Inv(r) && !Inv(t) && 7 in Holders(t) && TryWrLock(t, 3).1 == Taken
  {
    var r := Rw(0, true, None, [], map[7 := true], map[]);
    assert Readers(r) == {} && Writers(r) == {7};
    WrUnlockExact(r, 3);
    assert WrUnlock(r, 3).0 == Rw(0, false, None, [], map[7 := true], map[]);
    assert Writers(WrUnlock(r, 3).0) == {7};
  }

  /** A reader that unlocks twice: the second unlock takes away the other reader's count. */
  lemma RdUnlockTwice()
    ensures var r := Rw(1, false, None, [], map[], map[7 := 1]);
      Inv(r) && !Waiting(r, 3) && !Inv(RdUnlock(r, 3).0) && RdUnlock(r, 3).0.readers == 0 && 7 in RdUnlock(r, 3).0.entries
  {
    var r := Rw(1, false, None, [], map[], map[7 := 1]);
    assert Readers(r) == {7} && Writers(r) == {};
    RdUnlockExact(r, 3);
  }

  // ----- first come, first served

  ghost function Holders(r: Rw): set<nat> { Readers(r) + Writers(r) }

  ghost function Ids(q: seq<Waiter>): set<nat> { set i | 0 <= i < |q| :: q[i].id }

  function Load(r: Rw): nat { r.readers + Bit(r.writing) }

  /** Grants go to a prefix of the queue, each adding one holder. */
  lemma {:induction false} GrantPrefix(r: Rw) returns (k: nat)
    requires QueueClean(r)
    ensures k <= |r.queue| && Grant(r).queue == r.queue[k..] && Load(Grant(r)) == Load(r) + k
    ensures Holders(Grant(r)) == Holders(r) + Ids(r.queue[..k])
    decreases |r.queue|
  {
    hide Holders, QueueClean, Ids, Readers, Writers;
    if r.queue == [] || !CanHave(r, r.queue[0]) {
      k := 0;
      NoIds(r.queue);
    } else {
      var c := r.queue[0];
      LetInHolders(r);
      if c.write {
        k := 1;
        FirstId(r.queue, 1);
        NoIds(r.queue[1..]);
      } else {
        LetInClean(r);
        var j := GrantPrefix(LetIn(r));
        k := j + 1;
        FirstId(r.queue, k);
      }
    }
  }

  lemma LetInHolders(r: Rw)
    requires QueueClean(r) && r.queue != []
    ensures Holders(LetIn(r)) == Holders(r) + {r.queue[0].id}
  {
    hide Readers, Writers, QueueClean;
    HeadFresh(r);
    LetInSets(r);
  }

  lemma NoIds(q: seq<Waiter>)
    ensures Ids(q[..0]) == {}
  {
  }

  lemma FirstId(q: seq<Waiter>, k: nat)
    requires 0 < k <= |q|
    ensures Ids(q[..k]) == {q[0].id} + Ids(q[1..][..k - 1])
  {
    var t := q[1..][..k - 1];
    assert forall i | 0 <= i < |t| :: t[i] == q[..k][i + 1];
    assert forall i | 1 <= i < k :: q[..k][i] == t[i - 1];
  }

  function Arrival(r: Rw, h: nat, o: Op): seq<Waiter> {
    if o == Rd && RdLock(r, h).1 == Waits then [Waiter(h, false)]
    else if o == Wr && WrLock(r, h).1 == Waits then [Waiter(h, true)]
    else []
  }

  ghost predicate FullRelease(r: Rw, h: nat, o: Op) {
    (o == UnRd && h in r.entries && r.entries[h] == 1) || o == UnWr
  }

  /**
   While anyone queues, an operation lets in only a prefix of the queue: whoever else asks waits
   at its end or is refused, and only what its holder already holds is counted again. A full
   release takes one from the queue's length and the holders together.
   */
  lemma FirstCome(r: Rw, h: nat, o: Op) returns (k: nat)
    requires Inv(r) && Enabled(r, h, o) && r.queue != []
    ensures LetsIn(r, h, o, k)
  {
    hide Readers, Writers, Inv, LetsIn;
    match o {
      case UnRd => k := UnRdLetsIn(r, h);
      case UnWr => k := UnWrLetsIn(r, h);
      case Go =>
        k := 0;
        GoLetsIn(r, h);
      case Rd =>
        k := 0;
        AskLetsIn(r, h, o);
      case TryRd =>
        k := 0;
        AskLetsIn(r, h, o);
      case Wr =>
        k := 0;
        AskLetsIn(r, h, o);
      case TryWr =>
        k := 0;
        AskLetsIn(r, h, o);
    }
  }

  ghost predicate LetsIn(r: Rw, h: nat, o: Op, k: nat) {
    var t := Do(r, h, o).0;
    && k <= |r.queue| && t.queue == r.queue[k..] + Arrival(r, h, o)
    && Holders(t) <= Holders(r) + Ids(r.queue[..k])
    && k + Load(r) == Load(t) + (if FullRelease(r, h, o) then 1 else 0)
  }

  lemma DropParts(r: Rw, h: nat)
    requires Inv(r) && h in r.entries
    ensures r.readers > 0 && r.entries[h] > 0 && QueueClean(Dropped(r, h)) && Holders(Dropped(r, h)) <= Holders(r)
  {
    hide Readers, Writers;
    HasReader(r, h);
    RdDropSound(r, h);
    DroppedSets(r, h);
  }

  lemma UnRdLetsIn(r: Rw, h: nat) returns (k: nat)
    requires Inv(r) && Enabled(r, h, UnRd) && r.queue != []
    ensures LetsIn(r, h, UnRd, k)
  {
    hide Inv, QueueClean, Holders, Ids, Grant, Waiting;
    k := 0;
    DropParts(r, h);
    if r.entries[h] > 1 {
      TakenReread(r, h, r.entries[h] - 1);
    } else if r.readers == 1 {
      k := GrantPrefix(Dropped(r, h));
    }
  }

  lemma UnWrLetsIn(r: Rw, h: nat) returns (k: nat)
    requires Inv(r) && Enabled(r, h, UnWr) && r.queue != []
    ensures LetsIn(r, h, UnWr, k)
  {
    hide Readers, Writers, Grant, Holders, Ids, QueueClean, Waiting;
    WrDropSound(r, h);
    k := GrantPrefix(r.(writer := None, writing := false));
  }

  lemma GoLetsIn(r: Rw, h: nat)
    requires Inv(r) && Enabled(r, h, Go) && r.queue != []
    ensures LetsIn(r, h, Go, 0)
  {
    hide Readers, Writers;
    ResumeInv(r, h);
  }

  /** A request while someone queues: a counted re-read, a refusal, or a place at the end. */
  lemma AskLetsIn(r: Rw, h: nat, o: Op)
    requires Inv(r) && Enabled(r, h, o) && r.queue != [] && o in {Rd, Wr, TryRd, TryWr}
    ensures LetsIn(r, h, o, 0)
  {
    hide Inv, Holders, Ids, Enabled;
    OnlyReread(r, h, Do(r, h, o).0);
  }

  lemma TakenReread(r: Rw, h: nat, c: nat)
    requires h in r.entries
    ensures Holders(r.(entries := r.entries[h := c])) == Holders(r)
  {
    ReadersSame(r, r.(entries := r.entries[h := c]));
    WritersSame(r, r.(entries := r.entries[h := c]));
  }

  lemma OnlyReread(r: Rw, h: nat, t: Rw)
    requires t.entries.Keys == r.entries.Keys && t.granted == r.granted && t.writer == r.writer
    ensures Holders(t) == Holders(r)
  {
    ReadersSame(r, t);
    WritersSame(r, t);
  }

  lemma WrDropSound(r: Rw, h: nat)
    requires Inv(r) && r.writer == Some(h)
    ensures var u := r.(writer := None, writing := false);
      Sound(u) && Holders(u) <= Holders(r) && r.writing
  {
    hide Readers, Writers;
    var t := r.(writer := None, writing := false);
    EntrySets(r);
    EntrySets(t);
    assert Writers(r) == Writers(t) + {h} && h !in Writers(t);
    ReadersSame(r, t);
  }

  // ----- no waiter starves

  /** Where in the queue a holder waits; the queue's length when it does not. */
  function Place(q: seq<Waiter>, h: nat): (i: nat)
    ensures i <= |q|
    ensures i < |q| ==> q[i].id == h
  {
    if q == [] || q[0].id == h then 0 else 1 + Place(q[1..], h)
  }

  /** Waiters ahead and holders: what must go before h is let in. */
  function Ahead(r: Rw, h: nat): nat { Place(r.queue, h) + Load(r) }

  lemma {:induction false} PlaceOf(q: seq<Waiter>, i: nat)
    requires i < |q| && forall a, b | 0 <= a < b < |q| :: q[a].id != q[b].id
    ensures Place(q, q[i].id) == i
  {
    if i > 0 {
      assert q[0].id != q[i].id;
      assert forall a, b | 0 <= a < b < |q[1..]| :: q[1..][a].id == q[a + 1].id && q[1..][b].id == q[b + 1].id;
      PlaceOf(q[1..], i - 1);
    }
  }

  /** No step puts a waiter back; each full release brings every waiter nearer. */
  lemma StepAhead(r: Rw, h: nat, o: Op, w: nat)
    requires Inv(r) && Enabled(r, h, o) && Place(r.queue, w) < |r.queue|
    requires Place(Do(r, h, o).0.queue, w) < |Do(r, h, o).0.queue|
    ensures Ahead(Do(r, h, o).0, w) + (if FullRelease(r, h, o) then 1 else 0) == Ahead(r, w)
  {
    hide Readers, Writers, Grant, Do, Place;
    var t := Do(r, h, o).0;
    var k := FirstCome(r, h, o);
    assert LetsIn(r, h, o, k);
    StepInv(r, h, o);
    var i, j := Place(r.queue, w), Place(t.queue, w);
    if j < |r.queue| - k {
      assert t.queue[j] == r.queue[j + k];
      PlaceOf(r.queue, j + k);
    } else {
      ArrivesNew(r, h, o, w);
    }
  }

  lemma ArrivesNew(r: Rw, h: nat, o: Op, w: nat)
    requires Inv(r) && Enabled(r, h, o) && Place(r.queue, w) < |r.queue|
    ensures forall i | 0 <= i < |Arrival(r, h, o)| :: Arrival(r, h, o)[i].id != w
  {
    hide Inv;
    assert r.queue[Place(r.queue, w)].id == w;
  }

  function Releases(rs: seq<Rw>, acts: seq<Act>): nat
    requires |rs| == |acts| + 1
  {
    if acts == [] then 0
    else
      var n := |acts| - 1;
      Releases(rs[..n + 1], acts[..n])
      + (if (acts[n].o == UnRd && acts[n].h in rs[n].entries && rs[n].entries[acts[n].h] == 1) || acts[n].o == UnWr then 1 else 0)
  }

  /** A run from any state of the invariant, w waiting throughout. */
  ghost predicate WaitsThrough(rs: seq<Rw>, acts: seq<Act>, w: nat) {
    && |rs| == |acts| + 1
    && Place(rs[|acts|].queue, w) < |rs[|acts|].queue|
    && (if acts == [] then Inv(rs[0])
        else
          var n := |acts| - 1;
          && WaitsThrough(rs[..n + 1], acts[..n], w)
          && Enabled(rs[n], acts[n].h, acts[n].o) && rs[n + 1] == Do(rs[n], acts[n].h, acts[n].o).0)
  }

  /** However the runs interleave, a waiter sees no more full releases than stood ahead of it. */
  lemma {:induction false} NoStarvation(rs: seq<Rw>, acts: seq<Act>, w: nat)
    requires WaitsThrough(rs, acts, w)
    ensures Inv(rs[|acts|]) && Releases(rs, acts) + Ahead(rs[|acts|], w) == Ahead(rs[0], w)
  {
    if acts != [] {
      hide Inv, Do, Enabled, Ahead, Place;
      var n := |acts| - 1;
      NoStarvation(rs[..n + 1], acts[..n], w);
      assert Place(rs[..n + 1][n].queue, w) < |rs[..n + 1][n].queue|;
      StepInv(rs[n], acts[n].h, acts[n].o);
      StepAhead(rs[n], acts[n].h, acts[n].o, w);
    }
  }

  // ----- what the runtime sees of an operation

  /** Granting moves a prefix of the queue into the granted map, and does nothing else to either. */
  lemma {:induction false} GrantMoves(r: Rw)
    ensures var t := Grant(r);
      |t.queue| <= |r.queue| && t.queue == r.queue[|r.queue| - |t.queue|..]
      && t.granted.Keys == r.granted.Keys + Ids(r.queue[..|r.queue| - |t.queue|])
    decreases |r.queue|
  {
    hide Ids;
    if r.queue == [] || !CanHave(r, r.queue[0]) {
      NoIds(r.queue);
    } else if r.queue[0].write {
      FirstId(r.queue, 1);
      NoIds(r.queue[1..]);
    } else {
      GrantMoves(LetIn(r));
      FirstId(r.queue, |r.queue| - |Grant(r).queue|);
    }
  }

  ghost predicate Unmoved(r: Rw, t: Rw) { t.queue == r.queue && t.granted == r.granted }

  ghost predicate Added(r: Rw, t: Rw, h: nat) {
    |t.queue| == |r.queue| + 1 && t.queue[..|r.queue|] == r.queue && t.queue[|r.queue|].id == h && t.granted == r.granted
  }

  ghost predicate Granting(r: Rw, t: Rw) {
    && |t.queue| <= |r.queue| && t.queue == r.queue[|r.queue| - |t.queue|..]
    && t.granted.Keys == r.granted.Keys + Ids(r.queue[..|r.queue| - |t.queue|])
  }

  lemma GrantGrants(r: Rw, u: Rw)
    requires u.queue == r.queue && u.granted == r.granted
    ensures Granting(r, Grant(u))
  {
    GrantMoves(u);
  }

  /** A call that waits adds its holder at the end of the queue, and does nothing else to queue or grants. */
  lemma AskMoves(r: Rw, h: nat, o: Op)
    requires o in {Rd, Wr, TryRd, TryWr}
    ensures var (t, out) := Do(r, h, o);
      out != Done && (out == Waits ==> (o == Rd || o == Wr) && Added(r, t, h)) && (out != Waits ==> Unmoved(r, t))
  {
  }

  /** An unlock grants to a prefix of the queue. */
  lemma UnlockMoves(r: Rw, h: nat, o: Op)
    requires o == UnRd || o == UnWr
    ensures var (t, out) := Do(r, h, o);
      out == Done && Granting(r, t)
  {
    hide Grant, Granting;
    if o == UnWr {
      GrantGrants(r, r.(writer := None, writing := false));
    } else {
      var t := r.(entries := r.entries - {h});
      if h in r.entries && r.entries[h] > 1 {
        StillGranting(r, r.(entries := r.entries[h := r.entries[h] - 1]));
      } else if t.readers <= 1 && t.readers > 0 {
        GrantGrants(r, t.(readers := t.readers - 1));
      } else if t.readers == 0 {
        StillGranting(r, t);
      } else {
        StillGranting(r, t.(readers := t.readers - 1));
      }
    }
  }

  lemma StillGranting(r: Rw, t: Rw)
    requires Unmoved(r, t)
    ensures Granting(r, t)
  {
    assert Ids(r.queue[..0]) == {};
    assert r.queue[0..] == r.queue;
  }

  lemma GoMoves(r: Rw, h: nat)
    requires h in r.granted
    ensures var (t, out) := Do(r, h, Go);
      t.queue == r.queue && t.granted == r.granted - {h}
  {
  }

  lemma GrantedNotQueued(r: Rw, h: nat)
    requires Inv(r) && h in r.granted
    ensures forall i | 0 <= i < |r.queue| :: r.queue[i].id != h
  {
    hide Readers, Writers;
    EntrySets(r);
  }
}
