/**
 stdlib/runtime_wasm_alloc.c: the three-state futex lock around the heap, any number of threads,
 any interleaving of their atomic operations. The stdio lock is the same code.
 */
module FutexLock {

  // Where a thread is: each constructor is the next atomic operation it will do.
  datatype Pc =
    | Idle          // outside acquire and release
    | Cas01         // the first compare-exchange, 0 to 1
    | Load          // atomic_load == 2?
    | Cas12         // compare-exchange 1 to 2
    | Wait          // memory.atomic.wait32 on the value 2
    | Asleep        // inside it
    | Cas02         // the loop's compare-exchange, 0 to 2
    | Critical      // holds the lock; next atomic operation is release's fetch_sub
    | Store         // fetch_sub gave something other than 1
    | Notify        // the word is stored, one sleeper is to be woken

  datatype State = State(word: int, pcs: seq<Pc>)

  predicate Holds(p: Pc) { p == Critical || p == Store }

  /** A thread that will still act on the lock before it could sleep or leave: a releaser or a contender. */
  predicate Stirring(p: Pc) { p == Load || p == Cas12 || p == Wait || p == Cas02 || p == Store || p == Notify }

  function Move(s: State, i: nat, word: int, p: Pc): State
    requires i < |s.pcs|
  {
    State(word, s.pcs[i := p])
  }

  /** Notify wakes one sleeper, any one, when there is one. */
  ghost predicate Enabled(s: State, i: nat, woken: nat) {
    && i < |s.pcs| && s.pcs[i] != Asleep
    && (s.pcs[i] == Notify ==> if Asleep in s.pcs then woken < |s.pcs| && s.pcs[woken] == Asleep else true)
  }

  /** Thread i does its next atomic operation; an idle thread enters acquire. */
  function Step(s: State, i: nat, woken: nat): State
    requires i < |s.pcs|
  {
    match s.pcs[i]
    case Idle => Move(s, i, s.word, Cas01)
    case Cas01 => if s.word == 0 then Move(s, i, 1, Critical) else Move(s, i, s.word, Load)
    case Load => Move(s, i, s.word, if s.word == 2 then Wait else Cas12)
    case Cas12 => if s.word == 1 then Move(s, i, 2, Wait) else Move(s, i, s.word, Cas02)
    case Wait => Move(s, i, s.word, if s.word == 2 then Asleep else Cas02)
    case Asleep => s
    case Cas02 => if s.word == 0 then Move(s, i, 2, Critical) else Move(s, i, s.word, Load)
    case Critical => Move(s, i, s.word - 1, if s.word != 1 then Store else Idle)
    case Store => Move(s, i, 0, Notify)
    case Notify =>
      var t := Move(s, i, s.word, Idle);
      if woken < |s.pcs| && s.pcs[woken] == Asleep then Move(t, woken, s.word, Cas02) else t
  }

  /** The word tells whether the lock is held, and at most one thread holds it. */
  ghost predicate Exclusive(s: State) {
    && s.word in {0, 1, 2}
    && (forall i, j | 0 <= i < |s.pcs| && 0 <= j < |s.pcs| && Holds(s.pcs[i]) && Holds(s.pcs[j]) :: i == j)
    && (s.word != 0 <==> exists i :: 0 <= i < |s.pcs| && Holds(s.pcs[i]))
  }

  /** A sleeper is never forgotten. */
  ghost predicate Watched(s: State) {
    Asleep in s.pcs ==> s.word == 2 || exists i :: 0 <= i < |s.pcs| && Stirring(s.pcs[i])
  }

  ghost predicate Start(s: State) { s.word == 0 && forall i | 0 <= i < |s.pcs| :: s.pcs[i] == Idle }

  lemma OthersKept(s: State, i: nat, woken: nat)
    requires Enabled(s, i, woken)
    ensures var t := Step(s, i, woken);
      && |t.pcs| == |s.pcs|
      && (forall j | 0 <= j < |s.pcs| && j != i && (s.pcs[i] != Notify || j != woken) :: t.pcs[j] == s.pcs[j])
      && (s.pcs[i] == Notify ==> forall j | 0 <= j < |s.pcs| && j != i :: t.pcs[j] == s.pcs[j] || t.pcs[j] == Cas02)
  {
  }

  lemma ExclusiveStep(s: State, i: nat, woken: nat)
    requires Enabled(s, i, woken) && Exclusive(s)
    ensures Exclusive(Step(s, i, woken))
  {
    var t := Step(s, i, woken);
    OthersKept(s, i, woken);
    if Holds(t.pcs[i]) {
      assert t.word != 0;
      forall j | 0 <= j < |t.pcs| && Holds(t.pcs[j])
        ensures j == i
      {
      }
    } else {
      assert forall j | 0 <= j < |t.pcs| && j != i :: Holds(t.pcs[j]) == Holds(s.pcs[j]);
      if Holds(s.pcs[i]) {
        assert t.word == 0;
      } else if s.word != 0 {
        var h :| 0 <= h < |s.pcs| && Holds(s.pcs[h]);
        assert Holds(t.pcs[h]);
      }
    }
  }

  lemma WatchedStep(s: State, i: nat, woken: nat)
    requires Enabled(s, i, woken) && Watched(s) && Exclusive(s)
    ensures Watched(Step(s, i, woken))
  {
    var t := Step(s, i, woken);
    OthersKept(s, i, woken);
    if Asleep in t.pcs {
      if t.word == 2 || Stirring(t.pcs[i]) {
      } else if s.pcs[i] == Notify {
        SleeperBefore(s, i, woken);
        assert t.pcs[woken] == Cas02;
      } else {
        SleeperBefore(s, i, woken);
        var w :| 0 <= w < |s.pcs| && Stirring(s.pcs[w]);
        assert t.pcs[w] == s.pcs[w];
      }
    }
  }

  /** Only a wait on the value 2 puts a thread to sleep. */
  lemma SleeperBefore(s: State, i: nat, woken: nat)
    requires Enabled(s, i, woken) && Asleep in Step(s, i, woken).pcs
    requires Step(s, i, woken).word != 2
    ensures Asleep in s.pcs
  {
    var t := Step(s, i, woken);
    var k :| 0 <= k < |t.pcs| && t.pcs[k] == Asleep;
    OthersKept(s, i, woken);
    assert s.pcs[k] == Asleep;
  }

  // ----- runs

  datatype Act = Act(i: nat, woken: nat)

  ghost predicate IsRun(ss: seq<State>, acts: seq<Act>) {
    && |ss| == |acts| + 1
    && (if acts == [] then Start(ss[0])
        else
          var n := |acts| - 1;
          && IsRun(ss[..n + 1], acts[..n])
          && Enabled(ss[n], acts[n].i, acts[n].woken) && ss[n + 1] == Step(ss[n], acts[n].i, acts[n].woken))
  }

  /** Over every run: mutual exclusion, and no sleeper without someone who will see to it. */
  lemma {:induction false} RunSafe(ss: seq<State>, acts: seq<Act>)
    requires IsRun(ss, acts)
    ensures Exclusive(ss[|acts|]) && Watched(ss[|acts|])
  {
    if acts != [] {
      hide Exclusive, Watched, Step, Enabled;
      var n := |acts| - 1;
      RunSafe(ss[..n + 1], acts[..n]);
      ExclusiveStep(ss[n], acts[n].i, acts[n].woken);
      WatchedStep(ss[n], acts[n].i, acts[n].woken);
    }
  }

  /** Two threads are never both inside the section the lock guards. */
  lemma MutualExclusion(ss: seq<State>, acts: seq<Act>, i: nat, j: nat)
    requires IsRun(ss, acts) && i < |ss[|acts|].pcs| && j < |ss[|acts|].pcs|
    requires ss[|acts|].pcs[i] == Critical && ss[|acts|].pcs[j] == Critical
    ensures i == j
  {
    RunSafe(ss, acts);
  }

  /** When every thread is idle or asleep, none is asleep and the lock is free. */
  lemma NobodyStranded(ss: seq<State>, acts: seq<Act>)
    requires IsRun(ss, acts)
    requires forall i | 0 <= i < |ss[|acts|].pcs| :: ss[|acts|].pcs[i] == Idle || ss[|acts|].pcs[i] == Asleep
    ensures ss[|acts|].word == 0 && Asleep !in ss[|acts|].pcs
  {
    RunSafe(ss, acts);
    var s := ss[|acts|];
    assert forall i | 0 <= i < |s.pcs| :: !Holds(s.pcs[i]) && !Stirring(s.pcs[i]);
  }

  /** With a sleeper and the word at 2, the holder's release goes through a notify. */
  lemma ReleaseNotifies(s: State, i: nat, woken: nat)
    requires Enabled(s, i, woken) && Exclusive(s) && s.word == 2 && Holds(s.pcs[i])
    ensures Step(s, i, woken).pcs[i] == if s.pcs[i] == Critical then Store else Notify
  {
    assert s.pcs[i] == Critical ==> s.word != 1;
  }

  // ----- getting the lock

  /** In acquire and awake. */
  predicate Contends(p: Pc) { p == Cas01 || p == Load || p == Cas12 || p == Wait || p == Cas02 }

  /** How many of its own steps a contender needs when the lock is free. */
  function Turns(p: Pc): nat {
    match p
    case Load => 3
    case Cas12 => 2
    case Wait => 2
    case _ => 1
  }

  /** Thread i moves n times, and nobody else does. */
  function Alone(s: State, i: nat, n: nat): State
    requires i < |s.pcs|
    ensures |Alone(s, i, n).pcs| == |s.pcs|
    decreases n
  {
    if n == 0 then s else Alone(Step(s, i, |s.pcs|), i, n - 1)
  }

  /** A contender that finds the lock free takes it, in at most three steps. */
  lemma {:induction false} FreeIsTaken(s: State, i: nat)
    requires i < |s.pcs| && s.word == 0 && Contends(s.pcs[i])
    ensures Turns(s.pcs[i]) <= 3
    ensures var t := Alone(s, i, Turns(s.pcs[i])); t.pcs[i] == Critical && t.word != 0
    decreases Turns(s.pcs[i])
  {
    var t := Step(s, i, |s.pcs|);
    if s.pcs[i] == Cas01 || s.pcs[i] == Cas02 {
      assert t.pcs[i] == Critical && Alone(s, i, 1) == Alone(t, i, 0);
    } else {
      assert t.word == 0 && Turns(t.pcs[i]) == Turns(s.pcs[i]) - 1;
      FreeIsTaken(t, i);
    }
  }

  /** Whoever holds the lock frees it in at most two steps of its own. */
  lemma HolderFrees(s: State, i: nat)
    requires i < |s.pcs| && Exclusive(s) && Holds(s.pcs[i])
    ensures Alone(s, i, 1).word == 0 || Alone(s, i, 2).word == 0
  {
    var t := Step(s, i, |s.pcs|);
    assert Alone(s, i, 1) == Alone(t, i, 0) == t;
    assert Alone(s, i, 2) == Alone(t, i, 1) == Alone(Step(t, i, |t.pcs|), i, 0);
  }

  ghost predicate RunsOn(ss: seq<State>, acts: seq<Act>) {
    && |ss| == |acts| + 1
    && (acts == [] || (Enabled(ss[0], acts[0].i, acts[0].woken) && ss[1] == Step(ss[0], acts[0].i, acts[0].woken) && RunsOn(ss[1..], acts[1..])))
  }

  /** A contender that moves alone, as a run. */
  lemma {:induction false} TakesIt(s: State, i: nat) returns (ss: seq<State>, acts: seq<Act>)
    requires i < |s.pcs| && s.word == 0 && Contends(s.pcs[i])
    ensures RunsOn(ss, acts) && ss[0] == s && i < |ss[|acts|].pcs| && ss[|acts|].pcs[i] == Critical && |acts| <= 3
    ensures |acts| == Turns(s.pcs[i])
    decreases Turns(s.pcs[i])
  {
    var a := Act(i, |s.pcs|);
    var t := Step(s, i, |s.pcs|);
    if s.pcs[i] == Cas01 || s.pcs[i] == Cas02 {
      ss, acts := [s, t], [a];
      assert RunsOn(ss[1..], acts[1..]);
    } else {
      var rest, more := TakesIt(t, i);
      ss, acts := [s] + rest, [a] + more;
      assert ss[1..] == rest && acts[1..] == more;
    }
  }

  /**
   Whatever has happened: when nobody holds the lock and somebody is in acquire, awake or asleep, the
   threads can go on so that somebody gets it, in at most three steps.
   */
  lemma SomebodyGetsIt(ss: seq<State>, acts: seq<Act>, i: nat) returns (on: seq<State>, more: seq<Act>, k: nat)
    requires IsRun(ss, acts) && forall j | 0 <= j < |ss[|acts|].pcs| :: !Holds(ss[|acts|].pcs[j])
    requires i < |ss[|acts|].pcs| && (Contends(ss[|acts|].pcs[i]) || ss[|acts|].pcs[i] == Asleep)
    ensures RunsOn(on, more) && on[0] == ss[|acts|] && |more| <= 3
    ensures k < |on[|more|].pcs| && on[|more|].pcs[k] == Critical
  {
    RunSafe(ss, acts);
    var s := ss[|acts|];
    assert s.word == 0;
    if Contends(s.pcs[i]) {
      k := i;
      on, more := TakesIt(s, i);
    } else if j: nat :| j < |s.pcs| && Contends(s.pcs[j]) {
      k := j;
      on, more := TakesIt(s, j);
    } else {
      assert Asleep in s.pcs;
      var w :| 0 <= w < |s.pcs| && Stirring(s.pcs[w]);
      assert s.pcs[w] == Notify;
      k := i;
      var t := Step(s, w, i);
      var rest, last := TakesIt(t, i);
      on, more := [s] + rest, [Act(w, i)] + last;
      assert on[1..] == rest && more[1..] == last && on[|more|] == rest[|last|];
    }
  }
}
