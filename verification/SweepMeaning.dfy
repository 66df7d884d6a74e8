/**
 tools/sweep_classify.py: dropping dead lines changes nothing an interpreter of the body shows.
 What an instruction computes is a parameter; an instruction sees only the registers it names.
 */
module SweepMeaning {
  import opened Options
  import opened SweepDead

  datatype Next = Fall | Goto(target: string) | Stop

  /** What an instruction does besides: its effect, what it shows, where it goes and what it sets. */
  datatype Act<V, E, O> = Act(env: E, shown: seq<O>, next: Next, sets: map<Id, V>)

  /** What the instructions mean: the value of a pure one, the action of any other, the label a line carries. */
  datatype Sem<!V, !E, !O> = Sem(value: (Line, map<Id, V>, E) -> V, act: (Line, map<Id, V>, E) -> Act<V, E, O>,
                                 mark: Line -> Option<string>)

  datatype State<V, E> = State(pc: nat, regs: map<Id, V>, env: E, stopped: bool)

  function Regs(l: Line): set<Id> { set t | t in l && t.Reg? :: t.n }

  function Seen<V>(regs: map<Id, V>, l: Line): map<Id, V> { map r | r in regs && r in Regs(l) :: regs[r] }

  function Find<V(!new), E(!new), O(!new)>(sem: Sem<V, E, O>, ls: seq<Line>, target: string): (k: nat)
    ensures k <= |ls|
  {
    if ls == [] || sem.mark(ls[0]) == Some(target) then 0 else 1 + Find(sem, ls[1..], target)
  }

  function Step<V(!new), E(!new), O(!new)>(sem: Sem<V, E, O>, ls: seq<Line>, s: State<V, E>): (State<V, E>, seq<O>) {
    if s.stopped then (s, [])
    else if s.pc >= |ls| then (s.(stopped := true), [])
    else
      var l := ls[s.pc];
      if Pure(l).Some? then
        (State(s.pc + 1, s.regs[Pure(l).value := sem.value(l, Seen(s.regs, l), s.env)], s.env, false), [])
      else
        var a := sem.act(l, Seen(s.regs, l), s.env);
        var regs := s.regs + Seen(a.sets, l);
        match a.next
        case Fall => (State(s.pc + 1, regs, a.env, false), a.shown)
        case Goto(target) => (State(Find(sem, ls, target), regs, a.env, Find(sem, ls, target) == |ls|), a.shown)
        case Stop => (State(s.pc, regs, a.env, true), a.shown)
  }

  function Run<V(!new), E(!new), O(!new)>(sem: Sem<V, E, O>, ls: seq<Line>, s: State<V, E>, n: nat): (State<V, E>, seq<O>) {
    if n == 0 then (s, [])
    else
      var (t, shown) := Run(sem, ls, s, n - 1);
      var (u, more) := Step(sem, ls, t);
      (u, shown + more)
  }

  /** A pure instruction carries no label. */
  ghost predicate Labelled<V(!new), E(!new), O(!new)>(sem: Sem<V, E, O>) { forall l :: Pure(l).Some? ==> sem.mark(l) == None }

  // ----- one dead line

  /** The two interpreters keep step: the same but for register d and the line that is gone. */
  ghost predicate Beside<V(!new), E(!new)>(s: State<V, E>, t: State<V, E>, i: nat, d: Id) {
    && s.env == t.env && s.stopped == t.stopped
    && (!s.stopped ==> t.pc == if s.pc <= i then s.pc else s.pc - 1)
    && (forall r | r != d :: r in s.regs <==> r in t.regs)
    && (forall r | r != d && r in s.regs :: s.regs[r] == t.regs[r])
  }

  lemma Unnamed(ls: seq<Line>, i: nat, j: nat)
    requires Dead(ls, i) && j < |ls| && j != i
    ensures Reg(Pure(ls[i]).value) !in ls[j]
  {
    var d := Pure(ls[i]).value;
    var k, m := (if i < j then i else i - 1), Without(ls, j);
    UsesWithout(ls, j, d);
    assert m[k] == ls[i];
    UsesAtLeast(m, k, d);
    NamedOnce(ls[j], d);
  }

  lemma SeenSame<V(!new), E(!new)>(s: State<V, E>, t: State<V, E>, i: nat, d: Id, l: Line)
    requires Beside(s, t, i, d) && Reg(d) !in l
    ensures Seen(s.regs, l) == Seen(t.regs, l)
  {
    assert d !in Regs(l);
  }

  lemma {:induction false} FindWithout<V(!new), E(!new), O(!new)>(sem: Sem<V, E, O>, ls: seq<Line>, i: nat, target: string)
    requires i < |ls| && sem.mark(ls[i]) == None
    ensures var k := Find(sem, ls, target);
      k != i && Find(sem, Without(ls, i), target) == if k < i then k else k - 1
  {
    if i > 0 {
      if sem.mark(ls[0]) != Some(target) {
        FindWithout(sem, ls[1..], i - 1, target);
        assert Without(ls, i)[1..] == Without(ls[1..], i - 1);
      }
    } else {
      assert Without(ls, 0) == ls[1..];
    }
  }

  /** Setting the same registers keeps the two beside each other. */
  lemma SetBeside<V(!new), E(!new)>(s: State<V, E>, t: State<V, E>, i: nat, d: Id, sets: map<Id, V>, env: E, pc: nat, pc': nat, stopped: bool)
    requires Beside(s, t, i, d) && (!stopped ==> pc' == if pc <= i then pc else pc - 1)
    ensures Beside(State(pc, s.regs + sets, env, stopped), State(pc', t.regs + sets, env, stopped), i, d)
  {
  }

  /** On any other line both interpreters show the same and stay beside each other. */
  lemma StepBeside<V(!new), E(!new), O(!new)>(sem: Sem<V, E, O>, ls: seq<Line>, i: nat, s: State<V, E>, t: State<V, E>)
    requires Labelled(sem) && Dead(ls, i) && Beside(s, t, i, Pure(ls[i]).value) && (s.stopped || s.pc != i)
    ensures var (s', a) := Step(sem, ls, s);
      var (t', b) := Step(sem, Without(ls, i), t);
      a == b && Beside(s', t', i, Pure(ls[i]).value)
  {
    DeadPure(ls, i);
    WithoutLength(ls, i);
    if !s.stopped && s.pc < |ls| {
      hide Dead, Pure, Beside, Step, Without;
      LineOf(ls, i, s, t);
      Unnamed(ls, i, s.pc);
      SeenSame(s, t, i, Pure(ls[i]).value, ls[s.pc]);
      LineBeside(sem, ls, i, s, t);
    }
  }

  lemma LineOf<V(!new), E(!new)>(ls: seq<Line>, i: nat, s: State<V, E>, t: State<V, E>)
    requires Dead(ls, i) && Beside(s, t, i, Pure(ls[i]).value) && !s.stopped && s.pc < |ls| && s.pc != i
    ensures !t.stopped && t.env == s.env && t.pc < |Without(ls, i)| && Without(ls, i)[t.pc] == ls[s.pc]
    ensures t.pc == if s.pc < i then s.pc else s.pc - 1
  {
  }

  lemma LineBeside<V(!new), E(!new), O(!new)>(sem: Sem<V, E, O>, ls: seq<Line>, i: nat, s: State<V, E>, t: State<V, E>)
    requires Labelled(sem) && i < |ls| && Pure(ls[i]).Some? && Beside(s, t, i, Pure(ls[i]).value)
    requires !s.stopped && s.pc < |ls| && s.pc != i && !t.stopped && t.env == s.env && t.pc < |Without(ls, i)|
    requires Without(ls, i)[t.pc] == ls[s.pc] && Seen(s.regs, ls[s.pc]) == Seen(t.regs, ls[s.pc])
    requires t.pc == if s.pc < i then s.pc else s.pc - 1
    ensures var (s', a) := Step(sem, ls, s);
      var (t', b) := Step(sem, Without(ls, i), t);
      a == b && Beside(s', t', i, Pure(ls[i]).value)
  {
    hide Pure, Beside, Find, Seen, Regs;
    WithoutLength(ls, i);
    var l, d := ls[s.pc], Pure(ls[i]).value;
    if Pure(l).Some? {
      var x, v := Pure(l).value, sem.value(l, Seen(s.regs, l), s.env);
      SetBeside(s, t, i, d, map[x := v], s.env, s.pc + 1, t.pc + 1, false);
      assert s.regs[x := v] == s.regs + map[x := v] && t.regs[x := v] == t.regs + map[x := v];
    } else {
      var a := sem.act(l, Seen(s.regs, l), s.env);
      match a.next {
        case Fall => SetBeside(s, t, i, d, Seen(a.sets, l), a.env, s.pc + 1, t.pc + 1, false);
        case Stop => SetBeside(s, t, i, d, Seen(a.sets, l), a.env, s.pc, t.pc, true);
        case Goto(target) =>
          FindWithout(sem, ls, i, target);
          var k, k' := Find(sem, ls, target), Find(sem, Without(ls, i), target);
          SetBeside(s, t, i, d, Seen(a.sets, l), a.env, k, k', k == |ls|);
      }
    }
  }

  lemma DeadPure(ls: seq<Line>, i: nat)
    requires Dead(ls, i)
    ensures i < |ls| && Pure(ls[i]).Some?
  {
  }

  /** On the dead line the longer body only sets its register. */
  lemma StepDead<V(!new), E(!new), O(!new)>(sem: Sem<V, E, O>, ls: seq<Line>, i: nat, s: State<V, E>, t: State<V, E>)
    requires Dead(ls, i) && Beside(s, t, i, Pure(ls[i]).value) && !s.stopped && s.pc == i
    ensures var (s', a) := Step(sem, ls, s);
      a == [] && Beside(s', t, i, Pure(ls[i]).value) && s'.pc == i + 1 && !s'.stopped
  {
  }

  /** Every stretch of the longer body is shown by the shorter one. */
  lemma {:induction false} Shorter<V(!new), E(!new), O(!new)>(sem: Sem<V, E, O>, ls: seq<Line>, i: nat, s: State<V, E>, n: nat)
    returns (m: nat)
    requires Labelled(sem) && Dead(ls, i) && s.pc == 0
    ensures Run(sem, ls, s, n).1 == Run(sem, Without(ls, i), s, m).1
    ensures Beside(Run(sem, ls, s, n).0, Run(sem, Without(ls, i), s, m).0, i, Pure(ls[i]).value)
  {
    hide Dead, Pure, Step, Beside, Labelled;
    if n == 0 {
      m := 0;
      BesideSelf(s, i, Pure(ls[i]).value) by {
        DeadPure(ls, i);
      }
    } else {
      DeadPure(ls, i);
      m := Shorter(sem, ls, i, s, n - 1);
      var a, b := Run(sem, ls, s, n - 1).0, Run(sem, Without(ls, i), s, m).0;
      if !a.stopped && a.pc == i {
        StepDead(sem, ls, i, a, b);
      } else {
        StepBeside(sem, ls, i, a, b);
        m := m + 1;
      }
    }
  }

  lemma BesideSelf<V(!new), E(!new)>(s: State<V, E>, i: nat, d: Id)
    requires s.pc == 0
    ensures Beside(s, s, i, d)
  {
  }

  /** Every stretch of the shorter body is shown by the longer one. */
  lemma {:induction false} Longer<V(!new), E(!new), O(!new)>(sem: Sem<V, E, O>, ls: seq<Line>, i: nat, s: State<V, E>, m: nat)
    returns (n: nat)
    requires Labelled(sem) && Dead(ls, i) && s.pc == 0
    ensures Run(sem, ls, s, n).1 == Run(sem, Without(ls, i), s, m).1
    ensures Beside(Run(sem, ls, s, n).0, Run(sem, Without(ls, i), s, m).0, i, Pure(ls[i]).value)
  {
    hide Dead, Pure, Step, Beside, Labelled;
    DeadPure(ls, i);
    if m == 0 {
      n := 0;
      BesideSelf(s, i, Pure(ls[i]).value);
    } else {
      n := Longer(sem, ls, i, s, m - 1);
      var a, b := Run(sem, ls, s, n).0, Run(sem, Without(ls, i), s, m - 1).0;
      if !a.stopped && a.pc == i {
        StepDead(sem, ls, i, a, b);
        n := n + 1;
        assert Run(sem, ls, s, n).1 == Run(sem, ls, s, n - 1).1;
      }
      StepBeside(sem, ls, i, Run(sem, ls, s, n).0, b);
      n := n + 1;
    }
  }

  // ----- all of them

  /** What drop_dead leaves shows exactly what the body shows, stopping included. */
  lemma {:induction false} NormalShows<V(!new), E(!new), O(!new)>(sem: Sem<V, E, O>, ls: seq<Line>, s: State<V, E>, n: nat)
    returns (m: nat)
    requires Labelled(sem) && s.pc == 0
    ensures Run(sem, ls, s, n).1 == Run(sem, Normal(ls), s, m).1
    ensures Run(sem, ls, s, n).0.stopped == Run(sem, Normal(ls), s, m).0.stopped
    decreases |ls|
  {
    var i := FirstDead(ls, 0);
    if i == |ls| {
      m := n;
    } else {
      hide Dead, Run, Labelled, Pure;
      var k := Shorter(sem, ls, i, s, n);
      WithoutLength(ls, i);
      m := NormalShows(sem, Without(ls, i), s, k);
    }
  }

  lemma {:induction false} NormalShown<V(!new), E(!new), O(!new)>(sem: Sem<V, E, O>, ls: seq<Line>, s: State<V, E>, m: nat)
    returns (n: nat)
    requires Labelled(sem) && s.pc == 0
    ensures Run(sem, ls, s, n).1 == Run(sem, Normal(ls), s, m).1
    ensures Run(sem, ls, s, n).0.stopped == Run(sem, Normal(ls), s, m).0.stopped
    decreases |ls|
  {
    var i := FirstDead(ls, 0);
    if i == |ls| {
      n := m;
    } else {
      hide Dead, Run, Labelled, Pure;
      WithoutLength(ls, i);
      var k := NormalShown(sem, Without(ls, i), s, m);
      n := Longer(sem, ls, i, s, k);
    }
  }
}
