/**
 tools/sweep_classify.py, drop_dead: a pure instruction whose register nothing else names is
 dropped, round after round, until none is left.
 */
module SweepDead {
  import opened Options

  /** What tells one register from another: the digits of its name. */
  type Id = string

  /** A line of IR, cut at its register names. */
  datatype Tok = Reg(n: Id) | Txt(s: string)

  type Line = seq<Tok>

  // ----- the two patterns

  const OPS := ["xor", "and", "or", "load", "icmp", "extractvalue", "insertvalue", "phi", "zext", "sext", "trunc",
                "select", "bitcast", "getelementptr", "ptrtoint"]

  predicate Space(c: char) { c in " \t\n\r\U{000B}\U{000C}" }

  predicate Blank(s: string) { forall i | 0 <= i < |s| :: Space(s[i]) }

  predicate WordChar(c: char) { 'a' <= c <= 'z' || 'A' <= c <= 'Z' || '0' <= c <= '9' || c == '_' }

  /** The text after the register: " = ", an operation of the list, and the end of a word. */
  predicate PureText(s: string) {
    exists i | 0 <= i < |OPS| ::
      var head := " = " + OPS[i];
      head <= s && (|s| > |head| ==> !WordChar(s[|head|]))
  }

  /** The register a pure instruction defines. */
  function Pure(l: Line): (d: Option<Id>)
    ensures d.Some? ==> Reg(d.value) in l
  {
    if |l| >= 2 && l[0].Reg? && l[1].Txt? && PureText(l[1].s) then Some(l[0].n)
    else if |l| >= 3 && l[0].Txt? && Blank(l[0].s) && l[1].Reg? && l[2].Txt? && PureText(l[2].s) then Some(l[1].n)
    else None
  }

  /** How often a line names register r. */
  function Named(l: Line, r: Id): nat {
    if l == [] then 0 else Named(l[..|l| - 1], r) + (if l[|l| - 1] == Reg(r) then 1 else 0)
  }

  function Uses(ls: seq<Line>, r: Id): nat {
    if ls == [] then 0 else Uses(ls[..|ls| - 1], r) + Named(ls[|ls| - 1], r)
  }

  predicate Dead(ls: seq<Line>, i: nat) {
    i < |ls| && Pure(ls[i]).Some? && Uses(ls, Pure(ls[i]).value) == 1
  }

  function Without(ls: seq<Line>, i: nat): seq<Line>
    requires i < |ls|
  {
    ls[..i] + ls[i + 1..]
  }

  // ----- counting

  lemma {:induction false} NamedOnce(l: Line, r: Id)
    ensures Named(l, r) > 0 <==> Reg(r) in l
  {
    if l != [] {
      NamedOnce(l[..|l| - 1], r);
      assert l == l[..|l| - 1] + [l[|l| - 1]];
    }
  }

  lemma {:induction false} UsesAppend(a: seq<Line>, b: seq<Line>, r: Id)
    ensures Uses(a + b, r) == Uses(a, r) + Uses(b, r)
  {
    if b == [] {
      assert a + b == a;
    } else {
      UsesAppend(a, b[..|b| - 1], r);
      assert (a + b)[..|a + b| - 1] == a + b[..|b| - 1];
    }
  }

  lemma UsesOne(l: Line, r: Id)
    ensures Uses([l], r) == Named(l, r)
  {
    assert [l][..0] == [];
  }

  lemma UsesWithout(ls: seq<Line>, i: nat, r: Id)
    requires i < |ls|
    ensures Uses(ls, r) == Uses(Without(ls, i), r) + Named(ls[i], r)
  {
    assert ls == ls[..i] + [ls[i]] + ls[i + 1..];
    UsesAppend(ls[..i] + [ls[i]], ls[i + 1..], r);
    UsesAppend(ls[..i], [ls[i]], r);
    UsesAppend(ls[..i], ls[i + 1..], r);
    UsesOne(ls[i], r);
  }

  lemma UsesAtLeast(ls: seq<Line>, i: nat, r: Id)
    requires i < |ls| && Reg(r) in ls[i]
    ensures Uses(ls, r) >= 1
  {
    UsesWithout(ls, i, r);
    NamedOnce(ls[i], r);
  }

  /** Dead stays dead when another line goes. */
  lemma DeadStays(ls: seq<Line>, i: nat, j: nat)
    requires Dead(ls, i) && j < |ls| && i != j
    ensures Dead(Without(ls, j), if i < j then i else i - 1)
  {
    var d := Pure(ls[i]).value;
    var k, m := (if i < j then i else i - 1), Without(ls, j);
    assert m[k] == ls[i];
    UsesWithout(ls, j, d);
    UsesAtLeast(m, k, d);
  }

  // ----- one result, whatever the order

  /** The first dead line at or after i, or the number of lines. */
  function FirstDead(ls: seq<Line>, i: nat): (k: nat)
    requires i <= |ls|
    ensures i <= k <= |ls|
    ensures k < |ls| ==> Dead(ls, k)
    ensures forall j | i <= j < k :: !Dead(ls, j)
    decreases |ls| - i
  {
    if i == |ls| || Dead(ls, i) then i else FirstDead(ls, i + 1)
  }

  predicate Clean(ls: seq<Line>) { FirstDead(ls, 0) == |ls| }

  /** Dead lines dropped one at a time, the first one first. */
  function Normal(ls: seq<Line>): (r: seq<Line>)
    ensures Clean(r)
    decreases |ls|
  {
    var i := FirstDead(ls, 0);
    if i == |ls| then ls else Normal(Without(ls, i))
  }

  lemma CleanIs(ls: seq<Line>)
    ensures Clean(ls) <==> forall i | 0 <= i < |ls| :: !Dead(ls, i)
  {
  }

  /** Nothing is dropped that was not a line of the body, and nothing is changed. */
  lemma {:induction false} NormalFrom(ls: seq<Line>)
    ensures forall l | l in Normal(ls) :: l in ls
    decreases |ls|
  {
    var i := FirstDead(ls, 0);
    if i < |ls| {
      NormalFrom(Without(ls, i));
    }
  }

  lemma Swap(ls: seq<Line>, i: nat, j: nat)
    requires i < j < |ls|
    ensures Without(Without(ls, j), i) == Without(Without(ls, i), j - 1)
  {
  }

  /** Dropping any dead line first leads to the same end. */
  lemma {:induction false} AnyDead(ls: seq<Line>, i: nat)
    requires Dead(ls, i)
    ensures Normal(Without(ls, i)) == Normal(ls)
    decreases |ls|
  {
    hide Dead, Without;
    var f := FirstDead(ls, 0);
    DeadIn(ls, i);
    if f != i {
      assert f < i by {
        assert f <= i;
      }
      DeadStays(ls, i, f);
      DeadStays(ls, f, i);
      WithoutLength(ls, f);
      WithoutLength(ls, i);
      AnyDead(Without(ls, i), f);
      AnyDead(Without(ls, f), i - 1);
      Swap(ls, f, i);
    }
  }

  lemma DeadIn(ls: seq<Line>, i: nat)
    requires Dead(ls, i)
    ensures i < |ls| && FirstDead(ls, 0) <= i
  {
  }

  lemma WithoutLength(ls: seq<Line>, i: nat)
    requires i < |ls|
    ensures |Without(ls, i)| == |ls| - 1
  {
  }

  /** Some order of dropping dead lines leads from ls to r. */
  ghost predicate Reduces(ls: seq<Line>, order: seq<nat>, r: seq<Line>)
    decreases |order|
  {
    if order == [] then r == ls else Dead(ls, order[0]) && Reduces(Without(ls, order[0]), order[1..], r)
  }

  /** Every order that drops dead lines until none is left ends in the same lines. */
  lemma {:induction false} OrderFree(ls: seq<Line>, order: seq<nat>, r: seq<Line>)
    requires Reduces(ls, order, r) && Clean(r)
    ensures r == Normal(ls)
    decreases |order|
  {
    if order != [] {
      OrderFree(Without(ls, order[0]), order[1..], r);
      AnyDead(ls, order[0]);
    }
  }

  // ----- the rounds

  /** A round under way: the first k lines filtered by what was dead when it began. */
  function Filtered(ls: seq<Line>, k: nat): seq<Line>
    requires k <= |ls|
  {
    if k == 0 then [] else Filtered(ls, k - 1) + (if Dead(ls, k - 1) then [] else [ls[k - 1]])
  }

  lemma {:induction false} FilteredUses(ls: seq<Line>, k: nat, r: Id)
    requires k <= |ls|
    ensures Uses(Filtered(ls, k), r) <= Uses(ls[..k], r)
  {
    if k > 0 {
      hide Dead, Named;
      FilteredUses(ls, k - 1, r);
      UsesSnoc(ls[..k - 1], ls[k - 1], r);
      assert ls[..k] == ls[..k - 1] + [ls[k - 1]];
      UsesSnoc(Filtered(ls, k - 1), ls[k - 1], r);
    }
  }

  lemma UsesSnoc(a: seq<Line>, l: Line, r: Id)
    ensures Uses(a + [l], r) == Uses(a, r) + Named(l, r) && a + [] == a
  {
    UsesAppend(a, [l], r);
    UsesOne(l, r);
  }

  /** A round drops its dead lines all at once; one at a time it is the same. */
  lemma {:induction false} RoundNormal(ls: seq<Line>, k: nat)
    requires k <= |ls|
    ensures Normal(Filtered(ls, k) + ls[k..]) == Normal(ls)
    decreases k
  {
    hide Dead, Normal;
    if k == 0 {
      assert Filtered(ls, 0) + ls[0..] == ls;
    } else {
      RoundNormal(ls, k - 1);
      var f, m := Filtered(ls, k - 1), Filtered(ls, k - 1) + ls[k - 1..];
      assert ls[k - 1..] == [ls[k - 1]] + ls[k..];
      if Dead(ls, k - 1) {
        StillDead(ls, k - 1);
        AnyDead(m, |f|);
        assert Without(m, |f|) == f + ls[k..];
        assert Filtered(ls, k) == f;
      } else {
        assert Filtered(ls, k) + ls[k..] == m;
      }
    }
  }

  lemma StillDead(ls: seq<Line>, k: nat)
    requires k < |ls| && Dead(ls, k)
    ensures Dead(Filtered(ls, k) + ls[k..], |Filtered(ls, k)|)
  {
    var f, d := Filtered(ls, k), Pure(ls[k]).value;
    var m := f + ls[k..];
    assert m[|f|] == ls[k];
    FilteredUses(ls, k, d);
    UsesAppend(f, ls[k..], d);
    UsesAppend(ls[..k], ls[k..], d);
    assert ls == ls[..k] + ls[k..];
    UsesAtLeast(m, |f|, d);
  }

  lemma {:induction false} FilteredShorter(ls: seq<Line>, k: nat)
    requires k <= |ls|
    ensures |Filtered(ls, k)| <= k
    ensures (exists i | 0 <= i < k :: Dead(ls, i)) ==> |Filtered(ls, k)| < k
  {
    if k > 0 {
      FilteredShorter(ls, k - 1);
    }
  }

  /** One entry of the counter: how often a line's tokens name each register. */
  method CountLine(uses: map<Id, nat>, l: Line) returns (r: map<Id, nat>)
    ensures forall x :: Count(r, x) == Count(uses, x) + Named(l, x)
  {
    r := uses;
    for i := 0 to |l|
      invariant forall x :: Count(r, x) == Count(uses, x) + Named(l[..i], x)
    {
      assert l[..i + 1][..i] == l[..i];
      if l[i].Reg? {
        r := r[l[i].n := Count(r, l[i].n) + 1];
      }
    }
    assert l[..|l|] == l;
  }

  function Count(uses: map<Id, nat>, r: Id): nat { if r in uses then uses[r] else 0 }

  method CountUses(ls: seq<Line>) returns (uses: map<Id, nat>)
    ensures forall x :: Count(uses, x) == Uses(ls, x)
  {
    uses := map[];
    for i := 0 to |ls|
      invariant forall x :: Count(uses, x) == Uses(ls[..i], x)
    {
      assert ls[..i + 1][..i] == ls[..i];
      uses := CountLine(uses, ls[i]);
    }
    assert ls[..|ls|] == ls;
  }

  method DeadLines(ls: seq<Line>) returns (dead: set<nat>)
    ensures dead == set j | 0 <= j < |ls| && Dead(ls, j)
  {
    hide Pure;
    var uses := CountUses(ls);
    dead := {};
    for i := 0 to |ls|
      invariant dead == set j | 0 <= j < i && Dead(ls, j)
    {
      var m := Pure(ls[i]);
      if m.Some? && Count(uses, m.value) == 1 {
        dead := dead + {i};
      }
    }
  }

  method KeepAlive(ls: seq<Line>, dead: set<nat>) returns (kept: seq<Line>)
    requires dead == set j | 0 <= j < |ls| && Dead(ls, j)
    ensures kept == Filtered(ls, |ls|)
  {
    hide Dead;
    kept := [];
    for i := 0 to |ls|
      invariant kept == Filtered(ls, i)
    {
      if i !in dead {
        kept := kept + [ls[i]];
      }
    }
  }

  /** drop_dead: rounds of counting and filtering until a round finds nothing dead. */
  method DropDead(lines: seq<Line>) returns (r: seq<Line>)
    ensures r == Normal(lines) && forall i | 0 <= i < |r| :: !Dead(r, i)
  {
    hide Dead, Normal, Filtered;
    r := lines;
    while true
      invariant Normal(r) == Normal(lines)
      decreases |r|
    {
      var dead := DeadLines(r);
      if dead == {} {
        assert forall j | 0 <= j < |r| :: Dead(r, j) ==> j in dead;
        NoneDead(r);
        CleanIs(r);
        return;
      }
      var kept := KeepAlive(r, dead);
      RoundNormal(r, |r|);
      FilteredShorter(r, |r|);
      assert kept + r[|r|..] == kept;
      assert exists i :: 0 <= i < |r| && Dead(r, i) by {
        var gone :| gone in dead;
      }
      r := kept;
    }
  }

  lemma NoneDead(ls: seq<Line>)
    requires forall i | 0 <= i < |ls| :: !Dead(ls, i)
    ensures Normal(ls) == ls
  {
  }
}
