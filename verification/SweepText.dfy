/**
 tools/sweep_classify.py, normalise and same, on the text they work on: lines are cut where the
 pattern %r and digits matches, and the new names are written back as the text %v and a number.
 */
module SweepText {
  import opened SweepDead
  import opened SweepNormal

  // ----- text and tokens

  predicate Digit(c: char) { '0' <= c <= '9' }

  /** A percent sign, this letter and a digit: a match of the pattern starts here. */
  predicate MarkAt(c: char, s: string, i: nat) { i + 2 < |s| && s[i] == '%' && s[i + 1] == c && Digit(s[i + 2]) }

  ghost predicate Free(c: char, s: string) { forall i: nat :: !MarkAt(c, s, i) }

  function DigitsEnd(s: string, i: nat): (k: nat)
    requires i <= |s|
    ensures i <= k <= |s| && (forall j | i <= j < k :: Digit(s[j])) && (k < |s| ==> !Digit(s[k]))
    decreases |s| - i
  {
    if i < |s| && Digit(s[i]) then DigitsEnd(s, i + 1) else i
  }

  function Prepend(c: char, l: Line): Line {
    if l != [] && l[0].Txt? then [Txt([c] + l[0].s)] + l[1..] else [Txt([c])] + l
  }

  /** The leftmost matches, each as long as it can be, and the text between them. */
  function Lex(c: char, s: string): Line
    decreases |s|
  {
    if s == "" then []
    else if MarkAt(c, s, 0) then
      var k := DigitsEnd(s, 3);
      [Reg(s[2..k])] + Lex(c, s[k..])
    else Prepend(s[0], Lex(c, s[1..]))
  }

  function Spell(c: char, t: Tok): string {
    match t
    case Reg(d) => ['%', c] + d
    case Txt(s) => s
  }

  function Unlex(c: char, l: Line): string { if l == [] then "" else Spell(c, l[0]) + Unlex(c, l[1..]) }

  ghost predicate TokOk(c: char, t: Tok) {
    match t
    case Reg(d) => d != "" && forall i | 0 <= i < |d| :: Digit(d[i])
    case Txt(s) => s != "" && Free(c, s)
  }

  /** Text comes first or after a register, and then not with a digit. */
  predicate Follows(l: Line, i: nat) {
    i < |l| && l[i].Txt? && i > 0 ==> l[i - 1].Reg? && (l[i].s != "" ==> !Digit(l[i].s[0]))
  }

  ghost predicate Lexed(c: char, l: Line) {
    (forall i | 0 <= i < |l| :: TokOk(c, l[i])) && forall i: nat :: Follows(l, i)
  }

  lemma TailFollows(l: Line)
    requires l != [] && forall i: nat :: Follows(l, i)
    ensures forall i: nat :: Follows(l[1..], i)
  {
    forall i: nat
      ensures Follows(l[1..], i)
    {
      assert Follows(l, i + 1);
    }
  }

  lemma TailLexed(c: char, l: Line)
    requires Lexed(c, l) && l != []
    ensures Lexed(c, l[1..]) && TokOk(c, l[0])
  {
    hide TokOk, Follows;
    TailFollows(l);
  }

  /** After a register, the rest of the line does not go on with a digit; after text, it goes on with a percent sign. */
  lemma RestStart(c: char, l: Line)
    requires l != [] && (forall i: nat :: Follows(l, i)) && forall i | 0 <= i < |l| :: l[i].Txt? ==> l[i].s != ""
    ensures var rest := Unlex(c, l[1..]);
      rest != "" ==> (l[0].Reg? ==> !Digit(rest[0])) && (l[0].Txt? ==> rest[0] == '%')
  {
    if |l| > 1 {
      assert Follows(l, 1);
      assert Unlex(c, l[1..]) == Spell(c, l[1]) + Unlex(c, l[1..][1..]);
    }
  }

  lemma Nonempty(c: char, l: Line)
    requires forall i | 0 <= i < |l| :: TokOk(c, l[i])
    ensures forall i | 0 <= i < |l| :: l[i].Txt? ==> l[i].s != ""
  {
    assert forall i | 0 <= i < |l| :: TokOk(c, l[i]);
  }

  // ----- cutting and joining

  /** Joined lines are cut at the same places again. */
  lemma {:induction false} LexUnlex(c: char, l: Line)
    requires Lexed(c, l) && c != '%' && !Digit(c)
    ensures Lex(c, Unlex(c, l)) == l
    decreases |l|
  {
    if l != [] {
      hide Lexed, TokOk, Follows, Lex, Free;
      TailLexed(c, l);
      LexUnlex(c, l[1..]);
      var rest := Unlex(c, l[1..]);
      assert rest != "" ==> (l[0].Reg? ==> !Digit(rest[0])) && (l[0].Txt? ==> rest[0] == '%') by {
        StartOf(c, l);
      }
      assert l == [l[0]] + l[1..];
      match l[0] {
        case Reg(d) => LexReg(c, d, rest);
        case Txt(t) =>
          AfterText(l);
          LexText(c, t, rest, l[1..]);
      }
    }
  }

  lemma StartOf(c: char, l: Line)
    requires Lexed(c, l) && l != []
    ensures var rest := Unlex(c, l[1..]);
      rest != "" ==> (l[0].Reg? ==> !Digit(rest[0])) && (l[0].Txt? ==> rest[0] == '%')
  {
    hide Follows, TokOk;
    Nonempty(c, l);
    RestStart(c, l);
  }

  lemma AfterText(l: Line)
    requires l != [] && l[0].Txt?
    ensures Follows(l, 1) ==> l[1..] == [] || l[1..][0].Reg?
  {
  }

  lemma LexReg(c: char, d: string, rest: string)
    requires TokOk(c, Reg(d)) && (rest != "" ==> !Digit(rest[0]))
    ensures Lex(c, ['%', c] + d + rest) == [Reg(d)] + Lex(c, rest)
  {
    var s := ['%', c] + d + rest;
    assert forall i | 0 <= i < |d| :: s[i + 2] == d[i];
    assert forall i | 0 <= i < |rest| :: s[i + 2 + |d|] == rest[i];
    assert Digit(d[0]) && MarkAt(c, s, 0);
    assert DigitsEnd(s, 3) == 2 + |d|;
    assert s[2..2 + |d|] == d && s[2 + |d|..] == rest;
  }

  lemma {:induction false} LexText(c: char, t: string, rest: string, l: Line)
    requires t != "" && Free(c, t) && (rest != "" ==> rest[0] == '%') && c != '%'
    requires Lex(c, rest) == l && (l == [] || l[0].Reg?)
    ensures Lex(c, t + rest) == [Txt(t)] + l
    decreases |t|
  {
    var s := t + rest;
    assert s[1..] == t[1..] + rest;
    assert !MarkAt(c, s, 0) by {
      assert !MarkAt(c, t, 0);
    }
    if |t| > 1 {
      FreeParts(c, [t[0]], t[1..]);
      assert [t[0]] + t[1..] == t;
      LexText(c, t[1..], rest, l);
      assert ([Txt(t[1..])] + l)[1..] == l;
    } else {
      assert t[1..] + rest == rest && t == [t[0]];
    }
  }

  lemma FreeParts(c: char, a: string, b: string)
    ensures Free(c, a + b) ==> Free(c, a) && Free(c, b)
  {
    if Free(c, a + b) {
      forall i: nat
        ensures !MarkAt(c, a, i) && !MarkAt(c, b, i)
      {
        assert !MarkAt(c, a + b, i) && !MarkAt(c, a + b, |a| + i);
      }
    }
  }

  /** What is cut is what the pattern cuts, and joined again it is the line. */
  lemma {:induction false} LexIs(c: char, s: string)
    ensures Lexed(c, Lex(c, s)) && Unlex(c, Lex(c, s)) == s
    decreases |s|
  {
    if s != "" {
      hide Lexed, TokOk, Digit;
      if MarkAt(c, s, 0) {
        var k := DigitsEnd(s, 3);
        FirstMatch(c, s);
        hide MarkAt, DigitsEnd;
        LexIs(c, s[k..]);
        var l := Lex(c, s[k..]);
        assert ([Reg(s[2..k])] + l)[1..] == l;
        ConsReg(c, s[2..k], l);
      } else {
        LexIs(c, s[1..]);
        var l := Lex(c, s[1..]);
        assert s == [s[0]] + s[1..];
        PrependLexed(c, s[0], l);
      }
    }
  }

  lemma FirstMatch(c: char, s: string)
    requires MarkAt(c, s, 0)
    ensures var k := DigitsEnd(s, 3);
      s == ['%', c] + s[2..k] + s[k..] && TokOk(c, Reg(s[2..k])) && (s[k..] != "" ==> !Digit(s[k..][0]))
  {
    hide DigitsEnd;
    var k := DigitsEnd(s, 3);
    assert forall i | 0 <= i < k - 2 :: s[2..k][i] == s[i + 2];
  }

  lemma ConsReg(c: char, d: string, l: Line)
    requires Lexed(c, l) && TokOk(c, Reg(d)) && (Unlex(c, l) != "" ==> !Digit(Unlex(c, l)[0]))
    ensures Lexed(c, [Reg(d)] + l)
  {
    var m := [Reg(d)] + l;
    hide Free;
    forall i | 0 <= i < |m|
      ensures TokOk(c, m[i])
    {
      assert i > 0 ==> m[i] == l[i - 1] && TokOk(c, l[i - 1]);
    }
    forall i: nat
      ensures Follows(m, i)
    {
      assert i > 0 ==> Follows(l, i - 1);
      if i == 1 && l != [] && l[0].Txt? {
        assert TokOk(c, l[0]);
      }
    }
  }

  lemma PrependLexed(c: char, ch: char, l: Line)
    requires Lexed(c, l) && !MarkAt(c, [ch] + Unlex(c, l), 0)
    ensures Lexed(c, Prepend(ch, l)) && Unlex(c, Prepend(ch, l)) == [ch] + Unlex(c, l)
  {
    var m := Prepend(ch, l);
    var glued := l != [] && l[0].Txt?;
    assert m[0].Txt? && m[1..] == if glued then l[1..] else l;
    forall i | 0 <= i < |m|
      ensures TokOk(c, m[i])
    {
      if i == 0 {
        if glued {
          assert TokOk(c, l[0]);
          FreeCons(c, ch, l[0].s, Unlex(c, l[1..]));
        }
      } else {
        assert TokOk(c, m[i]) by {
          assert m[i] == if glued then l[i] else l[i - 1];
        }
      }
    }
    forall i: nat
      ensures Follows(m, i)
    {
      assert Follows(l, i) && (i > 0 ==> Follows(l, i - 1));
    }
    assert glued ==> [ch] + l[0].s + Unlex(c, l[1..]) == [ch] + (l[0].s + Unlex(c, l[1..]));
  }

  lemma FreeCons(c: char, ch: char, t: string, rest: string)
    requires Free(c, t) && !MarkAt(c, [ch] + (t + rest), 0)
    ensures Free(c, [ch] + t)
  {
    forall i: nat
      ensures !MarkAt(c, [ch] + t, i)
    {
      if i > 0 {
        assert !MarkAt(c, t, i - 1);
      }
    }
  }

  // ----- numbers as text

  function DigitChar(n: nat): (c: char)
    requires n < 10
    ensures Digit(c) && DigitOf(c) == n
  {
    ('0' as int + n) as char
  }

  function DigitOf(c: char): nat { if Digit(c) then c as int - '0' as int else 0 }

  predicate AllDigits(d: string) { forall j | 0 <= j < |d| :: Digit(d[j]) }

  function Dec(k: nat): (d: string)
    ensures d != "" && AllDigits(d)
  {
    (if k < 10 then "" else Dec(k / 10)) + [DigitChar(k % 10)]
  }

  function Undec(d: string): nat { if d == "" then 0 else 10 * Undec(d[..|d| - 1]) + DigitOf(d[|d| - 1]) }

  lemma DecIs(k: nat)
    ensures Undec(Dec(k)) == k
  {
  }

  /** Names as tokens of the new pattern. */
  function Toks(o: seq<Name>): Line {
    seq(|o|, i requires 0 <= i < |o| => match o[i] case V(k) => Reg(Dec(k)) case T(s) => Txt(s))
  }

  lemma ToksApart(o: seq<Name>, p: seq<Name>)
    requires Toks(o) == Toks(p)
    ensures o == p
  {
    assert |o| == |Toks(o)| && |p| == |Toks(p)|;
    forall i | 0 <= i < |o|
      ensures o[i] == p[i]
    {
      assert Toks(o)[i] == Toks(p)[i];
      if o[i].V? && p[i].V? {
        DecIs(o[i].k);
        DecIs(p[i].k);
      }
    }
  }

  // ----- what normalise writes

  function Show(o: seq<Name>): string { Unlex('v', Toks(o)) }

  function Texts(ls: seq<Line>): seq<string> {
    var o := RenBody(ls).1;
    seq(|o|, i requires 0 <= i < |o| => Show(o[i]))
  }

  function Body(a: seq<string>): seq<Line> { seq(|a|, i requires 0 <= i < |a| => Lex('r', a[i])) }

  function NormText(a: seq<string>): seq<string> { Texts(Normal(Body(a))) }

  /** Every piece of text stays, and every register gives way to a number. */
  ghost predicate Kinds(l: Line, o: seq<Name>) {
    |l| == |o| && forall i | 0 <= i < |l| :: if l[i].Reg? then o[i].V? else o[i] == T(l[i].s)
  }

  lemma {:induction false} RenKinds(order: seq<Id>, l: Line)
    ensures Kinds(l, RenLine(order, l).1)
  {
    if l != [] {
      var n := |l| - 1;
      RenKinds(order, l[..n]);
      var o := RenLine(order, l).1;
      forall i | 0 <= i < |l|
        ensures if l[i].Reg? then o[i].V? else o[i] == T(l[i].s)
      {
        assert i < n ==> l[i] == l[..n][i] && o[i] == RenLine(order, l[..n]).1[i];
      }
    }
  }

  lemma {:induction false} BodyKinds(ls: seq<Line>)
    ensures |RenBody(ls).1| == |ls| && forall i | 0 <= i < |ls| :: Kinds(ls[i], RenBody(ls).1[i])
  {
    if ls != [] {
      hide Kinds, RenLine;
      var n := |ls| - 1;
      BodyKinds(ls[..n]);
      RenKinds(RenBody(ls[..n]).0, ls[n]);
    }
  }

  lemma ToksFollow(l: Line, o: seq<Name>)
    requires Kinds(l, o) && forall i: nat :: Follows(l, i)
    ensures forall i: nat :: Follows(Toks(o), i)
  {
    forall i: nat
      ensures Follows(Toks(o), i)
    {
      assert Follows(l, i);
      assert i < |l| ==> (l[i].Reg? <==> o[i].V?);
      assert 0 < i < |l| ==> (l[i - 1].Reg? <==> o[i - 1].V?);
    }
  }

  /** No text of the line reads like one of the new names. */
  ghost predicate PlainLine(l: Line) { forall i | 0 <= i < |l| :: l[i].Txt? ==> Free('v', l[i].s) }

  lemma ToksLexed(l: Line, o: seq<Name>)
    requires Kinds(l, o) && Lexed('r', l) && PlainLine(l)
    ensures Lexed('v', Toks(o))
  {
    hide Free, Follows, Dec, Digit;
    ToksFollow(l, o);
    forall i | 0 <= i < |o|
      ensures TokOk('v', Toks(o)[i])
    {
      assert TokOk('r', l[i]);
    }
  }

  // ----- when the text tells

  ghost predicate AllLexed(ls: seq<Line>) { forall i | 0 <= i < |ls| :: Lexed('r', ls[i]) }

  ghost predicate AllPlain(ls: seq<Line>) { forall i | 0 <= i < |ls| :: PlainLine(ls[i]) }

  /** Without text that reads like a new name, the text of two bodies is the same exactly when their numbers are. */
  lemma TextsTell(x: seq<Line>, y: seq<Line>)
    requires AllLexed(x) && AllLexed(y) && AllPlain(x) && AllPlain(y)
    ensures Texts(x) == Texts(y) <==> RenBody(x).1 == RenBody(y).1
  {
    hide Kinds, Lexed, PlainLine, Show, RenBody;
    BodyKinds(x);
    BodyKinds(y);
    var o, p := RenBody(x).1, RenBody(y).1;
    if Texts(x) == Texts(y) {
      assert |o| == |Texts(x)| && |p| == |Texts(y)|;
      forall i | 0 <= i < |o|
        ensures o[i] == p[i]
      {
        assert Show(o[i]) == Texts(x)[i] == Texts(y)[i] == Show(p[i]);
        ToksLexed(x[i], o[i]);
        ToksLexed(y[i], p[i]);
        ShowTells(o[i], p[i]);
      }
    }
  }

  lemma ShowTells(o: seq<Name>, p: seq<Name>)
    requires Lexed('v', Toks(o)) && Lexed('v', Toks(p)) && Show(o) == Show(p)
    ensures o == p
  {
    hide Lexed, Lex, Toks, Unlex;
    LexUnlex('v', Toks(o));
    LexUnlex('v', Toks(p));
    ToksApart(o, p);
  }

  /** No line of the body has a percent sign, the letter v and a digit in it. */
  ghost predicate Plain(a: seq<string>) { forall i | 0 <= i < |a| :: Free('v', a[i]) }

  lemma {:induction false} FreeTexts(c: char, l: Line)
    requires Free('v', Unlex(c, l))
    ensures PlainLine(l)
  {
    if l != [] {
      hide Free;
      FreeParts('v', Spell(c, l[0]), Unlex(c, l[1..]));
      FreeTexts(c, l[1..]);
      assert forall i | 0 < i < |l| :: l[i] == l[1..][i - 1];
    }
  }

  lemma BodyLexed(a: seq<string>)
    ensures AllLexed(Body(a)) && (Plain(a) ==> AllPlain(Body(a)))
  {
    hide Lexed, PlainLine, Free;
    forall i | 0 <= i < |a|
      ensures Lexed('r', Body(a)[i]) && (Plain(a) ==> PlainLine(Body(a)[i]))
    {
      LexIs('r', a[i]);
      if Plain(a) {
        FreeTexts('r', Lex('r', a[i]));
      }
    }
  }

  lemma NormalLexed(a: seq<string>)
    ensures AllLexed(Normal(Body(a))) && (Plain(a) ==> AllPlain(Normal(Body(a))))
  {
    hide Lexed, PlainLine, Normal, Body, Plain;
    BodyLexed(a);
    NormalFrom(Body(a));
    var n := Normal(Body(a));
    assert forall i | 0 <= i < |n| :: n[i] in Body(a);
  }

  /** Bodies without such text normalise to the same lines exactly when, dead code dropped, one is the other renamed. */
  lemma NormaliseExact(a: seq<string>, b: seq<string>)
    requires Plain(a) && Plain(b)
    ensures NormText(a) == NormText(b) <==> exists f :: Renaming(f, Normal(Body(a)), Normal(Body(b)))
  {
    hide Texts, Renaming, Normal, Body, RenBody, AllLexed, AllPlain;
    NormalLexed(a);
    NormalLexed(b);
    TextsTell(Normal(Body(a)), Normal(Body(b)));
    NumberedExact(Body(a), Body(b));
  }

  // ----- and with any text

  /** The line with its registers blanked out. */
  function Skeleton(l: Line): Line { seq(|l|, i requires 0 <= i < |l| => if l[i].Reg? then Reg("") else l[i]) }

  function Skeletons(ls: seq<Line>): seq<Line> { seq(|ls|, i requires 0 <= i < |ls| => Skeleton(ls[i])) }

  lemma SkeletonAt(l: Line, m: Line, i: nat)
    requires Skeleton(l) == Skeleton(m) && i < |l|
    ensures |m| == |l| && (l[i].Reg? <==> m[i].Reg?) && (l[i].Txt? ==> m[i] == l[i])
  {
    assert |Skeleton(l)| == |l| && |Skeleton(m)| == |m|;
    assert Skeleton(l)[i] == Skeleton(m)[i];
  }

  /** A line cut anywhere but inside digits, whatever its text reads like. */
  ghost predicate Neat(l: Line) {
    && (forall i: nat :: Follows(l, i))
    && forall i | 0 <= i < |l| :: if l[i].Reg? then AllDigits(l[i].n) else l[i].s != ""
  }

  lemma TailNeat(l: Line)
    requires Neat(l) && l != []
    ensures Neat(l[1..])
  {
    hide Follows, AllDigits;
    TailFollows(l);
  }

  lemma SkeletonTail(l: Line, m: Line)
    requires Skeleton(l) == Skeleton(m) && l != []
    ensures m != [] && Skeleton(l[1..]) == Skeleton(m[1..])
  {
    SkeletonAt(l, m, 0);
    assert Skeleton(l[1..]) == Skeleton(l)[1..] && Skeleton(m[1..]) == Skeleton(m)[1..];
  }

  lemma HeadApart(c: char, l: Line, m: Line)
    requires Neat(l) && Neat(m) && l != [] && m != [] && Unlex(c, l) == Unlex(c, m)
    requires (l[0].Reg? <==> m[0].Reg?) && (l[0].Txt? ==> m[0] == l[0])
    ensures l[0] == m[0] && Unlex(c, l[1..]) == Unlex(c, m[1..])
  {
    hide Follows, AllDigits, Digit;
    RestStart(c, l);
    RestStart(c, m);
    var x, y := Unlex(c, l[1..]), Unlex(c, m[1..]);
    hide Neat;
    if l[0].Reg? {
      var d, e := l[0].n, m[0].n;
      assert AllDigits(d) && AllDigits(e) by {
        NeatHead(l);
        NeatHead(m);
      }
      Joins(['%', c], d, x);
      Joins(['%', c], e, y);
      Peel(['%', c], d + x, e + y);
      DigitsApart(d, e, x, y);
    } else {
      Peel(l[0].s, x, y);
    }
  }

  lemma NeatHead(l: Line)
    requires Neat(l) && l != []
    ensures if l[0].Reg? then AllDigits(l[0].n) else l[0].s != ""
  {
    hide Follows, AllDigits;
  }

  lemma Joins(a: string, b: string, c: string)
    ensures a + b + c == a + (b + c)
  {
  }

  /** Lines with the same text between their registers are the same when they spell the same. */
  lemma {:induction false} SpellApart(c: char, l: Line, m: Line)
    requires Skeleton(l) == Skeleton(m) && Unlex(c, l) == Unlex(c, m) && Neat(l) && Neat(m)
    ensures l == m
    decreases |l|
  {
    assert |Skeleton(l)| == |l| && |Skeleton(m)| == |m|;
    if l != [] {
      hide Neat, Unlex;
      SkeletonAt(l, m, 0);
      SkeletonTail(l, m);
      HeadApart(c, l, m);
      TailNeat(l);
      TailNeat(m);
      SpellApart(c, l[1..], m[1..]);
      assert l == [l[0]] + l[1..] && m == [m[0]] + m[1..];
    }
  }

  lemma Peel(p: string, x: string, y: string)
    ensures p + x == p + y ==> x == y
  {
    if p + x == p + y {
      assert (p + x)[|p|..] == x && (p + y)[|p|..] == y;
    }
  }

  lemma DigitsApart(d: string, e: string, x: string, y: string)
    requires d + x == e + y && (x != "" ==> !Digit(x[0])) && (y != "" ==> !Digit(y[0]))
    requires AllDigits(d) && AllDigits(e)
    ensures d == e && x == y
  {
    var s := d + x;
    assert forall j | 0 <= j < |d| :: s[j] == d[j];
    assert forall j | 0 <= j < |e| :: s[j] == e[j];
    assert x != "" ==> s[|d|] == x[0];
    assert y != "" ==> s[|e|] == y[0];
    assert |d| == |e|;
    assert s[..|d|] == d && s[..|e|] == e && s[|d|..] == x && s[|e|..] == y;
  }

  /** Bodies with the same text between their registers: no condition on that text is needed. */
  lemma SkeletonsTell(x: seq<Line>, y: seq<Line>)
    requires AllLexed(x) && AllLexed(y) && Skeletons(x) == Skeletons(y)
    ensures Texts(x) == Texts(y) <==> RenBody(x).1 == RenBody(y).1
  {
    hide Lexed, Kinds, Show, RenBody, Skeleton;
    BodyKinds(x);
    BodyKinds(y);
    var o, p := RenBody(x).1, RenBody(y).1;
    assert |x| == |Skeletons(x)| && |y| == |Skeletons(y)|;
    if Texts(x) == Texts(y) {
      forall i | 0 <= i < |o|
        ensures o[i] == p[i]
      {
        assert Show(o[i]) == Texts(x)[i] == Texts(y)[i] == Show(p[i]);
        assert Skeleton(x[i]) == Skeletons(x)[i] == Skeletons(y)[i] == Skeleton(y[i]);
        SkeletonLine(x[i], y[i], o[i], p[i]);
      }
    }
  }

  lemma SkeletonLine(l: Line, m: Line, o: seq<Name>, p: seq<Name>)
    requires Lexed('r', l) && Lexed('r', m) && Kinds(l, o) && Kinds(m, p) && Skeleton(l) == Skeleton(m) && Show(o) == Show(p)
    ensures o == p
  {
    ToksNeat(l, o);
    ToksNeat(m, p);
    hide Lexed, Unlex, Neat;
    assert |Skeleton(l)| == |l| && |Skeleton(m)| == |m|;
    forall i | 0 <= i < |o|
      ensures Skeleton(Toks(o))[i] == Skeleton(Toks(p))[i]
    {
      SkeletonAt(l, m, i);
    }
    assert Skeleton(Toks(o)) == Skeleton(Toks(p));
    SpellApart('v', Toks(o), Toks(p));
    ToksApart(o, p);
  }

  lemma ToksNeat(l: Line, o: seq<Name>)
    requires Kinds(l, o) && Lexed('r', l)
    ensures Neat(Toks(o))
  {
    hide Free, Follows, Dec, Digit;
    ToksFollow(l, o);
    forall i | 0 <= i < |o|
      ensures var t := Toks(o)[i]; if t.Reg? then AllDigits(t.n) else t.s != ""
    {
      assert TokOk('r', l[i]);
    }
  }

  lemma RenamedSkeletons(f: map<Id, Id>, x: seq<Line>, y: seq<Line>)
    requires Renaming(f, x, y)
    ensures Skeletons(x) == Skeletons(y)
  {
    forall i | 0 <= i < |x|
      ensures Skeletons(x)[i] == Skeletons(y)[i]
    {
      assert Like(f, x[i], y[i]);
      assert Skeleton(x[i]) == Skeleton(y[i]);
    }
  }

  /**
   For any two bodies: one is the other renamed exactly when both the normalised lines and the lines
   with registers blanked out agree.
   */
  lemma RenamingExact(a: seq<string>, b: seq<string>)
    ensures (exists f :: Renaming(f, Normal(Body(a)), Normal(Body(b))))
       <==> NormText(a) == NormText(b) && Skeletons(Normal(Body(a))) == Skeletons(Normal(Body(b)))
  {
    hide Texts, Renaming, Normal, Body, RenBody, AllLexed, Skeletons;
    NormalLexed(a);
    NormalLexed(b);
    NumberedExact(Body(a), Body(b));
    var x, y := Normal(Body(a)), Normal(Body(b));
    if f :| Renaming(f, x, y) {
      RenamedSkeletons(f, x, y);
    }
    if Skeletons(x) == Skeletons(y) {
      SkeletonsTell(x, y);
    }
  }

  // ----- what normalise writes is normal

  lemma {:induction false} SpelledFree(l: Line)
    requires (forall i: nat :: Follows(l, i)) && forall i | 0 <= i < |l| :: if l[i].Reg? then AllDigits(l[i].n) else l[i].s != "" && Free('r', l[i].s)
    ensures Free('r', Unlex('v', l))
  {
    if l == [] {
      assert Unlex('v', l) == "";
    } else {
      hide Follows, Free;
      TailFollows(l);
      SpelledFree(l[1..]);
      RestStart('v', l);
      GluedFree(l[0], Unlex('v', l[1..]));
    }
  }

  lemma GluedFree(t: Tok, rest: string)
    requires if t.Reg? then AllDigits(t.n) else t.s != "" && Free('r', t.s) && (rest != "" ==> rest[0] == '%')
    requires Free('r', rest)
    ensures Free('r', Spell('v', t) + rest)
  {
    var p, s := Spell('v', t), Spell('v', t) + rest;
    forall i: nat
      ensures !MarkAt('r', s, i)
    {
      if i >= |p| {
        assert !MarkAt('r', rest, i - |p|);
        assert forall j | 0 <= j < |rest| :: s[|p| + j] == rest[j];
      } else if t.Txt? {
        assert !MarkAt('r', p, i);
      }
    }
  }

  lemma ShownFree(l: Line, o: seq<Name>)
    requires Kinds(l, o) && Lexed('r', l)
    ensures Free('r', Show(o))
  {
    hide Free, Follows, Dec, Digit;
    ToksFollow(l, o);
    forall i | 0 <= i < |o|
      ensures var t := Toks(o)[i]; if t.Reg? then AllDigits(t.n) else t.s != "" && Free('r', t.s)
    {
      assert TokOk('r', l[i]);
    }
    SpelledFree(Toks(o));
  }

  lemma NoMarks(s: string)
    requires Free('r', s)
    ensures Lex('r', s) == if s == "" then [] else [Txt(s)]
  {
    var l := if s == "" then [] else [Txt(s)];
    assert Unlex('r', l) == s;
    LexUnlex('r', l);
  }

  ghost predicate AllFree(a: seq<string>) { forall i | 0 <= i < |a| :: Free('r', a[i]) }

  lemma NormTextFree(a: seq<string>)
    ensures AllFree(NormText(a))
  {
    hide Lexed, Kinds, Show, RenBody, Free, Normal, Body;
    var x := Normal(Body(a));
    NormalLexed(a);
    BodyKinds(x);
    forall i | 0 <= i < |x|
      ensures Free('r', NormText(a)[i])
    {
      ShownFree(x[i], RenBody(x).1[i]);
    }
  }

  /** Lines without registers are normalised to themselves. */
  lemma NoRegisters(a: seq<string>)
    requires AllFree(a)
    ensures Normal(Body(a)) == Body(a) && NormText(a) == a
  {
    hide Free, RenBody, Show, Lex;
    forall i | 0 <= i < |a|
      ensures Body(a)[i] == if a[i] == "" then [] else [Txt(a[i])]
    {
      NoMarks(a[i]);
    }
    NothingDead(Body(a));
    BodyKinds(Body(a));
    forall i | 0 <= i < |a|
      ensures NormText(a)[i] == a[i]
    {
      OneText(a[i], Body(a)[i], RenBody(Body(a)).1[i]);
    }
  }

  lemma NothingDead(ls: seq<Line>)
    requires forall i | 0 <= i < |ls| :: |ls[i]| == 0 || (|ls[i]| == 1 && ls[i][0].Txt?)
    ensures Normal(ls) == ls
  {
    forall i | 0 <= i < |ls|
      ensures !Dead(ls, i)
    {
      assert Pure(ls[i]).None?;
    }
    NoneDead(ls);
  }

  lemma OneText(s: string, l: Line, o: seq<Name>)
    requires Kinds(l, o) && l == if s == "" then [] else [Txt(s)]
    ensures Show(o) == s
  {
    var t := Toks(o);
    assert |t| == |l|;
    if s != "" {
      assert l[0].Txt? && o[0] == T(s) && t[0] == Txt(s);
      var none: Line := [];
      assert t[1..] == none && Unlex('v', none) == "";
      assert Unlex('v', t) == s + "" == s;
    } else {
      assert t == [];
    }
  }

  ghost predicate HasRegister(ls: seq<Line>) { exists i, r :: 0 <= i < |ls| && Reg(r) in ls[i] }

  /**
   So same answers that any body is its own normalised text, and with a register left in the body
   that text is no renaming of it: a condition on both bodies is needed.
   */
  lemma NormaliseTwice(a: seq<string>)
    ensures NormText(NormText(a)) == NormText(a)
    ensures HasRegister(Normal(Body(a))) ==> !exists f :: Renaming(f, Normal(Body(a)), Normal(Body(NormText(a))))
  {
    hide Normal, RenBody, Texts;
    NormTextFree(a);
    NoRegisters(NormText(a));
    var x, y := Normal(Body(a)), Normal(Body(NormText(a)));
    if f :| HasRegister(x) && Renaming(f, x, y) {
      var i, r :| 0 <= i < |x| && Reg(r) in x[i];
      assert Like(f, x[i], y[i]);
      var j :| 0 <= j < |x[i]| && x[i][j] == Reg(r);
      assert y[i][j].Reg?;
      NoMarks(NormText(a)[i]);
    }
  }

  // ----- text that reads like a new name

  function OneReg(pre: string, r: Id, post: string): Line { [Txt(pre), Reg(r)] + if post == "" then [] else [Txt(post)] }

  /** The only register of a body becomes %v0. */
  lemma OneRegister(pre: string, r: Id, post: string)
    ensures Texts([OneReg(pre, r, post)]) == [pre + "%v0" + post]
  {
    var l := OneReg(pre, r, post);
    var o := [T(pre), V(0)] + if post == "" then [] else [T(post)];
    assert RenLine([], [Txt(pre)]) == ([], [T(pre)]) by {
      assert [Txt(pre)][..0] == [] && [] + [T(pre)] == [T(pre)];
    }
    assert RenLine([], [Txt(pre), Reg(r)]) == ([r], [T(pre), V(0)]) by {
      assert [Txt(pre), Reg(r)][..1] == [Txt(pre)] && [T(pre)] + [V(0)] == [T(pre), V(0)] && [] + [r] == [r];
    }
    assert RenLine([], l) == ([r], o) by {
      if post == "" {
        assert l == [Txt(pre), Reg(r)] && o == [T(pre), V(0)];
      } else {
        assert l[..2] == [Txt(pre), Reg(r)];
      }
    }
    var none: seq<Line> := [];
    assert [l][..0] == none && RenBody(none) == ([], []);
    assert RenBody([l]).1 == [o];
    OneShown(pre, post, o);
  }

  lemma OneShown(pre: string, post: string, o: seq<Name>)
    requires o == [T(pre), V(0)] + if post == "" then [] else [T(post)]
    ensures Show(o) == pre + "%v0" + post
  {
    var t := Toks(o);
    assert Dec(0) == "0" by {
      assert DigitOf(DigitChar(0)) == 0;
    }
    assert t[0] == Txt(pre) && t[1] == Reg("0") && (post != "" ==> t[2] == Txt(post));
    assert ['%', 'v'] + "0" == "%v0";
    var u := t[1..][1..];
    assert Unlex('v', u) == post by {
      if post != "" {
        assert u == [Txt(post)] && u[1..] == [] && post + "" == post;
      } else {
        assert u == [];
      }
    }
    assert Unlex('v', t[1..]) == "%v0" + post;
    assert pre + ("%v0" + post) == pre + "%v0" + post;
  }

  /** The line that reads the old and the new name, as text, in either order. */
  function Stored(op: string, mid: string): string { op + "%v0" + mid + "%r5" }

  function Swapped(op: string, mid: string): string { op + "%r5" + mid + "%v0" }

  ghost predicate Operands(op: string, mid: string) {
    op != "" && mid != "" && !Blank(op) && Free('r', op) && Free('r', mid) && !Digit(mid[0])
  }

  lemma NameFree(op: string, mid: string)
    requires Operands(op, mid)
    ensures Free('r', op + "%v0" + mid) && Free('r', mid + "%v0")
  {
    var l, m := [Txt(op), Reg("0"), Txt(mid)], [Txt(mid), Reg("0")];
    hide Free;
    var none: Line := [];
    assert l[1..] == [Reg("0"), Txt(mid)] && l[1..][1..] == [Txt(mid)] && [Txt(mid)][1..] == none;
    assert m[1..] == [Reg("0")] && [Reg("0")][1..] == none;
    assert ['%', 'v'] + "0" == "%v0" && AllDigits("0");
    Alone('v', Txt(mid));
    Alone('v', Reg("0"));
    assert Unlex('v', l[1..]) == "%v0" + mid;
    assert Unlex('v', l) == op + ("%v0" + mid) == op + "%v0" + mid;
    assert Unlex('v', m) == mid + "%v0";
    SpelledFree(l);
    SpelledFree(m);
  }

  lemma Alone(c: char, t: Tok)
    ensures Unlex(c, [t]) == Spell(c, t)
  {
    var none: Line := [];
    assert [t][1..] == none && Unlex(c, none) == "";
    assert Spell(c, t) + "" == Spell(c, t);
  }

  lemma CutOnce(pre: string, post: string)
    requires pre != "" && Free('r', pre) && Free('r', post) && (post != "" ==> !Digit(post[0]))
    ensures Lex('r', pre + "%r5" + post) == OneReg(pre, "5", post)
  {
    var l := OneReg(pre, "5", post);
    hide Free;
    var none: Line := [];
    assert ['%', 'r'] + "5" == "%r5" && AllDigits("5");
    assert l[1..][1..] == if post == "" then none else [Txt(post)];
    assert [Txt(post)][1..] == none && post + "" == post;
    assert Unlex('r', l[1..][1..]) == post;
    assert l[1..][0] == Reg("5") && Unlex('r', l[1..]) == "%r5" + post;
    assert Unlex('r', l) == pre + ("%r5" + post) == pre + "%r5" + post;
    LexUnlex('r', l);
  }

  lemma OneLine(s: string, pre: string, r: Id, post: string)
    requires Lex('r', s) == OneReg(pre, r, post) && pre != "" && (post == "" || !Blank(pre))
    ensures Normal(Body([s])) == Body([s]) == [OneReg(pre, r, post)] && NormText([s]) == [pre + "%v0" + post]
  {
    var x := Body([s]);
    assert x == [OneReg(pre, r, post)];
    assert Pure(x[0]).None?;
    NoneDead(x);
    hide Normal, Texts;
    OneRegister(pre, r, post);
  }

  /**
   same takes the two for one instruction, whatever the operation: both normalise to the same text, and
   neither is the other renamed.
   */
  lemma SwappedOperands(op: string, mid: string)
    requires Operands(op, mid)
    ensures NormText([Stored(op, mid)]) == NormText([Swapped(op, mid)]) == [op + "%v0" + mid + "%v0"]
    ensures !exists f :: Renaming(f, Normal(Body([Stored(op, mid)])), Normal(Body([Swapped(op, mid)])))
  {
    assert Free('r', "");
    hide NormText, Normal, Body, Lex, Free;
    NameFree(op, mid);
    CutOnce(op + "%v0" + mid, "");
    CutOnce(op, mid + "%v0");
    assert Stored(op, mid) == op + "%v0" + mid + "%r5" + "" && Swapped(op, mid) == op + "%r5" + (mid + "%v0");
    OneLine(Stored(op, mid), op + "%v0" + mid, "5", "");
    OneLine(Swapped(op, mid), op, "5", mid + "%v0");
    assert op + "%v0" + mid + "%v0" + "" == op + "%v0" + mid + "%v0" == op + "%v0" + (mid + "%v0");
    hide Renaming;
    if f :| Renaming(f, Normal(Body([Stored(op, mid)])), Normal(Body([Swapped(op, mid)]))) {
      RenamedLengths(f, Normal(Body([Stored(op, mid)])), Normal(Body([Swapped(op, mid)])));
    }
  }

  lemma RenamedLengths(f: map<Id, Id>, x: seq<Line>, y: seq<Line>)
    requires Renaming(f, x, y)
    ensures |x| == |y| && forall i | 0 <= i < |x| :: |x[i]| == |y[i]|
  {
    forall i | 0 <= i < |x|
      ensures |x[i]| == |y[i]|
    {
      assert Like(f, x[i], y[i]);
    }
  }

  /** Such a pair: two stores with their operands swapped. */
  lemma SwappedStore()
    ensures var a, b := ["  store i8 %v0, ptr %r5"], ["  store i8 %r5, ptr %v0"];
      NormText(a) == NormText(b) && !exists f :: Renaming(f, Normal(Body(a)), Normal(Body(b)))
  {
    hide NormText, Normal, Body, Renaming;
    var op, mid := "  store i8 ", ", ptr ";
    assert !Space(op[2]);
    assert forall i: nat :: i < |op| ==> op[i] != '%';
    assert forall i: nat :: i < |mid| ==> mid[i] != '%';
    SwappedOperands(op, mid);
    assert Stored(op, mid) == "  store i8 %v0, ptr %r5" && Swapped(op, mid) == "  store i8 %r5, ptr %v0";
  }

  // ----- the methods

  method NormaliseLine(names: map<Id, nat>, ghost order: seq<Id>, line: Line)
    returns (names': map<Id, nat>, out: string, ghost o: seq<Name>)
    requires Numbers(names, order)
    ensures Numbers(names', RenLine(order, line).0) && o == RenLine(order, line).1 && out == Show(o)
  {
    hide Numbers, Show, IndexOf;
    names', out, o := names, "", [];
    ghost var seen := order;
    ShowNone();
    for i := 0 to |line|
      invariant Numbers(names', seen) && (seen, o) == RenLine(order, line[..i]) && out == Show(o)
    {
      assert line[..i + 1][..i] == line[..i];
      match line[i] {
        case Txt(s) =>
          ShowSnoc(o, T(s));
          out, o := out + s, o + [T(s)];
        case Reg(r) =>
          Numbered(names', seen, r);
          if r !in names' {
            names' := names'[r := |names'|];
          }
          ShowSnoc(o, V(names'[r]));
          out, o := out + ("%v" + Dec(names'[r])), o + [V(names'[r])];
          seen := Seen(seen, r);
      }
    }
    assert line[..|line|] == line;
  }

  /** names.setdefault: a register's own number, or the next one. */
  lemma Numbered(names: map<Id, nat>, order: seq<Id>, r: Id)
    requires Numbers(names, order)
    ensures if r in names then names[r] == IndexOf(order, r) && Seen(order, r) == order
            else IndexOf(order, r) == |names| && Seen(order, r) == order + [r] && Numbers(names[r := |names|], order + [r])
  {
    if r !in names {
      NumbersSeen(names, order, r);
    }
  }

  lemma ShowNone()
    ensures Show([]) == ""
  {
  }

  function Piece(n: Name): string {
    match n
    case V(k) => "%v" + Dec(k)
    case T(s) => s
  }

  lemma ShowSnoc(o: seq<Name>, n: Name)
    ensures Show(o + [n]) == Show(o) + Piece(n)
  {
    var t := if n.V? then Reg(Dec(n.k)) else Txt(n.s);
    assert Toks(o + [n]) == Toks(o) + [t];
    UnlexSnoc('v', Toks(o), t);
    assert n.V? ==> ['%', 'v'] == "%v";
  }

  lemma {:induction false} UnlexSnoc(c: char, l: Line, t: Tok)
    ensures Unlex(c, l + [t]) == Unlex(c, l) + Spell(c, t)
  {
    if l == [] {
      assert l + [t] == [t] && [t][1..] == [] && Spell(c, t) + "" == Spell(c, t) && "" + Spell(c, t) == Spell(c, t);
    } else {
      UnlexSnoc(c, l[1..], t);
      assert (l + [t])[1..] == l[1..] + [t];
      Joins(Spell(c, l[0]), Unlex(c, l[1..]), Spell(c, t));
    }
  }

  /** normalise */
  method Normalise(lines: seq<string>) returns (out: seq<string>)
    ensures out == NormText(lines)
  {
    hide Normal, RenLine, Numbers, Show, Body;
    var kept := DropDead(Body(lines));
    var names: map<Id, nat> := map[];
    ghost var order: seq<Id>, os: seq<seq<Name>> := [], [];
    out := [];
    NoNumbers();
    for i := 0 to |kept|
      invariant Numbers(names, order) && (order, os) == RenBody(kept[..i])
      invariant |out| == |os| && forall j | 0 <= j < |os| :: out[j] == Show(os[j])
    {
      assert kept[..i + 1][..i] == kept[..i];
      ghost var o;
      var line;
      names, line, o := NormaliseLine(names, order, kept[i]);
      order := RenLine(order, kept[i]).0;
      out, os := out + [line], os + [o];
    }
    assert kept[..|kept|] == kept;
  }

  /** same */
  method Same(a: seq<string>, b: seq<string>) returns (r: bool)
    ensures r <==> NormText(a) == NormText(b)
    ensures Plain(a) && Plain(b) ==> (r <==> exists f :: Renaming(f, Normal(Body(a)), Normal(Body(b))))
  {
    hide Renaming, NormText, Plain;
    if Plain(a) && Plain(b) {
      NormaliseExact(a, b);
    }
    if a == b {
      return true;
    }
    var x := Normalise(a);
    var y := Normalise(b);
    r := x == y;
  }
}
