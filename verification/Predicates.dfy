/** IN lists, LIKE patterns and anchored regular expressions, as they reach the WHERE tree. */
module Predicates {
  import opened Where
  import E = Enumeration

  // ----- IN and NOT IN -----

  function Equality(x: Operand, v: Operand): Atom { Atom(Equals, x, v) }

  /** x IN (values): true if x equals one of them, false if it differs from all, unknown otherwise
      (section 8.4 of ISO/IEC 9075:1992). */
  ghost function In3(i: Interp, x: Operand, values: seq<Operand>): Truth {
    if exists v <- values :: i(Equality(x, v)) == True then True
    else if forall v <- values :: i(Equality(x, v)) == False then False
    else Unknown
  }

  /** The tests of an IN or NOT IN list stand in a chain to the right, the last value first. */
  function InChain(x: Operand, values: seq<Operand>, isIn: bool): Expr
    requires values != []
  {
    var n := |values| - 1;
    var last := Test(Atom(if isIn then Equals else NotEquals, x, values[n]));
    if n == 0 then last
    else if isIn then Or(last, InChain(x, values[..n], isIn)) else And(last, InChain(x, values[..n], isIn))
  }

  /** The loop of lp_generate_where over an IN or NOT IN list. */
  method ExpandIn(x: Operand, values: seq<Operand>, isIn: bool) returns (ret: Expr)
    requires values != []
    ensures forall i: Interp :: isIn ==> Eval(ret, i) == In3(i, x, values)
    ensures forall i: Interp :: !isIn && Lawful(i) ==> Eval(ret, i) == Not3(In3(i, x, values))
    ensures Clauses(ret) == if isIn then |values| else 1
    ensures ret == InChain(x, values, isIn)
  {
    hide In3, Lawful, Clauses;
    OneClauseTest(Atom(if isIn then Equals else NotEquals, x, values[0]));
    ret := Test(Atom(if isIn then Equals else NotEquals, x, values[0]));
    OneValue(x, values[0]);
    assert values[..1] == [values[0]];
    var k := 1;
    while k < |values|
      invariant 1 <= k <= |values|
      invariant forall i: Interp :: isIn ==> Eval(ret, i) == In3(i, x, values[..k])
      invariant forall i: Interp :: !isIn && Lawful(i) ==> Eval(ret, i) == Not3(In3(i, x, values[..k]))
      invariant Clauses(ret) == (if isIn then k else 1) && ret == InChain(x, values[..k], isIn)
    {
      var next := Test(Atom(if isIn then Equals else NotEquals, x, values[k]));
      assert values[..k + 1] == values[..k] + [values[k]] && values[..k + 1][..k] == values[..k];
      MoreValues(x, values[..k], values[k]);
      OneMoreClause(next.atom, ret);
      ret := if isIn then Or(next, ret) else And(next, ret);
      k := k + 1;
    }
    assert values[..k] == values;
  }

  lemma OneClauseTest(a: Atom)
    ensures Clauses(Test(a)) == 1
  {}

  lemma {:induction false} OneMoreClause(a: Atom, e: Expr)
    ensures Clauses(Or(Test(a), e)) == 1 + Clauses(e) && Clauses(And(Test(a), e)) == Clauses(e)
  {
    assert Count(Test(a), false, ONES) == 1;
    assert Count(And(Test(a), e), false, ONES) == Count(Test(a), false, ONES) * Count(e, false, ONES);
  }

  lemma Opposed(i: Interp, x: Operand, v: Operand)
    requires Lawful(i)
    ensures i(Atom(NotEquals, x, v)) == Not3(i(Equality(x, v)))
  {
    assert Flip(Equality(x, v)) == Atom(NotEquals, x, v);
  }

  lemma OneValue(x: Operand, v: Operand)
    ensures forall i: Interp :: In3(i, x, [v]) == i(Equality(x, v))
    ensures forall i: Interp | Lawful(i) :: i(Atom(NotEquals, x, v)) == Not3(In3(i, x, [v]))
  {
    forall i: Interp ensures In3(i, x, [v]) == i(Equality(x, v)) { assert v in [v]; }
    forall i: Interp | Lawful(i) ensures i(Atom(NotEquals, x, v)) == Not3(In3(i, x, [v])) {
      Opposed(i, x, v); assert v in [v];
    }
  }

  lemma MoreValues(x: Operand, vs: seq<Operand>, v: Operand)
    ensures forall i: Interp :: In3(i, x, vs + [v]) == Or3(i(Equality(x, v)), In3(i, x, vs))
    ensures forall i: Interp | Lawful(i) ::
      Not3(In3(i, x, vs + [v])) == And3(i(Atom(NotEquals, x, v)), Not3(In3(i, x, vs)))
  {
    assert v in vs + [v] && (forall u <- vs :: u in vs + [v]) && forall u <- vs + [v] :: u in vs || u == v;
    forall i: Interp ensures In3(i, x, vs + [v]) == Or3(i(Equality(x, v)), In3(i, x, vs)) {}
    forall i: Interp | Lawful(i)
      ensures Not3(In3(i, x, vs + [v])) == And3(i(Atom(NotEquals, x, v)), Not3(In3(i, x, vs)))
    {
      Opposed(i, x, v);
    }
  }

  // ----- Regular expressions -----

  /** The characters that the scan for a plain pattern stops at, besides the dollar sign. */
  predicate Special(c: char) { c in "\\*+{()}[]?.|" }

  predicate Ordinary(c: char) { !Special(c) && c != '^' && c != '$' }

  /** Extended regular expressions (section 9.4 of IEEE Std 1003.1), without classes and ranges in brackets. */
  datatype Regex =
    | Nil | Lit(c: char) | Escaped(c: char) | Any | LineStart | Bracket(cs: string)
    | Star(r: Regex) | Plus(r: Regex) | Maybe(r: Regex) | Times(r: Regex, n: nat) | Group(r: Regex)
    | Then(r: Regex, next: Regex) | Either(r: Regex, other: Regex)

  function Numeral(n: nat): string { if n < 10 then ['0' + n as char] else Numeral(n / 10) + ['0' + (n % 10) as char] }

  /** How an expression is written. */
  function Text(r: Regex): string {
    match r
    case Nil => ""
    case Lit(c) => [c]
    case Escaped(c) => "\\" + [c]
    case Any => "."
    case LineStart => "^"
    case Bracket(cs) => "[" + cs + "]"
    case Star(x) => Text(x) + "*"
    case Plus(x) => Text(x) + "+"
    case Maybe(x) => Text(x) + "?"
    case Times(x, n) => Text(x) + "{" + Numeral(n) + "}"
    case Group(x) => "(" + Text(x) + ")"
    case Then(x, y) => Text(x) + Text(y)
    case Either(x, y) => Text(x) + "|" + Text(y)
  }

  /** Characters stand for themselves only if they are ordinary. */
  predicate Written(r: Regex) {
    match r
    case Lit(c) => Ordinary(c)
    case Star(x) => Written(x)
    case Plus(x) => Written(x)
    case Maybe(x) => Written(x)
    case Times(x, _) => Written(x)
    case Group(x) => Written(x)
    case Then(x, y) => Written(x) && Written(y)
    case Either(x, y) => Written(x) && Written(y)
    case _ => true
  }

  /** The expression accepts the whole of s; `start` while nothing has been read. */
  ghost predicate Matches(r: Regex, s: string, start: bool)
    decreases r, 0, 0
  {
    match r
    case Nil => s == ""
    case Lit(c) => s == [c]
    case Escaped(c) => s == [c]
    case Any => |s| == 1
    case LineStart => s == "" && start
    case Bracket(cs) => |s| == 1 && s[0] in cs
    case Star(x) => Repeated(x, s, start)
    case Plus(x) => exists k | 0 <= k <= |s| :: Matches(x, s[..k], start) && Repeated(x, s[k..], start && k == 0)
    case Maybe(x) => s == "" || Matches(x, s, start)
    case Times(x, n) => RepeatedTimes(x, n, s, start)
    case Group(x) => Matches(x, s, start)
    case Then(x, y) => exists k | 0 <= k <= |s| :: Matches(x, s[..k], start) && Matches(y, s[k..], start && k == 0)
    case Either(x, y) => Matches(x, s, start) || Matches(y, s, start)
  }

  ghost predicate Repeated(r: Regex, s: string, start: bool)
    decreases r, 1, |s|
  {
    s == "" || exists k | 0 < k <= |s| :: Matches(r, s[..k], start) && Repeated(r, s[k..], false)
  }

  ghost predicate RepeatedTimes(r: Regex, n: nat, s: string, start: bool)
    decreases r, 1, n
  {
    if n == 0 then s == ""
    else exists k | 0 <= k <= |s| :: Matches(r, s[..k], start) && RepeatedTimes(r, n - 1, s[k..], start && k == 0)
  }

  /** The characters that an operator is written with. */
  function Marks(r: Regex): set<char> {
    match r
    case Escaped(_) => {'\\'}
    case Any => {'.'}
    case Bracket(_) => {'[', ']'}
    case Star(_) => {'*'}
    case Plus(_) => {'+'}
    case Maybe(_) => {'?'}
    case Times(_, _) => {'{', '}'}
    case Group(_) => {'(', ')'}
    case Either(_, _) => {'|'}
    case _ => {}
  }

  lemma MarksAreWritten(r: Regex)
    ensures forall c <- Marks(r) :: c in Text(r)
  {}

  predicate Operator(r: Regex) { !r.Nil? && !r.Lit? && !r.LineStart? && !r.Then? }

  lemma HasMark(r: Regex) returns (c: char)
    requires Operator(r)
    ensures c in Marks(r)
  {
    match r
    case Escaped(_) => c := '\\';
    case Any => c := '.';
    case Bracket(_) => c := '[';
    case Star(_) => c := '*';
    case Plus(_) => c := '+';
    case Maybe(_) => c := '?';
    case Times(_, _) => c := '{';
    case Group(_) => c := '(';
    case Either(_, _) => c := '|';
  }

  lemma MarksAreSpecial(r: Regex)
    ensures forall c <- Marks(r) :: Special(c)
  {
    SpecialIs('\\');
  }

  lemma SpecialIs(c: char)
    ensures Special(c) <==>
      c == '\\' || c == '*' || c == '+' || c == '{' || c == '(' || c == ')' || c == '}' || c == '[' || c == ']'
      || c == '?' || c == '.' || c == '|'
  {
    var s := "\\*+{()}[]?.|";
    assert |s| == 12 && s[0] == '\\' && s[1] == '*' && s[2] == '+' && s[3] == '{' && s[4] == '(' && s[5] == ')';
    assert s[6] == '}' && s[7] == '[' && s[8] == ']' && s[9] == '?' && s[10] == '.' && s[11] == '|';
  }

  lemma MarkOf(c: char) returns (r: Regex)
    requires Special(c)
    ensures c in Marks(r)
  {
    SpecialIs(c);
    r := if c == '\\' then Escaped('a') else if c == '.' then Any else if c == '[' || c == ']' then Bracket("a")
      else if c == '*' then Star(Any) else if c == '+' then Plus(Any) else if c == '?' then Maybe(Any)
      else if c == '{' || c == '}' then Times(Any, 1) else if c == '(' || c == ')' then Group(Any)
      else Either(Any, Any);
  }

  /** The scan stops exactly at the characters that operators are written with. */
  lemma SpecialIff(c: char)
    ensures Special(c) <==> exists r: Regex :: c in Marks(r)
  {
    hide Special, Marks;
    if Special(c) { var r := MarkOf(c); }
    if r: Regex :| c in Marks(r) { MarksAreSpecial(r); }
  }

  // ----- LIKE -----

  /** s is like the pattern: % stands for any string, _ for any character (section 8.5 of
      ISO/IEC 9075:1992). */
  ghost predicate Like(p: string, s: string)
    decreases p
  {
    if p == "" then s == ""
    else if p[0] == '%' then exists k | 0 <= k <= |s| :: Like(p[1..], s[k..])
    else s != "" && (p[0] == '_' || p[0] == s[0]) && Like(p[1..], s[1..])
  }

  function TranslatedChar(c: char): string { if c == '%' then ".*" else if c == '_' then "." else [c] }

  function Translated(p: string): string { if p == "" then "" else TranslatedChar(p[0]) + Translated(p[1..]) }

  lemma {:induction false} TranslatedSplits(p: string, k: nat)
    requires k <= |p|
    ensures Translated(p) == Translated(p[..k]) + Translated(p[k..])
    decreases k
  {
    hide TranslatedChar;
    if k == 0 {
      assert p[0..] == p && p[..0] == "";
    } else {
      TranslatedSplits(p[1..], k - 1);
      assert p[..k][1..] == p[1..][..k - 1] && p[1..][k - 1..] == p[k..];
      var x, y, z := TranslatedChar(p[0]), Translated(p[1..][..k - 1]), Translated(p[k..]);
      assert x + (y + z) == (x + y) + z;
    }
  }

  lemma TranslatedMore(p: string, k: nat)
    requires k < |p|
    ensures Translated(p[..k + 1]) == Translated(p[..k]) + Translated([p[k]])
  {
    TranslatedSplits(p[..k + 1], k);
    assert p[..k + 1][..k] == p[..k] && p[..k + 1][k..] == [p[k]];
  }

  /** regex_to_like, which turns a LIKE pattern into a regular expression, in a buffer of `max`
      characters. It stops taking characters once the buffer is full, so what it returns is whole and has
      room for the terminating zero exactly if the translation is three characters shorter than that. */
  method LikeToRegex(p: string, max: nat) returns (r: string, k: nat)
    ensures k <= |p| && r == "^" + Translated(p[..k]) + "$"
    ensures k == |p| || 1 + |Translated(p[..k])| >= max
    ensures forall j | 0 <= j < k :: 1 + |Translated(p[..j])| < max
    ensures k == |p| && |r| < max <==> |Translated(p)| + 3 <= max
  {
    r, k := "^", 0;
    while k < |p| && |r| < max
      invariant 0 <= k <= |p| && r == "^" + Translated(p[..k])
      invariant forall j | 0 <= j < k :: 1 + |Translated(p[..j])| < max
    {
      TranslatedMore(p, k);
      if p[k] == '%' {
        r := r + "." + "*";
      } else if p[k] == '_' {
        r := r + ".";
      } else {
        r := r + [p[k]];
      }
      k := k + 1;
    }
    TranslatedSplits(p, k);
    assert p[..|p|] == p;
    r := r + "$";
  }

  /** The expression that a translated pattern is. */
  function LikeRegex(p: string): Regex {
    if p == "" then Nil
    else Then(if p[0] == '%' then Star(Any) else if p[0] == '_' then Any else Lit(p[0]), LikeRegex(p[1..]))
  }

  /** The translation of a pattern of ordinary characters is written as an expression. */
  lemma {:induction false} LikeIsWritten(p: string)
    requires forall c <- p :: Ordinary(c)
    ensures Text(LikeRegex(p)) == Translated(p) && Written(LikeRegex(p))
  {
    hide Special;
    if p != "" {
      assert p[0] in p && forall c <- p[1..] :: c in p;
      LikeIsWritten(p[1..]);
      assert Text(Star(Any)) == ".*";
    }
  }

  /** That expression accepts what is like the pattern. */
  lemma {:induction false} LikeMeans(p: string, s: string, start: bool)
    ensures Matches(LikeRegex(p), s, start) <==> Like(p, s)
    decreases |p|
  {
    hide Repeated;
    if p != "" {
      var rest := LikeRegex(p[1..]);
      forall k | 0 <= k <= |s| ensures Matches(rest, s[k..], start && k == 0) <==> Like(p[1..], s[k..]) {
        LikeMeans(p[1..], s[k..], start && k == 0);
      }
      if p[0] == '%' {
        forall k | 0 <= k <= |s| ensures Repeated(Any, s[..k], start) { AnyRepeated(s[..k], start); }
      } else if s != "" {
        assert s[..1] == [s[0]];
        assert forall k | 0 <= k <= |s| :: |s[..k]| == 1 <==> k == 1;
      }
    }
  }

  /** A period in a LIKE pattern is not escaped: the translation of a.b accepts axb. */
  lemma LikePeriodIsAny()
    ensures var r := Then(Lit('a'), Then(Any, Lit('b')));
      Written(r) && Text(r) == Translated("a.b") && Matches(r, "axb", true) && !Like("a.b", "axb")
  {
    hide Matches, Like, Special;
    var r := Then(Lit('a'), Then(Any, Lit('b')));
    SpecialIs('a');
    SpecialIs('b');
    PlainTranslated("a.b");
    assert Text(r.next) == ".b" && Text(r) == "a.b";
    PeriodAccepts();
    PeriodUnlike();
  }

  lemma PeriodAccepts()
    ensures Matches(Then(Lit('a'), Then(Any, Lit('b'))), "axb", true)
  {
    assert "axb"[..1] == "a" && "axb"[1..] == "xb" && "xb"[..1] == "x" && "xb"[1..] == "b";
    assert Matches(Then(Any, Lit('b')), "xb", false);
  }

  lemma PeriodUnlike()
    ensures !Like("a.b", "axb")
  {
    assert "a.b"[1..] == ".b" && "axb"[1..] == "xb" && !Like(".b", "xb");
  }

  lemma {:induction false} AnyRepeated(s: string, start: bool)
    ensures Repeated(Any, s, start)
    decreases |s|
  {
    if s != "" {
      AnyRepeated(s[1..], false);
      assert Matches(Any, s[..1], start);
    }
  }

  // ----- From a regular expression to an equality -----

  /** The scan in lp_generate_where: an anchored expression without special characters becomes the
      string to compare with. */
  method PlainText(literal: string) returns (r: E.Option<string>)
    ensures r.Some? <==>
      && |literal| >= 2 && literal[0] == '^' && literal[|literal| - 1] == '$'
      && forall k | 1 <= k < |literal| - 1 :: !Special(literal[k]) && literal[k] != '$'
    ensures r.Some? ==> literal == "^" + r.value + "$"
  {
    if |literal| == 0 || literal[0] != '^' { return E.None; }
    var c, done := 1, false;
    while c < |literal| && literal[c] != '$' && !done
      invariant 1 <= c <= |literal| && forall k | 1 <= k < c :: !Special(literal[k]) && literal[k] != '$'
      invariant done ==> c < |literal| && Special(literal[c])
      decreases |literal| - c, !done
    {
      if Special(literal[c]) { done := true; } else { c := c + 1; }
    }
    if c == |literal| || literal[c] != '$' || c + 1 != |literal| { return E.None; }
    assert literal == "^" + literal[1..c] + "$";
    return E.Some(literal[1..c]);
  }

  /** The characters of a plain expression that stand for themselves. */
  function OwnChars(w: string): nat { if w == "" then 0 else (if w[0] == '^' then 0 else 1) + OwnChars(w[1..]) }

  lemma {:induction false} OwnCharsIff(w: string)
    ensures OwnChars(w) <= |w| && (OwnChars(w) == |w| <==> '^' !in w)
  {
    if w != "" {
      OwnCharsIff(w[1..]);
      assert w == [w[0]] + w[1..];
    }
  }

  /** Expressions without operators. */
  predicate Plain(r: Regex) {
    match r
    case Nil => true
    case Lit(_) => true
    case LineStart => true
    case Then(x, y) => Plain(x) && Plain(y)
    case _ => false
  }

  /** An expression in whose text the scan finds no special character has no operators. */
  lemma {:induction false} NoOperators(r: Regex)
    requires forall c <- Text(r) :: !Special(c)
    ensures Plain(r)
  {
    MarksAreWritten(r);
    match r
    case Then(x, y) =>
      assert (forall c <- Text(x) :: c in Text(r)) && forall c <- Text(y) :: c in Text(r);
      NoOperators(x);
      NoOperators(y);
    case _ =>
      if Operator(r) {
        var c := HasMark(r);
        MarksAreSpecial(r);
      }
  }

  lemma {:induction false} OwnCharsJoin(v: string, w: string)
    ensures OwnChars(v + w) == OwnChars(v) + OwnChars(w)
  {
    if v == "" {
      assert v + w == w;
    } else {
      OwnCharsJoin(v[1..], w);
      assert (v + w)[1..] == v[1..] + w;
    }
  }

  lemma {:induction false} MatchLength(r: Regex, s: string, start: bool)
    requires Plain(r) && Written(r) && Matches(r, s, start)
    ensures |s| == OwnChars(Text(r))
  {
    match r
    case Then(x, y) =>
      var k :| 0 <= k <= |s| && Matches(x, s[..k], start) && Matches(y, s[k..], start && k == 0);
      MatchLength(x, s[..k], start);
      MatchLength(y, s[k..], start && k == 0);
      OwnCharsJoin(Text(x), Text(y));
    case _ =>
  }

  lemma StartIsWritten()
    ensures '^' in Text(LineStart)
  {
    assert Text(LineStart)[0] == '^';
  }

  lemma {:induction false} MatchesItself(r: Regex, s: string, start: bool)
    requires Plain(r) && '^' !in Text(r)
    ensures Matches(r, s, start) <==> s == Text(r)
  {
    match r
    case Then(x, y) =>
      var v, w := Text(x), Text(y);
      assert (forall c <- v :: c in Text(r)) && forall c <- w :: c in Text(r);
      forall k | 0 <= k <= |s|
        ensures Matches(x, s[..k], start) && Matches(y, s[k..], start && k == 0) <==> s[..k] == v && s[k..] == w
      {
        MatchesItself(x, s[..k], start);
        MatchesItself(y, s[k..], start && k == 0);
        assert s == s[..k] + s[k..];
      }
      if s == v + w { assert s[..|v|] == v && s[|v|..] == w; }
    case LineStart => StartIsWritten();
    case _ =>
  }

  /** For every expression that is written without special characters: comparing with its text accepts the same
      strings if and only if there is no circumflex in it. */
  lemma PlainTextMeansIff(r: Regex)
    requires Written(r) && forall c <- Text(r) :: !Special(c)
    ensures (forall s :: Matches(r, s, true) <==> s == Text(r)) <==> '^' !in Text(r)
  {
    NoOperators(r);
    if '^' !in Text(r) {
      forall s: string ensures Matches(r, s, true) <==> s == Text(r) { MatchesItself(r, s, true); }
    } else {
      Rejects(r);
      var s := Text(r);
      assert !(Matches(r, s, true) <==> s == Text(r));
    }
  }

  lemma Rejects(r: Regex)
    requires Plain(r) && Written(r) && '^' in Text(r)
    ensures !Matches(r, Text(r), true)
  {
    OwnCharsIff(Text(r));
    if Matches(r, Text(r), true) { MatchLength(r, Text(r), true); }
  }

  /** The expression ^a^b$ becomes an equality with a^b, which what stands between ^ and $ does not accept. */
  method SecondCircumflex() returns (text: E.Option<string>)
    ensures var r := Then(Lit('a'), Then(LineStart, Lit('b')));
      text == E.Some(Text(r)) && !Matches(r, Text(r), true)
  {
    text := PlainText("^a^b$");
    assert !Special('a') && !Special('^') && !Special('b');
    ghost var r := Then(Lit('a'), Then(LineStart, Lit('b')));
    assert Text(r.next) == "^b" && Text(r) == "a^b" && '^' in Text(r);
    Rejects(r);
    var all := "^" + text.value + "$";
    assert |all| == 5 && text.value == all[1..4] == "a^b";
  }

  /** A LIKE pattern without wildcards is an equality. */
  lemma PlainLikeIsEquality(p: string, s: string)
    requires forall c <- p :: Ordinary(c) && c != '%' && c != '_'
    ensures Translated(p) == p && (Like(p, s) <==> s == p)
  {
    PlainTranslated(p);
    LikeIsWritten(p);
    LikeMeans(p, s, true);
    NoOperators(LikeRegex(p));
    MatchesItself(LikeRegex(p), s, true);
  }

  lemma {:induction false} PlainTranslated(p: string)
    requires forall c <- p :: c != '%' && c != '_'
    ensures Translated(p) == p
  {
    if p != "" {
      assert p[0] in p && forall c <- p[1..] :: c in p;
      PlainTranslated(p[1..]);
      assert p == [p[0]] + p[1..];
    }
  }
}
