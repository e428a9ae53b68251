/** The WHERE trees of the planner as values: three-valued truth, syntax, meaning and
    clause count. */
module Where {

  // ----- Three-valued truth (section 8.12 of ISO/IEC 9075:1992) -----

  datatype Truth = True | False | Unknown

  function Not3(a: Truth): Truth {
    match a case True => False case False => True case Unknown => Unknown
  }

  function And3(a: Truth, b: Truth): Truth {
    if a == False || b == False then False
    else if a == True && b == True then True
    else Unknown
  }

  function Or3(a: Truth, b: Truth): Truth {
    if a == True || b == True then True
    else if a == False && b == False then False
    else Unknown
  }

  // ----- Syntax -----

  /** The tags of an LP node below LP_WHERE. `Leaf` stands for every tag below LP_ADDITION (columns,
      values, function calls, CASE, sub-plans); `Arithmetic` for the numeric operators, which come
      after LP_ADDITION in the enumeration and are therefore not exempt from negation pushing. */
  datatype Tag =
    | Leaf | Arithmetic
    | BooleanOr | BooleanAnd | BooleanNot | BooleanIs
    | Equals | NotEquals | LessThan | GreaterThan | LessThanOrEquals | GreaterThanOrEquals
    | RegexSensitive | RegexInsensitive | In | NotIn
  {
    predicate Connective() { BooleanOr? || BooleanAnd? || BooleanNot? }

    /** Operands below which a NOT is left where it stands. */
    predicate Exempt() { RegexSensitive? || RegexInsensitive? || BooleanIs? || Leaf? }

    /** Tests that have an opposite tag. */
    predicate Flippable() {
      Equals? || NotEquals? || LessThan? || GreaterThan? || LessThanOrEquals? || GreaterThanOrEquals?
      || In? || NotIn?
    }

    /** The opposite test. Tags without one are returned as they are. */
    function Opposite(): Tag {
      match this
      case Equals => NotEquals
      case NotEquals => Equals
      case LessThan => GreaterThanOrEquals
      case GreaterThan => LessThanOrEquals
      case LessThanOrEquals => GreaterThan
      case GreaterThanOrEquals => LessThan
      case In => NotIn
      case NotIn => In
      case _ => this
    }
  }

  /** A scalar operand of a test. Normalisation never looks inside one. `alias` is the unique id of
      the table alias that a column belongs to. */
  datatype Operand = Column(alias: nat, column: nat) | Constant(value: Scalar) | Computed(id: nat)

  /** Values by their position in the collation order. */
  datatype Scalar = Null | Val(rank: int)

  /** v comes later in the collation order; Null, the empty string, starts it. */
  predicate Follows(v: Scalar, after: Scalar) { v.Val? && (after.Null? || v.rank > after.rank) }

  datatype Atom = Atom(tag: Tag, lhs: Operand, rhs: Operand)

  datatype Expr = Test(atom: Atom) | Not(arg: Expr) | And(left: Expr, right: Expr) | Or(left: Expr, right: Expr)


  // ----- Meaning -----

  type Interp = Atom -> Truth

  function Flip(a: Atom): Atom { a.(tag := a.tag.Opposite()) }

  /** Opposite tests have opposite truth values. */
  ghost predicate Lawful(i: Interp) {
    forall a: Atom {:trigger Flip(a)} | a.tag.Flippable() :: i(Flip(a)) == Not3(i(a))
  }

  function Eval(t: Expr, i: Interp): Truth {
    match t
    case Test(a) => i(a)
    case Not(x) => Not3(Eval(x, i))
    case And(x, y) => And3(Eval(x, i), Eval(y, i))
    case Or(x, y) => Or3(Eval(x, i), Eval(y, i))
  }

  // ----- Clauses -----

  datatype Literal = Literal(atom: Atom, negated: bool)

  type Weight = Literal -> nat

  function NegateAtom(a: Atom): Literal {
    if a.tag.Flippable() then Literal(Flip(a), false) else Literal(a, true)
  }

  /** The weighted clause count of t, or of its negation: a literal counts its weight, alternatives
      add up, and a conjunction counts every pair of clauses. With all weights one this is the number
      of clauses of the disjunctive form; over all weightings it fixes the clauses as a polynomial in
      the literals, so equal counts mean the same clauses with the same multiplicities. */
  ghost function Count(t: Expr, negated: bool, w: Weight): nat {
    match t
    case Test(a) => w(if negated then NegateAtom(a) else Literal(a, false))
    case Not(x) => Count(x, !negated, w)
    case And(x, y) => if negated then Count(x, true, w) + Count(y, true, w) else Count(x, false, w) * Count(y, false, w)
    case Or(x, y) => if negated then Count(x, true, w) * Count(y, true, w) else Count(x, false, w) + Count(y, false, w)
  }

  const ONES: Weight := _ => 1
  const TWOS: Weight := _ => 2

  ghost function Clauses(t: Expr): nat { Count(t, false, ONES) }

  /** A size that normalisation keeps although it can enlarge the tree: the clause count with every
      literal weighing two. */
  ghost function Rank(t: Expr): nat { Count(t, false, TWOS) }

  type Clause = seq<Literal>

  function Products(xs: set<Clause>, ys: set<Clause>): set<Clause> { set x <- xs, y <- ys :: x + y }

  /** The clauses of the disjunctive form of t, or of its negation, with their literals from left to right. */
  function ClausesOf(t: Expr, negated: bool): set<Clause> {
    match t
    case Test(a) => {[if negated then NegateAtom(a) else Literal(a, false)]}
    case Not(x) => ClausesOf(x, !negated)
    case And(x, y) =>
      if negated then ClausesOf(x, true) + ClausesOf(y, true) else Products(ClausesOf(x, false), ClausesOf(y, false))
    case Or(x, y) =>
      if negated then Products(ClausesOf(x, true), ClausesOf(y, true)) else ClausesOf(x, false) + ClausesOf(y, false)
  }

  predicate LiteralHolds(l: Literal, i: Interp) { i(l.atom) == if l.negated then False else True }

  predicate ClauseHolds(c: Clause, i: Interp) { forall l <- c :: LiteralHolds(l, i) }

  ghost predicate SomeHolds(cs: set<Clause>, i: Interp) { exists c <- cs :: ClauseHolds(c, i) }

  /** A condition is true exactly where one of its clauses holds, and false where one of its negation's does. */
  lemma {:induction false} TrueIffClauseHolds(t: Expr, i: Interp)
    requires Lawful(i)
    ensures Eval(t, i) == True <==> SomeHolds(ClausesOf(t, false), i)
    ensures Eval(t, i) == False <==> SomeHolds(ClausesOf(t, true), i)
  {
    match t
    case Test(a) =>
      OneLiteral(Literal(a, false), i);
      OneLiteral(NegateAtom(a), i);
    case Not(x) => TrueIffClauseHolds(x, i);
    case And(x, y) =>
      TrueIffClauseHolds(x, i);
      TrueIffClauseHolds(y, i);
      ProductsHold(ClausesOf(x, false), ClausesOf(y, false), i);
      UnionHolds(ClausesOf(x, true), ClausesOf(y, true), i);
    case Or(x, y) =>
      TrueIffClauseHolds(x, i);
      TrueIffClauseHolds(y, i);
      ProductsHold(ClausesOf(x, true), ClausesOf(y, true), i);
      UnionHolds(ClausesOf(x, false), ClausesOf(y, false), i);
  }

  lemma OneLiteral(l: Literal, i: Interp)
    ensures SomeHolds({[l]}, i) <==> LiteralHolds(l, i)
  {
    var c: Clause := [l];
    assert c in {c} && c[0] == l;
  }

  lemma UnionHolds(xs: set<Clause>, ys: set<Clause>, i: Interp)
    ensures SomeHolds(xs + ys, i) <==> SomeHolds(xs, i) || SomeHolds(ys, i)
  {}

  lemma ProductsHold(xs: set<Clause>, ys: set<Clause>, i: Interp)
    ensures SomeHolds(Products(xs, ys), i) <==> SomeHolds(xs, i) && SomeHolds(ys, i)
  {
    if SomeHolds(Products(xs, ys), i) {
      var c :| c in Products(xs, ys) && ClauseHolds(c, i);
      var x, y :| x in xs && y in ys && c == x + y;
      assert (forall l <- x :: l in c) && (forall l <- y :: l in c);
    }
    if SomeHolds(xs, i) && SomeHolds(ys, i) {
      var x :| x in xs && ClauseHolds(x, i);
      var y :| y in ys && ClauseHolds(y, i);
      assert x + y in Products(xs, ys);
    }
  }

  lemma ProductsDistribute(xs: set<Clause>, ys: set<Clause>, zs: set<Clause>)
    ensures Products(xs + ys, zs) == Products(xs, zs) + Products(ys, zs)
    ensures Products(zs, xs + ys) == Products(zs, xs) + Products(zs, ys)
  {}

  /** The same truth value under every interpretation, and the same clauses with the same multiplicities. */
  ghost predicate Equiv(s: Expr, t: Expr) {
    && ClausesOf(s, false) == ClausesOf(t, false)
    && (forall i: Interp :: Eval(s, i) == Eval(t, i))
    && (forall w: Weight :: Count(s, false, w) == Count(t, false, w))
  }

  lemma {:induction false} CountAtLeast(t: Expr, negated: bool, w: Weight, k: nat)
    requires k >= 1 && forall l :: w(l) >= k
    ensures Count(t, negated, w) >= k
  {
    match t
    case Test(a) =>
    case Not(x) => CountAtLeast(x, !negated, w, k);
    case And(x, y) =>
      CountAtLeast(x, negated, w, k);
      CountAtLeast(y, negated, w, k);
      ProductAtLeast(Count(x, negated, w), Count(y, negated, w), k);
    case Or(x, y) =>
      CountAtLeast(x, negated, w, k);
      CountAtLeast(y, negated, w, k);
      ProductAtLeast(Count(x, negated, w), Count(y, negated, w), k);
  }

  lemma ProductAtLeast(a: nat, b: nat, k: nat)
    requires a >= k && b >= k >= 1
    ensures a * b >= k
    ensures k >= 2 ==> a * b > a && a * b > b
  {
    assert a * b == a * (b - 1) + a;
    assert a * b == (a - 1) * b + b;
  }

  lemma ClausesPositive(t: Expr)
    ensures Clauses(t) >= 1
  {
    CountAtLeast(t, false, ONES, 1);
  }

  /** The rank drops strictly at every connective, so it is a termination measure on shared trees. */
  lemma RankDrops(x: Expr, y: Expr)
    ensures Rank(x) < Rank(And(x, y)) && Rank(y) < Rank(And(x, y))
    ensures Rank(x) < Rank(Or(x, y)) && Rank(y) < Rank(Or(x, y))
  {
    CountAtLeast(x, false, TWOS, 2);
    CountAtLeast(y, false, TWOS, 2);
    ProductAtLeast(Rank(x), Rank(y), 2);
  }

  lemma EquivRank(s: Expr, t: Expr)
    requires Equiv(s, t)
    ensures Rank(s) == Rank(t) && Clauses(s) == Clauses(t)
  {
    assert Count(s, false, TWOS) == Count(t, false, TWOS);
    assert Count(s, false, ONES) == Count(t, false, ONES);
  }

  // ----- Equivalence is a congruence, and conjunction distributes -----

  lemma EquivRefl(s: Expr)
    ensures Equiv(s, s)
  {}

  lemma EquivSym(s: Expr, t: Expr)
    requires Equiv(s, t)
    ensures Equiv(t, s)
  {}

  lemma EquivTrans(s: Expr, t: Expr, u: Expr)
    requires Equiv(s, t) && Equiv(t, u)
    ensures Equiv(s, u)
  {
    forall i: Interp ensures Eval(s, i) == Eval(u, i) { assert Eval(s, i) == Eval(t, i); }
    forall w: Weight ensures Count(s, false, w) == Count(u, false, w) {
      assert Count(s, false, w) == Count(t, false, w);
    }
  }

  lemma EquivPair(s: Expr, s': Expr, t: Expr, t': Expr)
    requires Equiv(s, s') && Equiv(t, t')
    ensures Equiv(And(s, t), And(s', t')) && Equiv(Or(s, t), Or(s', t'))
  {
    forall i: Interp
      ensures Eval(And(s, t), i) == Eval(And(s', t'), i) && Eval(Or(s, t), i) == Eval(Or(s', t'), i)
    {
      assert Eval(s, i) == Eval(s', i) && Eval(t, i) == Eval(t', i);
    }
    forall w: Weight
      ensures Count(And(s, t), false, w) == Count(And(s', t'), false, w)
      ensures Count(Or(s, t), false, w) == Count(Or(s', t'), false, w)
    {
      assert Count(s, false, w) == Count(s', false, w) && Count(t, false, w) == Count(t', false, w);
    }
  }

  lemma DistributeLeft(a: Expr, b: Expr, c: Expr)
    ensures Equiv(And(Or(a, b), c), Or(And(a, c), And(b, c)))
  {
    forall w: Weight
      ensures Count(And(Or(a, b), c), false, w) == Count(Or(And(a, c), And(b, c)), false, w)
    {
      Distributes(Count(a, false, w), Count(b, false, w), Count(c, false, w));
    }
    ProductsDistribute(ClausesOf(a, false), ClausesOf(b, false), ClausesOf(c, false));
  }

  lemma DistributeRight(a: Expr, b: Expr, c: Expr)
    ensures Equiv(And(c, Or(a, b)), Or(And(c, a), And(c, b)))
  {
    forall w: Weight
      ensures Count(And(c, Or(a, b)), false, w) == Count(Or(And(c, a), And(c, b)), false, w)
    {
      Distributes(Count(a, false, w), Count(b, false, w), Count(c, false, w));
    }
    ProductsDistribute(ClausesOf(a, false), ClausesOf(b, false), ClausesOf(c, false));
  }

  lemma Distributes(a: nat, b: nat, c: nat)
    ensures (a + b) * c == a * c + b * c
    ensures c * (a + b) == c * a + c * b
  {}

  lemma OrAssociates(a: Expr, b: Expr, c: Expr)
    ensures Equiv(Or(Or(a, b), c), Or(a, Or(b, c)))
  {
    forall w: Weight
      ensures Count(Or(Or(a, b), c), false, w) == Count(Or(a, Or(b, c)), false, w)
    {}
  }

  lemma OrCommutes(a: Expr, b: Expr)
    ensures Equiv(Or(a, b), Or(b, a))
  {
    forall w: Weight
      ensures Count(Or(a, b), false, w) == Count(Or(b, a), false, w)
    {}
  }
}
