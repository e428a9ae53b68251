/** What lp_apply_not computes, as a function on trees, and exactly when that is negation. */
module Negation {
  import opened Where

  predicate Odd(count: nat) { count % 2 == 1 }

  /** The tag at the root of a tree's node. */
  function RootTag(t: Expr): Tag {
    match t
    case Test(a) => a.tag
    case Not(_) => BooleanNot
    case And(_, _) => BooleanAnd
    case Or(_, _) => BooleanOr
  }

  /** The tree lp_apply_not leaves for `t` below `count` trimmed NOTs. A test without an opposite is
      left as it is, which is what the code does when its asserts are compiled out. */
  function Push(t: Expr, count: nat): Expr {
    match t
    case Not(x) => if RootTag(x).Exempt() then t else Push(x, count + 1)
    case Test(a) => if Odd(count) then Test(Flip(a)) else t
    case And(x, y) => if Odd(count) then Or(Push(x, count), Push(y, count)) else t
    case Or(x, y) => if Odd(count) then And(Push(x, count), Push(y, count)) else t
  }

  function Size(t: Expr): nat {
    match t
    case Test(_) => 1
    case Not(x) => 1 + Size(x)
    case And(x, y) => 1 + Size(x) + Size(y)
    case Or(x, y) => 1 + Size(x) + Size(y)
  }

  /** A NOT that comes out on top has an operand to stop at, and no tree grows. */
  lemma {:induction false} PushStops(t: Expr, count: nat)
    ensures var p := Push(t, count); p.Not? ==> RootTag(p.arg).Exempt()
    ensures Size(Push(t, count)) <= Size(t)
  {
    match t
    case Test(_) =>
    case Not(x) => PushStops(x, count + 1);
    case And(x, y) => PushStops(x, count); PushStops(y, count);
    case Or(x, y) => PushStops(x, count); PushStops(y, count);
  }

  /** A NOT over a comparison, an IN or a NOT IN disappears; one over a regex, an IS or a leaf stays; over
      anything else it is lost, which the code asserts against. */
  lemma NotOverTest(a: Atom)
    ensures var p := Push(Not(Test(a)), 0);
      match a.tag
      case Equals => p == Test(a.(tag := NotEquals))
      case NotEquals => p == Test(a.(tag := Equals))
      case LessThan => p == Test(a.(tag := GreaterThanOrEquals))
      case GreaterThan => p == Test(a.(tag := LessThanOrEquals))
      case LessThanOrEquals => p == Test(a.(tag := GreaterThan))
      case GreaterThanOrEquals => p == Test(a.(tag := LessThan))
      case In => p == Test(a.(tag := NotIn))
      case NotIn => p == Test(a.(tag := In))
      case RegexSensitive => p == Not(Test(a))
      case RegexInsensitive => p == Not(Test(a))
      case BooleanIs => p == Not(Test(a))
      case Leaf => p == Not(Test(a))
      case _ => p == Test(a)
  {}

  /** All NOTs pushed down, as the repeated calls of lp_apply_not during normalisation do. */
  function Pushed(t: Expr, odd: bool): Expr {
    match t
    case Not(x) => if RootTag(x).Exempt() then t else Pushed(x, !odd)
    case Test(a) => if odd then Test(Flip(a)) else t
    case And(x, y) => if odd then Or(Pushed(x, odd), Pushed(y, odd)) else And(Pushed(x, odd), Pushed(y, odd))
    case Or(x, y) => if odd then And(Pushed(x, odd), Pushed(y, odd)) else Or(Pushed(x, odd), Pushed(y, odd))
  }

  /** Pushing at the root first, as normalisation does before it descends, makes no difference. */
  lemma {:induction false} PushedAfterPush(t: Expr, count: nat)
    ensures Pushed(Push(t, count), false) == Pushed(t, Odd(count))
  {
    match t
    case Test(a) =>
    case Not(x) => if !RootTag(x).Exempt() { PushedAfterPush(x, count + 1); }
    case And(x, y) => if Odd(count) { PushedAfterPush(x, count); PushedAfterPush(y, count); }
    case Or(x, y) => if Odd(count) { PushedAfterPush(x, count); PushedAfterPush(y, count); }
  }

  /** No NOT is left except directly above an exempt operand. */
  predicate NotsAtLeaves(t: Expr) {
    match t
    case Test(_) => true
    case Not(x) => RootTag(x).Exempt()
    case And(x, y) => NotsAtLeaves(x) && NotsAtLeaves(y)
    case Or(x, y) => NotsAtLeaves(x) && NotsAtLeaves(y)
  }

  predicate OrFree(t: Expr) {
    match t
    case Test(_) => true
    case Not(x) => OrFree(x)
    case And(x, y) => OrFree(x) && OrFree(y)
    case Or(_, _) => false
  }

  /** Once the NOTs are at the leaves, the clause count tells whether an OR is left. */
  lemma {:induction false} OneClauseIffOrFree(t: Expr)
    requires NotsAtLeaves(t)
    ensures OrFree(t) <==> Clauses(t) == 1
  {
    match t
    case Test(_) =>
    case Not(x) => assert Count(x, true, ONES) == 1;
    case And(x, y) =>
      OneClauseIffOrFree(x);
      OneClauseIffOrFree(y);
      ClausesPositive(x);
      ClausesPositive(y);
      ProductIsOne(Clauses(x), Clauses(y));
    case Or(x, y) =>
      ClausesPositive(x);
      ClausesPositive(y);
  }

  lemma ProductIsOne(a: nat, b: nat)
    requires a >= 1 && b >= 1
    ensures a * b == 1 <==> a == 1 && b == 1
  {
    ProductAtLeast(a, b, 1);
    if a > 1 { assert a * b >= 2 * b; }
    if b > 1 { assert a * b >= a * 2; }
  }

  lemma {:induction false} PushedNotsAtLeaves(t: Expr, odd: bool)
    ensures NotsAtLeaves(Pushed(t, odd))
  {
    match t
    case Test(a) =>
    case Not(x) => if !RootTag(x).Exempt() { PushedNotsAtLeaves(x, !odd); }
    case And(x, y) => PushedNotsAtLeaves(x, odd); PushedNotsAtLeaves(y, odd);
    case Or(x, y) => PushedNotsAtLeaves(x, odd); PushedNotsAtLeaves(y, odd);
  }

  /** The trees negation pushing is meant for: below an odd number of NOTs stands no regex, IS, leaf
      or arithmetic operand, and no NOT over an exempt operand. */
  predicate Safe(t: Expr, odd: bool) {
    match t
    case Test(a) => odd ==> a.tag.Flippable()
    case Not(x) => if RootTag(x).Exempt() then !odd else Safe(x, !odd)
    case And(x, y) => Safe(x, odd) && Safe(y, odd)
    case Or(x, y) => Safe(x, odd) && Safe(y, odd)
  }

  /** The same for a single call, which does not descend below an even count. */
  predicate CallSafe(t: Expr, count: nat) {
    match t
    case Test(a) => Odd(count) ==> a.tag.Flippable()
    case Not(x) => if RootTag(x).Exempt() then !Odd(count) else CallSafe(x, count + 1)
    case And(x, y) => Odd(count) ==> CallSafe(x, count) && CallSafe(y, count)
    case Or(x, y) => Odd(count) ==> CallSafe(x, count) && CallSafe(y, count)
  }

  ghost function Wanted(t: Expr, odd: bool, i: Interp): Truth {
    if odd then Not3(Eval(t, i)) else Eval(t, i)
  }

  /** lp_apply_not(t, n) means t for even n and its negation for odd n. */
  lemma {:induction false} PushMeans(t: Expr, count: nat, i: Interp)
    requires Lawful(i) && CallSafe(t, count)
    ensures Eval(Push(t, count), i) == Wanted(t, Odd(count), i)
  {
    match t
    case Test(a) =>
    case Not(x) => if !RootTag(x).Exempt() { PushMeans(x, count + 1, i); }
    case And(x, y) => if Odd(count) { PushMeans(x, count, i); PushMeans(y, count, i); }
    case Or(x, y) => if Odd(count) { PushMeans(x, count, i); PushMeans(y, count, i); }
  }

  /** Full pushing keeps the meaning and the clauses of every safe tree. */
  lemma {:induction false} PushedMeans(t: Expr, odd: bool, i: Interp, w: Weight)
    requires Lawful(i) && Safe(t, odd)
    ensures Eval(Pushed(t, odd), i) == Wanted(t, odd, i)
    ensures Count(Pushed(t, odd), false, w) == Count(t, odd, w)
    ensures ClausesOf(Pushed(t, odd), false) == ClausesOf(t, odd)
  {
    match t
    case Test(a) =>
    case Not(x) => if !RootTag(x).Exempt() { PushedMeans(x, !odd, i, w); }
    case And(x, y) => PushedMeans(x, odd, i, w); PushedMeans(y, odd, i, w);
    case Or(x, y) => PushedMeans(x, odd, i, w); PushedMeans(y, odd, i, w);
  }

  // ----- The condition is exact -----

  predicate IsBase(a: Atom) {
    !(a.tag.NotEquals? || a.tag.GreaterThanOrEquals? || a.tag.LessThanOrEquals? || a.tag.NotIn?)
  }

  /** The member of a pair of opposite tests that stands for both. */
  function Base(a: Atom): Atom {
    if IsBase(a) then a else Flip(a)
  }

  function Bases(t: Expr): set<Atom> {
    match t
    case Test(a) => {Base(a)}
    case Not(x) => Bases(x)
    case And(x, y) => Bases(x) + Bases(y)
    case Or(x, y) => Bases(x) + Bases(y)
  }

  /** Every test occurs once (opposite tests count as one), so tests can be interpreted independently. */
  predicate ReadOnce(t: Expr) {
    match t
    case Test(_) => true
    case Not(x) => ReadOnce(x)
    case And(x, y) => ReadOnce(x) && ReadOnce(y) && Bases(x) !! Bases(y)
    case Or(x, y) => ReadOnce(x) && ReadOnce(y) && Bases(x) !! Bases(y)
  }

  ghost predicate Decides(v: Truth, b: bool) { v == if b then True else False }

  ghost function Uniform(v: bool): (i: Interp)
    ensures Lawful(i)
    ensures forall a :: Decides(i(a), IsBase(a) == v)
  {
    a => if IsBase(a) == v then True else False
  }

  ghost function Merge(s: set<Atom>, i: Interp, j: Interp): (k: Interp)
    requires Lawful(i) && Lawful(j)
    ensures Lawful(k)
  {
    a => if Base(a) in s then i(a) else j(a)
  }

  lemma {:induction false} EvalDependsOnBases(t: Expr, i: Interp, j: Interp)
    requires forall a | Base(a) in Bases(t) :: i(a) == j(a)
    ensures Eval(t, i) == Eval(t, j)
  {
    match t
    case Test(a) =>
    case Not(x) => EvalDependsOnBases(x, i, j);
    case And(x, y) => EvalDependsOnBases(x, i, j); EvalDependsOnBases(y, i, j);
    case Or(x, y) => EvalDependsOnBases(x, i, j); EvalDependsOnBases(y, i, j);
  }

  lemma {:induction false} PushedBases(t: Expr, odd: bool)
    ensures Bases(Pushed(t, odd)) == Bases(t)
  {
    match t
    case Test(a) =>
    case Not(x) => if !RootTag(x).Exempt() { PushedBases(x, !odd); }
    case And(x, y) => PushedBases(x, odd); PushedBases(y, odd);
    case Or(x, y) => PushedBases(x, odd); PushedBases(y, odd);
  }

  lemma MergedLeft(x: Expr, odd: bool, i: Interp, j: Interp)
    requires Lawful(i) && Lawful(j)
    ensures var k := Merge(Bases(x), i, j);
      Eval(x, k) == Eval(x, i) && Eval(Pushed(x, odd), k) == Eval(Pushed(x, odd), i)
  {
    PushedBases(x, odd);
    EvalDependsOnBases(x, Merge(Bases(x), i, j), i);
    EvalDependsOnBases(Pushed(x, odd), Merge(Bases(x), i, j), i);
  }

  lemma MergedRight(y: Expr, odd: bool, s: set<Atom>, i: Interp, j: Interp)
    requires Lawful(i) && Lawful(j) && s !! Bases(y)
    ensures var k := Merge(s, i, j);
      Eval(y, k) == Eval(y, j) && Eval(Pushed(y, odd), k) == Eval(Pushed(y, odd), j)
  {
    PushedBases(y, odd);
    EvalDependsOnBases(y, Merge(s, i, j), j);
    EvalDependsOnBases(Pushed(y, odd), Merge(s, i, j), j);
  }

  /** The truth value to ask of one operand so that the pair as a whole is `want` while a wrong
      operand shows: `conj` says that the pushed node is a conjunction. */
  function Ask(conj: bool, want: bool, safe: bool, otherSafe: bool): bool {
    if want == conj then want
    else if safe && !otherSafe then conj
    else want
  }

  ghost function Join(conj: bool, p: Truth, q: Truth): Truth { if conj then And3(p, q) else Or3(p, q) }

  lemma AskShows(conj: bool, want: bool, sx: bool, sy: bool, p: Truth, q: Truth, p': Truth, q': Truth)
    requires Decides(p, Ask(conj, want, sx, sy)) && Decides(p', Ask(conj, want, sx, sy) == sx)
    requires Decides(q, Ask(conj, want, sy, sx)) && Decides(q', Ask(conj, want, sy, sx) == sy)
    ensures Decides(Join(conj, p, q), want) && Decides(Join(conj, p', q'), want == (sx && sy))
  {}

  /** An interpretation under which a read-once tree is wanted to be `want`, and its pushed form is
      that if the tree is safe and the contrary if it is not. */
  lemma {:induction false} Witness(t: Expr, odd: bool, want: bool) returns (i: Interp)
    requires ReadOnce(t)
    ensures Lawful(i)
    ensures Decides(Wanted(t, odd, i), want)
    ensures Decides(Eval(Pushed(t, odd), i), want == Safe(t, odd))
    decreases Size(t), 0
  {
    match t
    case Test(a) =>
      i := Uniform((want != odd) == IsBase(a));
      assert Decides(i(a), want != odd);
    case Not(x) =>
      if RootTag(x).Exempt() {
        i := Uniform(want == odd);
        assert Eval(x, i) == i(x.atom);
      } else {
        i := Witness(x, !odd, want);
      }
    case And(x, y) => i := WitnessPair(x, y, odd, !odd, want);
    case Or(x, y) => i := WitnessPair(x, y, odd, odd, want);
  }

  lemma {:induction false} WitnessPair(x: Expr, y: Expr, odd: bool, conj: bool, want: bool) returns (k: Interp)
    requires ReadOnce(x) && ReadOnce(y) && Bases(x) !! Bases(y)
    ensures Lawful(k)
    ensures Decides(Join(conj, Wanted(x, odd, k), Wanted(y, odd, k)), want)
    ensures Decides(Join(conj, Eval(Pushed(x, odd), k), Eval(Pushed(y, odd), k)),
      want == (Safe(x, odd) && Safe(y, odd)))
    decreases Size(x) + Size(y), 1
  {
    hide Lawful, Eval, Pushed, Ask;
    var sx, sy := Safe(x, odd), Safe(y, odd);
    var i := Witness(x, odd, Ask(conj, want, sx, sy));
    var j := Witness(y, odd, Ask(conj, want, sy, sx));
    k := Merge(Bases(x), i, j);
    MergedLeft(x, odd, i, j);
    MergedRight(y, odd, Bases(x), i, j);
    AskShows(conj, want, sx, sy, Wanted(x, odd, i), Wanted(y, odd, j), Eval(Pushed(x, odd), i),
      Eval(Pushed(y, odd), j));
  }

  ghost predicate PushingNegates(t: Expr, odd: bool) {
    forall i: Interp | Lawful(i) :: Eval(Pushed(t, odd), i) == Wanted(t, odd, i)
  }

  /** On trees that mention each test once, pushing is negation exactly when the tree is safe. */
  lemma PushedMeansIffSafe(t: Expr, odd: bool)
    requires ReadOnce(t)
    ensures PushingNegates(t, odd) <==> Safe(t, odd)
  {
    if Safe(t, odd) {
      forall i: Interp | Lawful(i) ensures Eval(Pushed(t, odd), i) == Wanted(t, odd, i) {
        PushedMeans(t, odd, i, ONES);
      }
    } else {
      var i := Witness(t, odd, true);
      assert Eval(Pushed(t, odd), i) != Wanted(t, odd, i);
    }
  }

  /** Trees that differ in their tests' operands only. */
  predicate SameShape(s: Expr, t: Expr) {
    match (s, t)
    case (Test(a), Test(b)) => a.tag == b.tag
    case (Not(x), Not(x')) => SameShape(x, x')
    case (And(x, y), And(x', y')) => SameShape(x, x') && SameShape(y, y')
    case (Or(x, y), Or(x', y')) => SameShape(x, x') && SameShape(y, y')
    case _ => false
  }

  lemma {:induction false} ShapeDecidesSafe(s: Expr, t: Expr, odd: bool)
    requires SameShape(s, t)
    ensures Safe(s, odd) == Safe(t, odd) && RootTag(s) == RootTag(t)
  {
    match (s, t)
    case (Test(a), Test(b)) =>
    case (Not(x), Not(x')) => ShapeDecidesSafe(x, x', !odd);
    case (And(x, y), And(x', y')) => ShapeDecidesSafe(x, x', odd); ShapeDecidesSafe(y, y', odd);
    case (Or(x, y), Or(x', y')) => ShapeDecidesSafe(x, x', odd); ShapeDecidesSafe(y, y', odd);
  }

  /** The same shape with operands that are all different, numbered from k. */
  function Numbered(t: Expr, k: nat): Expr {
    match t
    case Test(a) => Test(Atom(a.tag, Computed(k), Computed(k)))
    case Not(x) => Not(Numbered(x, k))
    case And(x, y) => And(Numbered(x, k), Numbered(y, k + Size(x)))
    case Or(x, y) => Or(Numbered(x, k), Numbered(y, k + Size(x)))
  }

  lemma {:induction false} NumberedReadOnce(t: Expr, k: nat)
    ensures SameShape(t, Numbered(t, k)) && ReadOnce(Numbered(t, k))
    ensures forall a <- Bases(Numbered(t, k)) :: a.lhs.Computed? && k <= a.lhs.id < k + Size(t)
  {
    match t
    case Test(_) =>
    case Not(x) => NumberedReadOnce(x, k);
    case And(x, y) => NumberedReadOnce(x, k); NumberedReadOnce(y, k + Size(x));
    case Or(x, y) => NumberedReadOnce(x, k); NumberedReadOnce(y, k + Size(x));
  }

  /** The code's branches look at tags only. For a pattern of tags, pushing negates whatever the
      operands are if and only if the pattern is safe. */
  lemma PushingNegatesIffSafe(t: Expr, odd: bool)
    ensures (forall s | SameShape(t, s) :: PushingNegates(s, odd)) <==> Safe(t, odd)
  {
    if Safe(t, odd) {
      forall s | SameShape(t, s) ensures PushingNegates(s, odd) {
        ShapeDecidesSafe(t, s, odd);
        forall i: Interp | Lawful(i) ensures Eval(Pushed(s, odd), i) == Wanted(s, odd, i) {
          PushedMeans(s, odd, i, ONES);
        }
      }
    } else {
      var s := Numbered(t, 0);
      NumberedReadOnce(t, 0);
      ShapeDecidesSafe(t, s, odd);
      PushedMeansIffSafe(s, odd);
    }
  }

  /** A double negation over a regex comes out as a single one. */
  lemma DoubleNegatedRegexIsLost(lhs: Operand, rhs: Operand)
    ensures var r := Test(Atom(RegexSensitive, lhs, rhs));
      Push(Not(Not(r)), 0) == Not(r) && !Safe(Not(Not(r)), false)
  {}
}
