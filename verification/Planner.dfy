/** optimize_logical_plan: normalises a plan's WHERE, splits it into a UNION ALL of plans at every
    OR, and fixes the keys of every piece. */
module Planner {
  import opened Where
  import opened Negation
  import opened NormalForm
  import opened Enumeration
  import opened KeyFix
  import opened FixedKeys
  import opened AccessPath

  /** A plan without a WHERE accepts every row, as if it said 1. */
  const ALWAYS: Expr := Test(Atom(Leaf, Constant(Val(1)), Constant(Val(1))))

  ghost function WhereExpr(n: LogicalPlan?, lab: Labels): Expr {
    if n == null || n !in lab then ALWAYS else lab[n]
  }

  /** What all pieces of a plan share: its FROM list and the key columns of the tables in it. */
  datatype From = From(w: Schema, joins: seq<Join>) {
    ghost predicate Valid() {
      && w.Keys == (set j <- joins :: j.alias)
      && (forall i | 0 <= i < |joins| :: !joins[i].indexed && joins[i].width == w[joins[i].alias] >= 1)
      && (forall i, j | 0 <= i < j < |joins| :: joins[i].alias != joins[j].alias)
    }

    ghost function Keys(): seq<Key> { Flatten(Scans(joins)) }

    ghost function Order(): Order { OrderOf(Keys()) }

    /** Scanning every table. */
    ghost function Start(): Access { Access(Keys(), joins) }

    /** The access path that the pass makes for a clause. */
    ghost function PathFor(ls: Clause): Access
      requires Valid()
    {
      FixClause(Order(), Start(), ls)
    }

    /** The access path for the clause sets every key column of every table, each from what is set before. */
    ghost predicate Harmless(ls: Clause)
      requires Valid()
    {
      Runnable(w, PathFor(ls).keys)
    }
  }

  // ----- Trees of plans -----

  /** A UNION ALL tree of plans, with the WHERE and the key objects of each leaf. */
  datatype Shape = One(plan: Plan, where: LogicalPlan?, keys: set<SqlKey>) | Union(plan: Plan, left: Shape,
    right: Shape)
  {
    ghost function Plans(): set<Plan> {
      if One? then {plan} else {plan} + left.Plans() + right.Plans()
    }

    ghost function Keys(): set<SqlKey> {
      if One? then keys else left.Keys() + right.Keys()
    }

    /** No two leaves share a plan or a key object. */
    ghost predicate Separate() {
      Union? ==>
        && plan !in left.Plans() + right.Plans() && left.Plans() !! right.Plans() && left.Keys() !! right.Keys()
        && left.Separate() && right.Separate()
    }

    ghost function Leaves(): (ls: seq<Shape>)
      ensures forall l <- ls :: l.One? && l.plan in Plans() && l.keys <= Keys()
    {
      if One? then [this] else left.Leaves() + right.Leaves()
    }

    ghost function First(): (f: Shape)
      ensures f.One? && f in Leaves()
    {
      if One? then this else left.First()
    }

    /** The heap links the plans like this. */
    ghost predicate Wired()
      reads Plans()`union, Plans()`left, Plans()`right
    {
      if One? then !plan.union
      else plan.union && plan.left == left.plan && plan.right == right.plan && left.Wired() && right.Wired()
    }

    /** The leaves have these WHEREs, except that of a plan in `open`, which may still be another one. */
    ghost predicate Wheres(open: set<Plan>)
      reads Plans()`where
    {
      forall l <- Leaves() :: l.plan in open || l.plan.where == l.where
    }

    /** The leaves own these key objects. */
    ghost predicate Owns()
      reads Plans()`keys, Plans()`joins
    {
      forall l <- Leaves() :: l.plan.Valid() && forall k <- l.plan.keys :: k in l.keys
    }

    /** Every leaf scans the whole FROM list. */
    ghost predicate Scanning(from: From)
      requires Owns()
      reads Plans()`keys, Plans()`joins, Keys()
    {
      forall l <- Leaves() :: l.plan.joins == from.joins && Views(l.plan.keys) == from.Keys()
    }

    /** Every leaf writes to the same output key and carries the keyword that makes it skip rows that
        another leaf has put out. */
    ghost predicate Marked(output: nat)
      reads Plans()`expansion
    {
      forall l <- Leaves() :: l.plan.output == output && l.plan.expansion
    }

    ghost predicate InLab(lab: Labels) {
      forall l <- Leaves() :: l.where != null && l.where in lab
    }

    /** The disjunction of all leaves. */
    ghost function Disjunction(lab: Labels): Expr {
      if One? then WhereExpr(where, lab) else Or(left.Disjunction(lab), right.Disjunction(lab))
    }

    /** The same tree with another WHERE at its first leaf. */
    ghost function Moved(w: LogicalPlan): Shape {
      if One? then One(plan, w, keys) else Union(plan, left.Moved(w), right)
    }
  }

  lemma {:induction false} MovedShape(sh: Shape, w: LogicalPlan)
    ensures var m := sh.Moved(w);
      && m.Plans() == sh.Plans() && m.Keys() == sh.Keys() && (sh.Separate() ==> m.Separate()) && m.plan == sh.plan
      && m.First() == sh.First().(where := w) && m.Leaves() == [m.First()] + sh.Leaves()[1..]
        && sh.Leaves()[0] == sh.First()
  {
    if sh.Union? { MovedShape(sh.left, w); }
  }

  lemma {:induction false} MovedLinked(sh: Shape, w: LogicalPlan)
    requires sh.Wired()
    ensures sh.Moved(w).Wired()
  {
    MovedShape(sh, w);
    if sh.Union? { MovedShape(sh.left, w); MovedLinked(sh.left, w); }
  }

  /** Only the first leaf stands at the first leaf's plan. */
  lemma {:induction false} FirstIsAlone(sh: Shape)
    requires sh.Separate()
    ensures sh.Leaves() != [] && sh.Leaves()[0] == sh.First()
    ensures forall i | 0 < i < |sh.Leaves()| :: sh.Leaves()[i].plan != sh.First().plan
  {
    if sh.Union? {
      FirstIsAlone(sh.left);
      forall i | 0 < i < |sh.Leaves()| ensures sh.Leaves()[i].plan != sh.First().plan {
        if i >= |sh.left.Leaves()| { assert sh.Leaves()[i] in sh.right.Leaves(); }
      }
    }
  }

  /** Moving the first leaf from an OR to its second operand leaves the first operand to be added. */
  lemma {:induction false} MovedMeans(sh: Shape, lab: Labels)
    requires sh.InLab(lab) && Consistent(lab) && sh.First().where in lab && sh.First().where.tag == BooleanOr
    ensures var n := sh.First().where;
      NodeOk(n, lab) && Equiv(sh.Disjunction(lab), Or(sh.Moved(n.right).Disjunction(lab), lab[n.left]))
  {
    hide Equiv, Consistent;
    var n := sh.First().where;
    Ok(n, lab);
    var l, r := lab[n.left], lab[n.right];
    match sh
    case One(_, _, _) =>
      OrCommutes(l, r);
      EquivTrans(lab[n], Or(l, r), Or(r, l));
    case Union(_, x, y) =>
      MovedMeans(x, lab);
      var m, d := x.Moved(n.right).Disjunction(lab), y.Disjunction(lab);
      EquivRefl(d);
      EquivPair(x.Disjunction(lab), Or(m, l), d, d);
      OrSwaps(m, l, d);
      EquivTrans(Or(x.Disjunction(lab), d), Or(Or(m, l), d), Or(Or(m, d), l));
  }

  lemma OrSwaps(a: Expr, b: Expr, c: Expr)
    ensures Equiv(Or(Or(a, b), c), Or(Or(a, c), b))
  {
    forall w: Weight
      ensures Count(Or(Or(a, b), c), false, w) == Count(Or(Or(a, c), b), false, w)
    {}
  }

  // ----- Splitting -----

  /** lp_copy_plan and lp_copy_key: a new plan with new key objects. The copy of the WHERE is left to
      the caller, who overwrites it. */
  method CopyPlan(plan: Plan) returns (p: Plan)
    requires !plan.union && plan.Valid()
    ensures fresh(p) && !p.union && p.Valid() && (forall k <- p.keys :: fresh(k))
    ensures p.joins == plan.joins && p.expansion == plan.expansion && p.output == plan.output
    ensures Views(p.keys) == Views(plan.keys)
  {
    p := new Plan(plan.output);
    p.joins, p.expansion := plan.joins, plan.expansion;
    var i := 0;
    while i < |plan.keys|
      invariant 0 <= i <= |plan.keys| && DistinctKeys(p.keys) && forall k <- p.keys :: fresh(k)
      invariant Views(p.keys) == Views(plan.keys)[..i]
      invariant !p.union && p.joins == plan.joins && p.expansion == plan.expansion
    {
      var key := new SqlKey(plan.keys[i].View());
      ViewsConcat(p.keys, [key]);
      p.keys := p.keys + [key];
      i := i + 1;
    }
  }

  /** lp_join_plans. */
  method JoinPlans(a: Plan?, b: Plan?) returns (u: Plan?)
    ensures a == null ==> u == b
    ensures b == null ==> u == a
    ensures a != null && b != null ==> u != null && fresh(u) && u.union && u.left == a && u.right == b
  {
    if a == null { return b; }
    if b == null { return a; }
    var joined := new Plan(a.output);
    joined.union, joined.left, joined.right := true, a, b;
    u := joined;
  }

  /** A tree that is being split off from a plan: only that plan's own WHERE is not yet set. */
  ghost predicate Splitting(sh: Shape, open: set<Plan>, lab: Labels, from: From)
    reads sh.Plans()`union, sh.Plans()`left, sh.Plans()`right, sh.Plans()`where, sh.Plans()`keys, sh.Plans()`joins,
      sh.Keys()
  {
    sh.Separate() && sh.Wired() && sh.Wheres(open) && sh.Owns() && sh.Scanning(from) && sh.InLab(lab)
  }

  lemma {:induction false} FirstLinked(sh: Shape)
    requires sh.Wired()
    ensures !sh.First().plan.union
  {
    if sh.Union? { FirstLinked(sh.left); }
  }

  lemma {:induction false} ShapeAllocated(sh: Shape)
    ensures (forall p <- sh.Plans() :: allocated(p)) && (forall k <- sh.Keys() :: allocated(k))
  {
    if sh.Union? { ShapeAllocated(sh.left); ShapeAllocated(sh.right); }
  }

  lemma MovedSplitting(sh: Shape, w: LogicalPlan, lab: Labels, from: From)
    requires Splitting(sh, {sh.First().plan}, lab, from) && w in lab
    ensures var m := sh.Moved(w);
      && Splitting(m, {sh.First().plan}, lab, from) && m.First() == sh.First().(where := w) && m.plan == sh.plan
      && m.Plans() == sh.Plans() && m.Keys() == sh.Keys()
      && forall l <- m.Leaves() :: l == m.First() || l in sh.Leaves()
  {
    hide Shape.Leaves, Shape.First, Shape.Moved, Shape.Plans, Shape.Keys, Shape.Wired, Shape.Separate;
    MovedShape(sh, w);
    MovedLinked(sh, w);
    var m := sh.Moved(w);
    forall l <- m.Leaves() ensures l == m.First() || l in sh.Leaves() {
      var i :| 0 <= i < |m.Leaves()| && m.Leaves()[i] == l;
      if i > 0 { assert l == sh.Leaves()[i]; }
    }
    assert sh.First() in sh.Leaves();
  }

  lemma LeafSplitting(p: Plan, w: LogicalPlan, open: set<Plan>, lab: Labels, from: From) returns (leaf: Shape)
    requires !p.union && p.Valid() && p.where == w && w in lab && p.joins == from.joins && Views(p.keys) == from.Keys()
    ensures leaf == One(p, w, set k <- p.keys) && Splitting(leaf, open, lab, from)
  {
    leaf := One(p, w, set k <- p.keys);
  }

  lemma JoinSplitting(u: Plan, m: Shape, leaf: Shape, open: set<Plan>, lab: Labels, from: From)
    requires Splitting(m, open, lab, from) && leaf.One? && Splitting(leaf, open, lab, from)
    requires u.union && u.left == m.plan && u.right == leaf.plan
    requires u !in m.Plans() && u != leaf.plan && leaf.plan !in m.Plans() && leaf.keys !! m.Keys()
    ensures var sh := Union(u, m, leaf);
      && Splitting(sh, open, lab, from) && sh.First() == m.First() && sh.Plans() == {u, leaf.plan} + m.Plans()
        && sh.Keys() == leaf.keys + m.Keys()
      && sh.Disjunction(lab) == Or(m.Disjunction(lab), WhereExpr(leaf.where, lab))
  {
    var sh := Union(u, m, leaf);
    assert forall l <- sh.Leaves() :: l in m.Leaves() || l == leaf;
  }

  lemma MovedMarked(sh: Shape, w: LogicalPlan, output: nat)
    requires sh.Union? ==> sh.Marked(output)
    requires sh.First().plan.output == output && sh.First().plan.expansion
    ensures sh.Moved(w).Marked(output)
  {
    MovedShape(sh, w);
    var m := sh.Moved(w);
    forall l <- m.Leaves() ensures l.plan.output == output && l.plan.expansion {
      var i :| 0 <= i < |m.Leaves()| && m.Leaves()[i] == l;
      if i > 0 { assert l == sh.Leaves()[i]; }
    }
  }

  lemma JoinMarked(u: Plan, m: Shape, leaf: Shape, output: nat)
    requires leaf.One? && m.Marked(output) && leaf.plan.output == output && leaf.plan.expansion
    ensures Union(u, m, leaf).Marked(output)
  {
    assert forall l <- Union(u, m, leaf).Leaves() :: l in m.Leaves() || l == leaf;
  }

  /** All objects of sh' are old ones of sh or new ones. */
  twostate predicate NewOrOf(sh: Shape, new sh': Shape) {
    && (forall p <- sh'.Plans() :: p in sh.Plans() || fresh(p))
    && (forall k <- sh'.Keys() :: k in sh.Keys() || fresh(k))
  }

  /** A copy of the plan, for one clause, joined to the plans split off so far. */
  method TakeCopy(plan: Plan, newPlan: Plan, w: LogicalPlan, ghost m: Shape, ghost lab: Labels, ghost from: From)
    returns (newPlan': Plan, ghost sh': Shape)
    requires m.plan == newPlan && m.First().plan == plan && Splitting(m, {plan}, lab, from) && m.Marked(plan.output)
    requires w in lab
    ensures sh'.Union? && sh'.plan == newPlan' && sh'.First() == m.First()
    ensures Splitting(sh', {plan}, lab, from) && sh'.Marked(plan.output)
    ensures sh'.Disjunction(lab) == Or(m.Disjunction(lab), lab[w])
    ensures NewOrOf(m, sh') && fresh(newPlan')
  {
    hide Shape.Leaves, Shape.First, Shape.Plans, Shape.Keys, Shape.Wired, Shape.Separate, Shape.Disjunction, Splitting,
      From.Keys, Shape.Marked;
    FirstReady(m, lab, from, plan.output);
    ShapeAllocated(m);
    var p := CopyPlan(plan);
    p.where := w;
    newPlan' := JoinPlans(newPlan, p);
    ghost var leaf := LeafSplitting(p, w, {plan}, lab, from);
    JoinSplitting(newPlan', m, leaf, {plan}, lab, from);
    JoinMarked(newPlan', m, leaf, plan.output);
    sh' := Union(newPlan', m, leaf);
  }

  lemma FirstReady(m: Shape, lab: Labels, from: From, output: nat)
    requires Splitting(m, {m.First().plan}, lab, from) && m.Marked(output)
    ensures var p := m.First().plan;
      !p.union && p.Valid() && p.joins == from.joins && Views(p.keys) == from.Keys() && p.output == output
        && p.expansion
  {
    hide Shape.Leaves, Shape.First, Shape.Plans, Shape.Keys, Shape.Wired, Shape.Separate;
    FirstLinked(m);
    assert m.First() in m.Leaves();
  }

  /** One round of the loop: a copy of the plan takes the first operand of the OR. */
  method SplitOff(plan: Plan, newPlan: Plan, cur: LogicalPlan, ghost sh: Shape, ghost lab: Labels, ghost from: From)
    returns (newPlan': Plan, ghost sh': Shape)
    requires sh.plan == newPlan && sh.First().plan == plan && sh.First().where == cur
    requires Splitting(sh, {plan}, lab, from)
    requires sh.Union? ==> sh.Marked(plan.output)
    requires Consistent(lab) && cur in lab && cur.tag == BooleanOr
    modifies plan`expansion
    ensures sh'.Union? && sh'.plan == newPlan' && sh'.First().plan == plan && sh'.First().where == cur.right
    ensures cur.right in lab
    ensures Splitting(sh', {plan}, lab, from) && sh'.Marked(plan.output)
    ensures Equiv(sh.Disjunction(lab), sh'.Disjunction(lab))
    ensures NewOrOf(sh, sh') && fresh(newPlan')
  {
    hide Equiv, Consistent, Shape.Leaves, Shape.First, Shape.Moved, Shape.Plans, Shape.Keys, Shape.Wired,
      Shape.Separate, Shape.Disjunction;
    plan.expansion := true;
    MovedMeans(sh, lab);
    MovedSplitting(sh, cur.right, lab, from);
    MovedMarked(sh, cur.right, plan.output);
    ghost var m := sh.Moved(cur.right);
    newPlan', sh' := TakeCopy(plan, newPlan, cur.left, m, lab, from);
  }

  /** The loop of optimize_logical_plan over the chain of ORs. */
  method Split(plan: Plan, ghost one: Shape, ghost lab: Labels, ghost from: From)
    returns (newPlan: Plan, ghost sh: Shape)
    requires one.One? && one.plan == plan && Splitting(one, {}, lab, from) && Consistent(lab)
    modifies plan`expansion, plan`where
    ensures sh.plan == newPlan && Splitting(sh, {}, lab, from) && Equiv(one.Disjunction(lab), sh.Disjunction(lab))
    ensures if newPlan == plan
      then sh == one && plan.where == one.where && plan.where.tag != BooleanOr && plan.expansion == old(plan.expansion)
            else sh.Union? && sh.Marked(plan.output)
    ensures NewOrOf(one, sh)
  {
    hide Equiv, Consistent, Rank, Shape.Leaves, Shape.First, Shape.Plans, Shape.Keys, Shape.Wired, Shape.Separate,
      Shape.Disjunction;
    newPlan, sh := plan, one;
    OneLeaf(one);
    var cur := plan.where;
    EquivRefl(one.Disjunction(lab));
    while cur.tag == BooleanOr
      invariant cur in lab && Consistent(lab)
      invariant sh.plan == newPlan && sh.First().plan == plan && sh.First().where == cur
      invariant Splitting(sh, {plan}, lab, from)
      invariant if newPlan == plan then sh == one && cur == one.where && plan.expansion == old(plan.expansion)
                else sh.Union? && sh.Marked(plan.output)
      invariant Equiv(one.Disjunction(lab), sh.Disjunction(lab))
      invariant NewOrOf(one, sh)
      decreases Rank(lab[cur])
    {
      Ok(cur, lab);
      OperandRanks(cur, lab);
      ghost var before := sh;
      newPlan, sh := SplitOff(plan, newPlan, cur, sh, lab, from);
      EquivTrans(one.Disjunction(lab), before.Disjunction(lab), sh.Disjunction(lab));
      cur := cur.right;
    }
    plan.where := cur;
    FirstIsAlone(sh);
    forall l <- sh.Leaves() ensures l.plan.where == l.where {
      var i :| 0 <= i < |sh.Leaves()| && sh.Leaves()[i] == l;
    }
  }

  lemma OneLeaf(sh: Shape)
    requires sh.One?
    ensures sh.Leaves() == [sh] && sh.First() == sh && sh.Plans() == {sh.plan} && sh.Keys() == sh.keys
  {}

  // ----- A leaf -----

  /** The condition is one clause, and the access path is the one for it. */
  ghost predicate OneClause(from: From, st: Access, e: Expr) {
    from.Valid() && exists ls :: ClausesOf(e, false) == {ls} && st == from.PathFor(ls)
  }

  /** Every clause of the condition has a harmless access path. */
  ghost predicate AllHarmless(from: From, e: Expr)
    requires from.Valid()
  {
    forall ls <- ClausesOf(e, false) :: from.Harmless(ls)
  }

  /** Tests that the pass does not use do no harm: other comparisons, equalities with computed operands,
      and equalities between columns without keys. */
  lemma UnusedIsHarmless(from: From, ls: Clause)
    requires from.Valid()
    requires forall l <- ls ::
      !l.negated && l.atom.tag.Equals? ==> !ValidForKeyFix(from.Keys(), l.atom.lhs, l.atom.rhs)
    ensures from.Harmless(ls)
  {
    hide Flatten, Lined, Ordered, Runnable, Laid, ValidForKeyFix, FixClause;
    UnusedKeeps(from.Order(), from.Start(), ls);
    ScanningLaid(from, ALWAYS);
    ScansOrdered(from, 0, {});
    var bs := Scans(from.joins);
    assert bs[0..] == bs;
    RunnableIff(from.w, from.Start(), bs);
  }

  lemma {:induction false} UnusedKeeps(order: Order, st: Access, ls: Clause)
    requires forall j <- st.joins :: j.width >= 1
    requires forall l <- ls :: !l.negated && l.atom.tag.Equals? ==> !ValidForKeyFix(st.keys, l.atom.lhs, l.atom.rhs)
    ensures FixClause(order, st, ls) == st
    decreases |ls|
  {
    hide ValidForKeyFix;
    if ls != [] { UnusedKeeps(order, st, ls[1..]); }
  }

  lemma {:induction false} ScansOrdered(from: From, i: nat, done: set<nat>)
    requires from.Valid() && i <= |from.joins| && done == set j | 0 <= j < i :: from.joins[j].alias
    ensures Lined(from.w, Scans(from.joins)[i..], done) && Ordered(from.w, Scans(from.joins)[i..], done)
    decreases |from.joins| - i
  {
    if i < |from.joins| {
      var bs := Scans(from.joins)[i..];
      assert from.joins[i] in from.joins;
      assert bs[0] == Scan(from.joins[i].alias, Free(from.joins[i].width)) && bs[1..] == Scans(from.joins)[i + 1..];
      ScansOrdered(from, i + 1, done + {from.joins[i].alias});
    }
  }

  lemma ScanAliases(from: From)
    requires from.Valid()
    ensures Aliases(Scans(from.joins)) == from.w.Keys && forall j <- from.joins :: j.alias in from.w
  {
    var bs := Scans(from.joins);
    forall a <- from.w.Keys ensures a in Aliases(bs) {
      var i :| 0 <= i < |from.joins| && from.joins[i].alias == a;
      assert bs[i] in bs;
    }
    forall b <- bs ensures b.alias in from.w {
      var i :| 0 <= i < |bs| && bs[i] == b;
      assert from.joins[i] in from.joins;
    }
  }

  lemma ScanningLaid(from: From, e: Expr)
    requires from.Valid()
    ensures Laid(from.w, from.Start(), Scans(from.joins)) && Backed(Scans(from.joins), e)
  {
    hide Flatten, Lined, Ordered, Aliases, Implied, From.Valid;
    var bs := Scans(from.joins);
    ScansOrdered(from, 0, {});
    assert bs[0..] == bs;
    ScanAliases(from);
    ScansAt(from);
  }

  lemma ScansAt(from: From)
    requires from.Valid()
    ensures |Scans(from.joins)| == |from.joins|
    ensures forall i | 0 <= i < |from.joins| ::
      && Scans(from.joins)[i] == Scan(from.joins[i].alias, Free(from.joins[i].width))
      && !from.joins[i].indexed && from.joins[i].alias in from.w && from.w[from.joins[i].alias] == from.joins[i].width
    ensures forall a <- from.w.Keys :: from.w[a] >= 1
  {
    assert forall i | 0 <= i < |from.joins| :: from.joins[i] in from.joins;
  }

  lemma ScanningCovers(from: From)
    requires from.Valid()
    ensures Covers(from.Start())
  {
    hide Flatten, Lined;
    ScanningLaid(from, ALWAYS);
    var bs := Scans(from.joins);
    forall j <- from.joins ensures j.width >= 1 && HasKey(from.Keys(), j.alias) {
      var i :| 0 <= i < |from.joins| && from.joins[i] == j;
      FlattenAround(bs, i);
      BlockKeysAt(bs[i]);
      assert from.Keys()[|Flatten(bs[..i])|].alias == j.alias;
    }
  }

  /** One clause, so no OR: the assert of the key-fixing pass holds. */
  lemma LeafHasNoOr(n: LogicalPlan, lab: Labels)
    requires Consistent(lab) && n in lab && Clauses(lab[n]) == 1
    ensures OrFree(Unfold(n, lab)) && n.tag != BooleanOr
  {
    hide Equiv, Consistent;
    UnfoldMeans(n, lab);
    EquivRank(lab[n], Unfold(n, lab));
    OneClauseIffOrFree(Unfold(n, lab));
    UnfoldTag(n, lab);
  }

  lemma UnfoldTag(n: LogicalPlan, lab: Labels)
    requires Consistent(lab) && n in lab
    ensures n.tag == BooleanOr ==> Unfold(n, lab).Or?
  {}

  lemma StartStands(from: From, e: Expr)
    requires from.Valid()
    ensures Stands(from.w, from.Order(), from.Start(), e) && forall j <- from.joins :: j.width >= 1
    ensures from.Start().joins == from.joins
  {
    ScansAt(from);
    hide Laid, Backed, Flatten, OrderOf, OrderFits;
    ScanningLaid(from, e);
    OrderOfFits(from.w, from.Start(), Scans(from.joins));
  }

  /** The pass takes a one-clause condition for what it is. */
  lemma LeafFixed(from: From, n: LogicalPlan, lab: Labels)
    requires from.Valid() && Consistent(lab) && n in lab && Clauses(lab[n]) == 1
    ensures LeafFinished(FixTree(from.Order(), from.Start(), Unfold(n, lab)), n, lab, from)
  {
    FixTreeTables(from.Order(), from.Start(), Unfold(n, lab));
    hide Consistent, Stands, FixTree, FixClause, Unfold, Clauses, Conjuncts, OrFree, NotsAtLeaves, From.Valid, OrderOf;
    var e, t, order := lab[n], Unfold(n, lab), from.Order();
    LeafHasNoOr(n, lab);
    UnfoldMeans(n, lab);
    StartStands(from, e);
    var ls := TreeIsClause(order, from.Start(), t);
    forall l <- ls | !l.negated ensures Entails(e, l.atom) {
      forall i: Interp | Eval(e, i) == True ensures i(l.atom) == True { ConjunctsHold(t, i); }
    }
    PassKeeps(from.w, order, from.Start(), ls, e);
  }

  // ----- The whole function -----

  /** Optimisation is called with the parser's WHERE, and then with the pieces it has split it into. */
  datatype Source = Parsed(g: Given) | Pieces(lab: Labels)
  {
    ghost function Region(): set<LogicalPlan> { if Parsed? then g.Region() else lab.Keys }

    /** The condition of a plan tree before this call. */
    ghost function Condition(sh: Shape): Expr {
      if Pieces? then sh.Disjunction(lab) else if g.Tree? then Pushed(g.o.Tree(), false) else ALWAYS
    }
  }

  ghost predicate Ready(sh: Shape, src: Source, from: From)
    reads sh.Plans()`union, sh.Plans()`left, sh.Plans()`right, sh.Plans()`where, sh.Plans()`keys, sh.Plans()`joins,
      sh.Keys(), src.Region()
  {
    match src
    case Pieces(lab) => Splitting(sh, {}, lab, from) && Consistent(lab)
    case Parsed(g) =>
      && sh.One? && !sh.plan.union && sh.plan.where == sh.where && sh.plan.keys == [] && sh.plan.joins == from.joins
      && !g.Graph? && g.Fits(sh.where)
  }

  /** Every leaf has a condition of one clause, and the keys for it. */
  ghost predicate Finished(sh: Shape, lab: Labels, from: From)
    reads sh.Plans()`union, sh.Plans()`left, sh.Plans()`right, sh.Plans()`where, sh.Plans()`keys, sh.Plans()`joins,
      sh.Keys()
  {
    && sh.Separate() && sh.Wired() && sh.Wheres({}) && sh.Owns()
    && forall l <- sh.Leaves() :: LeafFinished(Access(Views(l.plan.keys), l.plan.joins), l.where, lab, from)
  }

  ghost predicate LeafFinished(st: Access, where: LogicalPlan?, lab: Labels, from: From) {
    && (where != null ==> where in lab)
    && Clauses(WhereExpr(where, lab)) == 1 && OneClause(from, st, WhereExpr(where, lab))
    && Stands(from.w, from.Order(), st, WhereExpr(where, lab)) && SameTables(from.joins, st.joins)
  }

  /** A plan that scans its FROM list and has these key objects. */
  ghost predicate ScanningPlan(plan: Plan, keys: set<SqlKey>, from: From)
    reads plan`union, plan`keys, plan`joins, keys
  {
    && !plan.union && plan.Valid() && plan.joins == from.joins
    && (forall k <- plan.keys :: k in keys) && Views(plan.keys) == from.Keys()
  }

  /** The keys of a plan that was not split any more. */
  method FinishLeaf(plan: Plan, ghost keys: set<SqlKey>, ghost lab: Labels, ghost from: From) returns (ghost sh: Shape)
    requires ScanningPlan(plan, keys, from) && from.Valid() && Consistent(lab)
    requires plan.where != null
      ==> plan.where in lab && plan.where.tag != BooleanOr && Normal(plan.where, lab[plan.where])
    modifies plan`keys, plan`joins, keys
    ensures sh.One? && sh.plan == plan && sh.where == plan.where && Finished(sh, lab, from)
    ensures sh.Disjunction(lab) == WhereExpr(plan.where, lab)
    ensures forall k <- sh.keys :: k in keys || fresh(k)
  {
    hide Consistent, Flatten, Clauses, Unfold, FixTree, Covers, LeafFinished, OrderOf;
    ScanningCovers(from);
    if plan.where != null {
      LeafHasNoOr(plan.where, lab);
      LeafFixed(from, plan.where, lab);
    } else {
      ScanningFinished(from, lab);
    }
    OptimizeWhere(plan, lab);
    sh := One(plan, plan.where, set k <- plan.keys);
  }

  lemma ScanningFinished(from: From, lab: Labels)
    requires from.Valid()
    ensures LeafFinished(from.Start(), null, lab, from)
  {
    StartStands(from, ALWAYS);
    var ls := [Literal(ALWAYS.atom, false)];
    UnusedKeeps(from.Order(), from.Start(), ls);
    hide Stands, From.Valid, From.Order, From.Start, FixClause;
    assert ClausesOf(ALWAYS, false) == {ls};
    assert OneClause(from, from.Start(), ALWAYS);
  }

  /** The keys of the FROM list are joined if there are none yet. */
  method JoinKeys(plan: Plan, ghost sh: Shape, ghost src: Source, ghost from: From) returns (ghost keys: set<SqlKey>)
    requires sh.One? && sh.plan == plan && Ready(sh, src, from) && from.Valid()
    modifies plan`keys
    ensures ScanningPlan(plan, keys, from) && forall k <- keys :: k in sh.keys || fresh(k)
  {
    hide Consistent, Flatten, Given.Fits;
    OneLeaf(sh);
    if plan.keys == [] {
      JoinTables(plan, 0);
      assert Scans(plan.joins)[0..] == Scans(plan.joins) && Views(plan.keys) == from.Keys();
    }
    keys := sh.keys + set k <- plan.keys;
  }

  /** The first part of optimize_logical_plan: the keys are joined and the WHERE is normalised. */
  method Normalize(plan: Plan, ghost sh: Shape, ghost src: Source, ghost from: From)
    returns (ghost keys: set<SqlKey>, ghost lab: Labels)
    requires sh.One? && sh.plan == plan && Ready(sh, src, from) && from.Valid()
    modifies plan`keys, plan`where, src.Region()
    ensures ScanningPlan(plan, keys, from) && forall k <- keys :: k in sh.keys || fresh(k)
    ensures Consistent(lab) && fresh(lab.Keys - src.Region()) && (src.Pieces? ==> Extends(src.lab, lab))
    ensures plan.where != null ==> plan.where in lab && Normal(plan.where, lab[plan.where])
    ensures Equiv(src.Condition(sh), WhereExpr(plan.where, lab))
  {
    hide *;
    ghost var g := GivenFits(sh, src, from);
    keys := JoinKeys(plan, sh, src, from);
    plan.where, lab := MakeNormal(plan.where, g);
    WhereIs(plan.where, lab);
    EquivRefl(ALWAYS);
  }

  lemma WhereIs(n: LogicalPlan?, lab: Labels)
    ensures n == null ==> WhereExpr(n, lab) == ALWAYS
    ensures n != null && n in lab ==> WhereExpr(n, lab) == lab[n]
  {}

  lemma GivenFits(sh: Shape, src: Source, from: From) returns (g: Given)
    requires sh.One? && Ready(sh, src, from)
    ensures g.Fits(sh.plan.where) && g.Region() == src.Region() && (forall n <- g.Region() :: allocated(n))
    ensures (g.Nothing? <==> sh.plan.where == null) && (g.Graph? <==> src.Pieces?)
    ensures (g.Graph? ==> g.lab == src.lab && g.root in g.lab)
    ensures src.Condition(sh) == if g.Nothing? then ALWAYS else g.Meaning()
  {
    hide Consistent, Pushed;
    OneLeaf(sh);
    g := if src.Parsed? then src.g else Graph(sh.plan.where, src.lab);
    if src.Parsed? && src.g.Tree? { NodesAllocated(src.g.o); }
  }

  // ----- Pieces do not disturb each other -----

  lemma {:induction false} DisjunctionExtends(sh: Shape, lab: Labels, lab': Labels)
    requires Extends(lab, lab') && forall l <- sh.Leaves() :: l.where != null ==> l.where in lab
    ensures sh.Disjunction(lab') == sh.Disjunction(lab)
  {
    if sh.Union? {
      assert forall l <- sh.left.Leaves() + sh.right.Leaves() :: l in sh.Leaves();
      DisjunctionExtends(sh.left, lab, lab');
      DisjunctionExtends(sh.right, lab, lab');
    } else {
      OneLeaf(sh);
    }
  }

  lemma FinishedExtends(sh: Shape, lab: Labels, lab': Labels, from: From)
    requires Finished(sh, lab, from) && Extends(lab, lab')
    ensures Finished(sh, lab', from) && sh.Disjunction(lab') == sh.Disjunction(lab)
  {
    hide Shape.Leaves, Shape.Separate, Shape.Wired, Shape.Plans, Shape.Keys, OneClause, Stands, Clauses;
    DisjunctionExtends(sh, lab, lab');
  }

  lemma SplittingExtends(sh: Shape, lab: Labels, lab': Labels, from: From)
    requires Splitting(sh, {}, lab, from) && Extends(lab, lab')
    ensures Splitting(sh, {}, lab', from) && sh.Disjunction(lab') == sh.Disjunction(lab)
  {
    hide Shape.Leaves, Shape.Separate, Shape.Wired, Shape.Plans, Shape.Keys;
    DisjunctionExtends(sh, lab, lab');
  }

  lemma SplittingParts(sh: Shape, lab: Labels, from: From, out: nat)
    requires sh.Union? && Splitting(sh, {}, lab, from) && sh.Marked(out)
    ensures Splitting(sh.left, {}, lab, from) && Splitting(sh.right, {}, lab, from) && sh.left.Marked(out)
    ensures sh.right.Marked(out)
    ensures sh.plan.union && sh.plan.left == sh.left.plan && sh.plan.right == sh.right.plan && sh.Separate()
    ensures Rank(sh.left.Disjunction(lab)) < Rank(sh.Disjunction(lab))
    ensures Rank(sh.right.Disjunction(lab)) < Rank(sh.Disjunction(lab))
  {
    hide Rank, Views, Plan.Valid, Shape.Leaves;
    RankDrops(sh.left.Disjunction(lab), sh.right.Disjunction(lab));
    UnionLeaves(sh);
  }

  lemma UnionLeaves(sh: Shape)
    requires sh.Union?
    ensures (forall l <- sh.left.Leaves() :: l in sh.Leaves()) && (forall l <- sh.right.Leaves() :: l in sh.Leaves())
    ensures forall l <- sh.Leaves() :: l in sh.left.Leaves() || l in sh.right.Leaves()
  {}

  lemma FinishedUnion(u: Plan, x: Shape, y: Shape, lab: Labels, from: From)
    requires Finished(x, lab, from) && Finished(y, lab, from) && u.union && u.left == x.plan && u.right == y.plan
    requires u !in x.Plans() + y.Plans() && x.Plans() !! y.Plans() && x.Keys() !! y.Keys()
    ensures Finished(Union(u, x, y), lab, from)
  {
    hide LeafFinished;
    assert forall l <- Union(u, x, y).Leaves() :: l in x.Leaves() || l in y.Leaves();
  }

  lemma MarkedUnion(u: Plan, x: Shape, y: Shape, out: nat)
    requires x.Marked(out) && y.Marked(out)
    ensures Union(u, x, y).Marked(out)
  {
    assert forall l <- Union(u, x, y).Leaves() :: l in x.Leaves() || l in y.Leaves();
  }

  // ----- optimize_logical_plan -----

  /** optimize_logical_plan, from an LP_INSERT with base tables in its FROM list. */
  method Optimize(plan: Plan, ghost sh: Shape, ghost src: Source, ghost from: From, ghost out: nat)
    returns (r: Plan, ghost sh': Shape, ghost lab: Labels)
    requires sh.plan == plan && Ready(sh, src, from) && from.Valid()
    requires (sh.One? && plan.output == out) || sh.Marked(out)
    modifies sh.Plans(), sh.Keys(), src.Region()
    ensures sh'.plan == r && Finished(sh', lab, from) && Consistent(lab)
    ensures Equiv(src.Condition(sh), sh'.Disjunction(lab))
    ensures NewOrOf(sh, sh') && fresh(lab.Keys - src.Region()) && (src.Pieces? ==> Extends(src.lab, lab))
    ensures sh'.Union? || old(sh.Marked(out)) ==> sh'.Marked(out)
    decreases Rank(src.Condition(sh)), if sh.Union? then 0 else 1, 1
  {
    OutputOf(sh, out);
    hide *;
    SourceKind(sh, src, from);
    if plan.union {
      r, sh', lab := OptimizeUnion(plan, sh, src.lab, from, out);
    } else {
      r, sh', lab := OptimizeInsert(plan, sh, src, from, out);
    }
  }

  lemma OutputOf(sh: Shape, out: nat)
    ensures sh.One? && sh.Marked(out) ==> sh.plan.output == out
  {
    if sh.One? { OneLeaf(sh); }
  }

  lemma SourceKind(sh: Shape, src: Source, from: From)
    requires Ready(sh, src, from)
    ensures sh.plan.union <==> sh.Union?
    ensures sh.Union? ==> src.Pieces? && Splitting(sh, {}, src.lab, from) && Consistent(src.lab)
    ensures sh.Union? ==> src.Condition(sh) == sh.Disjunction(src.lab) && src.Region() == src.lab.Keys
  {
    hide Consistent;
  }

  lemma PiecesReady(sh: Shape, lab: Labels, from: From)
    requires Splitting(sh, {}, lab, from) && Consistent(lab)
    ensures Ready(sh, Pieces(lab), from) && Pieces(lab).Condition(sh) == sh.Disjunction(lab)
    ensures Pieces(lab).Region() == lab.Keys
  {
    hide Consistent, Splitting;
  }

  lemma UnionParts(sh: Shape)
    requires sh.Union? && sh.Separate()
    ensures sh.Plans() == {sh.plan} + sh.left.Plans() + sh.right.Plans()
    ensures sh.Keys() == sh.left.Keys() + sh.right.Keys()
    ensures sh.plan !in sh.left.Plans() + sh.right.Plans() && sh.left.Plans() !! sh.right.Plans()
    ensures sh.left.Keys() !! sh.right.Keys()
  {}

  method OptimizeUnion(plan: Plan, ghost sh: Shape, ghost lab: Labels, ghost from: From, ghost out: nat)
    returns (r: Plan, ghost sh': Shape, ghost lab': Labels)
    requires sh.Union? && sh.plan == plan && Splitting(sh, {}, lab, from) && Consistent(lab) && sh.Marked(out)
    requires from.Valid()
    modifies sh.Plans(), sh.Keys(), lab.Keys
    ensures sh'.plan == r && Finished(sh', lab', from) && Consistent(lab')
    ensures Equiv(sh.Disjunction(lab), sh'.Disjunction(lab'))
    ensures NewOrOf(sh, sh') && fresh(lab'.Keys - lab.Keys) && Extends(lab, lab') && sh'.Marked(out)
    decreases Rank(sh.Disjunction(lab)), 0, 0
  {
    hide Equiv, Consistent, Rank, Splitting, Finished, Ready, Shape.Leaves, Shape.Plans, Shape.Keys,
      Shape.Separate, Shape.Marked, Shape.Disjunction, From.Valid, Source.Condition, Source.Region;
    r := plan;
    SplittingParts(sh, lab, from, out);
    UnionParts(sh);
    ghost var x, y := sh.left, sh.right;
    ShapeAllocated(y);
    ghost var x', y', lab1;
    var left;
    PiecesReady(x, lab, from);
    left, x', lab1 := Optimize(plan.left, x, Pieces(lab), from, out);
    ShapeAllocated(x');
    plan.left := left;
    SplittingExtends(y, lab, lab1, from);
    y', lab' := OptimizeRight(plan, x', y, lab1, from, out);
    sh' := Union(plan, x', y');
    FinishedSeparate(sh', lab', from);
    UnionParts(sh');
    UnionEquiv(sh, lab, sh', lab');
  }

  lemma UnionEquiv(sh: Shape, lab: Labels, sh': Shape, lab': Labels)
    requires sh.Union? && sh'.Union?
    requires Equiv(sh.left.Disjunction(lab), sh'.left.Disjunction(lab'))
    requires Equiv(sh.right.Disjunction(lab), sh'.right.Disjunction(lab'))
    ensures Equiv(sh.Disjunction(lab), sh'.Disjunction(lab'))
  {
    hide Equiv;
    EquivPair(sh.left.Disjunction(lab), sh'.left.Disjunction(lab'), sh.right.Disjunction(lab),
      sh'.right.Disjunction(lab'));
  }

  /** The second operand, after the first. */
  method OptimizeRight(plan: Plan, ghost x: Shape, ghost y: Shape, ghost lab: Labels, ghost from: From, ghost out: nat)
    returns (ghost y': Shape, ghost lab': Labels)
    requires plan.union && plan.left == x.plan && plan.right == y.plan && from.Valid()
    requires plan !in x.Plans() + y.Plans() && x.Plans() !! y.Plans() && x.Keys() !! y.Keys()
    requires Finished(x, lab, from) && Splitting(y, {}, lab, from) && Consistent(lab) && x.Marked(out) && y.Marked(out)
    modifies plan`right, y.Plans(), y.Keys(), lab.Keys
    ensures Finished(Union(plan, x, y'), lab', from) && Consistent(lab') && Union(plan, x, y').Marked(out)
    ensures Extends(lab, lab') && fresh(lab'.Keys - lab.Keys) && NewOrOf(y, y')
    ensures Equiv(y.Disjunction(lab), y'.Disjunction(lab')) && x.Disjunction(lab') == x.Disjunction(lab)
    decreases Rank(y.Disjunction(lab)), 2, 0
  {
    hide Equiv, Consistent, Rank, Splitting, Finished, Ready, Shape.Leaves, Shape.Plans, Shape.Keys,
      Shape.Separate, Shape.Marked, Shape.Disjunction, From.Valid, Source.Condition, Source.Region;
    PiecesReady(y, lab, from);
    ShapeAllocated(x);
    var right;
    right, y', lab' := Optimize(plan.right, y, Pieces(lab), from, out);
    ShapeAllocated(y');
    plan.right := right;
    FinishedExtends(x, lab, lab', from);
    FinishedUnion(plan, x, y', lab', from);
    MarkedUnion(plan, x, y', out);
  }

  lemma FinishedSeparate(sh: Shape, lab: Labels, from: From)
    requires Finished(sh, lab, from)
    ensures sh.Separate()
  {}

  method OptimizeInsert(plan: Plan, ghost sh: Shape, ghost src: Source, ghost from: From, ghost out: nat)
    returns (r: Plan, ghost sh': Shape, ghost lab: Labels)
    requires sh.One? && sh.plan == plan && Ready(sh, src, from) && from.Valid()
    requires plan.output == out
    modifies sh.Plans(), sh.Keys(), src.Region()
    ensures sh'.plan == r && Finished(sh', lab, from) && Consistent(lab)
    ensures Equiv(src.Condition(sh), sh'.Disjunction(lab))
    ensures NewOrOf(sh, sh') && fresh(lab.Keys - src.Region()) && (src.Pieces? ==> Extends(src.lab, lab))
    ensures sh'.Union? || old(sh.Marked(out)) ==> sh'.Marked(out)
    decreases Rank(src.Condition(sh)), 1, 0
  {
    hide Equiv, Consistent, Rank, Splitting, Finished, Ready, Shape.Leaves, Shape.Plans, Shape.Keys,
      Shape.Separate, Shape.Disjunction, From.Valid, Source.Condition, Source.Region, WhereExpr, ScanningPlan, Normal;
    OneLeaf(sh);
    ghost var keys;
    keys, lab := Normalize(plan, sh, src, from);
    var newPlan := plan;
    ghost var pieces, e := One(plan, plan.where, keys), WhereExpr(plan.where, lab);
    OneLeaf(pieces);
    EquivRank(src.Condition(sh), e);
    if plan.where != null {
      OnePiece(plan, keys, lab, from);
      newPlan, pieces := Split(plan, pieces, lab, from);
      PiecesReady(pieces, lab, from);
    }
    if newPlan != plan {
      ghost var lab1 := lab;
      EquivTrans(src.Condition(sh), e, pieces.Disjunction(lab1));
      EquivRank(src.Condition(sh), pieces.Disjunction(lab1));
      r, sh', lab := Optimize(newPlan, pieces, Pieces(lab1), from, out);
      EquivTrans(src.Condition(sh), pieces.Disjunction(lab1), sh'.Disjunction(lab));
      return;
    }
    sh' := FinishLeaf(plan, keys, lab, from);
    OneLeaf(sh');
    r := plan;
  }

  lemma OnePiece(plan: Plan, keys: set<SqlKey>, lab: Labels, from: From)
    requires ScanningPlan(plan, keys, from) && plan.where != null && plan.where in lab
    ensures Splitting(One(plan, plan.where, keys), {}, lab, from)
    ensures One(plan, plan.where, keys).Disjunction(lab) == WhereExpr(plan.where, lab) == lab[plan.where]
  {
    OneLeaf(One(plan, plan.where, keys));
  }
}
