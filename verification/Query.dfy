/** What a whole optimised plan selects, and what running it puts out. */
module Query {
  import opened Where
  import opened Negation
  import opened Comparisons
  import opened NormalForm
  import opened Enumeration
  import opened KeyFix
  import opened FixedKeys
  import opened AccessPath
  import opened Loops
  import opened Planner
  import opened Output

  /** The WHERE of a query as it was parsed. */
  ghost function ParsedWhere(g: Given): Expr {
    if g.Tree? then g.o.Tree() else ALWAYS
  }

  /** Tests mean what SQL says: equalities compare values, opposite comparisons are each other's
      negation, and 1 is true. */
  ghost predicate Sql(db: Db, i: Choice -> Interp) {
    SqlEquality(db, i) && forall s :: Lawful(i(s)) && Eval(ALWAYS, i(s)) == True
  }

  /** What the model leaves open: the values of computed operands, which operands are text, what M makes of
      values where it wants numbers, and the answers of sub-selects and of all other tests. */
  datatype Outside = Outside(computed: (Choice, nat) -> Scalar, text: Operand -> bool, number: Numbers,
    member: (Choice, Operand, Operand) -> Truth, other: (Choice, Atom) -> Truth)

  ghost function OperandValue(db: Db, o: Outside, op: Operand, s: Choice): Scalar {
    if op.Computed? then o.computed(s, op.id) else ValueOf(db, op, s)
  }

  /** Tests that are no comparisons. */
  ghost function OtherTest(o: Outside, s: Choice, a: Atom): Truth {
    if a.tag.In? then o.member(s, a.lhs, a.rhs)
    else if a.tag.NotIn? then Not3(o.member(s, a.lhs, a.rhs))
    else if a == ALWAYS.atom then True
    else o.other(s, a)
  }

  /** The tests as SQL reads them. */
  ghost function SqlTests(db: Db, o: Outside): Choice -> Interp {
    (s: Choice) => (a: Atom) =>
      if Comparison(a.tag) then SqlCompare(a.tag, OperandValue(db, o, a.lhs, s), OperandValue(db, o, a.rhs, s))
      else OtherTest(o, s, a)
  }

  /** The tests as the generated M code reads them; whether they compare text depends on the left operand. */
  ghost function MTests(db: Db, o: Outside): Choice -> Interp {
    (s: Choice) => (a: Atom) =>
      if Comparison(a.tag)
      then MCompare(a.tag, o.text(a.lhs), OperandValue(db, o, a.lhs, s), OperandValue(db, o, a.rhs, s), o.number)
      else OtherTest(o, s, a)
  }

  /** SQL's comparisons are such tests, in every database. */
  lemma SqlTestsAreSql(db: Db, o: Outside)
    ensures Sql(db, SqlTests(db, o))
  {
    var i := SqlTests(db, o);
    forall s: Choice, a: Atom | a.tag.Flippable() ensures i(s)(Flip(a)) == Not3(i(s)(a)) {
      if Comparison(a.tag) {
        SqlOpposites(a.tag, OperandValue(db, o, a.lhs, s), OperandValue(db, o, a.rhs, s));
      }
    }
  }

  /** No text is compared that is not ordered like numbers. */
  ghost predicate TextLikeNumbers(db: Db, o: Outside) {
    forall s: Choice, x: Operand, y: Operand | o.text(x) ::
      SameOrder(OperandValue(db, o, x, s), OperandValue(db, o, y, s), o.number)
  }

  /** Those of the generated M code are exactly if no text is compared that is not ordered like numbers. */
  lemma MTestsAreSqlIff(db: Db, o: Outside)
    ensures Sql(db, MTests(db, o)) <==> TextLikeNumbers(db, o)
  {
    hide MTests, OperandValue, SameOrder, SqlEquality;
    var i := MTests(db, o);
    MEquality(db, o);
    if Sql(db, i) {
      forall s: Choice, x: Operand, y: Operand | o.text(x)
        ensures SameOrder(OperandValue(db, o, x, s), OperandValue(db, o, y, s), o.number)
      {
        assert Lawful(i(s));
        MNegatesIff(db, o, s, x, y);
      }
    }
    if TextLikeNumbers(db, o) {
      forall s: Choice, a: Atom | a.tag.Flippable() ensures i(s)(Flip(a)) == Not3(i(s)(a)) {
        MNegatesIff(db, o, s, a.lhs, a.rhs);
        MOthers(db, o, s, a);
        assert a == Atom(a.tag, a.lhs, a.rhs);
      }
      forall s: Choice ensures Eval(ALWAYS, i(s)) == True { MOthers(db, o, s, ALWAYS.atom); }
    }
  }

  lemma MNegatesIff(db: Db, o: Outside, s: Choice, x: Operand, y: Operand)
    ensures var i := MTests(db, o)(s);
      (forall tag | Comparison(tag) :: i(Flip(Atom(tag, x, y))) == Not3(i(Atom(tag, x, y))))
      <==> (o.text(x) ==> SameOrder(OperandValue(db, o, x, s), OperandValue(db, o, y, s), o.number))
  {
    hide OperandValue, SameOrder, MCompare;
    MOppositesIff(o.text(x), OperandValue(db, o, x, s), OperandValue(db, o, y, s), o.number);
  }

  lemma MOthers(db: Db, o: Outside, s: Choice, a: Atom)
    ensures var i := MTests(db, o)(s);
      (a.tag.In? || a.tag.NotIn? ==> i(Flip(a)) == Not3(i(a))) && (a == ALWAYS.atom ==> i(a) == True)
  {
    assert !Comparison(In) && !Comparison(NotIn) && !Comparison(Leaf);
    if !Comparison(a.tag) {
      assert MTests(db, o)(s)(a) == OtherTest(o, s, a);
      if a.tag.Flippable() { assert MTests(db, o)(s)(Flip(a)) == OtherTest(o, s, Flip(a)); }
    }
  }

  lemma MEquality(db: Db, o: Outside)
    ensures SqlEquality(db, MTests(db, o))
  {
    forall s: Choice, x: Operand, y: Operand | !x.Computed? && !y.Computed?
      ensures MTests(db, o)(s)(Atom(Equals, x, y)) == Truth2(ValueOf(db, x, s) == ValueOf(db, y, s))
    {
      assert Comparison(Equals);
    }
  }

  // ----- What the leaves select together -----

  /** A leaf finds a row of the FROM list that its WHERE accepts if and only if its keys can be run. */
  lemma LeafSelects(st: Access, where: LogicalPlan?, lab: Labels, from: From, db: Db, i: Choice -> Interp, s: Choice)
    requires LeafFinished(st, where, lab, from) && ValidDb(db) && Sql(db, i) && Widths(db) == from.w
    requires AllBuilt(db, st.keys) && Scanned(db, s)
    ensures Selects(db, st.keys, WhereExpr(where, lab), i, s)
      <==> Runnable(from.w, st.keys) && Eval(WhereExpr(where, lab), i(s)) == True
  {
    hide SqlEquality, Stands, OneClause, Scanned, ValidDb, WhereExpr, Clauses, Eval, Lawful, Widths, Runnable, Visited,
      AllBuilt;
    var e := WhereExpr(where, lab);
    if Eval(e, i(s)) == True { VisitedIffRunnable(db, i, from.Order(), st, e, s); }
  }

  /** If they can, it finds nothing else. */
  lemma RunnableSelects(st: Access, where: LogicalPlan?, lab: Labels, from: From, db: Db, i: Choice -> Interp,
          s: Choice)
    requires LeafFinished(st, where, lab, from) && ValidDb(db) && Sql(db, i) && Widths(db) == from.w
    requires AllBuilt(db, st.keys) && Runnable(from.w, st.keys)
    ensures Selects(db, st.keys, WhereExpr(where, lab), i, s)
      <==> Scanned(db, s) && Eval(WhereExpr(where, lab), i(s)) == True
  {
    hide SqlEquality, Ordered, Flatten, Backed, Selects, Scanned, ValidDb, WhereExpr, Clauses, Eval, Lawful, Aliases,
      Widths, OneClause, Laid, Runnable;
    var e := WhereExpr(where, lab);
    var bs := RunnableBlocks(st, from, e);
    SchemaKeys(db);
    FixedKeysSelectTheSame(db, i, bs, e, s);
  }

  lemma RunnableBlocks(st: Access, from: From, e: Expr) returns (bs: seq<Block>)
    requires Stands(from.w, from.Order(), st, e) && Runnable(from.w, st.keys)
    ensures Laid(from.w, st, bs) && Ordered(from.w, bs, {}) && Backed(bs, e)
    ensures st.keys == Flatten(bs) && Aliases(bs) == from.w.Keys
  {
    hide Lined, Ordered, Flatten, Backed, OrderFits, KeyIndex, Waits, Aliases;
    assert !Lost(from.w, st);
    bs :| Laid(from.w, st, bs) && OrderFits(from.Order(), bs) && Backed(bs, e);
    RunnableIff(from.w, st, bs);
  }

  lemma SchemaKeys(db: Db)
    ensures Widths(db).Keys == db.tables.Keys
  {}

  lemma {:induction false} SomeLeafTrue(sh: Shape, lab: Labels, x: Interp)
    ensures Eval(sh.Disjunction(lab), x) == True
      <==> exists l <- sh.Leaves() :: Eval(WhereExpr(l.where, lab), x) == True
  {
    hide WhereExpr;
    if sh.Union? {
      UnionLeaves(sh);
      SomeLeafTrue(sh.left, lab, x);
      SomeLeafTrue(sh.right, lab, x);
    } else {
      OneLeaf(sh);
    }
  }

  /** Every leaf is one clause. */
  lemma {:induction false} LeavesAreClauses(sh: Shape, lab: Labels)
    requires forall l <- sh.Leaves() :: Clauses(WhereExpr(l.where, lab)) == 1
    ensures Clauses(sh.Disjunction(lab)) == |sh.Leaves()|
  {
    hide Clauses, WhereExpr;
    if sh.Union? {
      UnionLeaves(sh);
      LeavesAreClauses(sh.left, lab);
      LeavesAreClauses(sh.right, lab);
      ClausesAdd(sh.left.Disjunction(lab), sh.right.Disjunction(lab));
    } else {
      OneLeaf(sh);
    }
  }

  lemma ClausesAdd(x: Expr, y: Expr)
    ensures Clauses(Or(x, y)) == Clauses(x) + Clauses(y)
  {
  }

  lemma PushedClauses(t: Expr)
    requires Safe(t, false)
    ensures Clauses(Pushed(t, false)) == Clauses(t) && ClausesOf(Pushed(t, false), false) == ClausesOf(t, false)
  {
    var i := SomeLawful();
    PushedMeans(t, false, i, ONES);
  }

  lemma SomeLawful() returns (i: Interp)
    ensures Lawful(i)
  {
    i := _ => Unknown;
  }

  lemma {:induction false} LeafClauses(sh: Shape, lab: Labels, ls: Clause)
    ensures ls in ClausesOf(sh.Disjunction(lab), false)
      <==> exists l <- sh.Leaves() :: ls in ClausesOf(WhereExpr(l.where, lab), false)
  {
    hide WhereExpr;
    if sh.Union? {
      UnionLeaves(sh);
      LeafClauses(sh.left, lab, ls);
      LeafClauses(sh.right, lab, ls);
    } else {
      OneLeaf(sh);
    }
  }

  /** Some clause of t holds and has an access path that can be run. */
  ghost predicate ClauseFinds(from: From, t: Expr, x: Interp)
    requires from.Valid()
  {
    exists ls <- ClausesOf(t, false) :: from.Harmless(ls) && ClauseHolds(ls, x)
  }

  lemma LeafFinds(st: Access, where: LogicalPlan?, lab: Labels, from: From, x: Interp) returns (ls: Clause)
    requires LeafFinished(st, where, lab, from) && Lawful(x)
    ensures from.Valid() && ClausesOf(WhereExpr(where, lab), false) == {ls}
    ensures from.Harmless(ls) <==> Runnable(from.w, st.keys)
    ensures ClauseHolds(ls, x) <==> Eval(WhereExpr(where, lab), x) == True
  {
    hide Runnable, Clauses, Stands, WhereExpr, Lawful, Eval, From.Valid, From.PathFor, ClauseHolds;
    var e := WhereExpr(where, lab);
    ls :| ClausesOf(e, false) == {ls} && st == from.PathFor(ls);
    TrueIffClauseHolds(e, x);
  }

  /** Some leaf selects a row of the FROM list if and only if a clause of t holds for it whose access path can
      be run. */
  lemma TreeFinds(sh: Shape, lab: Labels, from: From, t: Expr, db: Db, i: Choice -> Interp, s: Choice)
    requires Finished(sh, lab, from) && Safe(t, false) && Equiv(Pushed(t, false), sh.Disjunction(lab)) && from.Valid()
    requires ValidDb(db) && Sql(db, i) && Widths(db) == from.w && Scanned(db, s)
    requires forall l <- sh.Leaves() :: AllBuilt(db, Views(l.plan.keys))
    ensures (exists l <- sh.Leaves() :: Selects(db, Views(l.plan.keys), WhereExpr(l.where, lab), i, s))
            <==> ClauseFinds(from, t, i(s))
  {
    hide Selects, Scanned, ValidDb, WhereExpr, Clauses, Eval, Lawful, Widths, SqlEquality, Views, LeafFinished,
      Shape.Leaves, AllBuilt, ClausesOf, Runnable, ClauseHolds, From.Valid, From.Harmless, Pushed, Safe;
    PushedClauses(t);
    forall l <- sh.Leaves()
      ensures Selects(db, Views(l.plan.keys), WhereExpr(l.where, lab), i, s)
        <==> exists ls <- ClausesOf(WhereExpr(l.where, lab), false) :: from.Harmless(ls) && ClauseHolds(ls, i(s))
    {
      var st := Access(Views(l.plan.keys), l.plan.joins);
      LeafSelects(st, l.where, lab, from, db, i, s);
      var ls := LeafFinds(st, l.where, lab, from, i(s));
    }
    forall ls: Clause { LeafClauses(sh, lab, ls); }
  }

  /** The keys of every leaf can be run. */
  ghost predicate AllRunnable(sh: Shape, from: From)
    requires sh.Owns()
    reads sh.Plans()`keys, sh.Plans()`joins, sh.Keys()
  {
    forall l <- sh.Leaves() :: Runnable(from.w, Views(l.plan.keys))
  }

  /** That is so exactly if all clauses of t are harmless. */
  lemma RunnableIffHarmless(sh: Shape, lab: Labels, from: From, t: Expr)
    requires Finished(sh, lab, from) && Safe(t, false) && Equiv(Pushed(t, false), sh.Disjunction(lab)) && from.Valid()
    ensures AllRunnable(sh, from) <==> AllHarmless(from, t)
  {
    hide WhereExpr, Clauses, Eval, Lawful, Views, LeafFinished, Shape.Leaves, ClausesOf, Runnable, ClauseHolds,
      From.Valid, From.Harmless, Pushed, Safe, Count;
    PushedClauses(t);
    var x := SomeLawful();
    forall l <- sh.Leaves()
      ensures exists ls ::
        && ClausesOf(WhereExpr(l.where, lab), false) == {ls}
        && (from.Harmless(ls) <==> Runnable(from.w, Views(l.plan.keys)))
    {
      var ls := LeafFinds(Access(Views(l.plan.keys), l.plan.joins), l.where, lab, from, x);
    }
    forall ls: Clause { LeafClauses(sh, lab, ls); }
  }

  /** If the keys of all leaves can be run, the rows they select are those of the FROM list for which t is true. */
  lemma TreeSelects(sh: Shape, lab: Labels, from: From, t: Expr, db: Db, i: Choice -> Interp, s: Choice)
    requires Finished(sh, lab, from) && Safe(t, false) && Equiv(Pushed(t, false), sh.Disjunction(lab))
    requires AllRunnable(sh, from)
    requires ValidDb(db) && Sql(db, i) && Widths(db) == from.w
    requires forall l <- sh.Leaves() :: AllBuilt(db, Views(l.plan.keys))
    ensures (exists l <- sh.Leaves() :: Selects(db, Views(l.plan.keys), WhereExpr(l.where, lab), i, s))
            <==> Scanned(db, s) && Eval(t, i(s)) == True
  {
    hide Selects, Scanned, ValidDb, WhereExpr, Clauses, Eval, Lawful, Widths, SqlEquality, Views, LeafFinished,
      Shape.Leaves, AllBuilt, Runnable;
    PushedMeans(t, false, i(s), ONES);
    SomeLeafTrue(sh, lab, i(s));
    forall l <- sh.Leaves()
      ensures Selects(db, Views(l.plan.keys), WhereExpr(l.where, lab), i, s)
        <==> Scanned(db, s) && Eval(WhereExpr(l.where, lab), i(s)) == True
    {
      RunnableSelects(Access(Views(l.plan.keys), l.plan.joins), l.where, lab, from, db, i, s);
    }
  }

  /** Databases with the tables of the FROM list and the cross references that the leaves read. */
  ghost predicate Serves(db: Db, i: Choice -> Interp, sh: Shape, from: From)
    requires sh.Owns()
    reads sh.Plans()`keys, sh.Plans()`joins, sh.Keys()
  {
    && ValidDb(db) && Sql(db, i) && Widths(db) == from.w
    && forall l <- sh.Leaves() :: AllBuilt(db, Views(l.plan.keys))
  }

  ghost predicate SomeSelects(db: Db, i: Choice -> Interp, sh: Shape, lab: Labels, s: Choice)
    requires sh.Owns()
    reads sh.Plans()`keys, sh.Plans()`joins, sh.Keys()
  {
    exists l <- sh.Leaves() :: Selects(db, Views(l.plan.keys), WhereExpr(l.where, lab), i, s)
  }

  /** A row of the FROM list is selected if and only if a clause holds for it whose access path can be run. */
  ghost predicate SelectsFound(sh: Shape, lab: Labels, from: From, t: Expr)
    requires sh.Owns() && from.Valid()
    reads sh.Plans()`keys, sh.Plans()`joins, sh.Keys()
  {
    forall db: Db, i: Choice -> Interp, s: Choice | Serves(db, i, sh, from) && Scanned(db, s) ::
      SomeSelects(db, i, sh, lab, s) <==> ClauseFinds(from, t, i(s))
  }

  /** What is selected is what t asks for. */
  ghost predicate SelectsWhere(sh: Shape, lab: Labels, from: From, t: Expr)
    requires sh.Owns()
    reads sh.Plans()`keys, sh.Plans()`joins, sh.Keys()
  {
    forall db: Db, i: Choice -> Interp, s: Choice | Serves(db, i, sh, from) ::
      SomeSelects(db, i, sh, lab, s) <==> Scanned(db, s) && Eval(t, i(s)) == True
  }

  /** The WHEREs of the leaves together are true exactly where t is. */
  ghost predicate SameWhere(sh: Shape, lab: Labels, t: Expr) {
    forall x: Interp | Lawful(x) :: Eval(sh.Disjunction(lab), x) == Eval(t, x)
  }

  lemma PushedSameWhere(sh: Shape, lab: Labels, t: Expr)
    requires Safe(t, false) && Equiv(Pushed(t, false), sh.Disjunction(lab))
    ensures SameWhere(sh, lab, t)
  {
    hide Eval, Pushed, Safe, Lawful, Count, ClausesOf, Shape.Disjunction;
    forall x: Interp | Lawful(x) ensures Eval(sh.Disjunction(lab), x) == Eval(t, x) { PushedMeans(t, false, x, ONES); }
  }

  ghost predicate NoOrs(sh: Shape, lab: Labels)
    requires Consistent(lab)
    reads lab.Keys
  {
    forall l <- sh.Leaves() :: l.where != null ==> l.where in lab && OrFree(Unfold(l.where, lab))
  }

  /** optimize_logical_plan on a parsed query: one leaf per clause of its WHERE and no OR left in any leaf. From
      any database they select the rows for which a clause with a harmless access path holds, and if all
      clauses have one, exactly what the query asks for. */
  method OptimizeQuery(plan: Plan, ghost sh: Shape, ghost g: Given, ghost from: From)
    returns (r: Plan, ghost sh': Shape, ghost lab: Labels)
    requires sh.plan == plan && Ready(sh, Parsed(g), from) && from.Valid() && Safe(ParsedWhere(g), false)
    modifies sh.Plans(), sh.Keys(), g.Region()
    ensures sh'.plan == r && Finished(sh', lab, from) && Consistent(lab) && (sh'.Union? ==> sh'.Marked(plan.output))
    ensures |sh'.Leaves()| == Clauses(ParsedWhere(g)) && NoOrs(sh', lab) && SelectsFound(sh', lab, from, ParsedWhere(g))
    ensures AllRunnable(sh', from) <==> AllHarmless(from, ParsedWhere(g))
    ensures AllHarmless(from, ParsedWhere(g)) ==> SelectsWhere(sh', lab, from, ParsedWhere(g))
    ensures SameWhere(sh', lab, ParsedWhere(g))
  {
    hide *;
    ghost var t := ParsedWhere(g);
    ParsedCondition(sh, g, from);
    r, sh', lab := Optimize(plan, sh, Parsed(g), from, plan.output);
    QueryLeaves(sh', lab, from, t);
    TreeSelectsFound(sh', lab, from, t);
    RunnableIffHarmless(sh', lab, from, t);
    if AllRunnable(sh', from) { TreeSelectsWhere(sh', lab, from, t); }
    PushedSameWhere(sh', lab, t);
  }

  lemma ParsedCondition(sh: Shape, g: Given, from: From)
    requires Ready(sh, Parsed(g), from)
    ensures var src := Parsed(g);
      sh.One? && src.Condition(sh) == Pushed(ParsedWhere(g), false) && src.Region() == g.Region()
  {
    hide Given.Fits, Owned.Tree, Owned.Nodes, Pushed;
    PushedAlways();
  }

  lemma PushedAlways()
    ensures Pushed(ALWAYS, false) == ALWAYS
  {}

  lemma QueryLeaves(sh: Shape, lab: Labels, from: From, t: Expr)
    requires Finished(sh, lab, from) && Consistent(lab) && Safe(t, false)
    requires Equiv(Pushed(t, false), sh.Disjunction(lab))
    ensures |sh.Leaves()| == Clauses(t) && NoOrs(sh, lab)
  {
    hide Consistent, Equiv, Clauses, Stands, OneClause, SameTables, Shape.Leaves, Unfold, OrFree, Safe, Pushed;
    PushedClauses(t);
    EquivRank(Pushed(t, false), sh.Disjunction(lab));
    LeavesAreClauses(sh, lab);
    forall l <- sh.Leaves() | l.where != null ensures OrFree(Unfold(l.where, lab)) {
      LeafHasNoOr(l.where, lab);
    }
  }

  lemma TreeSelectsFound(sh: Shape, lab: Labels, from: From, t: Expr)
    requires Finished(sh, lab, from) && Safe(t, false) && Equiv(Pushed(t, false), sh.Disjunction(lab)) && from.Valid()
    ensures sh.Owns() && SelectsFound(sh, lab, from, t)
  {
    hide Equiv, Shape.Leaves, Safe, Pushed, Selects, Scanned, ValidDb, Sql, Widths, LeafFinished, Views, AllBuilt,
      From.Valid, ClauseFinds;
    forall db: Db, i: Choice -> Interp, s: Choice | Serves(db, i, sh, from) && Scanned(db, s)
      ensures SomeSelects(db, i, sh, lab, s) <==> ClauseFinds(from, t, i(s))
    {
      TreeFinds(sh, lab, from, t, db, i, s);
    }
  }

  lemma TreeSelectsWhere(sh: Shape, lab: Labels, from: From, t: Expr)
    requires Finished(sh, lab, from) && Safe(t, false) && Equiv(Pushed(t, false), sh.Disjunction(lab))
    requires AllRunnable(sh, from)
    ensures SelectsWhere(sh, lab, from, t)
  {
    hide Equiv, Shape.Leaves, Safe, Pushed, Selects, Scanned, ValidDb, Sql, Widths, Eval, LeafFinished, Views, AllBuilt;
    forall db: Db, i: Choice -> Interp, s: Choice | Serves(db, i, sh, from)
      ensures SomeSelects(db, i, sh, lab, s) <==> Scanned(db, s) && Eval(t, i(s)) == True
    {
      TreeSelects(sh, lab, from, t, db, i, s);
    }
  }

  // ----- Running it -----

  lemma LeafTag(st: Access, where: LogicalPlan?, lab: Labels, from: From, s: Choice)
    requires LeafFinished(st, where, lab, from) && Runnable(from.w, st.keys)
    ensures TagOf(st.keys, s) == FullTag(from.joins, s)
  {
    hide Lined, Ordered, Flatten, Backed, TagOf, FullTag, WhereExpr, Clauses, Aliases, OneClause, Stands, Runnable;
    var bs := RunnableBlocks(st, from, WhereExpr(where, lab));
    LaidTag(from.w, bs, st.joins, {}, s);
    SameTablesTag(from.joins, st.joins, s);
  }

  lemma FromNames(from: From, db: Db)
    requires from.Valid() && from.w == Widths(db)
    ensures NamesTables(db, from.joins)
  {
    forall a <- db.tables.Keys ensures exists i | 0 <= i < |from.joins| :: from.joins[i].alias == a {
      assert a in from.w;
      var j :| j in from.joins && j.alias == a;
    }
  }

  lemma FinishedParts(sh: Shape, lab: Labels, from: From, out: nat)
    requires sh.Union? && Finished(sh, lab, from) && sh.Marked(out)
    ensures Finished(sh.left, lab, from) && Finished(sh.right, lab, from) && sh.left.Marked(out) && sh.right.Marked(out)
    ensures AllRunnable(sh, from) ==> AllRunnable(sh.left, from) && AllRunnable(sh.right, from)
    ensures sh.plan.union && sh.plan.left == sh.left.plan && sh.plan.right == sh.right.plan
  {
    hide LeafFinished, Views, Plan.Valid, Shape.Leaves, Runnable;
    UnionLeaves(sh);
  }

  lemma FinishedUnionOf(sh: Shape, lab: Labels, from: From)
    requires Finished(sh, lab, from)
    ensures (sh.plan.union <==> sh.Union?) && sh.Owns()
  {}

  lemma FinishedLeaf(sh: Shape, lab: Labels, from: From, out: nat)
    requires sh.One? && Finished(sh, lab, from) && AllRunnable(sh, from)
    ensures sh.Marked(out) ==> sh.plan.expansion
    ensures forall s :: TagOf(Views(sh.plan.keys), s) == FullTag(from.joins, s)
  {
    hide LeafFinished, Views, Plan.Valid, TagOf, FullTag, Runnable;
    OneLeaf(sh);
    forall s: Choice ensures TagOf(Views(sh.plan.keys), s) == FullTag(from.joins, s) {
      LeafTag(Access(Views(sh.plan.keys), sh.plan.joins), sh.where, lab, from, s);
    }
  }

  lemma NothingNoted(cursor: Cursor, db: Db, joins: seq<Join>)
    requires cursor.dupl == {} && cursor.rows == []
    ensures cursor.Noted(db, joins)
  {}

  /** The condition that a WHERE tree is printed as, evaluated: the operands, then the operator. */
  method EvalNode(n: LogicalPlan, x: Interp, ghost lab: Labels) returns (t: Truth)
    requires Consistent(lab) && n in lab
    ensures t == Eval(lab[n], x)
    decreases Rank(lab[n])
  {
    hide Consistent, Rank, Count, ClausesOf;
    Ok(n, lab);
    if n.tag.BooleanAnd? || n.tag.BooleanOr? {
      OperandRanks(n, lab);
      var l := EvalNode(n.left, x, lab);
      var r := EvalNode(n.right, x, lab);
      t := if n.tag.BooleanAnd? then And3(l, r) else Or3(l, r);
    } else if n.tag.BooleanNot? {
      t := Not3(x(n.left.AtomOf()));
    } else {
      t := x(n.AtomOf());
    }
  }

  /** The rows that a plan's loops visit and its WHERE accepts, each once. */
  method SelectRows(db: Db, keys: seq<Key>, where: LogicalPlan?, i: Choice -> Interp, ghost lab: Labels,
          ghost bs: seq<Block>)
    returns (rows: seq<Choice>)
    requires ValidDb(db) && Sql(db, i) && keys == Flatten(bs) && Ordered(Widths(db), bs, {})
    requires Aliases(bs) == db.tables.Keys
    requires Consistent(lab) && (where != null ==> where in lab)
    ensures Unique(rows) && forall s :: s in rows <==> Selects(db, keys, WhereExpr(where, lab), i, s)
  {
    hide ValidDb, Ordered, Flatten, Consistent, SqlEquality, Lawful, Eval, Visited, Aliases;
    var all := ListRows(db, keys, bs);
    rows := [];
    for n := 0 to |all|
      invariant Unique(rows)
      invariant forall s :: s in rows <==> s in all[..n] && Eval(WhereExpr(where, lab), i(s)) == True
    {
      var s := all[n];
      var t := True;
      if where != null { t := EvalNode(where, i(s), lab); }
      if t == True {
        UniqueMore(rows, s);
        rows := rows + [s];
      }
    }
  }

  /** Cross references do not matter for what is asked. */
  lemma ReindexedMeans(db: Db, db': Db, i: Choice -> Interp)
    requires Reindexed(db, db')
    ensures Widths(db') == Widths(db) && (Sql(db, i) ==> Sql(db', i)) && forall s :: Scanned(db', s) <==> Scanned(db, s)
  {
    assert forall op: Operand, s: Choice :: ValueOf(db', op, s) == ValueOf(db, op, s);
  }

  lemma ReindexedNoted(db: Db, db': Db, joins: seq<Join>, cursor: Cursor)
    requires Reindexed(db, db')
    ensures NamesTables(db, joins) ==> NamesTables(db', joins)
    ensures cursor.Noted(db, joins) <==> cursor.Noted(db', joins)
  {}

  lemma LeafParts(sh: Shape, lab: Labels, from: From)
    requires sh.One? && Finished(sh, lab, from)
    ensures sh.plan.Valid() && LeafFinished(Access(Views(sh.plan.keys), sh.plan.joins), sh.where, lab, from)
    ensures sh.plan.where == sh.where && (sh.where != null ==> sh.where in lab)
    ensures AllRunnable(sh, from) ==> Runnable(from.w, Views(sh.plan.keys))
  {
    hide Stands, OneClause, Clauses, Views, Plan.Valid, Runnable;
    OneLeaf(sh);
  }

  lemma DisjunctionParts(sh: Shape, lab: Labels, x: Interp)
    requires sh.Union?
    ensures Eval(sh.Disjunction(lab), x) == True
      <==> Eval(sh.left.Disjunction(lab), x) == True || Eval(sh.right.Disjunction(lab), x) == True
  {}

  lemma DisjunctionOne(sh: Shape, lab: Labels)
    requires sh.One?
    ensures sh.Disjunction(lab) == WhereExpr(sh.where, lab)
  {}

  lemma LeafBlocks(st: Access, where: LogicalPlan?, lab: Labels, from: From) returns (bs: seq<Block>)
    requires LeafFinished(st, where, lab, from) && Runnable(from.w, st.keys)
    ensures st.keys == Flatten(bs) && Ordered(from.w, bs, {}) && Aliases(bs) == from.w.Keys
    ensures forall k <- st.keys :: k.alias in from.w
  {
    hide Ordered, Flatten, Backed, Aliases, Clauses, WhereExpr, OneClause, Stands, Runnable, Laid;
    bs := RunnableBlocks(st, from, WhereExpr(where, lab));
    FlattenAliases(bs);
  }

  /** The rows come from the leaves in order, each from the first that accepts it. */
  ghost predicate InLeafOrder(sh: Shape, lab: Labels, i: Choice -> Interp, rows: seq<Choice>) {
    if sh.One? then forall s <- rows :: Eval(WhereExpr(sh.where, lab), i(s)) == True
    else exists k | 0 <= k <= |rows| :: LeftThenRight(sh, lab, i, rows, k)
  }

  ghost predicate LeftThenRight(sh: Shape, lab: Labels, i: Choice -> Interp, rows: seq<Choice>, k: nat)
    requires sh.Union? && k <= |rows|
  {
    && InLeafOrder(sh.left, lab, i, rows[..k]) && InLeafOrder(sh.right, lab, i, rows[k..])
    && forall s <- rows[k..] :: Eval(sh.left.Disjunction(lab), i(s)) != True
  }

  lemma LeafOrderJoins(sh: Shape, lab: Labels, i: Choice -> Interp, db: Db, before: seq<Choice>, mid: seq<Choice>,
          rows: seq<Choice>)
    requires sh.Union? && before <= mid <= rows && Unique(rows)
    requires InLeafOrder(sh.left, lab, i, mid[|before|..]) && InLeafOrder(sh.right, lab, i, rows[|mid|..])
    requires forall s <- rows :: s in mid || Scanned(db, s)
    requires forall s | Scanned(db, s) && Eval(sh.left.Disjunction(lab), i(s)) == True :: s in mid
    ensures InLeafOrder(sh, lab, i, rows[|before|..])
  {
    hide InLeafOrder, Eval, Scanned, Shape.Disjunction;
    var added, k := rows[|before|..], |mid| - |before|;
    assert added[..k] == mid[|before|..] && added[k..] == rows[|mid|..];
    forall s <- added[k..] ensures Eval(sh.left.Disjunction(lab), i(s)) != True {
      var n :| |mid| <= n < |rows| && rows[n] == s;
    }
    LeafOrderIs(sh, lab, i, added, k);
  }

  lemma LeafOrderIs(sh: Shape, lab: Labels, i: Choice -> Interp, rows: seq<Choice>, k: nat)
    requires sh.Union? && k <= |rows| && LeftThenRight(sh, lab, i, rows, k)
    ensures InLeafOrder(sh, lab, i, rows)
  {}

  lemma OneLeafOrder(sh: Shape, lab: Labels, i: Choice -> Interp, before: seq<Choice>, rows: seq<Choice>)
    requires sh.One? && before <= rows && Unique(rows)
    requires forall s <- rows :: s in before || Eval(WhereExpr(sh.where, lab), i(s)) == True
    ensures InLeafOrder(sh, lab, i, rows[|before|..])
  {
    forall s <- rows[|before|..] ensures s !in before {
      var n :| |before| <= n < |rows| && rows[n] == s;
    }
  }

  /** The routine of one plan: build what is missing, run the loops, and put out what the WHERE accepts
      and, if that is checked, has not been put out before. */
  method RunLeaf(plan: Plan, cursor: Cursor, db: Db, i: Choice -> Interp, ghost sh: Shape, ghost lab: Labels,
          ghost from: From)
    returns (db': Db)
    requires sh.One? && sh.plan == plan && Finished(sh, lab, from) && Consistent(lab) && AllRunnable(sh, from)
    requires ValidDb(db) && Sql(db, i) && Widths(db) == from.w && NamesTables(db, from.joins)
    requires if plan.expansion then cursor.Noted(db, from.joins) else cursor.rows == []
    modifies cursor
    ensures ValidDb(db') && Reindexed(db, db')
    ensures if plan.expansion then cursor.Noted(db, from.joins) else Unique(cursor.rows)
    ensures forall s :: s in cursor.rows <==>
      s in old(cursor.rows) || (Scanned(db, s) && Eval(WhereExpr(sh.where, lab), i(s)) == True)
    ensures old(cursor.rows) <= cursor.rows
  {
    hide *;
    LeafParts(sh, lab, from);
    FinishedLeaf(sh, lab, from, 0);
    var keys := Views(plan.keys);
    ghost var bs := LeafBlocks(Access(keys, plan.joins), sh.where, lab, from);
    SchemaKeys(db);
    db' := Populate(db, keys);
    ReindexedMeans(db, db', i);
    SchemaKeys(db');
    var rows := SelectRows(db', keys, plan.where, i, lab, bs);
    forall s ensures s in rows <==> Scanned(db, s) && Eval(WhereExpr(sh.where, lab), i(s)) == True {
      RunnableSelects(Access(keys, plan.joins), sh.where, lab, from, db', i, s);
    }
    assert [] + rows == rows;
    cursor.RunPlan(keys, plan.expansion, rows, db, from.joins);
  }

  /** Runs the plans of a UNION ALL tree, the left ones first. */
  method RunTree(plan: Plan, cursor: Cursor, db: Db, i: Choice -> Interp, ghost sh: Shape, ghost lab: Labels,
          ghost from: From, ghost out: nat)
    returns (db': Db)
    requires sh.plan == plan && Finished(sh, lab, from) && Consistent(lab) && sh.Marked(out) && AllRunnable(sh, from)
    requires ValidDb(db) && Sql(db, i) && Widths(db) == from.w && NamesTables(db, from.joins)
    requires cursor.Noted(db, from.joins)
    modifies cursor
    ensures ValidDb(db') && Reindexed(db, db') && cursor.Noted(db, from.joins)
    ensures forall s :: s in cursor.rows <==>
      s in old(cursor.rows) || (Scanned(db, s) && Eval(sh.Disjunction(lab), i(s)) == True)
    ensures old(cursor.rows) <= cursor.rows && InLeafOrder(sh, lab, i, cursor.rows[|old(cursor.rows)|..])
    decreases sh
  {
    hide *;
    FinishedUnionOf(sh, lab, from);
    if plan.union {
      FinishedParts(sh, lab, from, out);
      ShapeAllocated(sh.right);
      forall s: Choice { DisjunctionParts(sh, lab, i(s)); }
      var mid := RunTree(plan.left, cursor, db, i, sh.left, lab, from, out);
      ReindexedMeans(db, mid, i);
      ReindexedNoted(db, mid, from.joins, cursor);
      ghost var rows := cursor.rows;
      db' := RunTree(plan.right, cursor, mid, i, sh.right, lab, from, out);
      ReindexedTwice(db, mid, db');
      ReindexedNoted(db, mid, from.joins, cursor);
      NotedUnique(cursor, db, from.joins);
      LeafOrderJoins(sh, lab, i, db, old(cursor.rows), rows, cursor.rows);
    } else {
      DisjunctionOne(sh, lab);
      FinishedLeaf(sh, lab, from, out);
      db' := RunLeaf(plan, cursor, db, i, sh, lab, from);
      NotedUnique(cursor, db, from.joins);
      OneLeafOrder(sh, lab, i, old(cursor.rows), cursor.rows);
    }
  }

  lemma NotedUnique(cursor: Cursor, db: Db, joins: seq<Join>)
    requires cursor.Noted(db, joins)
    ensures Unique(cursor.rows)
  {}

  lemma SameWhereAt(db: Db, sh: Shape, lab: Labels, t: Expr, i: Choice -> Interp, s: Choice)
    requires SameWhere(sh, lab, t) && Sql(db, i)
    ensures Eval(sh.Disjunction(lab), i(s)) == Eval(t, i(s))
  {
    hide Eval, Lawful, SqlEquality, Shape.Disjunction;
  }

  /** An optimised query puts out every row that its WHERE asks for, no other row, and none twice. */
  method RunQuery(plan: Plan, db: Db, i: Choice -> Interp, ghost sh: Shape, ghost lab: Labels, ghost from: From,
          ghost out: nat, ghost t: Expr)
    returns (cursor: Cursor, db': Db)
    requires sh.plan == plan && Finished(sh, lab, from) && Consistent(lab) && from.Valid() && SameWhere(sh, lab, t)
    requires AllRunnable(sh, from)
    requires ValidDb(db) && Sql(db, i) && Widths(db) == from.w && (sh.Union? ==> sh.Marked(out))
    ensures ValidDb(db') && Reindexed(db, db')
    ensures Unique(cursor.rows) && forall s :: s in cursor.rows <==> Scanned(db, s) && Eval(t, i(s)) == True
    ensures InLeafOrder(sh, lab, i, cursor.rows)
  {
    hide *;
    FinishedUnionOf(sh, lab, from);
    FromNames(from, db);
    ShapeAllocated(sh);
    cursor := new Cursor();
    NothingNoted(cursor, db, from.joins);
    if plan.union {
      db' := RunTree(plan, cursor, db, i, sh, lab, from, out);
      NotedUnique(cursor, db, from.joins);
    } else {
      DisjunctionOne(sh, lab);
      db' := RunLeaf(plan, cursor, db, i, sh, lab, from);
      if plan.expansion { NotedUnique(cursor, db, from.joins); }
      OneLeafOrder(sh, lab, i, [], cursor.rows);
    }
    assert cursor.rows[0..] == cursor.rows;
    forall s: Choice ensures Eval(sh.Disjunction(lab), i(s)) == Eval(t, i(s)) { SameWhereAt(db, sh, lab, t, i, s); }
  }

  /** The whole way from the parsed query to its rows. */
  method AnswerQuery(plan: Plan, db: Db, i: Choice -> Interp, ghost sh: Shape, ghost g: Given, ghost from: From)
    returns (cursor: Cursor, db': Db)
    requires sh.plan == plan && Ready(sh, Parsed(g), from) && from.Valid()
    requires Safe(ParsedWhere(g), false) && AllHarmless(from, ParsedWhere(g))
    requires ValidDb(db) && Sql(db, i) && Widths(db) == from.w
    modifies sh.Plans(), sh.Keys(), g.Region()
    ensures ValidDb(db') && Reindexed(db, db')
    ensures Unique(cursor.rows)
    ensures forall s :: s in cursor.rows <==> Scanned(db, s) && Eval(ParsedWhere(g), i(s)) == True
  {
    hide *;
    ghost var t, out := ParsedWhere(g), plan.output;
    var r, sh', lab := OptimizeQuery(plan, sh, g, from);
    cursor, db' := RunQuery(r, db, i, sh', lab, from, out, t);
  }
}
