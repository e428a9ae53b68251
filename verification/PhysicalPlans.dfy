/** generate_physical_plan: the plans of a query as a linked list, while the operands that hold sub-plans
    are replaced in place. */
module PhysicalPlans {
  import opened PlanOrder
  import E = Enumeration

  // ----- Plans in memory -----

  /** What each node stood for before anything was replaced. */
  type Terms = map<Node, Term>

  /** The INSERT whose output key stands for a plan: of a set operation, the leftmost one. */
  function OutputOf(p: Logical): Node { match p case Insert(node, _) => node case SetOperation(l, _) => OutputOf(l) }

  /** An operand stands for x, unless x is a plan that has been replaced by its output key. */
  ghost predicate OperandMeans(o: Node?, n: Part, x: Term, lab: Terms, done: set<Part>) {
    if x.Held? then
      x.place == n && o != null && if n in done then o.kind.KeyNode? && o.from == OutputOf(x.plan)
        else o in lab && o.IsPlan() && lab[o] == Listed(x.plan)
    else if o == null then x == Nothing
    else o in lab && o.IsTerm() && lab[o] == x
  }

  ghost predicate NodeMeans(n: Node, lab: Terms, done: set<Part>)
    requires n in lab
    reads n
  {
    match n.kind
    case InsertNode =>
      && n.from != null && n.from in lab && n.from.kind.JoinNode?
      && n.left != null && n.left in lab && n.left.IsTerm() && !lab[n.left].Held?
      && n.right != null && n.right in lab && n.right.IsTerm() && !lab[n.right].Held?
      && lab[n] == Listed(Insert(n, Both(lab[n.from], Both(lab[n.left], lab[n.right]))))
    case SetNode =>
      && n.left != null && n.left in lab && n.left.IsPlan() && lab[n.left].Listed?
      && n.right != null && n.right in lab && n.right.IsPlan() && lab[n.right].Listed?
      && lab[n] == Listed(SetOperation(lab[n.left].plan, lab[n.right].plan))
    case JoinNode =>
      if n.left == null then lab[n] == Nothing
      else
        && n.left in lab && (n.left.IsPlan() || n.left.kind.OtherNode?)
          && (n.right != null ==> n.right in lab && n.right.kind.JoinNode?)
        && lab[n] == Both(lab[n.left], if n.right == null then Nothing else lab[n.right])
    case OperatorNode =>
      && lab[n].Both? && OperandMeans(n.left, Place(n, false), lab[n].left, lab, done)
      && OperandMeans(n.right, Place(n, true), lab[n].right, lab, done)
    case _ => lab[n] == Nothing
  }

  /** The labels describe the nodes, with the plans of the places in `done` replaced. Nothing is said about
      sharing. */
  ghost predicate Labelled(lab: Terms, done: set<Part>)
    reads lab.Keys
  {
    forall n <- lab.Keys :: NodeMeans(n, lab, done)
  }

  lemma NodeKnown(n: Node, lab: Terms, done: set<Part>)
    requires Labelled(lab, done) && n in lab
    ensures NodeMeans(n, lab, done)
  {}

  class PhysicalPlan {
    const node: Node
    const parent: PhysicalPlan?
    var next: PhysicalPlan?
    var prev: PhysicalPlan?

    constructor (node: Node, parent: PhysicalPlan?)
      ensures this.node == node && this.parent == parent && next == null && prev == null
    {
      this.node, this.parent := node, parent;
      next, prev := null, null;
    }
  }

  /** Where the options' last_plan points to: the plan that was added last. */
  class LastPlan {
    var head: PhysicalPlan?
  }

  /** A list that starts at head. */
  ghost predicate ListOf(head: PhysicalPlan?, s: seq<PhysicalPlan>)
    reads s
  {
    && (if s == [] then head == null else head == s[0] && s[0].prev == null && s[|s| - 1].next == null)
    && (forall i, j | 0 <= i < j < |s| :: s[i] != s[j])
    && forall i | 0 <= i < |s| - 1 :: s[i].next == s[i + 1] && s[i + 1].prev == s[i]
  }

  /** The physical plans are those of the run. */
  ghost predicate Are(s: seq<PhysicalPlan>, plans: seq<Made>) {
    |s| == |plans| && forall i | 0 <= i < |s| :: s[i].node == plans[i].node
  }

  /** An INSERT, and the INSERT that its plan has for a parent. */
  type Child = (Node, E.Option<Node>)

  ghost function NodeOf(x: PhysicalPlan?): E.Option<Node> { if x == null then E.None else E.Some(x.node) }

  /** Every INSERT below one in a query, with the one it stands in. One that is reached from several INSERTs stands
      in all of them. */
  ghost function Children(p: Logical, parent: E.Option<Node>): set<Child>
    decreases p
  {
    match p
    case Insert(node, body) => {(node, parent)} + ChildrenIn(body, E.Some(node))
    case SetOperation(l, r) => Children(l, parent) + Children(r, parent)
  }

  ghost function ChildrenIn(x: Term, parent: E.Option<Node>): set<Child>
    decreases x
  {
    match x
    case Nothing => {}
    case Both(l, r) => ChildrenIn(l, parent) + ChildrenIn(r, parent)
    case Held(_, plan) => Children(plan, parent)
    case Listed(plan) => Children(plan, parent)
  }

  /** Plans have the parents that they should have. */
  ghost predicate Parented(s: seq<PhysicalPlan>, children: set<Child>) {
    forall x <- s :: (x.node, NodeOf(x.parent)) in children
  }

  lemma ParentedJoined(s: seq<PhysicalPlan>, t: seq<PhysicalPlan>, a: set<Child>, b: set<Child>)
    requires Parented(s, a) && Parented(t, b)
    ensures Parented(s + t, a + b) && Parented(t + s, a + b)
  {}

  lemma ParentedMore(s: seq<PhysicalPlan>, a: set<Child>, b: set<Child>)
    requires Parented(s, a) && a <= b
    ensures Parented(s, b)
  {}

  /** A new plan in front of the list. */
  method Push(node: Node, parent: PhysicalPlan?, last: LastPlan, ghost s: seq<PhysicalPlan>) returns (out: PhysicalPlan)
    requires ListOf(last.head, s)
    modifies last, set x <- s
    ensures fresh(out) && out.node == node && out.parent == parent && last.head == out && ListOf(out, [out] + s)
  {
    out := new PhysicalPlan(node, parent);
    out.next := last.head;
    if last.head != null { last.head.prev := out; }
    last.head := out;
  }

  /** Puts what the walk returned into an operand. */
  method Replace(n: Node, right: bool, o: Node?, ghost lab: Terms, ghost done: set<Part>)
    returns (ghost done': set<Part>)
    requires n in lab && n.kind.OperatorNode? && Labelled(lab, done) && lab[n].Both?
    requires var x := if right then lab[n].right else lab[n].left;
      if x.Held? then x.place == Place(n, right) && o != null && o.kind.KeyNode? && o.from == OutputOf(x.plan)
        else OperandMeans(o, Place(n, right), x, lab, done)
    modifies n`left, n`right
    ensures done' == (if (if right then lab[n].right else lab[n].left).Held? then done + {Place(n, right)} else done)
    ensures Labelled(lab, done')
  {
    NodeKnown(n, lab, done);
    ghost var x := if right then lab[n].right else lab[n].left;
    done' := if x.Held? then done + {Place(n, right)} else done;
    if right { n.right := o; } else { n.left := o; }
    forall m <- lab.Keys ensures NodeMeans(m, lab, done') {
      assert old(NodeMeans(m, lab, done));
    }
  }

  /** What is done when a walk returns; the place itself is done once its operand has been replaced. */
  ghost function Entered(x: Term, done: set<Part>): set<Part> {
    if x.Held? && x.place !in done then Generated(x.plan, E.Some(x.place), done).done else Walked(x, done).done
  }

  lemma AreJoined(s: seq<PhysicalPlan>, t: seq<PhysicalPlan>, a: seq<Made>, b: seq<Made>)
    requires Are(s, a) && Are(t, b)
    ensures Are(s + t, a + b)
  {}

  lemma InEither<T>(a: seq<T>, b: seq<T>)
    ensures forall x <- a + b :: x in a || x in b
  {}

  /** generate_physical_plan. */
  method Generate(plan: Node, parent: PhysicalPlan?, last: LastPlan, ghost feeds: E.Option<Part>, ghost lab: Terms,
    ghost done: set<Part>, ghost s: seq<PhysicalPlan>)
    returns (out: PhysicalPlan, ghost s': seq<PhysicalPlan>)
    requires plan in lab && plan.IsPlan() && Labelled(lab, done) && ListOf(last.head, s) && lab[plan].Listed?
    modifies last, (set x <- s), lab.Keys
    ensures var run := Generated(lab[plan].plan, feeds, done); Labelled(lab, run.done) && Are(s', run.plans)
    ensures ListOf(last.head, s' + s) && (forall x <- s' :: fresh(x)) && out in s'
    ensures plan.kind.InsertNode? ==> out.node == plan && out.parent == parent
    ensures out.node == OutputOf(lab[plan].plan)
    ensures Parented(s', Children(lab[plan].plan, NodeOf(parent)))
    decreases lab[plan].plan, 1
  {
    hide ListOf, Labelled, Are, Reads, Parented;
    NodeKnown(plan, lab, done);
    ghost var p := lab[plan].plan;
    if plan.kind.SetNode? {
      ghost var b := Generated(p.right, feeds, done);
      ghost var right;
      out, right := Generate(plan.right, parent, last, feeds, lab, done, s);
      NodeKnown(plan, lab, b.done);
      InEither(right, s);
      ghost var left;
      out, left := Generate(plan.left, parent, last, feeds, lab, b.done, right + s);
      s' := left + right;
      assert left + (right + s) == s' + s;
      AreJoined(left, right, Generated(p.left, feeds, b.done).plans, b.plans);
      ParentedJoined(left, right, Children(p.left, NodeOf(parent)), Children(p.right, NodeOf(parent)));
    } else {
      out := Push(plan, parent, last, s);
      ghost var d := done + {Start(plan)};
      StartKeeps(lab, done, plan);
      ghost var more;
      InEither([out], s);
      more := GenerateBody(plan, out, last, lab, d, [out] + s);
      s' := more + [out];
      assert more + ([out] + s) == s' + s;
      OneMade(out, Made(plan, Reads(p.body), feeds));
      AreJoined(more, [out], Walked(p.body, d).plans, [Made(plan, Reads(p.body), feeds)]);
      OneParented(out);
      ParentedJoined([out], more, {(plan, NodeOf(parent))}, ChildrenIn(p.body, E.Some(plan)));
    }
  }

  /** What an INSERT reads from: its FROM list, its WHERE and its projection. */
  method GenerateBody(plan: Node, out: PhysicalPlan, last: LastPlan, ghost lab: Terms, ghost done: set<Part>,
    ghost s: seq<PhysicalPlan>)
    returns (ghost s': seq<PhysicalPlan>)
    requires plan in lab && plan.kind.InsertNode? && Labelled(lab, done) && ListOf(last.head, s) && lab[plan].Listed?
    requires lab[plan].plan.Insert? && out.node == plan
    modifies last, (set x <- s), lab.Keys
    ensures var run := Walked(lab[plan].plan.body, done); Labelled(lab, run.done) && Are(s', run.plans)
    ensures Parented(s', ChildrenIn(lab[plan].plan.body, E.Some(plan)))
    ensures ListOf(last.head, s' + s) && forall x <- s' :: fresh(x)
    decreases lab[plan].plan, 0
  {
    hide ListOf, Labelled, Are, Generated, Walked, Parented;
    NodeKnown(plan, lab, done);
    ghost var from, where, projection := lab[plan.from], lab[plan.left], lab[plan.right];
    ghost var froms, wheres, projections;
    froms := GenerateJoins(plan.from, out, last, lab, done, s);
    ghost var d := Walked(from, done).done;
    NodeKnown(plan, lab, d);
    InEither(froms, s);
    var walked;
    walked, wheres := Walk(plan.left, out, last, where, Place(plan, false), lab, d, froms + s);
    EnteredIs(where, d);
    ghost var d' := Walked(where, d).done;
    NodeKnown(plan, lab, d');
    InEither(wheres, froms + s);
    assert wheres + (froms + s) == (wheres + froms) + s;
    walked, projections := Walk(plan.right, out, last, projection, Place(plan, true), lab, d', wheres + froms + s);
    EnteredIs(projection, d');
    s' := projections + wheres + froms;
    assert projections + (wheres + froms + s) == s' + s;
    BodyRun(from, where, projection, done);
    AreJoined(projections, wheres, Walked(projection, d').plans, Walked(where, d).plans);
    AreJoined(projections + wheres, froms, Walked(Both(where, projection), d).plans, Walked(from, done).plans);
    ghost var parent := E.Some(plan);
    ParentedJoined(wheres, projections, ChildrenIn(where, parent), ChildrenIn(projection, parent));
    ParentedJoined(froms, projections + wheres, ChildrenIn(from, parent), ChildrenIn(Both(where, projection), parent));
  }

  lemma BodyRun(from: Term, where: Term, projection: Term, done: set<Part>)
    ensures var d := Walked(from, done).done;
      var d' := Walked(where, d).done;
      && Walked(Both(where, projection), d).plans == Walked(projection, d').plans + Walked(where, d).plans
      && Walked(Both(from, Both(where, projection)), done)
         == Run(Walked(Both(where, projection), d).plans + Walked(from, done).plans, Walked(projection, d').done)
  {}

  /** One entry of the FROM list. */
  method GenerateTable(table: Node, parent: PhysicalPlan, last: LastPlan, ghost lab: Terms, ghost done: set<Part>,
    ghost s: seq<PhysicalPlan>)
    returns (ghost s': seq<PhysicalPlan>)
    requires table in lab && (table.IsPlan() || table.kind.OtherNode?) && Labelled(lab, done) && ListOf(last.head, s)
    modifies last, (set x <- s), lab.Keys
    ensures var run := Walked(lab[table], done); Labelled(lab, run.done) && Are(s', run.plans)
    ensures ListOf(last.head, s' + s) && forall x <- s' :: fresh(x)
    ensures Parented(s', ChildrenIn(lab[table], E.Some(parent.node)))
    decreases lab[table], 2
  {
    hide ListOf, Labelled, Are, Generated, Parented;
    NodeKnown(table, lab, done);
    s' := [];
    assert s' + s == s;
    NoneAre();
    NoneParented(ChildrenIn(lab[table], E.Some(parent.node)));
    if table.IsPlan() {
      var sub;
      sub, s' := Generate(table, parent, last, E.None, lab, done, s);
    }
  }

  /** The loop over the FROM list. */
  method GenerateJoins(join: Node, parent: PhysicalPlan, last: LastPlan, ghost lab: Terms, ghost done: set<Part>,
    ghost s: seq<PhysicalPlan>)
    returns (ghost s': seq<PhysicalPlan>)
    requires join in lab && join.kind.JoinNode? && Labelled(lab, done) && ListOf(last.head, s)
    modifies last, (set x <- s), lab.Keys
    ensures var run := Walked(lab[join], done); Labelled(lab, run.done) && Are(s', run.plans)
    ensures ListOf(last.head, s' + s) && forall x <- s' :: fresh(x)
    ensures Parented(s', ChildrenIn(lab[join], E.Some(parent.node)))
    decreases lab[join], 0
  {
    hide ListOf, Labelled, Are, Generated, Parented, Children, OperandMeans;
    s' := [];
    assert s' + s == s;
    var cur: Node? := join;
    ghost var rest, d, got := lab[join], done, [];
    ghost var children := ChildrenIn(rest, E.Some(parent.node));
    NoneAre();
    NoneParented(children);
    while cur != null
      invariant cur == null ==> rest == Nothing
      invariant cur != null ==> cur in lab && cur.kind.JoinNode? && lab[cur] == rest
      invariant rest == lab[join] || rest < lab[join]
      invariant Labelled(lab, d) && ListOf(last.head, s' + s) && forall x <- s' :: fresh(x)
      invariant Parented(s', children) && ChildrenIn(rest, E.Some(parent.node)) <= children
      invariant Are(s', got) && Walked(lab[join], done) == Run(Walked(rest, d).plans + got, Walked(rest, d).done)
      decreases rest, cur != null
    {
      NodeKnown(cur, lab, d);
      if cur.left == null { break; }
      InEither(s', s);
      ghost var more := GenerateTable(cur.left, parent, last, lab, d, s' + s);
      assert more + (s' + s) == (more + s') + s;
      AreJoined(more, s', Walked(rest.left, d).plans, got);
      ParentedMore(more, ChildrenIn(rest.left, E.Some(parent.node)), children);
      ParentedJoined(more, s', children, children);
      assert children + children == children;
      s' := more + s';
      got := Walked(rest.left, d).plans + got;
      d := Walked(rest.left, d).done;
      NodeKnown(cur, lab, d);
      cur := cur.right;
      rest := rest.right;
    }
    assert [] + got == got;
  }

  /** walk_where_statement: plans on the way are generated, and output keys returned for them. */
  method Walk(stmt: Node?, parent: PhysicalPlan, last: LastPlan, ghost x: Term, ghost n: Part, ghost lab: Terms,
    ghost done: set<Part>, ghost s: seq<PhysicalPlan>)
    returns (r: Node?, ghost s': seq<PhysicalPlan>)
    requires OperandMeans(stmt, n, x, lab, done) && Labelled(lab, done) && ListOf(last.head, s)
    modifies last, (set x <- s), lab.Keys
    ensures Labelled(lab, Entered(x, done)) && Are(s', Walked(x, done).plans)
    ensures if x.Held? then r != null && r.kind.KeyNode? && r.from == OutputOf(x.plan) else r == stmt
    ensures ListOf(last.head, s' + s) && forall x <- s' :: fresh(x)
    ensures Parented(s', ChildrenIn(x, E.Some(parent.node)))
    decreases x, 1
  {
    hide ListOf, Labelled, Are, Generated, Parented;
    r, s' := stmt, [];
    assert s' + s == s;
    NoneAre();
    NoneParented(ChildrenIn(x, E.Some(parent.node)));
    if stmt == null || stmt.kind.KeyNode? || stmt.kind.OtherNode? {
      if stmt != null && stmt in lab { NodeKnown(stmt, lab, done); }
    } else if stmt.IsPlan() {
      var out;
      out, s' := Generate(stmt, parent, last, E.Some(n), lab, done, s);
      r := new Node(KeyNode, out.node, null, null);
    } else {
      s' := WalkOperands(stmt, parent, last, lab, done, s);
    }
  }

  /** Both operands, and what the walk returns for them put in their place. */
  method WalkOperands(stmt: Node, parent: PhysicalPlan, last: LastPlan, ghost lab: Terms, ghost done: set<Part>,
    ghost s: seq<PhysicalPlan>)
    returns (ghost s': seq<PhysicalPlan>)
    requires stmt in lab && stmt.kind.OperatorNode? && Labelled(lab, done) && ListOf(last.head, s)
    modifies last, (set x <- s), lab.Keys
    ensures lab[stmt].Both? && Labelled(lab, Walked(lab[stmt], done).done) && Are(s', Walked(lab[stmt], done).plans)
    ensures ListOf(last.head, s' + s) && forall x <- s' :: fresh(x)
    ensures Parented(s', ChildrenIn(lab[stmt], E.Some(parent.node)))
    decreases lab[stmt], 0
  {
    hide ListOf, Labelled, Are, Generated, Entered, Parented;
    NodeKnown(stmt, lab, done);
    ghost var x := lab[stmt];
    ghost var lefts, rights;
    var o;
    o, lefts := Walk(stmt.left, parent, last, x.left, Place(stmt, false), lab, done, s);
    ghost var d := Replace(stmt, false, o, lab, Entered(x.left, done));
    EnteredIs(x.left, done);
    NodeKnown(stmt, lab, d);
    InEither(lefts, s);
    o, rights := Walk(stmt.right, parent, last, x.right, Place(stmt, true), lab, d, lefts + s);
    ghost var d' := Replace(stmt, true, o, lab, Entered(x.right, d));
    EnteredIs(x.right, d);
    s' := rights + lefts;
    assert rights + (lefts + s) == s' + s;
    AreJoined(rights, lefts, Walked(x.right, d).plans, Walked(x.left, done).plans);
    ParentedJoined(lefts, rights, ChildrenIn(x.left, E.Some(parent.node)), ChildrenIn(x.right, E.Some(parent.node)));
  }

  lemma EnteredIs(x: Term, done: set<Part>)
    ensures Walked(x, done).done == if x.Held? then Entered(x, done) + {x.place} else Entered(x, done)
  {}

  lemma NoneAre()
    ensures Are([], [])
  {}

  lemma NoneParented(children: set<Child>)
    ensures Parented([], children)
  {}

  lemma OneMade(out: PhysicalPlan, e: Made)
    requires out.node == e.node
    ensures Are([out], [e])
  {}

  lemma OneParented(out: PhysicalPlan)
    ensures Parented([out], {(out.node, NodeOf(out.parent))})
  {}

  lemma StartKeeps(lab: Terms, done: set<Part>, node: Node)
    requires Labelled(lab, done)
    ensures Labelled(lab, done + {Start(node)})
  {
    forall n <- lab.Keys ensures NodeMeans(n, lab, done + {Start(node)}) { assert NodeMeans(n, lab, done); }
  }


  const EMPTY_BODY := Both(Nothing, Both(Nothing, Nothing))

  /** The body of an INSERT whose WHERE is an IN node with a sub-select. */
  function InBody(inNode: Node, sub: Node): Term {
    Both(Nothing, Both(Both(Nothing, Held(Place(inNode, true), Insert(sub, EMPTY_BODY))), Nothing))
  }

  lemma EmptyRun(node: Node, feeds: E.Option<Part>, done: set<Part>)
    ensures Generated(Insert(node, EMPTY_BODY), feeds, done) == Run([Made(node, {}, feeds)], done + {Start(node)})
  {
    assert Walked(EMPTY_BODY.right, done + {Start(node)}) == Run([], done + {Start(node)});
    assert Walked(EMPTY_BODY, done + {Start(node)}) == Run([], done + {Start(node)});
    assert Reads(EMPTY_BODY.right) == {} && Reads(EMPTY_BODY) == {};
  }

  lemma InBodyRun(inNode: Node, sub: Node, done: set<Part>)
    ensures var n := Place(inNode, true);
      && Walked(InBody(inNode, sub), done)
        == (if n in done then Run([], done) else Run([Made(sub, {}, E.Some(n))], done + {Start(sub)} + {n}))
      && Reads(InBody(inNode, sub)) == {n}
  {
    var n, x := Place(inNode, true), InBody(inNode, sub);
    EmptyRun(sub, E.Some(n), done);
    var run := if n in done then Run([], done) else Run([Made(sub, {}, E.Some(n))], done + {Start(sub)} + {n});
    assert Walked(x.right.left.right, done) == run;
    assert Walked(x.right.left, done) == run;
    assert Walked(x.right, done) == run;
    assert Reads(x.right.left) == {n} && Reads(x.right) == {n};
  }

  lemma SplitRun(a: Node, b: Node, sub: Node, inNode: Node)
    requires a != b && a != sub && b != sub
    ensures var x := InBody(inNode, sub);
      var plans := Generated(SetOperation(Insert(a, x), Insert(b, x)), E.None, {}).plans;
      |plans| == 3 && plans[0].node == a && plans[1].node == sub && plans[2].node == b
  {
    var x, n := InBody(inNode, sub), Place(inNode, true);
    InBodyRun(inNode, sub, {Start(b)});
    var right := Generated(Insert(b, x), E.None, {});
    assert {} + {Start(b)} == {Start(b)};
    assert right.plans == [Made(sub, {}, E.Some(n))] + [Made(b, {n}, E.None)] && n in right.done;
    InBodyRun(inNode, sub, right.done + {Start(a)});
    var left := Generated(Insert(a, x), E.None, right.done);
    assert left.plans == [] + [Made(a, {n}, E.None)];
  }

  /** The plan for a IN (SELECT ..) AND (id = 1 OR id = 2), split: the leaves a and b share the IN node. */
  ghost predicate SplitQuery(none: Node, table: Node, sub: Node, inNode: Node, a: Node, b: Node, union: Node)
    reads none, table, sub, inNode, a, b, union
  {
    && none.kind == OtherNode && table.kind == JoinNode && table.left == null && a != b && a != sub && b != sub
    && (forall i <- {a, b, sub} :: i.kind == InsertNode && i.from == table && i.right == none)
    && sub.left == none && a.left == inNode && b.left == inNode
    && inNode.kind == OperatorNode && inNode.left == none && inNode.right == sub
    && union.kind == SetNode && union.left == a && union.right == b
  }

  ghost function SplitLabels(none: Node, table: Node, sub: Node, inNode: Node, a: Node, b: Node,
          union: Node): (lab: Terms)
    ensures lab.Keys == {none, table, sub, inNode, a, b, union}
  {
    var x := InBody(inNode, sub);
    map n <- {none, table, sub, inNode, a, b, union} ::
      match n.kind
      case InsertNode => Listed(Insert(n, if n == sub then EMPTY_BODY else x))
      case SetNode => Listed(SetOperation(Insert(a, x), Insert(b, x)))
      case OperatorNode => x.right.left
      case _ => Nothing
  }

  lemma SplitLabelled(none: Node, table: Node, sub: Node, inNode: Node, a: Node, b: Node, union: Node)
    requires SplitQuery(none, table, sub, inNode, a, b, union)
    ensures Labelled(SplitLabels(none, table, sub, inNode, a, b, union), {})
  {
    var lab := SplitLabels(none, table, sub, inNode, a, b, union);
    assert lab[none] == Nothing == lab[table] && lab[sub] == Listed(Insert(sub, EMPTY_BODY));
    assert NodeMeans(none, lab, {}) && NodeMeans(table, lab, {}) && NodeMeans(sub, lab, {})
      && NodeMeans(inNode, lab, {});
    assert NodeMeans(a, lab, {}) && NodeMeans(b, lab, {}) && NodeMeans(union, lab, {});
  }

  method MakeSplitQuery() returns (none: Node, table: Node, sub: Node, inNode: Node, a: Node, b: Node, union: Node)
    ensures SplitQuery(none, table, sub, inNode, a, b, union) && fresh({none, table, sub, inNode, a, b, union})
  {
    none := new Node(OtherNode, null, null, null);
    table := new Node(JoinNode, null, null, null);
    sub := new Node(InsertNode, table, none, none);
    inNode := new Node(OperatorNode, null, none, sub);
    a := new Node(InsertNode, table, inNode, none);
    b := new Node(InsertNode, table, inNode, none);
    union := new Node(SetNode, null, a, b);
  }

  /** The plan of the first leaf is the first in the list, before that of the sub-select it reads from. */
  method RunSplitQuery() returns (a: Node, sub: Node, b: Node, last: LastPlan, ghost s: seq<PhysicalPlan>)
    ensures ListOf(last.head, s) && |s| == 3 && s[0].node == a && s[1].node == sub && s[2].node == b
    ensures a != b && sub != a && sub != b
  {
    hide Labelled, NodeMeans, Generated, InBody;
    var none, table, inNode, union;
    none, table, sub, inNode, a, b, union := MakeSplitQuery();
    ghost var lab := SplitLabels(none, table, sub, inNode, a, b, union);
    SplitLabelled(none, table, sub, inNode, a, b, union);
    last := new LastPlan;
    last.head := null;
    var out;
    out, s := Generate(union, null, last, E.None, lab, {}, []);
    assert s + [] == s;
    SplitRun(a, b, sub, inNode);
  }
}
