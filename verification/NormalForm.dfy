/** lp_apply_not and lp_make_normal_disjunctive_form on heap nodes, which they change in place and
    share between clauses. */
module NormalForm {
  import opened Where
  import opened Negation

  /** A node of a WHERE tree. `left` and `right` are operand[0] and operand[1] of a connective; `lhs`
      and `rhs` are the scalar operands of a test, which no function here writes. */
  class LogicalPlan {
    var tag: Tag
    var left: LogicalPlan?
    var right: LogicalPlan?
    const lhs: Operand
    const rhs: Operand

    constructor (tag: Tag)
      ensures this.tag == tag && left == null && right == null
    {
      this.tag, left, right := tag, null, null;
      lhs, rhs := Constant(Null), Constant(Null);
    }

    function AtomOf(): Atom reads this { Atom(tag, lhs, rhs) }
  }

  // ----- Unshared trees: what the parser hands over -----

  /** A tree together with the nodes it is made of; `tag` is that of an AND or an OR. */
  datatype Owned =
    | OwnTest(node: LogicalPlan, atom: Atom)
    | OwnNot(node: LogicalPlan, arg: Owned)
    | OwnPair(node: LogicalPlan, tag: Tag, left: Owned, right: Owned)
  {
    ghost function Nodes(): set<LogicalPlan> {
      match this
      case OwnTest(n, _) => {n}
      case OwnNot(n, x) => {n} + x.Nodes()
      case OwnPair(n, _, x, y) => {n} + x.Nodes() + y.Nodes()
    }

    ghost function Tree(): Expr {
      match this
      case OwnTest(_, a) => Test(a)
      case OwnNot(_, x) => Not(x.Tree())
      case OwnPair(_, tag, x, y) => if tag.BooleanAnd? then And(x.Tree(), y.Tree()) else Or(x.Tree(), y.Tree())
    }

    /** No node occurs twice. */
    ghost predicate Separate() {
      match this
      case OwnTest(n, _) => true
      case OwnNot(n, x) => n !in x.Nodes() && x.Separate()
      case OwnPair(n, _, x, y) => n !in x.Nodes() + y.Nodes() && x.Nodes() !! y.Nodes() && x.Separate() && y.Separate()
    }

    /** The heap holds this tree. */
    ghost predicate Holds()
      reads Nodes()
    {
      match this
      case OwnTest(n, a) => n.AtomOf() == a && !a.tag.Connective()
      case OwnNot(n, x) => n.tag == BooleanNot && n.left == x.node && x.Holds()
      case OwnPair(n, tag, x, y) =>
        && n.tag == tag && (tag.BooleanAnd? || tag.BooleanOr?)
        && n.left == x.node && n.right == y.node && x.Holds() && y.Holds()
    }
  }

  lemma RootTagHeld(o: Owned)
    requires o.Holds()
    ensures o.node.tag == RootTag(o.Tree())
  {}

  lemma NodesAllocated(o: Owned)
    ensures forall n <- o.Nodes() :: allocated(n)
  {
    match o
    case OwnTest(_, _) =>
    case OwnNot(_, x) => NodesAllocated(x);
    case OwnPair(_, _, x, y) => NodesAllocated(x); NodesAllocated(y);
  }

  // ----- Shared graphs: what normalisation leaves behind -----

  /** The expression each node of a region stands for. */
  type Labels = map<LogicalPlan, Expr>

  ghost predicate Operand0(n: LogicalPlan, lab: Labels)
    reads n
  {
    n.left != null && n.left in lab
  }

  ghost predicate Operands(n: LogicalPlan, lab: Labels)
    reads n
  {
    Operand0(n, lab) && n.right != null && n.right in lab
  }

  /** A node's label follows from its tag and its operands' labels; a NOT stands only above an exempt test. */
  ghost predicate NodeOk(n: LogicalPlan, lab: Labels)
    requires n in lab
    reads n, lab.Keys
  {
    match n.tag
    case BooleanAnd => Operands(n, lab) && Equiv(lab[n], And(lab[n.left], lab[n.right]))
    case BooleanOr => Operands(n, lab) && Equiv(lab[n], Or(lab[n.left], lab[n.right]))
    case BooleanNot => Operand0(n, lab) && n.left.tag.Exempt() && lab[n] == Not(Test(n.left.AtomOf()))
    case _ => lab[n] == Test(n.AtomOf())
  }

  /** The labels describe the heap. Nothing is said about sharing. */
  ghost predicate Consistent(lab: Labels)
    reads lab.Keys
  {
    forall n <- lab.Keys :: NodeOk(n, lab)
  }

  lemma Ok(n: LogicalPlan, lab: Labels)
    requires Consistent(lab) && n in lab
    ensures NodeOk(n, lab)
  {}

  ghost predicate Extends(lab: Labels, lab': Labels) {
    forall n <- lab.Keys :: n in lab' && lab'[n] == lab[n]
  }

  // ----- What a call may be given -----

  /** Normalisation first sees the parser's tree, later the shared graphs of its own making. */
  datatype Given = Nothing | Tree(o: Owned) | Graph(root: LogicalPlan, lab: Labels)
  {
    ghost function Region(): set<LogicalPlan> {
      match this
      case Nothing => {}
      case Tree(o) => o.Nodes()
      case Graph(_, lab) => lab.Keys
    }

    ghost predicate Fits(root: LogicalPlan?)
      reads Region()
    {
      match this
      case Nothing => root == null
      case Tree(o) => o.node == root && o.Separate() && o.Holds()
      case Graph(r, lab) => r == root && r in lab && Consistent(lab)
    }

    /** The tree to be normalised, its NOTs pushed down. */
    ghost function Meaning(): Expr
      requires !Nothing? && (Graph? ==> root in lab)
    {
      if Tree? then Pushed(o.Tree(), false) else lab[root]
    }

    ghost function Measure(): nat
      requires Graph? ==> root in lab
    {
      match this
      case Nothing => 0
      case Tree(o) => Size(o.Tree())
      case Graph(r, lab) => Rank(lab[r])
    }
  }

  /** lp_apply_not. Below an even count it leaves a graph of our making alone. */
  method ApplyNot(root: LogicalPlan, count: nat, ghost g: Given) returns (r: LogicalPlan, ghost g': Given)
    requires g.Fits(root) && (g.Graph? ==> count == 0)
    modifies if g.Tree? then g.o.Nodes() else {}
    ensures g'.Fits(r) && (g.Tree? <==> g'.Tree?) && g'.Region() <= g.Region()
    ensures g.Graph? ==> r == root && g' == g
    ensures g.Tree? ==> g'.o.Tree() == Push(g.o.Tree(), count)
    decreases g.Measure(), 0
  {
    r, g' := root, g;
    if root.tag == BooleanNot {
      if g.Tree? { RootTagHeld(g.o.arg); }
      if root.left.tag.Exempt() {
        return;
      }
      r, g' := ApplyNot(root.left, count + 1, Tree(g.o.arg));
      return;
    }
    if count % 2 == 1 {
      if root.tag == BooleanOr {
        ghost var x, y := ApplyNotToOperands(root, BooleanAnd, count, g.o.left, g.o.right);
        g' := Tree(OwnPair(root, BooleanAnd, x, y));
      } else if root.tag == BooleanAnd {
        ghost var x, y := ApplyNotToOperands(root, BooleanOr, count, g.o.left, g.o.right);
        g' := Tree(OwnPair(root, BooleanOr, x, y));
      } else {
        root.tag := root.tag.Opposite();
        g' := Tree(OwnTest(root, root.AtomOf()));
      }
    }
  }

  /** The two De Morgan cases of lp_apply_not. */
  method ApplyNotToOperands(root: LogicalPlan, tag: Tag, count: nat, ghost x: Owned, ghost y: Owned)
    returns (ghost x': Owned, ghost y': Owned)
    requires x.Separate() && x.Holds() && y.Separate() && y.Holds()
    requires root.left == x.node && root.right == y.node
    requires root !in x.Nodes() + y.Nodes() && x.Nodes() !! y.Nodes()
    modifies root, x.Nodes(), y.Nodes()
    ensures x'.Separate() && x'.Holds() && x'.Nodes() <= x.Nodes()
    ensures y'.Separate() && y'.Holds() && y'.Nodes() <= y.Nodes()
    ensures root.tag == tag && root.left == x'.node && root.right == y'.node
    ensures x'.Tree() == Push(x.Tree(), count) && y'.Tree() == Push(y.Tree(), count)
    decreases Size(x.Tree()) + Size(y.Tree()), 1
  {
    root.tag := tag;
    assert x.Holds() && y.Holds();
    var left, right;
    ghost var gx, gy;
    NodesAllocated(y);
    left, gx := ApplyNot(root.left, count, Tree(x));
    x' := gx.o;
    root.left := left;
    assert x'.Holds() && y.Holds();
    NodesAllocated(x');
    right, gy := ApplyNot(root.right, count, Tree(y));
    y' := gy.o;
    root.right := right;
    assert x'.Holds() && y'.Holds();
  }

  /** What is still to be covered when the walk stands at `l` and `r`. */
  ghost function Remaining(l: LogicalPlan, r: LogicalPlan, right: LogicalPlan, lab: Labels): Expr
    requires Consistent(lab) && l in lab && r in lab && right in lab
    reads l, lab.Keys
  {
    if l.tag.BooleanOr? then Or(And(lab[l.left], lab[r]), And(lab[l.right], lab[right])) else And(lab[l], lab[r])
  }

  ghost function Head(n: LogicalPlan): LogicalPlan
    requires n.tag.BooleanOr? ==> n.left != null
    reads n
  {
    if n.tag.BooleanOr? then n.left else n
  }

  /** The conjunction of the clauses at hand. */
  ghost function Pair(l: LogicalPlan, r: LogicalPlan, lab: Labels): Expr
    requires Consistent(lab) && l in lab && r in lab
    reads l, r, lab.Keys
  {
    assert NodeOk(l, lab) && NodeOk(r, lab);
    And(lab[Head(l)], lab[Head(r)])
  }

  /** What is to be covered after the pair at `l` and `r`. */
  ghost function Next(l: LogicalPlan, r: LogicalPlan, right: LogicalPlan, lab: Labels): Expr
    requires Consistent(lab) && l in lab && r in lab && right in lab
    requires l.tag.BooleanOr? || r.tag.BooleanOr?
    reads l, r, lab.Keys
  {
    assert NodeOk(l, lab) && NodeOk(r, lab);
    if r.tag.BooleanOr? then Remaining(l, r.right, right, lab) else And(lab[l.right], lab[right])
  }

  lemma RemainingAtStart(l: LogicalPlan, right: LogicalPlan, lab: Labels)
    requires Consistent(lab) && l in lab && right in lab
    ensures Equiv(Remaining(l, right, right, lab), And(lab[l], lab[right]))
  {
    assert NodeOk(l, lab);
    if l.tag.BooleanOr? {
      var a, b, c := lab[l.left], lab[l.right], lab[right];
      EquivPair(lab[l], Or(a, b), c, c);
      DistributeLeft(a, b, c);
      EquivTrans(And(lab[l], c), And(Or(a, b), c), Or(And(a, c), And(b, c)));
    }
  }

  /** Taking the pair at hand off what remains leaves what remains at the next position. */
  lemma RemainingStep(l: LogicalPlan, r: LogicalPlan, right: LogicalPlan, lab: Labels)
    requires Consistent(lab) && l in lab && r in lab && right in lab
    requires l.tag.BooleanOr? || r.tag.BooleanOr?
    ensures Equiv(Remaining(l, r, right, lab), Or(Pair(l, r, lab), Next(l, r, right, lab)))
  {
    assert NodeOk(l, lab) && NodeOk(r, lab);
    if r.tag.BooleanOr? {
      var c, a, b := lab[Head(l)], lab[r.left], lab[r.right];
      EquivPair(c, c, lab[r], Or(a, b));
      DistributeRight(a, b, c);
      EquivTrans(And(c, lab[r]), And(c, Or(a, b)), Or(And(c, a), And(c, b)));
      if l.tag.BooleanOr? {
        var rest := And(lab[l.right], lab[right]);
        EquivPair(And(c, lab[r]), Or(And(c, a), And(c, b)), rest, rest);
        OrAssociates(And(c, a), And(c, b), rest);
        EquivTrans(Or(And(c, lab[r]), rest), Or(Or(And(c, a), And(c, b)), rest), Or(And(c, a), Or(And(c, b), rest)));
      }
    }
  }

  /** What remains is the pair at hand and, unless that is the last one, what remains at the next position. */
  lemma StepFacts(l: LogicalPlan, r: LogicalPlan, right: LogicalPlan, lab: Labels) returns (next: Expr)
    requires Consistent(lab) && l in lab && r in lab && right in lab
    ensures l.tag.BooleanOr? ==> Operands(l, lab)
    ensures r.tag.BooleanOr? ==> Operands(r, lab) && Rank(lab[r.right]) < Rank(lab[r])
    ensures if l.tag.BooleanOr? || r.tag.BooleanOr? then Equiv(Remaining(l, r, right, lab), Or(Pair(l, r, lab), next))
            else Remaining(l, r, right, lab) == Pair(l, r, lab)
    ensures r.tag.BooleanOr? ==> next == Remaining(l, r.right, right, lab)
    ensures !r.tag.BooleanOr? && l.tag.BooleanOr? ==> next == And(lab[l.right], lab[right])
  {
    hide Equiv, Rank;
    assert NodeOk(l, lab) && NodeOk(r, lab);
    next := lab[l];
    if l.tag.BooleanOr? || r.tag.BooleanOr? {
      RemainingStep(l, r, right, lab);
      next := Next(l, r, right, lab);
    }
    if r.tag.BooleanOr? {
      OperandRanks(r, lab);
    }
  }

  ghost predicate AllDifferent(ns: seq<LogicalPlan>) {
    forall i, j | 0 <= i < j < |ns| :: ns[i] != ns[j]
  }

  /** `n` is an OR of its first operand and of `next`; `e` and `rest` are what n and next stand for. */
  ghost predicate Filled(n: LogicalPlan, next: LogicalPlan, e: Expr, rest: Expr, lab: Labels)
    reads n
  {
    n.tag == BooleanOr && Operand0(n, lab) && n.right == next && Equiv(e, Or(lab[n.left], rest))
  }

  /** A chain under construction, outside the labelled region: `es` are its labels, and the last node
      is still open. */
  ghost predicate Chain(ns: seq<LogicalPlan>, es: seq<Expr>, lab: Labels)
    reads ns
  {
    && |ns| == |es| >= 1 && AllDifferent(ns) && (forall n <- ns :: n !in lab)
    && (forall i | 0 <= i < |ns| - 1 :: Filled(ns[i], ns[i + 1], es[i], es[i + 1], lab))
    && ns[|ns| - 1].left == null && ns[|ns| - 1].right == null
  }

  /** The whole chain as the code leaves it before the last item is promoted: all nodes but the last
      two are filled; the next-to-last holds the last pair and the last is the empty sentinel. */
  ghost predicate Complete(ns: seq<LogicalPlan>, es: seq<Expr>, lab: Labels)
    reads ns
  {
    && |ns| == |es| + 1 >= 2 && AllDifferent(ns) && (forall n <- ns :: n !in lab)
    && (forall i | 0 <= i < |es| - 1 :: Filled(ns[i], ns[i + 1], es[i], es[i + 1], lab))
    && Operand0(ns[|es| - 1], lab) && ns[|es| - 1].right == ns[|es|] && Equiv(es[|es| - 1], lab[ns[|es| - 1].left])
    && ns[|es|].left == null && ns[|es|].right == null
  }

  lemma NodeOkExtends(n: LogicalPlan, lab: Labels, lab': Labels)
    requires n in lab && NodeOk(n, lab) && Extends(lab, lab')
    ensures NodeOk(n, lab')
  {
    hide Equiv;
  }

  lemma AddNode(n: LogicalPlan, e: Expr, lab: Labels)
    requires Consistent(lab) && n !in lab && NodeOk(n, lab[n := e])
    ensures Consistent(lab[n := e]) && Extends(lab, lab[n := e])
  {
    hide Equiv;
    forall m <- lab.Keys ensures NodeOk(m, lab[n := e]) {
      assert NodeOk(m, lab);
      NodeOkExtends(m, lab, lab[n := e]);
    }
  }

  lemma AndNode(n: LogicalPlan, x: LogicalPlan, y: LogicalPlan, lab: Labels)
    requires Consistent(lab) && n !in lab && x in lab && y in lab && n.tag == BooleanAnd && n.left == x && n.right == y
    ensures Consistent(lab[n := And(lab[x], lab[y])]) && Extends(lab, lab[n := And(lab[x], lab[y])])
  {
    hide Equiv;
    EquivRefl(And(lab[x], lab[y]));
    AddNode(n, And(lab[x], lab[y]), lab);
  }

  /** The AND of the clauses at hand. */
  method MakePair(l: LogicalPlan, r: LogicalPlan, ghost base: Labels, ghost lab: Labels)
    returns (lp: LogicalPlan, ghost lab': Labels)
    requires Consistent(base) && Extends(base, lab) && Consistent(lab) && l in base && r in base
    ensures fresh(lp) && lp.tag == BooleanAnd && lab' == lab[lp := Pair(l, r, base)] && Consistent(lab')
  {
    hide Equiv, Consistent;
    Ok(l, base);
    Ok(r, base);
    lp := new LogicalPlan(BooleanAnd);
    var nextL := l;
    if nextL.tag == BooleanOr {
      nextL := nextL.left;
    }
    var nextR := r;
    if nextR.tag == BooleanOr {
      nextR := nextR.left;
    }
    lp.left := nextL;
    lp.right := nextR;
    lab' := lab[lp := And(lab[nextL], lab[nextR])];
    AndNode(lp, nextL, nextR, lab);
  }

  lemma ChainExtends(ns: seq<LogicalPlan>, es: seq<Expr>, lab: Labels, lab': Labels)
    requires Chain(ns, es, lab) && Extends(lab, lab') && forall n <- ns :: n !in lab'
    ensures Chain(ns, es, lab')
  {
    hide Equiv;
    forall i | 0 <= i < |ns| - 1 ensures Filled(ns[i], ns[i + 1], es[i], es[i + 1], lab') {
      assert Filled(ns[i], ns[i + 1], es[i], es[i + 1], lab);
    }
  }

  /** The chain so far and the region it refers to. */
  datatype Build = Build(ns: seq<LogicalPlan>, es: seq<Expr>, lab: Labels)

  /** `b'` continues `b` with new nodes only. */
  twostate predicate Grown(b: Build, new b': Build) {
    && Extends(b.lab, b'.lab) && fresh(b'.lab.Keys - b.lab.Keys)
    && forall n <- b'.ns :: fresh(n) || n in b.ns
  }

  /** An open chain that stands for `whole` once its last node stands for `rest`. */
  ghost predicate Open(first: LogicalPlan?, cur: LogicalPlan, b: Build, whole: Expr, rest: Expr)
    reads b.ns
  {
    && Chain(b.ns, b.es, b.lab) && first == b.ns[0] && cur == b.ns[|b.ns| - 1]
    && Equiv(whole, b.es[0]) && Equiv(b.es[|b.es| - 1], rest)
  }

  /** The state of the walk with `rest` still to cover out of `whole`: nothing built yet, or an open chain. */
  ghost predicate Walking(first: LogicalPlan?, cur: LogicalPlan?, b: Build, whole: Expr, rest: Expr)
    reads b.ns
  {
    if cur == null then b.ns == [] && b.es == [] && Equiv(whole, rest)
    else Open(first, cur, b, whole, rest) && |b.ns| >= 2 && cur.tag == BooleanOr
  }

  lemma WalkingEquiv(first: LogicalPlan?, cur: LogicalPlan?, b: Build, whole: Expr, rest: Expr, rest': Expr)
    requires Walking(first, cur, b, whole, rest) && Equiv(rest', rest)
    ensures Walking(first, cur, b, whole, rest')
  {
    hide Equiv;
    EquivSym(rest', rest);
    EquivTrans(if cur == null then whole else b.es[|b.es| - 1], rest, rest');
  }

  /** The walk is over; what is left to do is the promotion of the last item. */
  ghost predicate Done(first: LogicalPlan, b: Build, whole: Expr)
    reads b.ns, b.lab.Keys
  {
    && Complete(b.ns, b.es, b.lab) && first == b.ns[0] && Equiv(whole, b.es[0])
    && b.ns[|b.es| - 1].left.tag == BooleanAnd
  }

  /** The chain after a pair was put in, before it is said what comes next. */
  ghost predicate Added(first: LogicalPlan, cur: LogicalPlan, b: Build, whole: Expr, pair: Expr, rest: Expr)
    reads b.ns, b.lab.Keys
  {
    var k := |b.es| - 1;
    && |b.ns| == |b.es| + 1 >= 2 && AllDifferent(b.ns) && (forall n <- b.ns :: n !in b.lab)
    && (forall i | 0 <= i < k :: Filled(b.ns[i], b.ns[i + 1], b.es[i], b.es[i + 1], b.lab))
    && Operand0(b.ns[k], b.lab) && b.ns[k].right == b.ns[k + 1]
    && b.ns[k].left.tag == BooleanAnd && b.lab[b.ns[k].left] == pair
    && b.ns[k + 1].left == null && b.ns[k + 1].right == null
    && first == b.ns[0] && cur == b.ns[k + 1] && Equiv(whole, b.es[0]) && Equiv(b.es[k], rest)
  }

  /** The chain to put a pair into: a new one if there is none yet. */
  method OpenChain(first: LogicalPlan?, cur: LogicalPlan?, tag: Tag, ghost b: Build, ghost lab: Labels,
          ghost whole: Expr, ghost rest: Expr)
    returns (first': LogicalPlan, cur': LogicalPlan, ghost b': Build)
    requires Walking(first, cur, b, whole, rest) && Extends(b.lab, lab)
    requires forall n <- lab.Keys :: n in b.lab || n !in b.ns
    ensures b'.lab == lab && Open(first', cur', b', whole, rest)
    ensures cur == null ==> fresh(cur') && cur'.tag == tag && b'.ns == [cur'] && |b'.es| == 1
    ensures cur != null ==> cur' == cur && cur.tag == BooleanOr && b'.ns == b.ns && b'.es == b.es && |b.es| >= 2
  {
    hide Equiv;
    if cur == null {
      first' := new LogicalPlan(tag);
      cur' := first';
      b' := Build([cur'], [rest], lab);
      EquivRefl(rest);
    } else {
      first', cur', b' := first, cur, b.(lab := lab);
      ChainExtends(b.ns, b.es, b.lab, lab);
    }
  }

  /** Puts a pair into the open node and opens a new one behind it. */
  method Append(first: LogicalPlan, cur: LogicalPlan, lp: LogicalPlan, tag: Tag, ghost b: Build, ghost whole: Expr,
          ghost rest: Expr)
    returns (cur': LogicalPlan, ghost b': Build)
    requires Consistent(b.lab) && Open(first, cur, b, whole, rest) && lp in b.lab && lp.tag == BooleanAnd
    modifies cur
    ensures fresh(cur') && cur'.tag == tag && cur.tag == old(cur.tag) && Consistent(b.lab)
    ensures b' == b.(ns := b.ns + [cur']) && Added(first, cur', b', whole, b.lab[lp], rest)
    ensures |b.es| == |b.ns| && cur == b.ns[|b.ns| - 1] && cur' !in b.lab
  {
    hide Equiv;
    cur.left := lp;
    cur.right := new LogicalPlan(tag);
    cur' := cur.right;
    b' := b.(ns := b.ns + [cur']);
    forall i | 0 <= i < |b.ns| - 1 ensures Filled(b.ns[i], b.ns[i + 1], b.es[i], b.es[i + 1], b.lab) {
      assert old(Filled(b.ns[i], b.ns[i + 1], b.es[i], b.es[i + 1], b.lab));
    }
  }

  /** If more pairs follow, the chain goes on. */
  lemma GoesOn(first: LogicalPlan, cur: LogicalPlan, b: Build, whole: Expr, pair: Expr, rest: Expr, next: Expr)
    requires Added(first, cur, b, whole, pair, rest) && Equiv(rest, Or(pair, next))
    requires b.ns[|b.es| - 1].tag == BooleanOr && cur.tag == BooleanOr
    ensures Walking(first, cur, b.(es := b.es + [next]), whole, next)
  {
    hide Equiv;
    EquivTrans(b.es[|b.es| - 1], rest, Or(pair, next));
    EquivRefl(next);
  }

  /** If none follows, the chain is complete. */
  lemma Ends(first: LogicalPlan, cur: LogicalPlan, b: Build, whole: Expr, pair: Expr)
    requires Added(first, cur, b, whole, pair, pair)
    ensures Done(first, b, whole)
  {
    hide Equiv;
  }

  /** One round of the inner loop. The last pair ends the walk. */
  method AddPair(first: LogicalPlan?, cur: LogicalPlan?, l: LogicalPlan, r: LogicalPlan,
                 ghost lab: Labels, ghost b: Build, ghost whole: Expr, ghost rest: Expr, ghost next: Expr)
    returns (first': LogicalPlan, cur': LogicalPlan, ghost b': Build)
    requires Consistent(lab) && l in lab && r in lab && Consistent(b.lab) && Extends(lab, b.lab)
    requires Walking(first, cur, b, whole, rest) && (cur != null ==> cur !in b.lab)
    requires if l.tag.BooleanOr? || r.tag.BooleanOr? then Equiv(rest, Or(Pair(l, r, lab), next))
      else rest == Pair(l, r, lab)
    modifies cur
    ensures Consistent(b'.lab) && Grown(b, b') && fresh(cur') && cur' !in b'.lab
    ensures old(l.tag.BooleanOr? || r.tag.BooleanOr?) ==> Walking(first', cur', b', whole, next)
    ensures old(!l.tag.BooleanOr? && !r.tag.BooleanOr?) ==> Done(first', b', whole) && (|b'.es| > 1 <==> cur != null)
  {
    hide Equiv, Consistent, NodeOk, Chain, Open, Walking, Added, Done, Pair;
    var tag := BooleanOr;
    if l.tag != BooleanOr && r.tag != BooleanOr {
      tag := BooleanAnd;
    }
    var lp;
    ghost var lab';
    lp, lab' := MakePair(l, r, lab, b.lab);
    first', cur', b' := OpenChain(first, cur, tag, b, lab', whole, rest);
    cur', b' := Append(first', cur', lp, tag, b', whole, rest);
    if tag == BooleanOr {
      GoesOn(first', cur', b', whole, lab'[lp], rest, next);
      b' := b'.(es := b'.es + [next]);
    } else {
      Ends(first', cur', b', whole, lab'[lp]);
    }
  }

  lemma CompleteLinks(ns: seq<LogicalPlan>, es: seq<Expr>, lab: Labels)
    requires Complete(ns, es, lab)
    ensures forall i | 0 <= i < |es| :: ns[i].left != null && ns[i].right == ns[i + 1]
  {
    hide Equiv;
    forall i | 0 <= i < |es| ensures ns[i].left != null && ns[i].right == ns[i + 1] {
      if i < |es| - 1 { assert Filled(ns[i], ns[i + 1], es[i], es[i + 1], lab); }
    }
  }

  /** A chain whose last node is already in the region. */
  ghost predicate Closed(ns: seq<LogicalPlan>, es: seq<Expr>, lab: Labels)
    reads ns
  {
    && |ns| == |es| >= 1 && AllDifferent(ns) && (forall i | 0 <= i < |ns| - 1 :: ns[i] !in lab)
    && (forall i | 0 <= i < |ns| - 1 :: Filled(ns[i], ns[i + 1], es[i], es[i + 1], lab))
    && ns[|ns| - 1] in lab && Equiv(es[|ns| - 1], lab[ns[|ns| - 1]])
  }

  /** A closed chain joins the region. */
  lemma {:induction false} AbsorbChain(ns: seq<LogicalPlan>, es: seq<Expr>, lab: Labels) returns (lab': Labels)
    requires Consistent(lab) && Closed(ns, es, lab)
    ensures Consistent(lab') && Extends(lab, lab') && lab'.Keys == lab.Keys + set n <- ns
    ensures Equiv(es[0], lab'[ns[0]])
    decreases |ns|
  {
    hide Equiv;
    if |ns| == 1 {
      lab' := lab;
    } else {
      var rest := AbsorbChain(ns[1..], es[1..], lab);
      var n := ns[0];
      lab' := rest[n := es[0]];
      assert Filled(n, ns[1], es[0], es[1], lab);
      EquivRefl(lab[n.left]);
      EquivPair(lab[n.left], lab[n.left], es[1], rest[ns[1]]);
      EquivTrans(es[0], Or(lab[n.left], es[1]), Or(lab[n.left], rest[ns[1]]));
      EquivRefl(es[0]);
      AddNode(n, es[0], rest);
    }
  }

  /** The promotion of the last item: the next-to-last chain node takes over the last pair, and the
      node that held it drops out with the sentinel. */
  method Promote(first: LogicalPlan, ghost b: Build, ghost whole: Expr) returns (ret: LogicalPlan, ghost lab': Labels)
    requires Consistent(b.lab) && Done(first, b, whole)
    modifies set n <- b.ns
    ensures Consistent(lab') && Extends(b.lab, lab') && lab'.Keys <= b.lab.Keys + set n <- b.ns
    ensures ret in lab' && Equiv(whole, lab'[ret]) && (ret.tag == BooleanOr <==> |b.es| > 1)
  {
    hide Equiv, Consistent;
    ret := first;
    CompleteLinks(b.ns, b.es, b.lab);
    assert |b.es| > 1 ==> b.ns[1].left != null;
    if ret.right == null || ret.right.left == null {
      ret := ret.left;
      lab' := b.lab;
      EquivTrans(whole, b.es[0], lab'[ret]);
    } else {
      var prev := ret;
      var cur := ret.right;
      ghost var k := 1;
      while cur.right != null && cur.right.left != null
        invariant 1 <= k < |b.es| && prev == b.ns[k - 1] && cur == b.ns[k]
        invariant k < |b.es| - 1 ==> b.ns[k + 1].left != null
        decreases |b.es| - k
      {
        prev := cur;
        cur := cur.right;
        k := k + 1;
      }
      prev.right := cur.left;
      ghost var ns := b.ns[..k] + [cur.left];
      forall i | 0 <= i < k ensures Filled(ns[i], ns[i + 1], b.es[i], b.es[i + 1], b.lab) {
        assert old(Filled(b.ns[i], b.ns[i + 1], b.es[i], b.es[i + 1], b.lab));
      }
      lab' := AbsorbChain(ns, b.es, b.lab);
      EquivTrans(whole, b.es[0], lab'[ret]);
    }
  }

  lemma OperandRanks(n: LogicalPlan, lab: Labels)
    requires n in lab && NodeOk(n, lab) && (n.tag.BooleanAnd? || n.tag.BooleanOr?)
    ensures Rank(lab[n.left]) < Rank(lab[n]) && Rank(lab[n.right]) < Rank(lab[n])
  {
    hide Equiv;
    var x, y := lab[n.left], lab[n.right];
    EquivRank(lab[n], if n.tag.BooleanAnd? then And(x, y) else Or(x, y));
    RankDrops(x, y);
  }

  /** The inner loop: pairs the clause at `l` with every clause on the right. */
  method PairWithAll(first: LogicalPlan?, cur: LogicalPlan?, l: LogicalPlan, right: LogicalPlan,
                     ghost lab: Labels, ghost b: Build, ghost whole: Expr)
    returns (first': LogicalPlan, cur': LogicalPlan, ghost b': Build)
    requires Consistent(lab) && l in lab && right in lab && Consistent(b.lab) && Extends(lab, b.lab)
    requires Walking(first, cur, b, whole, And(lab[l], lab[right])) && (cur != null ==> cur !in b.lab)
    modifies cur
    ensures Consistent(b'.lab) && Grown(b, b') && fresh(cur') && cur' !in b'.lab && NodeOk(l, lab)
    ensures l.tag.BooleanOr? ==> Walking(first', cur', b', whole, And(lab[l.right], lab[right]))
    ensures !l.tag.BooleanOr? ==> Done(first', b', whole) && (|b'.es| > 1 <==> cur != null || right.tag.BooleanOr?)
  {
    hide Equiv, Consistent, Rank, Remaining, Pair, Done, Walking, NodeOk;
    var f, c := first, cur;
    var r := right;
    b' := b;
    RemainingAtStart(l, right, lab);
    WalkingEquiv(first, cur, b, whole, And(lab[l], lab[right]), Remaining(l, right, right, lab));
    while true
      invariant r in lab && Consistent(lab) && Consistent(b'.lab) && Grown(b, b')
      invariant Walking(f, c, b', whole, Remaining(l, r, right, lab))
      invariant c == cur || (c != null && fresh(c))
      invariant c != null ==> c !in b'.lab
      invariant c == null ==> r == right
      invariant c != null ==> cur != null || right.tag.BooleanOr?
      decreases Rank(lab[r])
    {
      ghost var rest := Remaining(l, r, right, lab);
      ghost var next := StepFacts(l, r, right, lab);
      f, c, b' := AddPair(f, c, l, r, lab, b', whole, rest, next);
      if r.tag != BooleanOr {
        break;
      }
      r := r.right;
    }
    Ok(l, lab);
    first', cur' := f, c;
  }

  /** The second half of lp_make_normal_disjunctive_form: the walk over both clause lists and the promotion. */
  method Distribute(left: LogicalPlan, right: LogicalPlan, ghost lab: Labels)
    returns (ret: LogicalPlan, ghost lab': Labels)
    requires Consistent(lab) && left in lab && right in lab
    ensures Consistent(lab') && Extends(lab, lab') && fresh(lab'.Keys - lab.Keys)
    ensures ret in lab' && Equiv(And(lab[left], lab[right]), lab'[ret])
    ensures ret.tag.BooleanOr? <==> left.tag.BooleanOr? || right.tag.BooleanOr?
  {
    hide Equiv, Consistent, Rank, Walking, Done;
    ghost var whole := And(lab[left], lab[right]);
    var first: LogicalPlan? := null;
    var cur: LogicalPlan? := null;
    var l := left;
    ghost var b := Build([], [], lab);
    WalkingStart(whole, lab);
    while true
      invariant l in lab && Consistent(lab) && Consistent(b.lab) && Extends(lab, b.lab)
      invariant fresh(b.lab.Keys - lab.Keys) && forall n <- b.ns :: fresh(n)
      invariant Walking(first, cur, b, whole, And(lab[l], lab[right]))
      invariant cur == null ==> l == left
      invariant cur != null ==> left.tag.BooleanOr? && fresh(cur) && cur !in b.lab
      decreases Rank(lab[l])
    {
      first, cur, b := PairWithAll(first, cur, l, right, lab, b, whole);
      assert forall n <- b.ns :: fresh(n);
      if l.tag != BooleanOr {
        assert |b.es| > 1 <==> left.tag.BooleanOr? || right.tag.BooleanOr?;
        break;
      }
      OperandRanks(l, lab);
      l := l.right;
    }
    ret, lab' := Promote(first, b, whole);
  }

  lemma WalkingStart(whole: Expr, lab: Labels)
    ensures Walking(null, null, Build([], [], lab), whole, whole)
  {}

  // ----- The whole function -----

  /** The tree a node of the region stands for, read off the heap. */
  ghost function Unfold(n: LogicalPlan, lab: Labels): Expr
    requires Consistent(lab) && n in lab
    reads lab.Keys
    decreases Rank(lab[n])
  {
    assert NodeOk(n, lab);
    match n.tag
    case BooleanAnd => OperandRanks(n, lab); And(Unfold(n.left, lab), Unfold(n.right, lab))
    case BooleanOr => OperandRanks(n, lab); Or(Unfold(n.left, lab), Unfold(n.right, lab))
    case BooleanNot => Not(Test(n.left.AtomOf()))
    case _ => Test(n.AtomOf())
  }

  /** The labels tell the truth about the heap. */
  lemma {:induction false} UnfoldMeans(n: LogicalPlan, lab: Labels)
    requires Consistent(lab) && n in lab
    ensures Equiv(lab[n], Unfold(n, lab)) && NotsAtLeaves(Unfold(n, lab))
    decreases Rank(lab[n])
  {
    hide Equiv, Rank;
    assert NodeOk(n, lab);
    if n.tag.BooleanAnd? || n.tag.BooleanOr? {
      OperandRanks(n, lab);
      UnfoldMeans(n.left, lab);
      UnfoldMeans(n.right, lab);
      EquivPair(lab[n.left], Unfold(n.left, lab), lab[n.right], Unfold(n.right, lab));
      EquivTrans(lab[n], if n.tag.BooleanAnd? then And(lab[n.left], lab[n.right])
        else Or(lab[n.left], lab[n.right]), Unfold(n, lab));
    } else {
      EquivRefl(lab[n]);
    }
  }

  /** Normal: an OR at the root, or no OR at all. */
  ghost predicate Normal(n: LogicalPlan, e: Expr)
    reads n
  {
    n.tag == BooleanOr || Clauses(e) == 1
  }

  /** What a graph keeps while a part of it is normalised: tags, and everything above the part. */
  twostate predicate KeepsAbove(lab: Labels, rank: int)
    reads lab.Keys
  {
    forall n <- lab.Keys ::
      n.tag == old(n.tag) && (Rank(lab[n]) > rank ==> n.left == old(n.left) && n.right == old(n.right))
  }

  /** A node that is neither AND nor OR is its own normal form. */
  lemma LeafLabels(r: LogicalPlan, g: Given) returns (lab: Labels)
    requires g.Fits(r) && r.tag != BooleanAnd && r.tag != BooleanOr
    requires g.Tree? && g.o.Tree().Not? ==> RootTag(g.o.Tree().arg).Exempt()
    ensures Consistent(lab) && r in lab && lab.Keys <= g.Region() && (g.Graph? ==> lab == g.lab)
    ensures Equiv(g.Meaning(), lab[r]) && Normal(r, lab[r])
  {
    hide Equiv;
    match g {
      case Graph(_, l) =>
        lab := l;
        assert NodeOk(r, lab);
      case Tree(OwnTest(n, a)) => lab := map[n := Test(a)];
      case Tree(OwnNot(n, x)) =>
        RootTagHeld(x);
        lab := map[n := Not(x.Tree()), x.node := x.Tree()];
    }
    EquivRefl(lab[r]);
    assert OrFree(lab[r]);
    OneClauseIffOrFree(lab[r]);
  }

  lemma JoinRegions(a: Labels, b: Labels)
    requires Consistent(a) && Consistent(b) && a.Keys !! b.Keys
    ensures Consistent(a + b) && Extends(a, a + b) && Extends(b, a + b)
  {
    forall n <- (a + b).Keys ensures NodeOk(n, a + b) {
      if n in b { Ok(n, b); NodeOkExtends(n, b, a + b); } else { Ok(n, a); NodeOkExtends(n, a, a + b); }
    }
  }

  ghost function Joined(tag: Tag, x: Expr, y: Expr): Expr { if tag.BooleanAnd? then And(x, y) else Or(x, y) }

  lemma EquivJoined(tag: Tag, e: Expr, x: Expr, x': Expr, y: Expr, y': Expr)
    requires Equiv(e, Joined(tag, x, y)) && Equiv(x, x') && Equiv(y, y')
    ensures Equiv(e, Joined(tag, x', y'))
  {
    hide Equiv;
    EquivPair(x, x', y, y');
    EquivTrans(e, Joined(tag, x, y), Joined(tag, x', y'));
  }

  lemma PairMeaning(o: Owned)
    requires o.OwnPair? && o.Holds()
    ensures Equiv(Pushed(o.Tree(), false), Joined(o.tag, Pushed(o.left.Tree(), false), Pushed(o.right.Tree(), false)))
    ensures Size(o.left.Tree()) < Size(o.Tree()) && Size(o.right.Tree()) < Size(o.Tree())
  {
    EquivRefl(Pushed(o.Tree(), false));
  }

  /** Both operands normalised, one after the other. */
  method NormalOperands(r: LogicalPlan, ghost g: Given)
    returns (left: LogicalPlan, right: LogicalPlan, ghost lab: Labels)
    requires g.Fits(r) && (r.tag == BooleanAnd || r.tag == BooleanOr)
    modifies g.Region()
    ensures r.tag == old(r.tag)
    ensures Consistent(lab) && left in lab && right in lab && fresh(lab.Keys - g.Region())
    ensures Normal(left, lab[left]) && Normal(right, lab[right])
    ensures Equiv(g.Meaning(), Joined(r.tag, lab[left], lab[right]))
    ensures g.Tree? ==> r !in lab
    ensures g.Graph? ==> Extends(g.lab, lab) && KeepsAbove(g.lab, g.Measure() - 1)
    decreases g.Measure(), 0
  {
    hide Equiv, Rank, Clauses, Consistent, NodeOk, Pushed, Joined;
    ghost var gl, gr;
    ghost var x, y;
    if g.Tree? {
      gl, gr := Tree(g.o.left), Tree(g.o.right);
      PairMeaning(g.o);
      NodesAllocated(g.o.right);
      x, y := gl.Meaning(), gr.Meaning();
    } else {
      Ok(r, g.lab);
      GraphOperands(r, g.lab);
      gl := Graph(r.left, g.lab);
      x, y := g.lab[r.left], g.lab[r.right];
    }
    ghost var labL, labR;
    left, labL := MakeNormal(r.left, gl);
    if g.Graph? {
      gr := Graph(r.right, labL);
    }
    right, labR := MakeNormal(r.right, gr);
    lab := if g.Tree? then labL + labR else labR;
    if g.Tree? {
      JoinRegions(labL, labR);
    }
    EquivJoined(r.tag, g.Meaning(), x, lab[left], y, lab[right]);
  }

  lemma GraphOperands(r: LogicalPlan, lab: Labels)
    requires r in lab && NodeOk(r, lab) && (r.tag == BooleanAnd || r.tag == BooleanOr)
    ensures Operands(r, lab) && Equiv(lab[r], Joined(r.tag, lab[r.left], lab[r.right]))
    ensures Rank(lab[r.left]) < Rank(lab[r]) && Rank(lab[r.right]) < Rank(lab[r])
  {
    OperandRanks(r, lab);
  }

  /** lp_make_normal_disjunctive_form. */
  method MakeNormal(root: LogicalPlan?, ghost g: Given) returns (ret: LogicalPlan?, ghost lab': Labels)
    requires g.Fits(root)
    modifies g.Region()
    ensures ret == null <==> root == null
    ensures Consistent(lab') && fresh(lab'.Keys - g.Region())
    ensures root != null ==> ret in lab' && Equiv(g.Meaning(), lab'[ret]) && Normal(ret, lab'[ret])
    ensures g.Graph? ==> Extends(g.lab, lab') && KeepsAbove(g.lab, g.Measure())
    decreases g.Measure(), 1
  {
    hide Equiv, Rank, Clauses, Consistent, NodeOk, Pushed;
    ret := root;
    if root == null {
      lab' := map[];
      EmptyRegion();
      return;
    }
    var r;
    ghost var g';
    r, g' := ApplyNot(root, 0, g);
    SameMeaning(g, g');
    ret := r;
    if r.tag != BooleanAnd && r.tag != BooleanOr {
      lab' := LeafLabels(r, g');
      return;
    }
    var left, right;
    ghost var lab;
    left, right, lab := NormalOperands(r, g');
    if r.tag != BooleanAnd {
      lab' := Relink(r, left, right, lab, g.Meaning());
      EquivRefl(g.Meaning());
      return;
    }
    ret, lab' := Distribute(left, right, lab);
    OneClauseAnd(lab[left], lab[right], lab'[ret]);
    EquivTrans(g.Meaning(), And(lab[left], lab[right]), lab'[ret]);
  }

  lemma OneClauseAnd(x: Expr, y: Expr, e: Expr)
    requires Equiv(And(x, y), e)
    ensures Clauses(x) == 1 && Clauses(y) == 1 ==> Clauses(e) == 1
  {
    EquivRank(And(x, y), e);
  }

  /** An OR takes the normal forms of its operands over. */
  method Relink(r: LogicalPlan, left: LogicalPlan, right: LogicalPlan, ghost lab: Labels, ghost e: Expr)
    returns (ghost lab': Labels)
    requires Consistent(lab) && left in lab && right in lab && r.tag == BooleanOr
    requires Equiv(e, Or(lab[left], lab[right])) && (r in lab ==> lab[r] == e)
    modifies r
    ensures lab' == lab[r := e] && Consistent(lab') && Extends(lab, lab')
    ensures r.tag == BooleanOr
  {
    hide Equiv;
    r.left, r.right := left, right;
    lab' := lab[r := e];
    forall n <- lab'.Keys ensures NodeOk(n, lab') {
      if n != r {
        assert old(NodeOk(n, lab));
      }
    }
  }

  lemma EmptyRegion()
    ensures Consistent(map[])
  {}

  lemma SameMeaning(g: Given, g': Given)
    requires if g.Tree? then g'.Tree? && g'.o.Tree() == Push(g.o.Tree(), 0) else g.Graph? && g.root in g.lab && g' == g
    ensures g'.Meaning() == g.Meaning() && g'.Measure() <= g.Measure()
    ensures g'.Tree? && g'.o.Tree().Not? ==> RootTag(g'.o.Tree().arg).Exempt()
  {
    if g.Tree? {
      PushedAfterPush(g.o.Tree(), 0);
      PushStops(g.o.Tree(), 0);
    }
  }

  /** What MakeNormal's contract says about the tree that then stands in the heap: it has the meaning
      and the clauses of the parser's tree, its NOTs stand above exempt operands only, and if its root
      is no OR then there is no OR in it. */
  lemma NormalFormMeans(t: Expr, n: LogicalPlan, lab: Labels)
    requires Safe(t, false) && Consistent(lab) && n in lab && Equiv(Pushed(t, false), lab[n]) && Normal(n, lab[n])
    ensures forall i: Interp | Lawful(i) :: Eval(Unfold(n, lab), i) == Eval(t, i)
    ensures forall w: Weight :: Count(Unfold(n, lab), false, w) == Count(t, false, w)
    ensures ClausesOf(Unfold(n, lab), false) == ClausesOf(t, false)
    ensures NotsAtLeaves(Unfold(n, lab)) && (n.tag != BooleanOr ==> OrFree(Unfold(n, lab)))
  {
    hide Consistent, Unfold, Pushed, Lawful;
    UnfoldMeans(n, lab);
    EquivTrans(Pushed(t, false), lab[n], Unfold(n, lab));
    PushedMeans(t, false, Uniform(true), ONES);
    forall i: Interp | Lawful(i) ensures Eval(Unfold(n, lab), i) == Eval(t, i) { PushedMeans(t, false, i, ONES); }
    forall w: Weight ensures Count(Unfold(n, lab), false, w) == Count(t, false, w) {
      PushedMeans(t, false, Uniform(true), w);
    }
    EquivRank(lab[n], Unfold(n, lab));
    OneClauseIffOrFree(Unfold(n, lab));
  }
}
