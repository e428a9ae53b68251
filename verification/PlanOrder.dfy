/** The order of the physical plans of a query whose INSERTs share operands that hold sub-plans. */
module PlanOrder {
  import E = Enumeration

  // ----- Logical plans -----

  datatype NodeKind = InsertNode | SetNode | JoinNode | OperatorNode | OtherNode | KeyNode

  /** An INSERT has a FROM list, a WHERE and a projection; a join has a table or a plan and the next join;
      a set operation and an operator have two operands; a key names the INSERT whose output it is. */
  class Node {
    const kind: NodeKind
    const from: Node?
    var left: Node?
    var right: Node?

    constructor (kind: NodeKind, from: Node?, left: Node?, right: Node?)
      ensures this.kind == kind && this.from == from && this.left == left && this.right == right
    {
      this.kind, this.from, this.left, this.right := kind, from, left, right;
    }

    predicate IsPlan() { kind.InsertNode? || kind.SetNode? }

    predicate IsTerm() { kind.OperatorNode? || kind.OtherNode? || kind.KeyNode? }
  }

  /** What can be done once: start an INSERT, or replace the sub-plan in an operand by its output key. */
  datatype Part = Start(node: Node) | Place(holder: Node, right: bool)

  datatype Logical = Insert(node: Node, body: Term) | SetOperation(left: Logical, right: Logical)

  /** The plans an INSERT reads from, in the order they are come across: those listed in its FROM, and those
      held by operands of its WHERE and its projection. */
  datatype Term = Nothing | Both(left: Term, right: Term) | Held(place: Part, plan: Logical) | Listed(plan: Logical)

  // ----- A run -----

  /** A physical plan: its INSERT, the places it reads from, and the place its output is for. */
  datatype Made = Made(node: Node, sources: set<Part>, feeds: E.Option<Part>)

  /** Physical plans in the order they will run, and all that has been done. */
  datatype Run = Run(plans: seq<Made>, done: set<Part>)

  function Reads(x: Term): set<Part> {
    match x
    case Both(l, r) => Reads(l) + Reads(r)
    case Held(n, _) => {n}
    case _ => {}
  }

  function Generated(p: Logical, feeds: E.Option<Part>, done: set<Part>): Run
    decreases p
  {
    match p
    case Insert(node, body) =>
      var r := Walked(body, done + {Start(node)});
      Run(r.plans + [Made(node, Reads(body), feeds)], r.done)
    case SetOperation(left, right) =>
      var b := Generated(right, feeds, done);
      var a := Generated(left, feeds, b.done);
      Run(a.plans + b.plans, a.done)
  }

  /** A plan that an operand holds is generated only when it is come across for the first time. */
  function Walked(x: Term, done: set<Part>): Run
    decreases x
  {
    match x
    case Nothing => Run([], done)
    case Both(left, right) =>
      var a := Walked(left, done);
      var b := Walked(right, a.done);
      Run(b.plans + a.plans, b.done)
    case Held(n, plan) =>
      if n in done then Run([], done)
      else
        var r := Generated(plan, E.Some(n), done);
        Run(r.plans, r.done + {n})
    case Listed(plan) => Generated(plan, E.None, done)
  }

  // ----- What a plan is made of -----

  function Parts(p: Logical): set<Part>
    decreases p
  {
    match p
    case Insert(node, body) => {Start(node)} + TermParts(body)
    case SetOperation(l, r) => Parts(l) + Parts(r)
  }

  function TermParts(x: Term): set<Part>
    decreases x
  {
    match x
    case Nothing => {}
    case Both(l, r) => TermParts(l) + TermParts(r)
    case Held(n, plan) => {n} + Parts(plan)
    case Listed(plan) => Parts(plan)
  }

  /** The places that the INSERTs of a set operation read from, not those of the plans in these places. */
  function Direct(p: Logical): set<Part> {
    match p
    case Insert(_, body) => Reads(body)
    case SetOperation(l, r) => Direct(l) + Direct(r)
  }

  /** The parts that no other INSERT may share: the INSERTs themselves and the plans in their FROM lists. */
  function Own(p: Logical): set<Part> {
    match p
    case Insert(node, body) => {Start(node)} + TermOwn(body)
    case SetOperation(l, r) => Own(l) + Own(r)
  }

  function TermOwn(x: Term): set<Part> {
    match x
    case Both(l, r) => TermOwn(l) + TermOwn(r)
    case Listed(plan) => Parts(plan)
    case _ => {}
  }

  /** Which plan each place holds. */
  type Holding = map<Part, Logical>

  function Inner(held: Holding, n: Part): set<Part> { if n in held then {n} + Parts(held[n]) else {n} }

  /** Different places share nothing with each other or with the rest. */
  predicate Apart(held: Holding, places: set<Part>, own: set<Part>) {
    && (forall m <- places, n <- places :: m != n ==> Inner(held, m) !! Inner(held, n))
    && forall m <- places :: Inner(held, m) !! own
  }

  /** The shape of plans in memory: a place holds one plan, every INSERT starts once, and the INSERTs of a
      set operation share nothing but places with all that is in them. */
  predicate Tidy(p: Logical, held: Holding)
    decreases p
  {
    match p
    case Insert(node, body) => TidyTerm(body, held) && Start(node) !in TermOwn(body) && Apart(held, Direct(p), Own(p))
    case SetOperation(l, r) => Tidy(l, held) && Tidy(r, held) && Own(l) !! Own(r) && Apart(held, Direct(p), Own(p))
  }

  predicate TidyTerm(x: Term, held: Holding)
    decreases x
  {
    match x
    case Nothing => true
    case Both(l, r) => TidyTerm(l, held) && TidyTerm(r, held) && TermOwn(l) !! TermOwn(r)
    case Held(n, plan) => n.Place? && n in held && held[n] == plan && n !in Parts(plan) && Tidy(plan, held)
    case Listed(plan) => Tidy(plan, held)
  }

  /** Each of the places is done with all that is in it, or not begun. */
  predicate Whole(held: Holding, places: set<Part>, done: set<Part>) {
    forall m <- places :: if m in done then Inner(held, m) <= done else Inner(held, m) !! done
  }

  predicate Within(held: Holding, places: set<Part>, n: Part) { exists m <- places :: n in Inner(held, m) }

  lemma WithinBoth(held: Holding, s: set<Part>, t: set<Part>)
    ensures forall n :: Within(held, s + t, n) <==> Within(held, s, n) || Within(held, t, n)
  {
    forall n: Part
      ensures Within(held, s, n) ==> Within(held, s + t, n)
      ensures Within(held, t, n) ==> Within(held, s + t, n)
    {
      if m :| m in s && n in Inner(held, m) { assert m in s + t; }
      if m :| m in t && n in Inner(held, m) { assert m in s + t; }
    }
  }

  lemma {:induction false} TermPartsAre(x: Term, held: Holding)
    requires TidyTerm(x, held)
    ensures forall n :: n in TermParts(x) <==> n in TermOwn(x) || Within(held, Reads(x), n)
  {
    hide Tidy, Parts, Direct, Own;
    if x.Both? {
      TermPartsAre(x.left, held);
      TermPartsAre(x.right, held);
      WithinBoth(held, Reads(x.left), Reads(x.right));
    } else if x.Held? {
      assert x.place in Reads(x);
    }
  }

  lemma {:induction false} PartsAre(p: Logical, held: Holding)
    requires Tidy(p, held)
    ensures forall n :: n in Parts(p) <==> n in Own(p) || Within(held, Direct(p), n)
  {
    hide Apart, TidyTerm, Inner;
    if p.SetOperation? {
      PartsAre(p.left, held);
      PartsAre(p.right, held);
      WithinBoth(held, Direct(p.left), Direct(p.right));
    } else {
      TermPartsAre(p.body, held);
    }
  }

  /** The places and the rest can be gone through now. */
  predicate CanStart(held: Holding, places: set<Part>, own: set<Part>, done: set<Part>) {
    Apart(held, places, own) && own !! done && Whole(held, places, done)
  }

  lemma OutOfPlace(held: Holding, places: set<Part>, own: set<Part>, m: Part, s: set<Part>, n: Part)
    requires Apart(held, places, own) && s <= places && m in places && m !in s && n in Inner(held, m)
    ensures !Within(held, s, n) && n !in own
  {
    forall k <- s ensures n !in Inner(held, k) {}
  }

  /** What has been done with one side leaves the other side ready. */
  lemma SideDone(held: Holding, s: set<Part>, own: set<Part>, t: set<Part>, own': set<Part>, done: set<Part>,
          parts: set<Part>)
    requires CanStart(held, s + t, own + own', done) && own !! own'
    requires forall n :: n in parts <==> n in own || Within(held, s, n)
    ensures CanStart(held, s, own, done) && CanStart(held, t, own', done + parts)
  {
    forall m <- t ensures if m in done + parts then Inner(held, m) <= done + parts else Inner(held, m) !! done + parts {
      assert m in s + t && m in Inner(held, m);
      if m in s {
        forall n <- Inner(held, m) ensures n in parts { assert Within(held, s, n); }
      } else {
        forall n <- Inner(held, m) ensures n !in parts { OutOfPlace(held, s + t, own + own', m, s, n); }
      }
    }
    forall n <- own' ensures !Within(held, s, n) {
      forall k <- s ensures n !in Inner(held, k) { assert k in s + t; }
    }
  }

  lemma BothCanStart(x: Term, held: Holding, done: set<Part>)
    requires x.Both? && TidyTerm(x, held) && CanStart(held, Reads(x), TermOwn(x), done)
    ensures CanStart(held, Reads(x.left), TermOwn(x.left), done)
    ensures CanStart(held, Reads(x.right), TermOwn(x.right), done + TermParts(x.left))
  {
    TermPartsAre(x.left, held);
    SideDone(held, Reads(x.left), TermOwn(x.left), Reads(x.right), TermOwn(x.right), done, TermParts(x.left));
  }

  /** The right operand comes first. */
  lemma OperandsCanStart(p: Logical, held: Holding, done: set<Part>)
    requires p.SetOperation? && Tidy(p, held) && CanStart(held, Direct(p), Own(p), done)
    ensures CanStart(held, Direct(p.right), Own(p.right), done)
    ensures CanStart(held, Direct(p.left), Own(p.left), done + Parts(p.right))
  {
    PartsAre(p.right, held);
    assert Direct(p) == Direct(p.right) + Direct(p.left) && Own(p) == Own(p.right) + Own(p.left);
    SideDone(held, Direct(p.right), Own(p.right), Direct(p.left), Own(p.left), done, Parts(p.right));
  }

  lemma BodyCanStart(p: Logical, held: Holding, done: set<Part>)
    requires p.Insert? && Tidy(p, held) && CanStart(held, Direct(p), Own(p), done)
    ensures CanStart(held, Reads(p.body), TermOwn(p.body), done + {Start(p.node)})
  {
    assert Start(p.node) in Own(p);
  }

  /** A plan none of which has been begun is ready. */
  lemma UntouchedCanStart(p: Logical, held: Holding, done: set<Part>)
    requires Tidy(p, held) && Parts(p) !! done
    ensures CanStart(held, Direct(p), Own(p), done)
  {
    PartsAre(p, held);
    forall m <- Direct(p) ensures m !in done && Inner(held, m) !! done {
      assert m in Inner(held, m);
      forall n <- Inner(held, m) ensures n in Parts(p) { assert Within(held, Direct(p), n); }
    }
  }

  lemma HeldCanStart(x: Term, held: Holding, done: set<Part>)
    requires x.Held? && TidyTerm(x, held) && CanStart(held, Reads(x), TermOwn(x), done)
    ensures x.place in done ==> TermParts(x) <= done
    ensures x.place !in done ==> CanStart(held, Direct(x.plan), Own(x.plan), done) && x.place !in done + Parts(x.plan)
  {
    assert x.place in Reads(x);
    if x.place !in done { UntouchedCanStart(x.plan, held, done); }
  }

  lemma ListedCanStart(x: Term, held: Holding, done: set<Part>)
    requires x.Listed? && TidyTerm(x, held) && CanStart(held, Reads(x), TermOwn(x), done)
    ensures CanStart(held, Direct(x.plan), Own(x.plan), done)
  {
    UntouchedCanStart(x.plan, held, done);
  }

  /** A run does all parts. */
  lemma {:induction false} AllDone(p: Logical, feeds: E.Option<Part>, held: Holding, done: set<Part>)
    requires Tidy(p, held) && CanStart(held, Direct(p), Own(p), done)
    ensures Generated(p, feeds, done).done == done + Parts(p)
    decreases p
  {
    hide CanStart, Tidy, TidyTerm, Own, Direct;
    if p.SetOperation? {
      TidyOperands(p, held);
      OperandsCanStart(p, held, done);
      AllDone(p.right, feeds, held, done);
      AllDone(p.left, feeds, held, done + Parts(p.right));
    } else {
      TidyBody(p, held);
      BodyCanStart(p, held, done);
      AllWalked(p.body, held, done + {Start(p.node)});
    }
  }

  lemma {:induction false} AllWalked(x: Term, held: Holding, done: set<Part>)
    requires TidyTerm(x, held) && CanStart(held, Reads(x), TermOwn(x), done)
    ensures Walked(x, done).done == done + TermParts(x)
    decreases x
  {
    hide CanStart, Tidy, TermOwn, Reads;
    match x
    case Nothing =>
    case Both(l, r) =>
      BothCanStart(x, held, done);
      AllWalked(l, held, done);
      AllWalked(r, held, done + TermParts(l));
    case Held(n, plan) =>
      HeldCanStart(x, held, done);
      if n !in done { AllDone(plan, E.Some(n), held, done); }
    case Listed(plan) =>
      ListedCanStart(x, held, done);
      AllDone(plan, E.None, held, done);
  }

  lemma TidyOperands(p: Logical, held: Holding)
    requires p.SetOperation? && Tidy(p, held)
    ensures Tidy(p.left, held) && Tidy(p.right, held)
  {}

  lemma TidyBody(p: Logical, held: Holding)
    requires p.Insert? && Tidy(p, held)
    ensures TidyTerm(p.body, held)
  {}

  // ----- Sub-plans before their readers -----

  predicate Feeds(e: Made, n: Part) { e.feeds == E.Some(n) }

  /** All plans for place n come before plan i, and there are some. */
  predicate FedBefore(plans: seq<Made>, i: nat, n: Part)
    requires i < |plans|
  {
    (exists j | 0 <= j < i :: Feeds(plans[j], n)) && forall j | i <= j < |plans| :: !Feeds(plans[j], n)
  }

  /** No plan reads from a place that was done before, and none before the place is. */
  predicate InOrder(plans: seq<Made>, done: set<Part>) {
    forall i | 0 <= i < |plans| :: forall n <- plans[i].sources :: n !in done && FedBefore(plans, i, n)
  }

  /** What a run that gets from `done` to `done'` has made. */
  predicate Makes(plans: seq<Made>, done: set<Part>, done': set<Part>, feeds: E.Option<Part>) {
    && done <= done'
    && (forall e <- plans :: forall n <- e.sources :: n.Place? && n in done')
    && (forall e <- plans :: e.feeds.Some? ==> e.feeds.value in done' - done || e.feeds == feeds)
    && (forall n <- done' - done :: n.Place? ==> exists e <- plans :: Feeds(e, n))
    && (feeds.Some? ==> feeds.value !in done' && exists e <- plans :: e.feeds == feeds)
  }

  lemma JoinMakes(a: seq<Made>, b: seq<Made>, done: set<Part>, mid: set<Part>, end: set<Part>, feeds: E.Option<Part>)
    requires Makes(b, done, mid, feeds) && Makes(a, mid, end, feeds)
    ensures Makes(a + b, done, end, feeds)
  {
    forall n <- end - done | n.Place? ensures exists e <- a + b :: Feeds(e, n) {
      if n in mid {
        var e :| e in b && Feeds(e, n);
        assert e in a + b;
      } else {
        var e :| e in a && Feeds(e, n);
        assert e in a + b;
      }
    }
    if feeds.Some? {
      var e :| e in a && e.feeds == feeds;
      assert e in a + b;
    }
  }

  lemma JoinOrder(a: seq<Made>, b: seq<Made>, done: set<Part>, mid: set<Part>, end: set<Part>, feeds: E.Option<Part>)
    requires Makes(b, done, mid, feeds) && Makes(a, mid, end, feeds)
    ensures InOrder(a + b, done) <==> InOrder(b, done) && InOrder(a, mid)
  {
    if InOrder(a + b, done) { OrderParts(a, b, done, mid, end, feeds); }
    if InOrder(b, done) && InOrder(a, mid) { OrderWhole(a, b, done, mid, end, feeds); }
  }

  lemma OrderParts(a: seq<Made>, b: seq<Made>, done: set<Part>, mid: set<Part>, end: set<Part>, feeds: E.Option<Part>)
    requires Makes(b, done, mid, feeds) && Makes(a, mid, end, feeds) && InOrder(a + b, done)
    ensures InOrder(b, done) && InOrder(a, mid)
  {
    var ab := a + b;
    forall i | 0 <= i < |a| ensures forall n <- a[i].sources :: n !in mid && FedBefore(a, i, n) {
      forall n <- a[i].sources ensures n !in mid && FedBefore(a, i, n) {
        assert ab[i] == a[i] && a[i] in a && FedBefore(ab, i, n);
        forall e <- b ensures !Feeds(e, n) {
          var j :| 0 <= j < |b| && b[j] == e;
          assert ab[|a| + j] == e;
        }
        assert forall j | 0 <= j < |a| :: ab[j] == a[j];
      }
    }
    forall i | 0 <= i < |b| ensures forall n <- b[i].sources :: n !in done && FedBefore(b, i, n) {
      forall n <- b[i].sources ensures n !in done && FedBefore(b, i, n) {
        assert ab[|a| + i] == b[i] && b[i] in b && FedBefore(ab, |a| + i, n);
        forall k | 0 <= k < |a| ensures !Feeds(ab[k], n) { assert a[k] in a; }
        var j :| 0 <= j < |a| + i && Feeds(ab[j], n);
        assert Feeds(b[j - |a|], n);
        forall k | i <= k < |b| ensures !Feeds(b[k], n) { assert ab[|a| + k] == b[k]; }
      }
    }
  }

  lemma OrderWhole(a: seq<Made>, b: seq<Made>, done: set<Part>, mid: set<Part>, end: set<Part>, feeds: E.Option<Part>)
    requires Makes(b, done, mid, feeds) && Makes(a, mid, end, feeds) && InOrder(b, done) && InOrder(a, mid)
    ensures InOrder(a + b, done)
  {
    var ab := a + b;
    forall i | 0 <= i < |ab| ensures forall n <- ab[i].sources :: n !in done && FedBefore(ab, i, n) {
      forall n <- ab[i].sources ensures n !in done && FedBefore(ab, i, n) {
        if i < |a| {
          assert a[i] in a && FedBefore(a, i, n);
          var j :| 0 <= j < i && Feeds(a[j], n);
          assert Feeds(ab[j], n);
          forall k | i <= k < |ab| ensures !Feeds(ab[k], n) { if k >= |a| { assert ab[k] in b; } }
        } else {
          assert b[i - |a|] in b && FedBefore(b, i - |a|, n);
          var j :| 0 <= j < i - |a| && Feeds(b[j], n);
          assert Feeds(ab[|a| + j], n);
          forall k | i <= k < |ab| ensures !Feeds(ab[k], n) { assert ab[k] == b[k - |a|]; }
        }
      }
    }
  }

  /** The INSERT itself comes behind all that it reads from. */
  lemma EntryMakes(plans: seq<Made>, e: Made, done: set<Part>, end: set<Part>)
    requires Makes(plans, done + {Start(e.node)}, end, E.None) && (forall n <- e.sources :: n.Place? && n in end)
    requires e.feeds.Some? ==> e.feeds.value !in end
    ensures Makes(plans + [e], done, end, e.feeds)
  {
    assert e in plans + [e];
    forall n <- end - done | n.Place? ensures exists k <- plans + [e] :: Feeds(k, n) {
      assert n in end - (done + {Start(e.node)});
      var k :| k in plans && Feeds(k, n);
      assert k in plans + [e];
    }
  }

  lemma EntryOrder(plans: seq<Made>, e: Made, done: set<Part>, end: set<Part>)
    requires Makes(plans, done + {Start(e.node)}, end, E.None) && (forall n <- e.sources :: n.Place? && n in end)
    requires e.feeds.Some? ==> e.feeds.value !in end
    ensures InOrder(plans + [e], done) <==> e.sources !! done && InOrder(plans, done + {Start(e.node)})
  {
    var all, last := plans + [e], |plans|;
    assert all[last] == e;
    forall i: nat, n | i < last && n in plans[i].sources ensures FedBefore(all, i, n) <==> FedBefore(plans, i, n) {
      assert plans[i] in plans;
      if FedBefore(all, i, n) { assert forall j | 0 <= j < last :: all[j] == plans[j]; }
      if FedBefore(plans, i, n) { assert forall j | 0 <= j < last :: all[j] == plans[j]; }
    }
    forall n <- e.sources | n !in done ensures FedBefore(all, last, n) {
      assert n in end - (done + {Start(e.node)});
      var k :| k in plans && Feeds(k, n);
      var j :| 0 <= j < last && plans[j] == k;
      assert all[j] == k;
    }
    if InOrder(all, done) {
      forall i | 0 <= i < last
        ensures forall n <- plans[i].sources :: n !in done + {Start(e.node)} && FedBefore(plans, i, n)
      {
        assert all[i] == plans[i] && plans[i] in plans;
      }
    }
    if e.sources !! done && InOrder(plans, done + {Start(e.node)}) {
      forall i | 0 <= i < |all| ensures forall n <- all[i].sources :: n !in done && FedBefore(all, i, n) {
        if i < last { assert all[i] == plans[i]; }
      }
    }
  }

  /** No INSERT starts after one of the places it reads from is done. */
  predicate Fresh(p: Logical, feeds: E.Option<Part>, done: set<Part>)
    decreases p
  {
    match p
    case Insert(node, body) => Reads(body) !! done && FreshTerm(body, done + {Start(node)})
    case SetOperation(l, r) => Fresh(r, feeds, done) && Fresh(l, feeds, Generated(r, feeds, done).done)
  }

  predicate FreshTerm(x: Term, done: set<Part>)
    decreases x
  {
    match x
    case Nothing => true
    case Both(l, r) => FreshTerm(l, done) && FreshTerm(r, Walked(l, done).done)
    case Held(n, plan) => n in done || Fresh(plan, E.Some(n), done)
    case Listed(plan) => Fresh(plan, E.None, done)
  }

  lemma NoneMade(done: set<Part>)
    ensures Makes([], done, done, E.None) && InOrder([], done)
  {}

  lemma HeldMakes(plans: seq<Made>, done: set<Part>, end: set<Part>, n: Part)
    requires Makes(plans, done, end, E.Some(n)) && n.Place?
    ensures Makes(plans, done, end + {n}, E.None)
  {}

  lemma {:induction false} ReadsArePlaces(x: Term, held: Holding)
    requires TidyTerm(x, held)
    ensures forall n <- Reads(x) :: n.Place? && n in TermParts(x)
  {
    hide Tidy, Parts;
    if x.Both? { ReadsArePlaces(x.left, held); ReadsArePlaces(x.right, held); }
  }

  /** A run is in order exactly if it is fresh. */
  lemma {:induction false} OrderIff(p: Logical, feeds: E.Option<Part>, held: Holding, done: set<Part>)
    requires Tidy(p, held) && CanStart(held, Direct(p), Own(p), done)
    requires (feeds.Some? ==> feeds.value !in done + Parts(p))
    ensures var r := Generated(p, feeds, done);
      Makes(r.plans, done, r.done, feeds) && (InOrder(r.plans, done) <==> Fresh(p, feeds, done))
    decreases p
  {
    hide CanStart, Tidy, TidyTerm, Own, Direct, Makes, InOrder;
    AllDone(p, feeds, held, done);
    if p.SetOperation? {
      TidyOperands(p, held);
      OperandsCanStart(p, held, done);
      AllDone(p.right, feeds, held, done);
      OrderIff(p.right, feeds, held, done);
      OrderIff(p.left, feeds, held, done + Parts(p.right));
      var b := Generated(p.right, feeds, done);
      var a := Generated(p.left, feeds, b.done);
      JoinMakes(a.plans, b.plans, done, b.done, a.done, feeds);
      JoinOrder(a.plans, b.plans, done, b.done, a.done, feeds);
    } else {
      TidyBody(p, held);
      BodyCanStart(p, held, done);
      TermOrderIff(p.body, held, done + {Start(p.node)});
      ReadsArePlaces(p.body, held);
      AllWalked(p.body, held, done + {Start(p.node)});
      var r := Walked(p.body, done + {Start(p.node)});
      EntryMakes(r.plans, Made(p.node, Reads(p.body), feeds), done, r.done);
      EntryOrder(r.plans, Made(p.node, Reads(p.body), feeds), done, r.done);
    }
  }

  lemma {:induction false} TermOrderIff(x: Term, held: Holding, done: set<Part>)
    requires TidyTerm(x, held) && CanStart(held, Reads(x), TermOwn(x), done)
    ensures var r := Walked(x, done);
      Makes(r.plans, done, r.done, E.None) && (InOrder(r.plans, done) <==> FreshTerm(x, done))
    decreases x
  {
    hide CanStart, Tidy, TermOwn, Reads, Makes, InOrder, Parts;
    NoneMade(done);
    match x
    case Nothing =>
    case Both(l, r) =>
      BothCanStart(x, held, done);
      AllWalked(l, held, done);
      TermOrderIff(l, held, done);
      TermOrderIff(r, held, done + TermParts(l));
      var a := Walked(l, done);
      var b := Walked(r, a.done);
      JoinMakes(b.plans, a.plans, done, a.done, b.done, E.None);
      JoinOrder(b.plans, a.plans, done, a.done, b.done, E.None);
    case Held(n, plan) =>
      HeldCanStart(x, held, done);
      if n !in done {
        OrderIff(plan, E.Some(n), held, done);
        HeldMakes(Generated(plan, E.Some(n), done).plans, done, Generated(plan, E.Some(n), done).done, n);
      }
    case Listed(plan) =>
      ListedCanStart(x, held, done);
      OrderIff(plan, E.None, held, done);
  }

  // ----- Shared places -----

  /** In no set operation do INSERTs of both operands read from the same place. */
  predicate Unshared(p: Logical)
    decreases p
  {
    match p
    case Insert(_, body) => UnsharedTerm(body)
    case SetOperation(l, r) => Unshared(l) && Unshared(r) && Direct(l) !! Direct(r)
  }

  predicate UnsharedTerm(x: Term)
    decreases x
  {
    match x
    case Nothing => true
    case Both(l, r) => UnsharedTerm(l) && UnsharedTerm(r)
    case Held(_, plan) => Unshared(plan)
    case Listed(plan) => Unshared(plan)
  }

  lemma {:induction false} FreshReads(p: Logical, feeds: E.Option<Part>, held: Holding, done: set<Part>)
    requires Tidy(p, held) && CanStart(held, Direct(p), Own(p), done) && Fresh(p, feeds, done)
    ensures Direct(p) !! done
    decreases p
  {
    hide CanStart, Tidy, TidyTerm, Own;
    if p.SetOperation? {
      TidyOperands(p, held);
      OperandsCanStart(p, held, done);
      AllDone(p.right, feeds, held, done);
      FreshReads(p.right, feeds, held, done);
      FreshReads(p.left, feeds, held, done + Parts(p.right));
    }
  }

  lemma SidesApart(held: Holding, s: set<Part>, own: set<Part>, t: set<Part>, own': set<Part>, a: set<Part>,
          b: set<Part>)
    requires Apart(held, s + t, own + own') && own !! own' && s !! t
    requires forall n :: n in a <==> n in own || Within(held, s, n)
    requires forall n :: n in b <==> n in own' || Within(held, t, n)
    ensures a !! b
  {
    forall n <- a ensures n !in b {
      if n in own {
        forall m <- t ensures n !in Inner(held, m) { assert m in s + t; }
      } else {
        var m :| m in s && n in Inner(held, m);
        assert m in s + t;
        OutOfPlace(held, s + t, own + own', m, t, n);
      }
    }
  }

  /** The operands of an unshared set operation have nothing in common. */
  lemma OperandsApart(p: Logical, held: Holding)
    requires p.SetOperation? && Tidy(p, held) && Direct(p.left) !! Direct(p.right)
    ensures Parts(p.left) !! Parts(p.right)
  {
    TidySet(p, held);
    assert Direct(p) == Direct(p.left) + Direct(p.right) && Own(p) == Own(p.left) + Own(p.right);
    hide Tidy, Apart, Parts, Direct, Own, Within;
    PartsAre(p.left, held);
    PartsAre(p.right, held);
    SidesApart(held, Direct(p.left), Own(p.left), Direct(p.right), Own(p.right), Parts(p.left), Parts(p.right));
  }

  lemma TidySet(p: Logical, held: Holding)
    requires p.SetOperation? && Tidy(p, held)
    ensures Tidy(p.left, held) && Tidy(p.right, held) && Own(p.left) !! Own(p.right) && Apart(held, Direct(p), Own(p))
  {}

  lemma {:induction false} UnsharedIsFresh(p: Logical, feeds: E.Option<Part>, held: Holding, done: set<Part>)
    requires Tidy(p, held) && Unshared(p) && Parts(p) !! done
    ensures Fresh(p, feeds, done)
    decreases p
  {
    hide CanStart, Tidy, TidyTerm, Own, Parts;
    UntouchedCanStart(p, held, done);
    PartsSplit(p);
    if p.SetOperation? {
      TidyOperands(p, held);
      OperandsCanStart(p, held, done);
      OperandsApart(p, held);
      AllDone(p.right, feeds, held, done);
      UnsharedIsFresh(p.right, feeds, held, done);
      UnsharedIsFresh(p.left, feeds, held, done + Parts(p.right));
    } else {
      TidyBody(p, held);
      BodyCanStart(p, held, done);
      ReadsArePlaces(p.body, held);
      UnsharedTermIsFresh(p.body, held, done + {Start(p.node)});
    }
  }

  lemma PartsSplit(p: Logical)
    ensures Parts(p) == if p.Insert? then {Start(p.node)} + TermParts(p.body) else Parts(p.left) + Parts(p.right)
  {}

  lemma {:induction false} UnsharedTermIsFresh(x: Term, held: Holding, done: set<Part>)
    requires TidyTerm(x, held) && UnsharedTerm(x) && CanStart(held, Reads(x), TermOwn(x), done)
    ensures FreshTerm(x, done)
    decreases x
  {
    match x
    case Nothing =>
    case Both(l, r) =>
      hide CanStart, Tidy, TermOwn, Reads;
      BothCanStart(x, held, done);
      AllWalked(l, held, done);
      UnsharedTermIsFresh(l, held, done);
      UnsharedTermIsFresh(r, held, done + TermParts(l));
    case Held(n, plan) =>
      assert n in Reads(x);
      if n !in done { UnsharedIsFresh(plan, E.Some(n), held, done); }
    case Listed(plan) => UnsharedIsFresh(plan, E.None, held, done);
  }

  lemma {:induction false} FreshIsUnshared(p: Logical, feeds: E.Option<Part>, held: Holding, done: set<Part>)
    requires Tidy(p, held) && CanStart(held, Direct(p), Own(p), done) && Fresh(p, feeds, done)
    ensures Unshared(p)
    decreases p
  {
    hide CanStart, Tidy, TidyTerm, Own;
    if p.SetOperation? {
      TidyOperands(p, held);
      OperandsCanStart(p, held, done);
      AllDone(p.right, feeds, held, done);
      FreshIsUnshared(p.right, feeds, held, done);
      FreshIsUnshared(p.left, feeds, held, done + Parts(p.right));
      FreshReads(p.left, feeds, held, done + Parts(p.right));
      DirectIsPart(p.right, held);
    } else {
      TidyBody(p, held);
      BodyCanStart(p, held, done);
      ReadsArePlaces(p.body, held);
      TidySlots(p, held);
      FreshTermIsUnshared(p.body, held, done + {Start(p.node)}, Reads(p.body), Own(p), {});

    }
  }

  lemma DirectIsPart(p: Logical, held: Holding)
    requires Tidy(p, held)
    ensures Direct(p) <= Parts(p)
  {
    PartsAre(p, held);
    forall m <- Direct(p) ensures m in Parts(p) { assert m in Inner(held, m) && Within(held, Direct(p), m); }
  }

  lemma TidySlots(p: Logical, held: Holding)
    requires p.Insert? && Tidy(p, held)
    ensures Apart(held, Reads(p.body), Own(p)) && TermOwn(p.body) <= Own(p)
    ensures forall m <- Reads(p.body) :: m != Start(p.node)
  {
    assert Start(p.node) in Own(p);
    forall m <- Reads(p.body) ensures m != Start(p.node) { assert m in Inner(held, m); }
  }

  /** `seen` are the places walked before; what is in them is known to be unshared. */
  lemma {:induction false} FreshTermIsUnshared(x: Term, held: Holding, done: set<Part>, places: set<Part>,
          own: set<Part>, seen: set<Part>)
    requires TidyTerm(x, held) && CanStart(held, Reads(x), TermOwn(x), done) && FreshTerm(x, done) && Reads(x) <= places
    requires Apart(held, places, own) && TermOwn(x) <= own && forall m <- places * done :: m in seen
    requires forall m <- seen :: m in held && Unshared(held[m])
    ensures UnsharedTerm(x) && forall m <- Reads(x) :: m in held && Unshared(held[m])
    decreases x
  {
    match x
    case Nothing =>
    case Both(l, r) =>
      hide CanStart, Tidy, TermOwn, Unshared;
      BothCanStart(x, held, done);
      AllWalked(l, held, done);
      OwnSplit(x);
      FreshTermIsUnshared(l, held, done, places, own, seen);
      SeenMore(l, held, places, own);
      FreshTermIsUnshared(r, held, done + TermParts(l), places, own, seen + Reads(l));
    case Held(n, plan) =>
      assert n in Reads(x);
      if n !in done {
        HeldCanStart(x, held, done);
        FreshIsUnshared(plan, E.Some(n), held, done);
      }
    case Listed(plan) =>
      ListedCanStart(x, held, done);
      FreshIsUnshared(plan, E.None, held, done);
  }

  lemma OwnSplit(x: Term)
    requires x.Both?
    ensures TermOwn(x.left) <= TermOwn(x) && TermOwn(x.right) <= TermOwn(x)
  {}

  lemma SeenMore(x: Term, held: Holding, places: set<Part>, own: set<Part>)
    requires TidyTerm(x, held) && Reads(x) <= places && TermOwn(x) <= own && Apart(held, places, own)
    ensures forall m <- places * TermParts(x) :: m in Reads(x)
  {
    hide TidyTerm, TermOwn, Reads, TermParts;
    TermPartsAre(x, held);
    forall m <- places * TermParts(x) ensures m in Reads(x) {
      assert m in Inner(held, m);
      var k :| k in Reads(x) && m in Inner(held, k);
    }
  }

  // ----- The exact condition -----

  /** Which INSERT reads from which place. */
  function Readers(p: Logical): set<(Node, Part)>
    decreases p
  {
    match p
    case Insert(node, body) => (set n <- Reads(body) :: (node, n)) + TermReaders(body)
    case SetOperation(l, r) => Readers(l) + Readers(r)
  }

  function TermReaders(x: Term): set<(Node, Part)>
    decreases x
  {
    match x
    case Nothing => {}
    case Both(l, r) => TermReaders(l) + TermReaders(r)
    case Held(_, plan) => Readers(plan)
    case Listed(plan) => Readers(plan)
  }

  predicate OneReader(readers: set<(Node, Part)>) { forall x <- readers, y <- readers :: x.1 == y.1 ==> x.0 == y.0 }

  lemma {:induction false} ReadersAreParts(p: Logical)
    ensures forall x <- Readers(p) :: x.1 in Parts(p)
    decreases p
  {
    if p.SetOperation? { ReadersAreParts(p.left); ReadersAreParts(p.right); }
    else { TermReadersAreParts(p.body); }
  }

  lemma {:induction false} TermReadersAreParts(x: Term)
    ensures forall y <- TermReaders(x) :: y.1 in TermParts(x)
    ensures Reads(x) <= TermParts(x)
    decreases x
  {
    match x
    case Nothing =>
    case Both(l, r) => TermReadersAreParts(l); TermReadersAreParts(r);
    case Held(_, plan) => ReadersAreParts(plan);
    case Listed(plan) => ReadersAreParts(plan);
  }

  lemma {:induction false} DirectReader(p: Logical, n: Part) returns (a: Node)
    requires n in Direct(p)
    ensures (a, n) in Readers(p) && Start(a) in Own(p)
  {
    if p.Insert? { a := p.node; }
    else if n in Direct(p.left) { a := DirectReader(p.left, n); }
    else { a := DirectReader(p.right, n); }
  }

  lemma {:induction false} ReadOnceIsUnshared(p: Logical, held: Holding)
    requires Tidy(p, held) && OneReader(Readers(p))
    ensures Unshared(p)
    decreases p
  {
    hide TidyTerm, Own, Parts, Apart;
    if p.SetOperation? {
      ReadOnceIsUnshared(p.left, held);
      ReadOnceIsUnshared(p.right, held);
      forall n <- Direct(p.left) ensures n !in Direct(p.right) {
        var a := DirectReader(p.left, n);
        if n in Direct(p.right) { var b := DirectReader(p.right, n); }
      }
    } else {
      ReadOnceTermIsUnshared(p.body, held);
    }
  }

  lemma {:induction false} ReadOnceTermIsUnshared(x: Term, held: Holding)
    requires TidyTerm(x, held) && OneReader(TermReaders(x))
    ensures UnsharedTerm(x)
    decreases x
  {
    hide Tidy;
    match x
    case Nothing =>
    case Both(l, r) => ReadOnceTermIsUnshared(l, held); ReadOnceTermIsUnshared(r, held);
    case Held(_, plan) => ReadOnceIsUnshared(plan, held);
    case Listed(plan) => ReadOnceIsUnshared(plan, held);
  }

  /** The readers below an INSERT are in its FROM list or in one of its places. */
  ghost predicate ReadIn(held: Holding, places: set<Part>, own: set<Part>, y: (Node, Part)) {
    y.1 in own || exists m <- places ::
      m in held && y in Readers(held[m]) && y.1 in Parts(held[m]) && m !in Parts(held[m])
  }

  lemma {:induction false} TermReadersIn(x: Term, held: Holding, y: (Node, Part))
    requires TidyTerm(x, held) && y in TermReaders(x)
    ensures ReadIn(held, Reads(x), TermOwn(x), y)
    decreases x
  {
    hide Tidy, Parts, Readers;
    match x
    case Both(l, r) =>
      if y in TermReaders(l) { TermReadersIn(l, held, y); } else { TermReadersIn(r, held, y); }
    case Held(n, plan) =>
      ReadersAreParts(plan);
      assert n in Reads(x);
    case Listed(plan) => ReadersAreParts(plan);
  }

  /** The places themselves are read by nobody below. */
  lemma PlacesNotBelow(held: Holding, places: set<Part>, own: set<Part>, y: (Node, Part))
    requires Apart(held, places, own) && ReadIn(held, places, own, y)
    ensures y.1 !in places
  {
    hide Parts, Readers;
    forall k <- places ensures k != y.1 {
      assert k in Inner(held, k);
      if y.1 !in own {
        var m :| m in places && m in held && y in Readers(held[m]) && y.1 in Parts(held[m]) && m !in Parts(held[m]);
        assert y.1 in Inner(held, m);
      }
    }
  }

  lemma NotReadInside(held: Holding, places: set<Part>, own: set<Part>, t: set<Part>, own': set<Part>, z: (Node, Part))
    requires Apart(held, places, own + own') && own !! own' && t <= places && z.1 in own
    ensures !ReadIn(held, t, own', z)
  {
    hide Parts, Readers;
    forall m <- t | m in held ensures z.1 !in Parts(held[m]) { assert m in places; }
  }

  lemma SameReader(held: Holding, s: set<Part>, own: set<Part>, t: set<Part>, own': set<Part>, y: (Node, Part),
          z: (Node, Part))
    requires Apart(held, s + t, own + own') && own !! own' && y.1 == z.1
    requires ReadIn(held, s, own, y) && ReadIn(held, t, own', z)
    requires forall m <- s :: m in held && OneReader(Readers(held[m]))
    ensures y.0 == z.0
  {
    hide Parts, Readers;
    if y.1 in own {
      NotReadInside(held, s + t, own, t, own', z);
    } else {
      var m :| m in s && m in held && y in Readers(held[m]) && y.1 in Parts(held[m]);
      assert m in s + t && y.1 in Inner(held, m);
      var k :| k in t && k in held && z in Readers(held[k]) && z.1 in Parts(held[k]);
      assert k in s + t && z.1 in Inner(held, k);
    }
  }

  lemma {:induction false} UnsharedIsReadOnce(p: Logical, held: Holding)
    requires Tidy(p, held) && Unshared(p)
    ensures OneReader(Readers(p))
    decreases p
  {
    if p.SetOperation? {
      UnsharedIsReadOnce(p.left, held);
      UnsharedIsReadOnce(p.right, held);
      OperandsApart(p, held);
      hide Parts, Tidy;
      ReadersAreParts(p.left);
      ReadersAreParts(p.right);
    } else {
      TidySlots(p, held);
      hide Parts, Tidy, Apart;
      TidyBody(p, held);
      UnsharedTermIsReadOnce(p.body, held, Reads(p.body), Own(p));
      forall y <- TermReaders(p.body) ensures y.1 !in Reads(p.body) { BelowBody(p, held, y); }
    }
  }

  lemma BelowBody(p: Logical, held: Holding, y: (Node, Part))
    requires p.Insert? && Tidy(p, held) && y in TermReaders(p.body)
    ensures y.1 !in Reads(p.body)
  {
    TidySlots(p, held);
    hide Tidy, Parts, Readers;
    TidyBody(p, held);
    TermReadersIn(p.body, held, y);
    PlacesNotBelow(held, Reads(p.body), TermOwn(p.body), y);
  }

  lemma {:induction false} UnsharedTermIsReadOnce(x: Term, held: Holding, places: set<Part>, own: set<Part>)
    requires TidyTerm(x, held) && UnsharedTerm(x) && Reads(x) <= places && TermOwn(x) <= own && Apart(held, places, own)
    ensures OneReader(TermReaders(x)) && forall m <- Reads(x) :: m in held && OneReader(Readers(held[m]))
    decreases x
  {
    hide Tidy, Parts, Readers, OneReader;
    match x
    case Nothing => assert OneReader({}) by { NoReaders(); }
    case Both(l, r) =>
      UnsharedTermIsReadOnce(l, held, places, own);
      UnsharedTermIsReadOnce(r, held, places, own);
      forall y <- TermReaders(l), z <- TermReaders(r) | y.1 == z.1 ensures y.0 == z.0 {
        TermReadersIn(l, held, y);
        TermReadersIn(r, held, z);
        SameReader(held, Reads(l), TermOwn(l), Reads(r), TermOwn(r), y, z);
      }
      JoinReaders(TermReaders(l), TermReaders(r));
    case Held(_, plan) => UnsharedIsReadOnce(plan, held);
    case Listed(plan) => UnsharedIsReadOnce(plan, held);
  }

  lemma NoReaders()
    ensures OneReader({})
  {}

  lemma JoinReaders(a: set<(Node, Part)>, b: set<(Node, Part)>)
    requires OneReader(a) && OneReader(b) && forall y <- a, z <- b :: y.1 == z.1 ==> y.0 == z.0
    ensures OneReader(a + b)
  {}

  lemma NothingDone(p: Logical, held: Holding)
    requires Tidy(p, held)
    ensures CanStart(held, Direct(p), Own(p), {})
  {
    UntouchedCanStart(p, held, {});
  }

  /** Every sub-plan runs before all plans that read from it if and only if no place that holds a plan is
      reached from two INSERTs. */
  lemma SubPlansFirstIff(p: Logical, held: Holding)
    requires Tidy(p, held)
    ensures InOrder(Generated(p, E.None, {}).plans, {}) <==> OneReader(Readers(p))
  {
    hide *;
    NothingDone(p, held);
    OrderIff(p, E.None, held, {});
    if Fresh(p, E.None, {}) {
      FreshIsUnshared(p, E.None, held, {});
      UnsharedIsReadOnce(p, held);
    }
    if OneReader(Readers(p)) {
      ReadOnceIsUnshared(p, held);
      UnsharedIsFresh(p, E.None, held, {});
    }
  }

  // ----- Every INSERT once -----

  /** The INSERTs of the plans are the ones started in this run, each once. */
  predicate StartsOnce(plans: seq<Made>, done: set<Part>, done': set<Part>) {
    && done <= done' && (forall e <- plans :: Start(e.node) in done' - done)
    && (forall i, j | 0 <= i < j < |plans| :: plans[i].node != plans[j].node)
    && forall n <- done' - done :: n.Start? ==> exists e <- plans :: e.node == n.node
  }

  lemma JoinStarts(a: seq<Made>, b: seq<Made>, done: set<Part>, mid: set<Part>, end: set<Part>)
    requires StartsOnce(b, done, mid) && StartsOnce(a, mid, end)
    ensures StartsOnce(a + b, done, end)
  {
    var ab := a + b;
    forall i, j | 0 <= i < j < |ab| ensures ab[i].node != ab[j].node {
      if i < |a| <= j { assert ab[i] in a && ab[j] in b; }
    }
    forall n <- end - done | n.Start? ensures exists e <- ab :: e.node == n.node {
      if n in mid {
        var e :| e in b && e.node == n.node;
        assert e in ab;
      } else {
        var e :| e in a && e.node == n.node;
        assert e in ab;
      }
    }
  }

  lemma EntryStarts(plans: seq<Made>, e: Made, done: set<Part>, end: set<Part>)
    requires StartsOnce(plans, done + {Start(e.node)}, end) && Start(e.node) !in done
    ensures StartsOnce(plans + [e], done, end)
  {
    var all := plans + [e];
    forall i, j | 0 <= i < j < |all| ensures all[i].node != all[j].node { assert all[i] in plans; }
    assert e in all;
    forall n <- end - done | n.Start? ensures exists k <- all :: k.node == n.node {
      if n != Start(e.node) {
        var k :| k in plans && k.node == n.node;
        assert k in all;
      }
    }
  }

  lemma {:induction false} RunStarts(p: Logical, feeds: E.Option<Part>, held: Holding, done: set<Part>)
    requires Tidy(p, held) && CanStart(held, Direct(p), Own(p), done)
    ensures var r := Generated(p, feeds, done); StartsOnce(r.plans, done, r.done)
    decreases p
  {
    hide CanStart, Tidy, TidyTerm, Own, Direct, StartsOnce;
    if p.SetOperation? {
      TidyOperands(p, held);
      OperandsCanStart(p, held, done);
      AllDone(p.right, feeds, held, done);
      RunStarts(p.right, feeds, held, done);
      RunStarts(p.left, feeds, held, done + Parts(p.right));
      var b := Generated(p.right, feeds, done);
      var a := Generated(p.left, feeds, b.done);
      JoinStarts(a.plans, b.plans, done, b.done, a.done);
    } else {
      TidyBody(p, held);
      BodyCanStart(p, held, done);
      NotStarted(p, held, done);
      TermStarts(p.body, held, done + {Start(p.node)});
      var r := Walked(p.body, done + {Start(p.node)});
      EntryStarts(r.plans, Made(p.node, Reads(p.body), feeds), done, r.done);
    }
  }

  lemma NotStarted(p: Logical, held: Holding, done: set<Part>)
    requires p.Insert? && CanStart(held, Direct(p), Own(p), done)
    ensures Start(p.node) !in done
  {
    assert Start(p.node) in Own(p);
  }

  lemma {:induction false} TermStarts(x: Term, held: Holding, done: set<Part>)
    requires TidyTerm(x, held) && CanStart(held, Reads(x), TermOwn(x), done)
    ensures var r := Walked(x, done); StartsOnce(r.plans, done, r.done)
    decreases x
  {
    match x
    case Nothing =>
    case Both(l, r) =>
      hide CanStart, Tidy, TermOwn, Reads, StartsOnce, Parts;
      BothCanStart(x, held, done);
      AllWalked(l, held, done);
      TermStarts(l, held, done);
      TermStarts(r, held, done + TermParts(l));
      var a := Walked(l, done);
      var b := Walked(r, a.done);
      JoinStarts(b.plans, a.plans, done, a.done, b.done);
    case Held(n, plan) =>
      HeldCanStart(x, held, done);
      if n !in done { RunStarts(plan, E.Some(n), held, done); }
    case Listed(plan) =>
      ListedCanStart(x, held, done);
      RunStarts(plan, E.None, held, done);
  }

  /** Every INSERT gets exactly one physical plan, however many others read from it. */
  lemma OneEach(p: Logical, held: Holding)
    requires Tidy(p, held)
    ensures StartsOnce(Generated(p, E.None, {}).plans, {}, Parts(p))
  {
    hide *;
    NothingDone(p, held);
    RunStarts(p, E.None, held, {});
    AllDone(p, E.None, held, {});
    assert {} + Parts(p) == Parts(p);
  }

  // ----- Where a plan stands -----

  /** q is p or one of the plans inside it. */
  predicate Inside(q: Logical, p: Logical)
    decreases p
  {
    q == p || match p
              case Insert(_, body) => InsideTerm(q, body)
              case SetOperation(l, r) => Inside(q, l) || Inside(q, r)
  }

  predicate InsideTerm(q: Logical, x: Term)
    decreases x
  {
    match x
    case Nothing => false
    case Both(l, r) => InsideTerm(q, l) || InsideTerm(q, r)
    case Held(_, plan) => Inside(q, plan)
    case Listed(plan) => Inside(q, plan)
  }

  /** The plans of q, generated for `feeds` when `done` was done, stand together among these. */
  ghost predicate Segment(plans: seq<Made>, q: Logical, feeds: E.Option<Part>, done: set<Part>) {
    exists i, j | 0 <= i <= j <= |plans| :: plans[i..j] == Generated(q, feeds, done).plans
  }

  lemma SegmentMore(pre: seq<Made>, plans: seq<Made>, post: seq<Made>, q: Logical, feeds: E.Option<Part>,
          done: set<Part>)
    requires Segment(plans, q, feeds, done)
    ensures Segment(pre + plans + post, q, feeds, done)
  {
    var i, j :| 0 <= i <= j <= |plans| && plans[i..j] == Generated(q, feeds, done).plans;
    assert (pre + plans + post)[|pre| + i..|pre| + j] == plans[i..j];
  }

  lemma SegmentAll(q: Logical, feeds: E.Option<Part>, done: set<Part>)
    ensures Segment(Generated(q, feeds, done).plans, q, feeds, done)
  {
    var plans := Generated(q, feeds, done).plans;
    assert plans[0..|plans|] == plans;
  }

  lemma {:induction false} InsidePlace(q: Logical, x: Term, held: Holding, m: Part)
    requires TidyTerm(x, held) && m in Reads(x) && m in held && Inside(q, held[m])
    ensures InsideTerm(q, x)
  {
    hide Tidy, Inside, Parts;
    if x.Both? {
      if m in Reads(x.left) { InsidePlace(q, x.left, held, m); } else { InsidePlace(q, x.right, held, m); }
    }
  }

  lemma {:induction false} InsideDirect(q: Logical, p: Logical, held: Holding, m: Part)
    requires Tidy(p, held) && m in Direct(p) && m in held && Inside(q, held[m])
    ensures Inside(q, p)
  {
    if p.SetOperation? {
      TidyOperands(p, held);
      if m in Direct(p.left) { InsideDirect(q, p.left, held, m); } else { InsideDirect(q, p.right, held, m); }
    } else {
      InsidePlace(q, p.body, held, m);
    }
  }

  /** q was generated in this run, or is in a place that had been done before. */
  ghost predicate FoundAt(plans: seq<Made>, places: set<Part>, held: Holding, done: set<Part>, q: Logical,
    at: E.Option<Part>, feeds: E.Option<Part>, d: set<Part>)
  {
    match at
    case None => Segment(plans, q, feeds, d)
    case Some(m) => m in places && m in done && m in held && Inside(q, held[m])
  }

  lemma {:induction false} Standing(q: Logical, p: Logical, feeds: E.Option<Part>, held: Holding, done: set<Part>)
    returns (at: E.Option<Part>, g: E.Option<Part>, d: set<Part>)
    requires Tidy(p, held) && CanStart(held, Direct(p), Own(p), done) && Inside(q, p)
    ensures FoundAt(Generated(p, feeds, done).plans, Direct(p), held, done, q, at, g, d)
    decreases p
  {
    hide CanStart, Tidy, TidyTerm, Own, Segment, Inside, InsideTerm;
    if q == p {
      SegmentAll(q, feeds, done);
      return E.None, feeds, done;
    }
    InsideSplit(q, p);
    if p.SetOperation? {
      TidyOperands(p, held);
      OperandsCanStart(p, held, done);
      AllDone(p.right, feeds, held, done);
      var b := Generated(p.right, feeds, done);
      var a := Generated(p.left, feeds, b.done);
      if Inside(q, p.left) {
        at, g, d := Standing(q, p.left, feeds, held, b.done);
        if at.None? {
          SegmentMore([], a.plans, b.plans, q, g, d);
          assert [] + a.plans + b.plans == a.plans + b.plans;
          return;
        }
        if at.value in done { return; }
        DirectSeen(p, held, at.value);
        InsideDirect(q, p.right, held, at.value);
      }
      at, g, d := Standing(q, p.right, feeds, held, done);
      if at.None? {
        SegmentMore(a.plans, b.plans, [], q, g, d);
        assert a.plans + b.plans + [] == a.plans + b.plans;
      }
    } else {
      TidyBody(p, held);
      BodyCanStart(p, held, done);
      TidySlots(p, held);
      OwnBody(p);
      at, g, d := TermStanding(q, p.body, held, done + {Start(p.node)}, Reads(p.body), Own(p));
      var r := Walked(p.body, done + {Start(p.node)});
      if at.None? {
        SegmentMore([], r.plans, [Made(p.node, Reads(p.body), feeds)], q, g, d);
        assert [] + r.plans == r.plans;
      }
    }
  }

  lemma InsideSplit(q: Logical, p: Logical)
    requires Inside(q, p) && q != p
    ensures if p.Insert? then InsideTerm(q, p.body) else Inside(q, p.left) || Inside(q, p.right)
  {}

  lemma OwnBody(p: Logical)
    requires p.Insert?
    ensures TermOwn(p.body) <= Own(p)
  {}

  lemma DirectSeen(p: Logical, held: Holding, m: Part)
    requires p.SetOperation? && Tidy(p, held) && m in Direct(p.left) && m in Parts(p.right)
    ensures m in Direct(p.right)
  {
    TidySet(p, held);
    hide Tidy;
    PartsAre(p.right, held);
    assert m in Inner(held, m) && m in Direct(p);
    var k :| k in Direct(p.right) && m in Inner(held, k);
    assert k in Direct(p);
  }

  lemma {:induction false} TermStanding(q: Logical, x: Term, held: Holding, done: set<Part>, places: set<Part>,
          own: set<Part>)
    returns (at: E.Option<Part>, g: E.Option<Part>, d: set<Part>)
    requires TidyTerm(x, held) && CanStart(held, Reads(x), TermOwn(x), done) && InsideTerm(q, x)
    requires Reads(x) <= places && TermOwn(x) <= own && Apart(held, places, own)
    ensures FoundAt(Walked(x, done).plans, Reads(x), held, done, q, at, g, d)
    decreases x
  {
    match x
    case Both(l, r) =>
      hide CanStart, Tidy, TermOwn, Segment, Inside, Apart;
      BothCanStart(x, held, done);
      AllWalked(l, held, done);
      OwnSplit(x);
      var a := Walked(l, done);
      var b := Walked(r, a.done);
      if InsideTerm(q, r) {
        at, g, d := TermStanding(q, r, held, a.done, places, own);
        if at.None? {
          SegmentMore([], b.plans, a.plans, q, g, d);
          assert [] + b.plans + a.plans == b.plans + a.plans;
          return;
        }
        if at.value in done { return; }
        SeenMore(l, held, places, own);
        InsidePlace(q, l, held, at.value);
      }
      at, g, d := TermStanding(q, l, held, done, places, own);
      if at.None? {
        SegmentMore(b.plans, a.plans, [], q, g, d);
        assert b.plans + a.plans + [] == b.plans + a.plans;
      }
    case Held(n, plan) =>
      hide Segment, Inside;
      assert n in Reads(x);
      HeldCanStart(x, held, done);
      if n in done {
        at, g, d := E.Some(n), E.None, done;
      } else {
        at, g, d := Standing(q, plan, E.Some(n), held, done);
        if at.Some? { UntouchedPlace(x, held, done, at.value); }
      }
    case Listed(plan) =>
      hide Segment, Inside;
      ListedCanStart(x, held, done);
      at, g, d := Standing(q, plan, E.None, held, done);
      if at.Some? { UntouchedPlace(x, held, done, at.value); }
  }

  lemma UntouchedPlace(x: Term, held: Holding, done: set<Part>, m: Part)
    requires TidyTerm(x, held) && CanStart(held, Reads(x), TermOwn(x), done)
    requires (x.Held? && x.place !in done) || x.Listed?
    requires m in Direct(x.plan)
    ensures m !in done
  {
    DirectIsPart(x.plan, held);
    assert x.Held? ==> x.place in Reads(x);
  }

  /** Wherever a set operation stands in a query, the plans of its left operand run before those of its
      right one. */
  lemma LeftFirst(q: Logical, p: Logical, held: Holding) returns (feeds: E.Option<Part>, done: set<Part>)
    requires Tidy(p, held) && Inside(q, p) && q.SetOperation?
    ensures Segment(Generated(p, E.None, {}).plans, q, feeds, done)
    ensures var b := Generated(q.right, feeds, done);
      Generated(q, feeds, done).plans == Generated(q.left, feeds, b.done).plans + b.plans
  {
    hide Tidy, Inside, Segment;
    NothingDone(p, held);
    var at;
    at, feeds, done := Standing(q, p, E.None, held, {});
  }

  /** f is in the FROM list. */
  predicate InFrom(f: Logical, x: Term) {
    match x
    case Both(l, r) => InFrom(f, l) || InFrom(f, r)
    case Listed(plan) => plan == f
    case _ => false
  }

  lemma {:induction false} FromSegment(f: Logical, x: Term, done: set<Part>) returns (d: set<Part>)
    requires InFrom(f, x)
    ensures Segment(Walked(x, done).plans, f, E.None, d)
    decreases x
  {
    hide Segment;
    match x
    case Both(l, r) =>
      var a := Walked(l, done);
      var b := Walked(r, a.done);
      if InFrom(f, l) {
        d := FromSegment(f, l, done);
        SegmentMore(b.plans, a.plans, [], f, E.None, d);
        assert b.plans + a.plans + [] == b.plans + a.plans;
      } else {
        d := FromSegment(f, r, a.done);
        SegmentMore([], b.plans, a.plans, f, E.None, d);
        assert [] + b.plans + a.plans == b.plans + a.plans;
      }
    case Listed(plan) =>
      d := done;
      SegmentAll(f, E.None, done);
  }

  /** Wherever an INSERT stands in a query, the plans in its FROM list run before it. */
  lemma FromFirst(q: Logical, p: Logical, held: Holding, f: Logical)
    returns (feeds: E.Option<Part>, done: set<Part>, before: seq<Made>, d: set<Part>)
    requires Tidy(p, held) && Inside(q, p) && q.Insert? && InFrom(f, q.body)
    ensures Segment(Generated(p, E.None, {}).plans, q, feeds, done)
    ensures Generated(q, feeds, done).plans == before + [Made(q.node, Reads(q.body), feeds)]
    ensures Segment(before, f, E.None, d)
  {
    hide Tidy, Inside, Segment;
    NothingDone(p, held);
    var at;
    at, feeds, done := Standing(q, p, E.None, held, {});
    before := Walked(q.body, done + {Start(q.node)}).plans;
    d := FromSegment(f, q.body, done + {Start(q.node)});
  }

  // ----- A place that two INSERTs read from -----

  /** Two leaves of a split query that share an IN node with a sub-select: the first leaf runs before the
      sub-select that it reads from. */
  lemma SharedSubPlanRunsLate(a: Node, b: Node, sub: Node, inNode: Node)
    requires a != b && a != sub && b != sub
    ensures var shared := Held(Place(inNode, true), Insert(sub, Nothing));
      var p := SetOperation(Insert(a, shared), Insert(b, shared));
      var plans := Generated(p, E.None, {}).plans;
      && Tidy(p, map[Place(inNode, true) := Insert(sub, Nothing)])
      && |plans| == 3 && plans[0].node == a && plans[1].node == sub && plans[2].node == b && !InOrder(plans, {})
  {
    var n, s := Place(inNode, true), Insert(sub, Nothing);
    var x := Held(n, s);
    var p := SetOperation(Insert(a, x), Insert(b, x));
    SharedIsTidy(a, b, sub, n);
    LeafRun(b, x, {});
    var right := Generated(Insert(b, x), E.None, {});
    var left := Generated(Insert(a, x), E.None, right.done);
    assert Walked(x, right.done + {Start(a)}).plans == [];
    assert left.plans == [Made(a, {n}, E.None)];
    var plans := Generated(p, E.None, {}).plans;
    assert plans == [Made(a, {n}, E.None), Made(sub, {}, E.Some(n)), Made(b, {n}, E.None)];
    assert n in plans[0].sources && Feeds(plans[1], n);
    assert !FedBefore(plans, 0, n);
  }

  lemma LeafRun(b: Node, x: Term, done: set<Part>)
    requires x.Held? && x.plan.Insert? && x.plan.body.Nothing? && x.place !in done && x.place.Place?
    ensures var r := Generated(Insert(b, x), E.None, done);
      x.place in r.done && r.plans == [Made(x.plan.node, {}, E.Some(x.place)), Made(b, {x.place}, E.None)]
  {
    var d := done + {Start(b)};
    assert Generated(x.plan, E.Some(x.place), d).plans == [Made(x.plan.node, {}, E.Some(x.place))];
    assert Walked(x, d) == Run([Made(x.plan.node, {}, E.Some(x.place))], d + {Start(x.plan.node)} + {x.place});
  }

  lemma SharedIsTidy(a: Node, b: Node, sub: Node, n: Part)
    requires a != b && a != sub && b != sub && n.Place?
    ensures var s := Insert(sub, Nothing); Tidy(SetOperation(Insert(a, Held(n, s)), Insert(b, Held(n, s))), map[n := s])
  {
    var s := Insert(sub, Nothing);
    var x, held := Held(n, s), map[n := s];
    var l, r := Insert(a, x), Insert(b, x);
    assert TermParts(Nothing) == TermOwn(Nothing) == Reads(Nothing) == {} && TidyTerm(Nothing, held);
    assert Direct(s) == {} && Own(s) == Parts(s) == {Start(sub)} && Tidy(s, held);
    assert Inner(held, n) == {n} + Parts(s) == {n, Start(sub)};
    assert Reads(x) == {n} && TermOwn(x) == {} && TidyTerm(x, held);
    assert Direct(l) == {n} == Direct(r) && Own(l) == {Start(a)} && Own(r) == {Start(b)};
    assert Tidy(l, held) && Tidy(r, held);
  }
}
