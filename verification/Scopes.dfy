/** qualify_query: column names are looked up in a ring of joins that grows by the enclosing queries'
    joins while a query is being qualified and shrinks again afterwards. */
module Scopes {
  import opened Rings
  import E = Enumeration

  /** What a join shows of its table: its alias, if it has one, and its column names. */
  datatype Alias = Alias(name: E.Option<string>, columns: seq<string>)

  type SqlJoin = Link<Alias>

  /** A column reference, split at its first period. */
  datatype Name = Name(table: E.Option<string>, column: string)

  function FirstPeriod(s: string): (k: nat)
    ensures k <= |s| && (k < |s| ==> s[k] == '.') && forall i | 0 <= i < k :: s[i] != '.'
  {
    if s == "" || s[0] == '.' then 0 else 1 + FirstPeriod(s[1..])
  }

  function NameOf(s: string): Name {
    var k := FirstPeriod(s);
    if k < |s| then Name(E.Some(s[..k]), s[k + 1..]) else Name(E.None, s)
  }

  /** A table and a column joined by a period are taken apart again, and a name without a period is a column. */
  lemma NameOfIs(table: string, column: string)
    requires '.' !in table
    ensures NameOf(table + "." + column) == Name(E.Some(table), column)
    ensures '.' !in column ==> NameOf(column) == Name(E.None, column)
  {
    var s := table + "." + column;
    var k := FirstPeriod(s);
    assert s[|table|] == '.';
    assert forall i | 0 <= i < |table| :: s[i] in table;
    assert s[..|table|] == table && s[|table| + 1..] == column;
  }

  // ----- Lexical scoping, as a function -----

  /** The table a name belongs to, the innermost first. */
  function Resolve(scope: seq<SqlJoin>, name: Name): E.Option<SqlJoin> {
    if scope == [] then E.None
    else if name.table.Some? then
      if scope[0].item.name == name.table then Found(scope[0], name) else Resolve(scope[1..], name)
    else if name.column in scope[0].item.columns then E.Some(scope[0])
    else Resolve(scope[1..], name)
  }

  function Found(join: SqlJoin, name: Name): E.Option<SqlJoin> {
    if name.column in join.item.columns then E.Some(join) else E.None
  }

  /** The join that a name is about: the one of that alias or, without one, any that has the column. */
  predicate About(j: SqlJoin, name: Name) {
    if name.table.Some? then j.item.name == name.table else name.column in j.item.columns
  }

  /** The name is about one of these tables. */
  predicate Concerns(scope: seq<SqlJoin>, name: Name) { exists j <- scope :: About(j, name) }

  /** A query's own tables hide those of the enclosing queries. */
  lemma {:induction false} OwnTablesFirst(own: seq<SqlJoin>, enclosing: seq<SqlJoin>, name: Name)
    ensures Resolve(own + enclosing, name) == if Concerns(own, name) then Resolve(own, name)
      else Resolve(enclosing, name)
  {
    if own == [] {
      assert own + enclosing == enclosing;
    } else {
      assert (own + enclosing)[1..] == own[1..] + enclosing;
      OwnTablesFirst(own[1..], enclosing, name);
      assert own == [own[0]] + own[1..];
      assert Concerns(own, name) <==> About(own[0], name) || Concerns(own[1..], name);
    }
  }

  /** Join k is the first that the name is about. */
  predicate FirstAbout(scope: seq<SqlJoin>, name: Name, k: nat) {
    k < |scope| && About(scope[k], name) && forall m | 0 <= m < k :: !About(scope[m], name)
  }

  /** A name belongs to the first join that it is about, if that has the column; no other join is asked. */
  lemma {:induction false} ResolveIff(scope: seq<SqlJoin>, name: Name, j: SqlJoin)
    ensures Resolve(scope, name) == E.Some(j)
      <==> exists k: nat :: FirstAbout(scope, name, k) && scope[k] == j && name.column in j.item.columns
  {
    if scope != [] {
      var rest := scope[1..];
      ResolveIff(rest, name, j);
      if About(scope[0], name) {
        assert FirstAbout(scope, name, 0) && forall k: nat | FirstAbout(scope, name, k) :: k == 0;
      } else {
        forall k: nat ensures FirstAbout(scope, name, k + 1) <==> FirstAbout(rest, name, k) {
          assert forall m | 0 < m < |scope| :: scope[m] == rest[m - 1];
          assert forall m | 0 <= m < |rest| :: rest[m] == scope[m + 1];
        }
        if k: nat :| FirstAbout(rest, name, k) && rest[k] == j { assert FirstAbout(scope, name, k + 1); }
        if k: nat :| FirstAbout(scope, name, k) && scope[k] == j { assert FirstAbout(rest, name, k - 1); }
      }
    }
  }

  // ----- Looking a name up in a ring -----

  /** qualify_column_name and match_column_in_table. Further matches of an unqualified name only warn. */
  method QualifyColumnName(name: Name, tables: SqlJoin, ghost scope: seq<SqlJoin>)
    returns (r: E.Option<SqlJoin>, ambiguous: bool)
    requires Ring(scope) && scope[0] == tables
    ensures r == Resolve(scope, name)
    ensures ambiguous <==> name.table.None? && exists i, j | 0 <= i < j < |scope| ::
      name.column in scope[i].item.columns && name.column in scope[j].item.columns
  {
    r, ambiguous := E.None, false;
    var cur := tables;
    ghost var k := 0;
    assert scope[0..] == scope;
    while true
      invariant 0 <= k < |scope| && cur == scope[k]
      invariant if r.Some? then name.table.None? && r == Resolve(scope, name)
        else Resolve(scope[k..], name) == Resolve(scope, name)
      invariant name.table.None? ==> (r.Some? <==> exists i | 0 <= i < k :: name.column in scope[i].item.columns)
      invariant ambiguous <==> name.table.None? && exists i, j | 0 <= i < j < k ::
        name.column in scope[i].item.columns && name.column in scope[j].item.columns
      decreases |scope| - k
    {
      if name.table.Some? {
        if cur.item.name == name.table {
          if name.column in cur.item.columns { r := E.Some(cur); }
          return;
        }
      } else if name.column in cur.item.columns {
        if r.Some? { ambiguous := true; } else { r := E.Some(cur); }
      }
      assert scope[k].next == scope[NextIndex(k, |scope|)];
      assert scope[k..][1..] == scope[k + 1..];
      cur := cur.next;
      k := k + 1;
      if cur == tables { break; }
    }
    assert scope[|scope|..] == [];
  }

  // ----- Falling back to the select list -----

  /** A column of the select list, with its alias if it has one. */
  type SelectColumn = Link<E.Option<string>>

  /** As many characters as the name has are compared. */
  predicate Begins(c: SelectColumn, column: string) { c.item.Some? && column <= c.item.value }

  function FirstBegins(list: seq<SelectColumn>, column: string): E.Option<SelectColumn> {
    if list == [] then E.None else if Begins(list[0], column) then E.Some(list[0]) else FirstBegins(list[1..], column)
  }

  /** The first column whose alias begins with the name. */
  lemma {:induction false} FirstBeginsIff(list: seq<SelectColumn>, column: string, k: nat)
    requires k < |list| && Begins(list[k], column) && forall m | 0 <= m < k :: !Begins(list[m], column)
    ensures FirstBegins(list, column) == E.Some(list[k])
  {
    if k > 0 { FirstBeginsIff(list[1..], column, k - 1); }
  }

  /** What the alias of a column says it is. */
  function FirstNamed(list: seq<SelectColumn>, column: string): E.Option<SelectColumn> {
    if list == [] then E.None
    else if list[0].item == E.Some(column) then E.Some(list[0])
    else FirstNamed(list[1..], column)
  }

  /** No alias that goes on after the name comes before the first that is the name. */
  predicate NoLongerFirst(list: seq<SelectColumn>, column: string) {
    list == [] || list[0].item == E.Some(column) || (!Begins(list[0], column) && NoLongerFirst(list[1..], column))
  }

  /** The fallback finds the column of this name exactly if no longer alias comes before it. */
  lemma {:induction false} FallbackIff(list: seq<SelectColumn>, column: string)
    requires Distinct(list)
    ensures FirstBegins(list, column) == FirstNamed(list, column) <==> NoLongerFirst(list, column)
    ensures FirstNamed(list, column).Some? ==> FirstNamed(list, column).value in list
  {
    if list != [] {
      FallbackIff(list[1..], column);
      assert forall c <- list[1..] :: c != list[0];
    }
  }

  /** The name "to" is taken for the alias "total". */
  lemma LongerAliasIsTaken(c: SelectColumn)
    requires c.item == E.Some("total")
    ensures FirstBegins([c], "to") == E.Some(c) && FirstNamed([c], "to") == E.None
  {
    assert "to" <= "total";
  }

  /** The loop over the select list. */
  method QualifyInSelectList(column: string, start: SelectColumn, ghost list: seq<SelectColumn>)
    returns (r: E.Option<SelectColumn>, ambiguous: bool)
    requires Ring(list) && list[0] == start
    ensures r == FirstBegins(list, column)
    ensures ambiguous <==> exists i, j | 0 <= i < j < |list| :: Begins(list[i], column) && Begins(list[j], column)
  {
    r, ambiguous := E.None, false;
    var cur := start;
    ghost var k := 0;
    assert list[0..] == list;
    while true
      invariant 0 <= k < |list| && cur == list[k]
      invariant if r.Some? then r == FirstBegins(list, column)
        else FirstBegins(list[k..], column) == FirstBegins(list, column)
      invariant r.Some? <==> exists i | 0 <= i < k :: Begins(list[i], column)
      invariant ambiguous <==> exists i, j | 0 <= i < j < k :: Begins(list[i], column) && Begins(list[j], column)
      decreases |list| - k
    {
      if Begins(cur, column) {
        if r.Some? { ambiguous := true; } else { r := E.Some(cur); }
      }
      assert list[k].next == list[NextIndex(k, |list|)];
      assert list[k..][1..] == list[k + 1..];
      cur := cur.next;
      k := k + 1;
      if cur == start { break; }
    }
    assert list[|list|..] == [];
  }

  /** What a name is taken for. */
  datatype Answer = InTable(table: SqlJoin) | InList(column: SelectColumn) | Unknown

  /** The select list is only asked for a name without a table that is in no table. */
  function Answered(scope: seq<SqlJoin>, list: seq<SelectColumn>, name: Name): Answer {
    match Resolve(scope, name)
    case Some(j) => InTable(j)
    case None =>
      if name.table.Some? then Unknown
      else match FirstBegins(list, name.column) case Some(c) => InList(c) case None => Unknown
  }

  /** A name that is about no table, and has none itself, is a column of the select list if an alias there begins
      with it; nothing else is. */
  lemma AnsweredIff(scope: seq<SqlJoin>, list: seq<SelectColumn>, name: Name)
    ensures var a := Answered(scope, list, name);
      && (a.InTable? ==> Resolve(scope, name) == E.Some(a.table))
      && (a.InTable? <==> exists j <- scope :: Resolve(scope, name) == E.Some(j))
      && (a.InList? ==> FirstBegins(list, name.column) == E.Some(a.column))
      && (a.InList? <==> name.table.None? && !Concerns(scope, name) && exists c <- list :: Begins(c, name.column))
  {
    ResolvesInScope(scope, name);
    FirstBeginsFinds(list, name.column);
  }

  lemma {:induction false} ResolvesInScope(scope: seq<SqlJoin>, name: Name)
    ensures Resolve(scope, name).Some? ==> Resolve(scope, name).value in scope
    ensures name.table.None? ==> (Resolve(scope, name).Some? <==> Concerns(scope, name))
  {
    if scope != [] { ResolvesInScope(scope[1..], name); }
  }

  lemma {:induction false} FirstBeginsFinds(list: seq<SelectColumn>, column: string)
    ensures FirstBegins(list, column).Some? <==> exists c <- list :: Begins(c, column)
  {
    if list != [] { FirstBeginsFinds(list[1..], column); }
  }

  /** qualify_column_name with a select list to fall back to. */
  method QualifyReference(name: Name, tables: SqlJoin, start: SelectColumn, ghost scope: seq<SqlJoin>,
          ghost list: seq<SelectColumn>)
    returns (r: Answer)
    requires Ring(scope) && scope[0] == tables && Ring(list) && list[0] == start
    ensures r == Answered(scope, list, name)
  {
    var table, ambiguous := QualifyColumnName(name, tables, scope);
    r := Unknown;
    if table.Some? {
      r := InTable(table.value);
    } else if name.table.None? {
      var column;
      column, ambiguous := QualifyInSelectList(name.column, start, list);
      if column.Some? { r := InList(column.value); }
    }
  }

  // ----- Queries -----

  /** A base table, a SELECT or a set operation. `values` and `conditions` belong to the joins of the
      FROM list; `rest` is the select list, the WHERE and the ORDER BY. */
  datatype QueryTree =
    | BaseTable
    | Select(joins: seq<SqlJoin>, values: seq<QueryTree>, conditions: seq<Expression>, rest: Expression,
      list: seq<SelectColumn>)
    | SetOperation(left: QueryTree, right: QueryTree)

  /** The names and the subqueries of an expression, in the order they are visited. */
  datatype Expression = Expression(items: seq<Item>)

  datatype Item = Ref(text: string) | Sub(query: QueryTree)

  /** What every name of a query resolves to: a query sees its own tables, then those of the enclosing
      queries from the inside out. */
  function Meaning(q: QueryTree, scope: seq<SqlJoin>): seq<Answer>
    decreases q, 2, 0
  {
    match q
    case BaseTable => []
    case Select(joins, values, conditions, rest, list) =>
      MeaningOfJoins(q, |joins|, joins + scope) + MeaningOf(rest, |rest.items|, joins + scope, list)
    case SetOperation(l, r) => Meaning(l, scope) + Meaning(r, scope)
  }

  /** The first n derived tables and join conditions of a SELECT. */
  function MeaningOfJoins(q: QueryTree, n: nat, scope: seq<SqlJoin>): seq<Answer>
    requires q.Select?
    decreases q, 1, n
  {
    if n == 0 || n > |q.values| || n > |q.conditions| then []
    else MeaningOfJoins(q, n - 1, scope) + MeaningOfJoin(q, n - 1, scope)
  }

  function MeaningOfJoin(q: QueryTree, i: nat, scope: seq<SqlJoin>): seq<Answer>
    requires q.Select? && i < |q.values| && i < |q.conditions|
    decreases q, 0, 0
  {
    Meaning(q.values[i], scope) + MeaningOf(q.conditions[i], |q.conditions[i].items|, scope, q.list)
  }

  function MeaningOf(c: Expression, n: nat, scope: seq<SqlJoin>, list: seq<SelectColumn>): seq<Answer>
    requires n <= |c.items|
    decreases c, 0, n
  {
    if n == 0 then []
    else
      MeaningOf(c, n - 1, scope, list)
      + (match c.items[n - 1] case Ref(text) => [Answered(scope, list, NameOf(text))] case Sub(q) => Meaning(q, scope))
  }

  // ----- Every name of a query has its answer -----

  /** A place in a query: which operand, which part of a SELECT, which item of an expression. In a SELECT,
      join i has the parts 2 i (its derived table) and 2 i + 1 (its condition), and `rest` comes last. */
  type Path = seq<nat>

  /** A name with the tables and the select list that it sees. */
  datatype Reference = Reference(text: string, scope: seq<SqlJoin>, list: seq<SelectColumn>)

  /** The name at a place, if there is one. */
  ghost function NameAt(q: QueryTree, scope: seq<SqlJoin>, p: Path): E.Option<Reference>
    decreases q
  {
    if p == [] then E.None
    else match q
      case BaseTable => E.None
      case SetOperation(l, r) =>
        if p[0] == 0 then NameAt(l, scope, p[1..]) else if p[0] == 1 then NameAt(r, scope, p[1..]) else E.None
      case Select(joins, values, conditions, rest, list) =>
        if p[0] == 2 * |joins| then NameIn(rest, joins + scope, list, p[1..])
        else if p[0] / 2 >= |values| || p[0] / 2 >= |conditions| then E.None
        else if p[0] % 2 == 0 then NameAt(values[p[0] / 2], joins + scope, p[1..])
        else NameIn(conditions[p[0] / 2], joins + scope, list, p[1..])
  }

  ghost function NameIn(c: Expression, scope: seq<SqlJoin>, list: seq<SelectColumn>, p: Path): E.Option<Reference>
    decreases c
  {
    if p == [] || p[0] >= |c.items| then E.None
    else match c.items[p[0]]
      case Ref(text) => if |p| == 1 then E.Some(Reference(text, scope, list)) else E.None
      case Sub(q) => NameAt(q, scope, p[1..])
  }

  type Places = Path -> E.Option<Reference>

  /** Places as they follow each other in the query. */
  predicate Precedes(p: Path, q: Path) {
    q != [] && (p == [] || p[0] < q[0] || (p[0] == q[0] && Precedes(p[1..], q[1..])))
  }

  ghost predicate AnswerFor(r: E.Option<Reference>, a: Answer) {
    r.Some? && a == Answered(r.value.scope, r.value.list, NameOf(r.value.text))
  }

  /** One answer for each name at the places that begin below n, in their order. */
  ghost predicate AnsweredBelow(f: Places, n: nat, paths: seq<Path>, answers: seq<Answer>) {
    && |paths| == |answers| && (forall k | 0 <= k < |paths| :: AnswerFor(f(paths[k]), answers[k]))
    && (forall k | 0 <= k < |paths| :: paths[k] != [] && paths[k][0] < n)
    && (forall p | f(p).Some? && p != [] && p[0] < n :: p in paths)
    && forall i, j | 0 <= i < j < |paths| :: Precedes(paths[i], paths[j])
  }

  /** One answer for each name, in order. */
  ghost predicate AllAnswered(f: Places, paths: seq<Path>, answers: seq<Answer>) {
    && |paths| == |answers| && (forall k | 0 <= k < |paths| :: AnswerFor(f(paths[k]), answers[k]))
    && (forall p | f(p).Some? :: p in paths)
    && forall i, j | 0 <= i < j < |paths| :: Precedes(paths[i], paths[j])
  }

  ghost function Below(n: nat, paths: seq<Path>): seq<Path> {
    seq(|paths|, i requires 0 <= i < |paths| => [n] + paths[i])
  }

  /** The part of f below n. */
  ghost function PartAt(f: Places, n: nat): Places { (p: Path) => f([n] + p) }

  lemma NextPart(f: Places, n: nat, paths: seq<Path>, answers: seq<Answer>, more: seq<Path>, answers': seq<Answer>)
    requires AnsweredBelow(f, n, paths, answers) && AllAnswered(PartAt(f, n), more, answers')
    ensures AnsweredBelow(f, n + 1, paths + Below(n, more), answers + answers')
  {
    hide AnswerFor, Precedes;
    var all := paths + Below(n, more);
    forall k | 0 <= k < |all|
      ensures AnswerFor(f(all[k]), (answers + answers')[k]) && all[k] != [] && all[k][0] < n + 1
    {
      if k >= |paths| { assert all[k] == [n] + more[k - |paths|]; }
    }
    forall p | f(p).Some? && p != [] && p[0] < n + 1 ensures p in all { PartCovered(f, n, more, answers', paths, p); }
    forall i, j | 0 <= i < j < |all| ensures Precedes(all[i], all[j]) { PartFollows(n, paths, more, i, j); }
  }

  lemma PartCovered(f: Places, n: nat, more: seq<Path>, answers: seq<Answer>, paths: seq<Path>, p: Path)
    requires AllAnswered(PartAt(f, n), more, answers) && f(p).Some? && p != [] && p[0] <= n && (p[0] < n ==> p in paths)
    ensures p in paths + Below(n, more)
  {
    hide AnswerFor, Precedes;
    if p[0] == n {
      assert p == [n] + p[1..];
      assert PartAt(f, n)(p[1..]).Some?;
      var k :| 0 <= k < |more| && more[k] == p[1..];
      assert Below(n, more)[k] == p;
    }
  }

  lemma PartFollows(n: nat, paths: seq<Path>, more: seq<Path>, i: nat, j: nat)
    requires i < j < |paths + Below(n, more)|
    requires forall k | 0 <= k < |paths| :: paths[k] != [] && paths[k][0] < n
    requires forall i, j | 0 <= i < j < |paths| :: Precedes(paths[i], paths[j])
    requires forall i, j | 0 <= i < j < |more| :: Precedes(more[i], more[j])
    ensures Precedes((paths + Below(n, more))[i], (paths + Below(n, more))[j])
  {
    var all := paths + Below(n, more);
    if i >= |paths| {
      var p, q := more[i - |paths|], more[j - |paths|];
      assert all[i] == [n] + p && all[j] == [n] + q;
      assert all[i][1..] == p && all[j][1..] == q;
      assert Precedes(p, q);
    } else if j >= |paths| {
      assert all[j] == [n] + more[j - |paths|];
    }
  }

  lemma NoPart(f: Places)
    ensures AnsweredBelow(f, 0, [], [])
  {}

  /** All parts have a number below n. */
  lemma AllParts(f: Places, n: nat, paths: seq<Path>, answers: seq<Answer>)
    requires AnsweredBelow(f, n, paths, answers) && forall p | f(p).Some? :: p != [] && p[0] < n
    ensures AllAnswered(f, paths, answers)
  {}

  lemma SamePlaces(f: Places, g: Places, paths: seq<Path>, answers: seq<Answer>)
    requires AllAnswered(f, paths, answers) && forall p :: f(p) == g(p)
    ensures AllAnswered(g, paths, answers)
  {}

  ghost function PlacesOf(q: QueryTree, scope: seq<SqlJoin>): Places { (p: Path) => NameAt(q, scope, p) }

  ghost function PlacesIn(c: Expression, scope: seq<SqlJoin>, list: seq<SelectColumn>): Places {
    (p: Path) => NameIn(c, scope, list, p)
  }

  /** As many parts as joins. */
  ghost predicate Matched(q: QueryTree)
    decreases q
  {
    match q
    case BaseTable => true
    case SetOperation(l, r) => Matched(l) && Matched(r)
    case Select(joins, values, conditions, rest, list) =>
      && |values| == |conditions| == |joins| && (forall i | 0 <= i < |values| :: Matched(values[i]))
      && (forall i | 0 <= i < |conditions| :: MatchedIn(conditions[i])) && MatchedIn(rest)
  }

  ghost predicate MatchedIn(c: Expression)
    decreases c
  {
    forall i | 0 <= i < |c.items| :: MatchedItem(c.items[i])
  }

  ghost predicate MatchedItem(it: Item)
    decreases it
  {
    match it case Ref(_) => true case Sub(q) => Matched(q)
  }

  /** The answers are those of all names of the query, wherever they stand, one each and in order: of both
      operands of a set operation, of derived tables, join conditions, select list, WHERE and ORDER BY, and
      of subqueries at any depth. */
  lemma {:induction false} EveryNameIsAnswered(q: QueryTree, scope: seq<SqlJoin>) returns (paths: seq<Path>)
    requires Matched(q)
    ensures AllAnswered(PlacesOf(q, scope), paths, Meaning(q, scope))
    decreases q, 3, 0
  {
    hide AllAnswered, AnsweredBelow, Precedes;
    match q
    case BaseTable =>
      paths := [];
      NoPart(PlacesOf(q, scope));
      AllParts(PlacesOf(q, scope), 0, [], []);
    case SetOperation(l, r) =>
      var left := EveryNameIsAnswered(l, scope);
      var right := EveryNameIsAnswered(r, scope);
      paths := OperandsAnswered(l, r, scope, left, right);
    case Select(joins, values, conditions, rest, list) => paths := SelectAnswered(q, scope);
  }

  lemma OperandsAnswered(l: QueryTree, r: QueryTree, scope: seq<SqlJoin>, left: seq<Path>, right: seq<Path>)
    returns (paths: seq<Path>)
    requires AllAnswered(PlacesOf(l, scope), left, Meaning(l, scope))
    requires AllAnswered(PlacesOf(r, scope), right, Meaning(r, scope))
    ensures AllAnswered(PlacesOf(SetOperation(l, r), scope), paths, Meaning(SetOperation(l, r), scope))
  {
    hide AllAnswered, AnsweredBelow, Precedes;
    var f, x, y := PlacesOf(SetOperation(l, r), scope), Meaning(l, scope), Meaning(r, scope);
    NoPart(f);
    PartIs(PlacesOf(l, scope), f, 0, left, x);
    NextPart(f, 0, [], [], left, x);
    assert [] + x == x;
    paths := [] + Below(0, left);
    PartIs(PlacesOf(r, scope), f, 1, right, y);
    NextPart(f, 1, paths, x, right, y);
    paths := paths + Below(1, right);
    AllParts(f, 2, paths, x + y);
  }

  lemma {:induction false} SelectAnswered(q: QueryTree, scope: seq<SqlJoin>) returns (paths: seq<Path>)
    requires q.Select? && Matched(q)
    ensures AllAnswered(PlacesOf(q, scope), paths, Meaning(q, scope))
    decreases q, 2, 0
  {
    hide AllAnswered, AnsweredBelow, Precedes, MeaningOf, MeaningOfJoins;
    var f, n, inner := PlacesOf(q, scope), |q.joins|, q.joins + scope;
    paths := JoinsAnswered(q, n, scope);
    var last := ExpressionAnswered(q.rest, inner, q.list);
    var answers := MeaningOf(q.rest, |q.rest.items|, inner, q.list);
    PartIs(PlacesIn(q.rest, inner, q.list), f, 2 * n, last, answers);
    NextPart(f, 2 * n, paths, MeaningOfJoins(q, n, inner), last, answers);
    paths := paths + Below(2 * n, last);
    AllParts(f, 2 * n + 1, paths, Meaning(q, scope));
  }

  lemma PartIs(g: Places, f: Places, n: nat, paths: seq<Path>, answers: seq<Answer>)
    requires AllAnswered(g, paths, answers) && forall p :: g(p) == f([n] + p)
    ensures AllAnswered(PartAt(f, n), paths, answers)
  {
    hide AllAnswered;
    SamePlaces(g, PartAt(f, n), paths, answers);
  }

  lemma {:induction false} JoinsAnswered(q: QueryTree, n: nat, scope: seq<SqlJoin>) returns (paths: seq<Path>)
    requires q.Select? && Matched(q) && n <= |q.joins|
    ensures AnsweredBelow(PlacesOf(q, scope), 2 * n, paths, MeaningOfJoins(q, n, q.joins + scope))
    decreases q, 1, n
  {
    hide AllAnswered, AnsweredBelow, Precedes, Meaning, MeaningOf;
    var f, inner := PlacesOf(q, scope), q.joins + scope;
    if n == 0 {
      NoPart(f);
      paths := [];
    } else {
      var i := n - 1;
      paths := JoinsAnswered(q, i, scope);
      var before, value := MeaningOfJoins(q, i, inner), Meaning(q.values[i], inner);
      var condition := MeaningOf(q.conditions[i], |q.conditions[i].items|, inner, q.list);
      var more := EveryNameIsAnswered(q.values[i], inner);
      PartIs(PlacesOf(q.values[i], inner), f, 2 * i, more, value);
      NextPart(f, 2 * i, paths, before, more, value);
      paths := paths + Below(2 * i, more);
      more := ExpressionAnswered(q.conditions[i], inner, q.list);
      PartIs(PlacesIn(q.conditions[i], inner, q.list), f, 2 * i + 1, more, condition);
      NextPart(f, 2 * i + 1, paths, before + value, more, condition);
      paths := paths + Below(2 * i + 1, more);
      assert before + value + condition == before + (value + condition);
    }
  }

  lemma {:induction false} ExpressionAnswered(c: Expression, scope: seq<SqlJoin>, list: seq<SelectColumn>)
    returns (paths: seq<Path>)
    requires MatchedIn(c)
    ensures AllAnswered(PlacesIn(c, scope, list), paths, MeaningOf(c, |c.items|, scope, list))
    decreases c, 1, 0
  {
    hide AllAnswered, AnsweredBelow;
    paths := ItemsAnswered(c, |c.items|, scope, list);
    AllParts(PlacesIn(c, scope, list), |c.items|, paths, MeaningOf(c, |c.items|, scope, list));
  }

  lemma {:induction false} ItemsAnswered(c: Expression, n: nat, scope: seq<SqlJoin>, list: seq<SelectColumn>)
    returns (paths: seq<Path>)
    requires MatchedIn(c) && n <= |c.items|
    ensures AnsweredBelow(PlacesIn(c, scope, list), n, paths, MeaningOf(c, n, scope, list))
    decreases c, 0, n
  {
    hide AllAnswered, AnsweredBelow, Precedes, Meaning;
    var f := PlacesIn(c, scope, list);
    if n == 0 {
      NoPart(f);
      paths := [];
    } else {
      paths := ItemsAnswered(c, n - 1, scope, list);
      assert MatchedItem(c.items[n - 1]);
      match c.items[n - 1]
      case Ref(text) =>
        OneName(f, n - 1, Reference(text, scope, list));
        NextPart(f, n - 1, paths, MeaningOf(c, n - 1, scope, list), [[]], [Answered(scope, list, NameOf(text))]);
        paths := paths + Below(n - 1, [[]]);
      case Sub(q) =>
        var more := EveryNameIsAnswered(q, scope);
        PartIs(PlacesOf(q, scope), f, n - 1, more, Meaning(q, scope));
        NextPart(f, n - 1, paths, MeaningOf(c, n - 1, scope, list), more, Meaning(q, scope));
        paths := paths + Below(n - 1, more);
    }
  }

  lemma OneName(f: Places, n: nat, r: Reference)
    requires forall p: Path :: f([n] + p) == if p == [] then E.Some(r) else E.None
    ensures AllAnswered(PartAt(f, n), [[]], [Answered(r.scope, r.list, NameOf(r.text))])
  {
    var none: Path := [];
    assert PartAt(f, n)(none) == E.Some(r);
    assert none in [none];
  }

  // ----- Rings of joins -----

  /** The next and prev links of all joins, or of all columns of select lists, there are. */
  type Links<T> = map<Link<T>, (Link<T>, Link<T>)>

  ghost predicate RingIn<T>(s: seq<Link<T>>, at: Links<T>) {
    && |s| >= 1 && Distinct(s) && (forall j <- s :: j in at)
    && forall i | 0 <= i < |s| :: at[s[i]].0 == s[NextIndex(i, |s|)] && at[s[NextIndex(i, |s|)]].1 == s[i]
  }

  /** The joins of every SELECT form a ring of their own, which no enclosing scope uses. */
  ghost predicate Shaped(q: QueryTree, outer: set<SqlJoin>, at: Links<Alias>, lists: Links<E.Option<string>>)
    decreases q
  {
    match q
    case BaseTable => true
    case Select(joins, values, conditions, rest, list) =>
      && |values| == |conditions| == |joins| && RingIn(joins, at) && RingIn(list, lists)
        && (forall j <- joins :: j !in outer)
      && (forall i | 0 <= i < |values| :: Shaped(values[i], outer + Set(joins), at, lists))
      && (forall i | 0 <= i < |conditions| :: ShapedIn(conditions[i], outer + Set(joins), at, lists))
      && ShapedIn(rest, outer + Set(joins), at, lists)
    case SetOperation(l, r) => Shaped(l, outer, at, lists) && Shaped(r, outer, at, lists)
  }

  ghost predicate ShapedJoins(q: QueryTree, outer: set<SqlJoin>, at: Links<Alias>, lists: Links<E.Option<string>>)
    requires q.Select?
  {
    && |q.values| == |q.conditions| == |q.joins| && RingIn(q.list, lists)
    && forall i | 0 <= i < |q.values| ::
         Shaped(q.values[i], outer, at, lists) && ShapedIn(q.conditions[i], outer, at, lists)
  }

  ghost predicate ShapedIn(c: Expression, outer: set<SqlJoin>, at: Links<Alias>, lists: Links<E.Option<string>>)
    decreases c
  {
    forall i | 0 <= i < |c.items| :: ShapedItem(c.items[i], outer, at, lists)
  }

  ghost predicate ShapedItem(it: Item, outer: set<SqlJoin>, at: Links<Alias>, lists: Links<E.Option<string>>)
    decreases it
  {
    match it case Ref(_) => true case Sub(q) => Shaped(q, outer, at, lists)
  }

  function Set(scope: seq<SqlJoin>): set<SqlJoin> { set j <- scope :: j }

  /** Outside the current scope all links are as they were. */
  ghost predicate Quiet<T>(scope: set<Link<T>>, at: Links<T>)
    reads at.Keys
  {
    forall j <- at.Keys :: j in scope || (j.next == at[j].0 && j.prev == at[j].1)
  }

  // ----- Qualifying -----

  ghost predicate Scope(parent: Link?<Alias>, scope: seq<SqlJoin>, at: Links<Alias>)
    reads at.Keys, scope
  {
    && (if parent == null then scope == [] else Ring(scope) && scope[0] == parent)
    && Set(scope) <= at.Keys && Quiet(Set(scope), at)
  }

  lemma RingStill(list: seq<SelectColumn>, lists: Links<E.Option<string>>)
    requires RingIn(list, lists) && Quiet({}, lists)
    ensures Ring(list)
  {
    forall i | 0 <= i < |list|
      ensures list[i].next == list[NextIndex(i, |list|)] && list[NextIndex(i, |list|)].prev == list[i]
    {
      assert list[i] in list && list[NextIndex(i, |list|)] in list;
    }
  }

  lemma EmptyExpression(c: Expression, scope: seq<SqlJoin>, list: seq<SelectColumn>)
    ensures MeaningOf(c, 0, scope, list) == []
  {}

  lemma ItemParts(c: Expression, i: nat, scope: seq<SqlJoin>, list: seq<SelectColumn>, at: Links<Alias>,
          lists: Links<E.Option<string>>)
    requires i < |c.items| && ShapedIn(c, Set(scope), at, lists)
    ensures MeaningOf(c, i + 1, scope, list) == MeaningOf(c, i, scope, list) + match c.items[i] {
        case Ref(text) => [Answered(scope, list, NameOf(text))]
        case Sub(q) => Meaning(q, scope)
      }
    ensures c.items[i].Sub? ==> Shaped(c.items[i].query, Set(scope), at, lists)
  {
    hide Meaning, Shaped, Answered, NameOf;
    assert ShapedItem(c.items[i], Set(scope), at, lists);
  }

  /** The names and subqueries of one expression. */
  method QualifyExpression(c: Expression, join: SqlJoin, start: SelectColumn, ghost list: seq<SelectColumn>,
          ghost scope: seq<SqlJoin>, ghost at: Links<Alias>, ghost lists: Links<E.Option<string>>)
    returns (log: seq<Answer>)
    requires Scope(join, scope, at) && ShapedIn(c, Set(scope), at, lists) && Quiet({}, lists)
    requires RingIn(list, lists) && list[0] == start
    modifies at.Keys`next, at.Keys`prev
    ensures forall j <- at.Keys :: j.next == old(j.next) && j.prev == old(j.prev)
    ensures log == MeaningOf(c, |c.items|, scope, list)
    decreases c, 4
  {
    hide MeaningOf, Meaning, Shaped, ShapedIn, RingIn, Answered, NameOf;
    log := [];
    EmptyExpression(c, scope, list);
    var i := 0;
    while i < |c.items|
      invariant 0 <= i <= |c.items| && log == MeaningOf(c, i, scope, list)
      invariant forall j <- at.Keys :: j.next == old(j.next) && j.prev == old(j.prev)
    {
      ItemParts(c, i, scope, list, at, lists);
      match c.items[i] {
        case Ref(text) =>
          RingStill(list, lists);
          var r := QualifyReference(NameOf(text), join, start, scope, list);
          log := log + [r];
        case Sub(q) =>
          var l := Qualify(q, join, scope, at, lists);
          log := log + l;
      }
      i := i + 1;
    }
  }

  /** qualify_query. The joins of the enclosing queries are linked in behind its own, and all links are
      as before when it returns. */
  method Qualify(q: QueryTree, parent: Link?<Alias>, ghost scope: seq<SqlJoin>, ghost at: Links<Alias>,
          ghost lists: Links<E.Option<string>>)
    returns (log: seq<Answer>)
    requires Scope(parent, scope, at) && Shaped(q, Set(scope), at, lists) && Quiet({}, lists)
    modifies at.Keys`next, at.Keys`prev
    ensures forall j <- at.Keys :: j.next == old(j.next) && j.prev == old(j.prev)
    ensures log == Meaning(q, scope)
    decreases q, 4
  {
    log := [];
    match q {
      case BaseTable =>
      case Select(joins, values, conditions, rest, list) =>
        log := QualifySelect(q, parent, scope, at, lists);
      case SetOperation(l, r) =>
        log := Qualify(l, parent, scope, at, lists);
        var log' := Qualify(r, parent, scope, at, lists);
        log := log + log';
    }
  }

  method QualifySelect(q: QueryTree, parent: Link?<Alias>, ghost scope: seq<SqlJoin>, ghost at: Links<Alias>,
          ghost lists: Links<E.Option<string>>)
    returns (log: seq<Answer>)
    requires q.Select? && Scope(parent, scope, at) && Shaped(q, Set(scope), at, lists) && Quiet({}, lists)
    modifies at.Keys`next, at.Keys`prev
    ensures forall j <- at.Keys :: j.next == old(j.next) && j.prev == old(j.prev)
    ensures log == Meaning(q, scope)
    decreases q, 3
  {
    hide Meaning, Shaped, ShapedIn, Scope, Set, RingIn;
    ghost var inner := q.joins + scope;
    SelectParts(q, parent, scope, at, lists);
    var join := q.joins[0];
    var prevStart, prevEnd := join, join.prev;
    if parent == null {
      assert inner == q.joins;
      OwnScope(q.joins, at);
      log := QualifyParts(q, join, parent, inner, scope, at, lists);
      return;
    }
    ScopeEnds(q.joins, parent, scope, at);
    Splice(join, parent, q.joins, scope, at);
    log := QualifyParts(q, join, parent, inner, scope, at, lists);
    parent.prev := join.prev;
    parent.prev.next := parent;
    join.prev := prevEnd;
    join.prev.next := prevStart;
  }

  lemma SelectParts(q: QueryTree, parent: Link?<Alias>, scope: seq<SqlJoin>, at: Links<Alias>,
          lists: Links<E.Option<string>>)
    requires q.Select? && Scope(parent, scope, at) && Shaped(q, Set(scope), at, lists)
    ensures RingIn(q.joins, at) && InnerScope(q, q.joins + scope, parent, scope)
    ensures forall j <- q.joins :: j !in Set(scope)
    ensures ShapedIn(q.rest, Set(q.joins + scope), at, lists) && ShapedJoins(q, Set(q.joins + scope), at, lists)
  {
    hide ShapedIn;
    SetJoin(q.joins, scope);
  }

  lemma OwnScope(joins: seq<SqlJoin>, at: Links<Alias>)
    requires RingIn(joins, at) && Scope(null, [], at)
    ensures Scope(joins[0], joins, at)
  {
    Splicing(joins, [], at);
    assert joins + [] == joins;
  }

  /** Where the two rings end before they are joined. */
  lemma ScopeEnds(joins: seq<SqlJoin>, parent: SqlJoin, scope: seq<SqlJoin>, at: Links<Alias>)
    requires RingIn(joins, at) && Scope(parent, scope, at) && forall j <- joins :: j !in Set(scope)
    ensures var join := joins[0];
      && join in at && parent in at && join.prev in at && parent.prev in at
      && join.prev.next == join && parent.prev.next == parent
      && join != parent && join.prev != parent.prev && join.prev != parent && parent.prev != join
  {
    Splicing(joins, scope, at);
    RingEnds(joins);
    RingEnds(scope);
    var k, l := joins[|joins| - 1], scope[|scope| - 1];
    assert joins[0] in joins && k in joins && scope[0] in scope && l in scope;
    assert scope[0] in Set(scope) && l in Set(scope);
  }

  method Splice(join: SqlJoin, parent: SqlJoin, ghost joins: seq<SqlJoin>, ghost scope: seq<SqlJoin>,
          ghost at: Links<Alias>)
    requires RingIn(joins, at) && joins[0] == join && Scope(parent, scope, at) && forall j <- joins :: j !in Set(scope)
    modifies at.Keys`next, at.Keys`prev
    ensures Scope(join, joins + scope, at) && join.prev == old(parent.prev)
    ensures forall j <- at.Keys ::
      (j.next == old(j.next) || j == old(join.prev) || j == old(parent.prev))
      && (j.prev == old(j.prev) || j == join || j == parent)
  {
    ScopeEnds(joins, parent, scope, at);
    Splicing(joins, scope, at);
    RingEnds(joins);
    RingEnds(scope);
    ghost var k, l := join.prev, parent.prev;
    assert k in joins && l in scope && join in joins && parent in scope;
    assert k in Set(joins + scope) && l in Set(joins + scope) && join in Set(joins + scope)
      && parent in Set(joins + scope);
    Insert(join, parent, joins, scope);
  }

  lemma Splicing(joins: seq<SqlJoin>, scope: seq<SqlJoin>, at: Links<Alias>)
    requires RingIn(joins, at) && Set(scope) <= at.Keys && Quiet(Set(scope), at)
    requires forall j <- joins :: j !in Set(scope)
    ensures Ring(joins) && Set(joins + scope) == Set(scope) + Set(joins) && Set(joins + scope) <= at.Keys
    ensures forall j <- joins :: j !in scope
  {
    forall i | 0 <= i < |joins|
      ensures joins[i].next == joins[NextIndex(i, |joins|)] && joins[NextIndex(i, |joins|)].prev == joins[i]
    {
      assert joins[i] in joins && joins[NextIndex(i, |joins|)] in joins;
    }
    forall j <- joins ensures j !in scope { assert j !in Set(scope); }
    SetJoin(joins, scope);
  }

  lemma SetJoin(a: seq<SqlJoin>, b: seq<SqlJoin>)
    ensures Set(a + b) == Set(b) + Set(a)
  {
    forall j ensures j in Set(a + b) <==> j in Set(b) + Set(a) {
      assert j in a + b <==> j in a || j in b;
    }
  }

  /** The scope inside a SELECT: its own joins, then those of the enclosing queries. */
  ghost predicate InnerScope(q: QueryTree, inner: seq<SqlJoin>, parent: Link?<Alias>, scope: seq<SqlJoin>) {
    && q.Select? && |q.joins| >= 1 && inner == q.joins + scope
    && if parent == null then scope == [] else scope != [] && scope[0] == parent
  }

  lemma NextJoin(q: QueryTree, inner: seq<SqlJoin>, parent: Link?<Alias>, scope: seq<SqlJoin>, join: SqlJoin,
          at: Links<Alias>, i: nat)
    requires InnerScope(q, inner, parent, scope) && Scope(join, inner, at) && i < |q.joins|
    ensures var next := q.joins[i].next;
      && (next == q.joins[0] || next == parent <==> i + 1 == |q.joins|)
      && (i + 1 < |q.joins| ==> next == q.joins[i + 1])
  {
    var joins, s := q.joins, inner;
    assert s[i].next == s[NextIndex(i, |s|)];
    assert scope != [] ==> s[|joins|] == scope[0];
    assert i + 1 < |joins| ==> s[i + 1] == joins[i + 1] && s[i + 1] != s[0] && (scope != [] ==> s[i + 1] != s[|joins|]);
  }

  lemma MeaningParts(q: QueryTree, scope: seq<SqlJoin>, inner: seq<SqlJoin>)
    requires q.Select? && inner == q.joins + scope
    ensures Meaning(q, scope) == MeaningOfJoins(q, |q.joins|, inner) + MeaningOf(q.rest, |q.rest.items|, inner, q.list)
  {}

  lemma MeaningStep(q: QueryTree, i: nat, inner: seq<SqlJoin>)
    requires q.Select? && i < |q.values| == |q.conditions|
    ensures MeaningOfJoins(q, i + 1, inner) == MeaningOfJoins(q, i, inner) + MeaningOfJoin(q, i, inner)
  {}

  /** The derived table and the condition of one join. `was` holds the links as they are. */
  method QualifyJoin(q: QueryTree, i: nat, join: SqlJoin, start: SelectColumn, ghost inner: seq<SqlJoin>,
          ghost at: Links<Alias>, ghost lists: Links<E.Option<string>>, ghost was: Links<Alias>)
    returns (log: seq<Answer>)
    requires q.Select? && ShapedJoins(q, Set(inner), at, lists) && q.list[0] == start && i < |q.joins|
    requires Scope(join, inner, at) && Quiet({}, lists) && was.Keys == at.Keys && Quiet({}, was)
    modifies at.Keys`next, at.Keys`prev
    ensures log == MeaningOfJoin(q, i, inner) && Scope(join, inner, at) && Quiet({}, lists) && Quiet({}, was)
    decreases q, 0
  {
    hide Shaped, ShapedIn, Meaning, MeaningOf, Scope, Set, RingIn, Ring;
    log := Qualify(q.values[i], join, inner, at, lists);
    var l := QualifyExpression(q.conditions[i], join, start, q.list, inner, at, lists);
    log := log + l;
  }

  /** The loop over the joins of a SELECT. */
  method QualifyJoins(q: QueryTree, join: SqlJoin, parent: Link?<Alias>, start: SelectColumn,
          ghost inner: seq<SqlJoin>, ghost scope: seq<SqlJoin>, ghost at: Links<Alias>,
          ghost lists: Links<E.Option<string>>, ghost was: Links<Alias>)
    returns (log: seq<Answer>)
    requires InnerScope(q, inner, parent, scope) && join == q.joins[0]
    requires ShapedJoins(q, Set(inner), at, lists) && q.list[0] == start
    requires Scope(join, inner, at) && Quiet({}, lists) && was.Keys == at.Keys && Quiet({}, was)
    modifies at.Keys`next, at.Keys`prev
    ensures log == MeaningOfJoins(q, |q.joins|, inner) && Scope(join, inner, at)
    ensures Quiet({}, lists) && Quiet({}, was)
    decreases q, 1
  {
    assert MeaningOfJoins(q, 0, inner) == [];
    assert q.Select? && |q.values| == |q.conditions| == |q.joins| >= 1;
    hide *;
    var cur, i := join, 0;
    log := [];
    while true
      invariant 0 <= i < |q.joins| && cur == q.joins[i] && log == MeaningOfJoins(q, i, inner)
      invariant Scope(join, inner, at) && Quiet({}, lists) && Quiet({}, was)
      decreases |q.joins| - i
    {
      MeaningStep(q, i, inner);
      var l := QualifyJoin(q, i, join, start, inner, at, lists, was);
      log := log + l;
      NextJoin(q, inner, parent, scope, join, at, i);
      cur := cur.next;
      i := i + 1;
      if cur == join || cur == parent { break; }
    }
  }

  /** Everything inside a SELECT, with the ring of its scope in place. */
  method QualifyParts(q: QueryTree, join: SqlJoin, parent: Link?<Alias>, ghost inner: seq<SqlJoin>,
          ghost scope: seq<SqlJoin>, ghost at: Links<Alias>, ghost lists: Links<E.Option<string>>)
    returns (log: seq<Answer>)
    requires InnerScope(q, inner, parent, scope) && join == q.joins[0]
    requires ShapedIn(q.rest, Set(inner), at, lists) && ShapedJoins(q, Set(inner), at, lists)
    requires Scope(join, inner, at) && Quiet({}, lists)
    modifies at.Keys`next, at.Keys`prev
    ensures forall j <- at.Keys :: j.next == old(j.next) && j.prev == old(j.prev)
    ensures log == Meaning(q, scope)
    decreases q, 2
  {
    var start := q.list[0];
    MeaningParts(q, scope, inner);
    assert RingIn(q.list, lists);
    hide Shaped, ShapedIn, ShapedJoins, Meaning, MeaningOf, MeaningOfJoins, InnerScope, Scope, Set, RingIn, Ring;
    ghost var was := map j <- at.Keys :: (j.next, j.prev);
    log := QualifyJoins(q, join, parent, start, inner, scope, at, lists, was);
    var l := QualifyExpression(q.rest, join, start, q.list, inner, at, lists);
    log := log + l;
  }
}
