/** The key list of a plan as the planner keeps it: key objects that are fixed in place. */
module AccessPath {
  import opened Where
  import opened Negation
  import opened NormalForm
  import opened Enumeration
  import opened KeyFix

  /** An SqlKey. Only its value changes: `value` is None while the key advances. */
  class SqlKey {
    const alias: nat
    const column: nat
    const kind: KeyKind
    var value: Option<Operand>

    constructor (k: Key)
      ensures View() == k
    {
      alias, column, kind, value := k.alias, k.column, k.kind, k.value;
    }

    function View(): Key
      reads this
    {
      Key(alias, column, kind, value)
    }

    /** lp_opt_fix_key_to_const. */
    method FixTo(v: Operand)
      modifies this
      ensures View() == FixKey(old(View()), v)
    {
      if value == None && !kind.IndexRow? {
        value := Some(v);
      }
    }
  }

  function Views(keys: seq<SqlKey>): (r: seq<Key>)
    reads keys
    ensures |r| == |keys|
  {
    seq(|keys|, i requires 0 <= i < |keys| reads keys => keys[i].View())
  }

  lemma ViewsConcat(x: seq<SqlKey>, y: seq<SqlKey>)
    ensures Views(x + y) == Views(x) + Views(y)
  {}

  lemma DistinctConcat(x: seq<SqlKey>, y: seq<SqlKey>)
    requires DistinctKeys(x) && DistinctKeys(y) && forall k <- x :: k !in y
    ensures DistinctKeys(x + y)
  {
    forall i, j | 0 <= i < j < |x + y| ensures (x + y)[i] != (x + y)[j] {
      if i < |x| <= j { assert x[i] in x; }
    }
  }

  ghost predicate DistinctKeys(keys: seq<SqlKey>) {
    forall i, j | 0 <= i < j < |keys| :: keys[i] != keys[j]
  }

  /** The parts of an LP_INSERT or LP_SET_OPERATION plan that optimisation works on. */
  class Plan {
    var union: bool
    var left: Plan?
    var right: Plan?
    var where: LogicalPlan?
    var keys: seq<SqlKey>
    var joins: seq<Join>
    var expansion: bool   // OPTIONAL_PART_OF_EXPANSION is among the keywords
    const output: nat     // the id of the output key

    constructor (output: nat)
      ensures this.output == output && !union && where == null && keys == [] && joins == [] && !expansion
      ensures left == null && right == null
    {
      this.output := output;
      union, left, right, where, keys, joins, expansion := false, null, null, null, [], [], false;
    }

    ghost function Path(): Access
      reads this`keys, this`joins, keys
    {
      Access(Views(keys), joins)
    }

    ghost predicate Valid()
      reads this`keys, this`joins
    {
      DistinctKeys(keys) && forall j <- joins :: j.width >= 1
    }

    /** lp_get_key_index, and lp_get_key: the position of the key that holds a column, or -1. */
    method GetKeyIndex(a: nat, c: nat) returns (k: int)
      ensures k == KeyIndex(Views(keys), a, c)
    {
      k := 0;
      while k < |keys|
        invariant 0 <= k <= |keys|
        invariant forall j | 0 <= j < k :: !(keys[j].alias == a && keys[j].column == c)
      {
        if keys[k].alias == a && keys[k].column == c {
          KeyIndexIs(Views(keys), a, c, k);
          return;
        }
        k := k + 1;
      }
      k := -1;
    }

    /** lp_verify_valid_for_key_fix. */
    method VerifyValidForKeyFix(lhs: Operand, rhs: Operand) returns (valid: bool)
      ensures valid == ValidForKeyFix(Views(keys), lhs, rhs)
    {
      if lhs.Computed? || rhs.Computed? {
        return false;
      }
      if lhs.Column? && rhs.Column? {
        var i1 := GetKeyIndex(lhs.alias, lhs.column);
        var i2 := GetKeyIndex(rhs.alias, rhs.column);
        if i1 == -1 && i2 == -1 {
          return false;
        }
        if i1 == -1 || i2 == -1 {
          if lhs.alias == rhs.alias {
            return false;
          }
        }
      }
      return true;
    }
  }

  lemma KeyIndexIs(keys: seq<Key>, a: nat, c: nat, k: nat)
    requires k < |keys| && keys[k].alias == a && keys[k].column == c
    requires forall j | 0 <= j < k :: !(keys[j].alias == a && keys[j].column == c)
    ensures KeyIndex(keys, a, c) == k
  {
    var k' := KeyIndex(keys, a, c);
  }

  /** The scan of all tables of a FROM list. */
  function Scans(joins: seq<Join>): seq<Block> {
    seq(|joins|, i requires 0 <= i < |joins| => Scan(joins[i].alias, Free(joins[i].width)))
  }

  /** New key objects behind the ones there were. */
  twostate predicate Appended(was: seq<SqlKey>, new now: seq<SqlKey>) {
    && DistinctKeys(now) && was <= now
    && forall k | |was| <= k < |now| :: fresh(now[k])
  }

  /** The key loop of join_tables: one advancing key per key column. */
  method AppendTableKeys(plan: Plan, table: Join)
    requires DistinctKeys(plan.keys)
    modifies plan`keys
    ensures Appended(old(plan.keys), plan.keys)
    ensures Views(plan.keys) == old(Views(plan.keys)) + BlockKeys(Scan(table.alias, Free(table.width)))
  {
    ghost var block := BlockKeys(Scan(table.alias, Free(table.width)));
    BlockKeysAt(Scan(table.alias, Free(table.width)));
    var n := 0;
    while n < table.width
      invariant 0 <= n <= table.width && Appended(old(plan.keys), plan.keys)
      invariant Views(plan.keys) == old(Views(plan.keys)) + block[..n]
    {
      var key := new SqlKey(Key(table.alias, n, Primary, None));
      assert block[..n + 1] == block[..n] + [key.View()];
      ViewsConcat(plan.keys, [key]);
      plan.keys := plan.keys + [key];
      n := n + 1;
    }
  }

  /** join_tables over the FROM list from its i-th table on. */
  method JoinTables(plan: Plan, i: nat)
    requires i <= |plan.joins| && DistinctKeys(plan.keys)
    modifies plan`keys
    ensures Appended(old(plan.keys), plan.keys)
    ensures Views(plan.keys) == old(Views(plan.keys)) + Flatten(Scans(plan.joins)[i..])
    decreases |plan.joins| - i
  {
    hide BlockKeys;
    ghost var blocks := Scans(plan.joins)[i..];
    if i == |plan.joins| {
      assert blocks == [];
      return;
    }
    AppendTableKeys(plan, plan.joins[i]);
    assert blocks[1..] == Scans(plan.joins)[i + 1..];
    JoinTables(plan, i + 1);
  }

  // ----- lp_optimize_where_multi_equal_ands -----

  /** The loop that fills key_unique_id_array, which has counter - 1 cells at `base` in zeroed memory. All writes
      stay inside it exactly if all ids do. */
  method FillOrder(keys: seq<SqlKey>, counter: nat, memory: array<int>, base: nat)
    requires counter >= 1 && base + counter - 1 <= memory.Length && forall k <- keys :: base + k.alias < memory.Length
    requires forall x | base <= x < memory.Length :: memory[x] == 0
    modifies memory
    ensures forall x | base <= x < memory.Length :: memory[x] == Position(OrderOf(Views(keys)), x - base)
    ensures forall x | 0 <= x < base :: memory[x] == old(memory[x])
    ensures (forall x | base + counter - 1 <= x < memory.Length :: memory[x] == 0)
      <==> forall k <- keys :: k.alias < counter - 1
  {
    for i := 0 to |keys|
      invariant forall x | base <= x < memory.Length :: memory[x] == Position(OrderOf(Views(keys)[..i]), x - base)
      invariant forall x | 0 <= x < base :: memory[x] == old(memory[x])
    {
      assert Views(keys)[..i + 1][..i] == Views(keys)[..i];
      assert keys[i] in keys;
      memory[base + keys[i].alias] := i + 1;
    }
    assert Views(keys)[..|keys|] == Views(keys);
    Behind(keys, counter, memory[..], base);
  }

  lemma Behind(keys: seq<SqlKey>, counter: nat, memory: seq<int>, base: nat)
    requires counter >= 1 && base + counter - 1 <= |memory| && forall k <- keys :: base + k.alias < |memory|
    requires forall x | base <= x < |memory| :: memory[x] == Position(OrderOf(Views(keys)), x - base)
    ensures (forall x | base + counter - 1 <= x < |memory| :: memory[x] == 0)
      <==> forall k <- keys :: k.alias < counter - 1
  {
    hide OrderOf;
    OrderOfAt(Views(keys));
    forall k <- keys ensures memory[base + k.alias] > 0 {
      var i :| 0 <= i < |keys| && keys[i] == k;
      assert Views(keys)[i] in Views(keys) && Views(keys)[i].alias == k.alias;
    }
    forall x | base <= x < |memory| && memory[x] != 0 ensures exists k <- keys :: base + k.alias == x {
      var i := OrderOf(Views(keys))[x - base] - 1;
      assert keys[i] in keys && Views(keys)[i].alias == x - base;
    }
  }

  /** The table of a cross-reference plan gets the next id before the plan is optimised, so its keys write
      behind the array. */
  method OrderOfXrefPlan(counter: nat) returns (behind: int)
    ensures behind != 0
  {
    var id, next := counter, counter + 1;
    var key := new SqlKey(Key(id, 0, Primary, None));
    var memory := new int[next](_ => 0);
    FillOrder([key], next, memory, 0);
    assert key in [key] && !(key.alias < next - 1);
    behind := memory[next - 1];
  }

  /** The contents of the array. */
  method ComputeOrder(keys: seq<SqlKey>) returns (order: Order)
    ensures order == OrderOf(Views(keys))
  {
    order := map[];
    for i := 0 to |keys|
      invariant order == OrderOf(Views(keys)[..i])
    {
      assert Views(keys)[..i + 1][..i] == Views(keys)[..i];
      order := order[keys[i].alias := i + 1];
    }
    assert Views(keys)[..|keys|] == Views(keys);
  }

  /** The search of lp_generate_xref_keys through the FROM list. */
  method FindJoin(joins: seq<Join>, a: nat) returns (k: int)
    ensures k == JoinIndex(joins, a)
  {
    k := 0;
    while k < |joins|
      invariant 0 <= k <= |joins|
      invariant forall j | 0 <= j < k :: !(joins[j].alias == a && !joins[j].indexed)
    {
      if joins[k].alias == a && !joins[k].indexed {
        JoinIndexIs(joins, a, k);
        return;
      }
      k := k + 1;
    }
    k := -1;
    assert forall j <- joins :: !(j.alias == a && !j.indexed);
  }

  lemma {:induction false} JoinIndexIs(joins: seq<Join>, a: nat, k: nat)
    requires k < |joins| && joins[k].alias == a && !joins[k].indexed
    requires forall j | 0 <= j < k :: !(joins[j].alias == a && !joins[j].indexed)
    ensures JoinIndex(joins, a) == k
  {
    if k > 0 { JoinIndexIs(joins[1..], a, k - 1); }
  }

  /** The keys lp_generate_xref_keys builds. */
  method GenerateXrefKeys(a: nat, c: nat, width: nat) returns (keys: seq<SqlKey>)
    ensures DistinctKeys(keys) && forall k <- keys :: fresh(k)
    ensures Views(keys) == RowKeys(a, IndexRow(c), Free(width), 0)
  {
    ghost var row := RowKeys(a, IndexRow(c), Free(width), 0);
    RowKeysAt(a, IndexRow(c), Free(width), 0);
    keys := [];
    var n := 0;
    while n < width
      invariant 0 <= n <= width && DistinctKeys(keys) && forall k <- keys :: fresh(k)
      invariant Views(keys) == row[..n]
    {
      var key := new SqlKey(Key(a, n, IndexRow(c), None));
      assert row[..n + 1] == row[..n] + [key.View()];
      keys := keys + [key];
      n := n + 1;
    }
  }

  /** The two loops that find the first key of a table and the end of its run. */
  method FindRun(keys: seq<SqlKey>, a: nat) returns (first: nat, end: nat)
    requires exists k <- keys :: k.alias == a
    ensures first == FirstOf(Views(keys), a) && end == first + RunOf(Views(keys)[first..], a) <= |keys|
  {
    first := 0;
    while keys[first].alias != a
      invariant 0 <= first < |keys| && forall j | 0 <= j < first :: keys[j].alias != a
      decreases |keys| - first
    {
      first := first + 1;
    }
    FirstOfIs(Views(keys), a, first);
    end := first;
    while end < |keys| && keys[end].alias == a
      invariant first <= end <= |keys| && forall j | first <= j < end :: keys[j].alias == a
    {
      end := end + 1;
    }
    RunOfIs(Views(keys)[first..], a, end - first);
  }

  /** The keys are old ones or new ones. */
  twostate predicate Renewed(was: seq<SqlKey>, new now: seq<SqlKey>) {
    DistinctKeys(now) && forall k <- now :: fresh(k) || k in was
  }

  /** Replaces the keys of a table by a cross reference, as the helper does for a column that is no key. */
  method SpliceKeys(plan: Plan, a: nat, c: nat, width: nat, v: Operand)
    requires DistinctKeys(plan.keys) && width >= 1 && exists k <- plan.keys :: k.alias == a
    modifies plan`keys
    ensures Renewed(old(plan.keys), plan.keys)
    ensures Views(plan.keys) == Splice(old(Views(plan.keys)), a, c, width, v)
  {
    hide RowKeys, Views, FirstOf, RunOf, DistinctKeys, Splice;
    ghost var was, views := plan.keys, Views(plan.keys);
    var generated := GenerateXrefKeys(a, c, width);
    RowKeysAt(a, IndexRow(c), Free(width), 0);
    var first, end := FindRun(plan.keys, a);
    var xref := new SqlKey(Key(a, c, IndexHead, None));
    ViewsSlice(was, first, end);
    assert forall k <- was :: !fresh(k);
    if end < |plan.keys| {
      assert generated[0] in generated;
      ViewsSlice(generated, 1, 1);
      RelinkedKeys(generated[..1], was, end);
      generated := generated[..1] + plan.keys[end..];
    }
    assert forall k <- generated :: fresh(k) || k in was[end..];
    ghost var tail := Views(generated);
    SpliceIs(views, a, c, width, v, first, end, tail);
    SplicedKeys(was, first, end, xref, generated);
    plan.keys := plan.keys[..first] + [xref] + generated;
    assert xref !in was && xref !in generated && xref !in was[..first];
    xref.FixTo(v);
    assert Views(generated) == tail && Views(was[..first]) == views[..first];
    ViewsConcat(was[..first], [xref]);
    ViewsConcat(was[..first] + [xref], generated);
    ViewsOne(xref);
  }

  lemma SpliceIs(keys: seq<Key>, a: nat, c: nat, width: nat, v: Operand, first: nat, end: nat, tail: seq<Key>)
    requires width >= 1 && first == FirstOf(keys, a) && end == first + RunOf(keys[first..], a) <= |keys|
    requires |RowKeys(a, IndexRow(c), Free(width), 0)| == width
    requires var row := RowKeys(a, IndexRow(c), Free(width), 0);
      tail == if end == |keys| then row else row[..1] + keys[end..]
    ensures Splice(keys, a, c, width, v) == keys[..first] + [Key(a, c, IndexHead, Some(v))] + tail
  {
    hide RowKeys, FirstOf, RunOf;
  }

  lemma ViewsOne(k: SqlKey)
    ensures Views([k]) == [k.View()]
  {}

  lemma ViewsSlice(keys: seq<SqlKey>, i: nat, j: nat)
    requires i <= j <= |keys|
    ensures Views(keys[..i]) == Views(keys)[..i] && Views(keys[j..]) == Views(keys)[j..]
  {}

  lemma RelinkedKeys(head: seq<SqlKey>, was: seq<SqlKey>, end: nat)
    requires |head| == 1 && DistinctKeys(was) && end <= |was| && head[0] !in was
    ensures DistinctKeys(head + was[end..]) && Views(head + was[end..]) == Views(head) + Views(was[end..])
  {}

  lemma SplicedKeys(was: seq<SqlKey>, first: nat, end: nat, xref: SqlKey, generated: seq<SqlKey>)
    requires DistinctKeys(was) && first <= end <= |was| && xref !in was && xref !in generated && DistinctKeys(generated)
    requires forall k <- generated :: k !in was || k in was[end..]
    ensures DistinctKeys(was[..first] + [xref] + generated)
  {
    forall k <- was[..first] ensures k !in generated {
      assert k in was;
      assert k !in was[end..];
    }
    DistinctConcat(was[..first], [xref]);
    DistinctConcat(was[..first] + [xref], generated);
  }

  /** Every table that is still scanned has keys. */
  predicate Covers(st: Access) {
    forall j <- st.joins :: j.width >= 1 && (!j.indexed ==> HasKey(st.keys, j.alias))
  }

  predicate HasKey(keys: seq<Key>, a: nat) { exists k <- keys :: k.alias == a }

  lemma {:induction false} RunOfAliases(keys: seq<Key>, a: nat)
    ensures forall j | 0 <= j < RunOf(keys, a) :: keys[j].alias == a
  {
    if keys != [] && keys[0].alias == a { RunOfAliases(keys[1..], a); }
  }

  lemma SpliceHasKeys(keys: seq<Key>, a: nat, c: nat, width: nat, v: Operand, b: nat)
    requires width >= 1 && HasKey(keys, b)
    ensures HasKey(Splice(keys, a, c, width, v), b)
  {
    hide RowKeys, FirstOf;
    var f := FirstOf(keys, a);
    var end := f + RunOf(keys[f..], a);
    RunOfAliases(keys[f..], a);
    RowKeysAt(a, IndexRow(c), Free(width), 0);
    var keys' := Splice(keys, a, c, width, v);
    var k :| 0 <= k < |keys| && keys[k].alias == b;
    if k < f {
      assert keys'[k] == keys[k];
    } else if k < end {
      assert keys[f..][k - f].alias == a;
      assert keys'[f].alias == b;
    } else {
      assert keys'[f + 2 + (k - end)] == keys[k];
    }
  }

  lemma StepCovers(order: Order, st: Access, at: Atom)
    requires Covers(st)
    ensures Covers(FixAtom(order, st, at))
  {
    hide Splice, RowKeys;
    var st' := FixAtom(order, st, at);
    forall j <- st'.joins | !j.indexed ensures HasKey(st'.keys, j.alias) {
      assert j in st.joins;
      var target := Orient(order, at.lhs, at.rhs);
      if st' != st {
        var k := KeyIndex(st.keys, target.alias, target.column);
        if k >= 0 {
          var m :| 0 <= m < |st.keys| && st.keys[m].alias == j.alias;
          assert st'.keys[m].alias == j.alias;
        } else {
          var n := JoinIndex(st.joins, target.alias);
          SpliceHasKeys(st.keys, target.alias, target.column, st.joins[n].width, target.value, j.alias);
        }
      }
    }
  }

  /** One conjunct of lp_optimize_where_multi_equal_ands_helper. */
  method FixConjunct(plan: Plan, n: LogicalPlan, order: Order)
    requires plan.Valid() && Covers(plan.Path())
    modifies plan`keys, plan`joins, set k <- plan.keys
    ensures plan.Valid() && Renewed(old(plan.keys), plan.keys)
    ensures plan.Path() == FixAtom(order, old(plan.Path()), n.AtomOf())
  {
    if n.tag != Equals {
      return;
    }
    var valid := plan.VerifyValidForKeyFix(n.lhs, n.rhs);
    if !valid {
      return;
    }
    match Orient(order, n.lhs, n.rhs) {
      case Nothing =>
      case Fix(a, c, v) =>
        var k := plan.GetKeyIndex(a, c);
        if k >= 0 {
          plan.keys[k].FixTo(v);
          assert plan.Path().keys == old(plan.Path()).keys[k := FixKey(old(plan.Path()).keys[k], v)];
        } else {
          var j := FindJoin(plan.joins, a);
          if j < 0 {
            return;
          }
          KeyOfAlias(plan, plan.joins[j]);
          plan.joins := plan.joins[j := plan.joins[j].(indexed := true)];
          SpliceKeys(plan, a, c, plan.joins[j].width, v);
        }
    }
  }

  lemma KeyOfAlias(plan: Plan, j: Join)
    requires Covers(plan.Path()) && j in plan.joins && !j.indexed
    ensures exists k <- plan.keys :: k.alias == j.alias
  {
    assert HasKey(plan.Path().keys, j.alias);
    var m :| 0 <= m < |plan.Path().keys| && plan.Path().keys[m].alias == j.alias;
    assert plan.keys[m].alias == j.alias;
  }

  /** lp_optimize_where_multi_equal_ands_helper. The tree holds no OR, so the assert at its head cannot fail. */
  method FixConjuncts(plan: Plan, n: LogicalPlan, order: Order, ghost lab: Labels)
    requires plan.Valid() && Covers(plan.Path()) && Consistent(lab) && n in lab && OrFree(Unfold(n, lab))
    modifies plan`keys, plan`joins, set k <- plan.keys
    ensures plan.Valid() && Covers(plan.Path()) && Renewed(old(plan.keys), plan.keys)
    ensures plan.Path() == FixTree(order, old(plan.Path()), Unfold(n, lab))
    decreases Rank(lab[n])
  {
    hide FixAtom, Rank, Covers;
    Ok(n, lab);
    if n.tag == BooleanAnd {
      OperandRanks(n, lab);
      FixConjuncts(plan, n.left, order, lab);
      FixConjuncts(plan, n.right, order, lab);
      return;
    }
    if n.tag != Equals {
      NotAnEquality(order, plan.Path(), n, lab);
      return;
    }
    StepCovers(order, plan.Path(), n.AtomOf());
    FixConjunct(plan, n, order);
  }

  lemma NotAnEquality(order: Order, st: Access, n: LogicalPlan, lab: Labels)
    requires Consistent(lab) && n in lab && n.tag != Equals && n.tag != BooleanAnd
    requires forall j <- st.joins :: j.width >= 1
    ensures FixTree(order, st, Unfold(n, lab)) == st
  {}

  /** lp_optimize_where_multi_equal_ands. */
  method OptimizeWhere(plan: Plan, ghost lab: Labels)
    requires plan.Valid() && Covers(plan.Path())
    requires plan.where != null ==> Consistent(lab) && plan.where in lab && OrFree(Unfold(plan.where, lab))
    modifies plan`keys, plan`joins, set k <- plan.keys
    ensures plan.Valid() && Renewed(old(plan.keys), plan.keys)
    ensures plan.Path() == if plan.where == null then old(plan.Path())
                           else FixTree(OrderOf(old(Views(plan.keys))), old(plan.Path()), Unfold(plan.where, lab))
  {
    var order := ComputeOrder(plan.keys);
    if plan.where != null {
      FixConjuncts(plan, plan.where, order, lab);
    }
  }
}
