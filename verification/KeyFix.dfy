/** Turning equalities into fixed keys and cross-reference lookups: what one pass over the
    conjuncts of a WHERE does to the list of iteration keys. */
module KeyFix {
  import opened Where
  import opened Negation
  import opened Enumeration

  // ----- The steps, as functions on the key list -----

  /** A table in the FROM list; `indexed` once its cross-reference plan has taken its place. */
  datatype Join = Join(alias: nat, width: nat, indexed: bool)

  /** What the pass changes. */
  datatype Access = Access(keys: seq<Key>, joins: seq<Join>)

  /** The first key for a column, as lp_get_key and lp_get_key_index search for it. */
  function KeyIndex(keys: seq<Key>, a: nat, c: nat): (k: int)
    ensures -1 <= k < |keys|
    ensures k >= 0 ==> keys[k].alias == a && keys[k].column == c
    ensures forall j | 0 <= j < (if k >= 0 then k else |keys|) :: !(keys[j].alias == a && keys[j].column == c)
  {
    if keys == [] then -1
    else if keys[0].alias == a && keys[0].column == c then 0
    else
      var k := KeyIndex(keys[1..], a, c);
      if k < 0 then -1 else k + 1
  }

  /** lp_verify_valid_for_key_fix. */
  predicate ValidForKeyFix(keys: seq<Key>, lhs: Operand, rhs: Operand) {
    && !lhs.Computed? && !rhs.Computed?
    && (lhs.Column? && rhs.Column? ==>
          var i1, i2 := KeyIndex(keys, lhs.alias, lhs.column), KeyIndex(keys, rhs.alias, rhs.column);
          !(i1 == -1 && i2 == -1) && ((i1 == -1 || i2 == -1) ==> lhs.alias != rhs.alias))
  }

  /** key_unique_id_array: the position of the last key of each alias, from 1; aliases of enclosing
      queries have none and count as 0. */
  type Order = map<nat, nat>

  function Position(order: Order, a: nat): nat { if a in order then order[a] else 0 }

  function OrderOf(keys: seq<Key>): Order {
    if keys == [] then map[] else OrderOf(keys[..|keys| - 1])[keys[|keys| - 1].alias := |keys|]
  }

  /** Which column to fix to what. */
  datatype Target = Nothing | Fix(alias: nat, column: nat, value: Operand)

  function Orient(order: Order, lhs: Operand, rhs: Operand): Target {
    if lhs.Column? && rhs.Column? then
      if Position(order, lhs.alias) == 0 && Position(order, rhs.alias) == 0 then Nothing
      else if Position(order, rhs.alias) == 0 || Position(order, lhs.alias) < Position(order, rhs.alias)
        then Fix(rhs.alias, rhs.column, lhs)
      else Fix(lhs.alias, lhs.column, rhs)
    else if rhs.Column? then
      if Position(order, rhs.alias) == 0 then Nothing else Fix(rhs.alias, rhs.column, lhs)
    else if lhs.Column? then
      if Position(order, lhs.alias) == 0 then Nothing else Fix(lhs.alias, lhs.column, rhs)
    else Nothing
  }

  /** lp_opt_fix_key_to_const. */
  function FixKey(k: Key, value: Operand): Key {
    if k.value.None? && !k.kind.IndexRow? then k.(value := Some(value)) else k
  }

  function FirstOf(keys: seq<Key>, a: nat): (n: nat)
    ensures n <= |keys|
  {
    if keys == [] || keys[0].alias == a then 0 else 1 + FirstOf(keys[1..], a)
  }

  function RunOf(keys: seq<Key>, a: nat): (n: nat)
    ensures n <= |keys|
  {
    if keys == [] || keys[0].alias != a then 0 else 1 + RunOf(keys[1..], a)
  }

  /** The key list after the keys of alias a made way for its cross reference on column c. The first
      generated key is linked to the remaining keys, if there are any, over whatever followed it. */
  function Splice(keys: seq<Key>, a: nat, c: nat, width: nat, value: Operand): seq<Key>
    requires width >= 1
  {
    var f := FirstOf(keys, a);
    var rest := keys[f + RunOf(keys[f..], a)..];
    var generated := RowKeys(a, IndexRow(c), Free(width), 0);
    keys[..f] + [Key(a, c, IndexHead, Some(value))] + (if rest == [] then generated else [generated[0]] + rest)
  }

  /** The entry of the FROM list that still is the table itself. */
  function JoinIndex(joins: seq<Join>, a: nat): (k: int)
    ensures -1 <= k < |joins|
    ensures k >= 0 ==> joins[k].alias == a && !joins[k].indexed
    ensures k < 0 ==> forall j <- joins :: !(j.alias == a && !j.indexed)
  {
    if joins == [] then -1
    else if joins[0].alias == a && !joins[0].indexed then 0
    else
      var k := JoinIndex(joins[1..], a);
      if k < 0 then -1 else k + 1
  }

  function Apply(st: Access, target: Target): Access
    requires forall j <- st.joins :: j.width >= 1
  {
    match target
    case Nothing => st
    case Fix(a, c, v) =>
      var k := KeyIndex(st.keys, a, c);
      if k >= 0 then st.(keys := st.keys[k := FixKey(st.keys[k], v)])
      else
        var j := JoinIndex(st.joins, a);
        if j < 0 then st
        else Access(Splice(st.keys, a, c, st.joins[j].width, v), st.joins[j := st.joins[j].(indexed := true)])
  }

  function FixAtom(order: Order, st: Access, at: Atom): (st': Access)
    requires forall j <- st.joins :: j.width >= 1
    ensures forall j <- st'.joins :: j.width >= 1
  {
    if !at.tag.Equals? || !ValidForKeyFix(st.keys, at.lhs, at.rhs) then st
    else Apply(st, Orient(order, at.lhs, at.rhs))
  }

  /** lp_optimize_where_multi_equal_ands_helper over a tree without ORs. */
  function FixTree(order: Order, st: Access, t: Expr): (st': Access)
    requires forall j <- st.joins :: j.width >= 1
    ensures forall j <- st'.joins :: j.width >= 1
    decreases t
  {
    match t
    case And(x, y) => FixTree(order, FixTree(order, st, x), y)
    case Test(a) => FixAtom(order, st, a)
    case _ => st
  }

  /** The pass over the literals of one clause, from left to right. */
  function FixClause(order: Order, st: Access, ls: Clause): (st': Access)
    requires forall j <- st.joins :: j.width >= 1
    ensures forall j <- st'.joins :: j.width >= 1
    decreases |ls|
  {
    if ls == [] then st
    else FixClause(order, if ls[0].negated then st else FixAtom(order, st, ls[0].atom), ls[1..])
  }

  lemma {:induction false} FixClauseJoins(order: Order, st: Access, ls: Clause, ls': Clause)
    requires forall j <- st.joins :: j.width >= 1
    ensures FixClause(order, st, ls + ls') == FixClause(order, FixClause(order, st, ls), ls')
    decreases |ls|
  {
    hide FixAtom;
    if ls == [] {
      assert ls + ls' == ls';
    } else {
      assert (ls + ls')[1..] == ls[1..] + ls';
      FixClauseJoins(order, if ls[0].negated then st else FixAtom(order, st, ls[0].atom), ls[1..], ls');
    }
  }

  /** A tree without ORs is one clause, and the pass takes its literals from left to right. */
  lemma {:induction false} TreeIsClause(order: Order, st: Access, t: Expr) returns (ls: Clause)
    requires OrFree(t) && NotsAtLeaves(t) && forall j <- st.joins :: j.width >= 1
    ensures ClausesOf(t, false) == {ls} && FixTree(order, st, t) == FixClause(order, st, ls)
    ensures forall l <- ls :: !l.negated ==> l.atom in Conjuncts(t)
    decreases t
  {
    hide FixAtom;
    match t
    case And(x, y) =>
      var xs := TreeIsClause(order, st, x);
      var ys := TreeIsClause(order, FixTree(order, st, x), y);
      ls := xs + ys;
      FixClauseJoins(order, st, xs, ys);
      assert Products({xs}, {ys}) == {ls};
    case Test(a) => ls := [Literal(a, false)]; OneStep(order, st, ls);
    case Not(x) => ls := [Literal(x.atom, true)]; OneStep(order, st, ls);
  }

  lemma OneStep(order: Order, st: Access, ls: Clause)
    requires |ls| == 1 && forall j <- st.joins :: j.width >= 1
    ensures FixClause(order, st, ls) == if ls[0].negated then st else FixAtom(order, st, ls[0].atom)
  {
    assert ls[1..] == [];
  }

  /** The same tables in the same order, whether reached by scanning or by a cross reference. */
  predicate SameTables(js: seq<Join>, js': seq<Join>) {
    |js| == |js'| && forall i | 0 <= i < |js| :: js[i].alias == js'[i].alias && js[i].width == js'[i].width
  }

  lemma {:induction false} FixTreeTables(order: Order, st: Access, t: Expr)
    requires forall j <- st.joins :: j.width >= 1
    ensures SameTables(st.joins, FixTree(order, st, t).joins)
    decreases t
  {
    match t
    case And(x, y) =>
      FixTreeTables(order, st, x);
      FixTreeTables(order, FixTree(order, st, x), y);
    case _ =>
  }

  // ----- Where the keys of a block stand -----

  lemma {:induction false} FlattenAround(bs: seq<Block>, i: nat)
    requires i < |bs|
    ensures Flatten(bs) == Flatten(bs[..i]) + BlockKeys(bs[i]) + Flatten(bs[i + 1..])
  {
    hide BlockKeys;
    if i == 0 {
      assert bs[..0] == [];
    } else {
      var rest := bs[1..];
      FlattenAround(rest, i - 1);
      assert bs[..i][1..] == rest[..i - 1] && bs[i + 1..] == rest[i..];
      assert Flatten(bs[..i]) == BlockKeys(bs[0]) + Flatten(rest[..i - 1]);
      assert Flatten(bs) == BlockKeys(bs[0]) + (Flatten(rest[..i - 1]) + BlockKeys(bs[i]) + Flatten(bs[i + 1..]));
    }
  }

  lemma FlattenNone()
    ensures Flatten([]) == []
  {}

  // ----- The invariant of the pass -----

  /** What a block depends on is of earlier tables or, for a scanned table, any key column of its own. */
  predicate BlockLoose(w: Schema, b: Block, done: set<nat>) {
    match b
    case Scan(a, fixes) =>
      a in w && forall j | 0 <= j < |fixes| && fixes[j].Some? :: Computable(w, fixes[j].value, done, a, w[a])
    case Index(a, _, v, _) => Computable(w, v, done, a, 0)
  }

  predicate Lined(w: Schema, bs: seq<Block>, done: set<nat>) {
    bs != [] ==>
      && ValidBlock(w, bs[0]) && bs[0].alias !in done && BlockLoose(w, bs[0], done)
      && Lined(w, bs[1..], done + {bs[0].alias})
  }

  /** The access path is one block per table of the FROM list, in its order. */
  predicate Laid(w: Schema, st: Access, bs: seq<Block>) {
    && st.keys == Flatten(bs) && Lined(w, bs, {}) && Aliases(bs) == w.Keys && (forall a <- w.Keys :: w[a] >= 1)
    && |st.joins| == |bs|
    && forall i | 0 <= i < |bs| :: bs[i].alias in w && st.joins[i] == Join(bs[i].alias, w[bs[i].alias], bs[i].Index?)
  }

  lemma {:induction false} LinedAt(w: Schema, bs: seq<Block>, done: set<nat>, i: nat)
    requires Lined(w, bs, done) && i < |bs|
    ensures ValidBlock(w, bs[i]) && bs[i].alias !in done + Aliases(bs[..i])
    ensures BlockLoose(w, bs[i], done + Aliases(bs[..i]))
  {
    if i == 0 {
      assert done + Aliases(bs[..0]) == done;
    } else {
      LinedAt(w, bs[1..], done + {bs[0].alias}, i - 1);
      AliasesStep(bs[..i]);
      assert bs[..i][1..] == bs[1..][..i - 1];
      assert done + {bs[0].alias} + Aliases(bs[1..][..i - 1]) == done + Aliases(bs[..i]);
    }
  }

  lemma AliasesStep(bs: seq<Block>)
    ensures Aliases(bs) == if bs == [] then {} else {bs[0].alias} + Aliases(bs[1..])
  {}

  lemma {:induction false} LinedReplace(w: Schema, bs: seq<Block>, done: set<nat>, i: nat, b: Block)
    requires Lined(w, bs, done) && i < |bs| && b.alias == bs[i].alias && ValidBlock(w, b)
    requires BlockLoose(w, b, done + Aliases(bs[..i]))
    ensures Lined(w, bs[i := b], done) && Aliases(bs[i := b]) == Aliases(bs)
  {
    hide ValidBlock, BlockLoose, Aliases;
    AliasesStep(bs);
    AliasesStep(bs[i := b]);
    AliasesStep(bs[..i]);
    if i == 0 {
      assert done + Aliases(bs[..i]) == done;
      assert bs[i := b][1..] == bs[1..];
    } else {
      assert bs[..i][1..] == bs[1..][..i - 1] && bs[i := b][1..] == bs[1..][i - 1 := b];
      assert done + {bs[0].alias} + Aliases(bs[1..][..i - 1]) == done + Aliases(bs[..i]);
      LinedReplace(w, bs[1..], done + {bs[0].alias}, i - 1, b);
    }
  }

  lemma {:induction false} DistinctAliases(w: Schema, bs: seq<Block>, i: nat, j: nat)
    requires Lined(w, bs, {}) && i < j < |bs|
    ensures bs[i].alias != bs[j].alias
  {
    LinedAt(w, bs, {}, j);
    assert bs[i] in bs[..j];
  }

  /** The keys of an alias are exactly those at its block's positions. */
  lemma InBlock(w: Schema, bs: seq<Block>, i: nat, k: nat)
    requires Lined(w, bs, {}) && i < |bs| && k < |Flatten(bs)|
    ensures |Flatten(bs)| == |Flatten(bs[..i])| + |BlockKeys(bs[i])| + |Flatten(bs[i + 1..])|
    ensures Flatten(bs)[k].alias == bs[i].alias <==> |Flatten(bs[..i])| <= k < |Flatten(bs[..i])| + |BlockKeys(bs[i])|
    ensures |Flatten(bs[..i])| <= k < |Flatten(bs[..i])| + |BlockKeys(bs[i])|
      ==> Flatten(bs)[k] == BlockKeys(bs[i])[k - |Flatten(bs[..i])|]
  {
    hide Flatten, BlockKeys, Lined;
    FlattenAround(bs, i);
    FlattenAliases(bs[..i]);
    FlattenAliases(bs[i + 1..]);
    BlockKeysAt(bs[i]);
    var pre, mid, post := Flatten(bs[..i]), BlockKeys(bs[i]), Flatten(bs[i + 1..]);
    LinedAt(w, bs, {}, i);
    forall j | i < j < |bs| ensures bs[j].alias != bs[i].alias { DistinctAliases(w, bs, i, j); }
    if k < |pre| {
      assert Flatten(bs)[k] == pre[k] && pre[k] in pre;
    } else if k < |pre| + |mid| {
      assert Flatten(bs)[k] == mid[k - |pre|] && mid[k - |pre|] in mid;
    } else {
      assert Flatten(bs)[k] == post[k - |pre| - |mid|] && post[k - |pre| - |mid|] in post;
    }
  }

  // ----- The order of the tables -----

  /** The position, from 1, of the last key of each table that has one. */
  lemma {:induction false} OrderOfAt(keys: seq<Key>)
    ensures forall k <- keys :: k.alias in OrderOf(keys)
    ensures forall a <- OrderOf(keys).Keys :: 1 <= OrderOf(keys)[a] <= |keys| && keys[OrderOf(keys)[a] - 1].alias == a
    ensures forall a <- OrderOf(keys).Keys, j | OrderOf(keys)[a] <= j < |keys| :: keys[j].alias != a
  {
    if keys != [] {
      var most := keys[..|keys| - 1];
      OrderOfAt(most);
      assert keys == most + [keys[|keys| - 1]];
    }
  }

  /** Positions grow from block to block. */
  predicate OrderFits(order: Order, bs: seq<Block>) {
    && order.Keys == Aliases(bs) && (forall a <- order.Keys :: order[a] >= 1)
    && forall i, j | 0 <= i < j < |bs| :: Position(order, bs[i].alias) < Position(order, bs[j].alias)
  }

  lemma OrderOfFits(w: Schema, st: Access, bs: seq<Block>)
    requires Laid(w, st, bs)
    ensures OrderFits(OrderOf(st.keys), bs)
  {
    hide Flatten, Lined, OrderOf;
    var order := OrderOf(st.keys);
    OrderOfAt(st.keys);
    FlattenAliases(bs);
    forall a <- order.Keys ensures a in Aliases(bs) { assert st.keys[order[a] - 1] in st.keys; }
    forall a <- Aliases(bs) ensures a in order {
      var i :| 0 <= i < |bs| && bs[i].alias == a;
      PositionInBlock(w, st, bs, i);
    }
    forall i, j | 0 <= i < j < |bs| ensures Position(order, bs[i].alias) < Position(order, bs[j].alias) {
      PositionInBlock(w, st, bs, i);
      PositionInBlock(w, st, bs, j);
      FlattenGrows(bs, i + 1, j);
    }
  }

  lemma PositionInBlock(w: Schema, st: Access, bs: seq<Block>, i: nat)
    requires Laid(w, st, bs) && i < |bs|
    ensures bs[i].alias in OrderOf(st.keys)
    ensures |Flatten(bs[..i])| < OrderOf(st.keys)[bs[i].alias] <= |Flatten(bs[..i + 1])|
  {
    hide Flatten, BlockKeys, Lined, OrderOf;
    OrderOfAt(st.keys);
    LinedAt(w, bs, {}, i);
    BlockKeysAt(bs[i]);
    FlattenAround(bs, i);
    FlattenAround(bs[..i + 1], i);
    assert bs[..i + 1][..i] == bs[..i] && bs[..i + 1][i + 1..] == [];
    FlattenNone();
    var start := |Flatten(bs[..i])|;
    InBlock(w, bs, i, start);
    assert st.keys[start] in st.keys;
    InBlock(w, bs, i, OrderOf(st.keys)[bs[i].alias] - 1);
  }

  lemma FlattenGrows(bs: seq<Block>, i: nat, j: nat)
    requires i <= j <= |bs|
    ensures |Flatten(bs[..i])| <= |Flatten(bs[..j])|
  {
    hide BlockKeys;
    if i < j {
      FlattenAround(bs[..j], i);
      assert bs[..j][..i] == bs[..i];
    }
  }

  // ----- The cases of a step -----

  lemma ApplyAbsent(w: Schema, st: Access, bs: seq<Block>, a: nat, c: nat, v: Operand)
    requires Laid(w, st, bs) && a !in w
    ensures Apply(st, Fix(a, c, v)) == st
  {
    FlattenAliases(bs);
    assert forall k | 0 <= k < |st.keys| :: st.keys[k] in st.keys && st.keys[k].alias != a;
  }

  lemma JoinFound(w: Schema, st: Access, bs: seq<Block>, i: nat)
    requires Laid(w, st, bs) && i < |bs|
    ensures JoinIndex(st.joins, bs[i].alias) == if bs[i].Index? then -1 else i
  {
    var k := JoinIndex(st.joins, bs[i].alias);
    if 0 <= k < i { DistinctAliases(w, bs, k, i); }
    if i < k { DistinctAliases(w, bs, i, k); }
    assert st.joins[i] in st.joins;
  }

  lemma ApplyIndexed(w: Schema, st: Access, bs: seq<Block>, i: nat, c: nat, v: Operand)
    requires Laid(w, st, bs) && i < |bs| && bs[i].Index?
    ensures Apply(st, Fix(bs[i].alias, c, v)) == st
  {
    hide Flatten, BlockKeys, Lined, KeyIndex, Splice;
    var k := KeyIndex(st.keys, bs[i].alias, c);
    JoinFound(w, st, bs, i);
    if k >= 0 {
      InBlock(w, bs, i, k);
      BlockKeysAt(bs[i]);
      assert st.keys[k := st.keys[k]] == st.keys;
    }
  }

  function FixedBlock(b: Block, c: nat, v: Operand): Block
    requires b.Scan? && c < |b.fixes|
  {
    if b.fixes[c].None? then b.(fixes := b.fixes[c := Some(v)]) else b
  }

  lemma KeyFound(w: Schema, st: Access, bs: seq<Block>, i: nat, c: nat)
    requires Laid(w, st, bs) && i < |bs| && bs[i].Scan?
    ensures KeyIndex(st.keys, bs[i].alias, c) == if c < |bs[i].fixes| then |Flatten(bs[..i])| + c else -1
  {
    hide Flatten, BlockKeys, Lined, KeyIndex;
    var k := KeyIndex(st.keys, bs[i].alias, c);
    var start := |Flatten(bs[..i])|;
    BlockKeysAt(bs[i]);
    FlattenAround(bs, i);
    if k >= 0 { InBlock(w, bs, i, k); }
    if c < |bs[i].fixes| { InBlock(w, bs, i, start + c); }
  }

  lemma ApplyKey(w: Schema, st: Access, bs: seq<Block>, i: nat, c: nat, v: Operand)
    requires Laid(w, st, bs) && i < |bs| && bs[i].Scan? && c < |bs[i].fixes|
    ensures Apply(st, Fix(bs[i].alias, c, v)) == st.(keys := Flatten(bs[i := FixedBlock(bs[i], c, v)]))
  {
    hide Flatten, BlockKeys, Lined, KeyIndex, Splice, Aliases;
    KeyFound(w, st, bs, i, c);
    var b, b' := bs[i], FixedBlock(bs[i], c, v);
    var bs' := bs[i := b'];
    FlattenAround(bs, i);
    FlattenAround(bs', i);
    assert bs'[..i] == bs[..i] && bs'[i + 1..] == bs[i + 1..];
    BlockKeysAt(b);
    BlockKeysAt(b');
    assert BlockKeys(b') == BlockKeys(b)[c := FixKey(BlockKeys(b)[c], v)];
    var pre := Flatten(bs[..i]);
    var k := |pre| + c;
    assert st.keys[k] == BlockKeys(b)[c];
    assert st.keys[k := FixKey(st.keys[k], v)] == pre + BlockKeys(b') + Flatten(bs[i + 1..]);
  }

  lemma {:induction false} FirstOfIs(keys: seq<Key>, a: nat, f: nat)
    requires f < |keys| && keys[f].alias == a && forall j | 0 <= j < f :: keys[j].alias != a
    ensures FirstOf(keys, a) == f
  {
    if f > 0 { FirstOfIs(keys[1..], a, f - 1); }
  }

  lemma {:induction false} RunOfIs(keys: seq<Key>, a: nat, n: nat)
    requires n <= |keys| && (forall j | 0 <= j < n :: keys[j].alias == a) && (n < |keys| ==> keys[n].alias != a)
    ensures RunOf(keys, a) == n
  {
    if n > 0 { RunOfIs(keys[1..], a, n - 1); }
  }

  /** What the splice makes of a table that was scanned: its block becomes an index block, but if other
      keys follow then only the first key of the row is kept. */
  lemma ApplySplice(w: Schema, st: Access, bs: seq<Block>, i: nat, c: nat, v: Operand)
    requires Laid(w, st, bs) && i < |bs| && bs[i].Scan? && c >= |bs[i].fixes|
    ensures var a := bs[i].alias;
      var row := RowKeys(a, IndexRow(c), Free(w[a]), 0);
      var rest := Flatten(bs[i + 1..]);
      && |row| == w[a] && (rest == [] <==> i == |bs| - 1)
      && Apply(st, Fix(a, c, v)) == Access(
           Flatten(bs[..i]) + [Key(a, c, IndexHead, Some(v))] + (if rest == [] then row else [row[0]] + rest),
           st.joins[i := Join(a, w[a], true)])
  {
    hide Flatten, BlockKeys, Lined, KeyIndex, RowKeys, FirstOf, RunOf, JoinIndex, Aliases;
    var a := bs[i].alias;
    var pre, mid, rest := Flatten(bs[..i]), BlockKeys(bs[i]), Flatten(bs[i + 1..]);
    KeyFound(w, st, bs, i, c);
    JoinFound(w, st, bs, i);
    LinedAt(w, bs, {}, i);
    BlockKeysAt(bs[i]);
    FlattenAround(bs, i);
    RowKeysAt(a, IndexRow(c), Free(w[a]), 0);
    forall k | 0 <= k < |st.keys| ensures st.keys[k].alias == a <==> |pre| <= k < |pre| + |mid| {
      InBlock(w, bs, i, k);
    }
    FirstOfIs(st.keys, a, |pre|);
    RunOfIs(st.keys[|pre|..], a, |mid|);
    assert st.keys[..|pre|] == pre && st.keys[|pre| + |mid|..] == rest;
    if i + 1 < |bs| {
      LinedAt(w, bs, {}, i + 1);
      BlockKeysAt(bs[i + 1]);
      FlattenAround(bs[i + 1..], 0);
    } else {
      assert bs[i + 1..] == [];
      FlattenNone();
    }
  }

  // ----- Which key an equality fixes -----

  /** The operand is known before table n is reached: a constant, a column of an enclosing query, or a column
      of an earlier table. */
  predicate KnownBefore(bs: seq<Block>, n: nat, v: Operand)
    requires n < |bs|
  {
    match v
    case Constant(_) => true
    case Computed(_) => false
    case Column(a, _) => a !in Aliases(bs) || exists i | 0 <= i < n :: bs[i].alias == a
  }

  /** A column of an enclosing query. */
  predicate Enclosing(bs: seq<Block>, v: Operand) { v.Column? && v.alias !in Aliases(bs) }

  /** An equality with something known before fixes the later table's column, whichever side it stands on;
      but a column of an enclosing query has to stand on the left. */
  lemma LaterColumnIsFixed(w: Schema, order: Order, bs: seq<Block>, n: nat, c: nat, v: Operand)
    requires Lined(w, bs, {}) && OrderFits(order, bs) && n < |bs| && KnownBefore(bs, n, v)
    ensures var x := Column(bs[n].alias, c);
      && Orient(order, v, x) == Fix(bs[n].alias, c, v)
      && Orient(order, x, v) == if Enclosing(bs, v) then Fix(v.alias, v.column, x) else Fix(bs[n].alias, c, v)
  {
    assert bs[n] in bs;
    if v.Column? && v.alias in Aliases(bs) {
      var i :| 0 <= i < n && bs[i].alias == v.alias;
      assert bs[i] in bs;
      assert Position(order, bs[i].alias) < Position(order, bs[n].alias);
    }
  }

  /** So a key that nothing has fixed yet gets that value, and no other key changes. */
  lemma EqualityFixesKey(w: Schema, order: Order, st: Access, bs: seq<Block>, n: nat, c: nat, v: Operand, left: bool)
    requires Laid(w, st, bs) && OrderFits(order, bs) && n < |bs| && KnownBefore(bs, n, v)
    requires bs[n].Scan? && c < |bs[n].fixes| && bs[n].fixes[c].None?
    ensures var x := Column(bs[n].alias, c);
      var st' := FixAtom(order, st, if left then Atom(Equals, v, x) else Atom(Equals, x, v));
      var k := KeyIndex(st.keys, bs[n].alias, c);
      && k >= 0 && st.keys[k] == Key(bs[n].alias, c, Primary, None)
      && st' == if Enclosing(bs, v) && !left then st
                else Access(st.keys[k := Key(bs[n].alias, c, Primary, Some(v))], st.joins)
  {
    hide Flatten, Lined, BlockKeys, KeyIndex, OrderFits;
    var a, k := bs[n].alias, |Flatten(bs[..n])| + c;
    LaterColumnIsFixed(w, order, bs, n, c, v);
    OtherTable(w, bs, n, v);
    KeyFound(w, st, bs, n, c);
    FlattenAround(bs, n);
    BlockKeysAt(bs[n]);
    InBlock(w, bs, n, k);
    assert st.keys[k] == Key(a, c, Primary, None);
    if Enclosing(bs, v) { ApplyAbsent(w, st, bs, v.alias, v.column, Column(a, c)); }
  }

  /** An equality of any other column of a scanned table with a constant or a key makes it a cross-reference
      lookup. */
  lemma EqualityLooksUp(w: Schema, order: Order, st: Access, bs: seq<Block>, n: nat, c: nat, v: Operand, left: bool)
    requires Laid(w, st, bs) && OrderFits(order, bs) && n < |bs| && KnownBefore(bs, n, v)
    requires bs[n].Scan? && c >= |bs[n].fixes| && (v.Column? ==> KeyIndex(st.keys, v.alias, v.column) >= 0)
    ensures var x := Column(bs[n].alias, c);
      && KeyIndex(st.keys, bs[n].alias, c) < 0 && JoinIndex(st.joins, bs[n].alias) == n
      && FixAtom(order, st, if left then Atom(Equals, v, x) else Atom(Equals, x, v))
         == Access(Splice(st.keys, bs[n].alias, c, w[bs[n].alias], v), st.joins[n := st.joins[n].(indexed := true)])
  {
    hide Flatten, Lined, BlockKeys, KeyIndex, JoinIndex, OrderFits, Splice;
    LaterColumnIsFixed(w, order, bs, n, c, v);
    OtherTable(w, bs, n, v);
    KeyFound(w, st, bs, n, c);
    JoinFound(w, st, bs, n);
    if v.Column? { KeyIsOfTable(st, bs, KeyIndex(st.keys, v.alias, v.column)); }
  }

  lemma KeyIsOfTable(st: Access, bs: seq<Block>, k: nat)
    requires st.keys == Flatten(bs) && k < |st.keys|
    ensures st.keys[k].alias in Aliases(bs)
  {
    FlattenAliases(bs);
    assert st.keys[k] in st.keys;
  }

  /** Equalities with computed operands, and of two columns without keys, are not used. */
  lemma NothingToFix(order: Order, st: Access, x: Operand, y: Operand)
    requires forall j <- st.joins :: j.width >= 1
    requires x.Computed? || y.Computed?
      || (x.Column? && y.Column?
          && KeyIndex(st.keys, x.alias, x.column) < 0 && KeyIndex(st.keys, y.alias, y.column) < 0)
    ensures FixAtom(order, st, Atom(Equals, x, y)) == st
  {
    hide KeyIndex, Apply;
  }

  lemma OtherTable(w: Schema, bs: seq<Block>, n: nat, v: Operand)
    requires Lined(w, bs, {}) && n < |bs| && KnownBefore(bs, n, v)
    ensures !v.Computed? && !(v.Column? && v.alias == bs[n].alias)
  {
    if v.Column? && v.alias == bs[n].alias {
      assert bs[n] in bs;
      var i :| 0 <= i < n && bs[i].alias == v.alias;
      DistinctAliases(w, bs, i, n);
    }
  }

  /** Turning an equality around changes nothing, except between two columns of one table, or of which just
      one is of an enclosing query. */
  lemma EqualityCommutes(w: Schema, order: Order, st: Access, bs: seq<Block>, x: Operand, y: Operand)
    requires Laid(w, st, bs) && OrderFits(order, bs)
    requires x.Column? && y.Column? ==> x.alias != y.alias && (Enclosing(bs, x) <==> Enclosing(bs, y))
    ensures FixAtom(order, st, Atom(Equals, x, y)) == FixAtom(order, st, Atom(Equals, y, x))
  {
    hide Flatten, Lined, KeyIndex, Apply;
    if x.Column? && y.Column? && !Enclosing(bs, x) {
      var i :| 0 <= i < |bs| && bs[i].alias == x.alias;
      var j :| 0 <= j < |bs| && bs[j].alias == y.alias;
      assert i != j;
      assert Position(order, bs[i].alias) != Position(order, bs[j].alias);
    }
  }

  // ----- Every step keeps the invariant -----

  /** Whenever the condition is true, so is the test. */
  ghost predicate Entails(e: Expr, at: Atom) {
    forall i: Interp | Eval(e, i) == True :: i(at) == True
  }

  /** Whenever the condition is true, so is the equality of column c of alias a with v. */
  ghost predicate Implied(e: Expr, a: nat, c: nat, v: Operand) {
    forall i: Interp | Eval(e, i) == True ::
      i(Atom(Equals, Column(a, c), v)) == True || i(Atom(Equals, v, Column(a, c))) == True
  }

  /** Whatever a block fixes, the condition implies. */
  ghost predicate BlockBacked(b: Block, e: Expr) {
    match b
    case Scan(a, fixes) => forall j | 0 <= j < |fixes| && fixes[j].Some? :: Implied(e, a, j, fixes[j].value)
    case Index(a, c, v, _) => Implied(e, a, c, v)
  }

  ghost predicate Backed(bs: seq<Block>, e: Expr) {
    forall b <- bs :: BlockBacked(b, e)
  }

  /** An operand to fix to that is of another table is of an earlier one. */
  lemma TargetIsEarlier(w: Schema, order: Order, bs: seq<Block>, lhs: Operand, rhs: Operand, i: nat)
    requires Lined(w, bs, {}) && Aliases(bs) == w.Keys && OrderFits(order, bs) && i < |bs|
    requires Orient(order, lhs, rhs).Fix? && Orient(order, lhs, rhs).alias == bs[i].alias
    requires !lhs.Computed? && !rhs.Computed?
    ensures var v := Orient(order, lhs, rhs).value;
      (v.Column? && v.alias == bs[i].alias) || forall j :: Computable(w, v, Aliases(bs[..i]), bs[i].alias, j)
  {
    hide Lined;
    var v := Orient(order, lhs, rhs).value;
    if v.Column? && v.alias in w && v.alias != bs[i].alias {
      var j :| 0 <= j < |bs| && bs[j].alias == v.alias;
      assert Position(order, v.alias) <= Position(order, bs[i].alias);
      assert j < i;
      assert bs[j] in bs[..i];
    }
  }

  lemma ReplaceKeeps(w: Schema, order: Order, bs: seq<Block>, i: nat, b: Block, e: Expr)
    requires Lined(w, bs, {}) && OrderFits(order, bs) && Backed(bs, e) && i < |bs| && b.alias == bs[i].alias
    requires ValidBlock(w, b) && BlockLoose(w, b, Aliases(bs[..i])) && BlockBacked(b, e)
    ensures Lined(w, bs[i := b], {}) && Aliases(bs[i := b]) == Aliases(bs) && OrderFits(order, bs[i := b])
    ensures Backed(bs[i := b], e)
  {
    hide BlockLoose, BlockBacked, Lined, ValidBlock;
    assert {} + Aliases(bs[..i]) == Aliases(bs[..i]);
    LinedReplace(w, bs, {}, i, b);
  }

  /** Fixing a key of a scanned table. */
  lemma KeyStep(w: Schema, order: Order, st: Access, bs: seq<Block>, i: nat, c: nat, v: Operand, e: Expr)
    returns (bs': seq<Block>)
    requires Laid(w, st, bs) && OrderFits(order, bs) && Backed(bs, e) && i < |bs| && bs[i].Scan? && c < |bs[i].fixes|
    requires Computable(w, v, Aliases(bs[..i]), bs[i].alias, w[bs[i].alias]) && Implied(e, bs[i].alias, c, v)
    ensures Laid(w, Apply(st, Fix(bs[i].alias, c, v)), bs') && OrderFits(order, bs') && Backed(bs', e)
    ensures bs' == bs[i := FixedBlock(bs[i], c, v)]
  {
    hide Flatten, Lined, Implied, Computable, Apply, Aliases;
    var b := FixedBlock(bs[i], c, v);
    ApplyKey(w, st, bs, i, c, v);
    LinedAt(w, bs, {}, i);
    assert {} + Aliases(bs[..i]) == Aliases(bs[..i]);
    assert BlockBacked(bs[i], e);
    ReplaceKeeps(w, order, bs, i, b, e);
    bs' := bs[i := b];
  }

  /** Replacing a scanned table by its cross reference, if its row keys are kept. */
  lemma SpliceStep(w: Schema, order: Order, st: Access, bs: seq<Block>, i: nat, c: nat, v: Operand, e: Expr)
    returns (bs': seq<Block>)
    requires Laid(w, st, bs) && OrderFits(order, bs) && Backed(bs, e) && i < |bs| && bs[i].Scan? && c >= |bs[i].fixes|
    requires Computable(w, v, Aliases(bs[..i]), bs[i].alias, 0) && Implied(e, bs[i].alias, c, v)
    requires w[bs[i].alias] == 1 || i == |bs| - 1
    ensures Laid(w, Apply(st, Fix(bs[i].alias, c, v)), bs') && OrderFits(order, bs') && Backed(bs', e)
    ensures bs' == bs[i := Index(bs[i].alias, c, v, w[bs[i].alias])]
  {
    hide Flatten, Lined, Implied, Computable, Apply, Aliases, RowKeys;
    var a := bs[i].alias;
    var b := Index(a, c, v, w[a]);
    bs' := bs[i := b];
    ApplySplice(w, st, bs, i, c, v);
    LinedAt(w, bs, {}, i);
    ReplaceKeeps(w, order, bs, i, b, e);
    FlattenAround(bs', i);
    assert bs'[..i] == bs[..i] && bs'[i + 1..] == bs[i + 1..];
    var row := RowKeys(a, IndexRow(c), Free(w[a]), 0);
    assert w[a] == 1 ==> row == [row[0]];
  }

  /** Column c of alias a has no key and will not get one. */
  predicate Dropped(st: Access, a: nat, c: nat) { KeyIndex(st.keys, a, c) < 0 && JoinIndex(st.joins, a) < 0 }

  /** A key column of some table has been dropped. */
  ghost predicate Lost(w: Schema, st: Access) { exists a, c :: a in w && c < w[a] && Dropped(st, a, c) }

  /** Otherwise, replacing a scanned table by its cross reference drops its second key column. */
  lemma SpliceDrops(w: Schema, st: Access, bs: seq<Block>, i: nat, c: nat, v: Operand)
    requires Laid(w, st, bs) && i < |bs| && bs[i].Scan? && c >= |bs[i].fixes|
    requires w[bs[i].alias] > 1 && i < |bs| - 1
    ensures Dropped(Apply(st, Fix(bs[i].alias, c, v)), bs[i].alias, 1)
  {
    hide Flatten, Lined, Apply, BlockKeys, RowKeys, KeyIndex, JoinIndex;
    var a := bs[i].alias;
    ApplySplice(w, st, bs, i, c, v);
    LinedAt(w, bs, {}, i);
    RowKeysAt(a, IndexRow(c), Free(w[a]), 0);
    FlattenAliases(bs[..i]);
    FlattenAliases(bs[i + 1..]);
    forall j | i < j < |bs| ensures bs[j].alias != a { DistinctAliases(w, bs, i, j); }
    forall j | 0 <= j < i ensures bs[j].alias != a { DistinctAliases(w, bs, j, i); }
    var st' := Apply(st, Fix(a, c, v));
    var row := RowKeys(a, IndexRow(c), Free(w[a]), 0);
    assert row[0] == Key(a, 0, IndexRow(c), None);
    forall k <- st'.keys ensures !(k.alias == a && k.column == 1) {
      assert k in Flatten(bs[..i]) || k == Key(a, c, IndexHead, Some(v)) || k == row[0] || k in Flatten(bs[i + 1..]);
    }
    KeyAbsent(st'.keys, a, 1);
    forall j | 0 <= j < |st'.joins| ensures !(st'.joins[j].alias == a && !st'.joins[j].indexed) {
      assert j != i ==> st'.joins[j].alias == bs[j].alias;
    }
    JoinAbsent(st'.joins, a);
  }

  lemma KeyAbsent(keys: seq<Key>, a: nat, c: nat)
    requires forall k <- keys :: !(k.alias == a && k.column == c)
    ensures KeyIndex(keys, a, c) < 0
  {}

  lemma JoinAbsent(joins: seq<Join>, a: nat)
    requires forall j | 0 <= j < |joins| :: !(joins[j].alias == a && !joins[j].indexed)
    ensures JoinIndex(joins, a) < 0
  {}

  /** What is dropped stays dropped. */
  lemma DroppedStays(st: Access, target: Target, a: nat, c: nat)
    requires Dropped(st, a, c) && forall j <- st.joins :: j.width >= 1
    ensures Dropped(Apply(st, target), a, c)
  {
    hide KeyIndex, JoinIndex, FirstOf, RunOf;
    var st' := Apply(st, target);
    assert forall k <- st.keys :: !(k.alias == a && k.column == c) by {
      forall k <- st.keys ensures !(k.alias == a && k.column == c) { var j :| 0 <= j < |st.keys| && st.keys[j] == k; }
    }
    if target.Fix? {
      if KeyIndex(st.keys, target.alias, target.column) < 0 && JoinIndex(st.joins, target.alias) >= 0 {
        SpliceAdds(st.keys, target.alias, target.column, st.joins[JoinIndex(st.joins, target.alias)].width,
          target.value);
      }
      KeyAbsent(st'.keys, a, c);
      forall j | 0 <= j < |st'.joins| ensures !(st'.joins[j].alias == a && !st'.joins[j].indexed) {
        assert st.joins[j] in st.joins;
      }
      JoinAbsent(st'.joins, a);
    }
  }

  lemma SpliceAdds(keys: seq<Key>, a: nat, c: nat, width: nat, value: Operand)
    requires width >= 1
    ensures forall k <- Splice(keys, a, c, width, value) :: k in keys || k.alias == a
  {
    hide FirstOf, RunOf, RowKeys;
    RowKeysAt(a, IndexRow(c), Free(width), 0);
  }

  /** Where the pass stands: every table has its block and the condition implies what a key is fixed by,
      or a key column is lost. */
  ghost predicate Stands(w: Schema, order: Order, st: Access, e: Expr) {
    (exists bs :: Laid(w, st, bs) && OrderFits(order, bs) && Backed(bs, e)) || Lost(w, st)
  }

  lemma StepKeeps(w: Schema, order: Order, st: Access, at: Atom, e: Expr)
    requires Stands(w, order, st, e) && Entails(e, at) && forall j <- st.joins :: j.width >= 1
    ensures Stands(w, order, FixAtom(order, st, at), e)
  {
    hide Flatten, Lined, Apply, Backed, Laid, KeyIndex, OrderFits, Dropped;
    var target := Orient(order, at.lhs, at.rhs);
    if at.tag.Equals? && ValidForKeyFix(st.keys, at.lhs, at.rhs) {
      if Lost(w, st) {
        var a, c :| a in w && c < w[a] && Dropped(st, a, c);
        DroppedStays(st, target, a, c);
      } else if target.Fix? {
        var bs :| Laid(w, st, bs) && OrderFits(order, bs) && Backed(bs, e);
        assert Implied(e, target.alias, target.column, target.value);
        FixStep(w, order, st, bs, at, e);
      } else {
        ApplyNothing(st);
      }
    }
  }

  lemma ApplyNothing(st: Access)
    requires forall j <- st.joins :: j.width >= 1
    ensures Apply(st, Nothing) == st
  {}

  lemma FixStep(w: Schema, order: Order, st: Access, bs: seq<Block>, at: Atom, e: Expr)
    requires Laid(w, st, bs) && OrderFits(order, bs) && Backed(bs, e)
    requires ValidForKeyFix(st.keys, at.lhs, at.rhs) && Orient(order, at.lhs, at.rhs).Fix?
    requires var t := Orient(order, at.lhs, at.rhs); Implied(e, t.alias, t.column, t.value)
    ensures Stands(w, order, Apply(st, Orient(order, at.lhs, at.rhs)), e)
  {
    hide Flatten, Lined, Apply, Implied, KeyIndex, Backed, FixedBlock, Dropped, OrderFits;
    var Fix(a, c, v) := Orient(order, at.lhs, at.rhs);
    if a !in w {
      ApplyAbsent(w, st, bs, a, c, v);
    } else {
      var i :| 0 <= i < |bs| && bs[i].alias == a;
      if bs[i].Index? {
        ApplyIndexed(w, st, bs, i, c, v);
      } else {
        LinedAt(w, bs, {}, i);
        TargetIsEarlier(w, order, bs, at.lhs, at.rhs, i);
        if v.Column? && v.alias == a {
          KeyFound(w, st, bs, i, at.lhs.column);
          KeyFound(w, st, bs, i, at.rhs.column);
        }
        if c < w[a] {
          var bs' := KeyStep(w, order, st, bs, i, c, v, e);
        } else if w[a] == 1 || i == |bs| - 1 {
          var bs' := SpliceStep(w, order, st, bs, i, c, v, e);
        } else {
          SpliceDrops(w, st, bs, i, c, v);
        }
      }
    }
  }

  /** The tests on a tree's AND spine. */
  function Conjuncts(t: Expr): set<Atom> {
    match t
    case And(x, y) => Conjuncts(x) + Conjuncts(y)
    case Test(a) => {a}
    case _ => {}
  }

  lemma {:induction false} ConjunctsHold(t: Expr, i: Interp)
    requires Eval(t, i) == True
    ensures forall a <- Conjuncts(t) :: i(a) == True
  {
    match t
    case And(x, y) => ConjunctsHold(x, i); ConjunctsHold(y, i);
    case _ =>
  }

  /** The whole pass keeps the invariant: unless a key column is lost, the keys stay grouped by table in the
      order of the FROM list, every fixed key depends on constants, enclosing queries, earlier tables and
      keys of its own table only, and the condition implies every equality a key was fixed by. */
  lemma {:induction false} PassKeeps(w: Schema, order: Order, st: Access, ls: Clause, e: Expr)
    requires Stands(w, order, st, e) && forall j <- st.joins :: j.width >= 1
    requires forall l <- ls :: !l.negated ==> Entails(e, l.atom)
    ensures Stands(w, order, FixClause(order, st, ls), e)
    decreases |ls|
  {
    hide Stands, Entails, FixAtom;
    if ls != [] {
      if !ls[0].negated { StepKeeps(w, order, st, ls[0].atom, e); }
      PassKeeps(w, order, if ls[0].negated then st else FixAtom(order, st, ls[0].atom), ls[1..], e);
    }
  }
}
