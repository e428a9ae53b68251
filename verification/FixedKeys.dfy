/** What the loops select once the pass has fixed their keys, and for which key lists that is what the
    condition asks for. */
module FixedKeys {
  import opened Where
  import opened Enumeration
  import opened KeyFix

  // ----- Which key lists can be run -----

  /** The key is fixed to itself or to a later key of its table. */
  predicate Waits(w: Schema, k: Key) {
    && k.kind.Primary? && k.value.Some? && k.value.value.Column? && k.value.value.alias == k.alias && k.alias in w
    && k.column <= k.value.value.column < w[k.alias]
  }

  /** Every key column of every table has a key, and none waits for itself or for a later one. */
  predicate Runnable(w: Schema, keys: seq<Key>) {
    && (forall a <- w.Keys, c | 0 <= c < w[a] :: KeyIndex(keys, a, c) >= 0)
    && forall k <- keys :: !Waits(w, k)
  }

  lemma BlockReadyIff(w: Schema, b: Block, done: set<nat>)
    requires ValidBlock(w, b) && BlockLoose(w, b, done) && b.alias !in done
    ensures BlockReady(w, b, done) <==> forall k <- BlockKeys(b) :: !Waits(w, k)
  {
    hide BlockKeys;
    BlockKeysAt(b);
    var keys := BlockKeys(b);
    if b.Scan? {
      forall j | 0 <= j < |b.fixes| && b.fixes[j].Some?
        ensures Computable(w, b.fixes[j].value, done, b.alias, j) <==> !Waits(w, keys[j])
      {
        assert keys[j] == Key(b.alias, j, Primary, b.fixes[j]);
      }
      forall k <- keys | Waits(w, k) ensures exists j | 0 <= j < |b.fixes| :: b.fixes[j].Some? && Waits(w, keys[j]) {
        var j :| 0 <= j < |keys| && keys[j] == k;
      }
      assert forall j | 0 <= j < |b.fixes| :: keys[j] in keys;
    }
  }

  /** Blocks depend on earlier ones only, exactly if no key waits. */
  lemma {:induction false} OrderedIff(w: Schema, bs: seq<Block>, done: set<nat>)
    requires Lined(w, bs, done)
    ensures Ordered(w, bs, done) <==> forall k <- Flatten(bs) :: !Waits(w, k)
  {
    hide BlockLoose, BlockReady, BlockKeys, Waits;
    if bs != [] {
      BlockReadyIff(w, bs[0], done);
      OrderedIff(w, bs[1..], done + {bs[0].alias});
      var x, y := BlockKeys(bs[0]), Flatten(bs[1..]);
      assert Flatten(bs) == x + y;
      assert forall k :: k in x + y <==> k in x || k in y;
    }
  }

  lemma LaidHasKeys(w: Schema, st: Access, bs: seq<Block>, a: nat, c: nat)
    requires Laid(w, st, bs) && a in w && c < w[a]
    ensures KeyIndex(st.keys, a, c) >= 0
  {
    hide Flatten, Lined, KeyIndex, BlockKeys;
    var i :| 0 <= i < |bs| && bs[i].alias == a;
    LinedAt(w, bs, {}, i);
    FlattenAround(bs, i);
    BlockKeysAt(bs[i]);
    var k := |Flatten(bs[..i])| + if bs[i].Scan? then c else c + 1;
    InBlock(w, bs, i, k);
    assert st.keys[k].alias == a && st.keys[k].column == c;
  }

  lemma RunnableIff(w: Schema, st: Access, bs: seq<Block>)
    requires Laid(w, st, bs)
    ensures Runnable(w, st.keys) <==> Ordered(w, bs, {})
    ensures Runnable(w, st.keys) <==> forall k <- st.keys :: !Waits(w, k)
  {
    hide Flatten, Lined, Ordered, KeyIndex, Waits;
    OrderedIff(w, bs, {});
    forall a <- w.Keys, c | 0 <= c < w[a] ensures KeyIndex(st.keys, a, c) >= 0 { LaidHasKeys(w, st, bs, a, c); }
  }

  // ----- The result is the same -----

  /** Equalities between columns and constants compare values. Whether Null equals Null is left open: SQL
      says Unknown, the generated M code says True. Nothing is asked of other tests. */
  ghost predicate SqlEquality(db: Db, i: Choice -> Interp) {
    forall s: Choice, x: Operand, y: Operand | !x.Computed? && !y.Computed? ::
      && (i(s)(Atom(Equals, x, y)) == True ==> ValueOf(db, x, s) == ValueOf(db, y, s))
      && (ValueOf(db, x, s) == ValueOf(db, y, s) != Null ==> i(s)(Atom(Equals, x, y)) == True)
  }

  /** The rows a plan selects: those its loops visit and its condition accepts. */
  ghost predicate Selects(db: Db, keys: seq<Key>, e: Expr, i: Choice -> Interp, s: Choice) {
    Visited(db, keys, s) && Eval(e, i(s)) == True
  }

  lemma ImpliedMeans(db: Db, i: Choice -> Interp, e: Expr, a: nat, c: nat, v: Operand, s: Choice)
    requires SqlEquality(db, i) && Implied(e, a, c, v) && Eval(e, i(s)) == True && !v.Computed?
    requires a in db.tables && a in s
    ensures ColumnOf(db.tables[a], s[a], c) == ValueOf(db, v, s)
  {
    var x := Column(a, c);
    assert ValueOf(db, x, s) == ColumnOf(db.tables[a], s[a], c);
    assert i(s)(Atom(Equals, x, v)) == True || i(s)(Atom(Equals, v, x)) == True;
  }

  /** Fixed keys and cross references select exactly what advancing every key and filtering does. */
  lemma FixedKeysSelectTheSame(db: Db, i: Choice -> Interp, bs: seq<Block>, e: Expr, s: Choice)
    requires ValidDb(db) && SqlEquality(db, i) && Ordered(Widths(db), bs, {}) && Aliases(bs) == db.tables.Keys
    requires Backed(bs, e)
    requires AllBuilt(db, Flatten(bs))
    ensures Selects(db, Flatten(bs), e, i, s) <==> Scanned(db, s) && Eval(e, i(s)) == True
  {
    hide Flatten, Ordered, Reach, Implied, SqlEquality, ValidDb;
    VisitedIff(db, bs, s);
    if Scanned(db, s) && Eval(e, i(s)) == True {
      forall b <- bs ensures ValidBlock(Widths(db), b) && Meets(db, b, s) {
        OrderedParts(Widths(db), bs, {}, b);
        BlockMeets(db, i, b, e, s);
      }
    }
  }

  lemma {:induction false} OrderedParts(w: Schema, bs: seq<Block>, done: set<nat>, b: Block)
    requires Ordered(w, bs, done) && b in bs
    ensures ValidBlock(w, b) && NoneComputed(b)
  {
    if b != bs[0] { OrderedParts(w, bs[1..], done + {bs[0].alias}, b); }
  }

  predicate NoneComputed(b: Block) {
    match b
    case Scan(_, fixes) => forall j | 0 <= j < |fixes| && fixes[j].Some? :: !fixes[j].value.Computed?
    case Index(_, _, v, _) => !v.Computed?
  }

  lemma BlockMeets(db: Db, i: Choice -> Interp, b: Block, e: Expr, s: Choice)
    requires SqlEquality(db, i) && ValidBlock(Widths(db), b) && NoneComputed(b) && BlockBacked(b, e)
    requires Eval(e, i(s)) == True && b.alias in s
    ensures Meets(db, b, s)
  {
    hide SqlEquality, Implied;
    match b
    case Scan(a, fixes) =>
      forall j | 0 <= j < |fixes| && fixes[j].Some?
        ensures ColumnOf(db.tables[a], s[a], j) == ValueOf(db, fixes[j].value, s)
      {
        ImpliedMeans(db, i, e, a, j, fixes[j].value, s);
      }
    case Index(a, c, v, _) => ImpliedMeans(db, i, e, a, c, v, s);
  }

  // ----- The condition is exact -----

  /** No loop gets past a key that waits for itself or for a later key of its table. */
  lemma WaitingStops(db: Db, bs: seq<Block>, i: nat, c: nat, env: Env)
    requires ValidDb(db) && Lined(Widths(db), bs, {}) && i < |bs| && bs[i].Scan? && c < |bs[i].fixes|
    requires Waits(Widths(db), Key(bs[i].alias, c, Primary, bs[i].fixes[c]))
    ensures !Reach(db, Flatten(bs), map[], env)
  {
    hide Flatten, Lined, Reach, ValidTable, Bind, ValueAt;
    var b, a := bs[i], bs[i].alias;
    LinedAt(Widths(db), bs, {}, i);
    FlattenAliases(bs[..i]);
    FlattenAround(bs, i);
    if Reach(db, Flatten(bs), map[], env) {
      var mid' := ReachSplits(db, Flatten(bs[..i]) + BlockKeys(b), Flatten(bs[i + 1..]), map[], env);
      var mid := ReachSplits(db, Flatten(bs[..i]), BlockKeys(b), map[], mid');
      UntouchedCell(db, Flatten(bs[..i]), map[], mid, a, b.fixes[c].value.column);
      var row := BlockReached(db, b, mid, mid');
      RowValues(db, a, row);
      assert row[c] == ValueAt(db, b.fixes[c].value, Bind(mid, a, row, 0, c));
      NotSetYet(db, mid, a, row, c, b.fixes[c].value.column);
    }
  }

  lemma NotSetYet(db: Db, env: Env, a: nat, row: seq<Scalar>, c: nat, d: nat)
    requires Read(env, (a, d)) == Null && c <= d && c <= |row| && a in db.tables && d < db.tables[a].width
    ensures ValueAt(db, Column(a, d), Bind(env, a, row, 0, c)) == Null
  {
    BindReads(env, a, row, 0, c);
  }

  lemma RowValues(db: Db, a: nat, row: seq<Scalar>)
    requires ValidDb(db) && a in db.tables && row in db.tables[a].rows
    ensures |row| == db.tables[a].width && forall c | 0 <= c < |row| :: row[c] != Null
  {}

  lemma WaitingVisitsNothing(db: Db, bs: seq<Block>, k: Key, s: Choice)
    requires ValidDb(db) && Lined(Widths(db), bs, {}) && k in Flatten(bs) && Waits(Widths(db), k)
    ensures !Visited(db, Flatten(bs), s)
  {
    hide Flatten, Lined, Reach, Emits, BlockKeys;
    if Visited(db, Flatten(bs), s) {
      var env :| Reach(db, Flatten(bs), map[], env) && Emits(db, env, s);
      var i, c := WaitingBlock(bs, k);
      WaitingStops(db, bs, i, c, env);
    }
  }

  lemma {:induction false} WaitingBlock(bs: seq<Block>, k: Key) returns (i: nat, c: nat)
    requires k in Flatten(bs) && k.kind.Primary?
    ensures i < |bs| && bs[i].Scan? && c < |bs[i].fixes| && k == Key(bs[i].alias, c, Primary, bs[i].fixes[c])
  {
    hide BlockKeys;
    BlockKeysAt(bs[0]);
    if k in BlockKeys(bs[0]) {
      i := 0;
      c :| 0 <= c < |BlockKeys(bs[0])| && BlockKeys(bs[0])[c] == k;
    } else {
      i, c := WaitingBlock(bs[1..], k);
      i := i + 1;
    }
  }

  /** A key column that no loop sets shows up as Null. */
  lemma UnsetIsNull(db: Db, keys: seq<Key>, a: nat, c: nat, s: Choice)
    requires ValidDb(db) && a in db.tables && c < db.tables[a].width && Visited(db, keys, s)
    requires KeyIndex(keys, a, c) < 0
    ensures a in s && |s[a]| == db.tables[a].width && s[a][c] == Null
  {
    hide Reach, ValidTable, KeyIndex;
    var env :| Reach(db, keys, map[], env) && Emits(db, env, s);
    forall k <- keys ensures !(k.alias == a && k.column == c) { var j :| 0 <= j < |keys| && keys[j] == k; }
    UntouchedCell(db, keys, map[], env, a, c);
  }

  /** After the pass a row of the FROM list for which the condition is true is visited if and only if every
      key column has a key and none waits for itself or for a later key of its table. */
  lemma VisitedIffRunnable(db: Db, i: Choice -> Interp, order: Order, st: Access, e: Expr, s: Choice)
    requires ValidDb(db) && SqlEquality(db, i) && Stands(Widths(db), order, st, e) && AllBuilt(db, st.keys)
    requires Scanned(db, s) && Eval(e, i(s)) == True
    ensures Visited(db, st.keys, s) <==> Runnable(Widths(db), st.keys)
  {
    hide Flatten, Lined, Ordered, SqlEquality, Backed, ValidDb, KeyIndex, Visited, OrderFits, Waits, Eval;
    var w := Widths(db);
    if Lost(w, st) {
      var a, c :| a in w && c < w[a] && Dropped(st, a, c);
      RowOf(db, a, s);
      if Visited(db, st.keys, s) { UnsetIsNull(db, st.keys, a, c, s); }
    } else {
      var bs :| Laid(w, st, bs) && OrderFits(order, bs) && Backed(bs, e);
      RunnableIff(w, st, bs);
      if Runnable(w, st.keys) {
        FixedKeysSelectTheSame(db, i, bs, e, s);
      } else {
        var k :| k in st.keys && Waits(w, k);
        WaitingVisitsNothing(db, bs, k, s);
      }
    }
  }

  lemma RowOf(db: Db, a: nat, s: Choice)
    requires ValidDb(db) && Scanned(db, s) && a in db.tables
    ensures a in s && |s[a]| == db.tables[a].width && forall c | 0 <= c < |s[a]| :: s[a][c] != Null
  {
    RowValues(db, a, s[a]);
  }

  /** An equality between two key columns of a table keeps the result exactly if the right column comes
      first in the key. */
  lemma SelfEqualityIff(db: Db, i: Choice -> Interp, order: Order, st: Access, bs: seq<Block>, n: nat, c: nat, d: nat,
          e: Expr, s: Choice)
    requires ValidDb(db) && SqlEquality(db, i) && Laid(Widths(db), st, bs) && OrderFits(order, bs) && Backed(bs, e)
    requires Runnable(Widths(db), st.keys)
    requires n < |bs| && bs[n].Scan? && c < |bs[n].fixes| && d < |bs[n].fixes| && bs[n].fixes[c].None?
    requires Entails(e, Atom(Equals, Column(bs[n].alias, c), Column(bs[n].alias, d)))
    requires AllBuilt(db, FixAtom(order, st, Atom(Equals, Column(bs[n].alias, c), Column(bs[n].alias, d))).keys)
    requires Scanned(db, s) && Eval(e, i(s)) == True
    ensures Visited(db, FixAtom(order, st, Atom(Equals, Column(bs[n].alias, c), Column(bs[n].alias, d))).keys, s)
      <==> d < c
  {
    hide Flatten, Lined, SqlEquality, Backed, Apply, ValidDb, BlockKeys, KeyIndex, Visited, Eval, Waits, Runnable,
      Entails;
    var a, w := bs[n].alias, Widths(db);
    var at := Atom(Equals, Column(a, c), Column(a, d));
    LinedAt(w, bs, {}, n);
    KeyFound(w, st, bs, n, c);
    KeyFound(w, st, bs, n, d);
    var st' := FixAtom(order, st, at);
    assert st' == Apply(st, Fix(a, c, Column(a, d)));
    StepKeeps(w, order, st, at, e);
    VisitedIffRunnable(db, i, order, st', e, s);
    SelfFixRunnable(w, st, bs, n, c, d);
  }

  lemma SelfFixRunnable(w: Schema, st: Access, bs: seq<Block>, n: nat, c: nat, d: nat)
    requires Laid(w, st, bs) && Runnable(w, st.keys)
    requires n < |bs| && bs[n].Scan? && c < |bs[n].fixes| && d < |bs[n].fixes| && bs[n].fixes[c].None?
    ensures Runnable(w, Apply(st, Fix(bs[n].alias, c, Column(bs[n].alias, d))).keys) <==> d < c
  {
    hide Flatten, Lined, BlockKeys, KeyIndex, Waits;
    var a, p := bs[n].alias, |Flatten(bs[..n])| + c;
    LinedAt(w, bs, {}, n);
    KeyFound(w, st, bs, n, c);
    FlattenAround(bs, n);
    BlockKeysAt(bs[n]);
    InBlock(w, bs, n, p);
    var k := Key(a, c, Primary, Some(Column(a, d)));
    var keys := st.keys[p := k];
    assert st.keys[p] == Key(a, c, Primary, None);
    WaitsIff(w, a, c, d);
    assert k == keys[p] && k in keys;
    SameKeys(st.keys, keys);
    forall x <- keys | x != k ensures x in st.keys { var j :| 0 <= j < |keys| && keys[j] == x; }
  }

  lemma WaitsIff(w: Schema, a: nat, c: nat, d: nat)
    requires a in w && d < w[a]
    ensures Waits(w, Key(a, c, Primary, Some(Column(a, d)))) <==> c <= d
  {}

  lemma SameKeys(keys: seq<Key>, keys': seq<Key>)
    requires |keys| == |keys'|
    requires forall j | 0 <= j < |keys| :: keys[j].alias == keys'[j].alias && keys[j].column == keys'[j].column
    ensures forall a, c :: KeyIndex(keys, a, c) == KeyIndex(keys', a, c)
  {
    hide KeyIndex;
    forall a, c ensures KeyIndex(keys, a, c) == KeyIndex(keys', a, c) {
      var k, k' := KeyIndex(keys, a, c), KeyIndex(keys', a, c);
      assert k >= 0 ==> keys'[k].alias == a && keys'[k].column == c;
      assert k' >= 0 ==> keys[k'].alias == a && keys[k'].column == c;
    }
  }

  /** Looking a column up through a cross reference keeps the result exactly if the table has one key
      column or its keys are the last. */
  lemma SpliceIff(db: Db, i: Choice -> Interp, order: Order, st: Access, bs: seq<Block>, n: nat, c: nat, v: Operand,
          e: Expr, s: Choice)
    requires ValidDb(db) && SqlEquality(db, i) && Laid(Widths(db), st, bs) && OrderFits(order, bs) && Backed(bs, e)
    requires Runnable(Widths(db), st.keys) && n < |bs| && bs[n].Scan? && c >= |bs[n].fixes|
    requires forall j <- st.joins :: j.width >= 1
    requires Computable(Widths(db), v, Aliases(bs[..n]), bs[n].alias, 0) && Implied(e, bs[n].alias, c, v)
    requires Scanned(db, s) && Eval(e, i(s)) == True && AllBuilt(db, Apply(st, Fix(bs[n].alias, c, v)).keys)
    ensures Visited(db, Apply(st, Fix(bs[n].alias, c, v)).keys, s)
      <==> Widths(db)[bs[n].alias] == 1 || n == |bs| - 1
  {
    hide Flatten, Lined, SqlEquality, Backed, Apply, ValidDb, BlockKeys, KeyIndex, Visited, Eval, Waits, Implied,
      Runnable, Computable;
    var a, w := bs[n].alias, Widths(db);
    var st' := Apply(st, Fix(a, c, v));
    LinedAt(w, bs, {}, n);
    if w[a] == 1 || n == |bs| - 1 {
      var bs' := SpliceStep(w, order, st, bs, n, c, v, e);
      SpliceRunnable(w, st, bs, n, c, v, bs');
    } else {
      SpliceDrops(w, st, bs, n, c, v);
      DroppedStops(w, st', a, 1);
    }
    VisitedIffRunnable(db, i, order, st', e, s);
  }

  lemma SpliceRunnable(w: Schema, st: Access, bs: seq<Block>, n: nat, c: nat, v: Operand, bs': seq<Block>)
    requires Laid(w, st, bs) && Runnable(w, st.keys) && n < |bs| && bs[n].Scan? && c >= |bs[n].fixes|
    requires Laid(w, Apply(st, Fix(bs[n].alias, c, v)), bs')
    ensures Runnable(w, Apply(st, Fix(bs[n].alias, c, v)).keys)
  {
    hide Flatten, Lined, Apply, BlockKeys, KeyIndex, RowKeys, Ordered;
    var a := bs[n].alias;
    var st' := Apply(st, Fix(a, c, v));
    ApplySplice(w, st, bs, n, c, v);
    LinedAt(w, bs, {}, n);
    RowKeysAt(a, IndexRow(c), Free(w[a]), 0);
    FlattenAround(bs, n);
    var row := RowKeys(a, IndexRow(c), Free(w[a]), 0);
    forall k <- st'.keys ensures !Waits(w, k) {
      assert k in Flatten(bs[..n]) || k == Key(a, c, IndexHead, Some(v)) || k in row || k in Flatten(bs[n + 1..]);
    }
    RunnableIff(w, st', bs');
  }

  lemma DroppedStops(w: Schema, st: Access, a: nat, c: nat)
    requires Dropped(st, a, c) && a in w && c < w[a]
    ensures Lost(w, st) && !Runnable(w, st.keys)
  {
    hide KeyIndex;
  }

  // ----- Two queries that lose a row -----

  /** Table 1 has the row (1, 2), whose other columns are 7; table 2 has the row (3). */
  function TwoTables(): Db {
    Db(map[1 := Table(2, {[Val(1), Val(2)]}, (row, c) => Val(7)), 2 := Table(1, {[Val(3)]}, (row, c) => Null)],
       (a, c) => Null, map[(1, 5) := {[Val(7), Val(1), Val(2)]}])
  }

  const BOTH_SCANNED: seq<Block> := [Scan(1, [None, None]), Scan(2, [None])]
  const BOTH_ROWS: Choice := map[1 := [Val(1), Val(2)], 2 := [Val(3)]]
  const BOTH_PATH: Access := Access(Flatten(BOTH_SCANNED), [Join(1, 2, false), Join(2, 1, false)])
  const SEVEN: Expr := Test(Atom(Equals, Column(1, 5), Constant(Val(7))))

  lemma TwoTablesValid()
    ensures ValidDb(TwoTables()) && Widths(TwoTables()) == map[1 := 2, 2 := 1] && Scanned(TwoTables(), BOTH_ROWS)
    ensures ValueOf(TwoTables(), Column(1, 5), BOTH_ROWS) == Val(7)
  {
    TwoTablesHold(TwoTables());
    SevensBuilt(TwoTables().tables[1]);
    hide ValidTable, Entries;
    assert forall x <- TwoTables().xrefs.Keys :: x == (1, 5);
  }

  lemma TwoTablesHold(db: Db)
    requires db == TwoTables()
    ensures db.tables.Keys == {1, 2} && ValidTable(db.tables[1]) && ValidTable(db.tables[2])
    ensures ColumnOf(db.tables[1], [Val(1), Val(2)], 5) == Val(7)
  {}

  lemma SevensBuilt(t: Table)
    requires t.rows == {[Val(1), Val(2)]} && t.width == 2 && ColumnOf(t, [Val(1), Val(2)], 5) == Val(7)
    ensures Entries(t, 5) == {[Val(7), Val(1), Val(2)]}
  {
    assert [Val(7)] + [Val(1), Val(2)] == [Val(7), Val(1), Val(2)];
  }

  lemma BothLaid()
    ensures Laid(map[1 := 2, 2 := 1], BOTH_PATH, BOTH_SCANNED) && OrderFits(OrderOf(BOTH_PATH.keys), BOTH_SCANNED)
    ensures Backed(BOTH_SCANNED, SEVEN) && Runnable(map[1 := 2, 2 := 1], BOTH_PATH.keys)
  {
    var w, bs := map[1 := 2, 2 := 1], BOTH_SCANNED;
    BothLined();
    hide Flatten, OrderFits, Runnable, OrderOf, Lined, Ordered;
    OrderOfFits(w, BOTH_PATH, bs);
    RunnableIff(w, BOTH_PATH, bs);
  }

  lemma BothLined()
    ensures var w := map[1 := 2, 2 := 1]; Lined(w, BOTH_SCANNED, {}) && Ordered(w, BOTH_SCANNED, {})
    ensures Aliases(BOTH_SCANNED) == {1, 2}
  {
    var w, bs := map[1 := 2, 2 := 1], BOTH_SCANNED;
    assert bs[1..] == [Scan(2, [None])] && bs[1..][1..] == [];
    assert Lined(w, bs[1..], {} + {1}) && Ordered(w, bs[1..], {} + {1});
  }

  lemma BothBuilt()
    ensures AllBuilt(TwoTables(), Apply(BOTH_PATH, Fix(1, 5, Constant(Val(7)))).keys)
  {
    var k0, k1, k2 := Key(1, 0, Primary, None), Key(1, 1, Primary, None), Key(2, 0, Primary, None);
    assert BOTH_SCANNED[1..] == [Scan(2, [None])] && BOTH_SCANNED[1..][1..] == [];
    var keys := BOTH_PATH.keys;
    assert keys == [k0, k1, k2];
    assert keys[0..] == keys && keys[1..] == [k1, k2] && keys[1..][1..] == [k2];
    assert RunOf([k2], 1) == 0 && RunOf([k1, k2], 1) == 1 && RunOf(keys, 1) == 2;
    assert keys[2..] == [k2];
    assert JoinIndex(BOTH_PATH.joins, 1) == 0;
  }

  lemma SevenSplices()
    ensures (forall j <- BOTH_PATH.joins :: j.width >= 1)
    ensures FixTree(OrderOf(BOTH_PATH.keys), BOTH_PATH, SEVEN) == Apply(BOTH_PATH, Fix(1, 5, Constant(Val(7))))
  {
    BothLaid();
    hide Flatten, OrderOf, Apply, Laid;
  }

  /** With c = 7 in the WHERE, looking the column c of the first table up loses the row, because the
      table's second key column is no longer set. */
  lemma SpliceLosesRow(i: Choice -> Interp)
    requires SqlEquality(TwoTables(), i)
    ensures Scanned(TwoTables(), BOTH_ROWS) && Eval(SEVEN, i(BOTH_ROWS)) == True
    ensures (forall j <- BOTH_PATH.joins :: j.width >= 1)
    ensures !Visited(TwoTables(), FixTree(OrderOf(BOTH_PATH.keys), BOTH_PATH, SEVEN).keys, BOTH_ROWS)
  {
    TwoTablesValid();
    BothLaid();
    BothBuilt();
    Sevens(TwoTables(), i);
    SevenImplied();
    SevenSplices();
    hide Flatten, Laid, Implied, Computable, Backed, Eval, OrderFits, Visited, Apply, OrderOf, SqlEquality, TwoTables,
      ValidDb, Scanned, Widths, ValueOf, FixTree, Runnable;
    SpliceIff(TwoTables(), i, OrderOf(BOTH_PATH.keys), BOTH_PATH, BOTH_SCANNED, 0, 5, Constant(Val(7)), SEVEN,
      BOTH_ROWS);
  }

  lemma SevenImplied()
    ensures Implied(SEVEN, 1, 5, Constant(Val(7)))
    ensures Computable(map[1 := 2, 2 := 1], Constant(Val(7)), Aliases(BOTH_SCANNED[..0]), 1, 0)
  {}

  lemma Sevens(db: Db, i: Choice -> Interp)
    requires SqlEquality(db, i) && ValueOf(db, Column(1, 5), BOTH_ROWS) == Val(7)
    ensures Eval(SEVEN, i(BOTH_ROWS)) == True
  {
    assert ValueOf(db, Column(1, 5), BOTH_ROWS) == ValueOf(db, Constant(Val(7)), BOTH_ROWS);
  }

  /** One table with the row (4, 4). */
  function OneTable(): Db { Db(map[1 := Table(2, {[Val(4), Val(4)]}, (row, c) => Null)], (a, c) => Null, map[]) }

  const ONE_SCANNED: seq<Block> := [Scan(1, [None, None])]
  const ONE_ROW: Choice := map[1 := [Val(4), Val(4)]]
  const ONE_PATH: Access := Access(Flatten(ONE_SCANNED), [Join(1, 2, false)])
  const SAME_KEYS: Atom := Atom(Equals, Column(1, 0), Column(1, 1))

  lemma OneTableValid()
    ensures ValidDb(OneTable()) && Widths(OneTable()) == map[1 := 2] && Scanned(OneTable(), ONE_ROW)
  {}

  lemma OneLaid()
    ensures Laid(map[1 := 2], ONE_PATH, ONE_SCANNED) && OrderFits(OrderOf(ONE_PATH.keys), ONE_SCANNED)
    ensures Backed(ONE_SCANNED, Test(SAME_KEYS)) && Runnable(map[1 := 2], ONE_PATH.keys)
  {
    assert ONE_SCANNED[1..] == [];
    assert Aliases(ONE_SCANNED) == {1};
    hide Flatten, OrderFits, Runnable;
    OrderOfFits(map[1 := 2], ONE_PATH, ONE_SCANNED);
    RunnableIff(map[1 := 2], ONE_PATH, ONE_SCANNED);
  }

  lemma OneBuilt()
    ensures AllBuilt(OneTable(), FixAtom(OrderOf(ONE_PATH.keys), ONE_PATH, SAME_KEYS).keys)
  {
    var k0, k1 := Key(1, 0, Primary, None), Key(1, 1, Primary, None);
    assert ONE_SCANNED[1..] == [];
    assert ONE_PATH.keys == [k0, k1];
  }

  /** With k0 = k1 in the WHERE, k0 is fixed to a k1 that is not set yet, and the row (4, 4) is lost. */
  lemma SelfEqualityLosesRow(i: Choice -> Interp)
    requires SqlEquality(OneTable(), i)
    ensures Scanned(OneTable(), ONE_ROW) && Eval(Test(SAME_KEYS), i(ONE_ROW)) == True
    ensures (forall j <- ONE_PATH.joins :: j.width >= 1)
    ensures !Visited(OneTable(), FixAtom(OrderOf(ONE_PATH.keys), ONE_PATH, SAME_KEYS).keys, ONE_ROW)
  {
    OneTableValid();
    OneLaid();
    OneBuilt();
    assert ValueOf(OneTable(), Column(1, 0), ONE_ROW) == ValueOf(OneTable(), Column(1, 1), ONE_ROW);
    assert i(ONE_ROW)(SAME_KEYS) == True;
    hide Flatten, Laid, OrderFits, Visited, OrderOf, SqlEquality, OneTable, ValidDb, Scanned, Widths, ValueOf, FixAtom;
    SelfEqualityIff(OneTable(), i, OrderOf(ONE_PATH.keys), ONE_PATH, ONE_SCANNED, 0, 0, 1, Test(SAME_KEYS), ONE_ROW);
  }

  const FOUR: Atom := Atom(Equals, Column(1, 0), Constant(Val(4)))

  /** The path of the table when its first key has the value v. */
  function OnePath(v: Option<Operand>): Access {
    Access([Key(1, 0, Primary, v), Key(1, 1, Primary, None)], [Join(1, 2, false)])
  }

  lemma OnePathIs()
    ensures ONE_PATH == OnePath(None) && OrderOf(ONE_PATH.keys) == map[1 := 2]
  {
    var k0, k1 := Key(1, 0, Primary, None), Key(1, 1, Primary, None);
    assert ONE_SCANNED[1..] == [];
    assert ONE_PATH.keys == [k0, k1];
    assert [k0, k1][..1] == [k0] && [k0][..0] == [];
    assert OrderOf([k0]) == map[1 := 1];
  }

  lemma FixFirstKey(v: Option<Operand>, x: Operand)
    requires x in {Constant(Val(4)), Column(1, 1)}
    ensures (forall j <- OnePath(v).joins :: j.width >= 1)
    ensures FixAtom(map[1 := 2], OnePath(v), Atom(Equals, Column(1, 0), x)) == OnePath(if v.None? then Some(x) else v)
  {
    TwoKeys(v);
    hide KeyIndex;
    var keys := OnePath(v).keys;
    var k := FixKey(keys[0], x);
    assert keys[0 := k] == OnePath(if v.None? then Some(x) else v).keys;
    assert FixAtom(map[1 := 2], OnePath(v), Atom(Equals, Column(1, 0), x)) == OnePath(v).(keys := keys[0 := k]);
  }

  /** Whichever of k0 = 4 and k0 = k1 comes first fixes k0, and the other one no longer does. */
  lemma FirstConjunctFixes(x: Operand, y: Operand)
    requires x in {Constant(Val(4)), Column(1, 1)} && y in {Constant(Val(4)), Column(1, 1)}
    ensures (forall j <- ONE_PATH.joins :: j.width >= 1)
    ensures var first, second := Test(Atom(Equals, Column(1, 0), x)), Test(Atom(Equals, Column(1, 0), y));
      FixTree(OrderOf(ONE_PATH.keys), ONE_PATH, And(first, second)) == OnePath(Some(x))
  {
    OnePathIs();
    FixFirstKey(None, x);
    FixFirstKey(Some(x), y);
    hide OnePath, FixAtom, OrderOf;
  }

  lemma TwoKeys(v: Option<Operand>)
    ensures var keys := [Key(1, 0, Primary, v), Key(1, 1, Primary, None)];
      KeyIndex(keys, 1, 0) == 0 && KeyIndex(keys, 1, 1) == 1
  {}

  /** The row (4, 4) is found with k0 = 4 AND k0 = k1 in the WHERE, and lost with k0 = k1 AND k0 = 4. */
  lemma SwappedConjunctsLoseRow(i: Choice -> Interp)
    requires SqlEquality(OneTable(), i)
    ensures Eval(And(Test(FOUR), Test(SAME_KEYS)), i(ONE_ROW)) == True && Scanned(OneTable(), ONE_ROW)
    ensures (forall j <- ONE_PATH.joins :: j.width >= 1)
    ensures Visited(OneTable(), FixTree(OrderOf(ONE_PATH.keys), ONE_PATH, And(Test(FOUR), Test(SAME_KEYS))).keys,
      ONE_ROW)
    ensures !Visited(OneTable(), FixTree(OrderOf(ONE_PATH.keys), ONE_PATH, And(Test(SAME_KEYS), Test(FOUR))).keys,
      ONE_ROW)
  {
    OneTableValid();
    BothHold(i);
    hide Flatten, FixTree, OrderOf, Visited, SqlEquality, OneTable, ValueOf, OnePath, Scanned, ValidDb;
    FirstConjunctFixes(Constant(Val(4)), Column(1, 1));
    FirstConjunctFixes(Column(1, 1), Constant(Val(4)));
    FirstFixedVisits(i, Constant(Val(4)));
    FirstFixedVisits(i, Column(1, 1));
  }

  lemma BothHold(i: Choice -> Interp)
    requires SqlEquality(OneTable(), i)
    ensures i(ONE_ROW)(SAME_KEYS) == True && i(ONE_ROW)(FOUR) == True
  {
    assert ValueOf(OneTable(), Column(1, 0), ONE_ROW) == ValueOf(OneTable(), Column(1, 1), ONE_ROW) == Val(4);
    assert ValueOf(OneTable(), Constant(Val(4)), ONE_ROW) == Val(4);
  }

  lemma FirstFixedVisits(i: Choice -> Interp, v: Operand)
    requires SqlEquality(OneTable(), i) && v in {Constant(Val(4)), Column(1, 1)}
    requires i(ONE_ROW)(Atom(Equals, Column(1, 0), v)) == True
    ensures Visited(OneTable(), OnePath(Some(v)).keys, ONE_ROW) <==> v.Constant?
  {
    var e := Test(Atom(Equals, Column(1, 0), v));
    FirstFixedStands(v, e);
    OneTableValid();
    FirstFixedRunnable(OneTable(), v);
    hide Stands, Runnable, Visited, SqlEquality, OneTable, ValidDb, Scanned, OnePath, Widths, AllBuilt;
    VisitedIffRunnable(OneTable(), i, map[1 := 2], OnePath(Some(v)), e, ONE_ROW);
  }

  lemma FirstFixedRunnable(db: Db, v: Operand)
    requires v in {Constant(Val(4)), Column(1, 1)}
    ensures Runnable(map[1 := 2], OnePath(Some(v)).keys) <==> v.Constant?
    ensures AllBuilt(db, OnePath(Some(v)).keys)
  {
    TwoKeys(Some(v));
    hide KeyIndex;
    var keys := OnePath(Some(v)).keys;
    assert keys[0] in keys && keys[1] in keys;
    assert Waits(map[1 := 2], keys[0]) <==> !v.Constant?;
  }

  lemma FirstFixedStands(v: Operand, e: Expr)
    requires v in {Constant(Val(4)), Column(1, 1)} && e == Test(Atom(Equals, Column(1, 0), v))
    ensures Stands(map[1 := 2], map[1 := 2], OnePath(Some(v)), e)
  {
    var bs := [Scan(1, [Some(v), None])];
    assert bs[1..] == [];
    BlockKeysAt(bs[0]);
    assert Flatten(bs) == OnePath(Some(v)).keys;
    assert Aliases(bs) == {1};
    assert Laid(map[1 := 2], OnePath(Some(v)), bs) && OrderFits(map[1 := 2], bs) && Backed(bs, e);
  }
}
