/** Running a plan's loops: a fixed key is looked up, a free key advances with $ORDER, and the cross
    references that the keys are read from are built first. */
module Loops {
  import opened Where
  import opened Enumeration

  // ----- One loop -----

  /** $ORDER: the next subscript, or Null when there is none left. */
  method NextSubscript(subscripts: set<Scalar>, after: Scalar) returns (next: Scalar)
    ensures next == Null ==> forall v <- subscripts :: !Follows(v, after)
    ensures next != Null ==> next in subscripts && Follows(next, after)
    ensures next != Null ==> forall v <- subscripts :: Follows(v, after) ==> v == next || Follows(v, next)
  {
    next := Null;
    var rest := subscripts;
    while rest != {}
      invariant rest <= subscripts
      invariant next == Null ==> forall v <- subscripts - rest :: !Follows(v, after)
      invariant next != Null ==> next in subscripts && Follows(next, after)
      invariant next != Null ==> forall v <- subscripts - rest :: Follows(v, after) ==> v == next || Follows(v, next)
      decreases rest
    {
      var v :| v in rest;
      if Follows(v, after) && (next == Null || Follows(next, v)) { next := v; }
      rest := rest - {v};
    }
  }

  /** The subscripts at the place of key k, below the loop variables set so far. */
  function Subscripts(db: Db, k: Key, env: Env): set<Scalar> {
    set row <- ReadFrom(db, k) | Continues(k, env, row) :: KeyValue(k, row)
  }

  predicate Ascending(vs: seq<Scalar>) { forall m, n | 0 <= m < n < |vs| :: Follows(vs[n], vs[m]) }

  /** The free key's loop: from the empty subscript on, until $ORDER returns it again. */
  method Advance(subscripts: set<Scalar>) returns (vs: seq<Scalar>)
    ensures Ascending(vs) && forall v :: v in vs <==> v in subscripts && v != Null
  {
    vs := [];
    var v := NextSubscript(subscripts, Null);
    ghost var left := subscripts;
    while v != Null
      invariant v != Null ==> v in left
      invariant forall x :: x in left <==> x in subscripts && x !in vs
      invariant Ascending(vs) && forall x <- vs :: v != Null ==> Follows(v, x)
      invariant forall x :: x in vs <==> x in subscripts && x != Null && (v == Null || Follows(v, x))
      decreases left
    {
      vs := vs + [v];
      left := left - {v};
      v := NextSubscript(subscripts, v);
    }
  }

  /** The values a key takes in turn. */
  method KeyValues(db: Db, k: Key, env: Env) returns (vs: seq<Scalar>)
    ensures forall v :: v in vs <==> Admits(db, k, env, v)
    ensures Ascending(vs)
  {
    hide ValueAt, ReadFrom, Continues, KeyValue;
    if k.value.Some? {
      var v := ValueAt(db, k.value.value, env);
      vs := if v in Subscripts(db, k, env) then [v] else [];
    } else {
      vs := Advance(Subscripts(db, k, env));
    }
  }

  // ----- Nested loops -----

  function Variable(k: Key): Cell { (k.alias, k.column) }

  predicate DistinctCells(keys: seq<Key>) {
    forall m, n | 0 <= m < n < |keys| :: Variable(keys[m]) != Variable(keys[n])
  }

  /** env comes before env' when they are compared key by key. */
  predicate Before(keys: seq<Key>, env: Env, env': Env) {
    keys != [] && var v, v' := Read(env, Variable(keys[0])), Read(env', Variable(keys[0]));
    Follows(v', v) || (v == v' && Before(keys[1..], env, env'))
  }

  lemma {:induction false} BeforeDiffers(keys: seq<Key>, env: Env, env': Env)
    requires Before(keys, env, env')
    ensures env != env'
  {
    if Read(env, Variable(keys[0])) == Read(env', Variable(keys[0])) { BeforeDiffers(keys[1..], env, env'); }
  }

  ghost predicate InKeyOrder(keys: seq<Key>, envs: seq<Env>) {
    forall m, n | 0 <= m < n < |envs| :: Before(keys, envs[m], envs[n])
  }

  /** The first loop variable keeps its value in the inner loops. */
  lemma FirstCellKept(db: Db, keys: seq<Key>, env: Env, v: Scalar, env': Env)
    requires keys != [] && DistinctCells(keys) && Reach(db, keys[1..], env[Variable(keys[0]) := v], env')
    ensures Read(env', Variable(keys[0])) == v
  {
    forall k <- keys[1..] ensures !(k.alias == keys[0].alias && k.column == keys[0].column) {
      var n :| 0 < n < |keys| && keys[n] == k;
    }
    UntouchedCell(db, keys[1..], env[Variable(keys[0]) := v], env', keys[0].alias, keys[0].column);
  }

  /** The innermost body is reached with env' in the turn of the first loop that sets v. */
  ghost predicate Through(db: Db, keys: seq<Key>, env: Env, v: Scalar, env': Env)
    requires keys != []
  {
    Reach(db, keys[1..], env[Variable(keys[0]) := v], env')
  }

  /** One more turn of the outer loop. */
  lemma OneMoreTurn(keys: seq<Key>, envs: seq<Env>, inner: seq<Env>, vs: seq<Scalar>, v: Scalar)
    requires keys != [] && InKeyOrder(keys, envs) && InKeyOrder(keys[1..], inner) && Ascending(vs + [v])
    requires forall e <- envs :: Read(e, Variable(keys[0])) in vs
    requires forall e <- inner :: Read(e, Variable(keys[0])) == v
    ensures InKeyOrder(keys, envs + inner)
  {
    var all := envs + inner;
    forall m, n | 0 <= m < n < |all| ensures Before(keys, all[m], all[n]) {
      if n >= |envs| {
        assert all[n] in inner;
        if m < |envs| {
          assert all[m] in envs;
          var j :| 0 <= j < |vs| && vs[j] == Read(all[m], Variable(keys[0]));
          assert Follows((vs + [v])[|vs|], (vs + [v])[j]);
        } else {
          assert all[m] in inner;
        }
      }
    }
  }

  /** The nested loops of a plan get to their innermost body once for each way through the keys, in
      the order of the keys. */
  method RunLoops(db: Db, keys: seq<Key>, env: Env) returns (envs: seq<Env>)
    ensures forall e :: e in envs <==> Reach(db, keys, env, e)
    ensures DistinctCells(keys) ==> InKeyOrder(keys, envs)
    decreases |keys|
  {
    hide Admits, Before, Follows;
    envs := [];
    if keys == [] { return [env]; }
    var vs := KeyValues(db, keys[0], env);
    var n := 0;
    while n < |vs|
      invariant 0 <= n <= |vs|
      invariant forall e :: e in envs <==> exists v <- vs[..n] :: Through(db, keys, env, v, e)
      invariant DistinctCells(keys) ==> InKeyOrder(keys, envs) && forall e <- envs ::
        Read(e, Variable(keys[0])) in vs[..n]
    {
      var inner := RunLoops(db, keys[1..], env[Variable(keys[0]) := vs[n]]);
      assert vs[..n + 1] == vs[..n] + [vs[n]];
      assert forall e :: e in inner <==> Through(db, keys, env, vs[n], e);
      if DistinctCells(keys) {
        forall e <- inner ensures Read(e, Variable(keys[0])) == vs[n] { FirstCellKept(db, keys, env, vs[n], e); }
        OneMoreTurn(keys, envs, inner, vs[..n], vs[n]);
      }
      envs := envs + inner;
      n := n + 1;
    }
    assert vs[..n] == vs;
  }

  // ----- The rows -----

  predicate Unique<T(==)>(xs: seq<T>) { forall m, n | 0 <= m < n < |xs| :: xs[m] != xs[n] }

  lemma UniqueMore<T>(xs: seq<T>, x: T)
    requires Unique(xs) && x !in xs
    ensures Unique(xs + [x])
  {}

  /** The rows that the loop variables stand at. */
  function RowsAt(db: Db, env: Env): (s: Choice)
    ensures Emits(db, env, s)
  {
    map a <- db.tables.Keys :: RowAt(env, a, db.tables[a].width)
  }

  lemma BlockCells(w: Schema, b: Block)
    requires ValidBlock(w, b)
    ensures DistinctCells(BlockKeys(b))
  {
    BlockKeysAt(b);
  }

  /** No two loops of a plan share a variable. */
  lemma {:induction false} PlanCells(w: Schema, bs: seq<Block>, done: set<nat>)
    requires Ordered(w, bs, done)
    ensures DistinctCells(Flatten(bs))
  {
    if bs != [] {
      hide BlockReady;
      BlockCells(w, bs[0]);
      PlanCells(w, bs[1..], done + {bs[0].alias});
      LaterAliases(w, bs[1..], done + {bs[0].alias});
      FlattenAliases(bs[1..]);
      BlockKeysAt(bs[0]);
      var x, y := BlockKeys(bs[0]), Flatten(bs[1..]);
      forall m, n | 0 <= m < n < |x + y| ensures Variable((x + y)[m]) != Variable((x + y)[n]) {
        if m < |x| <= n { assert x[m] in x && y[n - |x|] in y; }
      }
    }
  }

  lemma BlockLeftAt(db: Db, bs: seq<Block>, done: set<nat>, env: Env, mid: Env, env': Env) returns (row: seq<Scalar>)
    requires ValidDb(db) && bs != [] && Ordered(Widths(db), bs, done)
    requires Reach(db, BlockKeys(bs[0]), env, mid) && Reach(db, Flatten(bs[1..]), mid, env')
    ensures |row| == db.tables[bs[0].alias].width && mid == BlockEnv(db, bs[0], env, row)
    ensures row == RowAt(env', bs[0].alias, |row|)
  {
    hide Reach, Entries, ColumnOf, BlockReady, ValueAt;
    var b := bs[0];
    row := BlockReached(db, b, env, mid);
    BlockEnvReads(db, b, env, row);
    LaterAliases(Widths(db), bs[1..], done + {b.alias});
    FlattenAliases(bs[1..]);
    forall c: nat ensures Read(env', (b.alias, c)) == Read(mid, (b.alias, c)) {
      UntouchedCell(db, Flatten(bs[1..]), mid, env', b.alias, c);
    }
    assert RowAt(env', b.alias, |row|) == RowAt(mid, b.alias, |row|);
  }

  /** The rows determine all loop variables: what a cross reference was entered with is read off its row. */
  lemma {:induction false} RowsNameTheTurn(db: Db, bs: seq<Block>, done: set<nat>, env: Env, e1: Env, e2: Env)
    requires ValidDb(db) && Ordered(Widths(db), bs, done)
    requires Reach(db, Flatten(bs), env, e1) && Reach(db, Flatten(bs), env, e2)
    requires forall a <- Aliases(bs) ::
      a in db.tables ==> RowAt(e1, a, db.tables[a].width) == RowAt(e2, a, db.tables[a].width)
    ensures e1 == e2
  {
    if bs != [] {
      hide Reach, ValidDb, BlockEnv, BlockReady, BlockKeys;
      var a := bs[0].alias;
      var m1 := ReachSplits(db, BlockKeys(bs[0]), Flatten(bs[1..]), env, e1);
      var m2 := ReachSplits(db, BlockKeys(bs[0]), Flatten(bs[1..]), env, e2);
      var r1 := BlockLeftAt(db, bs, done, env, m1, e1);
      var r2 := BlockLeftAt(db, bs, done, env, m2, e2);
      assert a in Aliases(bs) && a in db.tables;
      RowsNameTheTurn(db, bs[1..], done + {a}, m1, e1, e2);
    }
  }

  /** The loops of a well-ordered plan list every choice of rows that they visit once. */
  method ListRows(db: Db, keys: seq<Key>, ghost bs: seq<Block>) returns (rows: seq<Choice>)
    requires ValidDb(db) && keys == Flatten(bs) && Ordered(Widths(db), bs, {}) && Aliases(bs) == db.tables.Keys
    ensures Unique(rows) && forall s :: s in rows <==> Visited(db, keys, s)
  {
    hide Reach, ValidDb, Ordered, Flatten, DistinctCells, InKeyOrder, Emits, RowsAt;
    PlanCells(Widths(db), bs, {});
    var envs := RunLoops(db, keys, map[]);
    rows := seq(|envs|, n requires 0 <= n < |envs| => RowsAt(db, envs[n]));
    forall m, n | 0 <= m < n < |rows| ensures rows[m] != rows[n] {
      TurnsDiffer(db, bs, envs, m, n);
    }
    forall s ensures s in rows <==> Visited(db, keys, s) { ListedIff(db, keys, envs, rows, s); }
  }

  lemma TurnsDiffer(db: Db, bs: seq<Block>, envs: seq<Env>, m: nat, n: nat)
    requires ValidDb(db) && Ordered(Widths(db), bs, {}) && InKeyOrder(Flatten(bs), envs) && m < n < |envs|
    requires forall e <- envs :: Reach(db, Flatten(bs), map[], e)
    ensures RowsAt(db, envs[m]) != RowsAt(db, envs[n])
  {
    hide Reach, ValidDb, Ordered, Flatten, Before, RowAt;
    BeforeDiffers(Flatten(bs), envs[m], envs[n]);
    if RowsAt(db, envs[m]) == RowsAt(db, envs[n]) {
      var s := RowsAt(db, envs[m]);
      forall a <- Aliases(bs) | a in db.tables
        ensures RowAt(envs[m], a, db.tables[a].width) == RowAt(envs[n], a, db.tables[a].width)
      {
        assert a in s && s[a] == RowAt(envs[m], a, db.tables[a].width);
      }
      RowsNameTheTurn(db, bs, {}, map[], envs[m], envs[n]);
    }
  }

  lemma ListedIff(db: Db, keys: seq<Key>, envs: seq<Env>, rows: seq<Choice>, s: Choice)
    requires forall e :: e in envs <==> Reach(db, keys, map[], e)
    requires |rows| == |envs| && forall n | 0 <= n < |rows| :: rows[n] == RowsAt(db, envs[n])
    ensures s in rows <==> Visited(db, keys, s)
  {
    hide Reach, RowAt;
    if s in rows {
      var n :| 0 <= n < |rows| && rows[n] == s;
      assert envs[n] in envs;
    }
    if Visited(db, keys, s) {
      var e :| Reach(db, keys, map[], e) && Emits(db, e, s);
      var n :| 0 <= n < |envs| && envs[n] == e;
      assert s == rows[n];
    }
  }

  // ----- Building cross references -----

  lemma ScanReachIff(db: Db, a: nat, env: Env)
    requires ValidDb(db) && a in db.tables
    ensures var t := db.tables[a];
      Reach(db, RowKeys(a, Primary, Free(t.width), 0), map[], env) <==>
        exists row <- t.rows :: env == Bind(map[], a, row, 0, t.width)
  {
    hide Reach, Bind, Entries, ColumnOf, ValueAt, RowKeys;
    var t := db.tables[a];
    if Reach(db, RowKeys(a, Primary, Free(t.width), 0), map[], env) {
      var row := RowsReached(db, a, Primary, Free(t.width), 0, map[], env);
    }
    forall row <- t.rows
      ensures Reach(db, RowKeys(a, Primary, Free(t.width), 0), map[], Bind(map[], a, row, 0, t.width))
    {
      RowsReachable(db, a, Primary, Free(t.width), 0, map[], row);
    }
  }

  lemma BoundRow(a: nat, row: seq<Scalar>)
    ensures RowAt(Bind(map[], a, row, 0, |row|), a, |row|) == row
  {
    BindReads(map[], a, row, 0, |row|);
  }

  /** The plan of lp_generate_xref_plan: scan the table, and for each row note down the column and the keys. */
  method BuildXref(db: Db, a: nat, c: nat) returns (entries: set<seq<Scalar>>)
    requires ValidDb(db) && a in db.tables
    ensures entries == Entries(db.tables[a], c)
  {
    hide Reach, Bind, ColumnOf, RowAt, RowKeys, ValidTable;
    var t := db.tables[a];
    var envs := RunLoops(db, RowKeys(a, Primary, Free(t.width), 0), map[]);
    entries := {};
    var n := 0;
    while n < |envs|
      invariant 0 <= n <= |envs|
      invariant forall x :: x in entries <==>
        exists e <- envs[..n] :: x == [ColumnOf(t, RowAt(e, a, t.width), c)] + RowAt(e, a, t.width)
    {
      var row := RowAt(envs[n], a, t.width);
      entries := entries + {[ColumnOf(t, row, c)] + row};
      n := n + 1;
    }
    EntriesOfScan(db, a, c, envs, entries);
  }

  lemma EntriesOfScan(db: Db, a: nat, c: nat, envs: seq<Env>, entries: set<seq<Scalar>>)
    requires ValidDb(db) && a in db.tables
    requires forall e :: e in envs <==> Reach(db, RowKeys(a, Primary, Free(db.tables[a].width), 0), map[], e)
    requires var t := db.tables[a];
      forall x :: x in entries <==>
        exists e <- envs :: x == [ColumnOf(t, RowAt(e, a, t.width), c)] + RowAt(e, a, t.width)
    ensures entries == Entries(db.tables[a], c)
  {
    hide Reach, Bind, ColumnOf, RowAt, RowKeys;
    var t := db.tables[a];
    forall x <- entries ensures x in Entries(t, c) {
      var e :| e in envs && x == [ColumnOf(t, RowAt(e, a, t.width), c)] + RowAt(e, a, t.width);
      ScanReachIff(db, a, e);
      var row :| row in t.rows && e == Bind(map[], a, row, 0, t.width);
      BoundRow(a, row);
    }
    forall row <- t.rows ensures [ColumnOf(t, row, c)] + row in entries {
      var e := Bind(map[], a, row, 0, t.width);
      ScanReachIff(db, a, e);
      BoundRow(a, row);
      assert e in envs;
    }
  }

  function XrefOf(k: Key): Cell { (k.alias, if k.kind.IndexRow? then k.kind.indexed else k.column) }

  lemma BuiltIff(db: Db, k: Key)
    ensures Built(db, k) <==> k.kind.Primary? || XrefOf(k) in db.xrefs
  {}

  /** The same tables, and no cross reference lost. */
  ghost predicate Reindexed(db: Db, db': Db) {
    && db'.tables == db.tables && db'.parent == db.parent
    && forall x <- db.xrefs.Keys :: x in db'.xrefs && db'.xrefs[x] == db.xrefs[x]
  }

  lemma ReindexedTwice(db: Db, db': Db, db'': Db)
    requires Reindexed(db, db') && Reindexed(db', db'')
    ensures Reindexed(db, db'')
  {}

  /** What a plan does before its loops: build the cross references that are missing. */
  method Populate(db: Db, keys: seq<Key>) returns (db': Db)
    requires ValidDb(db) && forall k <- keys :: !k.kind.Primary? ==> k.alias in db.tables
    ensures ValidDb(db') && Reindexed(db, db') && AllBuilt(db', keys)
  {
    hide Entries, ValidTable, Built;
    db' := db;
    var n := 0;
    while n < |keys|
      invariant 0 <= n <= |keys|
      invariant ValidDb(db') && Reindexed(db, db') && AllBuilt(db', keys[..n])
    {
      var k := keys[n];
      ghost var before := db';
      if !k.kind.Primary? && XrefOf(k) !in db'.xrefs {
        var entries := BuildXref(db', k.alias, XrefOf(k).1);
        db' := db'.(xrefs := db'.xrefs[XrefOf(k) := entries]);
      }
      BuiltIff(db', k);
      forall j <- keys[..n] ensures Built(db', j) { BuiltIff(before, j); BuiltIff(db', j); }
      n := n + 1;
    }
    assert keys[..n] == keys;
  }
}
