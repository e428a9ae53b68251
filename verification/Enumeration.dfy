/** What a list of iteration keys enumerates: one nested loop per key over an abstract table store. */
module Enumeration {
  import opened Where

  datatype Option<T> = None | Some(value: T)

  // ----- Tables -----

  /** A table is a set of rows named by their key columns 0 .. width - 1; `cell` gives the other columns. */
  datatype Table = Table(width: nat, rows: set<seq<Scalar>>, cell: (seq<Scalar>, nat) -> Scalar)

  type Cell = (nat, nat)

  /** The tables by alias, the columns of enclosing queries, and the cross references that have been
      built, by alias and column. An entry of a cross reference is a column value and a row. */
  datatype Db = Db(tables: map<nat, Table>, parent: (nat, nat) -> Scalar, xrefs: map<Cell, set<seq<Scalar>>>)

  ghost predicate ValidTable(t: Table) {
    t.width >= 1 && forall row <- t.rows :: |row| == t.width && forall j | 0 <= j < t.width :: row[j] != Null
  }

  /** Tables have rows of their width, and whatever cross reference there is has the right entries. */
  ghost predicate ValidDb(db: Db) {
    && (forall a <- db.tables.Keys :: ValidTable(db.tables[a]))
    && forall x <- db.xrefs.Keys :: x.0 in db.tables && db.xrefs[x] == Entries(db.tables[x.0], x.1)
  }

  /** One entry for each row: the column, then the row. */
  function Entries(t: Table, column: nat): set<seq<Scalar>> {
    set row <- t.rows :: [ColumnOf(t, row, column)] + row
  }

  /** The cross reference of a column; one that has not been built has no entries. */
  function Xref(db: Db, a: nat, column: nat): set<seq<Scalar>> {
    if (a, column) in db.xrefs then db.xrefs[(a, column)] else {}
  }

  function ColumnOf(t: Table, row: seq<Scalar>, column: nat): Scalar {
    if column < t.width then (if column < |row| then row[column] else Null) else t.cell(row, column)
  }

  // ----- Loops -----

  /** Primary: a table's own key. IndexHead: the value a cross reference is entered with. IndexRow: a
      key read from the cross reference on column `indexed`. */
  datatype KeyKind = Primary | IndexHead | IndexRow(indexed: nat)

  /** One loop; `value` is what the key is fixed to, if it is. */
  datatype Key = Key(alias: nat, column: nat, kind: KeyKind, value: Option<Operand>)

  /** The loop variables set so far. */
  type Env = map<Cell, Scalar>

  function Read(env: Env, c: Cell): Scalar { if c in env then env[c] else Null }

  function RowAt(env: Env, a: nat, width: nat): seq<Scalar> { seq(width, (j: nat) => Read(env, (a, j))) }

  function ValueAt(db: Db, op: Operand, env: Env): Scalar {
    match op
    case Column(a, c) =>
      if a !in db.tables then db.parent(a, c)
      else if c < db.tables[a].width then Read(env, (a, c))
      else ColumnOf(db.tables[a], RowAt(env, a, db.tables[a].width), c)
    case Constant(v) => v
    case Computed(_) => Null
  }

  predicate Agrees(env: Env, a: nat, row: seq<Scalar>, n: nat)
    requires n <= |row|
  {
    forall j | 0 <= j < n :: Read(env, (a, j)) == row[j]
  }

  /** The value of key k in a row or an entry it can stand at. */
  function KeyValue(k: Key, row: seq<Scalar>): Scalar {
    match k.kind
    case Primary => if k.column < |row| then row[k.column] else Null
    case IndexHead => if row != [] then row[0] else Null
    case IndexRow(_) => if k.column + 1 < |row| then row[k.column + 1] else Null
  }

  /** The row or entry goes on from the loop variables set so far. */
  predicate Continues(k: Key, env: Env, row: seq<Scalar>) {
    match k.kind
    case Primary => k.column < |row| && Agrees(env, k.alias, row, k.column)
    case IndexHead => row != []
    case IndexRow(c) =>
      k.column + 1 < |row| && row[0] == Read(env, (k.alias, c)) && Agrees(env, k.alias, row[1..], k.column)
  }

  /** What key k is read from: its table, or the cross reference of a column. */
  function ReadFrom(db: Db, k: Key): set<seq<Scalar>> {
    match k.kind
    case Primary => if k.alias in db.tables then db.tables[k.alias].rows else {}
    case IndexHead => Xref(db, k.alias, k.column)
    case IndexRow(c) => Xref(db, k.alias, c)
  }

  /** A fixed key takes its value, if there is data for it; a free key advances through all but Null. */
  predicate Asked(db: Db, k: Key, env: Env, v: Scalar) {
    if k.value.Some? then v == ValueAt(db, k.value.value, env) else v != Null
  }

  /** The values the loop of key k runs through inside loops that have set env. */
  predicate Admits(db: Db, k: Key, env: Env, v: Scalar) {
    && Asked(db, k, env, v)
    && exists row <- ReadFrom(db, k) :: Continues(k, env, row) && KeyValue(k, row) == v
  }

  /** `row` of the table shows that key k may take the value v. */
  ghost predicate Leads(t: Table, k: Key, env: Env, v: Scalar, row: seq<Scalar>)
    requires |row| == t.width
  {
    match k.kind
    case Primary => k.column < t.width && Agrees(env, k.alias, row, k.column) && row[k.column] == v
    case IndexHead => ColumnOf(t, row, k.column) == v
    case IndexRow(c) =>
      && k.column < t.width && Agrees(env, k.alias, row, k.column) && row[k.column] == v
      && ColumnOf(t, row, c) == Read(env, (k.alias, c))
  }

  /** The index agrees with the table: every value a loop runs through comes from a row of the table. */
  lemma AdmittedRow(db: Db, k: Key, env: Env, v: Scalar) returns (row: seq<Scalar>)
    requires ValidDb(db) && Admits(db, k, env, v)
    ensures k.alias in db.tables && row in db.tables[k.alias].rows && |row| == db.tables[k.alias].width
    ensures Leads(db.tables[k.alias], k, env, v, row) && Asked(db, k, env, v)
  {
    hide ValueAt;
    var r :| r in ReadFrom(db, k) && Continues(k, env, r) && KeyValue(k, r) == v;
    if k.kind.Primary? {
      row := r;
    } else {
      var c := if k.kind.IndexHead? then k.column else k.kind.indexed;
      assert (k.alias, c) in db.xrefs;
      var t := db.tables[k.alias];
      row :| row in t.rows && r == [ColumnOf(t, row, c)] + row;
      assert r[1..] == row;
    }
  }

  /** The cross reference that a key is read from has been built. */
  predicate Built(db: Db, k: Key) {
    match k.kind
    case Primary => true
    case IndexHead => (k.alias, k.column) in db.xrefs
    case IndexRow(c) => (k.alias, c) in db.xrefs
  }

  /** And every row of the table is found through it. */
  lemma RowAdmitted(db: Db, k: Key, env: Env, v: Scalar, row: seq<Scalar>)
    requires ValidDb(db) && k.alias in db.tables && row in db.tables[k.alias].rows && |row| == db.tables[k.alias].width
    requires Leads(db.tables[k.alias], k, env, v, row) && Built(db, k) && Asked(db, k, env, v)
    ensures Admits(db, k, env, v)
  {
    if k.kind.Primary? {
      assert Continues(k, env, row) && KeyValue(k, row) == v;
    } else {
      var c := if k.kind.IndexHead? then k.column else k.kind.indexed;
      var t := db.tables[k.alias];
      var r := [ColumnOf(t, row, c)] + row;
      assert r in Entries(t, c) && r[1..] == row;
      assert Continues(k, env, r) && KeyValue(k, r) == v;
    }
  }

  /** The nested loops of `keys`, entered with env, get to their innermost body with env'. */
  ghost predicate Reach(db: Db, keys: seq<Key>, env: Env, env': Env) {
    if keys == [] then env == env'
    else
      exists v ::
        Admits(db, keys[0], env, v) && Reach(db, keys[1..], env[(keys[0].alias, keys[0].column) := v], env')
  }

  /** A choice of one row per alias. */
  type Choice = map<nat, seq<Scalar>>

  ghost predicate Emits(db: Db, env: Env, s: Choice) {
    s.Keys == db.tables.Keys && forall a <- s.Keys :: s[a] == RowAt(env, a, db.tables[a].width)
  }

  ghost predicate Visited(db: Db, keys: seq<Key>, s: Choice) {
    exists env :: Reach(db, keys, map[], env) && Emits(db, env, s)
  }

  /** Every alias stands at one of its table's rows. */
  ghost predicate Scanned(db: Db, s: Choice) {
    s.Keys == db.tables.Keys && forall a <- s.Keys :: s[a] in db.tables[a].rows
  }

  /** The value of an operand once all aliases have their rows. */
  ghost function ValueOf(db: Db, op: Operand, s: Choice): Scalar {
    match op
    case Column(a, c) =>
      if a !in db.tables then db.parent(a, c) else if a in s then ColumnOf(db.tables[a], s[a], c) else Null
    case Constant(v) => v
    case Computed(_) => Null
  }

  // ----- Loops come in blocks, one per table -----

  /** The loops of one table: its own keys, some of them fixed, or a cross reference entered with a value. */
  datatype Block =
    | Scan(alias: nat, fixes: seq<Option<Operand>>)
    | Index(alias: nat, column: nat, value: Operand, width: nat)

  function RowKeys(a: nat, kind: KeyKind, fixes: seq<Option<Operand>>, j: nat): seq<Key>
    requires j <= |fixes|
    decreases |fixes| - j
  {
    if j == |fixes| then [] else [Key(a, j, kind, fixes[j])] + RowKeys(a, kind, fixes, j + 1)
  }

  function Free(width: nat): seq<Option<Operand>> { seq(width, _ => None) }

  function BlockKeys(b: Block): seq<Key> {
    match b
    case Scan(a, fixes) => RowKeys(a, Primary, fixes, 0)
    case Index(a, c, v, w) => [Key(a, c, IndexHead, Some(v))] + RowKeys(a, IndexRow(c), Free(w), 0)
  }

  function Flatten(bs: seq<Block>): seq<Key> {
    if bs == [] then [] else BlockKeys(bs[0]) + Flatten(bs[1..])
  }

  function Aliases(bs: seq<Block>): set<nat> { set b <- bs :: b.alias }

  lemma {:induction false} RowKeysAt(a: nat, kind: KeyKind, fixes: seq<Option<Operand>>, j: nat)
    requires j <= |fixes|
    ensures |RowKeys(a, kind, fixes, j)| == |fixes| - j
    ensures forall m | 0 <= m < |fixes| - j :: RowKeys(a, kind, fixes, j)[m] == Key(a, j + m, kind, fixes[j + m])
    decreases |fixes| - j
  {
    if j < |fixes| {
      RowKeysAt(a, kind, fixes, j + 1);
      forall m | 0 < m < |fixes| - j ensures RowKeys(a, kind, fixes, j)[m] == Key(a, j + m, kind, fixes[j + m]) {
        assert RowKeys(a, kind, fixes, j)[m] == RowKeys(a, kind, fixes, j + 1)[m - 1];
      }
    }
  }

  lemma BlockKeysAt(b: Block)
    ensures b.Scan? ==> |BlockKeys(b)| == |b.fixes| && forall m | 0 <= m < |b.fixes| ::
      BlockKeys(b)[m] == Key(b.alias, m, Primary, b.fixes[m])
    ensures b.Index? ==> |BlockKeys(b)| == 1 + b.width
    ensures b.Index? ==> BlockKeys(b)[0] == Key(b.alias, b.column, IndexHead, Some(b.value))
    ensures b.Index? ==> forall m | 0 < m <= b.width :: BlockKeys(b)[m] == Key(b.alias, m - 1, IndexRow(b.column), None)
    ensures forall k <- BlockKeys(b) :: k.alias == b.alias
  {
    match b
    case Scan(a, fixes) => RowKeysAt(a, Primary, fixes, 0);
    case Index(a, c, _, w) =>
      RowKeysAt(a, IndexRow(c), Free(w), 0);
      forall m | 0 < m <= w ensures BlockKeys(b)[m] == Key(a, m - 1, IndexRow(c), None) {
        assert BlockKeys(b)[m] == RowKeys(a, IndexRow(c), Free(w), 0)[m - 1];
        assert Free(w)[m - 1] == None;
      }
  }

  lemma {:induction false} FlattenAliases(bs: seq<Block>)
    ensures forall k <- Flatten(bs) :: k.alias in Aliases(bs)
  {
    if bs != [] {
      BlockKeysAt(bs[0]);
      FlattenAliases(bs[1..]);
    }
  }

  /** The columns j .. m - 1 of alias a set to those of row. */
  ghost function Bind(env: Env, a: nat, row: seq<Scalar>, j: nat, m: nat): Env
    requires j <= m <= |row|
    decreases m - j
  {
    if j == m then env else Bind(env[(a, j) := row[j]], a, row, j + 1, m)
  }

  lemma {:induction false} BindReads(env: Env, a: nat, row: seq<Scalar>, j: nat, m: nat)
    requires j <= m <= |row|
    ensures forall b: nat, c: nat ::
      Read(Bind(env, a, row, j, m), (b, c)) == if b == a && j <= c < m then row[c] else Read(env, (b, c))
    decreases m - j
  {
    if j < m { BindReads(env[(a, j) := row[j]], a, row, j + 1, m); }
  }

  lemma {:induction false} BindSplits(env: Env, a: nat, row: seq<Scalar>, j: nat, k: nat, m: nat)
    requires j <= k <= m <= |row|
    ensures Bind(env, a, row, j, m) == Bind(Bind(env, a, row, j, k), a, row, k, m)
    decreases k - j
  {
    if j < k { BindSplits(env[(a, j) := row[j]], a, row, j + 1, k, m); }
  }

  /** The loops over the rest of a row end at a row of the table, and at every one that meets the fixes. */
  ghost predicate RowOk(db: Db, a: nat, kind: KeyKind, fixes: seq<Option<Operand>>, j: nat, env: Env, row: seq<Scalar>)
    requires ValidDb(db) && a in db.tables && |fixes| == db.tables[a].width && j <= |fixes|
  {
    && row in db.tables[a].rows && Agrees(env, a, row, j)
    && (forall m | j <= m < |fixes| && fixes[m].Some? :: row[m] == ValueAt(db, fixes[m].value, Bind(env, a, row, j, m)))
    && (kind.IndexRow? ==> ColumnOf(db.tables[a], row, kind.indexed) == Read(env, (a, kind.indexed)))
  }

  ghost predicate KindOk(kind: KeyKind, width: nat) {
    kind.Primary? || (kind.IndexRow? && kind.indexed >= width)
  }

  lemma RowOkBefore(db: Db, a: nat, kind: KeyKind, fixes: seq<Option<Operand>>, j: nat, env: Env, v: Scalar,
          row: seq<Scalar>)
    requires ValidDb(db) && a in db.tables && |fixes| == db.tables[a].width && j < |fixes| && KindOk(kind, |fixes|)
    requires Admits(db, Key(a, j, kind, fixes[j]), env, v)
    requires RowOk(db, a, kind, fixes, j + 1, env[(a, j) := v], row)
    ensures RowOk(db, a, kind, fixes, j, env, row) && row[j] == v
  {
    var r := AdmittedRow(db, Key(a, j, kind, fixes[j]), env, v);
    var env1 := env[(a, j) := v];
    assert Read(env1, (a, j)) == row[j];
    assert forall i | 0 <= i < j :: Read(env1, (a, i)) == Read(env, (a, i));
    forall m | j <= m < |fixes| && fixes[m].Some?
      ensures row[m] == ValueAt(db, fixes[m].value, Bind(env, a, row, j, m))
    {
      if m > j { assert Bind(env, a, row, j, m) == Bind(env1, a, row, j + 1, m); }
    }
  }

  lemma {:induction false} RowsReached(db: Db, a: nat, kind: KeyKind, fixes: seq<Option<Operand>>, j: nat, env: Env,
          env': Env)
    returns (row: seq<Scalar>)
    requires ValidDb(db) && a in db.tables && |fixes| == db.tables[a].width && j < |fixes| && KindOk(kind, |fixes|)
    requires Reach(db, RowKeys(a, kind, fixes, j), env, env')
    ensures RowOk(db, a, kind, fixes, j, env, row) && env' == Bind(env, a, row, j, |fixes|)
    decreases |fixes| - j
  {
    hide Admits, ColumnOf, ValueAt, ValidDb;
    var keys := RowKeys(a, kind, fixes, j);
    assert keys[1..] == RowKeys(a, kind, fixes, j + 1);
    var v :| Admits(db, keys[0], env, v) && Reach(db, keys[1..], env[(a, j) := v], env');
    if j + 1 == |fixes| {
      row := AdmittedRow(db, keys[0], env, v);
    } else {
      row := RowsReached(db, a, kind, fixes, j + 1, env[(a, j) := v], env');
      RowOkBefore(db, a, kind, fixes, j, env, v, row);
    }
  }

  lemma {:induction false} RowsReachable(db: Db, a: nat, kind: KeyKind, fixes: seq<Option<Operand>>, j: nat, env: Env,
          row: seq<Scalar>)
    requires ValidDb(db) && a in db.tables && |fixes| == db.tables[a].width && j <= |fixes| && KindOk(kind, |fixes|)
    requires RowOk(db, a, kind, fixes, j, env, row) && (kind.IndexRow? ==> (a, kind.indexed) in db.xrefs)
    ensures Reach(db, RowKeys(a, kind, fixes, j), env, Bind(env, a, row, j, |fixes|))
    decreases |fixes| - j
  {
    hide Admits, ColumnOf, ValueAt;
    if j < |fixes| {
      var keys := RowKeys(a, kind, fixes, j);
      assert keys[1..] == RowKeys(a, kind, fixes, j + 1);
      var env1 := env[(a, j) := row[j]];
      assert Leads(db.tables[a], keys[0], env, row[j], row);
      assert fixes[j].Some? ==> row[j] == ValueAt(db, fixes[j].value, Bind(env, a, row, j, j));
      RowAdmitted(db, keys[0], env, row[j], row);
      forall m | j + 1 <= m < |fixes| && fixes[m].Some?
        ensures row[m] == ValueAt(db, fixes[m].value, Bind(env1, a, row, j + 1, m))
      {
        assert Bind(env, a, row, j, m) == Bind(env1, a, row, j + 1, m);
      }
      RowsReachable(db, a, kind, fixes, j + 1, env1, row);
    }
  }

  // ----- A block -----

  /** The number of key columns by alias. */
  type Schema = map<nat, nat>

  ghost function Widths(db: Db): Schema { map a <- db.tables.Keys :: db.tables[a].width }

  predicate ValidBlock(w: Schema, b: Block) {
    && b.alias in w
    && match b
       case Scan(a, fixes) => |fixes| == w[a]
       case Index(a, c, _, width) => width == w[a] && c >= width
  }

  ghost predicate BlockOk(db: Db, b: Block, env: Env, row: seq<Scalar>)
    requires ValidDb(db) && ValidBlock(Widths(db), b)
  {
    match b
    case Scan(a, fixes) => RowOk(db, a, Primary, fixes, 0, env, row)
    case Index(a, c, v, _) =>
      row in db.tables[a].rows && ColumnOf(db.tables[a], row, c) == ValueAt(db, v, env)
  }

  ghost function BlockEnv(db: Db, b: Block, env: Env, row: seq<Scalar>): Env
    requires ValidBlock(Widths(db), b) && |row| == db.tables[b.alias].width
  {
    match b
    case Scan(a, _) => Bind(env, a, row, 0, |row|)
    case Index(a, c, _, _) => Bind(env[(a, c) := ColumnOf(db.tables[a], row, c)], a, row, 0, |row|)
  }

  predicate BlockBuilt(db: Db, b: Block) { b.Index? ==> (b.alias, b.column) in db.xrefs }

  lemma BlockReached(db: Db, b: Block, env: Env, env': Env) returns (row: seq<Scalar>)
    requires ValidDb(db) && ValidBlock(Widths(db), b) && Reach(db, BlockKeys(b), env, env')
    ensures BlockOk(db, b, env, row) && env' == BlockEnv(db, b, env, row)
  {
    hide Admits, ColumnOf, ValueAt, Entries;
    match b
    case Scan(a, fixes) => row := RowsReached(db, a, Primary, fixes, 0, env, env');
    case Index(a, c, v, w) =>
      var keys := BlockKeys(b);
      assert keys[1..] == RowKeys(a, IndexRow(c), Free(w), 0);
      var x :| Admits(db, keys[0], env, x) && Reach(db, keys[1..], env[(a, c) := x], env');
      var r := AdmittedRow(db, keys[0], env, x);
      row := RowsReached(db, a, IndexRow(c), Free(w), 0, env[(a, c) := x], env');
  }

  lemma BlockReachable(db: Db, b: Block, env: Env, row: seq<Scalar>)
    requires ValidDb(db) && ValidBlock(Widths(db), b) && BlockOk(db, b, env, row) && BlockBuilt(db, b)
    ensures Reach(db, BlockKeys(b), env, BlockEnv(db, b, env, row))
  {
    match b
    case Scan(a, fixes) => RowsReachable(db, a, Primary, fixes, 0, env, row);
    case Index(a, c, v, w) =>
      var keys := BlockKeys(b);
      assert keys[1..] == RowKeys(a, IndexRow(c), Free(w), 0);
      var x := ColumnOf(db.tables[a], row, c);
      assert Leads(db.tables[a], keys[0], env, x, row);
      RowAdmitted(db, keys[0], env, x, row);
      RowsReachable(db, a, IndexRow(c), Free(w), 0, env[(a, c) := x], row);
  }

  // ----- Block after block -----

  lemma {:induction false} ReachSplits(db: Db, k1: seq<Key>, k2: seq<Key>, env: Env, env': Env) returns (mid: Env)
    requires ValidDb(db) && Reach(db, k1 + k2, env, env')
    ensures Reach(db, k1, env, mid) && Reach(db, k2, mid, env')
  {
    if k1 == [] {
      assert k1 + k2 == k2;
      mid := env;
    } else {
      var keys := k1 + k2;
      assert keys[1..] == k1[1..] + k2;
      var v :| Admits(db, keys[0], env, v) && Reach(db, keys[1..], env[(keys[0].alias, keys[0].column) := v], env');
      mid := ReachSplits(db, k1[1..], k2, env[(keys[0].alias, keys[0].column) := v], env');
    }
  }

  lemma {:induction false} ReachJoins(db: Db, k1: seq<Key>, k2: seq<Key>, env: Env, mid: Env, env': Env)
    requires ValidDb(db) && Reach(db, k1, env, mid) && Reach(db, k2, mid, env')
    ensures Reach(db, k1 + k2, env, env')
  {
    if k1 == [] {
      assert k1 + k2 == k2;
    } else {
      hide Admits, ValidDb;
      var keys := k1 + k2;
      assert keys[1..] == k1[1..] + k2;
      var v :| Admits(db, k1[0], env, v) && Reach(db, k1[1..], env[(k1[0].alias, k1[0].column) := v], mid);
      ReachJoins(db, k1[1..], k2, env[(k1[0].alias, k1[0].column) := v], mid, env');
      assert keys[0] == k1[0];
      assert Admits(db, keys[0], env, v) && Reach(db, keys[1..], env[(keys[0].alias, keys[0].column) := v], env');
    }
  }

  /** The operand can be evaluated when the aliases in `done` have their rows and the first j key
      columns of alias a are set: no circular dependency. */
  predicate Computable(w: Schema, op: Operand, done: set<nat>, a: nat, j: nat) {
    match op
    case Column(b, c) => b !in w || b in done || (b == a && c < j)
    case Constant(_) => true
    case Computed(_) => false
  }

  predicate BlockReady(w: Schema, b: Block, done: set<nat>) {
    match b
    case Scan(a, fixes) => forall j | 0 <= j < |fixes| && fixes[j].Some? :: Computable(w, fixes[j].value, done, a, j)
    case Index(a, _, v, _) => Computable(w, v, done, a, 0)
  }

  /** One block per table, each depending on earlier ones only. */
  predicate Ordered(w: Schema, bs: seq<Block>, done: set<nat>) {
    bs == [] || (ValidBlock(w, bs[0]) && bs[0].alias !in done && BlockReady(w, bs[0], done)
      && Ordered(w, bs[1..], done + {bs[0].alias}))
  }

  /** Each alias of `done` stands at its row. */
  ghost predicate Fits(db: Db, env: Env, done: set<nat>, s: Choice) {
    forall a <- done :: a in db.tables && a in s && s[a] == RowAt(env, a, db.tables[a].width)
  }

  /** What a block's fixes demand of the row. */
  ghost predicate Meets(db: Db, b: Block, s: Choice)
    requires ValidBlock(Widths(db), b)
  {
    b.alias in s && match b
      case Scan(a, fixes) => forall j | 0 <= j < |fixes| && fixes[j].Some? ::
        ColumnOf(db.tables[a], s[a], j) == ValueOf(db, fixes[j].value, s)
      case Index(a, c, v, _) => ColumnOf(db.tables[a], s[a], c) == ValueOf(db, v, s)
  }

  lemma ComputableValue(db: Db, op: Operand, done: set<nat>, a: nat, j: nat, env: Env, s: Choice)
    requires ValidDb(db) && a in db.tables && a !in done && a in s && |s[a]| == db.tables[a].width && j <= |s[a]|
    requires Computable(Widths(db), op, done, a, j) && Fits(db, env, done, s)
    ensures ValueAt(db, op, Bind(env, a, s[a], 0, j)) == ValueOf(db, op, s)
  {
    BindReads(env, a, s[a], 0, j);
    if op.Column? && op.alias in done {
      assert RowAt(Bind(env, a, s[a], 0, j), op.alias, db.tables[op.alias].width) == s[op.alias];
      assert op.column < db.tables[op.alias].width ==> s[op.alias][op.column] == Read(env, (op.alias, op.column));
    }
  }

  /** Inside loops that fit the choice, a block admits the chosen row exactly if its fixes are met. */
  lemma BlockOkIffMeets(db: Db, b: Block, done: set<nat>, env: Env, s: Choice)
    requires ValidDb(db) && ValidBlock(Widths(db), b) && b.alias !in done && BlockReady(Widths(db), b, done)
    requires Fits(db, env, done, s)
    requires b.alias in s && s[b.alias] in db.tables[b.alias].rows
    ensures BlockOk(db, b, env, s[b.alias]) <==> Meets(db, b, s)
  {
    var a := b.alias;
    match b
    case Index(_, _, v, _) => ComputableValue(db, v, done, a, 0, env, s);
    case Scan(_, fixes) =>
      forall j | 0 <= j < |fixes| && fixes[j].Some?
        ensures ValueAt(db, fixes[j].value, Bind(env, a, s[a], 0, j)) == ValueOf(db, fixes[j].value, s)
      {
        ComputableValue(db, fixes[j].value, done, a, j, env, s);
      }
  }

  lemma BlockEnvReads(db: Db, b: Block, env: Env, row: seq<Scalar>)
    requires ValidBlock(Widths(db), b) && |row| == db.tables[b.alias].width
    ensures RowAt(BlockEnv(db, b, env, row), b.alias, |row|) == row
    ensures forall a: nat, c: nat | a != b.alias :: Read(BlockEnv(db, b, env, row), (a, c)) == Read(env, (a, c))
  {
    var env1 := match b case Scan(_, _) => env case Index(a, c, _, _) => env[(a, c) := ColumnOf(db.tables[a], row, c)];
    BindReads(env1, b.alias, row, 0, |row|);
  }

  lemma FitsMore(db: Db, b: Block, done: set<nat>, env: Env, s: Choice)
    requires ValidDb(db) && ValidBlock(Widths(db), b) && b.alias !in done && Fits(db, env, done, s)
    requires b.alias in s && s[b.alias] in db.tables[b.alias].rows
    ensures Fits(db, BlockEnv(db, b, env, s[b.alias]), done + {b.alias}, s)
  {
    BlockEnvReads(db, b, env, s[b.alias]);
    var env' := BlockEnv(db, b, env, s[b.alias]);
    forall a <- done ensures s[a] == RowAt(env', a, db.tables[a].width) {
      assert RowAt(env', a, db.tables[a].width) == RowAt(env, a, db.tables[a].width);
    }
  }

  lemma {:induction false} BlocksReachable(db: Db, bs: seq<Block>, done: set<nat>, env: Env, s: Choice)
    returns (env': Env)
    requires ValidDb(db) && Ordered(Widths(db), bs, done) && Fits(db, env, done, s)
    requires forall b <- bs ::
      ValidBlock(Widths(db), b) && Meets(db, b, s) && s[b.alias] in db.tables[b.alias].rows && BlockBuilt(db, b)
    ensures Reach(db, Flatten(bs), env, env') && Fits(db, env', done + Aliases(bs), s)
  {
    hide Reach, BlockKeys, BlockEnv, Fits, BlockReady, BlockOk, ValidDb;
    if bs == [] {
      env' := env;
      ReachNone(db, env);
      assert done + Aliases(bs) == done;
    } else {
      var mid := FirstBlockReachable(db, bs, done, env, s);
      env' := BlocksReachable(db, bs[1..], done + {bs[0].alias}, mid, s);
      ReachJoins(db, BlockKeys(bs[0]), Flatten(bs[1..]), env, mid, env');
      assert done + {bs[0].alias} + Aliases(bs[1..]) == done + Aliases(bs);
    }
  }

  lemma ReachNone(db: Db, env: Env)
    requires ValidDb(db)
    ensures Reach(db, [], env, env)
  {}

  lemma FirstBlockReachable(db: Db, bs: seq<Block>, done: set<nat>, env: Env, s: Choice) returns (mid: Env)
    requires ValidDb(db) && bs != [] && Ordered(Widths(db), bs, done) && Fits(db, env, done, s)
    requires Meets(db, bs[0], s) && s[bs[0].alias] in db.tables[bs[0].alias].rows && BlockBuilt(db, bs[0])
    ensures Reach(db, BlockKeys(bs[0]), env, mid) && Fits(db, mid, done + {bs[0].alias}, s)
  {
    hide Reach, BlockKeys, Fits, BlockReady, BlockOk;
    var b := bs[0];
    mid := BlockEnv(db, b, env, s[b.alias]);
    BlockOkIffMeets(db, b, done, env, s);
    BlockReachable(db, b, env, s[b.alias]);
    FitsMore(db, b, done, env, s);
  }

  /** A loop variable no key sets keeps its value. */
  lemma {:induction false} UntouchedCell(db: Db, keys: seq<Key>, env: Env, env': Env, a: nat, c: nat)
    requires Reach(db, keys, env, env') && forall k <- keys :: !(k.alias == a && k.column == c)
    ensures Read(env', (a, c)) == Read(env, (a, c))
  {
    if keys != [] {
      var v :| Admits(db, keys[0], env, v) && Reach(db, keys[1..], env[(keys[0].alias, keys[0].column) := v], env');
      UntouchedCell(db, keys[1..], env[(keys[0].alias, keys[0].column) := v], env', a, c);
    }
  }

  lemma {:induction false} LaterAliases(w: Schema, bs: seq<Block>, done: set<nat>)
    requires Ordered(w, bs, done)
    ensures Aliases(bs) !! done
  {
    if bs != [] { LaterAliases(w, bs[1..], done + {bs[0].alias}); }
  }

  /** The first block was left at the chosen row, because no later block touches it. */
  lemma FirstBlockReached(db: Db, bs: seq<Block>, done: set<nat>, env: Env, mid: Env, env': Env, s: Choice)
    requires ValidDb(db) && bs != [] && Ordered(Widths(db), bs, done) && Fits(db, env, done, s)
    requires Reach(db, BlockKeys(bs[0]), env, mid) && Reach(db, Flatten(bs[1..]), mid, env')
    requires bs[0].alias in s && s[bs[0].alias] == RowAt(env', bs[0].alias, db.tables[bs[0].alias].width)
    ensures s[bs[0].alias] in db.tables[bs[0].alias].rows && Meets(db, bs[0], s)
    ensures Fits(db, mid, done + {bs[0].alias}, s)
  {
    hide Reach, Meets, Computable, Entries, ColumnOf, BlockReady, ValueAt;
    var b := bs[0];
    var row := BlockReached(db, b, env, mid);
    BlockEnvReads(db, b, env, row);
    LaterAliases(Widths(db), bs[1..], done + {b.alias});
    FlattenAliases(bs[1..]);
    forall c: nat ensures Read(env', (b.alias, c)) == Read(mid, (b.alias, c)) {
      UntouchedCell(db, Flatten(bs[1..]), mid, env', b.alias, c);
    }
    assert RowAt(env', b.alias, |row|) == RowAt(mid, b.alias, |row|);
    BlockOkIffMeets(db, b, done, env, s);
    FitsMore(db, b, done, env, s);
  }

  lemma {:induction false} BlocksReached(db: Db, bs: seq<Block>, done: set<nat>, env: Env, env': Env, s: Choice)
    requires ValidDb(db) && Ordered(Widths(db), bs, done) && Fits(db, env, done, s)
    requires Reach(db, Flatten(bs), env, env') && Fits(db, env', done + Aliases(bs), s)
    ensures forall b <- bs :: ValidBlock(Widths(db), b) && Meets(db, b, s) && s[b.alias] in db.tables[b.alias].rows
  {
    hide Reach, Meets, Computable, ValidBlock, ValidDb, BlockReady;
    if bs != [] {
      var a := bs[0].alias;
      var mid := ReachSplits(db, BlockKeys(bs[0]), Flatten(bs[1..]), env, env');
      assert a in done + Aliases(bs);
      FirstBlockReached(db, bs, done, env, mid, env', s);
      assert done + {a} + Aliases(bs[1..]) == done + Aliases(bs);
      BlocksReached(db, bs[1..], done + {a}, mid, env', s);
    }
  }

  /** The cross references that the keys of a plan are read from have been built. */
  predicate AllBuilt(db: Db, keys: seq<Key>) { forall k <- keys :: Built(db, k) }

  lemma {:induction false} BlocksBuilt(db: Db, bs: seq<Block>)
    requires AllBuilt(db, Flatten(bs))
    ensures forall b <- bs :: BlockBuilt(db, b)
  {
    if bs != [] {
      BlockKeysAt(bs[0]);
      assert bs[0].Index? ==> BlockKeys(bs[0])[0] in Flatten(bs);
      assert forall k <- Flatten(bs[1..]) :: k in Flatten(bs);
      BlocksBuilt(db, bs[1..]);
    }
  }

  /** A well-ordered list of loops visits exactly the scanned choices that meet its fixes. */
  lemma VisitedIff(db: Db, bs: seq<Block>, s: Choice)
    requires ValidDb(db) && Ordered(Widths(db), bs, {}) && Aliases(bs) == db.tables.Keys && AllBuilt(db, Flatten(bs))
    ensures Visited(db, Flatten(bs), s)
      <==> Scanned(db, s) && forall b <- bs :: ValidBlock(Widths(db), b) && Meets(db, b, s)
  {
    hide Reach, Meets, Ordered, ValidBlock, ValidDb, Flatten;
    if Visited(db, Flatten(bs), s) {
      var env :| Reach(db, Flatten(bs), map[], env) && Emits(db, env, s);
      BlocksReached(db, bs, {}, map[], env, s);
      forall a <- s.Keys ensures s[a] in db.tables[a].rows {
        assert a in Aliases(bs);
      }
    }
    if Scanned(db, s) && forall b <- bs :: ValidBlock(Widths(db), b) && Meets(db, b, s) {
      BlocksBuilt(db, bs);
      var env := BlocksReachable(db, bs, {}, map[], s);
      assert Emits(db, env, s);
    }
  }
}
