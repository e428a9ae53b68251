/** Running the pieces of a split plan one after another: the duplication check makes a row that
    several pieces select come out once. */
module Output {
  import opened Where
  import opened Enumeration
  import opened KeyFix
  import opened FixedKeys
  import opened Loops

  /** The subscripts a row is noted down under: each key's alias and value, in the order of the key
      list, without the keys a cross reference is entered with. */
  type CheckTag = seq<(nat, Scalar)>

  function CellOf(s: Choice, a: nat, c: nat): Scalar {
    if a in s && c < |s[a]| then s[a][c] else Null
  }

  /** tmpl_duplication_check. */
  function TagOf(keys: seq<Key>, s: Choice): CheckTag {
    if keys == [] then [] else KeyTag(keys[0], s) + TagOf(keys[1..], s)
  }

  function KeyTag(k: Key, s: Choice): CheckTag {
    if k.kind.IndexHead? then [] else [(k.alias, CellOf(s, k.alias, k.column))]
  }

  // ----- A tag names a row, whichever piece it comes from -----

  function RowTag(s: Choice, a: nat, j: nat, width: nat): CheckTag
    requires j <= width
    decreases width - j
  {
    if j == width then [] else [(a, CellOf(s, a, j))] + RowTag(s, a, j + 1, width)
  }

  /** The key columns of all tables. */
  function FullTag(joins: seq<Join>, s: Choice): CheckTag {
    if joins == [] then [] else RowTag(s, joins[0].alias, 0, joins[0].width) + FullTag(joins[1..], s)
  }

  lemma {:induction false} TagAppends(ks: seq<Key>, ls: seq<Key>, s: Choice)
    ensures TagOf(ks + ls, s) == TagOf(ks, s) + TagOf(ls, s)
  {
    if ks == [] {
      assert ks + ls == ls;
    } else {
      hide KeyTag;
      assert (ks + ls)[1..] == ks[1..] + ls;
      TagAppends(ks[1..], ls, s);
      TagsAssociate(KeyTag(ks[0], s), TagOf(ks[1..], s), TagOf(ls, s));
    }
  }

  lemma TagsAssociate(x: CheckTag, y: CheckTag, z: CheckTag)
    ensures x + (y + z) == (x + y) + z
  {
  }

  lemma {:induction false} RowKeysTag(a: nat, kind: KeyKind, fixes: seq<Option<Operand>>, j: nat, s: Choice)
    requires j <= |fixes| && !kind.IndexHead?
    ensures TagOf(RowKeys(a, kind, fixes, j), s) == RowTag(s, a, j, |fixes|)
    decreases |fixes| - j
  {
    if j < |fixes| {
      RowKeysTag(a, kind, fixes, j + 1, s);
      assert RowKeys(a, kind, fixes, j)[1..] == RowKeys(a, kind, fixes, j + 1);
    }
  }

  lemma BlockTag(w: Schema, b: Block, s: Choice)
    requires ValidBlock(w, b)
    ensures TagOf(BlockKeys(b), s) == RowTag(s, b.alias, 0, w[b.alias])
  {
    match b
    case Scan(a, fixes) => RowKeysTag(a, Primary, fixes, 0, s);
    case Index(a, c, v, n) =>
      TagAppends([Key(a, c, IndexHead, Some(v))], RowKeys(a, IndexRow(c), Free(n), 0), s);
      RowKeysTag(a, IndexRow(c), Free(n), 0, s);
  }

  /** Whether its tables are scanned or looked up, a piece notes a row down under the same subscripts. */
  lemma {:induction false} LaidTag(w: Schema, bs: seq<Block>, joins: seq<Join>, done: set<nat>, s: Choice)
    requires Ordered(w, bs, done) && |joins| == |bs|
    requires forall i | 0 <= i < |bs| ::
      bs[i].alias in w && joins[i].alias == bs[i].alias && joins[i].width == w[bs[i].alias]
    ensures TagOf(Flatten(bs), s) == FullTag(joins, s)
  {
    if bs != [] {
      BlockTag(w, bs[0], s);
      TagAppends(BlockKeys(bs[0]), Flatten(bs[1..]), s);
      LaidTag(w, bs[1..], joins[1..], done + {bs[0].alias}, s);
    }
  }

  lemma {:induction false} RowTagIs(s: Choice, a: nat, j: nat, width: nat)
    requires j <= width
    ensures |RowTag(s, a, j, width)| == width - j
    ensures forall m | 0 <= m < width - j :: RowTag(s, a, j, width)[m] == (a, CellOf(s, a, j + m))
    decreases width - j
  {
    if j < width {
      RowTagIs(s, a, j + 1, width);
      var r, r' := RowTag(s, a, j, width), RowTag(s, a, j + 1, width);
      assert r == [(a, CellOf(s, a, j))] + r';
      hide RowTag;
      forall m | 0 <= m < width - j ensures r[m] == (a, CellOf(s, a, j + m)) {
        if m > 0 { assert r[m] == r'[m - 1]; }
      }
    }
  }

  /** Different rows have different tags. */
  lemma {:induction false} TagNamesRow(joins: seq<Join>, s: Choice, t: Choice, i: nat, c: nat)
    requires FullTag(joins, s) == FullTag(joins, t) && i < |joins| && c < joins[i].width
    ensures CellOf(s, joins[i].alias, c) == CellOf(t, joins[i].alias, c)
  {
    var a, n := joins[0].alias, joins[0].width;
    RowTagIs(s, a, 0, n);
    RowTagIs(t, a, 0, n);
    var fs, ft := FullTag(joins, s), FullTag(joins, t);
    assert fs[..n] == RowTag(s, a, 0, n) && ft[..n] == RowTag(t, a, 0, n);
    assert fs[n..] == FullTag(joins[1..], s) && ft[n..] == FullTag(joins[1..], t);
    if i == 0 {
      assert fs[c] == (a, CellOf(s, a, c)) && ft[c] == (a, CellOf(t, a, c));
    } else {
      TagNamesRow(joins[1..], s, t, i - 1, c);
    }
  }

  /** The FROM list names the tables of a database. */
  ghost predicate NamesTables(db: Db, joins: seq<Join>) {
    && (forall a <- db.tables.Keys :: exists i | 0 <= i < |joins| :: joins[i].alias == a)
    && (forall j <- joins :: j.alias in db.tables && j.width == db.tables[j.alias].width)
  }

  lemma SameTagSameRow(db: Db, joins: seq<Join>, s: Choice, t: Choice)
    requires ValidDb(db) && NamesTables(db, joins) && Scanned(db, s) && Scanned(db, t)
    requires FullTag(joins, s) == FullTag(joins, t)
    ensures s == t
  {
    hide FullTag;
    forall a <- db.tables.Keys ensures s[a] == t[a] {
      var i :| 0 <= i < |joins| && joins[i].alias == a;
      assert joins[i] in joins;
      RowValues(db, a, s[a]);
      RowValues(db, a, t[a]);
      forall c | 0 <= c < |s[a]| ensures s[a][c] == t[a][c] { TagNamesRow(joins, s, t, i, c); }
    }
  }

  lemma {:induction false} SameTablesTag(js: seq<Join>, js': seq<Join>, s: Choice)
    requires SameTables(js, js')
    ensures FullTag(js, s) == FullTag(js', s)
  {
    if js != [] { SameTablesTag(js[1..], js'[1..], s); }
  }

  // ----- The cursor -----

  class Cursor {
    var dupl: set<CheckTag>
    var rows: seq<Choice>

    constructor ()
      ensures dupl == {} && rows == []
    {
      dupl, rows := {}, [];
    }

    /** The rows put out so far are rows of the tables, all different, and exactly they are noted down. */
    ghost predicate Noted(db: Db, joins: seq<Join>)
      reads this
    {
      && Unique(rows) && (forall s <- rows :: Scanned(db, s) && FullTag(joins, s) in dupl)
      && forall t <- dupl :: exists s <- rows :: FullTag(joins, s) == t
    }

    /** The innermost body of a plan's loops, once for each row they visit and the WHERE accepts. */
    method RunPlan(keys: seq<Key>, check: bool, visits: seq<Choice>, ghost db: Db, ghost joins: seq<Join>)
      requires check ==> ValidDb(db) && NamesTables(db, joins) && Noted(db, joins) && forall s <- visits ::
        Scanned(db, s) && TagOf(keys, s) == FullTag(joins, s)
      modifies this
      ensures check ==> Noted(db, joins) && forall s :: s in rows <==> s in old(rows) || s in visits
      ensures !check ==> rows == old(rows) + visits
      ensures old(rows) <= rows
    {
      hide TagOf, FullTag, ValidDb, NamesTables, Scanned;
      var i := 0;
      while i < |visits|
        invariant 0 <= i <= |visits|
        invariant check ==> Noted(db, joins) && forall s :: s in rows <==> s in old(rows) || s in visits[..i]
        invariant !check ==> rows == old(rows) + visits[..i]
        invariant old(rows) <= rows
      {
        var s := visits[i];
        if !check {
          rows := rows + [s];
        } else if TagOf(keys, s) !in dupl {
          rows := rows + [s];
          dupl := dupl + {TagOf(keys, s)};
        } else {
          ghost var t :| t in rows && FullTag(joins, t) == TagOf(keys, s);
          SameTagSameRow(db, joins, s, t);
        }
        i := i + 1;
      }
    }
  }
}
