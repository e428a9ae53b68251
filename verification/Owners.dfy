/** assign_table_to_columns on a table as loading leaves it: every column gets a link to its table, and a
    PIECE if it has none. */
module Owners {
  import opened Statements
  import opened Compress
  import opened Layout
  import opened SchemaStore
  import opened Columns
  import opened Pieces

  const TABLE_COLUMNS := 16
  const COLUMN_TABLE := 16
  const COLUMN_KEYWORDS := 24

  // ----- Tables -----

  predicate IsTable(t: Stmt) {
    && WellFormed(t) && t.Records? && t.kind.TableRecord? && ColumnsOf(t).Records? && ColumnsOf(t).kind.ColumnRecord?
    && forall k | 0 <= k < |ColumnsOf(t).items| :: IsColumn(ColumnsOf(t).items[k])
  }

  function ColumnsOf(t: Stmt): Stmt
    requires WellFormed(t) && t.Records? && t.kind.TableRecord?
  {
    assert WellFormedItem(t.kind, t.items[0]);
    t.items[0].parts[2]
  }

  /** Where the statement with the columns stands. */
  function ColumnsAt(a: int, t: Stmt): int
    requires WellFormed(t) && t.Records? && t.kind.TableRecord?
  {
    assert WellFormedItem(t.kind, t.items[0]);
    PartPos(TableRecord, a + STMT, t.items[0], 2)
  }

  /** The columns, each with its PIECE. */
  function PiecedColumns(cols: Stmt): (r: Stmt)
    requires cols.Records? && forall k | 0 <= k < |cols.items| :: IsColumn(cols.items[k])
    ensures r.Records? && r.kind == cols.kind && |r.items| == |cols.items|
    ensures forall k | 0 <= k < |cols.items| :: r.items[k] == WithPiece(cols.items[k], k + 1)
  {
    var items := cols.items;
    Records(cols.kind,
      seq(|items|, (k: nat) requires k < |items| && IsColumn(items[k]) => WithPiece(items[k], k + 1)))
  }

  /** The table with those columns. */
  function PiecedTable(t: Stmt): Stmt
    requires IsTable(t)
  {
    assert WellFormedItem(t.kind, t.items[0]);
    var it := t.items[0];
    Records(TableRecord, [Item(it.plain, it.parts[2 := PiecedColumns(ColumnsOf(t))])])
  }

  // ----- Reading the settled form -----

  lemma KeywordAt(m: Memory, c: int, kws: Stmt, k: nat)
    requires c > 0 && kws.Records? && kws.kind.KeywordRecord? && WellFormed(kws) && Settled(m, c, kws)
    requires k < |kws.items|
    ensures var p := Pos(c, kws, k);
      && p > 0 && |kws.items[k].plain| == 1 && Has(m, p, kws.items[k].plain[0])
        && Has(m, p + KeywordRecord.Next(), Succ(c, kws, k))
    ensures Succ(c, kws, k) == Pos(c, kws, 0) <==> k + 1 == |kws.items|
  {
    hide SettledLink, ItemsSize, Size, Pos;
    assert SettledAt(m, c, kws, k) && WellFormedItem(kws.kind, kws.items[k]);
    assert SettledBody(m, KeywordRecord, Pos(c, kws, k), kws.items[k]);
    assert Has(m, Pos(c, kws, k) + KeywordRecord.Plain()[0], kws.items[k].plain[0]);
    RecordsApart(c, kws, k, k);
    if k + 1 < |kws.items| { RecordsApart(c, kws, 0, k + 1); }
    ItemSizes(kws, 0);
  }

  /** get_keyword_from_keywords: the first keyword of this type in the ring, or null. */
  method FindKeyword(mach: Machine, start: int, keyword: int, ghost c: int, ghost kws: Stmt) returns (kw: int)
    requires c > 0 && kws.Records? && kws.kind.KeywordRecord? && WellFormed(kws) && Settled(mach.m, c, kws)
    requires start == Pos(c, kws, 0)
    ensures kw == 0 <==> forall k | 0 <= k < |kws.items| :: kws.items[k].plain != [keyword]
    ensures kw != 0 ==> exists k | 0 <= k < |kws.items| ::
      && kw == Pos(c, kws, k) && kws.items[k].plain == [keyword]
      && forall i | 0 <= i < k :: kws.items[i].plain != [keyword]
  {
    hide Settled, Pos, WellFormedItem;
    kw := start;
    ghost var k := 0;
    while true
      invariant 0 <= k < |kws.items| && kw == Pos(c, kws, k) && forall i | 0 <= i < k :: kws.items[i].plain != [keyword]
      decreases |kws.items| - k
    {
      KeywordAt(mach.m, c, kws, k);
      if mach.m[kw] == keyword {
        assert kws.items[k].plain == [keyword];
        return;
      }
      kw := mach.m[kw + KeywordRecord.Next()];
      k := k + 1;
      if kw == start { return 0; }
    }
  }

  lemma ItemSizes(t: Stmt, i: nat)
    requires t.Records? && i < |t.items|
    ensures ItemSize(t.kind, t.items[i]) >= t.kind.Size()
  {}

  // ----- One column -----

  /** The column at cur links to a statement between top and free that points to the table. */
  predicate HasOwner(m: Memory, cur: int, table: int, top: int, free: int) {
    var x := cur + COLUMN_TABLE;
    x in m && top <= m[x] && m[x] + STMT <= free && Has(m, m[x], TableRecord.Type()) && Has(m, m[x] + STMT_V, table)
  }

  /** The new statement, and the link to it. */
  function OwnerAdded(m: Memory, top: int, table: int, x: int): Memory {
    Statement(Allocated(m, top, STMT), top, TableRecord.Type(), table)[x := top]
  }

  lemma OwnerAddedIs(m: Memory, top: int, table: int, x: int)
    requires x in m && x < top && forall y | y >= top :: y !in m
    ensures var m' := OwnerAdded(m, top, table, x);
      && (forall y <- m.Keys :: y in m' && (y == x || m'[y] == m[y])) && (forall y | y >= top + STMT :: y !in m')
      && Has(m', x, top) && Has(m', top, TableRecord.Type()) && Has(m', top + STMT_V, table)
        && Region(top, top + STMT) <= m'.Keys
  {
    hide Allocated;
    AllocatedIs(m, top, STMT);
    StatementWritten(Allocated(m, top, STMT), top, TableRecord.Type(), table);
  }

  /** A column as loading leaves it, at p. */
  predicate LoadedColumn(m: Memory, p: int, it: Item) {
    p > 0 && IsColumn(it) && SettledBody(m, ColumnRecord, p, it) && HasCells(m, p, p + ItemSize(ColumnRecord, it))
  }

  function KeywordsAt(p: int, it: Item): int
    requires IsColumn(it)
  {
    PartPos(ColumnRecord, p, it, 1)
  }

  /** Where the parts of a column are. */
  lemma ColumnPlaces(p: int, it: Item)
    requires IsColumn(it)
    ensures |it.parts| == 2 && WellFormed(it.parts[0]) && WellFormed(it.parts[1])
    ensures PartPos(ColumnRecord, p, it, 0) == p + ColumnRecord.Size()
    ensures KeywordsAt(p, it) == p + ColumnRecord.Size() + Size(it.parts[0])
    ensures KeywordsAt(p, it) + Size(it.parts[1]) == p + ItemSize(ColumnRecord, it)
  {
    hide Size;
    NoParts(it);
    PartsStep(it, 0);
    PartsStep(it, 1);
  }

  lemma ColumnParts(m: Memory, p: int, it: Item)
    requires LoadedColumn(m, p, it)
    ensures |it.parts| == 2 && SettledLink(m, p, p + ColumnRecord.Size(), it.parts[0])
    ensures Has(m, p + COLUMN_KEYWORDS, KeywordsAt(p, it)) && LoadedRing(m, KeywordsAt(p, it), it.parts[1])
    ensures PlainAt(m, p, ColumnRecord.Plain(), it.plain) && p + COLUMN_TABLE in m
  {
    hide Settled, Size, ItemSize, PartPos;
    ColumnPlaces(p, it);
    assert SettledLink(m, p + ColumnRecord.Links()[0], PartPos(ColumnRecord, p, it, 0), it.parts[0]);
    assert SettledLink(m, p + ColumnRecord.Links()[1], PartPos(ColumnRecord, p, it, 1), it.parts[1]);
    AreaNonEmpty(it);
  }

  lemma AreaNonEmpty(it: Item)
    ensures ItemSize(ColumnRecord, it) >= ColumnRecord.Size()
  {}

  /** The link to the table is no part of the column. */
  lemma OwnerKeeps(m: Memory, m': Memory, p: int, it: Item)
    requires LoadedColumn(m, p, it) && forall x <- m.Keys :: x in m' && (x == p + COLUMN_TABLE || m'[x] == m[x])
    ensures LoadedColumn(m', p, it)
  {
    hide SettledBody, ItemSize;
    AreaNonEmpty(it);
    assert SameFields(m, m', ColumnRecord, p, p, |ColumnRecord.Links()|);
    SettledBodyStays(m, m', ColumnRecord, p, it);
  }

  lemma ColumnLive(m: Memory, p: int, it: Item, top: int, free: int)
    requires LoadedColumn(m, p, it) && Region(top, free) <= m.Keys
    ensures LiveRecord(m, ColumnRecord, p, it, Region(p, p + ItemSize(ColumnRecord, it)) + Region(top, free))
  {
    hide SettledBody, ItemSize, LiveBody;
    AreaNonEmpty(it);
    var d := Region(p, p + ItemSize(ColumnRecord, it)) + Region(top, free);
    forall x <- d ensures x in m { assert x in Region(top, free) || x in m; }
    BodyLive(m, ColumnRecord, p, it, d);
  }

  /** m' is m with PIECE n behind the column's keywords. */
  ghost predicate PieceAdded(m: Memory, m': Memory, p: int, it: Item, kw: int, n: nat, top: int, free: int)
    requires IsColumn(it)
  {
    var q, kws := KeywordsAt(p, it), it.parts[1];
    |kws.items| >= 1 && Inserted(m, m', Pos(q, kws, 0), Last(q, kws), kw, n, top, free)
  }

  /** Then the column is live, and has its PIECE. */
  lemma PiecedLive(m: Memory, m': Memory, p: int, it: Item, kw: int, n: nat, top: int, mid: int, free: int)
    requires LoadedColumn(m, p, it) && p + ItemSize(ColumnRecord, it) <= top <= mid && Region(top, mid) <= m.Keys
    requires !HasKeyword(it, OPTIONAL_PIECE)
    requires PieceAdded(m, m', p, it, kw, n, mid, free)
    ensures LiveRecord(m', ColumnRecord, p, WithPiece(it, n),
      Region(p, p + ItemSize(ColumnRecord, it)) + Region(top, free))
  {
    hide SettledBody, ItemSize, Size, LiveRecord, Live, Pos, Inserted, WithPiece, LoadedRing;
    var q, kws := KeywordsAt(p, it), it.parts[1];
    var d := Region(p, p + ItemSize(ColumnRecord, it)) + Region(top, free);
    ColumnPlaces(p, it);
    ColumnParts(m, p, it);
    LongerLive(m, m', q, kws, kw, n, mid, free);
    var e := Region(q, q + Size(kws)) + Region(mid, free);
    KeysAfter(m, m', p, it, kw, n, top, mid, free);
    LiveFrame(m', m', q, Longer(kws, n), e, d);
    NameKept(m, m', p, it, kw, n, mid, free, d);
    PiecedBody(m', p, it, n, d);
  }

  lemma KeysAfter(m: Memory, m': Memory, p: int, it: Item, kw: int, n: nat, top: int, mid: int, free: int)
    requires LoadedColumn(m, p, it) && p + ItemSize(ColumnRecord, it) <= top <= mid && Region(top, mid) <= m.Keys
    requires PieceAdded(m, m', p, it, kw, n, mid, free)
    ensures var q, d := KeywordsAt(p, it), Region(p, p + ItemSize(ColumnRecord, it)) + Region(top, free);
      d <= m'.Keys && Region(q, q + Size(it.parts[1])) + Region(mid, free) <= d && Agree(m', m', d)
  {
    hide SettledBody, ItemSize, Size, LiveRecord, Pos;
    ColumnPlaces(p, it);
    var d := Region(p, p + ItemSize(ColumnRecord, it)) + Region(top, free);
    forall x <- d ensures x in m' { assert x in Region(mid, free) || x in Region(top, mid) || x in m; }
  }
  /** The name and the plain fields of the column do not change. */
  lemma NameKept(m: Memory, m': Memory, p: int, it: Item, kw: int, n: nat, mid: int, free: int, d: set<int>)
    requires LoadedColumn(m, p, it) && p + ItemSize(ColumnRecord, it) <= mid && d <= m'.Keys
    requires Span(d, p, ItemSize(ColumnRecord, it))
    requires PieceAdded(m, m', p, it, kw, n, mid, free)
    ensures |it.parts| == 2 && LiveLink(m', p, it.parts[0], d) && PlainAt(m', p, ColumnRecord.Plain(), it.plain)
    ensures Has(m', p + COLUMN_KEYWORDS, KeywordsAt(p, it))
  {
    hide SettledBody, ItemSize, Size, LiveRecord, Pos, SettledLink, LiveLink, LoadedRing;
    ColumnPlaces(p, it);
    ColumnParts(m, p, it);
    var q, kws := KeywordsAt(p, it), it.parts[1];
    PosAfter(q, kws, 0);
    PosAfter(q, kws, |kws.items| - 1);
    AreaNonEmpty(it);
    LinkSet(m, p, p + ColumnRecord.Size(), it.parts[0]);
    SettledLinkStays(m, m', p, p + ColumnRecord.Size(), it.parts[0]);
    LinkLive(m', p, p + ColumnRecord.Size(), it.parts[0], d);
  }

  lemma LinkSet(m: Memory, x: int, pos: int, t: Stmt)
    requires SettledLink(m, x, pos, t)
    ensures x in m
  {}

  lemma PiecedBody(m: Memory, p: int, it: Item, n: nat, d: set<int>)
    requires IsColumn(it) && !HasKeyword(it, OPTIONAL_PIECE) && |it.parts| == 2 && Span(d, p, ColumnRecord.Size())
    requires LiveLink(m, p, it.parts[0], d) && PlainAt(m, p, ColumnRecord.Plain(), it.plain)
    requires Has(m, p + COLUMN_KEYWORDS, KeywordsAt(p, it)) && Live(m, KeywordsAt(p, it), Longer(it.parts[1], n), d)
    ensures LiveRecord(m, ColumnRecord, p, WithPiece(it, n), d)
  {
    hide Live;
    PiecedIs(it, n);
    var r := WithPiece(it, n);
    assert r == Item(it.plain, [it.parts[0], Longer(it.parts[1], n)]);
    assert LiveLink(m, p + ColumnRecord.Links()[0], r.parts[0], d)
      && LiveLink(m, p + ColumnRecord.Links()[1], r.parts[1], d);
  }

  /** Nothing changes but the column, and not its place among the columns. */
  predicate OnlyColumn(m: Memory, m': Memory, p: int, it: Item) {
    forall x <- m.Keys :: x in m' &&
      ((p <= x < p + ItemSize(ColumnRecord, it) && x != p + ColumnRecord.Next() && x != p + ColumnRecord.Prev())
        || m'[x] == m[x])
  }

  lemma OnlyOwner(m: Memory, m': Memory, p: int, it: Item)
    requires forall x <- m.Keys :: x in m' && (x == p + COLUMN_TABLE || m'[x] == m[x])
    ensures OnlyColumn(m, m', p, it)
  {
    AreaNonEmpty(it);
  }

  lemma OnlyPiece(m: Memory, m1: Memory, m': Memory, p: int, it: Item, kw: int, n: nat, top: int, free: int)
    requires LoadedColumn(m1, p, it) && OnlyColumn(m, m1, p, it) && PieceAdded(m1, m', p, it, kw, n, top, free)
    ensures OnlyColumn(m, m', p, it)
  {
    hide ItemSize, Size, LiveRecord, Pos, SettledBody;
    ColumnPlaces(p, it);
    var q, kws := KeywordsAt(p, it), it.parts[1];
    RecordsApart(q, kws, 0, |kws.items| - 1);
    RecordsApart(q, kws, |kws.items| - 1, 0);
    ItemSizes(kws, 0);
    ItemSizes(kws, |kws.items| - 1);
  }

  /** The body of the loop of assign_table_to_columns, with free memory from `top` on. */
  method AssignColumn(mach: Machine, cur: int, table: int, n: nat, top: int, ghost it: Item) returns (free: int)
    requires LoadedColumn(mach.m, cur, it) && cur + ItemSize(ColumnRecord, it) <= top
    requires forall x | x >= top :: x !in mach.m
    modifies mach
    ensures top <= free && (forall x | x >= free :: x !in mach.m) && Region(top, free) <= mach.m.Keys
    ensures LiveRecord(mach.m, ColumnRecord, cur, WithPiece(it, n),
      Region(cur, cur + ItemSize(ColumnRecord, it)) + Region(top, free))
    ensures HasOwner(mach.m, cur, table, top, free) && OnlyColumn(old(mach.m), mach.m, cur, it)
  {
    hide LiveRecord, ItemSize, SettledBody, OwnerAdded, Inserted, Pos, LoadedRing, WithPiece, OnlyColumn;
    ghost var m := mach.m;
    AreaNonEmpty(it);
    ColumnParts(m, cur, it);
    OwnerAddedIs(m, top, table, cur + COLUMN_TABLE);
    mach.m := OwnerAdded(mach.m, top, table, cur + COLUMN_TABLE);
    free := top + STMT;
    ghost var m1 := mach.m;
    OwnerKeeps(m, m1, cur, it);
    OnlyOwner(m, m1, cur, it);
    ColumnParts(m1, cur, it);
    ghost var q, kws := KeywordsAt(cur, it), it.parts[1];
    RingAt(m1, q, kws);
    var keywords := mach.m[cur + COLUMN_KEYWORDS];
    var first := mach.m[keywords + STMT_V];
    var piece := FindKeyword(mach, first, OPTIONAL_PIECE, q, kws);
    PiecedIs(it, n);
    if piece == 0 {
      ColumnPlaces(cur, it);
      piece, free := AddPiece(mach, first, n, free);
      PiecedLive(m1, mach.m, cur, it, piece, n, top, top + STMT, free);
      OnlyPiece(m, m1, mach.m, cur, it, piece, n, top + STMT, free);
      OwnerKept(m1, mach.m, cur, it, piece, n, table, top, free);
    } else {
      ColumnLive(m1, cur, it, top, free);
    }
  }

  lemma RingAt(m: Memory, q: int, kws: Stmt)
    requires LoadedRing(m, q, kws)
    ensures q > 0 && kws.Records? && kws.kind.KeywordRecord? && WellFormed(kws) && Settled(m, q, kws)
    ensures |kws.items| >= 1
    ensures var first, last := Pos(q, kws, 0), Last(q, kws);
      && Has(m, q + STMT_V, first) && Has(m, first + PREV, last) && last + NEXT in m
        && last + KeywordRecord.Size() <= q + Size(kws)
      && first + KeywordRecord.Size() <= q + Size(kws)
  {
    hide Size, SettledBody, ItemSize, Pos;
    FirstPlace(q, kws);
    var last := |kws.items| - 1;
    assert SettledAt(m, q, kws, last);
    RecordsApart(q, kws, 0, last);
    RecordsApart(q, kws, last, 0);
  }

  lemma OwnerKept(m: Memory, m': Memory, p: int, it: Item, kw: int, n: nat, table: int, top: int, free: int)
    requires LoadedColumn(m, p, it) && p + ItemSize(ColumnRecord, it) <= top
    requires PieceAdded(m, m', p, it, kw, n, top + STMT, free)
    requires HasOwner(m, p, table, top, top + STMT) && Region(top, top + STMT) <= m.Keys
    ensures HasOwner(m', p, table, top, free) && top <= free && Region(top, free) <= m'.Keys
    ensures forall x | x >= free :: x !in m'
  {
    hide ItemSize, Size, LiveRecord, Pos, SettledBody;
    ColumnPlaces(p, it);
    var q, kws := KeywordsAt(p, it), it.parts[1];
    RecordsApart(q, kws, 0, |kws.items| - 1);
    RecordsApart(q, kws, |kws.items| - 1, 0);
    ItemSizes(kws, 0);
    ItemSizes(kws, |kws.items| - 1);
    forall x <- Region(top, free) ensures x in m' {
      assert x in Region(top, top + STMT) || x in Region(top + STMT, free);
    }
  }

  // ----- All columns -----

  predicate AreColumns(cols: Stmt) {
    && cols.Records? && cols.kind.ColumnRecord? && WellFormed(cols)
    && forall k | 0 <= k < |cols.items| :: IsColumn(cols.items[k])
  }

  function Area(c: int, cols: Stmt, k: nat): set<int>
    requires cols.Records? && k < |cols.items|
  {
    Region(Pos(c, cols, k), Pos(c, cols, k) + ItemSize(ColumnRecord, cols.items[k]))
  }

  /** Column k has its PIECE and its link. */
  ghost predicate ColumnDone(m: Memory, c: int, cols: Stmt, table: int, k: nat, top: int, free: int)
    requires AreColumns(cols) && k < |cols.items|
  {
    && LiveRecord(m, ColumnRecord, Pos(c, cols, k), WithPiece(cols.items[k], k + 1),
      Area(c, cols, k) + Region(top, free))
    && HasOwner(m, Pos(c, cols, k), table, top, free)
  }

  predicate SameLinks(m: Memory, m': Memory, p: int) {
    var x, y := p + ColumnRecord.Next(), p + ColumnRecord.Prev();
    x in m && y in m && Has(m', x, m[x]) && Has(m', y, m[y])
  }

  /** The first k columns are done, the others as they were. */
  ghost predicate Progress(m0: Memory, m: Memory, c: int, cols: Stmt, table: int, k: nat, top: int, free: int)
    requires AreColumns(cols) && k <= |cols.items|
  {
    && top <= free && (forall x | x >= free :: x !in m) && Region(top, free) <= m.Keys
    && (forall x <- m0.Keys :: x in m && (Pos(c, cols, 0) <= x < Pos(c, cols, k) || m[x] == m0[x]))
    && (forall i | 0 <= i < |cols.items| :: SameLinks(m0, m, Pos(c, cols, i)))
    && forall i | 0 <= i < k :: ColumnDone(m, c, cols, table, i, top, free)
  }

  /** Columns as loading leaves them, at c. */
  predicate LoadedColumns(m: Memory, c: int, cols: Stmt) {
    c > 0 && AreColumns(cols) && Settled(m, c, cols) && HasCells(m, c, c + Size(cols))
  }

  lemma ColumnLoaded(m0: Memory, m: Memory, c: int, cols: Stmt, k: nat)
    requires LoadedColumns(m0, c, cols) && k < |cols.items|
    requires forall x <- m0.Keys :: x in m && (Pos(c, cols, 0) <= x < Pos(c, cols, k) || m[x] == m0[x])
    ensures LoadedColumn(m, Pos(c, cols, k), cols.items[k])
    ensures Pos(c, cols, k) + ItemSize(ColumnRecord, cols.items[k]) <= c + Size(cols)
  {
    hide SettledBody, ItemSize, Size, Pos, WellFormed;
    assert SettledAt(m0, c, cols, k);
    RecordsApart(c, cols, k, k);
    ItemSizes(cols, k);
    var p := Pos(c, cols, k);
    FieldsStay(m0, m, ColumnRecord, p, |ColumnRecord.Links()|);
    SettledBodyStays(m0, m, ColumnRecord, p, cols.items[k]);
  }

  lemma LinksLoaded(m: Memory, c: int, cols: Stmt, k: nat)
    requires LoadedColumns(m, c, cols) && k < |cols.items|
    ensures SameLinks(m, m, Pos(c, cols, k)) && Has(m, Pos(c, cols, k) + ColumnRecord.Next(), Succ(c, cols, k))
    ensures Has(m, Succ(c, cols, k) + ColumnRecord.Prev(), Pos(c, cols, k))
    ensures Succ(c, cols, k) == Pos(c, cols, 0) <==> k + 1 == |cols.items|
  {
    hide SettledBody, ItemSize, Size, Pos, WellFormed;
    assert SettledAt(m, c, cols, k);
    RecordsApart(c, cols, k, k);
    ItemSizes(cols, k);
    if k + 1 < |cols.items| { RecordsApart(c, cols, 0, k + 1); }
  }

  /** A column that is done stays so while the next one is worked on. */
  lemma DoneKept(m: Memory, m': Memory, c: int, cols: Stmt, table: int, i: nat, k: nat, top: int, free: int, free': int)
    requires AreColumns(cols) && i < k < |cols.items| && ColumnDone(m, c, cols, table, i, top, free)
    requires c + Size(cols) <= top && free <= free' && Area(c, cols, i) + Region(top, free) <= m.Keys
    requires OnlyColumn(m, m', Pos(c, cols, k), cols.items[k])
    ensures ColumnDone(m', c, cols, table, i, top, free')
  {
    hide LiveRecord, ItemSize, Size, Pos, WithPiece, WellFormed;
    RecordsApart(c, cols, i, k);
    RecordsApart(c, cols, k, i);
    var d, d' := Area(c, cols, i) + Region(top, free), Area(c, cols, i) + Region(top, free');
    RecordFrame(m, m', ColumnRecord, Pos(c, cols, i), WithPiece(cols.items[i], i + 1), d, d');
  }

  lemma LinksKept(m: Memory, m': Memory, c: int, cols: Stmt, i: nat, k: nat)
    requires AreColumns(cols) && i < |cols.items| && k < |cols.items| && SameLinks(m, m, Pos(c, cols, i))
    requires OnlyColumn(m, m', Pos(c, cols, k), cols.items[k])
    ensures SameLinks(m, m', Pos(c, cols, i))
  {
    hide ItemSize, Size, Pos, WellFormed;
    RecordsApart(c, cols, i, k);
    RecordsApart(c, cols, k, i);
  }

  lemma ProgressStep(m0: Memory, m: Memory, m': Memory, c: int, cols: Stmt, table: int, k: nat, top: int, free: int,
          free': int)
    requires LoadedColumns(m0, c, cols) && k < |cols.items| && c + Size(cols) <= top
    requires Progress(m0, m, c, cols, table, k, top, free)
    requires free <= free' && (forall x | x >= free' :: x !in m') && Region(free, free') <= m'.Keys
    requires var p, it := Pos(c, cols, k), cols.items[k];
      && OnlyColumn(m, m', p, it) && HasOwner(m', p, table, free, free')
      && LiveRecord(m', ColumnRecord, p, WithPiece(it, k + 1), Area(c, cols, k) + Region(free, free'))
    ensures Progress(m0, m', c, cols, table, k + 1, top, free')
  {
    hide LiveRecord, ItemSize, Size, WithPiece, ColumnDone, Settled, SameLinks, Pos;
    AreaCells(m0, c, cols, k);
    ThisDone(m', c, cols, table, k, top, free, free');
    forall i | 0 <= i < k ensures ColumnDone(m', c, cols, table, i, top, free') {
      AreaCells(m0, c, cols, i);
      DoneKept(m, m', c, cols, table, i, k, top, free, free');
    }
    forall i | 0 <= i < |cols.items| ensures SameLinks(m0, m', Pos(c, cols, i)) {
      LinksOf(m0, m, Pos(c, cols, i));
      LinksKept(m, m', c, cols, i, k);
      LinksTwice(m0, m, m', Pos(c, cols, i));
    }
    PosNext(c, cols, k);
    forall x <- Region(top, free') ensures x in m' { assert x in Region(top, free) || x in Region(free, free'); }
  }

  lemma LinksOf(m: Memory, m': Memory, p: int)
    requires SameLinks(m, m', p)
    ensures SameLinks(m', m', p)
  {}

  lemma LinksTwice(m: Memory, m': Memory, m'': Memory, p: int)
    requires SameLinks(m, m', p) && SameLinks(m', m'', p)
    ensures SameLinks(m, m'', p)
  {}

  lemma PosNext(c: int, cols: Stmt, k: nat)
    requires cols.Records? && k < |cols.items|
    ensures Pos(c, cols, k + 1) == Pos(c, cols, k) + ItemSize(cols.kind, cols.items[k])
    ensures Pos(c, cols, 0) <= Pos(c, cols, k)
  {
    hide ItemSize;
    ItemsStep(cols, k);
    ItemsGrow(cols, 0, k);
  }

  lemma AreaCells(m: Memory, c: int, cols: Stmt, k: nat)
    requires LoadedColumns(m, c, cols) && k < |cols.items|
    ensures Area(c, cols, k) <= m.Keys
  {
    hide ItemSize, Size, Pos, Settled, WellFormed;
    RecordsApart(c, cols, k, k);
  }

  lemma ThisDone(m: Memory, c: int, cols: Stmt, table: int, k: nat, top: int, free: int, free': int)
    requires AreColumns(cols) && k < |cols.items| && top <= free <= free'
    requires HasOwner(m, Pos(c, cols, k), table, free, free')
    requires LiveRecord(m, ColumnRecord, Pos(c, cols, k), WithPiece(cols.items[k], k + 1),
      Area(c, cols, k) + Region(free, free'))
    requires Area(c, cols, k) + Region(free, free') <= m.Keys
    ensures ColumnDone(m, c, cols, table, k, top, free')
  {
    hide LiveRecord, Pos, WithPiece, WellFormed, ItemSize;
    var d, d' := Area(c, cols, k) + Region(free, free'), Area(c, cols, k) + Region(top, free');
    assert d <= d';
    RecordFrame(m, m, ColumnRecord, Pos(c, cols, k), WithPiece(cols.items[k], k + 1), d, d');
  }

  /** The loop of assign_table_to_columns. */
  method AssignColumns(mach: Machine, start: int, table: int, top: int, ghost c: int, ghost cols: Stmt)
    returns (free: int)
    requires LoadedColumns(mach.m, c, cols) && start == Pos(c, cols, 0) && c + Size(cols) <= top
    requires forall x | x >= top :: x !in mach.m
    modifies mach
    ensures Progress(old(mach.m), mach.m, c, cols, table, |cols.items|, top, free)
  {
    hide Settled, Size, Pos, Progress, LiveRecord, HasOwner, WithPiece, ItemSize, OnlyColumn, LoadedColumn, HasCells;
    ghost var m0 := mach.m;
    StartProgress(m0, c, cols, table, top);
    var cur, i := start, 0;
    free := top;
    while true
      invariant 0 <= i < |cols.items| && cur == Pos(c, cols, i) && Progress(m0, mach.m, c, cols, table, i, top, free)
      decreases |cols.items| - i
    {
      ghost var m, free0 := mach.m, free;
      BeforeColumn(m0, m, c, cols, table, i, top, free);
      i := i + 1;
      free := AssignColumn(mach, cur, table, i, free, cols.items[i - 1]);
      ProgressStep(m0, m, mach.m, c, cols, table, i - 1, top, free0, free);
      AfterColumn(m0, mach.m, c, cols, table, i, top, free);
      cur := mach.m[cur + ColumnRecord.Next()];
      if cur == start { break; }
    }
  }

  lemma StartProgress(m: Memory, c: int, cols: Stmt, table: int, top: int)
    requires LoadedColumns(m, c, cols) && forall x | x >= top :: x !in m
    ensures |cols.items| >= 1 && Progress(m, m, c, cols, table, 0, top, top)
  {
    hide Settled, Size, Pos, SameLinks;
    forall i | 0 <= i < |cols.items| ensures SameLinks(m, m, Pos(c, cols, i)) { LinksLoaded(m, c, cols, i); }
  }

  lemma BeforeColumn(m0: Memory, m: Memory, c: int, cols: Stmt, table: int, k: nat, top: int, free: int)
    requires LoadedColumns(m0, c, cols) && k < |cols.items| && c + Size(cols) <= top
    requires Progress(m0, m, c, cols, table, k, top, free)
    ensures LoadedColumn(m, Pos(c, cols, k), cols.items[k])
    ensures Pos(c, cols, k) + ItemSize(ColumnRecord, cols.items[k]) <= free
    ensures forall x | x >= free :: x !in m
  {
    hide LiveRecord, ItemSize, Size, WithPiece, ColumnDone, Settled, SameLinks, Pos, LoadedColumn;
    ColumnLoaded(m0, m, c, cols, k);
  }

  lemma AfterColumn(m0: Memory, m: Memory, c: int, cols: Stmt, table: int, k: nat, top: int, free: int)
    requires LoadedColumns(m0, c, cols) && 0 < k <= |cols.items| && Progress(m0, m, c, cols, table, k, top, free)
    ensures Has(m, Pos(c, cols, k - 1) + ColumnRecord.Next(), Succ(c, cols, k - 1))
    ensures Succ(c, cols, k - 1) == Pos(c, cols, 0) <==> k == |cols.items|
  {
    hide LiveRecord, ItemSize, Size, WithPiece, ColumnDone, Settled, Pos;
    LinksLoaded(m0, c, cols, k - 1);
    assert SameLinks(m0, m, Pos(c, cols, k - 1));
  }

  // ----- The table -----

  lemma TableSize(a: int, t: Stmt)
    requires WellFormed(t) && t.Records? && t.kind.TableRecord?
    ensures Pos(a, t, 0) == a + STMT && Size(t) == STMT + ItemSize(TableRecord, t.items[0])
  {
    NoItems(t);
    ItemsStep(t, 0);
  }

  lemma Unfolded(it: Item)
    ensures ItemSize(TableRecord, it) == TableRecord.Size() + PartsSize(it, |it.parts|)
  {}

  /** Where the columns and the other parts of a table stand. */
  lemma TablePlaces(a: int, t: Stmt, j: nat)
    requires IsTable(t) && j < 4
    ensures |t.items| == 1 && |t.items[0].parts| == |TableRecord.Links()| == 4 && WellFormed(t.items[0].parts[j])
    ensures AreColumns(ColumnsOf(t))
    ensures var it := t.items[0]; var pos, c := PartPos(TableRecord, a + STMT, it, j), ColumnsAt(a, t);
      && a + STMT + TableRecord.Size() <= pos && pos + Size(it.parts[j]) <= a + Size(t)
      && (j == 2 ==> pos == c && it.parts[j] == ColumnsOf(t))
        && (j != 2 ==> pos + Size(it.parts[j]) <= c || c + Size(ColumnsOf(t)) <= pos)
  {
    hide PartsSize, ItemSize, Size, Pos;
    assert WellFormedItem(t.kind, t.items[0]);
    var it := t.items[0];
    TableSize(a, t);
    Unfolded(it);
    PartFits(it, j, 4);
    PartsGrow(it, 0, j);
    NoParts(it);
    if j < 2 { PartFits(it, j, 2); }
    if j > 2 { PartFits(it, 2, j); }
  }

  /** A table as loading leaves it, at a. */
  predicate LoadedTable(m: Memory, a: int, t: Stmt) {
    a > 0 && IsTable(t) && Settled(m, a, t) && HasCells(m, a, a + Size(t))
  }

  lemma TableAt(m: Memory, a: int, t: Stmt, j: nat)
    requires LoadedTable(m, a, t) && j < 4
    ensures Has(m, a, TableRecord.Type()) && Has(m, a + STMT_V, a + STMT) && |t.items[0].parts| == 4
    ensures SettledLink(m, a + STMT + TableRecord.Links()[j], PartPos(TableRecord, a + STMT, t.items[0], j),
      t.items[0].parts[j])
  {
    hide SettledLink, Size, PartPos;
    TablePlaces(a, t, j);
    TableSize(a, t);
    assert SettledAt(m, a, t, 0);
    assert SettledBody(m, TableRecord, a + STMT, t.items[0]);
  }

  lemma ColumnsLoaded(m: Memory, a: int, t: Stmt)
    requires LoadedTable(m, a, t)
    ensures var c, cols := ColumnsAt(a, t), ColumnsOf(t);
      && LoadedColumns(m, c, cols) && Has(m, a + STMT + TABLE_COLUMNS, c) && Has(m, c, ColumnRecord.Type())
        && Has(m, c + STMT_V, Pos(c, cols, 0))
      && a + STMT + TableRecord.Size() <= c && c + Size(cols) <= a + Size(t)
  {
    hide Size, PartPos, SettledAt;
    TablePlaces(a, t, 2);
    TableAt(m, a, t, 2);
    FirstPlace(ColumnsAt(a, t), ColumnsOf(t));
  }

  /** The other parts of the table are not touched. */
  lemma PartKept(m0: Memory, m: Memory, a: int, t: Stmt, table: int, top: int, free: int, j: nat)
    requires LoadedTable(m0, a, t) && a + Size(t) <= top && j < 4 && j != 2 && AreColumns(ColumnsOf(t))
    requires Progress(m0, m, ColumnsAt(a, t), ColumnsOf(t), table, |ColumnsOf(t).items|, top, free)
    ensures |t.items[0].parts| == 4
    ensures LiveLink(m, a + STMT + TableRecord.Links()[j], t.items[0].parts[j],
      Region(a, a + Size(t)) + Region(top, free))
  {
    hide SettledLink, Size, PartPos, LiveLink, ColumnDone, SameLinks, Pos, WellFormed, Settled;
    TablePlaces(a, t, j);
    TableAt(m0, a, t, j);
    ColumnsEnd(ColumnsAt(a, t), ColumnsOf(t));
    var x, pos, part := a + STMT + TableRecord.Links()[j], PartPos(TableRecord, a + STMT, t.items[0], j),
      t.items[0].parts[j];
    LinkSet(m0, x, pos, part);
    ColumnsLoaded(m0, a, t);
    SettledLinkStays(m0, m, x, pos, part);
    var d := Region(a, a + Size(t)) + Region(top, free);
    forall y <- d ensures y in m { assert y in Region(top, free) || y in m0; }
    LinkLive(m, x, pos, part, d);
  }

  lemma ColumnsEnd(c: int, cols: Stmt)
    requires AreColumns(cols)
    ensures Pos(c, cols, |cols.items|) == c + Size(cols) && c + STMT <= Pos(c, cols, 0)
  {}

  lemma ColumnsLive(m0: Memory, m: Memory, c: int, cols: Stmt, table: int, top: int, free: int)
    requires LoadedColumns(m0, c, cols) && c + Size(cols) <= top
    requires Progress(m0, m, c, cols, table, |cols.items|, top, free)
    requires Has(m0, c, ColumnRecord.Type()) && Has(m0, c + STMT_V, Pos(c, cols, 0))
    ensures Live(m, c, PiecedColumns(cols), Region(c, c + Size(cols)) + Region(top, free))
  {
    hide LiveRecord, Pos, Linked, WellFormed, Size, Settled, PiecedColumns, SameLinks, ColumnDone;
    var d, ps, cols' := Region(c, c + Size(cols)) + Region(top, free), Positions(c, cols), PiecedColumns(cols);
    ColumnsRing(m0, m, c, cols, table, top, free);
    forall k | 0 <= k < |ps| ensures ps[k] != 0 && LiveRecord(m, ColumnRecord, ps[k], cols'.items[k], d) {
      PosAfter(c, cols, k);
      DoneLive(m0, m, c, cols, table, k, top, free);
    }
    ColumnsEnd(c, cols);
    NotEmpty(cols);
    assert LiveChain(m, ps, cols', d);
    assert Span(d, c, STMT);
  }

  lemma NotEmpty(cols: Stmt)
    requires AreColumns(cols)
    ensures |cols.items| >= 1 && Size(cols) >= STMT
  {}

  lemma DoneLive(m0: Memory, m: Memory, c: int, cols: Stmt, table: int, k: nat, top: int, free: int)
    requires LoadedColumns(m0, c, cols) && k < |cols.items| && Progress(m0, m, c, cols, table, |cols.items|, top, free)
    ensures LiveRecord(m, ColumnRecord, Pos(c, cols, k), WithPiece(cols.items[k], k + 1),
      Region(c, c + Size(cols)) + Region(top, free))
  {
    hide LiveRecord, Pos, WellFormed, Size, Settled, WithPiece, SameLinks, ItemSize;
    RecordsApart(c, cols, k, k);
    AreaCells(m0, c, cols, k);
    assert ColumnDone(m, c, cols, table, k, top, free);
    var d, d' := Area(c, cols, k) + Region(top, free), Region(c, c + Size(cols)) + Region(top, free);
    assert d <= d' && Agree(m, m, d);
    RecordFrame(m, m, ColumnRecord, Pos(c, cols, k), WithPiece(cols.items[k], k + 1), d, d');
  }

  lemma ColumnsRing(m0: Memory, m: Memory, c: int, cols: Stmt, table: int, top: int, free: int)
    requires LoadedColumns(m0, c, cols) && Progress(m0, m, c, cols, table, |cols.items|, top, free)
    ensures Linked(m, ColumnRecord, Positions(c, cols))
  {
    hide Progress, Settled, HasCells, WellFormed, Pos, After, Positions, IsColumn;
    var ps := Positions(c, cols);
    forall k | 0 <= k < |ps|
      ensures k > 0 ==> ps[k] != ps[0]
      ensures Has(m, ps[k] + ColumnRecord.Next(), After(ps, k)) && Has(m, After(ps, k) + ColumnRecord.Prev(), ps[k])
    {
      ColumnLinks(m0, m, c, cols, table, top, free, k);
    }
  }

  lemma ColumnLinks(m0: Memory, m: Memory, c: int, cols: Stmt, table: int, top: int, free: int, k: nat)
    requires LoadedColumns(m0, c, cols) && Progress(m0, m, c, cols, table, |cols.items|, top, free) && k < |cols.items|
    ensures var ps := Positions(c, cols);
      && (k > 0 ==> ps[k] != ps[0])
      && Has(m, ps[k] + ColumnRecord.Next(), After(ps, k)) && Has(m, After(ps, k) + ColumnRecord.Prev(), ps[k])
  {
    hide Pos, WellFormed, Size, Settled, ColumnDone;
    var ps, n := Positions(c, cols), if k + 1 == |cols.items| then 0 else k + 1;
    LinksLoaded(m0, c, cols, k);
    assert SameLinks(m0, m, Pos(c, cols, k)) && SameLinks(m0, m, Pos(c, cols, n));
    if k > 0 { FirstDiffers(c, cols, k); }
  }

  lemma TableLive(m0: Memory, m: Memory, a: int, t: Stmt, table: int, top: int, free: int)
    requires LoadedTable(m0, a, t) && a + Size(t) <= top && AreColumns(ColumnsOf(t))
    requires Progress(m0, m, ColumnsAt(a, t), ColumnsOf(t), table, |ColumnsOf(t).items|, top, free)
    ensures Live(m, a, PiecedTable(t), Region(a, a + Size(t)) + Region(top, free))
  {
    hide Size, LiveLink, ColumnDone, SameLinks, Pos, WellFormed, Settled, PiecedColumns, ColumnsAt, Kind.Links;
    var c, cols, d := ColumnsAt(a, t), ColumnsOf(t), Region(a, a + Size(t)) + Region(top, free);
    var it := PiecedTable(t).items[0];
    TablePlaces(a, t, 2);
    TableAt(m0, a, t, 2);
    ColumnsLoaded(m0, a, t);
    ColumnsEnd(c, cols);
    forall j | 0 <= j < 4 ensures LiveLink(m, a + STMT + TableRecord.Links()[j], it.parts[j], d) {
      if j == 2 { ColumnsLink(m0, m, a, t, table, top, free); } else { PartKept(m0, m, a, t, table, top, free, j); }
    }
    assert Span(d, a + STMT, TableRecord.Size()) && Span(d, a, STMT);
    TableRecordLive(m, a + STMT, t, d);
    assert LiveChain(m, [a + STMT], PiecedTable(t), d);
  }

  lemma TableRecordLive(m: Memory, r: int, t: Stmt, d: set<int>)
    requires IsTable(t) && Span(d, r, TableRecord.Size()) && |PiecedTable(t).items[0].parts| == 4
    requires forall j | 0 <= j < 4 :: LiveLink(m, r + TableRecord.Links()[j], PiecedTable(t).items[0].parts[j], d)
    ensures LiveRecord(m, TableRecord, r, PiecedTable(t).items[0], d)
  {
    hide LiveLink;
    assert WellFormedItem(t.kind, t.items[0]);
  }

  lemma ColumnsLink(m0: Memory, m: Memory, a: int, t: Stmt, table: int, top: int, free: int)
    requires LoadedTable(m0, a, t) && a + Size(t) <= top && AreColumns(ColumnsOf(t))
    requires Progress(m0, m, ColumnsAt(a, t), ColumnsOf(t), table, |ColumnsOf(t).items|, top, free)
    ensures LiveLink(m, a + STMT + TableRecord.Links()[2], PiecedColumns(ColumnsOf(t)),
      Region(a, a + Size(t)) + Region(top, free))
  {
    hide Size, ColumnDone, SameLinks, Pos, WellFormed, Settled, PiecedColumns, ColumnsAt, Live;
    var c, cols := ColumnsAt(a, t), ColumnsOf(t);
    ColumnsLoaded(m0, a, t);
    ColumnsEnd(c, cols);
    ColumnsLive(m0, m, c, cols, table, top, free);
    var e, d := Region(c, c + Size(cols)) + Region(top, free), Region(a, a + Size(t)) + Region(top, free);
    forall x <- e ensures x in m { assert x in Region(top, free) || x in m0; }
    assert e <= d && Agree(m, m, e);
    LiveFrame(m, m, c, PiecedColumns(cols), e, d);
  }

  /** assign_table_to_columns, with free memory from `top` on: every column has a PIECE and a link to the
      table, and nothing else has changed. */
  method AssignTable(mach: Machine, stmt: int, top: int, ghost t: Stmt) returns (free: int)
    requires LoadedTable(mach.m, stmt, t) && stmt + Size(t) <= top && forall x | x >= top :: x !in mach.m
    modifies mach
    ensures Live(mach.m, stmt, PiecedTable(t), Region(stmt, stmt + Size(t)) + Region(top, free))
    ensures forall k | 0 <= k < |ColumnsOf(t).items| ::
      HasOwner(mach.m, Pos(ColumnsAt(stmt, t), ColumnsOf(t), k), stmt + STMT, top, free)
    ensures var c, cols := ColumnsAt(stmt, t), ColumnsOf(t);
      forall x <- old(mach.m).Keys ::
        x in mach.m && (Pos(c, cols, 0) <= x < c + Size(cols) || mach.m[x] == old(mach.m)[x])
  {
    hide Settled, Size, Pos, Live, HasOwner, LoadedColumns, AreColumns, WellFormed, SameLinks, PiecedTable,
      PiecedColumns;
    ghost var c, cols, m0 := ColumnsAt(stmt, t), ColumnsOf(t), mach.m;
    TablePlaces(stmt, t, 2);
    TableAt(m0, stmt, t, 2);
    ColumnsLoaded(m0, stmt, t);
    ColumnsEnd(c, cols);
    var table := mach.m[stmt + STMT_V];
    var columns := mach.m[table + TABLE_COLUMNS];
    var start := mach.m[columns + STMT_V];
    free := AssignColumns(mach, start, table, top, c, cols);
    TableLive(m0, mach.m, stmt, t, table, top, free);
    forall k | 0 <= k < |cols.items| ensures HasOwner(mach.m, Pos(c, cols, k), table, top, free) {
      assert ColumnDone(mach.m, c, cols, table, k, top, free);
    }
  }

  // ----- Saving a table and finding it again -----

  lemma CleanTable(t: Stmt)
    requires IsTable(t) && Supported(t)
    ensures IsTable(Clean(t)) && |ColumnsOf(Clean(t)).items| == |ColumnsOf(t).items|
    ensures forall k | 0 <= k < |ColumnsOf(t).items| :: ColumnsOf(Clean(t)).items[k] == CleanItem(ColumnsOf(t).items[k])
  {
    hide WellFormed, Clean, CleanItem;
    CleanKeeps(t);
    CleanColumns(t);
    forall k | 0 <= k < |ColumnsOf(t).items| ensures IsColumn(CleanItem(ColumnsOf(t).items[k])) {
      CleanColumn(ColumnsOf(t).items[k]);
    }
  }

  lemma CleanColumns(t: Stmt)
    requires IsTable(t) && WellFormed(Clean(t))
    ensures Clean(t).Records? && Clean(t).kind.TableRecord? && ColumnsOf(Clean(t)) == Clean(ColumnsOf(t))
    ensures var c, d := ColumnsOf(t), ColumnsOf(Clean(t));
      d.Records? && d.kind == c.kind && |d.items| == |c.items| && forall k | 0 <= k < |c.items| ::
        d.items[k] == CleanItem(c.items[k])
  {
    assert WellFormedItem(t.kind, t.items[0]);
    assert Clean(t).items[0] == CleanItem(t.items[0]);
    assert CleanItem(t.items[0]).parts[2] == Clean(t.items[0].parts[2]);
  }

  lemma PiecedIsTable(t: Stmt)
    requires IsTable(t)
    ensures IsTable(PiecedTable(t)) && ColumnsOf(PiecedTable(t)) == PiecedColumns(ColumnsOf(t))
  {
    hide WithPiece, WellFormed, PiecedColumns;
    TablePlaces(0, t, 2);
    var p, it := PiecedTable(t), t.items[0];
    assert WellFormedItem(t.kind, it) by { TableItem(t); }
    PiecedWellFormed(ColumnsOf(t));
    assert forall j | 0 <= j < 4 :: WellFormed(p.items[0].parts[j]);
    OneRecord(p);
  }

  lemma TableItem(t: Stmt)
    requires IsTable(t)
    ensures WellFormedItem(t.kind, t.items[0])
  {}

  lemma OneRecord(t: Stmt)
    requires t.Records? && |t.items| == 1 && WellFormedItem(t.kind, t.items[0])
    ensures WellFormed(t)
  {}

  lemma PiecedWellFormed(cols: Stmt)
    requires AreColumns(cols)
    ensures AreColumns(PiecedColumns(cols))
    ensures forall k | 0 <= k < |cols.items| :: HasKeyword(PiecedColumns(cols).items[k], OPTIONAL_PIECE)
  {
    hide WithPiece;
    var r := PiecedColumns(cols);
    forall k | 0 <= k < |r.items|
      ensures IsColumn(r.items[k]) && WellFormedItem(r.kind, r.items[k]) && HasKeyword(r.items[k], OPTIONAL_PIECE)
    {
      assert r.items[k] == WithPiece(cols.items[k], k + 1);
    }
  }

  /** Only columns change, and of a column only its keywords: those without a PIECE get one behind the others, which
      reads as the number of the column. */
  lemma PiecesNumberColumns(t: Stmt, k: nat)
    requires IsTable(t) && k < |ColumnsOf(t).items|
    ensures var p := PiecedTable(t);
      && IsTable(p) && |ColumnsOf(p).items| == |ColumnsOf(t).items| && p.items[0].plain == t.items[0].plain
      && |p.items[0].parts| == |t.items[0].parts|
      && forall j | 0 <= j < |p.items[0].parts| && j != 2 :: p.items[0].parts[j] == t.items[0].parts[j]
    ensures var c, c' := ColumnsOf(t).items[k], ColumnsOf(PiecedTable(t)).items[k];
      && c'.plain == c.plain && c'.parts[0] == c.parts[0] && Keywords(c) <= Keywords(c')
      && |Keywords(c')| == |Keywords(c)| + (if HasKeyword(c, OPTIONAL_PIECE) then 0 else 1)
      && (!HasKeyword(c, OPTIONAL_PIECE) ==>
            var kw := Keywords(c')[|Keywords(c)|];
            kw.plain == [OPTIONAL_PIECE] && |kw.parts| == 1 && kw.parts[0].Text? && PieceNumber(kw) == k + 1)
  {
    hide WellFormed, Decimal, NumberOf;
    PiecedIsTable(t);
    TableItem(t);
    DecimalReads(k + 1);
    PiecedIs(ColumnsOf(t).items[k], k + 1);
    if !HasKeyword(ColumnsOf(t).items[k], OPTIONAL_PIECE) { PiecedKeywords(ColumnsOf(t).items[k], k + 1); }
  }

  lemma PiecedKeywords(col: Item, n: nat)
    requires IsColumn(col) && !HasKeyword(col, OPTIONAL_PIECE)
    ensures IsColumn(Pieced(col, n)) && Keywords(Pieced(col, n)) == Keywords(col) + [PieceKeyword(n)]
  {
    PiecedIs(col, n);
    assert IsColumn(WithPiece(col, n));
  }

  /** What CREATE TABLE saves after assigning the PIECEs is found as it was saved: assigning them again
      adds nothing. */
  lemma FoundAsSaved(t: Stmt)
    requires IsTable(t) && Supported(PiecedTable(t))
    ensures var saved := Clean(PiecedTable(t)); IsTable(saved) && PiecedTable(saved) == saved
  {
    hide WithPiece, WellFormed, Clean, CleanItem, PiecedColumns, Supported;
    PiecedIsTable(t);
    var p := PiecedTable(t);
    CleanTable(p);
    var saved := Clean(p);
    var cols := ColumnsOf(saved);
    TablePlaces(0, t, 2);
    TablePlaces(0, saved, 2);
    forall k | 0 <= k < |cols.items| ensures WithPiece(cols.items[k], k + 1) == cols.items[k] {
      PieceIsKept(ColumnsOf(t).items[k], k + 1, k + 1);
    }
    assert PiecedColumns(cols).items == cols.items;
    TableItem(saved);
    assert PiecedTable(saved).items[0].parts == saved.items[0].parts;
  }

  /** A table is saved and found again at another address: the same table, hollow statements aside, with
      a PIECE for every column and every column linked to it. */
  method SaveAndFind(mach: Machine, global: Global, stmt: int, buffer: int, address: int, max: nat, ghost t: Stmt,
          ghost d: set<int>)
    returns (ok: bool, end: int, free: int)
    requires IsTable(t) && Live(mach.m, stmt, t, d) && d <= mach.m.Keys && max > 0
    requires 0 < buffer && buffer + Size(t) <= address && (forall x | x >= buffer :: x !in mach.m)
    requires forall p <- global.pieces :: |p| <= max
    modifies mach, global
    ensures ok <==> Supported(t)
    ensures ok ==> IsTable(Clean(t)) && |ColumnsOf(Clean(t)).items| == |ColumnsOf(t).items|
    ensures ok ==> Live(mach.m, address, PiecedTable(Clean(t)), Region(address, address + Size(t)) + Region(end, free))
    ensures ok ==> forall k | 0 <= k < |ColumnsOf(t).items| ::
      HasOwner(mach.m, Pos(ColumnsAt(address, Clean(t)), ColumnsOf(Clean(t)), k), address + STMT, end, free)
  {
    hide Live, Settled, Size, Supported, Clean, HasOwner, HasCells, WellFormed, PiecedTable, Pos, Hollows;
    free := 0;
    ok, end := SaveAndLoad(mach, global, stmt, buffer, address, max, t, d);
    if !ok { return; }
    CleanTable(t);
    CleanKeeps(t);
    free := AssignTable(mach, address, end, Clean(t));
  }
}
