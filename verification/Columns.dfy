/** The PIECE numbers of a table's columns, across saving and loading. */
module Columns {
  import opened Statements
  import opened SchemaStore

  const OPTIONAL_PIECE := 9
  const STRING_LITERAL := 2

  /** A column's keywords are its second pointer. */
  predicate IsColumn(col: Item) {
    WellFormedItem(ColumnRecord, col) && col.parts[1].Records? && col.parts[1].kind.KeywordRecord?
  }

  function Keywords(col: Item): (kws: seq<Item>)
    requires IsColumn(col)
    ensures kws != [] && forall k | 0 <= k < |kws| :: WellFormedItem(KeywordRecord, kws[k])
  {
    assert WellFormed(col.parts[1]);
    col.parts[1].items
  }

  predicate HasKeyword(col: Item, keyword: int)
    requires IsColumn(col)
  {
    exists i | 0 <= i < |Keywords(col)| :: Keywords(col)[i].plain == [keyword]
  }

  function Decimal(n: nat): (s: seq<int>)
    ensures s != [] && forall c <- s :: 48 <= c < 58
  {
    if n < 10 then [48 + n] else Decimal(n / 10) + [48 + n % 10]
  }

  /** The number that a string of digits is read as. */
  function NumberOf(s: seq<int>): int { if s == [] then 0 else 10 * NumberOf(s[..|s| - 1]) + s[|s| - 1] - 48 }

  /** The digits are read as the number again, and do not begin with a zero. */
  lemma {:induction false} DecimalReads(n: nat)
    ensures NumberOf(Decimal(n)) == n && (n > 0 ==> Decimal(n)[0] != 48)
  {
    if n >= 10 {
      DecimalReads(n / 10);
      assert Decimal(n)[..|Decimal(n)| - 1] == Decimal(n / 10);
    } else {
      assert NumberOf([48 + n]) == 10 * NumberOf([]) + n;
    }
  }

  /** The number in a PIECE keyword. */
  function PieceNumber(kw: Item): int
    requires kw.parts != [] && kw.parts[0].Text?
  {
    NumberOf(kw.parts[0].text)
  }

  function PieceKeyword(n: nat): Item { Item([OPTIONAL_PIECE], [Text([STRING_LITERAL, 0, 0], Decimal(n))]) }

  /** A column in place n, after the call. */
  function WithPiece(col: Item, n: nat): (r: Item)
    requires IsColumn(col)
    ensures IsColumn(r) && HasKeyword(r, OPTIONAL_PIECE)
  {
    if HasKeyword(col, OPTIONAL_PIECE) then col
    else
      var kws := Keywords(col) + [PieceKeyword(n)];
      var r := Item(col.plain, [col.parts[0], Records(KeywordRecord, kws)]);
      assert WellFormed(PieceKeyword(n).parts[0]);
      assert WellFormed(r.parts[1]) && forall j | 0 <= j < 2 :: WellFormed(r.parts[j]);
      assert Keywords(r)[|kws| - 1].plain == [OPTIONAL_PIECE];
      r
  }

  function Pieced(col: Item, n: nat): Item
    requires IsColumn(col)
  {
    Item(col.plain, [col.parts[0], Records(KeywordRecord, Keywords(col) + [PieceKeyword(n)])])
  }

  lemma PiecedIs(col: Item, n: nat)
    requires IsColumn(col)
    ensures WithPiece(col, n) == if HasKeyword(col, OPTIONAL_PIECE) then col else Pieced(col, n)
  {}

  /** Once a column has its PIECE, saving, loading and assigning again leave it as it is, wherever the
      column stands. */
  lemma PieceIsKept(col: Item, n: nat, n': nat)
    requires IsColumn(col)
    ensures var saved := CleanItem(WithPiece(col, n)); IsColumn(saved) && WithPiece(saved, n') == saved
    ensures var saved := CleanItem(WithPiece(col, n));
      |Keywords(saved)| == |Keywords(WithPiece(col, n))| && forall k | 0 <= k < |Keywords(saved)| ::
      Keywords(saved)[k].plain == Keywords(WithPiece(col, n))[k].plain
  {
    hide WithPiece;
    CleanColumn(WithPiece(col, n));
    PiecedIs(CleanItem(WithPiece(col, n)), n');
  }

  lemma CleanColumn(col: Item)
    requires IsColumn(col)
    ensures var c := CleanItem(col);
      IsColumn(c) && |Keywords(c)| == |Keywords(col)|
        && (forall k | 0 <= k < |Keywords(col)| :: Keywords(c)[k].plain == Keywords(col)[k].plain)
      && (HasKeyword(c, OPTIONAL_PIECE) <==> HasKeyword(col, OPTIONAL_PIECE))
  {
    CleanWellFormed(ColumnRecord, col);
    var c := CleanItem(col);
    assert c.parts[1] == Clean(col.parts[1]);
    assert forall k | 0 <= k < |Keywords(col)| :: Keywords(c)[k] == CleanItem(Keywords(col)[k]);
  }

  lemma {:induction false} CleanWellFormed(kind: Kind, it: Item)
    requires WellFormedItem(kind, it)
    ensures WellFormedItem(kind, CleanItem(it))
    decreases it, 1
  {
    forall j | 0 <= j < |it.parts| ensures WellFormed(CleanItem(it).parts[j]) {
      assert CleanItem(it).parts[j] == Clean(it.parts[j]);
      CleanStmtWellFormed(it.parts[j]);
    }
  }

  lemma {:induction false} CleanStmtWellFormed(t: Stmt)
    requires WellFormed(t)
    ensures WellFormed(Clean(t))
    decreases t, 0
  {
    if t.Records? {
      forall k | 0 <= k < |t.items| ensures WellFormedItem(t.kind, Clean(t).items[k]) {
        assert Clean(t).items[k] == CleanItem(t.items[k]);
        CleanWellFormed(t.kind, t.items[k]);
      }
    }
  }
}
