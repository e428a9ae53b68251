/** The keyword PIECE, made in free memory and put into the ring of a column's keywords. */
module Pieces {
  import opened Statements
  import opened Compress
  import opened Layout
  import opened SchemaStore
  import opened Columns

  const NEXT := 16
  const PREV := 24
  const KEYWORD_V := 8

  // ----- The new keyword -----

  /** The places of what is allocated from `top` on: the keyword, its digits, its value and the rest. */
  function KeywordPlace(top: int): int { top + STMT }
  function DigitsPlace(top: int): int { KeywordPlace(top) + KeywordRecord.Size() }
  function ValuePlace(top: int, n: nat): int { DigitsPlace(top) + |Decimal(n)| + 1 }
  function FreePlace(top: int, n: nat): int { ValuePlace(top, n) + STMT + VALUE + STMT }

  /** A keyword statement, its record, the digits, and a value for them. */
  method MakePiece(mach: Machine, n: nat, top: int) returns (kw: int)
    requires top > 0 && forall x | x >= top :: x !in mach.m
    modifies mach
    ensures kw == KeywordPlace(top) && mach.m.Keys == old(mach.m).Keys + Region(top, FreePlace(top, n))
    ensures forall x <- old(mach.m).Keys :: mach.m[x] == old(mach.m)[x]
    ensures LiveBody(mach.m, KeywordRecord, kw, PieceKeyword(n), Region(DigitsPlace(top), FreePlace(top, n)))
  {
    hide LiveBody, Decimal;
    kw := KeywordPlace(top);
    ghost var m0 := mach.m;
    mach.m := Allocated(mach.m, top, FreePlace(top, n) - top);
    mach.m := Overwritten(mach.m, DigitsPlace(top), Decimal(n) + [0]);
    DigitsWritten(m0, n, top);
    PieceLive(mach.m, n, top);
    mach.m := PieceFields(mach.m, n, top);
  }

  lemma AllocatedIs(m: Memory, top: int, n: nat)
    requires forall x | x >= top :: x !in m
    ensures var m' := Allocated(m, top, n);
      && m'.Keys == m.Keys + Region(top, top + n) && (forall x <- m.Keys :: m'[x] == m[x])
      && forall x | top <= x < top + n :: Has(m', x, 0)
  {
    forall x | top <= x < top + n ensures Has(Allocated(m, top, n), x, 0) { assert IsCell(x); }
  }

  lemma OverwrittenIs(m: Memory, a: int, text: seq<int>)
    requires forall x | a <= x <= a + |text| :: x in m
    ensures var m' := Overwritten(m, a, text + [0]);
      && m'.Keys == m.Keys && TextAt(m', a, text) && forall x <- m.Keys :: !(a <= x <= a + |text|) ==> m'[x] == m[x]
  {
    var m', p := Overwritten(m, a, text + [0]), text + [0];
    forall k | 0 <= k < |p| ensures Has(m', a + k, p[k]) { assert a + k in m; }
  }

  lemma DigitsWritten(m: Memory, n: nat, top: int)
    requires top > 0 && forall x | x >= top :: x !in m
    ensures var m' := Overwritten(Allocated(m, top, FreePlace(top, n) - top), DigitsPlace(top), Decimal(n) + [0]);
      && m'.Keys == m.Keys + Region(top, FreePlace(top, n)) && (forall x <- m.Keys :: m'[x] == m[x])
      && TextAt(m', DigitsPlace(top), Decimal(n))
      && forall x | ValuePlace(top, n) <= x < FreePlace(top, n) :: Has(m', x, 0)
  {
    hide Decimal, Allocated, Overwritten;
    AllocatedIs(m, top, FreePlace(top, n) - top);
    var m1 := Allocated(m, top, FreePlace(top, n) - top);
    assert forall x | top <= x < FreePlace(top, n) :: Has(m1, x, 0);
    OverwrittenIs(m1, DigitsPlace(top), Decimal(n));
    var m' := Overwritten(m1, DigitsPlace(top), Decimal(n) + [0]);
    forall x | ValuePlace(top, n) <= x < FreePlace(top, n) ensures Has(m', x, 0) { assert Has(m1, x, 0); }
  }

  /** A statement of this type for the record. */
  function Statement(m: Memory, stmt: int, tag: int, record: int): Memory { m[stmt := tag][stmt + STMT_V := record] }

  /** The statement and the record of a value with these digits. */
  function ValueFields(m: Memory, value: int, digits: int): Memory {
    Statement(m, value, VALUE_TYPE, value + STMT)[value + STMT := STRING_LITERAL][value + STMT + VALUE_V := digits]
  }

  /** The fields of the two keyword statements, of the keyword and of its value. */
  function PieceFields(m: Memory, n: nat, top: int): Memory {
    var kw, value := KeywordPlace(top), ValuePlace(top, n);
    var m1 := Statement(m, top, KeywordRecord.Type(), kw)[kw := OPTIONAL_PIECE][kw + KEYWORD_V := value];
    var m2 := ValueFields(m1, value, DigitsPlace(top));
    Statement(m2, value + STMT + VALUE, KeywordRecord.Type(), kw)
  }

  lemma KeywordWritten(m: Memory, top: int, value: int)
    requires Region(top, DigitsPlace(top)) <= m.Keys
    ensures var kw := KeywordPlace(top);
      var m' := Statement(m, top, KeywordRecord.Type(), kw)[kw := OPTIONAL_PIECE][kw + KEYWORD_V := value];
      Outside(m, m', top, DigitsPlace(top)) && Has(m', kw, OPTIONAL_PIECE) && Has(m', kw + KEYWORD_V, value)
  {
    var kw := KeywordPlace(top);
    assert {top, top + STMT_V, kw, kw + KEYWORD_V} <= Region(top, DigitsPlace(top));
  }

  lemma ValueWritten(m: Memory, value: int, digits: int)
    requires Region(value, value + STMT + VALUE) <= m.Keys && Has(m, value + STMT + 4, 0) && Has(m, value + STMT + 8, 0)
    ensures var m' := ValueFields(m, value, digits);
      && Outside(m, m', value, value + STMT + VALUE) && Has(m', value, VALUE_TYPE)
        && Has(m', value + STMT_V, value + STMT)
      && PlainAt(m', value + STMT, VALUE_PLAIN, [STRING_LITERAL, 0, 0]) && Has(m', value + STMT + VALUE_V, digits)
  {
    assert {value, value + STMT_V, value + STMT, value + STMT + VALUE_V} <= Region(value, value + STMT + VALUE);
  }

  lemma StatementWritten(m: Memory, stmt: int, tag: int, record: int)
    requires Region(stmt, stmt + STMT) <= m.Keys
    ensures Outside(m, Statement(m, stmt, tag, record), stmt, stmt + STMT)
  {
    assert {stmt, stmt + STMT_V} <= Region(stmt, stmt + STMT);
  }

  lemma PartRegion(lo: int, hi: int, a: int, b: int)
    requires a <= lo && hi <= b
    ensures Region(lo, hi) <= Region(a, b)
  {}

  lemma FieldsWritten(m: Memory, n: nat, top: int)
    requires forall x | ValuePlace(top, n) <= x < FreePlace(top, n) :: Has(m, x, 0)
    requires top > 0 && Region(top, FreePlace(top, n)) <= m.Keys
    ensures var m' := PieceFields(m, n, top); var kw, value := KeywordPlace(top), ValuePlace(top, n);
      && m'.Keys == m.Keys && (forall x <- m.Keys :: x < top || DigitsPlace(top) <= x < value ==> m'[x] == m[x])
      && Has(m', kw, OPTIONAL_PIECE) && Has(m', kw + KEYWORD_V, value) && Has(m', value, VALUE_TYPE)
        && Has(m', value + STMT_V, value + STMT)
      && PlainAt(m', value + STMT, VALUE_PLAIN, [STRING_LITERAL, 0, 0])
        && Has(m', value + STMT + VALUE_V, DigitsPlace(top))
  {
    hide Decimal, Statement, Region, ValueFields;
    var kw, value := KeywordPlace(top), ValuePlace(top, n);
    PartRegion(top, DigitsPlace(top), top, FreePlace(top, n));
    PartRegion(value, value + STMT + VALUE, top, FreePlace(top, n));
    PartRegion(value + STMT + VALUE, value + STMT + VALUE + STMT, top, FreePlace(top, n));
    assert Has(m, value + STMT + 4, 0) && Has(m, value + STMT + 8, 0);
    KeywordWritten(m, top, value);
    var m1 := Statement(m, top, KeywordRecord.Type(), kw)[kw := OPTIONAL_PIECE][kw + KEYWORD_V := value];
    ValueWritten(m1, value, DigitsPlace(top));
    var m2 := ValueFields(m1, value, DigitsPlace(top));
    StatementWritten(m2, value + STMT + VALUE, KeywordRecord.Type(), kw);
    var m' := PieceFields(m, n, top);
    assert m' == Statement(m2, value + STMT + VALUE, KeywordRecord.Type(), kw);
    PlainKept(m2, m', value + STMT);
  }

  lemma PlainKept(m: Memory, m': Memory, r: int)
    requires PlainAt(m, r, VALUE_PLAIN, [STRING_LITERAL, 0, 0]) && Outside(m, m', r + VALUE, r + VALUE + STMT)
    ensures PlainAt(m', r, VALUE_PLAIN, [STRING_LITERAL, 0, 0])
  {}

  lemma PieceLive(before: Memory, n: nat, top: int)
    requires forall x | ValuePlace(top, n) <= x < FreePlace(top, n) :: Has(before, x, 0)
    requires top > 0 && Region(top, FreePlace(top, n)) <= before.Keys && TextAt(before, DigitsPlace(top), Decimal(n))
    ensures var m := PieceFields(before, n, top);
      && m.Keys == before.Keys && (forall x <- before.Keys :: x < top ==> m[x] == before[x])
      && LiveBody(m, KeywordRecord, KeywordPlace(top), PieceKeyword(n), Region(DigitsPlace(top), FreePlace(top, n)))
  {
    hide Decimal, PieceFields;
    FieldsWritten(before, n, top);
    var m := PieceFields(before, n, top);
    var d, value := Region(DigitsPlace(top), FreePlace(top, n)), ValuePlace(top, n);
    var text := PieceKeyword(n).parts[0];
    assert LiveText(m, value + STMT, text.plain, text.text, d);
    assert LiveLink(m, KeywordPlace(top) + KEYWORD_V, text, d);
  }

  // ----- Into the ring -----

  /** m' is m with the new keyword behind the last one of a ring. */
  ghost predicate Inserted(m: Memory, m': Memory, first: int, last: int, kw: int, n: nat, top: int, free: int) {
    && (forall x <- m.Keys :: x in m' && (x == last + NEXT || x == first + PREV || m'[x] == m[x]))
      && Region(top, free) <= m'.Keys
    && Has(m', last + NEXT, kw) && Has(m', kw + PREV, last) && Has(m', kw + NEXT, first) && Has(m', first + PREV, kw)
    && LiveRecord(m', KeywordRecord, kw, PieceKeyword(n), Region(top, free)) && top < kw < free
      && forall x | x >= free :: x !in m'
  }

  /** dqinit of one link, and dqinsert of it into the ring of `first`. */
  function RingInsert(m: Memory, first: int, kw: int): Memory
    requires first + PREV in m
  {
    var m1 := m[kw + NEXT := kw][kw + PREV := kw];
    var temp := m1[first + PREV];
    var m2 := m1[temp + NEXT := kw];
    var m3 := m2[first + PREV := m2[kw + PREV]];
    var m4 := m3[m3[kw + PREV] + NEXT := first];
    m4[kw + PREV := temp]
  }

  lemma RingInsertIs(m: Memory, first: int, last: int, kw: int)
    requires Has(m, first + PREV, last) && last + NEXT in m && kw + NEXT in m && kw + PREV in m
    requires first + KeywordRecord.Size() <= kw && last + KeywordRecord.Size() <= kw
    ensures var m' := RingInsert(m, first, kw);
      && m'.Keys == m.Keys && Has(m', last + NEXT, kw) && Has(m', first + PREV, kw) && Has(m', kw + NEXT, first)
        && Has(m', kw + PREV, last)
      && forall x <- m.Keys ::
        x == last + NEXT || x == first + PREV || x == kw + NEXT || x == kw + PREV || m'[x] == m[x]
  {}

  /** The block of assign_table_to_columns for a column without a PIECE. */
  method AddPiece(mach: Machine, first: int, n: nat, top: int) returns (kw: int, free: int)
    requires top > 0 && (forall x | x >= top :: x !in mach.m) && first + KeywordRecord.Size() <= top
    requires first + PREV in mach.m && mach.m[first + PREV] + NEXT in mach.m
    requires mach.m[first + PREV] + KeywordRecord.Size() <= top
    modifies mach
    ensures Inserted(old(mach.m), mach.m, first, old(mach.m)[first + PREV], kw, n, top, free)
  {
    hide LiveBody, FreePlace, RingInsert;
    ghost var last := mach.m[first + PREV];
    kw := MakePiece(mach, n, top);
    free := FreePlace(top, n);
    KeywordCells(top, n);
    RingInsertIs(mach.m, first, last, kw);
    RingKeepsRecord(mach.m, RingInsert(mach.m, first, kw), n, top, first, last);
    mach.m := RingInsert(mach.m, first, kw);
  }

  lemma KeywordCells(top: int, n: nat)
    ensures KeywordPlace(top) + NEXT in Region(top, FreePlace(top, n))
    ensures KeywordPlace(top) + PREV in Region(top, FreePlace(top, n))
    ensures KeywordPlace(top) + KeywordRecord.Size() <= FreePlace(top, n)
  {}

  /** The links of the new record are not part of its contents. */
  lemma RingKeepsRecord(m: Memory, m': Memory, n: nat, top: int, first: int, last: int)
    requires m'.Keys == m.Keys && first + KeywordRecord.Size() <= top && last + KeywordRecord.Size() <= top
    requires var kw := KeywordPlace(top); forall x <- m.Keys ::
      x == last + NEXT || x == first + PREV || x == kw + NEXT || x == kw + PREV || m'[x] == m[x]
    requires Region(top, FreePlace(top, n)) <= m.Keys
    requires LiveBody(m, KeywordRecord, KeywordPlace(top), PieceKeyword(n), Region(DigitsPlace(top), FreePlace(top, n)))
    ensures LiveRecord(m', KeywordRecord, KeywordPlace(top), PieceKeyword(n), Region(top, FreePlace(top, n)))
  {
    hide LiveBody, Decimal;
    var kw, d, e := KeywordPlace(top), Region(top, FreePlace(top, n)), Region(DigitsPlace(top), FreePlace(top, n));
    assert e <= d && kw in d && kw + KEYWORD_V in d;
    BodyFrame(m, m', KeywordRecord, kw, PieceKeyword(n), e, d);
  }

  // ----- The longer ring is live -----

  /** A ring of keywords as loading leaves it, at q. */
  predicate LoadedRing(m: Memory, q: int, kws: Stmt) {
    && q > 0 && kws.Records? && kws.kind.KeywordRecord? && WellFormed(kws) && Settled(m, q, kws)
      && HasCells(m, q, q + Size(kws))
  }

  function Last(q: int, kws: Stmt): int
    requires kws.Records? && |kws.items| >= 1
  {
    Pos(q, kws, |kws.items| - 1)
  }

  function Longer(kws: Stmt, n: nat): Stmt
    requires kws.Records?
  {
    Records(kws.kind, kws.items + [PieceKeyword(n)])
  }

  /** The insertion changes links only. */
  lemma KeywordKept(m: Memory, m': Memory, q: int, kws: Stmt, kw: int, n: nat, top: int, free: int, j: nat)
    requires LoadedRing(m, q, kws) && q + Size(kws) <= top && j < |kws.items|
    requires Inserted(m, m', Pos(q, kws, 0), Last(q, kws), kw, n, top, free)
    ensures LiveRecord(m', KeywordRecord, Pos(q, kws, j), kws.items[j], Region(q, q + Size(kws)) + Region(top, free))
  {
    hide SettledBody, LiveBody, ItemSize, ItemsSize, Size, Pos, LiveRecord, SameFields;
    var p, it := Pos(q, kws, j), kws.items[j];
    assert SettledAt(m, q, kws, j) && WellFormedItem(kws.kind, it);
    RecordsApart(q, kws, j, 0);
    RecordsApart(q, kws, j, |kws.items| - 1);
    RecordsApart(q, kws, 0, j);
    RecordsApart(q, kws, |kws.items| - 1, j);
    KeywordFieldsKept(m, m', p, Pos(q, kws, 0), Last(q, kws));
    SettledBodyStays(m, m', KeywordRecord, p, it);
    var d := Region(q, q + Size(kws)) + Region(top, free);
    forall x <- d ensures x in m' { assert x in Region(top, free) || x in m; }
    BodyLive(m', KeywordRecord, p, it, d);
    RecordOf(m', p, it, d);
  }

  lemma KeywordFieldsKept(m: Memory, m': Memory, p: int, first: int, last: int)
    requires (forall x | p <= x < p + KeywordRecord.Size() :: x in m)
    requires (forall x <- m.Keys :: x in m' && (x == last + NEXT || x == first + PREV || m'[x] == m[x]))
    requires (p == first || p + KeywordRecord.Size() <= first || first + KeywordRecord.Size() <= p)
    requires (p == last || p + KeywordRecord.Size() <= last || last + KeywordRecord.Size() <= p)
    ensures SameFields(m, m', KeywordRecord, p, p, |KeywordRecord.Links()|)
  {
    assert p in m && p + KEYWORD_V in m;
  }

  lemma RecordOf(m: Memory, p: int, it: Item, d: set<int>)
    requires LiveBody(m, KeywordRecord, p, it, d) && Span(d, p, KeywordRecord.Size())
    ensures LiveRecord(m, KeywordRecord, p, it, d)
  {}

  lemma LongerLinked(m: Memory, m': Memory, q: int, kws: Stmt, kw: int, n: nat, top: int, free: int)
    requires LoadedRing(m, q, kws) && q + Size(kws) <= top
    requires Inserted(m, m', Pos(q, kws, 0), Last(q, kws), kw, n, top, free)
    ensures Linked(m', KeywordRecord, Positions(q, kws) + [kw])
  {
    hide Inserted, Settled, WellFormed, HasCells, Size, Pos, After, Positions;
    var ps := Positions(q, kws) + [kw];
    forall k | 0 <= k < |ps|
      ensures k > 0 ==> ps[k] != ps[0]
      ensures Has(m', ps[k] + NEXT, After(ps, k)) && Has(m', After(ps, k) + PREV, ps[k])
    {
      LinkAt(m, m', q, kws, kw, n, top, free, k);
    }
  }

  lemma LinkAt(m: Memory, m': Memory, q: int, kws: Stmt, kw: int, n: nat, top: int, free: int, k: nat)
    requires LoadedRing(m, q, kws) && q + Size(kws) <= top && k <= |kws.items|
    requires Inserted(m, m', Pos(q, kws, 0), Last(q, kws), kw, n, top, free)
    ensures var ps := Positions(q, kws) + [kw];
      && (k > 0 ==> ps[k] != ps[0]) && Has(m', ps[k] + NEXT, After(ps, k)) && Has(m', After(ps, k) + PREV, ps[k])
  {
    var last := |kws.items| - 1;
    hide LiveRecord, Settled, Size, Pos, WellFormed;
    if k < last { LinkKept(m, m', q, kws, kw, n, top, free, k); }
    if 0 < k <= last { FirstDiffers(q, kws, k); }
    if k == last + 1 { FirstBelow(q, kws, top); }
  }

  lemma FirstBelow(q: int, kws: Stmt, top: int)
    requires kws.Records? && |kws.items| >= 1 && q + Size(kws) <= top
    ensures Pos(q, kws, 0) < top
  {
    hide ItemSize, ItemsSize, Size;
    RecordsApart(q, kws, 0, 0);
    PositiveSize(kws.kind);
  }

  lemma FirstDiffers(q: int, kws: Stmt, k: nat)
    requires kws.Records? && 0 < k < |kws.items|
    ensures Pos(q, kws, k) != Pos(q, kws, 0)
  {
    hide ItemSize, ItemsSize;
    RecordsApart(q, kws, 0, k);
    PositiveSize(kws.kind);
  }

  lemma LinkKept(m: Memory, m': Memory, q: int, kws: Stmt, kw: int, n: nat, top: int, free: int, k: nat)
    requires LoadedRing(m, q, kws) && k + 1 < |kws.items|
    requires Inserted(m, m', Pos(q, kws, 0), Last(q, kws), kw, n, top, free)
    ensures Has(m', Pos(q, kws, k) + NEXT, Pos(q, kws, k + 1)) && Has(m', Pos(q, kws, k + 1) + PREV, Pos(q, kws, k))
  {
    hide LiveRecord, SettledBody, Size, Pos, ItemSize, WellFormed;
    assert SettledAt(m, q, kws, k);
    RecordsApart(q, kws, k, |kws.items| - 1);
    RecordsApart(q, kws, k, 0);
    RecordsApart(q, kws, k + 1, 0);
    RecordsApart(q, kws, k + 1, |kws.items| - 1);
  }

  /** The statement for the keywords now has the new one, too. */
  lemma LongerLive(m: Memory, m': Memory, q: int, kws: Stmt, kw: int, n: nat, top: int, free: int)
    requires LoadedRing(m, q, kws) && q + Size(kws) <= top
    requires Inserted(m, m', Pos(q, kws, 0), Last(q, kws), kw, n, top, free)
    ensures Live(m', q, Longer(kws, n), Region(q, q + Size(kws)) + Region(top, free))
  {
    hide LiveRecord, Inserted, SettledAt, Pos, Linked, WellFormedItem;
    var d, ps := Region(q, q + Size(kws)) + Region(top, free), Positions(q, kws) + [kw];
    LongerLinked(m, m', q, kws, kw, n, top, free);
    HeadKept(m, m', q, kws, kw, n, top, free);
    forall k | 0 <= k < |ps| ensures ps[k] != 0 && LiveRecord(m', KeywordRecord, ps[k], Longer(kws, n).items[k], d) {
      if k < |kws.items| {
        KeywordKept(m, m', q, kws, kw, n, top, free, k);
        PosAfter(q, kws, k);
      } else {
        NewRecord(m, m', q, kws, kw, n, top, free);
      }
    }
    assert LiveChain(m', ps, Longer(kws, n), d);
    assert Span(d, q, STMT);
  }

  lemma HeadKept(m: Memory, m': Memory, q: int, kws: Stmt, kw: int, n: nat, top: int, free: int)
    requires LoadedRing(m, q, kws) && Inserted(m, m', Pos(q, kws, 0), Last(q, kws), kw, n, top, free)
    ensures Has(m', q, KeywordRecord.Type()) && Has(m', q + STMT_V, Pos(q, kws, 0)) && Size(kws) >= STMT
  {
    hide LiveRecord, SettledAt, Pos, WellFormedItem;
    PosAfter(q, kws, 0);
    PosAfter(q, kws, |kws.items| - 1);
    FirstPlace(q, kws);
  }

  lemma FirstPlace(q: int, kws: Stmt)
    requires kws.Records?
    ensures Pos(q, kws, 0) == q + STMT
  {
    NoItems(kws);
  }

  lemma NewRecord(m: Memory, m': Memory, q: int, kws: Stmt, kw: int, n: nat, top: int, free: int)
    requires LoadedRing(m, q, kws) && Inserted(m, m', Pos(q, kws, 0), Last(q, kws), kw, n, top, free)
    requires q + Size(kws) <= top
    ensures kw != 0 && LiveRecord(m', KeywordRecord, kw, PieceKeyword(n), Region(q, q + Size(kws)) + Region(top, free))
  {
    hide LiveRecord, SettledAt, Pos, WellFormed, Size;
    var e := Region(top, free);
    assert Agree(m', m', e);
    RecordFrame(m', m', KeywordRecord, kw, PieceKeyword(n), e, Region(q, q + Size(kws)) + e);
  }
}
