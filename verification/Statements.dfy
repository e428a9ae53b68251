/** The statements a table is made of, and the two forms they take in memory: live, with absolute
    pointers and closed rings, and packed, one record after another with relative pointers. */
module Statements {
  /** Memory, one cell per byte. A field that is wider than a byte stands in its first cell. */
  type Memory = map<int, int>

  predicate Has(m: Memory, x: int, v: int) { x in m && m[x] == v }

  /** The cells lo .. hi of m stand in m' too, d cells further on. */
  predicate Copy(m: Memory, m': Memory, lo: int, hi: int, d: int) {
    forall x | lo <= x < hi :: x in m && Has(m', x + d, m[x])
  }

  function Region(lo: int, hi: int): set<int> { set x: int {:trigger IsCell(x)} | lo <= x < hi && IsCell(x) }

  predicate IsCell(x: int) { true }

  predicate Agree(m: Memory, m': Memory, d: set<int>) {
    forall x <- d :: x in m && Has(m', x, m[x])
  }

  /** The memory is the same outside lo .. hi. */
  predicate Outside(m: Memory, m': Memory, lo: int, hi: int) {
    m'.Keys == m.Keys && forall x <- m.Keys :: lo <= x < hi || m'[x] == m[x]
  }

  class Machine {
    var m: Memory
  }

  // ----- Records -----

  const STMT := 32
  const STMT_V := 24
  const VALUE := 24
  const VALUE_V := 16
  const VALUE_TYPE := 4
  const VALUE_PLAIN: seq<int> := [0, 4, 8]
  const CALCULATED := 5

  /** The records that a statement points to, other than a literal. */
  datatype Kind = TableRecord | CalculatedRecord | ColumnRecord | KeywordRecord
  {
    /** The type tag of a statement for such records. */
    function Type(): int {
      match this
      case TableRecord => 0
      case CalculatedRecord => VALUE_TYPE
      case ColumnRecord => 9
      case KeywordRecord => 14
    }

    function Size(): nat {
      match this
      case TableRecord => 48
      case CalculatedRecord => VALUE
      case ColumnRecord => 48
      case KeywordRecord => 32
    }

    /** The pointers to other statements, in the order they are followed. */
    function Links(): seq<int> {
      match this
      case TableRecord => [0, 8, 16, 24]
      case CalculatedRecord => [VALUE_V]
      case ColumnRecord => [0, 24]
      case KeywordRecord => [8]
    }

    /** The fields that hold no pointer. */
    function Plain(): seq<int> {
      match this
      case TableRecord => []
      case CalculatedRecord => VALUE_PLAIN
      case ColumnRecord => [8]
      case KeywordRecord => [0]
    }

    /** Columns and keywords come in rings. */
    predicate Ring() { ColumnRecord? || KeywordRecord? }

    function Next(): int { if ColumnRecord? then 32 else 16 }

    function Prev(): int { if ColumnRecord? then 40 else 24 }
  }

  lemma Fields(kind: Kind)
    ensures forall j | 0 <= j < |kind.Links()| ::
      0 <= kind.Links()[j] < kind.Size() && !(kind.Ring() && kind.Links()[j] in {kind.Next(), kind.Prev()})
    ensures forall j | 0 <= j < |kind.Plain()| ::
      0 <= kind.Plain()[j] < kind.Size() && !(kind.Ring() && kind.Plain()[j] in {kind.Next(), kind.Prev()})
    ensures forall i, j | 0 <= i < |kind.Plain()| && 0 <= j < |kind.Links()| :: kind.Plain()[i] != kind.Links()[j]
    ensures forall i, j | 0 <= i < j < |kind.Links()| :: kind.Links()[i] != kind.Links()[j]
    ensures kind.Ring() ==> 0 <= kind.Next() < kind.Size() && 0 <= kind.Prev() < kind.Size()
    ensures kind.Ring() ==> kind.Next() != kind.Prev()
  {}

  /** Empty is a null pointer, Hollow a statement that points to nothing, Foreign one of a type that
      no table contains. Text is any value but a calculated one. */
  datatype Stmt =
    | Empty | Hollow | Foreign(tag: int)
    | Text(plain: seq<int>, text: seq<int>)
    | Records(kind: Kind, items: seq<Item>)

  datatype Item = Item(plain: seq<int>, parts: seq<Stmt>)

  predicate WellFormed(t: Stmt)
    decreases t, 0
  {
    match t
    case Foreign(tag) => tag != 0 && tag != 4 && tag != 9 && tag != 14
    case Text(plain, text) => |plain| == 3 && plain[0] != CALCULATED && forall c <- text :: c != 0
    case Records(kind, items) => |items| >= 1 && (kind.Ring() || |items| == 1) && forall k | 0 <= k < |items| ::
      WellFormedItem(kind, items[k])
    case _ => true
  }

  predicate WellFormedItem(kind: Kind, it: Item)
    decreases it, 0
  {
    && |it.plain| == |kind.Plain()| && |it.parts| == |kind.Links()|
      && (kind.CalculatedRecord? ==> it.plain[0] == CALCULATED)
    && forall j | 0 <= j < |it.parts| :: WellFormed(it.parts[j])
  }

  /** Nothing in it is of a foreign type. */
  predicate Supported(t: Stmt) {
    match t
    case Foreign(_) => false
    case Records(_, items) => forall k | 0 <= k < |items| :: SupportedItem(items[k])
    case _ => true
  }

  predicate SupportedItem(it: Item) {
    forall j | 0 <= j < |it.parts| :: Supported(it.parts[j])
  }

  // ----- The size of the packed form -----

  function Size(t: Stmt): nat
    decreases t, 1
  {
    match t
    case Empty => 0
    case Hollow => 0
    case Foreign(_) => STMT
    case Text(_, text) => STMT + VALUE + |text| + 1
    case Records(_, items) => STMT + ItemsSize(t, |items|)
  }

  /** The first k records. */
  function ItemsSize(t: Stmt, k: nat): nat
    requires t.Records? && k <= |t.items|
    decreases t, 0, k
  {
    if k == 0 then 0 else ItemsSize(t, k - 1) + ItemSize(t.kind, t.items[k - 1])
  }

  function ItemSize(kind: Kind, it: Item): nat
    decreases it, 1
  {
    kind.Size() + PartsSize(it, |it.parts|)
  }

  /** What the first j pointers of a record lead to. */
  function PartsSize(it: Item, j: nat): nat
    requires j <= |it.parts|
    decreases it, 0, j
  {
    if j == 0 then 0 else PartsSize(it, j - 1) + Size(it.parts[j - 1])
  }

  lemma {:induction false} PartsGrow(it: Item, i: nat, j: nat)
    requires i <= j <= |it.parts|
    ensures PartsSize(it, i) <= PartsSize(it, j)
    decreases j - i
  {
    if i < j { PartsGrow(it, i, j - 1); }
  }

  lemma {:induction false} PartFits(it: Item, i: nat, j: nat)
    requires i < j <= |it.parts|
    ensures PartsSize(it, i) + Size(it.parts[i]) <= PartsSize(it, j)
  {
    PartsGrow(it, i + 1, j);
  }

  lemma {:induction false} ItemsGrow(t: Stmt, i: nat, k: nat)
    requires t.Records? && i <= k <= |t.items|
    ensures ItemsSize(t, i) <= ItemsSize(t, k)
    decreases k - i
  {
    if i < k { ItemsGrow(t, i, k - 1); }
  }

  lemma {:induction false} ItemFits(t: Stmt, i: nat, k: nat)
    requires t.Records? && i < k <= |t.items|
    ensures ItemsSize(t, i) + ItemSize(t.kind, t.items[i]) <= ItemsSize(t, k)
  {
    ItemsGrow(t, i + 1, k);
  }

  // ----- The packed form -----

  predicate PlainAt(m: Memory, r: int, fields: seq<int>, plain: seq<int>) {
    |plain| == |fields| && forall j | 0 <= j < |fields| :: Has(m, r + fields[j], plain[j])
  }

  /** A zero-terminated string. */
  predicate TextAt(m: Memory, a: int, text: seq<int>) {
    (forall k | 0 <= k < |text| :: Has(m, a + k, text[k])) && Has(m, a + |text|, 0)
  }

  predicate Packed(m: Memory, a: int, t: Stmt)
    decreases t, 1
  {
    match t
    case Text(plain, text) =>
      && Has(m, a, VALUE_TYPE) && Has(m, a + STMT_V, STMT - STMT_V) && PlainAt(m, a + STMT, VALUE_PLAIN, plain)
      && Has(m, a + STMT + VALUE_V, VALUE - VALUE_V) && TextAt(m, a + STMT + VALUE, text)
    case Records(kind, items) =>
      && Has(m, a, kind.Type()) && Has(m, a + STMT_V, STMT - STMT_V)
      && forall k | 0 <= k < |items| :: PackedAt(m, a, t, k)
    case _ => false
  }

  /** Record k, with a relative pointer to the next one or a zero in the last. */
  predicate PackedAt(m: Memory, a: int, t: Stmt, k: nat)
    requires t.Records? && k < |t.items|
    decreases t, 0
  {
    var r := a + STMT + ItemsSize(t, k);
    && PackedBody(m, t.kind, r, t.items[k], |t.items[k].parts|)
    && (t.kind.Ring() ==> Has(m, r + t.kind.Next(), if k + 1 == |t.items| then 0
      else ItemSize(t.kind, t.items[k]) - t.kind.Next()))
  }

  /** The record at r with its first n pointers packed. */
  predicate PackedBody(m: Memory, kind: Kind, r: int, it: Item, n: nat)
    decreases it, 0
  {
    && PlainAt(m, r, kind.Plain(), it.plain) && n <= |it.parts| == |kind.Links()|
    && forall j | 0 <= j < n :: PackedLink(m, r + kind.Links()[j], r + kind.Size() + PartsSize(it, j), it.parts[j])
  }

  /** The pointer at x: zero for nothing, or else the distance to the statement at pos. */
  predicate PackedLink(m: Memory, x: int, pos: int, t: Stmt)
    decreases t, 2
  {
    if t.Empty? || t.Hollow? then Has(m, x, 0) else Has(m, x, pos - x) && Packed(m, pos, t)
  }

  /** A keyword of type 9 with the literal "1", packed at 100: the statement, its record, and the statement, the
      record and the text of its value, each pointer holding its distance from where it stands. */
  lemma PackedKeyword(m: Memory)
    ensures Packed(m, 100, Records(KeywordRecord, [Item([9], [Text([2, 0, 0], [49])])])) <==>
      && Has(m, 100, 14) && Has(m, 124, 8) && Has(m, 132, 9) && Has(m, 140, 24) && Has(m, 148, 0)
      && Has(m, 164, 4) && Has(m, 188, 8) && Has(m, 196, 2) && Has(m, 200, 0) && Has(m, 204, 0) && Has(m, 212, 8)
      && Has(m, 220, 49) && Has(m, 221, 0)
  {
    var value, it := Text([2, 0, 0], [49]), Item([9], [Text([2, 0, 0], [49])]);
    var t := Records(KeywordRecord, [it]);
    assert PartsSize(it, 0) == 0 && ItemsSize(t, 0) == 0;
    assert VALUE_PLAIN[0] == 0 && VALUE_PLAIN[1] == 4 && VALUE_PLAIN[2] == 8;
    assert PlainAt(m, 196, VALUE_PLAIN, value.plain) <==>
      Has(m, 196 + VALUE_PLAIN[0], 2) && Has(m, 196 + VALUE_PLAIN[1], 0) && Has(m, 196 + VALUE_PLAIN[2], 0);
    assert TextAt(m, 220, value.text) <==> Has(m, 220 + 0, value.text[0]) && Has(m, 221, 0);
    assert Packed(m, 164, value) <==>
      && Has(m, 164, 4) && Has(m, 188, 8) && Has(m, 196, 2) && Has(m, 200, 0) && Has(m, 204, 0) && Has(m, 212, 8)
      && Has(m, 220, 49) && Has(m, 221, 0);
    assert PackedBody(m, KeywordRecord, 132, it, 1) <==>
      Has(m, 132, 9) && Has(m, 140, 24) && Packed(m, 164, value);
    assert PackedAt(m, 100, t, 0) <==> PackedBody(m, KeywordRecord, 132, it, 1) && Has(m, 148, 0);
  }

  /** The packed form may be moved anywhere. */
  lemma {:induction false} PackedMoves(m: Memory, m': Memory, a: int, a': int, t: Stmt)
    requires Packed(m, a, t) && Copy(m, m', a, a + Size(t), a' - a)
    ensures Packed(m', a', t)
    decreases t, 1
  {
    hide PackedAt, ItemsSize;
    match t
    case Text(plain, text) =>
      forall k | 0 <= k < |text| ensures Has(m', a' + STMT + VALUE + k, text[k]) {
        assert Has(m, a + STMT + VALUE + k, text[k]);
      }
    case Records(kind, items) =>
      forall k | 0 <= k < |items| ensures PackedAt(m', a', t, k) {
        ItemFits(t, k, |items|);
        PackedAtMoves(m, m', a, a', t, k);
      }
    case _ =>
  }

  lemma {:induction false} PackedAtMoves(m: Memory, m': Memory, a: int, a': int, t: Stmt, k: nat)
    requires t.Records? && k < |t.items| && PackedAt(m, a, t, k)
    requires var r := a + STMT + ItemsSize(t, k); Copy(m, m', r, r + ItemSize(t.kind, t.items[k]), a' - a)
    ensures PackedAt(m', a', t, k)
    decreases t, 0
  {
    hide PackedLink, Packed, ItemsSize, PartsSize;
    var s := STMT + ItemsSize(t, k);
    FieldsMove(m, m', t.kind, a + s, a' + s);
    BodyMoves(m, m', t.kind, a + s, a' + s, t.items[k], |t.items[k].parts|);
  }

  /** The plain fields of a record and its first n pointers are the same. */
  predicate SameFields(m: Memory, m': Memory, kind: Kind, r: int, r': int, n: nat)
    requires n <= |kind.Links()|
  {
    && (forall j | 0 <= j < n :: r + kind.Links()[j] in m && Has(m', r' + kind.Links()[j], m[r + kind.Links()[j]]))
    && (forall j | 0 <= j < |kind.Plain()| ::
      r + kind.Plain()[j] in m && Has(m', r' + kind.Plain()[j], m[r + kind.Plain()[j]]))
  }

  lemma FieldsMove(m: Memory, m': Memory, kind: Kind, r: int, r': int)
    requires Copy(m, m', r, r + kind.Size(), r' - r)
    ensures SameFields(m, m', kind, r, r', |kind.Links()|)
    ensures kind.Ring() ==> r + kind.Next() in m && Has(m', r' + kind.Next(), m[r + kind.Next()])
  {
    Fields(kind);
  }

  lemma {:induction false} BodyMoves(m: Memory, m': Memory, kind: Kind, r: int, r': int, it: Item, n: nat)
    requires PackedBody(m, kind, r, it, n) && SameFields(m, m', kind, r, r', n)
    requires var q := r + kind.Size(); Copy(m, m', q, q + PartsSize(it, n), r' - r)
    ensures PackedBody(m', kind, r', it, n)
    decreases it, 0
  {
    hide PackedLink, Size, Kind.Links, Kind.Plain, Kind.Size, PartsSize;
    forall j | 0 <= j < n
      ensures PackedLink(m', r' + kind.Links()[j], r' + kind.Size() + PartsSize(it, j), it.parts[j])
    {
      PartFits(it, j, n);
      LinkMoves(m, m', r + kind.Links()[j], r + kind.Size() + PartsSize(it, j), r' - r, it.parts[j]);
    }
  }

  lemma {:induction false} LinkMoves(m: Memory, m': Memory, x: int, pos: int, d: int, t: Stmt)
    requires PackedLink(m, x, pos, t) && Has(m', x + d, m[x]) && Copy(m, m', pos, pos + Size(t), d)
    ensures PackedLink(m', x + d, pos + d, t)
    decreases t, 2
  {
    hide Packed, Size;
    if !t.Empty? && !t.Hollow? { PackedMoves(m, m', pos, pos + d, t); }
  }

  // ----- The live form -----

  predicate Span(d: set<int>, a: int, n: int) { forall x | a <= x < a + n :: x in d }

  /** The statement at address a, all of its records within d. */
  ghost predicate Live(m: Memory, a: int, t: Stmt, d: set<int>)
    decreases t, 1
  {
    match t
    case Empty => a == 0
    case Hollow => a != 0 && Span(d, a, STMT) && Has(m, a + STMT_V, 0)
    case Foreign(tag) => a != 0 && Span(d, a, STMT) && Has(m, a, tag) && a + STMT_V in m && m[a + STMT_V] != 0
    case Text(plain, text) =>
      && a != 0 && Span(d, a, STMT) && Has(m, a, VALUE_TYPE) && a + STMT_V in m
      && LiveText(m, m[a + STMT_V], plain, text, d)
    case Records(kind, items) =>
      && a != 0 && Span(d, a, STMT) && Has(m, a, kind.Type()) && a + STMT_V in m
      && exists ps: seq<int> :: |ps| >= 1 && ps[0] == m[a + STMT_V] && LiveChain(m, ps, t, d)
  }

  predicate LiveText(m: Memory, r: int, plain: seq<int>, text: seq<int>, d: set<int>) {
    && r != 0 && Span(d, r, VALUE) && PlainAt(m, r, VALUE_PLAIN, plain) && r + VALUE_V in m
    && m[r + VALUE_V] != 0 && Span(d, m[r + VALUE_V], |text| + 1) && TextAt(m, m[r + VALUE_V], text)
  }

  /** The records of t stand at ps. */
  ghost predicate LiveChain(m: Memory, ps: seq<int>, t: Stmt, d: set<int>)
    requires t.Records?
    decreases t, 0
  {
    && |ps| == |t.items| >= 1 && (t.kind.Ring() ==> Linked(m, t.kind, ps))
    && forall k | 0 <= k < |ps| :: ps[k] != 0 && LiveRecord(m, t.kind, ps[k], t.items[k], d)
  }

  function After(ps: seq<int>, k: nat): int
    requires k < |ps|
  {
    if k + 1 == |ps| then ps[0] else ps[k + 1]
  }

  /** A closed ring, its next and prev links consistent. */
  predicate Linked(m: Memory, kind: Kind, ps: seq<int>) {
    && (forall k | 0 < k < |ps| :: ps[k] != ps[0])
    && (forall k | 0 <= k < |ps| ::
      Has(m, ps[k] + kind.Next(), After(ps, k)) && Has(m, After(ps, k) + kind.Prev(), ps[k]))
  }

  ghost predicate LiveRecord(m: Memory, kind: Kind, p: int, it: Item, d: set<int>)
    decreases it, 1
  {
    Span(d, p, kind.Size()) && LiveBody(m, kind, p, it, d)
  }

  ghost predicate LiveBody(m: Memory, kind: Kind, p: int, it: Item, d: set<int>)
    decreases it, 0
  {
    && PlainAt(m, p, kind.Plain(), it.plain) && |it.parts| == |kind.Links()|
    && forall j | 0 <= j < |it.parts| :: LiveLink(m, p + kind.Links()[j], it.parts[j], d)
  }

  ghost predicate LiveLink(m: Memory, x: int, t: Stmt, d: set<int>)
    decreases t, 2
  {
    x in m && Live(m, m[x], t, d)
  }

  /** Nothing but the cells in d matters. */
  lemma {:induction false} LiveFrame(m: Memory, m': Memory, a: int, t: Stmt, d: set<int>, d': set<int>)
    requires Live(m, a, t, d) && Agree(m, m', d) && d <= d'
    ensures Live(m', a, t, d')
    decreases t, 1
  {
    hide LiveChain;
    match t
    case Records(kind, items) =>
      var ps: seq<int> :| |ps| >= 1 && ps[0] == m[a + STMT_V] && LiveChain(m, ps, t, d);
      ChainFrame(m, m', ps, t, d, d');
    case Text(plain, text) => TextFrame(m, m', m[a + STMT_V], plain, text, d, d');
    case _ =>
  }

  lemma TextFrame(m: Memory, m': Memory, r: int, plain: seq<int>, text: seq<int>, d: set<int>, d': set<int>)
    requires LiveText(m, r, plain, text, d) && Agree(m, m', d) && d <= d'
    ensures LiveText(m', r, plain, text, d')
  {}

  lemma {:induction false} ChainFrame(m: Memory, m': Memory, ps: seq<int>, t: Stmt, d: set<int>, d': set<int>)
    requires t.Records? && LiveChain(m, ps, t, d) && Agree(m, m', d) && d <= d'
    ensures LiveChain(m', ps, t, d')
    decreases t, 0
  {
    hide LiveBody;
    Fields(t.kind);
    hide Kind.Links, Kind.Plain;
    forall k | 0 <= k < |ps| ensures LiveRecord(m', t.kind, ps[k], t.items[k], d') {
      RecordFrame(m, m', t.kind, ps[k], t.items[k], d, d');
    }
  }

  lemma {:induction false} RecordFrame(m: Memory, m': Memory, kind: Kind, p: int, it: Item, d: set<int>, d': set<int>)
    requires LiveRecord(m, kind, p, it, d) && Agree(m, m', d) && d <= d'
    ensures LiveRecord(m', kind, p, it, d')
    decreases it, 1
  {
    hide LiveBody, SameFields, Kind.Size;
    FieldsMove(m, m', kind, p, p);
    BodyFrame(m, m', kind, p, it, d, d');
  }

  lemma {:induction false} BodyFrame(m: Memory, m': Memory, kind: Kind, p: int, it: Item, d: set<int>, d': set<int>)
    requires LiveBody(m, kind, p, it, d) && SameFields(m, m', kind, p, p, |kind.Links()|) && Agree(m, m', d) && d <= d'
    ensures LiveBody(m', kind, p, it, d')
    decreases it, 0
  {
    hide Live, Kind.Links, Kind.Plain;
    forall j | 0 <= j < |it.parts| ensures LiveLink(m', p + kind.Links()[j], it.parts[j], d') {
      LiveFrame(m, m', m[p + kind.Links()[j]], it.parts[j], d, d');
    }
  }

  // ----- What is in memory determines the statement -----

  lemma TextRunsOn(m: Memory, a: int, text: seq<int>, k: nat)
    requires TextAt(m, a, text) && k < |text| && forall c <- text :: c != 0
    ensures !Has(m, a + k, 0)
  {
    assert Has(m, a + k, text[k]) && text[k] in text;
  }

  lemma TextUnique(m: Memory, a: int, x: seq<int>, y: seq<int>)
    requires TextAt(m, a, x) && TextAt(m, a, y) && |x| <= |y| && forall c <- y :: c != 0
    ensures x == y
  {
    if |x| < |y| { TextRunsOn(m, a, y, |x|); }
    assert forall k | 0 <= k < |x| :: Has(m, a + k, x[k]) && Has(m, a + k, y[k]);
  }

  lemma NextLink(m: Memory, kind: Kind, ps: seq<int>, k: nat)
    requires Linked(m, kind, ps) && k < |ps|
    ensures Has(m, ps[k] + kind.Next(), After(ps, k))
  {}

  lemma {:induction false} RingPrefix(m: Memory, kind: Kind, ps: seq<int>, qs: seq<int>, k: nat)
    requires Linked(m, kind, ps) && Linked(m, kind, qs) && k < |ps| && k < |qs| && ps[0] == qs[0]
    ensures ps[k] == qs[k]
  {
    hide Linked;
    if k > 0 {
      RingPrefix(m, kind, ps, qs, k - 1);
      NextLink(m, kind, ps, k - 1);
      NextLink(m, kind, qs, k - 1);
    }
  }

  /** A ring read from one of its records on always gives the same records. */
  lemma RingUnique(m: Memory, kind: Kind, ps: seq<int>, qs: seq<int>)
    requires Linked(m, kind, ps) && Linked(m, kind, qs) && 1 <= |ps| <= |qs| && ps[0] == qs[0]
    ensures ps == qs
  {
    hide Linked;
    forall k | 0 <= k < |ps| ensures ps[k] == qs[k] { RingPrefix(m, kind, ps, qs, k); }
    if |ps| < |qs| { RingCloses(m, kind, ps, qs); }
  }

  lemma RingCloses(m: Memory, kind: Kind, ps: seq<int>, qs: seq<int>)
    requires Linked(m, kind, ps) && Linked(m, kind, qs) && 1 <= |ps| < |qs| && ps[0] == qs[0]
    ensures ps[|ps| - 1] != qs[|ps| - 1]
  {
    assert qs[|ps|] != qs[0];
    hide Linked;
    NextLink(m, kind, ps, |ps| - 1);
    NextLink(m, kind, qs, |ps| - 1);
  }

  lemma KindUnique(k: Kind, k': Kind)
    requires k.Type() == k'.Type()
    ensures k == k'
  {}

  lemma PlainUnique(m: Memory, r: int, fields: seq<int>, x: seq<int>, y: seq<int>)
    requires PlainAt(m, r, fields, x) && PlainAt(m, r, fields, y)
    ensures x == y
  {
    assert forall j | 0 <= j < |fields| :: Has(m, r + fields[j], x[j]) && Has(m, r + fields[j], y[j]);
  }

  /** A statement in memory is the only one that can be read there. */
  lemma {:induction false} LiveUnique(m: Memory, a: int, t: Stmt, d: set<int>, t': Stmt, d': set<int>)
    requires WellFormed(t) && WellFormed(t') && Live(m, a, t, d) && Live(m, a, t', d')
    ensures t == t'
    decreases t, 1
  {
    hide LiveChain, WellFormedItem;
    if t.Records? && t'.Records? {
      KindUnique(t.kind, t'.kind);
      var ps: seq<int> :| |ps| >= 1 && ps[0] == m[a + STMT_V] && LiveChain(m, ps, t, d);
      var qs: seq<int> :| |qs| >= 1 && qs[0] == m[a + STMT_V] && LiveChain(m, qs, t', d');
      ChainUnique(m, ps, t, d, qs, t', d');
    } else if t.Text? && t'.Text? {
      LiteralUnique(m, m[a + STMT_V], t, d, t', d');
    } else if t.Records? {
      RecordsDiffer(m, a, t, d, t', d');
    } else if t'.Records? {
      RecordsDiffer(m, a, t', d', t, d);
    }
  }

  lemma LiteralUnique(m: Memory, r: int, t: Stmt, d: set<int>, t': Stmt, d': set<int>)
    requires t.Text? && t'.Text? && WellFormed(t) && WellFormed(t')
    requires LiveText(m, r, t.plain, t.text, d) && LiveText(m, r, t'.plain, t'.text, d')
    ensures t == t'
  {
    hide TextAt, PlainAt;
    PlainUnique(m, r, VALUE_PLAIN, t.plain, t'.plain);
    if |t.text| <= |t'.text| { TextUnique(m, m[r + VALUE_V], t.text, t'.text); }
    else { TextUnique(m, m[r + VALUE_V], t'.text, t.text); }
  }

  /** Nothing else looks like records: a calculated value has a type tag of its own. */
  lemma RecordsDiffer(m: Memory, a: int, t: Stmt, d: set<int>, t': Stmt, d': set<int>)
    requires t.Records? && !t'.Records? && WellFormed(t) && WellFormed(t') && Live(m, a, t, d)
    ensures !Live(m, a, t', d')
  {
    hide LiveBody;
    var ps: seq<int> :| |ps| >= 1 && ps[0] == m[a + STMT_V] && LiveChain(m, ps, t, d);
    assert LiveRecord(m, t.kind, ps[0], t.items[0], d) && WellFormedItem(t.kind, t.items[0]);
    if t.kind.CalculatedRecord? { CalculatedTag(m, ps[0], t.items[0], d); }
  }

  lemma CalculatedTag(m: Memory, r: int, it: Item, d: set<int>)
    requires LiveBody(m, CalculatedRecord, r, it, d) && WellFormedItem(CalculatedRecord, it)
    ensures Has(m, r, CALCULATED)
  {
    hide LiveLink, WellFormed;
    assert VALUE_PLAIN[0] == 0 && Has(m, r + VALUE_PLAIN[0], it.plain[0]);
  }

  lemma {:induction false} ChainUnique(m: Memory, ps: seq<int>, t: Stmt, d: set<int>, qs: seq<int>, t': Stmt,
          d': set<int>)
    requires t.Records? && t'.Records? && t.kind == t'.kind && WellFormed(t) && WellFormed(t')
    requires LiveChain(m, ps, t, d) && LiveChain(m, qs, t', d') && ps[0] == qs[0]
    ensures t == t'
    decreases t, 0
  {
    hide LiveRecord, Linked, WellFormedItem;
    if t.kind.Ring() {
      if |ps| <= |qs| { RingUnique(m, t.kind, ps, qs); } else { RingUnique(m, t.kind, qs, ps); }
    }
    forall k | 0 <= k < |ps| ensures t.items[k] == t'.items[k] {
      assert WellFormedItem(t.kind, t.items[k]) && WellFormedItem(t.kind, t'.items[k]);
      ItemUnique(m, t.kind, ps[k], t.items[k], d, t'.items[k], d');
    }
  }

  lemma {:induction false} ItemUnique(m: Memory, kind: Kind, p: int, it: Item, d: set<int>, it': Item, d': set<int>)
    requires WellFormedItem(kind, it) && WellFormedItem(kind, it') && LiveRecord(m, kind, p, it, d)
    requires LiveRecord(m, kind, p, it', d')
    ensures it == it'
    decreases it, 0
  {
    hide Live, WellFormed, PlainAt, Kind.Links, Kind.Plain;
    PlainUnique(m, p, kind.Plain(), it.plain, it'.plain);
    forall j | 0 <= j < |it.parts| ensures it.parts[j] == it'.parts[j] {
      assert LiveLink(m, p + kind.Links()[j], it.parts[j], d) && LiveLink(m, p + kind.Links()[j], it'.parts[j], d');
      LiveUnique(m, m[p + kind.Links()[j]], it.parts[j], d, it'.parts[j], d');
    }
  }
}
