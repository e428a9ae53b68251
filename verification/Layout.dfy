/** The form that decompressing gives a statement: live, each record at its place in the buffer. */
module Layout {
  import opened Statements
  import opened Compress

  // ----- Places -----

  predicate HasCells(m: Memory, lo: int, hi: int) { forall x | lo <= x < hi :: x in m }

  /** The cells lo .. hi are the same. */
  predicate Stay(m: Memory, m': Memory, lo: int, hi: int) { forall x | lo <= x < hi :: x in m && Has(m', x, m[x]) }

  /** Where pointer j of the record at p leads. */
  function PartPos(kind: Kind, p: int, it: Item, j: nat): int
    requires j <= |it.parts|
  {
    p + kind.Size() + PartsSize(it, j)
  }

  /** The place of record k. */
  function Pos(a: int, t: Stmt, k: nat): int
    requires t.Records? && k <= |t.items|
  {
    a + STMT + ItemsSize(t, k)
  }

  /** The record after record k in the ring. */
  function Succ(a: int, t: Stmt, k: nat): int
    requires t.Records? && k < |t.items|
  {
    Pos(a, t, if k + 1 == |t.items| then 0 else k + 1)
  }

  lemma PosApart(a: int, t: Stmt, i: nat, k: nat)
    requires t.Records? && i < k <= |t.items|
    ensures Pos(a, t, i) + ItemSize(t.kind, t.items[i]) <= Pos(a, t, k) && ItemSize(t.kind, t.items[i]) >= t.kind.Size()
  {
    hide ItemsSize, PartsSize;
    ItemFits(t, i, k);
  }

  /** Two records do not overlap. */
  lemma RecordsApart(a: int, t: Stmt, i: nat, j: nat)
    requires t.Records? && i < |t.items| && j < |t.items|
    ensures var p, q := Pos(a, t, i), Pos(a, t, j);
      i == j || p + ItemSize(t.kind, t.items[i]) <= q || q + ItemSize(t.kind, t.items[j]) <= p
    ensures ItemSize(t.kind, t.items[i]) >= t.kind.Size() && ItemSize(t.kind, t.items[j]) >= t.kind.Size()
    ensures a < Pos(a, t, i) && Pos(a, t, i) + ItemSize(t.kind, t.items[i]) <= a + Size(t)
  {
    hide ItemsSize, ItemSize;
    PosApart(a, t, i, |t.items|);
    PosApart(a, t, j, |t.items|);
    if i < j { PosApart(a, t, i, j); }
    if j < i { PosApart(a, t, j, i); }
  }

  lemma PosAfter(a: int, t: Stmt, k: nat)
    requires t.Records? && k < |t.items|
    ensures Pos(a, t, k) >= a + STMT
  {}

  lemma SizesFit(t: Stmt, k: nat)
    requires t.Records? && WellFormed(t) && k < |t.items|
    ensures |t.items[k].parts| == |t.kind.Links()|
  {
    assert WellFormedItem(t.kind, t.items[k]);
  }

  lemma PositiveSize(kind: Kind)
    ensures kind.Size() > 0
  {}

  ghost function Positions(a: int, t: Stmt): (ps: seq<int>)
    requires t.Records?
    ensures |ps| == |t.items| && forall k | 0 <= k < |ps| :: ps[k] == Pos(a, t, k)
  {
    seq(|t.items|, (k: nat) requires k < |t.items| => Pos(a, t, k))
  }

  // ----- The settled form -----

  predicate Settled(m: Memory, a: int, t: Stmt)
    decreases t, 1
  {
    match t
    case Text(plain, text) =>
      && Has(m, a, VALUE_TYPE) && Has(m, a + STMT_V, a + STMT) && PlainAt(m, a + STMT, VALUE_PLAIN, plain)
      && Has(m, a + STMT + VALUE_V, a + STMT + VALUE) && TextAt(m, a + STMT + VALUE, text)
    case Records(kind, items) =>
      && Has(m, a, kind.Type()) && Has(m, a + STMT_V, a + STMT)
      && forall k | 0 <= k < |items| :: SettledAt(m, a, t, k)
    case _ => false
  }

  predicate SettledAt(m: Memory, a: int, t: Stmt, k: nat)
    requires t.Records? && k < |t.items|
    decreases t, 0
  {
    var p := Pos(a, t, k);
    && SettledBody(m, t.kind, p, t.items[k])
    && (t.kind.Ring() ==> Has(m, p + t.kind.Next(), Succ(a, t, k)) && Has(m, Succ(a, t, k) + t.kind.Prev(), p))
  }

  predicate SettledBody(m: Memory, kind: Kind, p: int, it: Item)
    decreases it, 0
  {
    && PlainAt(m, p, kind.Plain(), it.plain) && |it.parts| == |kind.Links()|
    && forall j | 0 <= j < |it.parts| :: SettledLink(m, p + kind.Links()[j], PartPos(kind, p, it, j), it.parts[j])
  }

  predicate SettledLink(m: Memory, x: int, pos: int, t: Stmt)
    decreases t, 2
  {
    if t.Empty? then Has(m, x, 0) else Has(m, x, pos) && Settled(m, pos, t)
  }

  // ----- It depends on its own cells only -----

  lemma {:induction false} SettledStays(m: Memory, m': Memory, a: int, t: Stmt)
    requires Settled(m, a, t) && Stay(m, m', a, a + Size(t))
    ensures Settled(m', a, t)
    decreases t, 1
  {
    hide SettledAt, ItemsSize;
    match t
    case Text(plain, text) =>
      forall k | 0 <= k < |text| ensures Has(m', a + STMT + VALUE + k, text[k]) {
        assert Has(m, a + STMT + VALUE + k, text[k]);
      }
    case Records(kind, items) =>
      forall k | 0 <= k < |items| ensures SettledAt(m', a, t, k) { SettledAtStays(m, m', a, t, k); }
    case _ =>
  }

  lemma {:induction false} SettledAtStays(m: Memory, m': Memory, a: int, t: Stmt, k: nat)
    requires t.Records? && k < |t.items| && SettledAt(m, a, t, k) && Stay(m, m', a + STMT, a + Size(t))
    ensures SettledAt(m', a, t, k)
    decreases t, 0
  {
    hide SettledLink, Settled, ItemsSize, PartsSize, Size, Pos, Kind.Size, Kind.Links, Kind.Plain, SameFields;
    Fields(t.kind);
    var n := if k + 1 == |t.items| then 0 else k + 1;
    RecordsApart(a, t, k, n);
    RecordsApart(a, t, n, k);
    PosAfter(a, t, k);
    PosAfter(a, t, n);
    FieldsStay(m, m', t.kind, Pos(a, t, k), |t.kind.Links()|);
    SettledBodyStays(m, m', t.kind, Pos(a, t, k), t.items[k]);
  }

  lemma {:induction false} SettledBodyStays(m: Memory, m': Memory, kind: Kind, p: int, it: Item)
    requires SettledBody(m, kind, p, it) && SameFields(m, m', kind, p, p, |kind.Links()|)
    requires Stay(m, m', p + kind.Size(), p + ItemSize(kind, it))
    ensures SettledBody(m', kind, p, it)
    decreases it, 0
  {
    hide SettledLink, Size, Kind.Links, Kind.Plain, Kind.Size, PartsSize;
    forall j | 0 <= j < |it.parts| ensures SettledLink(m', p + kind.Links()[j], PartPos(kind, p, it, j), it.parts[j]) {
      PartFits(it, j, |it.parts|);
      SettledLinkStays(m, m', p + kind.Links()[j], PartPos(kind, p, it, j), it.parts[j]);
    }
  }

  lemma {:induction false} SettledLinkStays(m: Memory, m': Memory, x: int, pos: int, t: Stmt)
    requires SettledLink(m, x, pos, t) && Has(m', x, m[x]) && Stay(m, m', pos, pos + Size(t))
    ensures SettledLink(m', x, pos, t)
    decreases t, 2
  {
    hide Settled, Size;
    if !t.Empty? { SettledStays(m, m', pos, t); }
  }

  // ----- It is live -----

  lemma {:induction false} SettledLive(m: Memory, a: int, t: Stmt)
    requires a > 0 && WellFormed(t) && Settled(m, a, t) && HasCells(m, a, a + Size(t))
    ensures Live(m, a, t, Region(a, a + Size(t)))
    decreases t, 1
  {
    hide SettledAt, LiveChain, ItemsSize, WellFormedItem;
    match t
    case Text(plain, text) => TextLive(m, a, t);
    case Records(kind, items) =>
      ChainLive(m, a, t);
      NoItems(t);
      assert Positions(a, t)[0] == a + STMT;
    case _ =>
  }

  lemma TextLive(m: Memory, a: int, t: Stmt)
    requires t.Text? && a > 0 && Settled(m, a, t) && HasCells(m, a, a + Size(t))
    ensures Live(m, a, t, Region(a, a + Size(t)))
  {
    var d := Region(a, a + Size(t));
    assert Span(d, a + STMT, VALUE) && Span(d, a + STMT + VALUE, |t.text| + 1);
  }

  lemma {:induction false} ChainLive(m: Memory, a: int, t: Stmt)
    requires t.Records? && a > 0 && WellFormed(t) && Settled(m, a, t) && HasCells(m, a, a + Size(t))
    ensures LiveChain(m, Positions(a, t), t, Region(a, a + Size(t)))
    decreases t, 0, 1
  {
    hide LiveRecord, SettledAt, Pos, Size, Region, Positions, Linked, HasCells, WellFormedItem;
    var ps := Positions(a, t);
    if t.kind.Ring() { RingLinked(m, a, t); }
    forall k | 0 <= k < |ps| ensures LiveRecord(m, t.kind, ps[k], t.items[k], Region(a, a + Size(t))) && ps[k] != 0 {
      RecordLive(m, a, t, k);
    }
  }

  lemma RingLinked(m: Memory, a: int, t: Stmt)
    requires t.Records? && t.kind.Ring() && a > 0 && Settled(m, a, t)
    ensures Linked(m, t.kind, Positions(a, t))
  {
    hide Settled, Pos, Size, Positions, After, HasCells, WellFormed;
    var ps := Positions(a, t);
    forall k | 0 <= k < |ps|
      ensures k > 0 ==> ps[k] != ps[0]
      ensures Has(m, ps[k] + t.kind.Next(), After(ps, k)) && Has(m, After(ps, k) + t.kind.Prev(), ps[k])
    {
      RecordLinks(m, a, t, k);
    }
  }

  lemma RecordLinks(m: Memory, a: int, t: Stmt, k: nat)
    requires t.Records? && t.kind.Ring() && Settled(m, a, t) && k < |t.items|
    ensures var ps := Positions(a, t);
      && (k > 0 ==> ps[k] != ps[0]) && Has(m, ps[k] + t.kind.Next(), After(ps, k))
        && Has(m, After(ps, k) + t.kind.Prev(), ps[k])
  {
    hide Pos, Size, Positions, SettledBody;
    assert SettledAt(m, a, t, k);
    RecordsApart(a, t, k, 0);
    PositiveSize(t.kind);
    assert After(Positions(a, t), k) == Succ(a, t, k);
  }

  lemma {:induction false} RecordLive(m: Memory, a: int, t: Stmt, k: nat)
    requires t.Records? && a > 0 && WellFormed(t) && k < |t.items| && Settled(m, a, t) && HasCells(m, a, a + Size(t))
    ensures LiveRecord(m, t.kind, Pos(a, t, k), t.items[k], Region(a, a + Size(t))) && Pos(a, t, k) > 0
    decreases t, 0, 0
  {
    hide LiveBody, ItemsSize, PartsSize, Size, Pos, SettledBody, Kind.Size;
    assert SettledAt(m, a, t, k) && WellFormedItem(t.kind, t.items[k]);
    RecordsApart(a, t, k, k);
    BodyLive(m, t.kind, Pos(a, t, k), t.items[k], Region(a, a + Size(t)));
  }

  lemma {:induction false} BodyLive(m: Memory, kind: Kind, p: int, it: Item, d: set<int>)
    requires p > 0 && WellFormedItem(kind, it) && SettledBody(m, kind, p, it) && Span(d, p, ItemSize(kind, it))
    requires d <= m.Keys
    ensures LiveBody(m, kind, p, it, d)
    decreases it, 0
  {
    hide Live, WellFormed, PartsSize, Size, Kind.Links, Kind.Plain, Kind.Size;
    forall j | 0 <= j < |it.parts| ensures LiveLink(m, p + kind.Links()[j], it.parts[j], d) {
      PartFits(it, j, |it.parts|);
      LinkLive(m, p + kind.Links()[j], PartPos(kind, p, it, j), it.parts[j], d);
    }
  }

  lemma {:induction false} LinkLive(m: Memory, x: int, pos: int, t: Stmt, d: set<int>)
    requires pos > 0 && WellFormed(t) && SettledLink(m, x, pos, t) && Span(d, pos, Size(t)) && d <= m.Keys
    ensures LiveLink(m, x, t, d)
    decreases t, 2
  {
    hide Settled, Size;
    if !t.Empty? {
      forall y | pos <= y < pos + Size(t) ensures y in m { assert y in d; }
      SettledLive(m, pos, t);
      hide Live;
      var e := Region(pos, pos + Size(t));
      forall y <- e ensures y in d {}
      LiveFrame(m, m, pos, t, e, d);
    }
  }
}
