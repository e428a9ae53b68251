/** decompress_statement: a packed statement made live in place, at whatever address it stands. */
module Decompress {
  import opened Statements
  import opened Compress
  import opened Layout

  /** What a buffer can hold: nothing hollow, nothing foreign. */
  predicate Compact(t: Stmt)
    decreases t, 0
  {
    match t
    case Hollow => false
    case Foreign(_) => false
    case Records(_, items) => forall k | 0 <= k < |items| :: CompactItem(items[k])
    case _ => true
  }

  predicate CompactItem(it: Item)
    decreases it, 0
  {
    forall j | 0 <= j < |it.parts| :: Compact(it.parts[j])
  }

  // ----- One record -----

  /** The region of what pointer j leads to. */
  function PartRegion(kind: Kind, p: int, it: Item, j: nat): set<int>
    requires j < |it.parts|
  {
    Region(PartPos(kind, p, it, j), PartPos(kind, p, it, j) + Size(it.parts[j]))
  }

  /** The first n pointers are settled, the others still packed. */
  ghost predicate HalfBody(m: Memory, kind: Kind, p: int, it: Item, n: nat) {
    && PlainAt(m, p, kind.Plain(), it.plain) && n <= |it.parts| == |kind.Links()|
    && (forall j | 0 <= j < n :: SettledLink(m, p + kind.Links()[j], PartPos(kind, p, it, j), it.parts[j]))
    && (forall j | n <= j < |it.parts| :: PackedLink(m, p + kind.Links()[j], PartPos(kind, p, it, j), it.parts[j]))
  }

  lemma PartsApart(kind: Kind, p: int, it: Item, i: nat, j: nat)
    requires i < |it.parts| && j < |it.parts| && i != j
    ensures PartRegion(kind, p, it, i) !! PartRegion(kind, p, it, j)
    ensures forall x <- PartRegion(kind, p, it, i) :: x >= p + kind.Size()
  {
    hide Size, PartsSize;
    if i < j { PartFits(it, i, j); } else { PartFits(it, j, i); }
    PartsGrow(it, 0, i);
    NoParts(it);
  }

  /** Only pointer j and what it leads to have changed. */
  predicate OnlyPart(m: Memory, m': Memory, kind: Kind, p: int, it: Item, j: nat)
    requires j < |it.parts| && j < |kind.Links()|
  {
    m'.Keys == m.Keys && forall x <- m.Keys ::
      x == p + kind.Links()[j] || x in PartRegion(kind, p, it, j) || m'[x] == m[x]
  }

  lemma OtherPart(m: Memory, m': Memory, kind: Kind, p: int, it: Item, i: nat, j: nat)
    requires i < |it.parts| == |kind.Links()| && j < |it.parts| && i != j && OnlyPart(m, m', kind, p, it, j)
    requires HasCells(m, p, p + ItemSize(kind, it))
    ensures SettledLink(m, p + kind.Links()[i], PartPos(kind, p, it, i), it.parts[i])
      ==> SettledLink(m', p + kind.Links()[i], PartPos(kind, p, it, i), it.parts[i])
    ensures PackedLink(m, p + kind.Links()[i], PartPos(kind, p, it, i), it.parts[i])
      ==> PackedLink(m', p + kind.Links()[i], PartPos(kind, p, it, i), it.parts[i])
  {
    hide PackedLink, SettledLink, Size, PartsSize, Kind.Links, Kind.Size;
    Fields(kind);
    PartFits(it, i, |it.parts|);
    PartsApart(kind, p, it, i, j);
    PartsApart(kind, p, it, j, i);
    var x, pos := p + kind.Links()[i], PartPos(kind, p, it, i);
    assert Stay(m, m', pos, pos + Size(it.parts[i])) by {
      forall y | pos <= y < pos + Size(it.parts[i]) ensures y in m && Has(m', y, m[y]) {
        assert y in PartRegion(kind, p, it, i);
      }
    }
    if SettledLink(m, x, pos, it.parts[i]) { SettledLinkStays(m, m', x, pos, it.parts[i]); }
    if PackedLink(m, x, pos, it.parts[i]) { LinkMoves(m, m', x, pos, 0, it.parts[i]); }
  }

  lemma HalfStep(m: Memory, m': Memory, kind: Kind, p: int, it: Item, j: nat)
    requires j < |it.parts| && HalfBody(m, kind, p, it, j) && OnlyPart(m, m', kind, p, it, j)
    requires HasCells(m, p, p + ItemSize(kind, it))
    requires SettledLink(m', p + kind.Links()[j], PartPos(kind, p, it, j), it.parts[j])
    ensures HalfBody(m', kind, p, it, j + 1)
  {
    hide SettledLink, PackedLink, Size, PartsSize, PartPos, Kind.Links, Kind.Size, Kind.Plain;
    Fields(kind);
    forall i | 0 <= i < |it.parts| && i != j
      ensures i < j ==> SettledLink(m', p + kind.Links()[i], PartPos(kind, p, it, i), it.parts[i])
      ensures i > j ==> PackedLink(m', p + kind.Links()[i], PartPos(kind, p, it, i), it.parts[i])
    {
      OtherPart(m, m', kind, p, it, i, j);
    }
    PlainStays(m, m', kind, p, it, j);
  }

  lemma PlainStays(m: Memory, m': Memory, kind: Kind, p: int, it: Item, j: nat)
    requires j < |it.parts| == |kind.Links()| && OnlyPart(m, m', kind, p, it, j)
    requires PlainAt(m, p, kind.Plain(), it.plain)
    ensures PlainAt(m', p, kind.Plain(), it.plain)
    ensures kind.Ring() ==> forall x <- [p + kind.Next(), p + kind.Prev()] :: x in m ==> m'[x] == m[x]
  {
    hide Size, PartsSize, Kind.Plain, Kind.Links, Kind.Size;
    Fields(kind);
    PartsGrow(it, 0, j);
    NoParts(it);
  }

  lemma HalfDone(m: Memory, kind: Kind, p: int, it: Item)
    requires HalfBody(m, kind, p, it, |it.parts|)
    ensures SettledBody(m, kind, p, it)
  {
    hide SettledLink, PartsSize;
  }

  lemma HalfStart(m: Memory, kind: Kind, p: int, it: Item)
    requires PackedBody(m, kind, p, it, |it.parts|)
    ensures HalfBody(m, kind, p, it, 0)
  {
    hide PackedLink, Size, PartsSize;
  }

  /** A pointer made absolute is ready to be followed. */
  lemma LinkReady(m: Memory, m': Memory, kind: Kind, p: int, it: Item, j: nat)
    requires j < |it.parts| && HalfBody(m, kind, p, it, j) && Compact(it.parts[j]) && p > 0
    requires HasCells(m, p, p + ItemSize(kind, it))
    requires var x := p + kind.Links()[j]; x in m && m' == if m[x] == 0 then m else m[x := x + m[x]]
    ensures var x, t := p + kind.Links()[j], it.parts[j];
      if m[x] == 0 then t.Empty?
      else
        && !t.Empty? && m'[x] == PartPos(kind, p, it, j) && Packed(m', m'[x], t)
        && HasCells(m', m'[x], m'[x] + Size(t)) && p < m'[x]
  {
    hide Packed, Size, PartsSize, Kind.Links, Kind.Size, Kind.Plain, SettledLink;
    Fields(kind);
    PartFits(it, j, |it.parts|);
    var x, t := p + kind.Links()[j], it.parts[j];
    assert PackedLink(m, x, PartPos(kind, p, it, j), t);
    if m[x] != 0 { PackedMoves(m, m', PartPos(kind, p, it, j), PartPos(kind, p, it, j), t); }
  }

  /** The pointers of one record. */
  method DecompressItem(mach: Machine, kind: Kind, p: int, ghost it: Item)
    requires p > 0 && WellFormedItem(kind, it) && CompactItem(it) && PackedBody(mach.m, kind, p, it, |it.parts|)
    requires HasCells(mach.m, p, p + ItemSize(kind, it))
    modifies mach
    ensures Outside(old(mach.m), mach.m, p, p + ItemSize(kind, it))
    ensures kind.Ring() ==>
      forall x <- [p + kind.Next(), p + kind.Prev()] :: x in old(mach.m) ==> mach.m[x] == old(mach.m[x])
    ensures SettledBody(mach.m, kind, p, it)
    decreases it, 1
  {
    hide Settled, SettledBody, PackedBody, HalfBody, Packed, Size, PartsSize, PartPos, WellFormed, Compact, Kind.Links,
      Kind.Plain, Kind.Size, Kind.Next, Kind.Prev, Kind.Ring;
    Fields(kind);
    HalfStart(mach.m, kind, p, it);
    var j := 0;
    while j < |kind.Links()|
      invariant 0 <= j <= |kind.Links()| && HalfBody(mach.m, kind, p, it, j)
      invariant Outside(old(mach.m), mach.m, p, p + ItemSize(kind, it))
      invariant kind.Ring() ==>
        forall x <- [p + kind.Next(), p + kind.Prev()] :: x in old(mach.m) ==> mach.m[x] == old(mach.m[x])
    {
      var x := p + kind.Links()[j];
      ghost var m1 := mach.m;
      LinkReady(m1, if m1[x] == 0 then m1 else m1[x := x + m1[x]], kind, p, it, j);
      if mach.m[x] != 0 {
        mach.m := mach.m[x := x + mach.m[x]];
        DecompressHelper(mach, mach.m[x], it.parts[j]);
      }
      PartDone(m1, mach.m, kind, p, it, j);
      j := j + 1;
    }
    HalfDone(mach.m, kind, p, it);
  }

  lemma PartDone(m: Memory, m': Memory, kind: Kind, p: int, it: Item, j: nat)
    requires j < |it.parts| && HalfBody(m, kind, p, it, j) && HasCells(m, p, p + ItemSize(kind, it)) && p > 0
    requires var x, pos := p + kind.Links()[j], PartPos(kind, p, it, j);
      && x in m
      && if m[x] == 0 then it.parts[j].Empty? && m' == m
         else
           && Outside(m[x := pos], m', pos, pos + Size(it.parts[j]))
           && !it.parts[j].Empty? && Settled(m', pos, it.parts[j])
    ensures HalfBody(m', kind, p, it, j + 1) && Outside(m, m', p, p + ItemSize(kind, it))
    ensures kind.Ring() ==> forall x <- [p + kind.Next(), p + kind.Prev()] :: x in m ==> m'[x] == m[x]
  {
    hide Settled, HalfBody, Size, PartsSize, Kind.Links, Kind.Plain, Kind.Size, Kind.Next, Kind.Prev, Kind.Ring;
    Fields(kind);
    PartFits(it, j, |it.parts|);
    PartsGrow(it, 0, j);
    NoParts(it);
    HalfPlain(m, kind, p, it, j);
    var x, pos := p + kind.Links()[j], PartPos(kind, p, it, j);
    assert m[x] != 0 ==> Has(m', x, pos);
    assert OnlyPart(m, m', kind, p, it, j);
    PlainStays(m, m', kind, p, it, j);
    HalfStep(m, m', kind, p, it, j);
  }

  lemma HalfPlain(m: Memory, kind: Kind, p: int, it: Item, j: nat)
    requires HalfBody(m, kind, p, it, j)
    ensures PlainAt(m, p, kind.Plain(), it.plain) && |it.parts| == |kind.Links()|
  {}

  // ----- A ring of records -----

  /** All of a record but its ring links is the same, and so is what follows it. */
  predicate SameBody(m: Memory, m': Memory, kind: Kind, p: int, it: Item) {
    forall x | p <= x < p + ItemSize(kind, it) && x != p + kind.Next() && x != p + kind.Prev() ::
      x in m && Has(m', x, m[x])
  }

  lemma KeepsBody(m: Memory, m': Memory, kind: Kind, p: int, it: Item)
    requires kind.Ring() && SameBody(m, m', kind, p, it) && |it.parts| == |kind.Links()|
    ensures SettledBody(m, kind, p, it) ==> SettledBody(m', kind, p, it)
    ensures PackedBody(m, kind, p, it, |it.parts|) ==> PackedBody(m', kind, p, it, |it.parts|)
  {
    hide SettledBody, PackedBody, PartsSize, SameFields;
    KeepsFields(m, m', kind, p, it);
    if SettledBody(m, kind, p, it) { SettledBodyStays(m, m', kind, p, it); }
    if PackedBody(m, kind, p, it, |it.parts|) { BodyMoves(m, m', kind, p, p, it, |it.parts|); }
  }

  lemma KeepsFields(m: Memory, m': Memory, kind: Kind, p: int, it: Item)
    requires kind.Ring() && SameBody(m, m', kind, p, it)
    ensures SameFields(m, m', kind, p, p, |kind.Links()|)
  {
    hide PartsSize;
    Fields(kind);
  }

  /** The first n records are settled and linked, the others still packed. */
  ghost predicate HalfRing(m: Memory, a: int, t: Stmt, n: nat)
    requires t.Records? && n <= |t.items|
  {
    (forall k | 0 <= k < n :: SettledAt(m, a, t, k)) && (forall k | n <= k < |t.items| :: PackedAt(m, a, t, k))
  }

  /** Record k has been settled and linked to the one after it. */
  predicate Linking(m: Memory, m': Memory, a: int, t: Stmt, k: nat)
    requires t.Records? && k < |t.items|
  {
    var p, s := Pos(a, t, k), Succ(a, t, k);
    && m'.Keys == m.Keys && Has(m', p + t.kind.Next(), s) && Has(m', s + t.kind.Prev(), p)
    && (s != p && p + t.kind.Prev() in m ==> m'[p + t.kind.Prev()] == m[p + t.kind.Prev()])
    && forall x <- m.Keys :: p <= x < p + ItemSize(t.kind, t.items[k]) || x == s + t.kind.Prev() || m'[x] == m[x]
  }

  lemma SameElsewhere(m: Memory, m': Memory, a: int, t: Stmt, k: nat, i: nat)
    requires t.Records? && t.kind.Ring() && k < |t.items| && i < |t.items| && i != k && Linking(m, m', a, t, k)
    requires HasCells(m, a, a + Size(t))
    ensures var p := Pos(a, t, i);
      SameBody(m, m', t.kind, p, t.items[i]) && p + t.kind.Next() in m
      && Has(m', p + t.kind.Next(), m[p + t.kind.Next()])
  {
    hide ItemsSize, ItemSize, Pos, Size, Kind.Size, Kind.Next, Kind.Prev, Kind.Ring, Kind.Links, Kind.Plain;
    Fields(t.kind);
    RecordsApart(a, t, i, k);
    RecordsApart(a, t, i, if k + 1 == |t.items| then 0 else k + 1);
  }

  lemma PrevElsewhere(m: Memory, m': Memory, a: int, t: Stmt, k: nat, i: nat)
    requires t.Records? && t.kind.Ring() && i < k < |t.items| && Linking(m, m', a, t, k)
    requires Has(m, Succ(a, t, i) + t.kind.Prev(), Pos(a, t, i))
    ensures Has(m', Succ(a, t, i) + t.kind.Prev(), Pos(a, t, i))
  {
    hide ItemsSize, ItemSize, Pos, Size, Kind.Size, Kind.Next, Kind.Prev, Kind.Ring, Kind.Links, Kind.Plain;
    Fields(t.kind);
    RecordsApart(a, t, i + 1, k);
    RecordsApart(a, t, i + 1, if k + 1 == |t.items| then 0 else k + 1);
    RecordsApart(a, t, k, if k + 1 == |t.items| then 0 else k + 1);
  }

  lemma RingStep(m: Memory, m': Memory, a: int, t: Stmt, k: nat)
    requires t.Records? && t.kind.Ring() && WellFormed(t) && k < |t.items| && HalfRing(m, a, t, k)
    requires Linking(m, m', a, t, k) && HasCells(m, a, a + Size(t))
    requires SettledBody(m', t.kind, Pos(a, t, k), t.items[k])
    ensures HalfRing(m', a, t, k + 1)
  {
    hide ItemsSize, ItemSize, Size, SettledBody, PackedBody, SameBody, Kind.Size, Kind.Next, Kind.Prev, Kind.Ring,
      Kind.Links, Kind.Plain;
    forall i | 0 <= i < |t.items| && i != k
      ensures i < k ==> SettledAt(m', a, t, i)
      ensures i > k ==> PackedAt(m', a, t, i)
    {
      SameElsewhere(m, m', a, t, k, i);
      assert WellFormedItem(t.kind, t.items[i]);
      KeepsBody(m, m', t.kind, Pos(a, t, i), t.items[i]);
      if i < k {
        assert SettledAt(m, a, t, i);
        PrevElsewhere(m, m', a, t, k, i);
      } else {
        assert PackedAt(m, a, t, i);
      }
    }
  }

  /** From one settled record to its place in the ring. */
  lemma RecordLinked(m: Memory, m1: Memory, m2: Memory, a: int, t: Stmt, k: nat)
    requires t.Records? && t.kind.Ring() && WellFormed(t) && k < |t.items| && HalfRing(m, a, t, k)
    requires HasCells(m, a, a + Size(t))
    requires var p := Pos(a, t, k);
      && Outside(m, m1, p, p + ItemSize(t.kind, t.items[k]))
      && (forall x <- [p + t.kind.Next(), p + t.kind.Prev()] :: x in m ==> m1[x] == m[x])
      && SettledBody(m1, t.kind, p, t.items[k])
      && m2 == m1[p + t.kind.Next() := Succ(a, t, k)][Succ(a, t, k) + t.kind.Prev() := p]
    ensures HalfRing(m2, a, t, k + 1) && Outside(m, m2, a + STMT, a + Size(t))
  {
    hide ItemsSize, ItemSize, Size, SettledBody, HalfRing, Pos, Linking, SameBody, Kind.Links, WellFormedItem;
    NowLinked(m, m1, m2, a, t, k);
    SizesFit(t, k);
    KeepsBody(m1, m2, t.kind, Pos(a, t, k), t.items[k]);
    RingStep(m, m2, a, t, k);
  }

  lemma NowLinked(m: Memory, m1: Memory, m2: Memory, a: int, t: Stmt, k: nat)
    requires t.Records? && t.kind.Ring() && k < |t.items| && HasCells(m, a, a + Size(t))
    requires var p := Pos(a, t, k);
      && Outside(m, m1, p, p + ItemSize(t.kind, t.items[k]))
      && (forall x <- [p + t.kind.Next(), p + t.kind.Prev()] :: x in m ==> m1[x] == m[x])
      && m2 == m1[p + t.kind.Next() := Succ(a, t, k)][Succ(a, t, k) + t.kind.Prev() := p]
    ensures Linking(m, m2, a, t, k) && SameBody(m1, m2, t.kind, Pos(a, t, k), t.items[k])
    ensures Outside(m, m2, a + STMT, a + Size(t))
  {
    hide ItemsSize, ItemSize, Size, Pos, Kind.Size, Kind.Next, Kind.Prev, Kind.Ring, Kind.Links, Kind.Plain;
    Fields(t.kind);
    var n := if k + 1 == |t.items| then 0 else k + 1;
    RecordsApart(a, t, k, n);
    RecordsApart(a, t, n, k);
    PosAfter(a, t, k);
    PosAfter(a, t, n);
    var p := Pos(a, t, k);
    assert p + t.kind.Prev() in [p + t.kind.Next(), p + t.kind.Prev()];
  }

  /** The packed pointer to the next record, made absolute. */
  lemma NextIs(m: Memory, a: int, t: Stmt, k: nat)
    requires t.Records? && t.kind.Ring() && k < |t.items| && HalfRing(m, a, t, k)
    ensures var p := Pos(a, t, k); var x := p + t.kind.Next();
      PackedBody(m, t.kind, p, t.items[k], |t.items[k].parts|) && x in m && (m[x] == 0 <==> k + 1 == |t.items|)
        && (m[x] != 0 ==> x + m[x] == Succ(a, t, k))
    ensures Succ(a, t, k) == Pos(a, t, 0) <==> k + 1 == |t.items|
  {
    hide PackedBody;
    assert PackedAt(m, a, t, k);
    ItemsStep(t, k);
    Fields(t.kind);
    if k + 1 < |t.items| { RecordsApart(a, t, 0, k + 1); }
  }

  /** The do-while loop over a ring. */
  method DecompressRing(mach: Machine, kind: Kind, start: int, ghost a: int, ghost t: Stmt)
    requires t.Records? && t.kind == kind && kind.Ring() && WellFormed(t) && Compact(t) && a > 0
    requires start == Pos(a, t, 0)
    requires PackedItems(mach.m, a, t, |t.items|) && HasCells(mach.m, a, a + Size(t))
    modifies mach
    ensures Outside(old(mach.m), mach.m, a + STMT, a + Size(t))
    ensures SettledItems(mach.m, a, t)
    decreases t, 0, 0
  {
    hide SettledBody, SettledAt, PackedBody, HalfRing, Packed, Size, ItemsSize, ItemSize, Pos, WellFormedItem,
      CompactItem, Kind.Links, Kind.Plain, Kind.Size, Kind.Next, Kind.Prev, Kind.Ring;
    RingStart(mach.m, a, t);
    var cur := start;
    ghost var k := 0;
    while true
      invariant 0 <= k < |t.items| && cur == Pos(a, t, k) && HalfRing(mach.m, a, t, k)
      invariant Outside(old(mach.m), mach.m, a + STMT, a + Size(t))
      decreases |t.items| - k
    {
      ghost var m1 := mach.m;
      NextIs(m1, a, t, k);
      RecordsApart(a, t, k, k);
      Fields(kind);
      DecompressItem(mach, kind, cur, t.items[k]);
      ghost var m2 := mach.m;
      var x := cur + kind.Next();
      mach.m := mach.m[x := if mach.m[x] == 0 then start else x + mach.m[x]];
      var next := mach.m[x];
      mach.m := mach.m[next + kind.Prev() := cur];
      RecordLinked(m1, m2, mach.m, a, t, k);
      cur := next;
      k := k + 1;
      if cur == start { break; }
    }
    RingDone(mach.m, a, t);
  }

  lemma RingStart(m: Memory, a: int, t: Stmt)
    requires t.Records? && PackedItems(m, a, t, |t.items|)
    ensures HalfRing(m, a, t, 0)
  {
    hide PackedAt;
  }

  ghost predicate SettledItems(m: Memory, a: int, t: Stmt)
    requires t.Records?
  {
    forall k | 0 <= k < |t.items| :: SettledAt(m, a, t, k)
  }

  lemma RingDone(m: Memory, a: int, t: Stmt)
    requires t.Records? && HalfRing(m, a, t, |t.items|)
    ensures SettledItems(m, a, t)
  {
    hide SettledAt;
  }

  /** The string of a value. */
  lemma TextSettled(m: Memory, m': Memory, a: int, t: Stmt)
    requires t.Text? && Packed(m, a, t) && m' == m[a + STMT_V := a + STMT][a + STMT + VALUE_V := a + STMT + VALUE]
    ensures Settled(m', a, t)
  {
    forall k | 0 <= k < |t.text| ensures Has(m', a + STMT + VALUE + k, t.text[k]) {
      assert Has(m, a + STMT + VALUE + k, t.text[k]);
    }
  }

  /** What the packed head of a statement says. */
  lemma PackedHead(m: Memory, a: int, t: Stmt)
    requires Packed(m, a, t)
    ensures Size(t) >= STMT && HeadAt(m, a, if t.Records? then t.kind.Type() else VALUE_TYPE)
    ensures t.Text? ==> PackedText(m, a + STMT, t.plain, t.text)
    ensures t.Records? ==> PackedItems(m, a, t, |t.items|)
  {
    hide PackedAt, ItemsSize;
  }

  lemma ItemsStay(m: Memory, m': Memory, a: int, t: Stmt)
    requires t.Records? && PackedItems(m, a, t, |t.items|) && HasCells(m, a, a + Size(t))
    requires m' == m[a + STMT_V := a + STMT]
    ensures PackedItems(m', a, t, |t.items|) && HasCells(m', a, a + Size(t))
  {
    hide PackedAt, ItemsSize, Size, ItemSize;
    forall k | 0 <= k < |t.items| ensures PackedAt(m', a, t, k) {
      RecordsApart(a, t, k, k);
      PosAfter(a, t, k);
      assert PackedAt(m, a, t, k);
      PackedAtMoves(m, m', a, a, t, k);
    }
  }

  /** A table or a calculated value, which is not in a ring. */
  method DecompressSingle(mach: Machine, kind: Kind, p: int, ghost a: int, ghost t: Stmt)
    requires t.Records? && t.kind == kind && !kind.Ring() && WellFormed(t) && Compact(t) && a > 0 && p == a + STMT
    requires PackedItems(mach.m, a, t, |t.items|) && HasCells(mach.m, a, a + Size(t))
    modifies mach
    ensures Outside(old(mach.m), mach.m, a + STMT, a + Size(t))
    ensures SettledItems(mach.m, a, t)
    decreases t, 0, 0
  {
    hide SettledBody, PackedBody, ItemSize, CompactItem, Kind.Links, Kind.Plain, Kind.Size;
    assert PackedAt(mach.m, a, t, 0);
    RecordsApart(a, t, 0, 0);
    NoItems(t);
    ItemsStep(t, 0);
    DecompressItem(mach, kind, p, t.items[0]);
    assert SettledAt(mach.m, a, t, 0);
  }

  /** decompress_statement_helper. A packed statement points to something, so the test for a null
      pointer never succeeds. */
  method DecompressHelper(mach: Machine, stmt: int, ghost t: Stmt)
    requires stmt > 0 && WellFormed(t) && Compact(t) && !t.Empty? && Packed(mach.m, stmt, t)
    requires HasCells(mach.m, stmt, stmt + Size(t))
    modifies mach
    ensures Outside(old(mach.m), mach.m, stmt, stmt + Size(t)) && Settled(mach.m, stmt, t)
    decreases t, 1
  {
    hide Settled, SettledItems, Packed, PackedText, PackedItems, Size, WellFormedItem, CompactItem;
    PackedHead(mach.m, stmt, t);
    ghost var m0 := mach.m;
    var x := stmt + STMT_V;
    assert mach.m[x] != 0;
    mach.m := mach.m[x := x + mach.m[x]];
    if t.Records? { ItemsStay(m0, mach.m, stmt, t); ItemTag(m0, stmt, t); } else { TextTag(m0, stmt, t); }
    var v := mach.m[x];
    if mach.m[stmt] == VALUE_TYPE {
      if mach.m[v] == CALCULATED {
        DecompressSingle(mach, CalculatedRecord, v, stmt, t);
      } else {
        TextSettled(m0, m0[x := v][v + VALUE_V := v + VALUE], stmt, t);
        mach.m := mach.m[v + VALUE_V := v + VALUE_V + mach.m[v + VALUE_V]];
        return;
      }
    } else if mach.m[stmt] == 0 {
      DecompressSingle(mach, TableRecord, v, stmt, t);
    } else {
      NoItems(t);
      DecompressRing(mach, if mach.m[stmt] == 9 then ColumnRecord else KeywordRecord, v, stmt, t);
    }
    SettledOf(mach.m, stmt, t);
  }

  lemma SettledOf(m: Memory, a: int, t: Stmt)
    requires t.Records? && Has(m, a, t.kind.Type()) && Has(m, a + STMT_V, a + STMT) && SettledItems(m, a, t)
    ensures Settled(m, a, t)
  {
    hide SettledAt;
  }

  lemma ItemTag(m: Memory, a: int, t: Stmt)
    requires t.Records? && WellFormed(t) && PackedItems(m, a, t, |t.items|) && HasCells(m, a, a + Size(t))
    ensures a + STMT in m && (t.kind.CalculatedRecord? ==> m[a + STMT] == CALCULATED)
  {
    assert PackedAt(m, a, t, 0);
    NoItems(t);
    ItemsStep(t, 0);
    RecordsApart(a, t, 0, 0);
    assert PackedBody(m, t.kind, a + STMT, t.items[0], |t.items[0].parts|);
    if t.kind.CalculatedRecord? { assert Has(m, a + STMT + t.kind.Plain()[0], t.items[0].plain[0]); }
  }

  lemma TextTag(m: Memory, a: int, t: Stmt)
    requires t.Text? && WellFormed(t) && PackedText(m, a + STMT, t.plain, t.text)
    ensures a + STMT in m && m[a + STMT] != CALCULATED && Has(m, a + STMT + VALUE_V, VALUE - VALUE_V)
    ensures Size(t) >= STMT + VALUE
  {
    assert Has(m, a + STMT + VALUE_PLAIN[0], t.plain[0]);
  }

  /** In the packed form records and what they point to follow each other without overlapping, all
      inside the buffer, and a pointer is positive if it leads anywhere and zero if it does not. */
  lemma PackedLayout(m: Memory, a: int, t: Stmt, k: nat, j: nat)
    requires WellFormed(t) && t.Records? && Packed(m, a, t) && k < |t.items| && j < |t.items[k].parts|
    ensures var r, it := Pos(a, t, k), t.items[k];
      && a + STMT <= r && r + t.kind.Size() <= PartPos(t.kind, r, it, j)
      && PartPos(t.kind, r, it, j) + Size(it.parts[j]) <= r + ItemSize(t.kind, it) <= a + Size(t)
      && (j + 1 < |it.parts| ==> PartPos(t.kind, r, it, j) + Size(it.parts[j]) == PartPos(t.kind, r, it, j + 1))
      && (k + 1 < |t.items| ==> r + ItemSize(t.kind, it) == Pos(a, t, k + 1))
    ensures var r, p := Pos(a, t, k), t.items[k].parts[j];
      && |t.items[k].parts| == |t.kind.Links()| && r + t.kind.Links()[j] in m
      && if p.Empty? || p.Hollow? then m[r + t.kind.Links()[j]] == 0 else m[r + t.kind.Links()[j]] > 0
    ensures t.kind.Ring() ==> var x := Pos(a, t, k) + t.kind.Next();
      x in m && m[x] >= 0 && (m[x] == 0 <==> k + 1 == |t.items|)
  {
    hide ItemsSize, PartsSize, Size, Packed, PackedLink;
    PackedHead(m, a, t);
    assert PackedAt(m, a, t, k);
    var r, it := Pos(a, t, k), t.items[k];
    RecordsApart(a, t, k, k);
    PosAfter(a, t, k);
    ItemsStep(t, k);
    PartFits(it, j, |it.parts|);
    PartsStep(it, j);
    PartsGrow(it, 0, j);
    NoParts(it);
    Fields(t.kind);
    assert PackedBody(m, t.kind, r, it, |it.parts|);
    LinkSign(m, r + t.kind.Links()[j], PartPos(t.kind, r, it, j), it.parts[j]);
  }

  lemma LinkSign(m: Memory, x: int, pos: int, t: Stmt)
    requires PackedLink(m, x, pos, t) && x < pos
    ensures x in m && if t.Empty? || t.Hollow? then m[x] == 0 else m[x] > 0
  {
    hide Packed;
  }
}
