/** A table definition saved to the schema global in pieces and loaded again at another address. */
module SchemaStore {
  import opened Statements
  import opened Compress
  import opened Layout
  import opened Decompress

  // ----- Pieces -----

  function Zeros(n: nat): seq<int> { seq(n, _ => 0) }

  function Cut(bytes: seq<int>, max: nat): seq<seq<int>>
    requires max > 0
  {
    if bytes == [] then [] else if |bytes| <= max then [bytes] else [bytes[..max]] + Cut(bytes[max..], max)
  }

  function Padded(p: seq<int>, max: nat): seq<int> { if |p| <= max then p + Zeros(max - |p|) else p[..max] }

  /** The pieces in subscript order, each with room for max cells. */
  function Assembled(pieces: seq<seq<int>>, max: nat): seq<int> {
    if pieces == [] then [] else Padded(pieces[0], max) + Assembled(pieces[1..], max)
  }

  lemma {:induction false} AssembledAppend(x: seq<seq<int>>, y: seq<seq<int>>, max: nat)
    ensures Assembled(x + y, max) == Assembled(x, max) + Assembled(y, max)
  {
    if x == [] {
      assert x + y == y;
    } else {
      assert (x + y)[1..] == x[1..] + y;
      AssembledAppend(x[1..], y, max);
    }
  }

  /** The bytes, followed by zeros. */
  predicate PaddedOut(j: seq<int>, bytes: seq<int>) {
    |j| >= |bytes| && (forall k | 0 <= k < |bytes| :: j[k] == bytes[k]) && forall k | |bytes| <= k < |j| :: j[k] == 0
  }

  /** Cutting and joining gives the bytes back, followed by zeros. */
  lemma {:induction false} CutJoins(bytes: seq<int>, max: nat)
    requires max > 0
    ensures PaddedOut(Assembled(Cut(bytes, max), max), bytes)
    ensures forall p <- Cut(bytes, max) :: |p| <= max
    decreases |bytes|
  {
    hide Zeros, Assembled, PaddedOut;
    ZerosLength(0);
    if |bytes| > max {
      var head, rest := bytes[..max], bytes[max..];
      CutJoins(rest, max);
      AssembledAppend([head], Cut(rest, max), max);
      AssembledOne(head, max);
      assert head + Zeros(0) == head && bytes == head + rest;
      PaddedAfter(head, Assembled(Cut(rest, max), max), rest);
    } else if bytes != [] {
      AssembledOne(bytes, max);
      PaddedOne(bytes, max);
    } else {
      AssembledNone(max);
      PaddedNone();
    }
  }

  lemma PaddedAfter(head: seq<int>, j: seq<int>, rest: seq<int>)
    requires PaddedOut(j, rest)
    ensures PaddedOut(head + j, head + rest)
  {}

  lemma PaddedOne(p: seq<int>, max: nat)
    requires |p| <= max
    ensures PaddedOut(Padded(p, max), p)
  {}

  lemma PaddedNone()
    ensures PaddedOut([], [])
  {}

  lemma ZerosLength(n: nat)
    ensures |Zeros(n)| == n
  {}

  lemma AssembledOne(p: seq<int>, max: nat)
    ensures Assembled([p], max) == Padded(p, max)
  {
    assert Assembled([p], max) == Padded(p, max) + Assembled([], max);
  }

  lemma AssembledNone(max: nat)
    ensures Assembled([], max) == []
  {}

  predicate AllZero(s: seq<int>) { forall c <- s :: c == 0 }

  /** A longer definition stored earlier leaves pieces behind. Only zeros follow the bytes exactly if
      those pieces are empty or zero. */
  lemma OlderPieces(bytes: seq<int>, older: seq<seq<int>>, max: nat)
    requires max > 0
    ensures PaddedOut(Assembled(Cut(bytes, max) + older, max), bytes) <==> AllZero(Assembled(older, max))
  {
    hide Cut, Assembled;
    CutJoins(bytes, max);
    AssembledAppend(Cut(bytes, max), older, max);
    var j, o := Assembled(Cut(bytes, max), max), Assembled(older, max);
    assert forall k | 0 <= k < |o| :: (j + o)[|j| + k] == o[k];
    if PaddedOut(j + o, bytes) {
      forall c <- o ensures c == 0 {
        var k :| 0 <= k < |o| && o[k] == c;
        assert (j + o)[|j| + k] == 0;
      }
    }
    if AllZero(o) {
      forall k | |bytes| <= k < |j + o| ensures (j + o)[k] == 0 {
        if k >= |j| { assert o[k - |j|] in o; }
      }
    }
  }

  /** A definition of one cell stored over one of two is followed by the second cell of the old one. */
  lemma ShortOverLong()
    ensures Cut([5], 1) == [[5]] && Cut([7, 8], 1) == [[7], [8]]
    ensures !PaddedOut(Assembled([[5]] + [[8]], 1), [5])
  {
    assert [7, 8][..1] == [7] && [7, 8][1..] == [8] && Cut([8], 1) == [[8]];
    assert Cut([7, 8], 1) == [[7]] + [[8]];
    var older := [[8]];
    OlderPieces([5], older, 1);
    AssembledOne([8], 1);
    assert Padded([8], 1) == [8];
    assert 8 in [8] && !AllZero([8]);
  }

  /** The subscripts "b",0 and so on of a table in the schema global. */
  class Global {
    var pieces: seq<seq<int>>
  }

  function Bytes(m: Memory, a: int, n: nat): (r: seq<int>)
    requires HasCells(m, a, a + n)
    ensures |r| == n
  {
    seq(n, (k: nat) requires k < n && HasCells(m, a, a + n) => m[a + k])
  }

  /** Storing, run_query: older pieces with higher subscripts stay. */
  method StorePieces(mach: Machine, global: Global, buffer: int, length: nat, max: nat)
    requires max > 0 && HasCells(mach.m, buffer, buffer + length)
    modifies global
    ensures var cut := Cut(Bytes(mach.m, buffer, length), max);
      |global.pieces| >= |cut| && global.pieces[..|cut|] == cut
        && global.pieces[|cut|..] == if |cut| <= |old(global.pieces)| then old(global.pieces)[|cut|..] else []
  {
    hide Cut, Bytes;
    ghost var bytes := Bytes(mach.m, buffer, length);
    var cur, i := 0, 0;
    assert bytes[0..] == bytes;
    while cur < length
      invariant 0 <= i && 0 <= cur
      invariant Stored(global.pieces, i, bytes, bytes[if cur < length then cur else length..], old(global.pieces), max)
      decreases length - cur
    {
      var n := if max < length - cur then max else length - cur;
      var piece := ReadPiece(mach, buffer, length, cur, n);
      StoredStep(global.pieces, i, bytes, cur, n, old(global.pieces), max);
      global.pieces := if i < |global.pieces| then global.pieces[i := piece] else global.pieces + [piece];
      cur := cur + max;
      i := i + 1;
    }
    assert bytes[length..] == [];
    CutNone(max);
    assert global.pieces[..i] + [] == global.pieces[..i];
  }

  method ReadPiece(mach: Machine, buffer: int, length: nat, cur: nat, n: nat) returns (piece: seq<int>)
    requires HasCells(mach.m, buffer, buffer + length) && cur + n <= length
    ensures piece == Bytes(mach.m, buffer, length)[cur..cur + n]
  {
    piece := seq(n, (k: nat) requires k < n && HasCells(mach.m, buffer, buffer + length)
      && cur + n <= length reads mach => mach.m[buffer + cur + k]);
  }

  /** The first i pieces have been stored and `rest` has not. */
  predicate Stored(pieces: seq<seq<int>>, i: nat, bytes: seq<int>, rest: seq<int>, was: seq<seq<int>>, max: nat)
    requires max > 0
  {
    i <= |pieces| && pieces[..i] + Cut(rest, max) == Cut(bytes, max) && pieces[i..] == if i <= |was| then was[i..]
      else []
  }

  lemma StoredStep(pieces: seq<seq<int>>, i: nat, bytes: seq<int>, cur: nat, n: nat, was: seq<seq<int>>, max: nat)
    requires max > 0 && cur < |bytes| && n == (if max < |bytes| - cur then max else |bytes| - cur)
    requires Stored(pieces, i, bytes, bytes[cur..], was, max)
    ensures var piece := bytes[cur..cur + n];
      Stored(if i < |pieces| then pieces[i := piece] else pieces + [piece], i + 1, bytes, bytes[cur + n..], was, max)
  {
    hide Cut;
    var piece := bytes[cur..cur + n];
    var now := if i < |pieces| then pieces[i := piece] else pieces + [piece];
    CutStep(bytes, cur, n, max);
    assert now[..i + 1] == pieces[..i] + [piece];
    assert pieces[..i] + ([piece] + Cut(bytes[cur + n..], max)) == (pieces[..i] + [piece]) + Cut(bytes[cur + n..], max);
    assert now[i + 1..] == if i < |pieces| then pieces[i..][1..] else [];
  }

  lemma CutNone(max: nat)
    requires max > 0
    ensures Cut([], max) == []
  {}

  lemma CutStep(bytes: seq<int>, cur: nat, n: nat, max: nat)
    requires max > 0 && cur < |bytes| && n == if max < |bytes| - cur then max else |bytes| - cur
    ensures Cut(bytes[cur..], max) == [bytes[cur..cur + n]] + Cut(bytes[cur + n..], max)
  {
    var rest := bytes[cur..];
    assert rest[..n] == bytes[cur..cur + n] && rest[n..] == bytes[cur + n..];
    if |rest| <= max { assert rest == bytes[cur..cur + n] && bytes[cur + n..] == []; }
  }

  // ----- Loading -----

  /** The cells from a on are s. */
  predicate Content(m: Memory, a: int, s: seq<int>) {
    forall x | a <= x < a + |s| :: x in m && m[x] == s[x - a]
  }

  function Overwritten(m: Memory, a: int, p: seq<int>): Memory {
    map x | x in m :: if a <= x < a + |p| then p[x - a] else m[x]
  }

  lemma {:induction false} AssembledLength(pieces: seq<seq<int>>, max: nat)
    ensures |Assembled(pieces, max)| == max * |pieces|
  {
    if pieces != [] {
      AssembledLength(pieces[1..], max);
      assert max * |pieces| == max + max * (|pieces| - 1);
    }
  }

  /** find_table: a zeroed buffer at base, with room for max cells of each piece. */
  method LoadPieces(mach: Machine, global: Global, base: int, max: nat) returns (size: nat)
    requires max > 0 && base > 0 && (forall p <- global.pieces :: |p| <= max) && forall x | x >= base :: x !in mach.m
    modifies mach
    ensures size == |Assembled(global.pieces, max)| && Content(mach.m, base, Assembled(global.pieces, max))
    ensures mach.m.Keys == old(mach.m.Keys) + Region(base, base + size)
    ensures forall x <- old(mach.m.Keys) :: mach.m[x] == old(mach.m[x])
  {
    hide Assembled;
    size := max * |global.pieces|;
    AssembledLength(global.pieces, max);
    mach.m := Allocated(mach.m, base, size);
    ghost var all := mach.m.Keys;
    var i, pos := 0, base;
    AssembledNone(max);
    assert global.pieces[..0] == [];
    while i < |global.pieces|
      invariant 0 <= i <= |global.pieces| && pos == base + |Assembled(global.pieces[..i], max)|
      invariant mach.m.Keys == all && Content(mach.m, base, Assembled(global.pieces[..i], max))
      invariant forall x <- all :: if x < base then mach.m[x] == old(mach.m)[x] else x >= pos ==> mach.m[x] == 0
    {
      PieceLoaded(mach.m, base, global.pieces, i, max);
      mach.m := Overwritten(mach.m, pos, global.pieces[i]);
      pos := pos + max;
      i := i + 1;
    }
    assert global.pieces[..i] == global.pieces;
  }

  lemma PieceLoaded(m: Memory, base: int, pieces: seq<seq<int>>, i: nat, max: nat)
    requires i < |pieces| && (forall p <- pieces :: |p| <= max)
    requires var was := Assembled(pieces[..i], max);
      Content(m, base, was) && forall x | base + |was| <= x < base + |Assembled(pieces, max)| :: x in m && m[x] == 0
    ensures var was, now := Assembled(pieces[..i], max), Assembled(pieces[..i + 1], max);
      |now| == |was| + max <= |Assembled(pieces, max)| && Content(Overwritten(m, base + |was|, pieces[i]), base, now)
  {
    hide Assembled;
    var was := Assembled(pieces[..i], max);
    assert pieces[..i + 1] == pieces[..i] + [pieces[i]] && pieces == pieces[..i + 1] + pieces[i + 1..];
    AssembledAppend(pieces[..i], [pieces[i]], max);
    AssembledAppend(pieces[..i + 1], pieces[i + 1..], max);
    AssembledOne(pieces[i], max);
    ZerosLength(max - |pieces[i]|);
  }

  // ----- The round trip -----

  /** What comes back: statements that point to nothing have become null pointers. */
  function Clean(t: Stmt): (r: Stmt)
    ensures r.Records? <==> t.Records?
    ensures r.Records? ==> r.kind == t.kind && |r.items| == |t.items|
    ensures !t.Records? ==> r == if t.Hollow? then Empty else t
    decreases t, 0
  {
    match t
    case Hollow => Empty
    case Records(kind, items) => Records(kind, seq(|items|, (k: nat) requires k < |items| => CleanItem(items[k])))
    case _ => t
  }

  function CleanItem(it: Item): (r: Item)
    ensures r.plain == it.plain && |r.parts| == |it.parts|
    decreases it, 0
  {
    Item(it.plain, seq(|it.parts|, (j: nat) requires j < |it.parts| => Clean(it.parts[j])))
  }

  predicate Hollows(t: Stmt)
    decreases t, 0
  {
    match t
    case Hollow => true
    case Records(_, items) => exists k | 0 <= k < |items| :: HollowsItem(items[k])
    case _ => false
  }

  predicate HollowsItem(it: Item)
    decreases it, 0
  {
    exists j | 0 <= j < |it.parts| :: Hollows(it.parts[j])
  }

  /** Nothing is lost exactly if there is nothing hollow. */
  lemma {:induction false} CleanIff(t: Stmt)
    ensures Clean(t) == t <==> !Hollows(t)
    decreases t, 0
  {
    if t.Records? {
      forall k | 0 <= k < |t.items| ensures CleanItem(t.items[k]) == t.items[k] <==> !HollowsItem(t.items[k]) {
        CleanItemIff(t.items[k]);
      }
      assert forall k | 0 <= k < |t.items| :: Clean(t).items[k] == CleanItem(t.items[k]);
      if !Hollows(t) { assert Clean(t).items == t.items; }
    }
  }

  lemma {:induction false} CleanItemIff(it: Item)
    ensures CleanItem(it) == it <==> !HollowsItem(it)
    decreases it, 0
  {
    forall j | 0 <= j < |it.parts| ensures Clean(it.parts[j]) == it.parts[j] <==> !Hollows(it.parts[j]) {
      CleanIff(it.parts[j]);
    }
    assert forall j | 0 <= j < |it.parts| :: CleanItem(it).parts[j] == Clean(it.parts[j]);
    if !HollowsItem(it) { assert CleanItem(it).parts == it.parts; }
  }

  lemma {:induction false} CleanKeeps(t: Stmt)
    requires WellFormed(t) && Supported(t)
    ensures WellFormed(Clean(t)) && Compact(Clean(t)) && Size(Clean(t)) == Size(t)
    decreases t, 1
  {
    if t.Records? {
      forall k | 0 <= k < |t.items|
        ensures WellFormedItem(t.kind, CleanItem(t.items[k])) && CompactItem(CleanItem(t.items[k]))
        ensures ItemSize(t.kind, CleanItem(t.items[k])) == ItemSize(t.kind, t.items[k])
      {
        CleanItemKeeps(t.kind, t.items[k]);
      }
      CleanItemsSize(t, |t.items|);
    }
  }

  lemma {:induction false} CleanItemKeeps(kind: Kind, it: Item)
    requires WellFormedItem(kind, it) && SupportedItem(it)
    ensures WellFormedItem(kind, CleanItem(it)) && CompactItem(CleanItem(it))
    ensures ItemSize(kind, CleanItem(it)) == ItemSize(kind, it)
    ensures forall j | 0 <= j <= |it.parts| :: PartsSize(CleanItem(it), j) == PartsSize(it, j)
    decreases it, 1
  {
    forall j | 0 <= j < |it.parts|
      ensures WellFormed(Clean(it.parts[j])) && Compact(Clean(it.parts[j]))
      && Size(Clean(it.parts[j])) == Size(it.parts[j])
    {
      CleanKeeps(it.parts[j]);
    }
    forall j | 0 <= j <= |it.parts| ensures PartsSize(CleanItem(it), j) == PartsSize(it, j) {
      CleanPartsSize(it, j);
    }
  }

  lemma {:induction false} CleanPartsSize(it: Item, j: nat)
    requires j <= |it.parts| && forall i | 0 <= i < |it.parts| :: Size(Clean(it.parts[i])) == Size(it.parts[i])
    ensures PartsSize(CleanItem(it), j) == PartsSize(it, j)
    decreases j
  {
    if j > 0 {
      CleanPartsSize(it, j - 1);
      assert CleanItem(it).parts[j - 1] == Clean(it.parts[j - 1]);
    }
  }

  lemma {:induction false} CleanItemsSize(t: Stmt, k: nat)
    requires t.Records? && k <= |t.items|
    requires forall i | 0 <= i < |t.items| :: ItemSize(t.kind, CleanItem(t.items[i])) == ItemSize(t.kind, t.items[i])
    ensures ItemsSize(Clean(t), k) == ItemsSize(t, k)
    decreases k
  {
    if k > 0 {
      CleanItemsSize(t, k - 1);
      assert Clean(t).items[k - 1] == CleanItem(t.items[k - 1]);
    }
  }

  /** The packed form does not tell a hollow statement from a null pointer. */
  lemma {:induction false} CleanPacked(m: Memory, a: int, t: Stmt)
    requires WellFormed(t) && Supported(t) && Packed(m, a, t)
    ensures Packed(m, a, Clean(t))
    decreases t, 1
  {
    if t.Records? {
      hide PackedBody, ItemSize, ItemsSize;
      forall k | 0 <= k < |t.items| ensures PackedAt(m, a, Clean(t), k) {
        assert PackedAt(m, a, t, k);
        CleanSizes(t, k);
        CleanPackedItem(m, t.kind, a + STMT + ItemsSize(t, k), t.items[k]);
        assert Clean(t).items[k] == CleanItem(t.items[k]);
      }
    }
  }

  lemma CleanSizes(t: Stmt, k: nat)
    requires t.Records? && WellFormed(t) && Supported(t) && k < |t.items|
    ensures ItemsSize(Clean(t), k) == ItemsSize(t, k)
    ensures ItemSize(t.kind, CleanItem(t.items[k])) == ItemSize(t.kind, t.items[k])
    ensures WellFormedItem(t.kind, t.items[k]) && SupportedItem(t.items[k])
  {
    hide ItemSize, ItemsSize;
    forall i | 0 <= i < |t.items| ensures ItemSize(t.kind, CleanItem(t.items[i])) == ItemSize(t.kind, t.items[i]) {
      CleanItemKeeps(t.kind, t.items[i]);
    }
    CleanItemsSize(t, k);
  }

  lemma {:induction false} CleanPackedItem(m: Memory, kind: Kind, r: int, it: Item)
    requires WellFormedItem(kind, it) && SupportedItem(it) && PackedBody(m, kind, r, it, |it.parts|)
    ensures PackedBody(m, kind, r, CleanItem(it), |it.parts|)
    decreases it, 0
  {
    hide PartsSize, Kind.Links, Kind.Plain, Kind.Size, Packed;
    CleanItemKeeps(kind, it);
    var c := CleanItem(it);
    forall j | 0 <= j < |it.parts|
      ensures PackedLink(m, r + kind.Links()[j], r + kind.Size() + PartsSize(c, j), c.parts[j])
    {
      assert c.parts[j] == Clean(it.parts[j]);
      assert PackedLink(m, r + kind.Links()[j], r + kind.Size() + PartsSize(it, j), it.parts[j]);
      if !it.parts[j].Empty? && !it.parts[j].Hollow? { CleanPacked(m, r + kind.Size() + PartsSize(it, j), it.parts[j]);
        }
    }
  }

  /** What stands in memory after loading can be read as the saved statement exactly if there was
      nothing hollow in it. */
  lemma SameAgainIff(m: Memory, a: int, t: Stmt, d: set<int>)
    requires WellFormed(t) && Supported(t) && Live(m, a, Clean(t), d)
    ensures (exists d' :: Live(m, a, t, d')) <==> !Hollows(t)
  {
    hide Live, WellFormed, Supported, Clean, Hollows, Compact;
    CleanIff(t);
    CleanKeeps(t);
    forall d' | Live(m, a, t, d') ensures t == Clean(t) { LiveUnique(m, a, t, d', Clean(t), d); }
  }

  /** A keyword whose value is a statement that points to nothing. */
  const HOLLOW_KEYWORD := Records(KeywordRecord, [Item([9], [Hollow])])

  /** However it is loaded, it is not the same again. */
  lemma HollowKeywordIsLost(m: Memory, a: int, d: set<int>, d': set<int>)
    requires Live(m, a, Clean(HOLLOW_KEYWORD), d)
    ensures WellFormed(HOLLOW_KEYWORD) && Supported(HOLLOW_KEYWORD) && !Live(m, a, HOLLOW_KEYWORD, d')
  {
    var it := HOLLOW_KEYWORD.items[0];
    assert WellFormed(it.parts[0]) && WellFormedItem(KeywordRecord, it) && Supported(it.parts[0]) && SupportedItem(it);
    assert Hollows(it.parts[0]) && HollowsItem(it);
    assert Hollows(HOLLOW_KEYWORD);
    hide Live, Clean;
    SameAgainIff(m, a, HOLLOW_KEYWORD, d);
  }

  /** Saves a statement and loads it again: compressed at `buffer`, stored in pieces, joined at
      `address` and made live there. */
  method SaveAndLoad(mach: Machine, global: Global, stmt: int, buffer: int, address: int, max: nat, ghost t: Stmt,
          ghost d: set<int>)
    returns (ok: bool, end: int)
    requires WellFormed(t) && Live(mach.m, stmt, t, d) && !t.Empty? && !t.Hollow? && d <= mach.m.Keys && max > 0
    requires 0 < buffer && buffer + Size(t) <= address && (forall x | x >= buffer :: x !in mach.m)
    requires forall p <- global.pieces :: |p| <= max
    modifies mach, global
    ensures ok <==> Supported(t)
    ensures ok ==> Settled(mach.m, address, Clean(t))
    ensures ok ==> Live(mach.m, address, Clean(t), Region(address, address + Size(t)))
    ensures ok ==> ((exists d' :: Live(mach.m, address, t, d')) <==> !Hollows(t))
    ensures ok ==> Live(mach.m, stmt, t, d)
    ensures ok ==> address + Size(t) <= end && HasCells(mach.m, address, address + Size(t)) && forall x | x >= end ::
      x !in mach.m
  {
    hide Live, Settled, Packed, Size, WellFormed, Supported, Clean, Compact, Assembled, Cut, Content, Bytes, Hollows;
    ghost var m0 := mach.m;
    var length;
    end := 0;
    ok, length := CompressStatement(mach, stmt, buffer, t, d);
    if !ok { return; }
    ghost var m1 := mach.m;
    StorePieces(mach, global, buffer, length, max);
    AllShort(m1, buffer, length, global.pieces, old(global.pieces), max);
    var size := LoadPieces(mach, global, address, max);
    end := address + size;
    CopyLoaded(m1, mach.m, buffer, length, address, global.pieces, max);
    PackedMoves(m1, mach.m, buffer, address, t);
    CleanKeeps(t);
    CleanPacked(mach.m, address, t);
    CleanKind(t);
    DecompressHelper(mach, address, Clean(t));
    SettledLive(mach.m, address, Clean(t));
    SameAgainIff(mach.m, address, t, Region(address, address + Size(t)));
    LiveFrame(m0, mach.m, stmt, t, d, d);
  }

  lemma CleanKind(t: Stmt)
    ensures Clean(t).Empty? <==> t.Empty? || t.Hollow?
  {}

  lemma AllShort(m: Memory, buffer: int, length: nat, pieces: seq<seq<int>>, was: seq<seq<int>>, max: nat)
    requires max > 0 && HasCells(m, buffer, buffer + length) && forall p <- was :: |p| <= max
    requires var cut := Cut(Bytes(m, buffer, length), max);
      |pieces| >= |cut| && pieces[..|cut|] == cut && pieces[|cut|..] == if |cut| <= |was| then was[|cut|..] else []
    ensures forall p <- pieces :: |p| <= max
  {
    hide Cut, Bytes;
    var cut := Cut(Bytes(m, buffer, length), max);
    CutJoins(Bytes(m, buffer, length), max);
    assert pieces == pieces[..|cut|] + pieces[|cut|..];
  }

  /** The bytes stand at the new address, whatever older pieces come after them. */
  lemma CopyLoaded(m: Memory, m': Memory, buffer: int, length: nat, address: int, pieces: seq<seq<int>>, max: nat)
    requires max > 0 && HasCells(m, buffer, buffer + length) && Content(m', address, Assembled(pieces, max))
    requires var cut := Cut(Bytes(m, buffer, length), max); |pieces| >= |cut| && pieces[..|cut|] == cut
    ensures Copy(m, m', buffer, buffer + length, address - buffer) && HasCells(m', address, address + length)
    ensures length <= |Assembled(pieces, max)|
  {
    hide Cut, Assembled, Bytes, Content, Copy;
    AssembledStarts(Bytes(m, buffer, length), pieces, max);
    CopyOf(m, m', buffer, length, address, Assembled(pieces, max));
  }

  lemma AssembledStarts(bytes: seq<int>, pieces: seq<seq<int>>, max: nat)
    requires max > 0 && |pieces| >= |Cut(bytes, max)| && pieces[..|Cut(bytes, max)|] == Cut(bytes, max)
    ensures |Assembled(pieces, max)| >= |bytes| && Assembled(pieces, max)[..|bytes|] == bytes
  {
    hide Cut, Assembled;
    var cut := Cut(bytes, max);
    CutJoins(bytes, max);
    assert pieces == cut + pieces[|cut|..];
    AssembledAppend(cut, pieces[|cut|..], max);
  }

  lemma CopyOf(m: Memory, m': Memory, buffer: int, length: nat, address: int, all: seq<int>)
    requires HasCells(m, buffer, buffer + length) && Content(m', address, all) && |all| >= length
    requires all[..length] == Bytes(m, buffer, length)
    ensures Copy(m, m', buffer, buffer + length, address - buffer) && HasCells(m', address, address + length)
  {
    forall x | buffer <= x < buffer + length ensures x in m && Has(m', x + (address - buffer), m[x]) {
      var y := x + (address - buffer);
      assert y in m' && m'[y] == all[y - address];
      assert all[..length][x - buffer] == Bytes(m, buffer, length)[x - buffer];
    }
  }
}
