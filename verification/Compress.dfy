/** compress_statement: a statement and all it points to, packed into one buffer. */
module Compress {
  import opened Statements

  /** memcpy. */
  function Copied(m: Memory, dst: int, src: int, n: int): (m': Memory)
    requires forall x | src <= x < src + n :: x in m
    ensures m'.Keys == m.Keys
  {
    map x | x in m :: if dst <= x < dst + n then m[src + (x - dst)] else m[x]
  }

  /** Free cells, none of them in d. */
  predicate Room(m: Memory, d: set<int>, lo: int, n: int) {
    forall x | lo <= x < lo + n :: x in m && x !in d
  }

  predicate PackedText(m: Memory, r: int, plain: seq<int>, text: seq<int>) {
    PlainAt(m, r, VALUE_PLAIN, plain) && Has(m, r + VALUE_V, VALUE - VALUE_V) && TextAt(m, r + VALUE, text)
  }

  lemma HeadCopied(m: Memory, stmt: int, a: int)
    requires (forall x | stmt <= x < stmt + STMT :: x in m) && a > 0 && forall x | a <= x < a + STMT :: x in m
    ensures var m' := Copied(m, a, stmt, STMT)[a + STMT_V := STMT - STMT_V];
      HeadAt(m', a, m[stmt]) && Outside(m, m', a, a + STMT)
  {}

  /** What the helper returns: the statement's new address, or null if it has not been written. */
  predicate Written(m: Memory, ret: int, pos: int, t: Stmt) {
    if t.Empty? || t.Hollow? then ret == 0 else ret == pos && Packed(m, pos, t)
  }

  lemma OtherFields(m: Memory, m': Memory, kind: Kind, r: int, j: nat, v: int)
    requires j < |kind.Links()| && m' == m[r + kind.Links()[j] := v] && forall x | r <= x < r + kind.Size() :: x in m
    ensures SameFields(m, m', kind, r, r, j) && r <= r + kind.Links()[j] < r + kind.Size()
    ensures kind.Ring() ==> Has(m', r + kind.Next(), m[r + kind.Next()])
  {
    Fields(kind);
  }

  lemma BodyGrows(m: Memory, kind: Kind, r: int, it: Item, j: nat)
    requires j < |it.parts| && PackedBody(m, kind, r, it, j)
    requires PackedLink(m, r + kind.Links()[j], r + kind.Size() + PartsSize(it, j), it.parts[j])
    ensures PackedBody(m, kind, r, it, j + 1)
  {
    hide PackedLink, Size, PartsSize, Kind.Links, Kind.Plain, Kind.Size, PlainAt;
  }

  lemma BodySize(m: Memory, kind: Kind, r: int, it: Item, j: nat)
    requires PackedBody(m, kind, r, it, j)
    ensures |it.parts| == |kind.Links()|
  {}

  lemma LinkWritten(m: Memory, m': Memory, kind: Kind, r: int, it: Item, j: nat, ret: int)
    requires j < |it.parts| == |kind.Links()| && PackedBody(m, kind, r, it, j) && r > 0
    requires Written(m, ret, r + kind.Size() + PartsSize(it, j), it.parts[j])
    requires forall x | r <= x < r + kind.Size() + PartsSize(it, j) + Size(it.parts[j]) :: x in m
    requires var x := r + kind.Links()[j]; m' == m[x := if ret == 0 then 0 else ret - x]
    ensures PackedBody(m', kind, r, it, j + 1)
  {
    hide Packed, PackedLink, PackedBody, Size, PartsSize, Kind.Links, Kind.Plain, Kind.Size, SameFields, Written;
    var x := r + kind.Links()[j];
    OtherFields(m, m', kind, r, j, if ret == 0 then 0 else ret - x);
    BodyMoves(m, m', kind, r, r, it, j);
    LastLink(m, m', x, r + kind.Size() + PartsSize(it, j), it.parts[j], ret);
    BodyGrows(m', kind, r, it, j);
  }

  lemma LastLink(m: Memory, m': Memory, x: int, pos: int, t: Stmt, ret: int)
    requires 0 < x < pos && Written(m, ret, pos, t) && (forall y | pos <= y < pos + Size(t) :: y in m)
    requires m' == m[x := if ret == 0 then 0 else ret - x]
    ensures PackedLink(m', x, pos, t)
  {
    hide Packed, Size;
    if !t.Empty? && !t.Hollow? { PackedMoves(m, m', pos, pos, t); }
  }

  /** memcpy of a record, with its ring links cleared. */
  function Cleared(m: Memory, kind: Kind, r: int): Memory {
    if kind.Ring() then m[r + kind.Next() := 0][r + kind.Prev() := 0] else m
  }

  lemma RecordCopied(m: Memory, m': Memory, m0: Memory, kind: Kind, p: int, r: int, it: Item, d: set<int>)
    requires LiveRecord(m0, kind, p, it, d) && Agree(m0, m, d) && Room(m, d, r, kind.Size())
    requires (forall x | p <= x < p + kind.Size() :: x in m) && m' == Cleared(Copied(m, r, p, kind.Size()), kind, r)
    ensures PackedBody(m', kind, r, it, 0) && (kind.Ring() ==> Has(m', r + kind.Next(), 0))
    ensures Outside(m, m', r, r + kind.Size())
  {
    hide LiveLink;
    Fields(kind);
    hide Kind.Links, Kind.Plain, Kind.Size;
    forall i | 0 <= i < |kind.Plain()| ensures Has(m', r + kind.Plain()[i], it.plain[i]) {
      assert Has(m0, p + kind.Plain()[i], it.plain[i]);
    }
  }

  lemma RecordReadable(m: Memory, m0: Memory, kind: Kind, p: int, it: Item, d: set<int>)
    requires LiveRecord(m0, kind, p, it, d) && Agree(m0, m, d)
    ensures |it.parts| == |kind.Links()| && (forall x | p <= x < p + kind.Size() :: x in d && x in m)
    ensures forall j | 0 <= j < |kind.Links()| ::
      p + kind.Links()[j] in m0 && Has(m, p + kind.Links()[j], m0[p + kind.Links()[j]])
      && Live(m0, m0[p + kind.Links()[j]], it.parts[j], d)
  {
    hide Live, PlainAt, Kind.Links, Kind.Plain, Kind.Size;
    forall x | p <= x < p + kind.Size() ensures x in d && x in m {
      assert x in d;
      assert Has(m, x, m0[x]);
    }
    Fields(kind);
    forall j | 0 <= j < |kind.Links()|
      ensures p + kind.Links()[j] in m0 && Has(m, p + kind.Links()[j], m0[p + kind.Links()[j]])
      && Live(m0, m0[p + kind.Links()[j]], it.parts[j], d)
    {
      assert LiveLink(m0, p + kind.Links()[j], it.parts[j], d);
    }
  }

  /** One record, followed by all that its pointers lead to. */
  method CompressItem(mach: Machine, kind: Kind, p: int, out: int, len: int, ghost it: Item, ghost d: set<int>,
          ghost m0: Memory)
    returns (ok: bool, len': int)
    requires WellFormedItem(kind, it) && LiveRecord(m0, kind, p, it, d) && Agree(m0, mach.m, d)
    requires out >= 0 && len >= 0 && (out > 0 ==> Room(mach.m, d, out + len, ItemSize(kind, it)))
    modifies mach
    ensures if out == 0 then mach.m == old(mach.m)
      else Outside(old(mach.m), mach.m, out + len, out + len + ItemSize(kind, it))
    ensures ok <==> SupportedItem(it)
    ensures ok ==> len' == len + ItemSize(kind, it)
    ensures ok && out > 0 ==> PackedBody(mach.m, kind, out + len, it, |it.parts|)
    ensures ok && out > 0 && kind.Ring() ==> Has(mach.m, out + len + kind.Next(), 0)
    decreases it, 1
  {
    hide Live, LiveRecord, Packed, PackedBody, Written, Size, PartsSize, WellFormed, Supported, Kind.Links, Kind.Plain,
      Kind.Size, Kind.Next, Kind.Prev, Kind.Ring, Copied, Cleared;
    var r := out + len;
    ok := true;
    len' := len + kind.Size();
    RecordReadable(mach.m, m0, kind, p, it, d);
    NoParts(it);
    if out > 0 {
      PartsGrow(it, 0, |it.parts|);
      RecordCopied(mach.m, Cleared(Copied(mach.m, r, p, kind.Size()), kind, r), m0, kind, p, r, it, d);
      mach.m := Cleared(Copied(mach.m, r, p, kind.Size()), kind, r);
    }
    var j := 0;
    while j < |kind.Links()|
      invariant 0 <= j <= |kind.Links()| && ok && forall i | 0 <= i < j :: Supported(it.parts[i])
      invariant len' == len + kind.Size() + PartsSize(it, j)
      invariant if out == 0 then mach.m == old(mach.m) else Outside(old(mach.m), mach.m, r, out + len')
      invariant out > 0 ==> PackedBody(mach.m, kind, r, it, j) && (kind.Ring() ==> Has(mach.m, r + kind.Next(), 0))
    {
      PartsStep(it, j);
      PartsGrow(it, j + 1, |it.parts|);
      ghost var m1 := mach.m;
      RecordReadable(m1, m0, kind, p, it, d);
      var ret;
      ok, ret, len' := CompressHelper(mach, mach.m[p + kind.Links()[j]], out, len', it.parts[j], d, m0);
      if !ok { return; }
      if out > 0 {
        LinkAdded(m1, mach.m, kind, r, it, j, ret);
        var x := r + kind.Links()[j];
        mach.m := mach.m[x := if ret == 0 then 0 else ret - x];
      }
      j := j + 1;
    }
  }

  lemma NoParts(it: Item)
    ensures PartsSize(it, 0) == 0
  {}

  lemma {:induction false} PartsStep(it: Item, j: nat)
    requires j < |it.parts|
    ensures PartsSize(it, j + 1) == PartsSize(it, j) + Size(it.parts[j])
  {}

  lemma FieldsStay(m: Memory, m': Memory, kind: Kind, r: int, j: nat)
    requires j <= |kind.Links()| && forall x | r <= x < r + kind.Size() :: x in m && Has(m', x, m[x])
    ensures SameFields(m, m', kind, r, r, j)
  {
    Fields(kind);
  }

  /** The next pointer's statement has been written behind the record, and now the pointer. */
  lemma LinkAdded(m: Memory, m': Memory, kind: Kind, r: int, it: Item, j: nat, ret: int)
    requires j < |it.parts| == |kind.Links()| && PackedBody(m, kind, r, it, j) && r > 0
    requires (kind.Ring() ==> Has(m, r + kind.Next(), 0))
    requires forall x | r <= x < r + kind.Size() + PartsSize(it, j) + Size(it.parts[j]) :: x in m
    requires var pos := r + kind.Size() + PartsSize(it, j);
      Outside(m, m', pos, pos + Size(it.parts[j])) && Written(m', ret, pos, it.parts[j])
    ensures var x := r + kind.Links()[j]; var m'' := m'[x := if ret == 0 then 0 else ret - x];
      && PackedBody(m'', kind, r, it, j + 1) && (kind.Ring() ==> Has(m'', r + kind.Next(), 0))
      && Outside(m, m'', r, r + kind.Size() + PartsSize(it, j) + Size(it.parts[j]))
  {
    hide Packed, PackedLink, PackedBody, Size, PartsSize, Kind.Links, Kind.Plain, Kind.Size, Kind.Next, Kind.Ring,
      Written, SameFields;
    Fields(kind);
    FieldsStay(m, m', kind, r, j);
    BodyMoves(m, m', kind, r, r, it, j);
    var x := r + kind.Links()[j];
    var v := if ret == 0 then 0 else ret - x;
    OtherFields(m', m'[x := v], kind, r, j, v);
    LinkWritten(m', m'[x := v], kind, r, it, j, ret);
  }

  predicate PackedItems(m: Memory, a: int, t: Stmt, n: nat)
    requires t.Records? && n <= |t.items|
  {
    forall k | 0 <= k < n :: PackedAt(m, a, t, k)
  }

  /** The do-while loop over a ring of columns or keywords. */
  method CompressRing(mach: Machine, kind: Kind, start: int, out: int, len: int, ghost t: Stmt, ghost ps: seq<int>,
          ghost d: set<int>, ghost m0: Memory)
    returns (ok: bool, len': int)
    requires t.Records? && t.kind == kind && kind.Ring() && WellFormed(t) && LiveChain(m0, ps, t, d) && ps[0] == start
    requires Agree(m0, mach.m, d)
    requires out >= 0 && len >= STMT && (out > 0 ==> Room(mach.m, d, out + len, ItemsSize(t, |t.items|)))
    modifies mach
    ensures if out == 0 then mach.m == old(mach.m)
      else Outside(old(mach.m), mach.m, out + len, out + len + ItemsSize(t, |t.items|))
    ensures ok <==> Supported(t)
    ensures ok ==> len' == len + ItemsSize(t, |t.items|)
    ensures ok && out > 0 ==> PackedItems(mach.m, out + len - STMT, t, |t.items|)
    decreases t, 0, 0
  {
    hide Live, LiveRecord, LiveChain, Packed, PackedBody, PackedAt, Size, ItemsSize, ItemSize, WellFormedItem,
      SupportedItem, Kind.Links, Kind.Plain, Kind.Size, Kind.Next, Kind.Prev, Kind.Ring;
    var cur := start;
    len' := len;
    ok := true;
    ghost var k := 0;
    ghost var a := out + len - STMT;
    NoItems(t);
    RingReadable(mach.m, m0, ps, t, 0, d);
    while true
      invariant 0 <= k < |t.items| == |ps| && ok && cur == ps[k] && forall i | 0 <= i < k :: SupportedItem(t.items[i])
      invariant len' == len + ItemsSize(t, k)
      invariant if out == 0 then mach.m == old(mach.m) else Outside(old(mach.m), mach.m, out + len, out + len')
      invariant out > 0 ==> PackedItems(mach.m, a, t, k)
      decreases |t.items| - k
    {
      ItemsStep(t, k);
      ItemsGrow(t, k + 1, |t.items|);
      RingReadable(mach.m, m0, ps, t, k, d);
      var r := out + len';
      ghost var m1 := mach.m;
      ok, len' := CompressItem(mach, kind, cur, out, len', t.items[k], d, m0);
      if !ok { return; }
      RingReadable(mach.m, m0, ps, t, k, d);
      cur := mach.m[cur + kind.Next()];
      ghost var m2 := mach.m;
      if out > 0 && cur != start {
        mach.m := mach.m[r + kind.Next() := out + len' - (r + kind.Next())];
      }
      if out > 0 { ItemAdded(m1, m2, mach.m, a, t, k); }
      k := k + 1;
      if cur == start { break; }
    }
  }

  lemma NoItems(t: Stmt)
    requires t.Records?
    ensures ItemsSize(t, 0) == 0
  {}

  lemma {:induction false} ItemsStep(t: Stmt, k: nat)
    requires t.Records? && k < |t.items|
    ensures ItemsSize(t, k + 1) == ItemsSize(t, k) + ItemSize(t.kind, t.items[k])
    ensures ItemSize(t.kind, t.items[k]) >= t.kind.Size()
  {}

  lemma RingReadable(m: Memory, m0: Memory, ps: seq<int>, t: Stmt, k: nat, d: set<int>)
    requires t.Records? && t.kind.Ring() && k < |t.items| && LiveChain(m0, ps, t, d) && Agree(m0, m, d)
    ensures LiveRecord(m0, t.kind, ps[k], t.items[k], d) && Has(m, ps[k] + t.kind.Next(), After(ps, k))
    ensures |ps| == |t.items| && (After(ps, k) == ps[0] <==> k + 1 == |ps|)
  {
    hide LiveBody;
  }

  /** One more record, its pointer to the next one set if there is one. */
  lemma ItemAdded(m: Memory, m': Memory, m'': Memory, a: int, t: Stmt, k: nat)
    requires t.Records? && t.kind.Ring() && k < |t.items| && PackedItems(m, a, t, k)
    requires forall x | a + STMT <= x < a + STMT + ItemsSize(t, k) + ItemSize(t.kind, t.items[k]) :: x in m
    requires var r := a + STMT + ItemsSize(t, k);
      && Outside(m, m', r, r + ItemSize(t.kind, t.items[k]))
        && PackedBody(m', t.kind, r, t.items[k], |t.items[k].parts|) && Has(m', r + t.kind.Next(), 0)
      && m'' == if k + 1 == |t.items| then m' else m'[r + t.kind.Next() := ItemSize(t.kind, t.items[k]) - t.kind.Next()]
    ensures PackedItems(m'', a, t, k + 1)
    ensures Outside(m, m'', a + STMT + ItemsSize(t, k), a + STMT + ItemsSize(t, k) + ItemSize(t.kind, t.items[k]))
  {
    hide PackedBody, ItemsSize, PartsSize, Kind.Links, Kind.Plain, Kind.Size, Kind.Next, SameFields;
    Fields(t.kind);
    var r := a + STMT + ItemsSize(t, k);
    BodySize(m', t.kind, r, t.items[k], |t.items[k].parts|);
    NextSet(m', m'', t.kind, r);
    BodyMoves(m', m'', t.kind, r, r, t.items[k], |t.items[k].parts|);
    forall i | 0 <= i < k ensures PackedAt(m'', a, t, i) {
      ItemFits(t, i, k);
      PackedAtMoves(m, m'', a, a, t, i);
    }
  }

  lemma NextSet(m: Memory, m': Memory, kind: Kind, r: int)
    requires kind.Ring() && (forall x | r <= x < r + kind.Size() :: x in m) && m'.Keys >= m.Keys
    requires forall x <- m.Keys :: x == r + kind.Next() || m'[x] == m[x]
    ensures SameFields(m, m', kind, r, r, |kind.Links()|)
  {
    Fields(kind);
  }

  /** A value that is not calculated: its record and its string. */
  method CompressText(mach: Machine, value: int, out: int, len: int, ghost plain: seq<int>, ghost text: seq<int>,
          ghost d: set<int>, ghost m0: Memory)
    returns (len': int)
    requires LiveText(m0, value, plain, text, d) && (forall c <- text :: c != 0) && Agree(m0, mach.m, d)
    requires out >= 0 && len >= 0 && (out > 0 ==> Room(mach.m, d, out + len, VALUE + |text| + 1))
    modifies mach
    ensures if out == 0 then mach.m == old(mach.m)
      else Outside(old(mach.m), mach.m, out + len, out + len + VALUE + |text| + 1)
    ensures len' == len + VALUE + |text| + 1
    ensures out > 0 ==> PackedText(mach.m, out + len, plain, text)
  {
    hide Copied, PlainAt, TextAt, PackedText;
    var r := out + len;
    TextReadable(mach.m, m0, value, plain, text, d);
    ghost var m1 := mach.m;
    if out > 0 {
      RecordText(m1, r, value, plain, text, d);
      mach.m := Copied(mach.m, r, value, VALUE);
      TextReadable(mach.m, m0, value, plain, text, d);
    }
    len' := len + VALUE;
    var s := mach.m[value + VALUE_V];
    var n := StringLength(mach, s, value, plain, text, d);
    if out > 0 {
      TextCopied(m1, r, value, plain, text, d);
      mach.m := Copied(mach.m, out + len', s, n);
      mach.m := mach.m[r + VALUE_V := out + len' - (r + VALUE_V)];
    }
    len' := len' + n;
    if out > 0 { mach.m := mach.m[out + len' := 0]; }
    len' := len' + 1;
  }

  /** strlen. */
  method StringLength(mach: Machine, s: int, ghost value: int, ghost plain: seq<int>, ghost text: seq<int>,
          ghost d: set<int>)
    returns (n: nat)
    requires LiveText(mach.m, value, plain, text, d) && s == mach.m[value + VALUE_V] && forall c <- text :: c != 0
    ensures n == |text|
  {
    n := 0;
    CharReadable(mach.m, value, plain, text, d, 0);
    while mach.m[s + n] != 0
      invariant n <= |text| && Has(mach.m, s + n, CharAt(text, n))
      decreases |text| - n
    {
      n := n + 1;
      CharReadable(mach.m, value, plain, text, d, n);
    }
    NoZero(text, n);
  }

  lemma NoZero(text: seq<int>, n: nat)
    requires forall c <- text :: c != 0
    ensures n < |text| ==> CharAt(text, n) != 0
  {
    if n < |text| { assert text[n] in text; }
  }

  lemma SpanReadable(m: Memory, m0: Memory, d: set<int>, a: int, n: int)
    requires Span(d, a, n) && Agree(m0, m, d)
    ensures forall x | a <= x < a + n :: x in d && x in m0 && Has(m, x, m0[x])
    ensures forall x | a <= x < a + n :: x in m
  {
    forall x | a <= x < a + n ensures x in d && x in m0 && Has(m, x, m0[x]) { assert x in d; }
  }

  lemma TextReadable(m: Memory, m0: Memory, r: int, plain: seq<int>, text: seq<int>, d: set<int>)
    requires LiveText(m0, r, plain, text, d) && Agree(m0, m, d)
    ensures LiveText(m, r, plain, text, d) && m[r + VALUE_V] == m0[r + VALUE_V]
    ensures (forall x | r <= x < r + VALUE :: x in d && x in m) && m[r] == plain[0]
    ensures forall x | r <= x < r + VALUE :: x in m
  {
    TextFrame(m0, m, r, plain, text, d, d);
    SpanReadable(m, m0, d, r, VALUE);
    assert r + VALUE_PLAIN[0] == r;
  }

  function CharAt(text: seq<int>, k: nat): int { if k < |text| then text[k] else 0 }

  lemma CharReadable(m: Memory, r: int, plain: seq<int>, text: seq<int>, d: set<int>, k: nat)
    requires LiveText(m, r, plain, text, d) && k <= |text|
    ensures m[r + VALUE_V] + k in d && Has(m, m[r + VALUE_V] + k, CharAt(text, k))
  {}

  lemma RecordText(m: Memory, r: int, value: int, plain: seq<int>, text: seq<int>, d: set<int>)
    requires LiveText(m, value, plain, text, d) && Room(m, d, r, VALUE)
    requires forall x | value <= x < value + VALUE :: x in m
    ensures var m' := Copied(m, r, value, VALUE); PlainAt(m', r, VALUE_PLAIN, plain) && Outside(m, m', r, r + VALUE)
  {}

  lemma TextCopied(m: Memory, r: int, value: int, plain: seq<int>, text: seq<int>, d: set<int>)
    requires LiveText(m, value, plain, text, d) && Room(m, d, r, VALUE + |text| + 1)
    requires forall x | value <= x < value + VALUE :: x in m
    ensures var m1, s := Copied(m, r, value, VALUE), m[value + VALUE_V];
      && (forall x | s <= x < s + |text| :: x in m1)
      && var m2 := Copied(m1, r + VALUE, s, |text|)[r + VALUE_V := VALUE - VALUE_V][r + VALUE + |text| := 0];
         PackedText(m2, r, plain, text) && Outside(m, m2, r, r + VALUE + |text| + 1)
  {
    var m1, s := Copied(m, r, value, VALUE), m[value + VALUE_V];
    RecordText(m, r, value, plain, text, d);
    hide LiveText;
    forall x | s <= x < s + |text| ensures x in m1 { CharReadable(m, value, plain, text, d, x - s); }
    var m2 := Copied(m1, r + VALUE, s, |text|)[r + VALUE_V := VALUE - VALUE_V][r + VALUE + |text| := 0];
    forall k | 0 <= k < |text| ensures Has(m2, r + VALUE + k, text[k]) {
      CharReadable(m, value, plain, text, d, k);
    }
  }

  /** The record of a statement of t, copied, and its pointer to what comes next. */
  predicate HeadAt(m: Memory, a: int, tag: int) { Has(m, a, tag) && Has(m, a + STMT_V, STMT - STMT_V) }

  /** The record of a table or of a calculated value, or the ring of records. */
  method CompressRecords(mach: Machine, kind: Kind, p: int, out: int, len: int, ghost t: Stmt, ghost ps: seq<int>,
          ghost d: set<int>, ghost m0: Memory)
    returns (ok: bool, len': int)
    requires t.Records? && t.kind == kind && WellFormed(t) && LiveChain(m0, ps, t, d) && ps[0] == p
    requires Agree(m0, mach.m, d)
    requires out >= 0 && len >= STMT && (out > 0 ==> Room(mach.m, d, out + len, ItemsSize(t, |t.items|)))
    modifies mach
    ensures if out == 0 then mach.m == old(mach.m)
      else Outside(old(mach.m), mach.m, out + len, out + len + ItemsSize(t, |t.items|))
    ensures ok <==> Supported(t)
    ensures ok ==> len' == len + ItemsSize(t, |t.items|)
    ensures ok && out > 0 ==> PackedItems(mach.m, out + len - STMT, t, |t.items|)
    decreases t, 0, 1
  {
    hide LiveRecord, PackedBody, ItemsSize, ItemSize, WellFormedItem, SupportedItem;
    if kind.Ring() {
      ok, len' := CompressRing(mach, kind, p, out, len, t, ps, d, m0);
    } else {
      NoItems(t);
      ItemsStep(t, 0);
      ok, len' := CompressItem(mach, kind, p, out, len, t.items[0], d, m0);
    }
  }

  /** The two kinds of value. */
  method CompressValue(mach: Machine, v: int, out: int, len: int, ghost t: Stmt, ghost d: set<int>, ghost m0: Memory)
    returns (ok: bool, len': int)
    requires t.Text? || (t.Records? && t.kind.CalculatedRecord?)
    requires WellFormed(t) && Agree(m0, mach.m, d)
    requires if t.Text? then LiveText(m0, v, t.plain, t.text, d) else exists ps: seq<int> ::
      |ps| >= 1 && ps[0] == v && LiveChain(m0, ps, t, d)
    requires out >= 0 && len >= STMT && (out > 0 ==> Room(mach.m, d, out + len, Size(t) - STMT))
    modifies mach
    ensures if out == 0 then mach.m == old(mach.m)
      else Outside(old(mach.m), mach.m, out + len, out + len + Size(t) - STMT)
    ensures ok <==> Supported(t)
    ensures ok ==> len' == len + Size(t) - STMT
    ensures ok && out > 0 ==> if t.Text? then PackedText(mach.m, out + len, t.plain, t.text)
      else PackedItems(mach.m, out + len - STMT, t, |t.items|)
    decreases t, 0, 2
  {
    hide ItemsSize, Copied;
    ValueTag(mach.m, m0, v, t, d);
    if mach.m[v] == CALCULATED {
      ghost var ps: seq<int> :| |ps| >= 1 && ps[0] == v && LiveChain(m0, ps, t, d);
      ok, len' := CompressRecords(mach, CalculatedRecord, v, out, len, t, ps, d, m0);
    } else {
      ok := true;
      len' := CompressText(mach, v, out, len, t.plain, t.text, d, m0);
    }
  }

  lemma ValueTag(m: Memory, m0: Memory, v: int, t: Stmt, d: set<int>)
    requires t.Text? || (t.Records? && t.kind.CalculatedRecord?)
    requires WellFormed(t) && Agree(m0, m, d)
    requires if t.Text? then LiveText(m0, v, t.plain, t.text, d) else exists ps: seq<int> ::
      |ps| >= 1 && ps[0] == v && LiveChain(m0, ps, t, d)
    ensures v in m && (m[v] == CALCULATED <==> t.Records?)
  {
    if t.Text? {
      TextReadable(m, m0, v, t.plain, t.text, d);
    } else {
      var ps: seq<int> :| |ps| >= 1 && ps[0] == v && LiveChain(m0, ps, t, d);
      RecordReadable(m, m0, t.kind, ps[0], t.items[0], d);
      assert Has(m0, v + t.kind.Plain()[0], t.items[0].plain[0]);
    }
  }

  lemma HeadReadable(m: Memory, m0: Memory, stmt: int, t: Stmt, d: set<int>)
    requires Live(m0, stmt, t, d) && Agree(m0, m, d) && stmt != 0
    ensures (forall x | stmt <= x < stmt + STMT :: x in m) && stmt in m0 && stmt + STMT_V in m0
    ensures m[stmt] == m0[stmt] && m[stmt + STMT_V] == m0[stmt + STMT_V]
    ensures m[stmt + STMT_V] == 0 <==> t.Hollow?
    ensures t.Foreign? ==> m[stmt] == t.tag
    ensures t.Text? ==> m[stmt] == VALUE_TYPE
    ensures t.Records? ==> m[stmt] == t.kind.Type()
  {
    hide LiveRecord;
    SpanReadable(m, m0, d, stmt, STMT);
    if t.Records? {
      var ps: seq<int> :| |ps| >= 1 && ps[0] == m0[stmt + STMT_V] && LiveChain(m0, ps, t, d);
    }
  }

  lemma PackedOf(m: Memory, a: int, t: Stmt)
    requires t.Text? ==> HeadAt(m, a, VALUE_TYPE) && PackedText(m, a + STMT, t.plain, t.text)
    requires t.Records? ==> HeadAt(m, a, t.kind.Type()) && PackedItems(m, a, t, |t.items|)
    ensures t.Text? || t.Records? ==> Packed(m, a, t)
  {
    hide PackedAt;
  }

  /** compress_statement_helper; `out` is 0 while it only measures. A foreign type ends the program. */
  method CompressHelper(mach: Machine, stmt: int, out: int, len: int, ghost t: Stmt, ghost d: set<int>,
          ghost m0: Memory)
    returns (ok: bool, ret: int, len': int)
    requires WellFormed(t) && Live(m0, stmt, t, d) && Agree(m0, mach.m, d)
    requires out >= 0 && len >= 0 && (out > 0 ==> Room(mach.m, d, out + len, Size(t)))
    modifies mach
    ensures if out == 0 then mach.m == old(mach.m) else Outside(old(mach.m), mach.m, out + len, out + len + Size(t))
    ensures ok <==> Supported(t)
    ensures ok ==> len' == len + Size(t) && (out > 0 ==> Written(mach.m, ret, out + len, t))
    decreases t, 1
  {
    hide Packed, PackedText, PackedItems, LiveChain, LiveText, PlainAt, TextAt, PackedAt, ItemsSize, WellFormedItem,
      SupportedItem, Copied;
    ok, ret, len' := true, 0, len;
    if stmt == 0 { return; }
    HeadReadable(mach.m, m0, stmt, t, d);
    if mach.m[stmt + STMT_V] == 0 { return; }
    var newStmt := out + len;
    len' := len + STMT;
    if out > 0 {
      HeadCopied(mach.m, stmt, newStmt);
      mach.m := Copied(mach.m, newStmt, stmt, STMT)[newStmt + STMT_V := out + len' - (newStmt + STMT_V)];
      ret := newStmt;
      HeadReadable(mach.m, m0, stmt, t, d);
    }
    var v := mach.m[stmt + STMT_V];
    if mach.m[stmt] == VALUE_TYPE {
      ok, len' := CompressValue(mach, v, out, len', t, d, m0);
    } else if mach.m[stmt] in {0, 9, 14} {
      var kind := if mach.m[stmt] == 0 then TableRecord else if mach.m[stmt] == 9 then ColumnRecord else KeywordRecord;
      ghost var ps: seq<int> :| |ps| >= 1 && ps[0] == m0[stmt + STMT_V] && LiveChain(m0, ps, t, d);
      ok, len' := CompressRecords(mach, kind, v, out, len', t, ps, d, m0);
    } else {
      ok := false;
    }
    if ok && out > 0 { PackedOf(mach.m, newStmt, t); }
  }

  /** compress_statement: measures, allocates and writes. All cells from `base` on are free. */
  method CompressStatement(mach: Machine, stmt: int, base: int, ghost t: Stmt, ghost d: set<int>)
    returns (ok: bool, length: int)
    requires WellFormed(t) && Live(mach.m, stmt, t, d) && d <= mach.m.Keys && base > 0
    requires forall x | x >= base :: x !in mach.m
    modifies mach
    ensures ok <==> Supported(t)
    ensures ok ==> length == Size(t) && mach.m.Keys == old(mach.m.Keys) + Region(base, base + length)
    ensures forall x <- old(mach.m.Keys) :: x in mach.m && mach.m[x] == old(mach.m[x])
    ensures ok && !t.Empty? && !t.Hollow? ==> Packed(mach.m, base, t)
  {
    hide Live, Packed, Size, Supported, WellFormed;
    ghost var m0 := mach.m;
    var ret;
    ok, ret, length := CompressHelper(mach, stmt, 0, 0, t, d, m0);
    if !ok { return; }
    mach.m := Allocated(mach.m, base, length);
    ok, ret, length := CompressHelper(mach, stmt, base, 0, t, d, m0);
  }

  function Allocated(m: Memory, base: int, n: int): Memory {
    m + map x: int {:trigger IsCell(x)} | base <= x < base + n && IsCell(x) :: 0
  }
}
