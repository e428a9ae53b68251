/** octo_cmalloc: memory handed out from a ring of zeroed chunks and freed all at once. */
module Arena {
  import opened Rings

  class Chunk {
    const value: array<int>
    var offset: nat

    /** alloc_chunk, for a chunk of at least `size` cells. */
    constructor (size: nat, chunkSize: nat)
      ensures offset == 0 && fresh(value) && value.Length == (if size > chunkSize then size else chunkSize)
      ensures forall k | 0 <= k < value.Length :: value[k] == 0
    {
      value := new int[if size > chunkSize then size else chunkSize](_ => 0);
      offset := 0;
    }

    /** The cells that have not been handed out are zero. */
    ghost predicate Valid()
      reads this, value
    {
      offset <= value.Length && forall k | offset <= k < value.Length :: value[k] == 0
    }
  }

  type MemoryChunk = Link<Chunk>

  /** What a call returns: `size` cells of a chunk, from `start` on. */
  datatype Region = Region(chunk: Chunk, start: nat, size: nat)

  predicate Disjoint(x: Region, y: Region) {
    x.chunk.value != y.chunk.value || x.start + x.size <= y.start || y.start + y.size <= x.start
  }

  ghost predicate AllApart(rs: seq<Region>) { forall i, j | 0 <= i < j < |rs| :: Disjoint(rs[i], rs[j]) }

  /** No two links share a chunk or its cells. */
  ghost predicate Own(s: seq<MemoryChunk>) {
    forall i, j | 0 <= i < j < |s| :: s[i].item != s[j].item && s[i].item.value != s[j].item.value
  }

  ghost function CellsOf(s: seq<MemoryChunk>): set<object> {
    (set l: MemoryChunk | l in s :: l as object) + (set l: MemoryChunk | l in s :: l.item as object)
    + (set l: MemoryChunk | l in s :: l.item.value as object)
  }

  lemma CellsMore(s: seq<MemoryChunk>, l: MemoryChunk)
    ensures CellsOf(s + [l]) == CellsOf(s) + {l, l.item, l.item.value}
  {
    assert forall k <- s + [l] :: k in s || k == l;
    assert forall k <- s :: k in s + [l];
    assert l in s + [l];
  }

  lemma SingleRing(l: MemoryChunk)
    requires l.next == l == l.prev
    ensures Ring([l])
  {}

  lemma RingParts(s: seq<MemoryChunk>)
    requires Ring(s)
    ensures |s| >= 1
  {}

  lemma OwnMore(s: seq<MemoryChunk>, l: MemoryChunk)
    requires Own(s) && forall k <- s :: k.item != l.item && k.item.value != l.item.value
    ensures Own(s + [l])
  {
    forall i, j | 0 <= i < j < |s + [l]|
      ensures (s + [l])[i].item != (s + [l])[j].item && (s + [l])[i].item.value != (s + [l])[j].item.value
    {
      assert (s + [l])[i] == s[i] && s[i] in s;
    }
  }

  class Memory {
    const root: MemoryChunk
    const chunkSize: nat
    /** The chunks in ring order and all regions handed out so far. */
    ghost var chunks: seq<MemoryChunk>
    ghost var granted: seq<Region>

    ghost function Cells(): set<object>
      reads this
    {
      CellsOf(chunks)
    }

    ghost predicate Valid()
      reads this, chunks, Cells()
    {
      && Ring(chunks) && chunks[0] == root && (forall l <- chunks :: l.item.Valid()) && Own(chunks)
      && (forall r <- granted :: Holds(r)) && AllApart(granted)
    }

    /** A region lies inside the part of its chunk that has been handed out. */
    ghost predicate Holds(r: Region)
      reads this, Cells()
    {
      exists l <- chunks :: l.item == r.chunk && r.start + r.size <= r.chunk.offset
    }

    constructor (size: nat, chunkSize: nat)
      ensures Valid() && granted == [] && this.chunkSize == chunkSize && fresh(Cells())
    {
      var chunk := new Chunk(size, chunkSize);
      var link := new Link<Chunk>(chunk);
      root := link;
      this.chunkSize := chunkSize;
      chunks := [link];
      granted := [];
    }

    /** A new chunk behind the last one. */
    method AddChunk(size: nat)
      requires Valid()
      modifies `chunks, root`prev, root.prev`next
      ensures Valid() && granted == old(granted) && |chunks| == |old(chunks)| + 1
      ensures chunks[..|old(chunks)|] == old(chunks)
      ensures var c := chunks[|chunks| - 1];
        && fresh(c) && fresh(c.item) && fresh(c.item.value) && c.item.offset == 0
        && c.item.value.Length == if size > chunkSize then size else chunkSize
      ensures var c := chunks[|chunks| - 1]; Cells() == old(Cells()) + {c, c.item, c.item.value}
    {
      hide Ring, Own, CellsOf, AllApart;
      RingEnds(chunks);
      RingParts(chunks);
      var chunk := new Chunk(size, chunkSize);
      var link := new Link<Chunk>(chunk);
      SingleRing(link);
      Insert(root, link, chunks, [link]);
      OwnMore(chunks, link);
      CellsMore(chunks, link);
      chunks := chunks + [link];
      assert forall l <- chunks :: l in old(chunks) || l == link;
      forall r <- granted ensures Holds(r) {
        var l :| l in old(chunks) && l.item == r.chunk;
        assert l in chunks;
      }
    }

    /** octo_cmalloc: cells of one chunk that no earlier call has handed out, and that are still zero. */
    method Cmalloc(size: nat) returns (r: Region)
      requires Valid()
      modifies this, Cells()
      ensures Valid() && granted == old(granted) + [r] && r.size == size && r.start + size <= r.chunk.value.Length
      ensures forall g <- old(granted) :: Disjoint(g, r)
      ensures forall k | r.start <= k < r.start + size :: r.chunk.value[k] == 0
      ensures var fits := old(root.prev.item.offset) + size <= old(root.prev.item.value.Length);
        && old(chunks) <= chunks && |chunks| == |old(chunks)| + (if fits then 0 else 1)
        && r.chunk == chunks[|chunks| - 1].item && r.start == (if fits then old(root.prev.item.offset) else 0)
        && (!fits ==> r.chunk.value.Length == if size > chunkSize then size else chunkSize)
      ensures r.chunk.offset == r.start + size
      ensures forall c <- Cells() :: c in old(Cells()) || fresh(c)
      ensures forall l <- old(chunks) :: unchanged(l.item.value)
    {
      hide Ring, Own, AllApart;
      RingEnds(chunks);
      RingParts(chunks);
      assert chunks[0] in chunks && chunks[|chunks| - 1] in chunks;
      if root.prev.item.offset + size > root.prev.item.value.Length {
        AddChunk(size);
        RingEnds(chunks);
        RingParts(chunks);
      }
      ghost var cells := Cells();
      r := Take(root.prev, size);
      assert Cells() == cells;
    }

    method Take(cur: MemoryChunk, size: nat) returns (r: Region)
      requires Valid() && cur == chunks[|chunks| - 1] && cur.item.offset + size <= cur.item.value.Length
      modifies `granted, cur.item`offset
      ensures Valid() && granted == old(granted) + [r] && r.size == size && r.start + size <= r.chunk.value.Length
      ensures r.chunk == cur.item && r.start == old(cur.item.offset) && cur.item.offset == r.start + size
      ensures forall g <- old(granted) :: Disjoint(g, r)
      ensures forall k | r.start <= k < r.start + size :: r.chunk.value[k] == 0
    {
      r := Region(cur.item, cur.item.offset, size);
      assert cur in chunks;
      forall g <- granted ensures Disjoint(g, r) {
        var l :| l in chunks && l.item == g.chunk;
      }
      cur.item.offset := cur.item.offset + size;
      granted := granted + [r];
      forall g <- granted ensures Holds(g) {
        if g in old(granted) {
          assert old(Holds(g));
          var l :| l in chunks && l.item == g.chunk;
        } else {
          assert cur.item == r.chunk;
        }
      }
    }

    /** Any run of calls: regions of the sizes asked for, none of which overlap. */
    method CmallocAll(sizes: seq<nat>) returns (rs: seq<Region>)
      requires Valid()
      modifies this, Cells()
      ensures Valid() && granted == old(granted) + rs && AllApart(rs)
      ensures |rs| == |sizes|
      ensures forall i | 0 <= i < |sizes| ::
        rs[i].size == sizes[i] && rs[i].start + sizes[i] <= rs[i].chunk.value.Length
    {
      hide Valid, Cells;
      rs := [];
      while |rs| < |sizes|
        invariant Valid() && granted == old(granted) + rs && |rs| <= |sizes|
        invariant forall i | 0 <= i < |rs| ::
          rs[i].size == sizes[i] && rs[i].start + sizes[i] <= rs[i].chunk.value.Length
        invariant forall c <- Cells() :: c in old(Cells()) || fresh(c)
        decreases |sizes| - |rs|
      {
        var r := Cmalloc(sizes[|rs|]);
        rs := rs + [r];
      }
      GrantedApart();
      forall i, j | 0 <= i < j < |rs| ensures Disjoint(rs[i], rs[j]) {
        var n := |old(granted)|;
        assert granted[n + i] == rs[i] && granted[n + j] == rs[j];
      }
    }

    lemma GrantedApart()
      requires Valid()
      ensures AllApart(granted)
    {}

    /** The user of a region writes to it. The cells not handed out yet stay zero. */
    method Write(r: Region, k: nat, v: int)
      requires Valid() && r in granted && r.start <= k < r.start + r.size && k < r.chunk.value.Length
      modifies r.chunk.value
      ensures Valid() && r.chunk.value[k] == v
      ensures forall g <- granted | g != r && Disjoint(g, r) ::
        forall i | g.start <= i < g.start + g.size && i < g.chunk.value.Length ::
        g.chunk.value[i] == old(g.chunk.value[i])
    {
      hide Ring, AllApart;
      ghost var l :| l in chunks && l.item == r.chunk && r.start + r.size <= r.chunk.offset;
      r.chunk.value[k] := v;
      forall c <- chunks ensures c.item.Valid() {
        assert old(c.item.Valid());
      }
    }

    /** octo_cfree: frees the chunks in ring order. No freed chunk is looked at again. */
    method Cfree() returns (freed: seq<MemoryChunk>)
      requires Valid()
      ensures freed == chunks && Distinct(freed)
    {
      hide Own, AllApart, Chunk.Valid;
      freed := [];
      var cur := root;
      while true
        invariant |freed| < |chunks| && freed == chunks[..|freed|] && cur == chunks[|freed|]
        decreases |chunks| - |freed|
      {
        assert cur !in freed;
        assert chunks[|freed|].next == chunks[NextIndex(|freed|, |chunks|)];
        var next := cur.next;
        if next == root { break; }
        freed := freed + [cur];
        cur := next;
      }
      assert cur !in freed;
      freed := freed + [cur];
    }
  }
}
