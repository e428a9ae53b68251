/** Intrusive doubly linked rings. */
module Rings {
  class Link<T> {
    var next: Link<T>
    var prev: Link<T>
    const item: T

    /** dqinit. */
    constructor (item: T)
      ensures next == this && prev == this && this.item == item
    {
      this.item := item;
      next := this;
      prev := this;
    }
  }

  function NextIndex(i: nat, n: nat): nat
    requires i < n
  {
    if i + 1 == n then 0 else i + 1
  }

  predicate Distinct<T>(s: seq<Link<T>>) { forall i, j | 0 <= i < j < |s| :: s[i] != s[j] }

  /** The links of s, in this order, and closed. */
  ghost predicate Ring<T>(s: seq<Link<T>>)
    reads s
  {
    && |s| >= 1 && Distinct(s)
    && forall i | 0 <= i < |s| :: s[i].next == s[NextIndex(i, |s|)] && s[NextIndex(i, |s|)].prev == s[i]
  }

  /** dqinsert: the ring of `elem` goes in behind the last link of the ring of `self`. */
  method Insert<T>(self: Link<T>, elem: Link<T>, ghost a: seq<Link<T>>, ghost b: seq<Link<T>>)
    requires Ring(a) && Ring(b) && a[0] == self && b[0] == elem && forall l <- a :: l !in b
    modifies self`prev, self.prev`next, elem`prev, elem.prev`next
    ensures Ring(a + b)
    ensures self.prev == b[|b| - 1] && elem.prev == a[|a| - 1]
  {
    RingEnds(a);
    RingEnds(b);
    EndsApart(a, b);
    var temp := self.prev;
    self.prev.next := elem;
    self.prev := elem.prev;
    elem.prev.next := self;
    elem.prev := temp;
    ghost var s := a + b;
    DistinctJoin(a, b);
    forall i | 0 <= i < |s| ensures s[i].next == s[NextIndex(i, |s|)] && s[NextIndex(i, |s|)].prev == s[i] {
      if i < |a| - 1 {
        assert old(a[i].next == a[NextIndex(i, |a|)] && a[NextIndex(i, |a|)].prev == a[i]);
      } else if |a| <= i < |s| - 1 {
        var j := i - |a|;
        assert old(b[j].next == b[NextIndex(j, |b|)] && b[NextIndex(j, |b|)].prev == b[j]);
      }
    }
  }

  /** The links of two rings, and the first and the last of one ring, are different ones. */
  lemma EndsApart<T>(a: seq<Link<T>>, b: seq<Link<T>>)
    requires Distinct(a) && Distinct(b) && |a| >= 1 && |b| >= 1 && forall l <- a :: l !in b
    ensures forall i | 0 <= i < |a| ::
      a[i] != b[0] && a[i] != b[|b| - 1] && (i > 0 ==> a[i] != a[0]) && (i < |a| - 1 ==> a[i] != a[|a| - 1])
    ensures forall j | 0 <= j < |b| ::
      b[j] != a[0] && b[j] != a[|a| - 1] && (j > 0 ==> b[j] != b[0]) && (j < |b| - 1 ==> b[j] != b[|b| - 1])
  {
    forall i | 0 <= i < |a| ensures a[i] != b[0] && a[i] != b[|b| - 1] { assert a[i] in a; }
    forall j | 0 <= j < |b| ensures b[j] != a[0] && b[j] != a[|a| - 1] {
      assert b[j] in b && a[0] in a && a[|a| - 1] in a;
    }
  }

  lemma RingEnds<T>(s: seq<Link<T>>)
    requires Ring(s)
    ensures s[0].prev == s[|s| - 1] && s[|s| - 1].next == s[0]
  {
    assert NextIndex(|s| - 1, |s|) == 0;
  }

  lemma DistinctJoin<T>(a: seq<Link<T>>, b: seq<Link<T>>)
    requires Distinct(a) && Distinct(b) && forall l <- a :: l !in b
    ensures Distinct(a + b)
  {
    forall i, j | 0 <= i < j < |a + b| ensures (a + b)[i] != (a + b)[j] {
      if i < |a| <= j { assert a[i] in a && b[j - |a|] in b; }
    }
  }
}
