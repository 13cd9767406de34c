/**
 The kernel's circular doubly linked list (list.c): an end marker that is itself a
 ring member, a walking index pointer, and items that know their container.
 */
module KernelList {
  import opened TickTime

  // ---------- Specification: where a sorted insert lands ----------

  /** How many items the scan of vListInsert steps over: the leading run of values not above `v`. */
  function InsertPos(vs: seq<Tick>, v: Tick): (p: nat)
    ensures p <= |vs|
    ensures forall i :: 0 <= i < p ==> vs[i] <= v
    ensures p < |vs| ==> v < vs[p]
  {
    if vs == [] || v < vs[0] then 0 else 1 + InsertPos(vs[1..], v)
  }

  ghost predicate Sorted(vs: seq<Tick>) {
    forall i, j :: 0 <= i <= j < |vs| ==> vs[i] <= vs[j]
  }

  /** Sorted order survives, and the new value goes behind every equal one already listed. */
  lemma InsertPosSortedStable(vs: seq<Tick>, v: Tick)
    requires Sorted(vs)
    ensures var p := InsertPos(vs, v);
            && Sorted(vs[..p] + [v] + vs[p..])
            && (forall i :: 0 <= i < |vs| ==> (vs[i] <= v <==> i < p))
  {
  }

  /** The scan index is the only place that splits the list this way. */
  lemma InsertPosUnique(vs: seq<Tick>, v: Tick, p: nat)
    requires p <= |vs|
    requires forall i :: 0 <= i < p ==> vs[i] <= v
    requires p < |vs| ==> v < vs[p]
    ensures p == InsertPos(vs, v)
  {
  }

  // ---------- Specification: the ring ----------

  ghost predicate Distinct<T>(s: seq<T>) {
    forall i, j :: 0 <= i < j < |s| ==> s[i] != s[j]
  }

  ghost function Rotate<T>(s: seq<T>, k: nat): seq<T> {
    if k <= |s| then s[k..] + s[..k] else s
  }

  ghost function Succ<T>(r: seq<T>, i: nat): T
    requires i < |r|
  {
    if i == |r| - 1 then r[0] else r[i + 1]
  }

  ghost function Pred<T>(r: seq<T>, i: nat): T
    requires i < |r|
  {
    if i == 0 then r[|r| - 1] else r[i - 1]
  }

  /** A sequence without its first and last element. */
  ghost function Middle<T>(s: seq<T>): seq<T>
  {
    if |s| < 2 then [] else s[1..|s| - 1]
  }

  ghost function Splice<T>(r: seq<T>, p: nat, x: T): seq<T>
    requires p < |r|
  {
    r[..p + 1] + [x] + r[p + 1..]
  }

  ghost function Unsplice<T>(r: seq<T>, k: nat): seq<T>
    requires k < |r|
  {
    r[..k] + r[k + 1..]
  }

  lemma SpliceDistinct<T>(r: seq<T>, p: nat, x: T)
    requires Distinct(r) && p < |r| && x !in r
    ensures Distinct(Splice(r, p, x))
  {
  }

  /** Where the old members are after an insertion. */
  lemma SpliceKeeps<T>(r: seq<T>, p: nat, x: T, i: nat)
    requires p < |r| && i < |r|
    ensures |Splice(r, p, x)| == |r| + 1
    ensures Splice(r, p, x)[0] == r[0] && Splice(r, p, x)[if i > p then i + 1 else i] == r[i]
  {
  }

  lemma UnspliceDistinct<T>(r: seq<T>, k: nat)
    requires Distinct(r) && k < |r|
    ensures Distinct(Unsplice(r, k))
  {
  }

  /** Where the remaining members are after a removal. */
  lemma UnspliceKeeps<T>(r: seq<T>, k: nat)
    requires k < |r|
    ensures |Unsplice(r, k)| == |r| - 1
    ensures forall i :: 0 <= i < |r| && i != k ==> Unsplice(r, k)[if i > k then i - 1 else i] == r[i]
  {
  }

  /** Inserting just before position k puts the new element at the end of the walk from k. */
  lemma RotateSplice<T>(r: seq<T>, k: nat, x: T)
    requires k < |r|
    ensures k == 0 ==> Rotate(Splice(r, |r| - 1, x), 0) == Rotate(r, 0) + [x]
    ensures k > 0 ==> Rotate(Splice(r, k - 1, x), k + 1) == Rotate(r, k) + [x]
  {
    if k > 0 {
      var s := Splice(r, k - 1, x);
      assert s[k + 1..] == r[k..] && s[..k + 1] == r[..k] + [x];
    }
  }

  lemma RotateAt<T>(r: seq<T>, at: nat, i: nat)
    requires at < |r| && i < |r|
    ensures |Rotate(r, at)| == |r|
    ensures Rotate(r, at)[i] == r[if at + i < |r| then at + i else at + i - |r|]
  {
  }

  /** Removing an item leaves the walk from an index elsewhere as it was, minus the item. */
  lemma WalkAfterRemove<T>(r: seq<T>, k: nat, at: nat)
    requires k < |r| && at < |r| && k != at
    ensures Rotate(Unsplice(r, k), if at < k then at else at - 1)
            == Unsplice(Rotate(r, at), if at < k then k - at else |r| - at + k)
  {
    var s, at' := Unsplice(r, k), if at < k then at else at - 1;
    var walk, gap := Rotate(r, at), if at < k then k - at else |r| - at + k;
    forall i: nat | i < |s| ensures Rotate(s, at')[i] == Unsplice(walk, gap)[i] {
      RotateAt(s, at', i);
      RotateAt(r, at, if i < gap then i else i + 1);
    }
  }

  /** When the walk stands on the removed item it restarts one step back. */
  lemma WalkAfterRemovingIndex<T>(r: seq<T>, k: nat)
    requires 0 < k < |r|
    ensures Rotate(Unsplice(r, k), k - 1) == [r[k - 1]] + Middle(Rotate(r, k))
  {
    var s, walk := Unsplice(r, k), Rotate(r, k);
    var got, want := Rotate(s, k - 1), [r[k - 1]] + Middle(walk);
    forall i: nat | i < |s| ensures got[i] == want[i] {
      RotateAt(s, k - 1, i);
      RotateAt(r, k, i);
    }
  }

  /** next and prev are mutually inverse all the way round. */
  ghost predicate Linked(r: seq<ListItem>)
    reads r
  {
    && (forall i {:trigger r[i].next} :: 0 <= i < |r| ==> r[i].next == Succ(r, i))
    && (forall i {:trigger r[i].prev} :: 0 <= i < |r| ==> r[i].prev == Pred(r, i))
  }

  /** `vs` lists the values of the items behind the end marker. */
  ghost predicate Keyed(r: seq<ListItem>, vs: seq<Tick>)
    reads r
  {
    |r| == |vs| + 1 && forall i {:trigger vs[i]} :: 0 <= i < |vs| ==> r[i + 1].value == vs[i]
  }

  lemma KeyedSplice(r: seq<ListItem>, vs: seq<Tick>, k: nat, x: ListItem)
    requires Keyed(r, vs) && k < |r|
    ensures Keyed(Splice(r, k, x), vs[..k] + [x.value] + vs[k..])
  {
    var s := Splice(r, k, x);
    var us := vs[..k] + [x.value] + vs[k..];
    forall i | 0 <= i < |us| ensures s[i + 1].value == us[i] {
      if i > k {
        assert us[i] == vs[i - 1];
      }
    }
  }

  lemma SpliceItems<T>(r: seq<T>, k: nat, x: T)
    requires k < |r|
    ensures Splice(r, k, x)[1..] == r[1..][..k] + [x] + r[1..][k..]
  {
  }

  lemma KeyedUnsplice(r: seq<ListItem>, vs: seq<Tick>, k: nat)
    requires Keyed(r, vs) && 0 < k < |r|
    ensures Keyed(Unsplice(r, k), vs[..k - 1] + vs[k..])
  {
    var s := Unsplice(r, k);
    var us := vs[..k - 1] + vs[k..];
    forall i | 0 <= i < |us| ensures s[i + 1].value == us[i] {
      if i >= k - 1 {
        assert us[i] == vs[i + 1];
      }
    }
  }

  ghost predicate ContainedFrom(r: seq<ListItem>, from: nat, l: List)
    reads r
  {
    forall i {:trigger r[i].container} :: from <= i < |r| ==> r[i].container == l
  }

  /** The four pointer writes of an insertion behind r[p] close the ring around the new item. */
  lemma Spliced(r: seq<ListItem>, p: nat, x: ListItem)
    requires Distinct(r) && p < |r| && x !in r
    requires r[p].next == x && x.next == Succ(r, p)
    requires Succ(r, p).prev == x && x.prev == r[p]
    requires forall i {:trigger r[i].next} :: 0 <= i < |r| && i != p ==> r[i].next == Succ(r, i)
    requires forall i {:trigger r[i].prev} :: 0 <= i < |r| && r[i] != Succ(r, p) ==> r[i].prev == Pred(r, i)
    ensures Linked(Splice(r, p, x))
  {
    var s := Splice(r, p, x);
    forall i | 0 <= i < |s|
      ensures s[i].next == Succ(s, i) && s[i].prev == Pred(s, i)
    {
      if i != p + 1 {
        var j := if i < p + 1 then i else i - 1;
        assert s[i] == r[j];
        assert r[j].next == if j == p then x else Succ(r, j);
        assert r[j].prev == if r[j] == Succ(r, p) then x else Pred(r, j);
      }
    }
  }

  /** The two pointer writes of a removal close the ring again over the gap. */
  lemma Unspliced(r: seq<ListItem>, k: nat)
    requires Distinct(r) && 0 < k < |r|
    requires r[k - 1].next == Succ(r, k) && Succ(r, k).prev == r[k - 1]
    requires forall i {:trigger r[i].next} :: 0 <= i < |r| && i != k - 1 ==> r[i].next == Succ(r, i)
    requires forall i {:trigger r[i].prev} :: 0 <= i < |r| && r[i] != Succ(r, k) ==> r[i].prev == Pred(r, i)
    ensures Linked(Unsplice(r, k))
  {
    var s := Unsplice(r, k);
    forall i | 0 <= i < |s|
      ensures s[i].next == Succ(s, i) && s[i].prev == Pred(s, i)
    {
      var j := if i < k then i else i + 1;
      assert s[i] == r[j];
      assert r[j].next == if j == k - 1 then Succ(r, k) else Succ(r, j);
      assert r[j].prev == if r[j] == Succ(r, k) then r[k - 1] else Pred(r, j);
    }
  }

  lemma ContainedSplice(r: seq<ListItem>, p: nat, x: ListItem, l: List)
    requires p < |r| && x.container == l && ContainedFrom(r, 1, l)
    ensures ContainedFrom(Splice(r, p, x), 1, l)
  {
    var s := Splice(r, p, x);
    forall i | 0 < i < |s| ensures s[i].container == l {
      assert s[i] == if i <= p then r[i] else if i == p + 1 then x else r[i - 1];
    }
  }

  lemma ContainedUnsplice(r: seq<ListItem>, k: nat, l: List)
    requires 0 < k < |r|
    requires forall i {:trigger r[i].container} :: 0 < i < |r| && i != k ==> r[i].container == l
    ensures ContainedFrom(Unsplice(r, k), 1, l)
  {
    var s := Unsplice(r, k);
    forall i | 0 < i < |s| ensures s[i].container == l {
      assert s[i] == r[if i < k then i else i + 1];
    }
  }

  /** A well-formed ring: the marker first, then the items of list `l`, with values `vs`. */
  ghost predicate Ring(r: seq<ListItem>, vs: seq<Tick>, l: List)
    reads r
  {
    && Keyed(r, vs) && r[0].value == MAX_DELAY
    && Distinct(r) && Linked(r) && ContainedFrom(r, 1, l)
  }

  lemma RingDistinct(r: seq<ListItem>, vs: seq<Tick>, l: List)
    requires Ring(r, vs, l)
    ensures Distinct(r)
  {
  }

  lemma RingNext(r: seq<ListItem>, vs: seq<Tick>, l: List, i: nat)
    requires Ring(r, vs, l) && i < |r|
    ensures |r| == |vs| + 1 && r[i].next == Succ(r, i)
  {
  }

  lemma RingPrev(r: seq<ListItem>, vs: seq<Tick>, l: List, i: nat)
    requires Ring(r, vs, l) && i < |r|
    ensures |r| == |vs| + 1 && r[i].prev == Pred(r, i)
  {
  }

  /** The pointer writes of an insertion between `before` and `after`. */
  method Link(x: ListItem, before: ListItem, after: ListItem, l: List,
              ghost r: seq<ListItem>, ghost vs: seq<Tick>, ghost p: nat)
    requires Ring(r, vs, l) && x !in r
    requires p < |r| && before == r[p] && after == Succ(r, p)
    modifies r`next, r`prev, x`next, x`prev, x`container
    ensures Ring(Splice(r, p, x), vs[..p] + [x.value] + vs[p..], l)
  {
    x.next := after;
    x.prev := before;
    before.next := x;
    after.prev := x;
    x.container := l;
    Spliced(r, p, x);
    SpliceDistinct(r, p, x);
    ContainedSplice(r, p, x, l);
    KeyedSplice(r, vs, p, x);
  }

  /** The pointer writes of a removal. */
  method Unlink(x: ListItem, ghost l: List, ghost r: seq<ListItem>, ghost vs: seq<Tick>, ghost k: nat)
    requires Ring(r, vs, l) && 0 < k < |r| && r[k] == x
    modifies r`next, r`prev, x`container
    ensures Ring(Unsplice(r, k), vs[..k - 1] + vs[k..], l)
    ensures x.prev == old(x.prev) == r[k - 1] && x.container == null
  {
    assert x.next == Succ(r, k) && x.prev == r[k - 1];
    var next, prev := x.next, x.prev;
    next.prev := prev;
    prev.next := next;
    x.container := null;
    Unspliced(r, k);
    UnspliceDistinct(r, k);
    ContainedUnsplice(r, k, l);
    KeyedUnsplice(r, vs, k);
  }

  class ListItem {
    var value: Tick
    var next: ListItem?
    var prev: ListItem?
    var container: List?

    /** vListInitialiseItem. */
    constructor (v: Tick)
      ensures container == null && value == v
    {
      value := v;
      next, prev, container := null, null, null;
    }
  }

  class List {
    var index: ListItem
    const end: ListItem
    var count: nat
    ghost var ring: seq<ListItem>  // the end marker first, then the items in order
    ghost var keys: seq<Tick>      // the values of the items, in order
    ghost var at: nat              // where the index pointer stands in the ring

    ghost predicate Valid()
      reads this, ring
    {
      && Ring(ring, keys, this) && ring[0] == end
      && count == |ring| - 1
      && at < |ring| && index == ring[at]
    }

    /** The items from the head of the list to its tail. */
    ghost function Items(): seq<ListItem>
      reads this
      requires |ring| > 0
    {
      ring[1..]
    }

    /** The ring as listGET_OWNER_OF_NEXT_ENTRY walks it, starting from the index pointer. */
    ghost function FromIndex(): seq<ListItem>
      reads this
    {
      Rotate(ring, at)
    }

    /** vListInitialise. */
    constructor ()
      ensures Valid() && Items() == [] && fresh(ring) && index == end
    {
      var e := new ListItem(MAX_DELAY);
      e.next, e.prev := e, e;
      end, index := e, e;
      count := 0;
      ring, keys, at := [e], [], 0;
    }

    /** vListInsertEnd: the new item becomes the last one a walk from the index reaches. */
    method InsertEnd(x: ListItem)
      requires Valid() && x !in ring && x.container == null
      modifies this`count, this`ring, this`keys, this`at, ring`next, ring`prev, x`next, x`prev, x`container
      ensures Valid()
      ensures FromIndex() == old(FromIndex()) + [x]
    {
      hide Ring, Splice, Rotate;
      ghost var k, r := at, ring;
      ghost var p := if k == 0 then |r| - 1 else k - 1;
      RingPrev(r, keys, this, k);
      SpliceKeeps(r, p, x, k);
      Link(x, index.prev, index, this, r, keys, p);
      count := count + 1;
      RotateSplice(r, k, x);
      ring, keys := Splice(r, p, x), keys[..p] + [x.value] + keys[p..];
      if k > 0 {
        at := k + 1;
      }
    }

    /**
     The scan of vListInsert: where to link an item of value `v`.  Every scanned `next` is
     below the end marker's maximal value, so the scan stops at the marker at the latest.
     */
    method Scan(v: Tick) returns (it: ListItem, ghost k: nat)
      requires Valid() && Sorted(keys)
      ensures InsertPos(keys, v) < |ring| && it == ring[InsertPos(keys, v)]
      ensures k == InsertPos(keys, v)
    {
      k := 0;
      if v == MAX_DELAY {
        it := end.prev;
        k := |ring| - 1;
      } else {
        it := end;
        while it.next.value <= v
          invariant 0 <= k < |ring| && it == ring[k]
          invariant forall i :: 0 <= i < k ==> keys[i] <= v
          decreases |ring| - k
        {
          assert it.next == Succ(ring, k);
          it := it.next;
          k := k + 1;
        }
        assert it.next == Succ(ring, k);
      }
      InsertPosUnique(keys, v, k);
    }

    /** vListInsert: sorted by value, behind its equals. */
    method Insert(x: ListItem)
      requires Valid() && x !in ring && x.container == null
      requires Sorted(keys)
      modifies this`count, this`ring, this`keys, this`at, ring`next, ring`prev, x`next, x`prev, x`container
      ensures Valid()
      ensures var p := InsertPos(old(keys), x.value);
              Items() == old(Items())[..p] + [x] + old(Items())[p..]
      ensures Sorted(keys)
    {
      hide Ring, Splice, Sorted, InsertPos;
      ghost var vs, r := keys, ring;
      var it, k := Scan(x.value);
      ghost var vs' := vs[..k] + [x.value] + vs[k..];
      assert Sorted(vs') by {
        InsertPosSortedStable(vs, x.value);
      }
      RingNext(r, vs, this, k);
      SpliceKeeps(r, k, x, at);
      Link(x, it, it.next, this, r, vs, k);
      count := count + 1;
      SpliceItems(r, k, x);
      ring, keys := Splice(r, k, x), vs';
      at := if at > k then at + 1 else at;
    }

    /**
     uxListRemove, called on the list the item's container field names.  The walk from
     the index pointer visits the remaining items in the same order; an index that stood
     on the removed item steps back so that the next walk continues behind the gap.
     */
    method Remove(x: ListItem, ghost k: nat) returns (remaining: nat)
      requires Valid() && 0 < k < |ring| && ring[k] == x
      modifies this`index, this`count, this`ring, this`keys, this`at, ring`next, ring`prev, x`container
      ensures Valid() && x.container == null && remaining == count == old(count) - 1
      ensures ring == Unsplice(old(ring), k)
      ensures old(at) == k ==> at == k - 1
      ensures old(at) != k ==> index == old(index) && at == if old(at) < k then old(at) else old(at) - 1
      ensures old(at) != k ==>
                FromIndex() == Unsplice(old(FromIndex()),
                                        if old(at) < k then k - old(at) else |old(ring)| - old(at) + k)
      ensures old(at) == k ==> FromIndex() == [old(ring)[k - 1]] + Middle(old(FromIndex()))
    {
      hide Ring, Unsplice, Rotate, Middle;
      ghost var r := ring;
      RingPrev(r, keys, this, k);
      UnspliceKeeps(r, k);
      if at == k {
        WalkAfterRemovingIndex(r, k);
      } else {
        WalkAfterRemove(r, k, at);
      }
      RingDistinct(r, keys, this);
      Unlink(x, this, r, keys, k);
      if index == x {
        index := x.prev;
      }
      count := count - 1;
      at := if at >= k then at - 1 else at;
      ring, keys := Unsplice(r, k), keys[..k - 1] + keys[k..];
      remaining := count;
    }
  }
}
