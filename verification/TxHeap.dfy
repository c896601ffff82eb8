/**
 The indexed heap of mempool/tx_heap.go, driven by the sift loops of Go's
 container/heap over its Less, Swap, Push and Pop.
 */
module TxHeaps {
  import opened ChainTypes

  /** A pool entry.  Only its position changes after it has been created. */
  class TxEntry {
    const tx: Transaction
    const id: TxId := tx.ID()
    const price: nat := tx.price
    var index: nat

    constructor (tx: Transaction, index: nat)
      ensures this.tx == tx && this.index == index
    {
      this.tx, this.index := tx, index;
    }
  }

  // Less compares keys; the max heap is a min heap of negated prices.
  function Key(isMinHeap: bool, e: TxEntry): int {
    if isMinHeap then e.price as int else -(e.price as int)
  }

  // Go truncates, so the parent of the root is the root.
  function Parent(k: nat): nat {
    if k == 0 then 0 else (k - 1) / 2
  }

  function Swapped(items: seq<TxEntry>, i: nat, j: nat): seq<TxEntry>
    requires i < |items| && j < |items|
  {
    items[i := items[j]][j := items[i]]
  }

  /** Entry k does not come before its parent. */
  predicate PairOk(isMinHeap: bool, items: seq<TxEntry>, k: nat)
    requires k < |items|
  {
    Key(isMinHeap, items[Parent(k)]) <= Key(isMinHeap, items[k])
  }

  /** The first n entries are in heap order. */
  ghost predicate Ordered(isMinHeap: bool, items: seq<TxEntry>, n: nat)
    requires n <= |items|
  {
    forall k {:trigger PairOk(isMinHeap, items, k)} :: 0 < k < n ==> PairOk(isMinHeap, items, k)
  }

  /** Within the first n entries only the pair above hole may be wrong, and the children
      of hole do not come before its parent. */
  ghost predicate OrderedBelow(isMinHeap: bool, items: seq<TxEntry>, n: nat, hole: nat)
    requires n <= |items|
  {
    && (forall k {:trigger PairOk(isMinHeap, items, k)} :: 0 < k < n && k != hole ==> PairOk(isMinHeap, items, k))
    && GrandparentOk(isMinHeap, items, n, hole)
  }

  /** Within the first n entries only the pairs below hole, and the pair above top, may
      be wrong, and the children of hole do not come before its parent. */
  ghost predicate OrderedAbove(isMinHeap: bool, items: seq<TxEntry>, n: nat, hole: nat, top: nat)
    requires n <= |items|
  {
    && (forall k {:trigger PairOk(isMinHeap, items, k)} ::
          0 < k < n && Parent(k) != hole && (k != top || hole != top) ==> PairOk(isMinHeap, items, k))
    && GrandparentOk(isMinHeap, items, n, hole)
  }

  ghost predicate GrandparentOk(isMinHeap: bool, items: seq<TxEntry>, n: nat, hole: nat)
    requires n <= |items|
  {
    forall c {:trigger SkipOk(isMinHeap, items, hole, c)} :: 0 < c < n ==> SkipOk(isMinHeap, items, hole, c)
  }

  /** If c is a child of hole, it does not come before the parent of hole. */
  ghost predicate SkipOk(isMinHeap: bool, items: seq<TxEntry>, hole: nat, c: nat)
    requires 0 < c < |items|
  {
    Parent(c) == hole && hole > 0 ==> Key(isMinHeap, items[Parent(hole)]) <= Key(isMinHeap, items[c])
  }

  /** j is a child of i that no child of i comes before. */
  ghost predicate IsFirstChild(isMinHeap: bool, items: seq<TxEntry>, n: nat, i: nat, j: nat)
    requires j < n <= |items|
  {
    && (j == 2 * i + 1 || j == 2 * i + 2)
    && Key(isMinHeap, items[j]) <= Key(isMinHeap, items[2 * i + 1])
    && (2 * i + 2 < n ==> Key(isMinHeap, items[j]) <= Key(isMinHeap, items[2 * i + 2]))
  }

  lemma SwapUp(isMinHeap: bool, items: seq<TxEntry>, n: nat, j: nat)
    requires j < n <= |items| && OrderedBelow(isMinHeap, items, n, j)
    requires Key(isMinHeap, items[j]) < Key(isMinHeap, items[Parent(j)])
    ensures OrderedBelow(isMinHeap, Swapped(items, Parent(j), j), n, Parent(j))
  {
    var p, after := Parent(j), Swapped(items, Parent(j), j);
    forall k | 0 < k < n && k != p ensures PairOk(isMinHeap, after, k) {
      assert k != j ==> PairOk(isMinHeap, items, k);
      assert SkipOk(isMinHeap, items, j, k);
    }
    forall c | 0 < c < n ensures SkipOk(isMinHeap, after, p, c) {
      if Parent(c) == p && p > 0 {
        assert PairOk(isMinHeap, items, p);
        assert c != j ==> PairOk(isMinHeap, items, c);
      }
    }
  }

  lemma SwapDown(isMinHeap: bool, items: seq<TxEntry>, n: nat, i: nat, top: nat, j: nat)
    requires j < n <= |items| && IsFirstChild(isMinHeap, items, n, i, j)
    requires i < n <= |items| && top <= i && OrderedAbove(isMinHeap, items, n, i, top)
    requires Key(isMinHeap, items[j]) < Key(isMinHeap, items[i])
    ensures OrderedAbove(isMinHeap, Swapped(items, i, j), n, j, top)
  {
    var after := Swapped(items, i, j);
    forall k | 0 < k < n && Parent(k) != j ensures PairOk(isMinHeap, after, k) {
      if Parent(k) != i && k != i {
        assert PairOk(isMinHeap, items, k);
      }
      if k == i {
        assert Parent(j) == i && SkipOk(isMinHeap, items, i, j);
      }
    }
    forall c | 0 < c < n ensures SkipOk(isMinHeap, after, j, c) {
      if Parent(c) == j {
        assert PairOk(isMinHeap, items, c);
      }
    }
  }

  lemma AppendedBelow(isMinHeap: bool, items: seq<TxEntry>, entry: TxEntry)
    requires Ordered(isMinHeap, items, |items|)
    ensures OrderedBelow(isMinHeap, items + [entry], |items| + 1, |items|)
  {
    forall k | 0 < k < |items| ensures PairOk(isMinHeap, items + [entry], k) {
      assert PairOk(isMinHeap, items, k);
    }
  }

  lemma PrefixOrdered(isMinHeap: bool, items: seq<TxEntry>, n: nat)
    requires n <= |items| && Ordered(isMinHeap, items, n)
    ensures Ordered(isMinHeap, items[..n], n)
  {
    forall k | 0 < k < n ensures PairOk(isMinHeap, items[..n], k) {
      assert PairOk(isMinHeap, items, k);
    }
  }

  /** After the last entry has been swapped into position i, the others are in order
      except around i. */
  lemma SwapLast(isMinHeap: bool, items: seq<TxEntry>, i: nat)
    requires i < |items| - 1 && Ordered(isMinHeap, items, |items|)
    ensures OrderedAbove(isMinHeap, Swapped(items, i, |items| - 1), |items| - 1, i, i)
  {
    var n := |items| - 1;
    var after := Swapped(items, i, n);
    assert forall k :: 0 <= k < n && k != i ==> after[k] == items[k];
    forall k | 0 < k < n && Parent(k) != i && k != i ensures PairOk(isMinHeap, after, k) {
      assert PairOk(isMinHeap, items, k) && Parent(k) < k;
    }
    forall c | 0 < c < n ensures SkipOk(isMinHeap, after, i, c) {
      if Parent(c) == i && i > 0 {
        assert PairOk(isMinHeap, items, i) && PairOk(isMinHeap, items, c);
      }
    }
  }

  /** The root of an ordered heap comes first: heap order is global, not only local. */
  lemma {:induction false} RootIsFirst(isMinHeap: bool, items: seq<TxEntry>, k: nat)
    requires Ordered(isMinHeap, items, |items|) && k < |items|
    ensures Key(isMinHeap, items[0]) <= Key(isMinHeap, items[k])
    decreases k
  {
    if k > 0 {
      RootIsFirst(isMinHeap, items, Parent(k));
      assert PairOk(isMinHeap, items, k);
    }
  }

  /** Where sifting down stops, at a hole no child of which comes before it, only the
      pair above top can still be wrong, and not even that one if the entry moved. */
  lemma SiftedDown(isMinHeap: bool, items: seq<TxEntry>, n: nat, i: nat, top: nat)
    requires top <= i < n <= |items| && OrderedAbove(isMinHeap, items, n, i, top)
    requires 2 * i + 1 < n ==> exists j: nat :: j < n && IsFirstChild(isMinHeap, items, n, i, j)
                                         && Key(isMinHeap, items[i]) <= Key(isMinHeap, items[j])
    ensures OrderedBelow(isMinHeap, items, n, top)
    ensures i > top ==> Ordered(isMinHeap, items, n)
  {
    forall c | 0 < c < n ensures SkipOk(isMinHeap, items, top, c) {
      if i > top && Parent(c) == top && top > 0 {
        assert PairOk(isMinHeap, items, top) && PairOk(isMinHeap, items, c);
      }
      assert i == top ==> SkipOk(isMinHeap, items, i, c);
    }
  }

  function IdSet(items: seq<TxEntry>): set<TxId> { set e | e in items :: e.id }

  lemma {:induction false} IdSetSize(items: seq<TxEntry>)
    requires forall i, j :: 0 <= i < j < |items| ==> items[i].id != items[j].id
    ensures |IdSet(items)| == |items|
  {
    if items != [] {
      var n := |items| - 1;
      IdSetSize(items[..n]);
      assert items == items[..n] + [items[n]];
      assert IdSet(items) == IdSet(items[..n]) + {items[n].id};
    }
  }

  lemma {:induction false} SubsetOfSameSize<T>(a: set<T>, b: set<T>)
    requires a <= b && |a| == |b|
    ensures a == b
  {
    if x :| x in a {
      SubsetOfSameSize(a - {x}, b - {x});
    }
  }

  class TxHeap {
    const isMinHeap: bool
    var items: seq<TxEntry>
    var lookup: map<TxId, TxEntry>
    ghost var entries: set<TxEntry>  // the objects this heap may update

    /** Each entry knows its position, and lookup is the inverse of items. */
    ghost predicate Indexed()
      reads this, entries
    {
      && |lookup| == |items|
      && (forall k :: 0 <= k < |items| ==>
            items[k] in entries && items[k].index == k
            && items[k].id in lookup && lookup[items[k].id] == items[k])
    }

    ghost predicate Valid()
      reads this, entries
    {
      Indexed() && Ordered(isMinHeap, items, |items|)
    }

    /** lookup finds every entry at the position the entry knows: the heap has as many
        entries as lookup has ids, so no id can lead outside items. */
    lemma LookupInverse(id: TxId)
      requires Indexed() && id in lookup
      ensures lookup[id].id == id && lookup[id].index < |items| && items[lookup[id].index] == lookup[id]
    {
      forall i, j | 0 <= i < j < |items| ensures items[i].id != items[j].id {
        assert items[i].index == i && items[j].index == j;
      }
      IdSetSize(items);
      SubsetOfSameSize(IdSet(items), lookup.Keys);
      var e :| e in items && e.id == id;
    }

    constructor (isMinHeap: bool)
      ensures Valid() && this.isMinHeap == isMinHeap && lookup == map[] && items == [] && entries == {}
    {
      this.isMinHeap := isMinHeap;
      items := [];
      lookup := map[];
      entries := {};
    }

    predicate Less(i: nat, j: nat)
      reads this
      requires i < |items| && j < |items|
      ensures Less(i, j) <==> Key(isMinHeap, items[i]) < Key(isMinHeap, items[j])
    {
      if isMinHeap then items[i].price < items[j].price else items[i].price > items[j].price
    }

    method Swap(i: nat, j: nat)
      requires Indexed() && i < |items| && j < |items|
      modifies this`items, entries
      ensures Indexed() && items == Swapped(old(items), i, j)
    {
      items := items[i := items[j]][j := items[i]];
      items[i].index := i;
      items[j].index := j;
    }

    /** container/heap up: sifts entry start towards the root.  n counts the entries
        that take part: all of them, or all but the last while one is being removed. */
    method Up(start: nat, ghost n: nat)
      requires Indexed() && start < n <= |items| && OrderedBelow(isMinHeap, items, n, start)
      modifies this`items, entries
      ensures Indexed() && |items| == old(|items|) && Ordered(isMinHeap, items, n)
      ensures n < |items| ==> items[|items| - 1] == old(items[|items| - 1])
    {
      var j: nat := start;
      while true
        invariant Indexed() && j < n <= |items| == old(|items|) && OrderedBelow(isMinHeap, items, n, j)
        invariant n < |items| ==> items[|items| - 1] == old(items[|items| - 1])
        decreases j
      {
        var i := Parent(j);
        if i == j || !Less(j, i) {
          break;
        }
        SwapUp(isMinHeap, items, n, j);
        Swap(i, j);
        j := i;
      }
    }

    /** The child that down moves up: the right one only if it comes before the left. */
    function FirstChild(i: nat, n: nat): (j: nat)
      requires 2 * i + 1 < n <= |items|
      reads this
      ensures j < n && IsFirstChild(isMinHeap, items, n, i, j)
    {
      if 2 * i + 2 < n && Less(2 * i + 2, 2 * i + 1) then 2 * i + 2 else 2 * i + 1
    }

    /** container/heap down: sifts entry top towards the leaves of the first n entries
        and says whether it moved. */
    method Down(top: nat, n: nat) returns (moved: bool)
      requires Indexed() && top < n <= |items| && OrderedAbove(isMinHeap, items, n, top, top)
      modifies this`items, entries
      ensures Indexed() && |items| == old(|items|)
      ensures n < |items| ==> items[|items| - 1] == old(items[|items| - 1])
      ensures OrderedBelow(isMinHeap, items, n, top)
      ensures moved ==> Ordered(isMinHeap, items, n)
    {
      var i: nat := top;
      while true
        invariant Indexed() && top <= i < n <= |items| == old(|items|) && OrderedAbove(isMinHeap, items, n, i, top)
        invariant n < |items| ==> items[|items| - 1] == old(items[|items| - 1])
        decreases n - i
      {
        if 2 * i + 1 >= n {
          break;
        }
        var j := FirstChild(i, n);
        if !Less(j, i) {
          break;
        }
        SwapDown(isMinHeap, items, n, i, top, j);
        Swap(i, j);
        i := j;
      }
      moved := i > top;
      SiftedDown(isMinHeap, items, n, i, top);
    }

    /** The middle of container/heap Remove: lets the entry at i find its place. */
    method Settle(i: nat, n: nat)
      requires Indexed() && i < n <= |items| && OrderedAbove(isMinHeap, items, n, i, i)
      modifies this`items, entries
      ensures Indexed() && |items| == old(|items|) && Ordered(isMinHeap, items, n)
      ensures n < |items| ==> items[|items| - 1] == old(items[|items| - 1])
    {
      var moved := Down(i, n);
      if !moved {
        Up(i, n);
      }
    }

    /** The heap's own Push: appends unless the id is already there. */
    method Push(entry: TxEntry)
      requires Indexed() && (entry.id !in lookup ==> entry.index == |items| && entry !in entries)
      modifies this
      ensures Indexed()
      ensures old(entry.id in lookup) ==> items == old(items) && lookup == old(lookup) && entries == old(entries)
      ensures old(entry.id !in lookup) ==> items == old(items) + [entry]
                                           && lookup == old(lookup)[entry.id := entry]
                                           && entries == old(entries) + {entry}
    {
      if entry.id in lookup {
        return;
      }
      items := items + [entry];
      lookup := lookup[entry.id := entry];
      entries := entries + {entry};
    }

    /** The heap's own Pop: removes the last entry. */
    method Pop() returns (entry: TxEntry)
      requires Indexed() && |items| > 0
      modifies this
      ensures Indexed() && entry == old(items)[|old(items)| - 1] && items == old(items)[..|old(items)| - 1]
      ensures lookup == old(lookup) - {entry.id} && entries == old(entries)
    {
      entry := items[|items| - 1];
      items := items[..|items| - 1];
      lookup := lookup - {entry.id};
    }

    /** container/heap Push. */
    method HeapPush(entry: TxEntry)
      requires Valid() && entry.id !in lookup
      requires entry.index == |items| && entry !in entries
      modifies this, entries, entry
      ensures Valid() && lookup == old(lookup)[entry.id := entry] && entries == old(entries) + {entry}
    {
      Push(entry);
      AppendedBelow(isMinHeap, old(items), entry);
      Up(|items| - 1, |items|);
    }

    /** container/heap Remove: takes out the entry at position i. */
    method HeapRemove(i: nat) returns (entry: TxEntry)
      requires Valid() && i < |items|
      modifies this, entries
      ensures Valid() && entry == old(items[i])
      ensures lookup == old(lookup) - {entry.id} && entries == old(entries)
    {
      var n := |items| - 1;
      if n != i {
        SwapLast(isMinHeap, items, i);
        Swap(i, n);
        Settle(i, n);
      }
      PrefixOrdered(isMinHeap, items, n);
      entry := Pop();
    }
  }
}
