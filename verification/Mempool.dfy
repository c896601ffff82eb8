/** Go slices: a window on a backing array that several slices may share. */
module GoSlices {

  datatype Slice<T> = Slice(arr: array<T>, lo: nat, len: nat, cap: nat) {
    ghost predicate Ok() { len <= cap && lo + cap <= arr.Length }

    ghost function Contents(): seq<T>
      requires Ok()
      reads arr
    {
      arr[lo..lo + len]
    }
  }

  /** append: writes in place while there is capacity, reallocates otherwise. */
  method Append<T>(s: Slice<T>, x: T) returns (r: Slice<T>)
    requires s.Ok()
    modifies s.arr
    ensures r.Ok() && r.Contents() == old(s.Contents()) + [x] && r.len == s.len + 1
    ensures s.len < s.cap ==> r == s.(len := s.len + 1)
    ensures s.len == s.cap ==> fresh(r.arr)
    ensures forall i :: 0 <= i < s.arr.Length && (s.len == s.cap || i != s.lo + s.len) ==> s.arr[i] == old(s.arr[i])
  {
    if s.len < s.cap {
      s.arr[s.lo + s.len] := x;
      r := s.(len := s.len + 1);
    } else {
      var grown := new T[2 * s.cap + 1](_ => x);
      for i := 0 to s.len
        invariant grown[..i] == old(s.arr[s.lo..s.lo + i])
        invariant fresh(grown)
        invariant unchanged(s.arr)
      {
        grown[i] := s.arr[s.lo + i];
      }
      grown[s.len] := x;
      r := Slice(grown, 0, s.len + 1, 2 * s.cap + 1);
    }
  }
}

/** The transaction pool of mempool/mempool.go: one set of transactions kept in a max
    heap and a min heap, and a queue of transactions still to be gossiped. */
module Mempools {
  import opened ChainTypes
  import opened ChainRules
  import opened TxHeaps
  import opened GoSlices

  function PoolOnly(pool: set<TxId>, txs: seq<Transaction>): (r: seq<Transaction>) {
    if txs == [] then []
    else
      var last := txs[|txs| - 1];
      PoolOnly(pool, txs[..|txs| - 1]) + (if last.ID() in pool then [last] else [])
  }

  ghost predicate IsLowest(pool: set<TxId>, id: TxId) {
    id in pool && forall other :: other in pool ==> id.tx.price <= other.tx.price
  }

  ghost predicate IsHighest(pool: set<TxId>, id: TxId) {
    id in pool && forall other :: other in pool ==> other.tx.price <= id.tx.price
  }

  /** Filtering distributes over the queue. */
  lemma {:induction false} PoolOnlyConcat(pool: set<TxId>, a: seq<Transaction>, b: seq<Transaction>)
    ensures PoolOnly(pool, a + b) == PoolOnly(pool, a) + PoolOnly(pool, b)
  {
    if b == [] {
      assert a + b == a;
    } else {
      var n := |b| - 1;
      PoolOnlyConcat(pool, a, b[..n]);
      assert (a + b)[..|a + b| - 1] == a + b[..n];
    }
  }

  /** Some pooled transaction is in the queue twice. */
  ghost predicate PooledTwice(pool: set<TxId>, txs: seq<Transaction>) {
    exists i, j :: 0 <= i < j < |txs| && txs[i].ID() == txs[j].ID() && txs[i].ID() in pool
  }

  lemma {:induction false} PoolOnlyIds(pool: set<TxId>, txs: seq<Transaction>)
    ensures TxIds(PoolOnly(pool, txs)) == TxIds(txs) * pool
  {
    if txs != [] {
      var rest := PoolOnly(pool, txs[..|txs| - 1]);
      PoolOnlyIds(pool, txs[..|txs| - 1]);
      assert (rest + [txs[|txs| - 1]])[..|rest|] == rest;
      assert rest + [] == rest;
    }
  }

  lemma DistinctSnoc(rest: seq<Transaction>, last: Transaction)
    ensures DistinctTxs(rest + [last]) <==> DistinctTxs(rest) && last.ID() !in TxIds(rest)
  {
    var longer := rest + [last];
    TxIdsExact(rest, last.ID());
    if DistinctTxs(longer) {
      forall n | 0 <= n < |rest| ensures rest[n].ID() != last.ID() {
        assert longer[n] == rest[n] && longer[|rest|] == last;
      }
      forall m, n | 0 <= m < n < |rest| ensures rest[m].ID() != rest[n].ID() {
        assert longer[m] == rest[m] && longer[n] == rest[n];
      }
    }
    if DistinctTxs(rest) && last.ID() !in TxIds(rest) {
      forall m, n | 0 <= m < n < |longer| ensures longer[m].ID() != longer[n].ID() {
        assert longer[m] == rest[m] && (n < |rest| ==> longer[n] == rest[n]);
      }
    }
  }

  lemma PooledTwiceSnoc(pool: set<TxId>, rest: seq<Transaction>, last: Transaction)
    ensures PooledTwice(pool, rest + [last]) <==>
            PooledTwice(pool, rest) || (last.ID() in pool && last.ID() in TxIds(rest))
  {
    var longer := rest + [last];
    TxIdsExact(rest, last.ID());
    if i, j :| 0 <= i < j < |rest| && rest[i].ID() == rest[j].ID() && rest[i].ID() in pool {
      assert longer[i] == rest[i] && longer[j] == rest[j];
    }
    if n :| 0 <= n < |rest| && rest[n].ID() == last.ID() {
      assert longer[n] == rest[n] && longer[|rest|] == last;
    }
    if i, j :| 0 <= i < j < |longer| && longer[i].ID() == longer[j].ID() && longer[i].ID() in pool {
      assert longer[i] == rest[i] && (j < |rest| ==> longer[j] == rest[j]);
    }
  }

  /** What is handed out holds no transaction twice exactly if the queue held no pooled one
      twice. */
  lemma {:induction false} SentOnceIff(pool: set<TxId>, txs: seq<Transaction>)
    ensures DistinctTxs(PoolOnly(pool, txs)) <==> !PooledTwice(pool, txs)
  {
    if txs != [] {
      var n, last := |txs| - 1, txs[|txs| - 1];
      SentOnceIff(pool, txs[..n]);
      PoolOnlyIds(pool, txs[..n]);
      DistinctSnoc(PoolOnly(pool, txs[..n]), last);
      assert txs == txs[..n] + [last];
      PooledTwiceSnoc(pool, txs[..n], last);
      assert PoolOnly(pool, txs[..n]) + [] == PoolOnly(pool, txs[..n]);
    }
  }

  /** What NewTxs hands out of a queue of which it consumes the first n transactions:
      the pooled ones in order, as many as fit. */
  ghost predicate Selects(g: Genesis, pool: set<TxId>, queue: seq<Transaction>, n: nat,
                          selected: seq<Transaction>, maxUnits: nat)
    requires n <= |queue|
  {
    && selected == PoolOnly(pool, queue[..n])
    && BlockUnits(g, selected) <= maxUnits
    && (n < |queue| ==> queue[n].ID() in pool && BlockUnits(g, selected) + queue[n].LoadUnits(g) > maxUnits)
  }

  lemma SelectsNext(g: Genesis, pool: set<TxId>, queue: seq<Transaction>, n: nat, kept: seq<Transaction>, maxUnits: nat)
    requires n < |queue| && Selects(g, pool, queue[..n], n, kept, maxUnits)
    ensures queue[n].ID() !in pool ==> Selects(g, pool, queue[..n + 1], n + 1, kept, maxUnits)
    ensures queue[n].ID() in pool ==> BlockUnits(g, kept + [queue[n]]) == BlockUnits(g, kept) + queue[n].LoadUnits(g)
    ensures queue[n].ID() in pool && BlockUnits(g, kept) + queue[n].LoadUnits(g) <= maxUnits ==>
              Selects(g, pool, queue[..n + 1], n + 1, kept + [queue[n]], maxUnits)
    ensures queue[n].ID() in pool && BlockUnits(g, kept) + queue[n].LoadUnits(g) > maxUnits ==>
              Selects(g, pool, queue, n, kept, maxUnits)
  {
    var prefix := queue[..n + 1];
    assert prefix[..n] == queue[..n] == queue[..n][..n] && prefix[..n + 1] == prefix;
    assert (kept + [queue[n]])[..|kept|] == kept;
  }

  ghost function Elements<T>(s: seq<T>): set<T> {
    if s == [] then {} else Elements(s[..|s| - 1]) + {s[|s| - 1]}
  }

  lemma ElementsAppend<T>(s: seq<T>, x: T)
    ensures Elements(s + [x]) == Elements(s) + {x}
  {
    assert (s + [x])[..|s|] == s;
  }

  lemma WithoutNext<T>(all: set<T>, s: seq<T>, i: nat)
    requires i < |s|
    ensures all - Elements(s[..i + 1]) == all - Elements(s[..i]) - {s[i]}
  {
    assert s[..i + 1] == s[..i] + [s[i]];
    ElementsAppend(s[..i], s[i]);
  }

  /** What adding a new transaction may make of a pool of limited size. */
  ghost predicate Inserted(before: set<TxId>, id: TxId, after: set<TxId>, maxSize: nat) {
    if |before| < maxSize then after == before + {id}
    else exists victim :: IsLowest(before + {id}, victim) && after == before + {id} - {victim}
  }

  class Mempool {
    const g: Genesis
    const maxSize: nat
    const maxHeap: TxHeap
    const minHeap: TxHeap
    var pending: bool
    var newTxs: Slice<Transaction>

    /** Both heaps are valid and hold the pooled transactions, in entries of their own. */
    ghost predicate Valid()
      reads maxHeap, maxHeap.entries, minHeap, minHeap.entries
    {
      && maxHeap.Valid() && !maxHeap.isMinHeap
      && minHeap.Valid() && minHeap.isMinHeap
      && maxHeap.lookup.Keys == minHeap.lookup.Keys
      && maxHeap.entries !! minHeap.entries
    }

    /** The pool takes over no entry and no array that somebody else may hold. */
    twostate predicate OwnsOldOrNew()
      reads this, maxHeap, minHeap
    {
      && (newTxs.arr == old(newTxs.arr) || fresh(newTxs.arr))
      && (forall e {:trigger e in maxHeap.entries} :: e in maxHeap.entries ==> e in old(maxHeap.entries) || fresh(e))
      && (forall e {:trigger e in minHeap.entries} :: e in minHeap.entries ==> e in old(minHeap.entries) || fresh(e))
    }

    twostate predicate SameParts()
      reads this, maxHeap, minHeap
    {
      newTxs == old(newTxs) && maxHeap.entries == old(maxHeap.entries) && minHeap.entries == old(minHeap.entries)
    }

    constructor (g: Genesis, maxSize: nat)
      ensures Valid() && newTxs.Ok() && maxHeap.lookup.Keys == {} && this.g == g && this.maxSize == maxSize
      ensures fresh(maxHeap) && fresh(minHeap) && fresh(newTxs.arr) && maxHeap.entries == {} == minHeap.entries
      ensures newTxs.Contents() == []
    {
      var highest := new TxHeap(false);
      var lowest := new TxHeap(true);
      var none := new Transaction[0];
      this.g, this.maxSize := g, maxSize;
      maxHeap, minHeap := highest, lowest;
      pending := false;
      newTxs := Slice(none, 0, 0, 0);
    }

    lemma RootIsHighest()
      requires Valid() && maxHeap.lookup.Keys != {}
      ensures |maxHeap.items| > 0 && IsHighest(maxHeap.lookup.Keys, maxHeap.items[0].id)
    {
      forall id | id in maxHeap.lookup.Keys ensures id.tx.price <= maxHeap.items[0].id.tx.price {
        maxHeap.LookupInverse(id);
        RootIsFirst(false, maxHeap.items, maxHeap.lookup[id].index);
      }
    }

    lemma RootIsLowest()
      requires Valid() && maxHeap.lookup.Keys != {}
      ensures |minHeap.items| > 0 && IsLowest(maxHeap.lookup.Keys, minHeap.items[0].id)
    {
      forall id | id in maxHeap.lookup.Keys ensures minHeap.items[0].id.tx.price <= id.tx.price {
        minHeap.LookupInverse(id);
        RootIsFirst(true, minHeap.items, minHeap.lookup[id].index);
      }
    }

    /** remove: takes the transaction out of both heaps, wherever it sits in each. */
    method Remove(id: TxId) returns (tx: Option<Transaction>)
      requires Valid()
      modifies maxHeap, minHeap, maxHeap.entries, minHeap.entries
      ensures Valid() && maxHeap.lookup.Keys == old(maxHeap.lookup.Keys) - {id}
      ensures maxHeap.entries == old(maxHeap.entries) && minHeap.entries == old(minHeap.entries)
      ensures tx == if id in old(maxHeap.lookup.Keys) then Some(id.tx) else None
    {
      if id !in maxHeap.lookup {
        return None;
      }
      maxHeap.LookupInverse(id);
      var maxEntry := maxHeap.HeapRemove(maxHeap.lookup[id].index);
      minHeap.LookupInverse(id);
      var minEntry := minHeap.HeapRemove(minHeap.lookup[id].index);
      tx := Some(minEntry.tx);
    }

    method PopMin() returns (tx: Transaction, price: nat)
      requires Valid() && maxHeap.lookup.Keys != {}
      modifies maxHeap, minHeap, maxHeap.entries, minHeap.entries
      ensures Valid() && IsLowest(old(maxHeap.lookup.Keys), tx.ID()) && price == tx.price
      ensures maxHeap.lookup.Keys == old(maxHeap.lookup.Keys) - {tx.ID()}
      ensures maxHeap.entries == old(maxHeap.entries) && minHeap.entries == old(minHeap.entries)
    {
      RootIsLowest();
      var item := minHeap.items[0];
      var removed := Remove(item.id);
      tx, price := removed.value, item.price;
    }

    method PopMax() returns (tx: Transaction, price: nat)
      requires Valid() && maxHeap.lookup.Keys != {}
      modifies maxHeap, minHeap, maxHeap.entries, minHeap.entries
      ensures Valid() && IsHighest(old(maxHeap.lookup.Keys), tx.ID()) && price == tx.price
      ensures maxHeap.lookup.Keys == old(maxHeap.lookup.Keys) - {tx.ID()}
      ensures maxHeap.entries == old(maxHeap.entries) && minHeap.entries == old(minHeap.entries)
    {
      RootIsHighest();
      var item := maxHeap.items[0];
      var removed := Remove(item.id);
      tx, price := removed.value, item.price;
    }

    /** Add: the transaction enters unless it is there already; a full pool then gives up
        a lowest-priced transaction, which may be the new one.  The answer says whether
        the transaction has newly entered the pool, and only then is it gossiped. */
    method Add(tx: Transaction) returns (added: bool)
      requires Valid() && newTxs.Ok() && |maxHeap.lookup.Keys| <= maxSize
      modifies this, maxHeap, minHeap, maxHeap.entries, minHeap.entries, newTxs.arr
      ensures Valid() && newTxs.Ok() && |maxHeap.lookup.Keys| <= maxSize
      ensures OwnsOldOrNew()
      ensures added <==> tx.ID() in maxHeap.lookup.Keys && tx.ID() !in old(maxHeap.lookup.Keys)
      ensures tx.ID() in old(maxHeap.lookup.Keys) ==> maxHeap.lookup.Keys == old(maxHeap.lookup.Keys)
      ensures tx.ID() !in old(maxHeap.lookup.Keys) ==>
                Inserted(old(maxHeap.lookup.Keys), tx.ID(), maxHeap.lookup.Keys, maxSize)
      ensures newTxs.Contents() == old(newTxs.Contents()) + (if added then [tx] else [])
      ensures pending == (old(pending) || added)
    {
      if tx.ID() in maxHeap.lookup {
        return false;
      }
      added := Insert(tx);
      if added {
        Enqueue(tx);
      }
    }

    /** The gossip half of Add. */
    method Enqueue(tx: Transaction)
      requires newTxs.Ok()
      modifies this, newTxs.arr
      ensures newTxs.Ok() && newTxs.Contents() == old(newTxs.Contents()) + [tx] && pending
      ensures newTxs.arr == old(newTxs.arr) || fresh(newTxs.arr)
    {
      newTxs := Append(newTxs, tx);
      pending := true;
    }

    /** The heap half of Add: the new transaction goes in first, then a lowest-priced one
        goes out if the pool is over its size. */
    method Insert(tx: Transaction) returns (added: bool)
      requires Valid() && tx.ID() !in maxHeap.lookup.Keys && |maxHeap.lookup.Keys| <= maxSize
      modifies maxHeap, minHeap, maxHeap.entries, minHeap.entries
      ensures Valid() && OwnsOldOrNew()
      ensures Inserted(old(maxHeap.lookup.Keys), tx.ID(), maxHeap.lookup.Keys, maxSize)
      ensures |maxHeap.lookup.Keys| <= maxSize && (added <==> tx.ID() in maxHeap.lookup.Keys)
    {
      PushBoth(tx);
      added := true;
      if |maxHeap.items| > maxSize {
        var lowest, _ := PopMin();
        added := lowest.ID() != tx.ID();
      }
    }

    /** The entry for the min heap takes its position from the length of the max heap. */
    method PushBoth(tx: Transaction)
      requires Valid() && tx.ID() !in maxHeap.lookup.Keys
      modifies maxHeap, minHeap, maxHeap.entries, minHeap.entries
      ensures Valid() && maxHeap.lookup.Keys == old(maxHeap.lookup.Keys) + {tx.ID()}
      ensures OwnsOldOrNew()
    {
      assert |maxHeap.lookup.Keys| == |minHeap.lookup.Keys|;
      var oldLen := |maxHeap.items|;
      var maxEntry := new TxEntry(tx, oldLen);
      maxHeap.HeapPush(maxEntry);
      var minEntry := new TxEntry(tx, oldLen);
      minHeap.HeapPush(minEntry);
    }

    /** The first loop of Prune: finds the transactions that name none of the blocks. */
    method Stale(validHashes: set<BlockId>) returns (toRemove: seq<TxId>)
      requires Valid()
      ensures Elements(toRemove) == set id | id in maxHeap.lookup.Keys && id.tx.blockId !in validHashes
    {
      toRemove := [];
      for i := 0 to |maxHeap.items|
        invariant Elements(toRemove) <= set id | id in maxHeap.lookup.Keys && id.tx.blockId !in validHashes
        invariant forall k :: 0 <= k < i ==>
                    maxHeap.items[k].tx.blockId in validHashes || maxHeap.items[k].id in Elements(toRemove)
      {
        if maxHeap.items[i].tx.blockId !in validHashes {
          ElementsAppend(toRemove, maxHeap.items[i].id);
          toRemove := toRemove + [maxHeap.items[i].id];
        }
      }
      forall id | id in maxHeap.lookup.Keys && id.tx.blockId !in validHashes ensures id in Elements(toRemove) {
        maxHeap.LookupInverse(id);
      }
    }

    /** The second loop of Prune. */
    method RemoveAll(ids: seq<TxId>)
      requires Valid()
      modifies maxHeap, minHeap, maxHeap.entries, minHeap.entries
      ensures Valid() && maxHeap.entries == old(maxHeap.entries) && minHeap.entries == old(minHeap.entries)
      ensures maxHeap.lookup.Keys == old(maxHeap.lookup.Keys) - Elements(ids)
    {
      ghost var before := maxHeap.lookup.Keys;
      for i := 0 to |ids|
        invariant Valid() && maxHeap.entries == old(maxHeap.entries) && minHeap.entries == old(minHeap.entries)
        invariant maxHeap.lookup.Keys == before - Elements(ids[..i])
      {
        WithoutNext(before, ids, i);
        var _ := Remove(ids[i]);
      }
      assert ids[..|ids|] == ids;
    }

    /** Prune: keeps exactly the transactions that name one of the given blocks. */
    method Prune(validHashes: set<BlockId>)
      requires Valid()
      modifies maxHeap, minHeap, maxHeap.entries, minHeap.entries
      ensures Valid() && maxHeap.entries == old(maxHeap.entries) && minHeap.entries == old(minHeap.entries)
      ensures maxHeap.lookup.Keys == set id | id in old(maxHeap.lookup.Keys) && id.tx.blockId in validHashes
    {
      var toRemove := Stale(validHashes);
      RemoveAll(toRemove);
    }

    function Len(): (n: nat)
      requires Valid()
      reads maxHeap, maxHeap.entries, minHeap, minHeap.entries
      ensures n == |maxHeap.lookup.Keys|
    {
      |maxHeap.items|
    }

    /** The loop of NewTxs: moves what is still pooled to the front of the queue until the
        next transaction no longer fits in maxUnits.  Reading stays ahead of writing. */
    method SelectPooled(queue: Slice<Transaction>, maxUnits: nat)
      returns (selected: Slice<Transaction>, consumed: nat)
      requires queue.Ok()
      modifies queue.arr
      ensures selected == queue.(len := selected.len) && selected.len <= consumed <= queue.len
      ensures Selects(g, maxHeap.lookup.Keys, old(queue.Contents()), consumed, selected.Contents(), maxUnits)
      ensures UnchangedOutside(queue, consumed)
    {
      ghost var txs := queue.Contents();
      var units := 0;
      selected, consumed := queue.(len := 0), 0;
      while consumed < queue.len
        invariant selected == queue.(len := selected.len) && selected.len <= consumed <= queue.len
        invariant Selects(g, maxHeap.lookup.Keys, txs[..consumed], consumed, selected.Contents(), maxUnits)
        invariant units == BlockUnits(g, selected.Contents()) && UnchangedOutside(queue, consumed)
      {
        var full;
        full, selected, units := SelectNext(queue, selected, consumed, txs, units, maxUnits);
        if full {
          return;
        }
        consumed := consumed + 1;
      }
      assert txs[..consumed] == txs;
    }

    /** One round of that loop. */
    method SelectNext(queue: Slice<Transaction>, selected: Slice<Transaction>, consumed: nat,
                      ghost txs: seq<Transaction>, units: nat, maxUnits: nat)
      returns (full: bool, longer: Slice<Transaction>, more: nat)
      requires queue.Ok() && selected == queue.(len := selected.len) && selected.len <= consumed < queue.len == |txs|
      requires queue.arr[queue.lo + consumed] == txs[consumed] && units == BlockUnits(g, selected.Contents())
      requires Selects(g, maxHeap.lookup.Keys, txs[..consumed], consumed, selected.Contents(), maxUnits)
      modifies queue.arr
      ensures longer == queue.(len := longer.len) && longer.len <= consumed + 1
              && more == BlockUnits(g, longer.Contents())
      ensures if full then
                longer == selected && UnchangedOutside(queue, consumed)
                && Selects(g, maxHeap.lookup.Keys, txs, consumed, longer.Contents(), maxUnits)
              else Selects(g, maxHeap.lookup.Keys, txs[..consumed + 1], consumed + 1, longer.Contents(), maxUnits)
      ensures UnchangedOutside(queue, consumed + 1)
    {
      var tx := queue.arr[queue.lo + consumed];
      SelectsNext(g, maxHeap.lookup.Keys, txs, consumed, selected.Contents(), maxUnits);
      full, longer, more := false, selected, units;
      if tx.ID() in maxHeap.lookup {
        var txUnits := tx.LoadUnits(g);
        if txUnits > maxUnits - units {
          return true, selected, units;
        }
        more := units + txUnits;
        longer := Keep(queue, selected, consumed, tx);
      }
    }

    /** Appends to the selection, which is never longer than what has been read. */
    method Keep(queue: Slice<Transaction>, selected: Slice<Transaction>, consumed: nat, tx: Transaction)
      returns (longer: Slice<Transaction>)
      requires queue.Ok() && selected == queue.(len := selected.len) && selected.len <= consumed < queue.len
      modifies queue.arr
      ensures longer == queue.(len := selected.len + 1) && UnchangedOutside(queue, consumed + 1)
      ensures longer.Contents() == old(selected.Contents()) + [tx]
    {
      longer := Append(selected, tx);
    }

    /** The backing array is as it was except at the first n places of the slice. */
    twostate predicate UnchangedOutside(queue: Slice<Transaction>, n: nat)
      reads queue.arr
    {
      forall i {:trigger queue.arr[i]} :: 0 <= i < queue.arr.Length && !(queue.lo <= i < queue.lo + n) ==>
        queue.arr[i] == old(queue.arr[i])
    }

    /** NewTxs: hands out what SelectPooled selects and keeps the rest of the queue,
        although both slices share their backing array. */
    method NewTxs(maxUnits: nat) returns (selected: Slice<Transaction>, ghost consumed: nat)
      requires Valid() && newTxs.Ok()
      modifies this`newTxs, newTxs.arr
      ensures Valid() && newTxs.Ok() && selected.Ok() && consumed <= old(newTxs.len)
      ensures Selects(g, maxHeap.lookup.Keys, old(newTxs.Contents()), consumed, selected.Contents(), maxUnits)
      ensures newTxs.Contents() == old(newTxs.Contents())[consumed..]
      ensures selected.arr == newTxs.arr == old(newTxs.arr) && selected.lo + selected.len <= newTxs.lo
      ensures forall i {:trigger newTxs.arr[i]} :: 0 <= i < selected.lo ==> newTxs.arr[i] == old(newTxs.arr[i])
    {
      var n;
      selected, n := SelectPooled(newTxs, maxUnits);
      consumed := n;
      assert unchanged(maxHeap, minHeap) && unchanged(maxHeap.entries) && unchanged(minHeap.entries);
      newTxs := Slice(newTxs.arr, newTxs.lo + n, newTxs.len - n, newTxs.cap - n);
    }

    /** Successive calls of NewTxs, while nothing is added: what they hand out together is,
        in order, the pooled part of the queue up to where they got.  No transaction is
        handed out twice exactly if that part of the queue holds no pooled one twice. */
    method NewTxsRun(budgets: seq<nat>) returns (sent: seq<Transaction>, ghost consumed: nat)
      requires Valid() && newTxs.Ok()
      modifies this`newTxs, newTxs.arr
      ensures Valid() && newTxs.Ok() && consumed <= old(newTxs.len)
      ensures sent == PoolOnly(maxHeap.lookup.Keys, old(newTxs.Contents())[..consumed])
      ensures newTxs.Contents() == old(newTxs.Contents())[consumed..]
      ensures DistinctTxs(sent) <==> !PooledTwice(maxHeap.lookup.Keys, old(newTxs.Contents())[..consumed])
    {
      ghost var queue := newTxs.Contents();
      sent, consumed := [], 0;
      for i := 0 to |budgets|
        invariant Valid() && newTxs.Ok() && newTxs.arr == old(newTxs.arr) && consumed <= |queue|
        invariant newTxs.Contents() == queue[consumed..] && sent == PoolOnly(maxHeap.lookup.Keys, queue[..consumed])
      {
        sent, consumed := SendNext(budgets[i], queue, consumed, sent);
      }
      SentOnceIff(maxHeap.lookup.Keys, queue[..consumed]);
    }

    /** NewTxs, and reading what it hands out. */
    method NextTxs(maxUnits: nat) returns (txs: seq<Transaction>, ghost n: nat)
      requires Valid() && newTxs.Ok()
      modifies this`newTxs, newTxs.arr
      ensures Valid() && newTxs.Ok() && newTxs.arr == old(newTxs.arr) && n <= old(newTxs.len)
      ensures txs == PoolOnly(maxHeap.lookup.Keys, old(newTxs.Contents())[..n])
      ensures newTxs.Contents() == old(newTxs.Contents())[n..]
    {
      var selected;
      selected, n := NewTxs(maxUnits);
      label Selected:
      txs := ReadAll(selected);
      assert unchanged@Selected(this, maxHeap, minHeap) && unchanged@Selected(maxHeap.entries);
      assert unchanged@Selected(minHeap.entries) && unchanged@Selected(newTxs.arr);
    }

    method SendNext(maxUnits: nat, ghost queue: seq<Transaction>, ghost start: nat, before: seq<Transaction>)
      returns (sent: seq<Transaction>, ghost end: nat)
      requires Valid() && newTxs.Ok() && start <= |queue| && newTxs.Contents() == queue[start..]
      requires before == PoolOnly(maxHeap.lookup.Keys, queue[..start])
      modifies this`newTxs, newTxs.arr
      ensures Valid() && newTxs.Ok() && newTxs.arr == old(newTxs.arr) && end <= |queue|
      ensures newTxs.Contents() == queue[end..] && sent == PoolOnly(maxHeap.lookup.Keys, queue[..end])
    {
      var txs, n := NextTxs(maxUnits);
      SentSoFar(maxHeap.lookup.Keys, queue, start, n);
      sent, end := before + txs, start + n;
    }

    lemma SentSoFar(pool: set<TxId>, queue: seq<Transaction>, start: nat, n: nat)
      requires start + n <= |queue|
      ensures queue[start..][n..] == queue[start + n..]
      ensures PoolOnly(pool, queue[..start]) + PoolOnly(pool, queue[start..][..n]) == PoolOnly(pool, queue[..start + n])
    {
      PoolOnlyConcat(pool, queue[..start], queue[start..][..n]);
      assert queue[..start] + queue[start..][..n] == queue[..start + n];
    }
  }

  method ReadAll(s: Slice<Transaction>) returns (txs: seq<Transaction>)
    requires s.Ok()
    ensures txs == s.Contents()
  {
    txs := [];
    for i := 0 to s.len
      invariant txs == s.Contents()[..i]
    {
      txs := txs + [s.arr[s.lo + i]];
    }
    assert s.Contents()[..s.len] == s.Contents();
  }

  /** A transaction that is popped and put back, as block building does, is queued again:
      the queue then holds it twice, and it is handed out twice. */
  method PutBackIsSentTwice(g: Genesis, t: Transaction) returns (sent: Slice<Transaction>)
    ensures sent.Ok() && sent.Contents() == [t, t]
  {
    var pool := PutBack(g, t);
    BothFit(g, {t.ID()}, t);
    ghost var consumed;
    sent, consumed := pool.NewTxs(2 * t.LoadUnits(g));
  }

  method PutBack(g: Genesis, t: Transaction) returns (pool: Mempool)
    ensures fresh(pool) && fresh(pool.newTxs.arr) && pool.g == g
    ensures pool.Valid() && pool.newTxs.Ok() && pool.maxHeap.lookup.Keys == {t.ID()} && pool.newTxs.Contents() == [t, t]
  {
    pool := new Mempool(g, 1);
    var _ := pool.Add(t);
    assert pool.maxHeap.lookup.Keys == {t.ID()};
    var _, _ := pool.PopMax();
    assert pool.maxHeap.lookup.Keys == {};
    var _ := pool.Add(t);
  }

  lemma BothFit(g: Genesis, pool: set<TxId>, t: Transaction)
    requires t.ID() in pool
    ensures forall n: nat, selected {:trigger Selects(g, pool, [t, t], n, selected, 2 * t.LoadUnits(g))} ::
              n <= 2 && Selects(g, pool, [t, t], n, selected, 2 * t.LoadUnits(g)) ==> selected == [t, t]
  {
    forall n: nat, selected | n <= 2 && Selects(g, pool, [t, t], n, selected, 2 * t.LoadUnits(g))
      ensures selected == [t, t]
    {
      assert [t, t][..0] == [] && [t, t][..1] == [t] && [t, t][..2] == [t, t];
      assert [t][..0] == [] && PoolOnly(pool, [t]) == [t] && BlockUnits(g, [t]) == t.LoadUnits(g);
      assert PoolOnly(pool, [t, t]) == [t] + [t];
    }
  }
}
