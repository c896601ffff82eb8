/** The loops that put the transactions of a block back into the pool or take them out. */
module PoolLoops {
  import opened ChainTypes
  import opened ChainRules
  import opened Mempools

  lemma {:induction false} SubsetSize<T>(a: set<T>, b: set<T>)
    requires a <= b
    ensures |a| <= |b|
  {
    if x :| x in a {
      SubsetSize(a - {x}, b - {x});
    }
  }

  lemma {:induction false} PrefixTxIds(txs: seq<Transaction>, n: nat)
    requires n <= |txs|
    ensures TxIds(txs[..n]) <= TxIds(txs)
  {
    if n < |txs| {
      PrefixTxIds(txs[..|txs| - 1], n);
      assert txs[..|txs| - 1][..n] == txs[..n];
    } else {
      assert txs[..n] == txs;
    }
  }

  lemma TxIdsNext(txs: seq<Transaction>, i: nat)
    requires i < |txs|
    ensures TxIds(txs[..i + 1]) == TxIds(txs[..i]) + {txs[i].ID()} && TxIds(txs[..i + 1]) <= TxIds(txs)
    ensures TxIds(txs[..|txs|]) == TxIds(txs)
  {
    PrefixTxIds(txs, i + 1);
    assert txs[..i + 1][..i] == txs[..i];
    assert txs[..|txs|] == txs;
  }

  /** What adding transactions one by one may make of a pool of limited size: nothing is
      evicted if there is room for all of them. */
  ghost predicate PutBack(before: set<TxId>, ids: set<TxId>, after: set<TxId>, fits: bool) {
    after <= before + ids && (fits ==> after == before + ids)
  }

  lemma PutBackNext(before: set<TxId>, now: set<TxId>, after: set<TxId>, txs: seq<Transaction>, i: nat, maxSize: nat)
    requires i < |txs| && PutBack(before, TxIds(txs[..i]), now, |before + TxIds(txs)| <= maxSize)
    requires txs[i].ID() in now ==> after == now
    requires txs[i].ID() !in now ==> Inserted(now, txs[i].ID(), after, maxSize)
    ensures PutBack(before, TxIds(txs[..i + 1]), after, |before + TxIds(txs)| <= maxSize)
  {
    TxIdsNext(txs, i);
    if |before + TxIds(txs)| <= maxSize && txs[i].ID() !in now {
      SubsetSize(now + {txs[i].ID()}, before + TxIds(txs));
    }
  }

  /** The transactions that are not in the set, each once. */
  function NewOnes(before: set<TxId>, txs: seq<Transaction>): seq<Transaction> {
    if txs == [] then []
    else
      var rest, last := txs[..|txs| - 1], txs[|txs| - 1];
      NewOnes(before, rest) + if last.ID() in before + TxIds(rest) then [] else [last]
  }

  /** What is queued for gossip meanwhile: some of the transactions, and if all fit exactly
      those that were not pooled. */
  ghost predicate Requeued(queue: seq<Transaction>, before: set<TxId>, txs: seq<Transaction>, after: seq<Transaction>,
                           fits: bool) {
    && queue <= after && TxIds(after[|queue|..]) <= TxIds(txs)
    && (fits ==> after == queue + NewOnes(before, txs))
  }

  lemma RequeuedNext(queue: seq<Transaction>, before: set<TxId>, txs: seq<Transaction>, i: nat, now: seq<Transaction>,
                     added: bool, fits: bool)
    requires i < |txs| && Requeued(queue, before, txs[..i], now, fits)
    requires fits ==> (added <==> txs[i].ID() !in before + TxIds(txs[..i]))
    ensures Requeued(queue, before, txs[..i + 1], now + (if added then [txs[i]] else []), fits)
  {
    TxIdsNext(txs, i);
    assert txs[..i + 1][..i] == txs[..i];
    var more := now[|queue|..];
    assert (now + [txs[i]])[|queue|..] == more + [txs[i]] && (more + [txs[i]])[..|more|] == more;
    assert now + [] == now && NewOnes(before, txs[..i]) + [] == NewOnes(before, txs[..i]);
  }

  /** Puts transactions back: the deferred loop of BuildBlock and the loop of vm.Rejected. */
  method AddAll(pool: Mempool, txs: seq<Transaction>)
    requires pool.Valid() && pool.newTxs.Ok() && |pool.maxHeap.lookup.Keys| <= pool.maxSize
    modifies pool, pool.maxHeap, pool.minHeap, pool.maxHeap.entries, pool.minHeap.entries, pool.newTxs.arr
    ensures pool.Valid() && pool.newTxs.Ok() && |pool.maxHeap.lookup.Keys| <= pool.maxSize
    ensures var fits := |old(pool.maxHeap.lookup.Keys) + TxIds(txs)| <= pool.maxSize;
            && PutBack(old(pool.maxHeap.lookup.Keys), TxIds(txs), pool.maxHeap.lookup.Keys, fits)
            && Requeued(old(pool.newTxs.Contents()), old(pool.maxHeap.lookup.Keys), txs, pool.newTxs.Contents(), fits)
  {
    ghost var before, queue := pool.maxHeap.lookup.Keys, pool.newTxs.Contents();
    ghost var fits := |before + TxIds(txs)| <= pool.maxSize;
    for i := 0 to |txs|
      invariant pool.Valid() && pool.newTxs.Ok() && |pool.maxHeap.lookup.Keys| <= pool.maxSize
      invariant pool.OwnsOldOrNew()
      invariant PutBack(before, TxIds(txs[..i]), pool.maxHeap.lookup.Keys, fits)
      invariant Requeued(queue, before, txs[..i], pool.newTxs.Contents(), fits)
    {
      AddNext(pool, txs, i, before, queue);
    }
    assert txs[..|txs|] == txs;
  }

  method AddNext(pool: Mempool, txs: seq<Transaction>, i: nat, ghost before: set<TxId>, ghost queue: seq<Transaction>)
    requires pool.Valid() && pool.newTxs.Ok() && |pool.maxHeap.lookup.Keys| <= pool.maxSize && i < |txs|
    requires PutBack(before, TxIds(txs[..i]), pool.maxHeap.lookup.Keys, |before + TxIds(txs)| <= pool.maxSize)
    requires Requeued(queue, before, txs[..i], pool.newTxs.Contents(), |before + TxIds(txs)| <= pool.maxSize)
    modifies pool, pool.maxHeap, pool.minHeap, pool.maxHeap.entries, pool.minHeap.entries, pool.newTxs.arr
    ensures pool.Valid() && pool.newTxs.Ok() && |pool.maxHeap.lookup.Keys| <= pool.maxSize
    ensures pool.OwnsOldOrNew()
    ensures PutBack(before, TxIds(txs[..i + 1]), pool.maxHeap.lookup.Keys, |before + TxIds(txs)| <= pool.maxSize)
    ensures Requeued(queue, before, txs[..i + 1], pool.newTxs.Contents(), |before + TxIds(txs)| <= pool.maxSize)
  {
    ghost var now, queued := pool.maxHeap.lookup.Keys, pool.newTxs.Contents();
    var added := pool.Add(txs[i]);
    PutBackNext(before, now, pool.maxHeap.lookup.Keys, txs, i, pool.maxSize);
    TxIdsNext(txs, i);
    RequeuedNext(queue, before, txs, i, queued, added, |before + TxIds(txs)| <= pool.maxSize);
  }

  lemma RemovedNext(all: set<TxId>, txs: seq<Transaction>, i: nat)
    requires i < |txs|
    ensures all - TxIds(txs[..i + 1]) == all - TxIds(txs[..i]) - {txs[i].ID()}
  {
    TxIdsNext(txs, i);
  }

  /** The loop of vm.Verified: the transactions of a verified block leave the pool. */
  method RemoveAll(pool: Mempool, txs: seq<Transaction>)
    requires pool.Valid()
    modifies pool.maxHeap, pool.minHeap, pool.maxHeap.entries, pool.minHeap.entries
    ensures pool.Valid() && pool.maxHeap.lookup.Keys == old(pool.maxHeap.lookup.Keys) - TxIds(txs)
  {
    ghost var before := pool.maxHeap.lookup.Keys;
    for i := 0 to |txs|
      invariant pool.Valid() && pool.maxHeap.entries == old(pool.maxHeap.entries)
      invariant pool.minHeap.entries == old(pool.minHeap.entries)
      invariant pool.maxHeap.lookup.Keys == before - TxIds(txs[..i])
    {
      RemovedNext(before, txs, i);
      var _ := pool.Remove(txs[i].ID());
    }
    assert txs[..|txs|] == txs;
  }
}

/**
 Block building, chain/builder.go: takes transactions from the pool in price order, runs
 each on an overlay of its own, and puts back what did not fit.
 */
module Builder {
  import opened ChainTypes
  import opened ChainRules
  import opened VersionDb
  import opened Replay
  import opened BlockTree
  import opened Mempools
  import opened PoolLoops

  /** Where the transactions of the pruned pool are: still pooled, in the block, failed,
      or set aside because they were too large. */
  datatype Sorting = Sorting(pooled: set<TxId>, taken: set<TxId>, failed: set<TxId>, aside: set<TxId>)
  {
    /** The transaction is in exactly one class if it is in the pool, else in none. */
    ghost predicate InOne(id: TxId, all: set<TxId>) {
      && (id in all <==> id in pooled || id in taken || id in failed || id in aside)
      && (id in pooled ==> id !in taken && id !in failed && id !in aside)
      && (id in taken ==> id !in failed && id !in aside)
      && (id in failed ==> id !in aside)
    }

    ghost predicate Partitions(all: set<TxId>) {
      forall id {:trigger InOne(id, all)} :: InOne(id, all)
    }

    function Take(id: TxId): Sorting { this.(pooled := pooled - {id}, taken := taken + {id}) }
    function Fail(id: TxId): Sorting { this.(pooled := pooled - {id}, failed := failed + {id}) }
    function SetAside(id: TxId): Sorting { this.(pooled := pooled - {id}, aside := aside + {id}) }
  }

  /** A popped transaction goes into exactly one of the other three classes. */
  lemma MoveKeepsPartition(s: Sorting, all: set<TxId>, id: TxId)
    requires s.Partitions(all) && id in s.pooled
    ensures s.Take(id).Partitions(all) && s.Fail(id).Partitions(all) && s.SetAside(id).Partitions(all)
  {
    forall other
      ensures s.Take(id).InOne(other, all) && s.Fail(id).InOne(other, all) && s.SetAside(id).InOne(other, all)
    {
      assert s.InOne(other, all) && s.InOne(id, all);
    }
  }

  ghost predicate Descending(txs: seq<Transaction>) {
    forall i, j :: 0 <= i < j < |txs| ==> txs[j].price <= txs[i].price
  }

  ghost predicate NoDearer(id: TxId, t: Transaction) {
    id.tx.price <= t.price
  }

  /** No pooled transaction is dearer than a taken one. */
  ghost predicate PoolBelow(pooled: set<TxId>, txs: seq<Transaction>) {
    forall id, i {:trigger NoDearer(id, txs[i])} :: id in pooled && 0 <= i < |txs| ==> NoDearer(id, txs[i])
  }

  lemma TakeDearest(pooled: set<TxId>, txs: seq<Transaction>, t: Transaction)
    requires Descending(txs) && PoolBelow(pooled, txs) && IsHighest(pooled, t.ID()) && t.ID() !in TxIds(txs)
    requires DistinctTxs(txs)
    ensures Descending(txs + [t]) && PoolBelow(pooled - {t.ID()}, txs + [t]) && DistinctTxs(txs + [t])
  {
    assert t.ID().tx == t;
    forall i | 0 <= i < |txs| ensures txs[i].ID() != t.ID() && t.price <= txs[i].price {
      TxIdsExact(txs, txs[i].ID());
      assert NoDearer(t.ID(), txs[i]);
    }
    forall id, i | id in pooled - {t.ID()} && 0 <= i < |txs + [t]| ensures NoDearer(id, (txs + [t])[i]) {
      if i < |txs| {
        assert NoDearer(id, txs[i]);
      }
    }
  }

  /** What a block under construction runs on. */
  datatype Job = Job(rules: Rules, context: Context, shown: View, tmstmp: int, price: nat)
  {
    ghost predicate Executes(before: View, t: Transaction) {
      TxOk(rules.g, context.recentBlockIds, context.recentTxIds, t) && rules.exec(before, tmstmp, t).ok
    }

    /** The transaction fails on the state after the first n of the block's transactions. */
    ghost predicate FailsAfter(txs: seq<Transaction>, n: nat, t: Transaction)
      requires n <= |txs|
    {
      var before := RunTxs(rules, shown, tmstmp, txs[..n]);
      before.Some? && !Executes(before.value, t)
    }

    ghost predicate Failed(txs: seq<Transaction>, t: Transaction) {
      exists n :: 0 <= n <= |txs| && FailsAfter(txs, n, t)
    }

    /** The transaction does not fit behind the first n of the block's transactions. */
    ghost predicate TooLargeAfter(txs: seq<Transaction>, n: nat, t: Transaction)
      requires n <= |txs|
    {
      BlockUnits(rules.g, txs[..n]) + t.LoadUnits(rules.g) > rules.g.maxBlockSize
    }

    ghost predicate TooLarge(txs: seq<Transaction>, t: Transaction) {
      exists n :: 0 <= n <= |txs| && TooLargeAfter(txs, n, t)
    }

    /** The transactions run one after the other, fit and pay the block price. */
    ghost predicate Runs(txs: seq<Transaction>) {
      && BlockUnits(rules.g, txs) <= rules.g.maxBlockSize && RunTxs(rules, shown, tmstmp, txs).Some?
      && forall i {:trigger txs[i]} :: 0 <= i < |txs| ==>
           price <= txs[i].price && TxOk(rules.g, context.recentBlockIds, context.recentTxIds, txs[i])
    }

    /** What holds of the transactions chosen so far and of where the others went. */
    ghost predicate Chosen(txs: seq<Transaction>, s: Sorting) {
      && s.taken == TxIds(txs) && Descending(txs) && DistinctTxs(txs) && Runs(txs)
      && (forall id {:trigger Failed(txs, id.tx)} :: id in s.failed ==> Failed(txs, id.tx))
      && (forall id {:trigger TooLarge(txs, id.tx)} :: id in s.aside ==> TooLarge(txs, id.tx))
    }

    lemma FailedStays(txs: seq<Transaction>, t: Transaction, next: Transaction)
      requires Failed(txs, t)
      ensures Failed(txs + [next], t)
    {
      var n :| 0 <= n <= |txs| && FailsAfter(txs, n, t);
      assert (txs + [next])[..n] == txs[..n];
      assert FailsAfter(txs + [next], n, t);
    }

    lemma TooLargeStays(txs: seq<Transaction>, t: Transaction, next: Transaction)
      requires TooLarge(txs, t)
      ensures TooLarge(txs + [next], t)
    {
      var n :| 0 <= n <= |txs| && TooLargeAfter(txs, n, t);
      assert (txs + [next])[..n] == txs[..n];
      assert TooLargeAfter(txs + [next], n, t);
    }

    lemma RunsOn(txs: seq<Transaction>, t: Transaction)
      requires Runs(txs) && price <= t.price
      requires BlockUnits(rules.g, txs) + t.LoadUnits(rules.g) <= rules.g.maxBlockSize
      requires Executes(RunTxs(rules, shown, tmstmp, txs).value, t)
      ensures Runs(txs + [t])
      ensures RunTxs(rules, shown, tmstmp, txs + [t]) ==
              Some(Apply(RunTxs(rules, shown, tmstmp, txs).value,
                         rules.exec(RunTxs(rules, shown, tmstmp, txs).value, tmstmp, t).writes))
      ensures BlockUnits(rules.g, txs + [t]) == BlockUnits(rules.g, txs) + t.LoadUnits(rules.g)
      ensures TxIds(txs + [t]) == TxIds(txs) + {t.ID()}
    {
      Appended(txs, t);
      RunsOneMore(txs, t);
    }

    lemma Appended(txs: seq<Transaction>, t: Transaction)
      ensures BlockUnits(rules.g, txs + [t]) == BlockUnits(rules.g, txs) + t.LoadUnits(rules.g)
      ensures TxIds(txs + [t]) == TxIds(txs) + {t.ID()}
    {
      assert (txs + [t])[..|txs|] == txs;
    }

    lemma RunsOneMore(txs: seq<Transaction>, t: Transaction)
      requires RunTxs(rules, shown, tmstmp, txs).Some? && Executes(RunTxs(rules, shown, tmstmp, txs).value, t)
      ensures RunTxs(rules, shown, tmstmp, txs + [t]) ==
              Some(Apply(RunTxs(rules, shown, tmstmp, txs).value,
                         rules.exec(RunTxs(rules, shown, tmstmp, txs).value, tmstmp, t).writes))
    {
      assert (txs + [t])[..|txs|] == txs;
    }

    lemma TakeNext(txs: seq<Transaction>, s: Sorting, t: Transaction)
      requires Chosen(txs, s) && PoolBelow(s.pooled, txs)
      requires IsHighest(s.pooled, t.ID()) && t.ID() !in s.taken && price <= t.price
      requires BlockUnits(rules.g, txs) + t.LoadUnits(rules.g) <= rules.g.maxBlockSize
      requires Executes(RunTxs(rules, shown, tmstmp, txs).value, t)
      ensures Chosen(txs + [t], s.Take(t.ID())) && PoolBelow(s.pooled - {t.ID()}, txs + [t])
    {
      TakeDearest(s.pooled, txs, t);
      RunsOn(txs, t);
      forall id | id in s.failed ensures Failed(txs + [t], id.tx) {
        FailedStays(txs, id.tx, t);
      }
      forall id | id in s.aside ensures TooLarge(txs + [t], id.tx) {
        TooLargeStays(txs, id.tx, t);
      }
    }

    lemma FailNext(txs: seq<Transaction>, s: Sorting, t: Transaction)
      requires Chosen(txs, s) && !Executes(RunTxs(rules, shown, tmstmp, txs).value, t)
      ensures Chosen(txs, s.Fail(t.ID()))
    {
      assert txs[..|txs|] == txs;
      assert FailsAfter(txs, |txs|, t);
    }

    lemma SetAsideNext(txs: seq<Transaction>, s: Sorting, t: Transaction)
      requires Chosen(txs, s) && BlockUnits(rules.g, txs) + t.LoadUnits(rules.g) > rules.g.maxBlockSize
      ensures Chosen(txs, s.SetAside(t.ID()))
    {
      assert txs[..|txs|] == txs;
      assert TooLargeAfter(txs, |txs|, t);
    }
  }

  /** Runs one transaction on an overlay of its own; a failed one leaves vdb as it was. */
  method TryTx(vm: VM, job: Job, next: Transaction, vdb: Database, shown: View) returns (ok: bool, after: View)
    requires job.rules == vm.rules && vdb.Sound() && vdb.view == shown
    modifies vdb`mem, vdb`view
    ensures vdb.Sound() && vdb.view == after && (ok <==> job.Executes(shown, next))
    ensures after == if ok then Apply(shown, job.rules.exec(shown, job.tmstmp, next).writes) else shown
  {
    var tvdb := new Database(vdb, vdb.rank + 1, EmptyId);
    var view, err := vm.ExecuteTx(next, job.tmstmp, job.context, tvdb, shown);
    if err.Some? {
      return false, shown;
    }
    tvdb.Commit();
    ok, after := true, view;
  }

  /** The variables of the selection loop: the chosen transactions, those set aside, the
      load of the chosen ones and what the overlay shows. */
  datatype Progress = Progress(txs: seq<Transaction>, unusable: seq<Transaction>, units: nat, shown: View)

  /** What the selection loop keeps, apart from the pool and the overlay. */
  ghost predicate Selecting(job: Job, all: set<TxId>, p: Progress, s: Sorting) {
    && s.Partitions(all) && s.aside == TxIds(p.unusable) && job.Chosen(p.txs, s) && PoolBelow(s.pooled, p.txs)
    && RunTxs(job.rules, job.shown, job.tmstmp, p.txs) == Some(p.shown) && p.units == BlockUnits(job.rules.g, p.txs)
  }

  lemma TooLargeKeepsSelecting(job: Job, all: set<TxId>, p: Progress, s: Sorting, next: Transaction)
    requires Selecting(job, all, p, s) && IsHighest(s.pooled, next.ID())
    requires p.units + next.LoadUnits(job.rules.g) > job.rules.g.maxBlockSize
    ensures Selecting(job, all, p.(unusable := p.unusable + [next]), s.SetAside(next.ID()))
  {
    job.SetAsideNext(p.txs, s, next);
    MoveKeepsPartition(s, all, next.ID());
    assert (p.unusable + [next])[..|p.unusable|] == p.unusable;
  }

  lemma FailureKeepsSelecting(job: Job, all: set<TxId>, p: Progress, s: Sorting, next: Transaction)
    requires Selecting(job, all, p, s) && IsHighest(s.pooled, next.ID()) && !job.Executes(p.shown, next)
    ensures Selecting(job, all, p, s.Fail(next.ID()))
  {
    job.FailNext(p.txs, s, next);
    MoveKeepsPartition(s, all, next.ID());
  }

  lemma SuccessKeepsSelecting(job: Job, all: set<TxId>, p: Progress, s: Sorting, next: Transaction)
    requires Selecting(job, all, p, s) && IsHighest(s.pooled, next.ID()) && job.Executes(p.shown, next)
    requires p.units + next.LoadUnits(job.rules.g) <= job.rules.g.maxBlockSize && job.price <= next.price
    ensures Selecting(job, all, Progress(p.txs + [next], p.unusable, p.units + next.LoadUnits(job.rules.g),
                                         Apply(p.shown, job.rules.exec(p.shown, job.tmstmp, next).writes)),
                      s.Take(next.ID()))
  {
    assert s.InOne(next.ID(), all);
    job.TakeNext(p.txs, s, next);
    job.RunsOn(p.txs, next);
    MoveKeepsPartition(s, all, next.ID());
  }

  /** The selection loop from a popped transaction on that pays the block price: it is set
      aside, fails, or runs and joins the block. */
  method Place(vm: VM, job: Job, vdb: Database, ghost all: set<TxId>, next: Transaction, p: Progress, ghost s: Sorting)
    returns (p': Progress, ghost s': Sorting)
    requires Selecting(job, all, p, s) && IsHighest(s.pooled, next.ID())
    requires job.rules == vm.rules && vdb.Sound() && vdb.view == p.shown && job.price <= next.price
    modifies vdb`mem, vdb`view
    ensures Selecting(job, all, p', s') && s'.pooled == s.pooled - {next.ID()}
    ensures vdb.Sound() && vdb.view == p'.shown
  {
    var nextLoad := next.LoadUnits(job.rules.g);
    if p.units + nextLoad > job.rules.g.maxBlockSize {
      TooLargeKeepsSelecting(job, all, p, s, next);
      return p.(unusable := p.unusable + [next]), s.SetAside(next.ID());
    }
    var ok, after := TryTx(vm, job, next, vdb, p.shown);
    if ok {
      SuccessKeepsSelecting(job, all, p, s, next);
      p', s' := Progress(p.txs + [next], p.unusable, p.units + nextLoad, after), s.Take(next.ID());
    } else {
      FailureKeepsSelecting(job, all, p, s, next);
      p', s' := p, s.Fail(next.ID());
    }
  }

  /** The gossip queue gains the transactions that are put back, and only pooled ones. */
  ghost predicate Requeues(before: seq<Transaction>, after: seq<Transaction>, back: set<TxId>, pooled: set<TxId>) {
    before <= after && back <= TxIds(after[|before|..]) <= pooled
  }

  lemma RequeuesOne(queue: seq<Transaction>, t: Transaction, pooled: set<TxId>)
    requires t.ID() in pooled
    ensures Requeues(queue, queue + [t], {}, pooled)
  {
    assert (queue + [t])[|queue|..] == [t] && [t][..0] == [];
  }

  lemma RequeuesNone(queue: seq<Transaction>, pooled: set<TxId>)
    ensures Requeues(queue, queue, {}, pooled)
  {
    assert queue[|queue|..] == [];
  }

  lemma {:induction false} NewOnesIds(before: set<TxId>, txs: seq<Transaction>)
    ensures TxIds(NewOnes(before, txs)) == TxIds(txs) - before
  {
    if txs != [] {
      var rest, last := txs[..|txs| - 1], txs[|txs| - 1];
      var ones := NewOnes(before, rest);
      NewOnesIds(before, rest);
      assert (ones + [last])[..|ones|] == ones && ones + [] == ones;
    }
  }

  lemma {:induction false} TxIdsConcat(a: seq<Transaction>, b: seq<Transaction>)
    ensures TxIds(a + b) == TxIds(a) + TxIds(b)
  {
    if b == [] {
      assert a + b == a;
    } else {
      TxIdsConcat(a, b[..|b| - 1]);
      assert (a + b)[..|a + b| - 1] == a + b[..|b| - 1];
    }
  }

  lemma RequeuesAll(start: seq<Transaction>, now: seq<Transaction>, pooled: set<TxId>, txs: seq<Transaction>)
    requires Requeues(start, now, {}, pooled) && TxIds(txs) !! pooled
    ensures Requeues(start, now + NewOnes(pooled, txs), TxIds(txs), pooled + TxIds(txs))
  {
    NewOnesIds(pooled, txs);
    TxIdsConcat(now[|start|..], NewOnes(pooled, txs));
    assert (now + NewOnes(pooled, txs))[|start|..] == now[|start|..] + NewOnes(pooled, txs);
  }

  /** Pops a highest-priced transaction; one that does not pay the price goes straight back. */
  method PopPaying(pool: Mempool, blockPrice: nat) returns (next: Option<Transaction>)
    requires pool.Valid() && pool.newTxs.Ok() && 0 < |pool.maxHeap.lookup.Keys| <= pool.maxSize
    modifies pool, pool.maxHeap, pool.minHeap, pool.maxHeap.entries, pool.minHeap.entries, pool.newTxs.arr
    ensures pool.Valid() && pool.newTxs.Ok() && (next.None? ==> pool.OwnsOldOrNew())
    ensures next.None? ==> pool.maxHeap.lookup.Keys == old(pool.maxHeap.lookup.Keys)
                           && forall id :: id in pool.maxHeap.lookup.Keys ==> id.tx.price < blockPrice
    ensures next.None? ==> exists t: Transaction :: IsHighest(old(pool.maxHeap.lookup.Keys), t.ID())
                                       && pool.newTxs.Contents() == old(pool.newTxs.Contents()) + [t]
    ensures next.None? ==> Requeues(old(pool.newTxs.Contents()), pool.newTxs.Contents(), {}, pool.maxHeap.lookup.Keys)
    ensures next.Some? ==> pool.newTxs.Contents() == old(pool.newTxs.Contents())
    ensures next.Some? ==> IsHighest(old(pool.maxHeap.lookup.Keys), next.value.ID()) && blockPrice <= next.value.price
                           && pool.maxHeap.lookup.Keys == old(pool.maxHeap.lookup.Keys) - {next.value.ID()}
                           && pool.SameParts()
  {
    ghost var all := pool.maxHeap.lookup.Keys;
    var tx, price := pool.PopMax();
    SubsetSize(pool.maxHeap.lookup.Keys + {tx.ID()}, all);
    if price >= blockPrice {
      return Some(tx);
    }
    RequeuesOne(pool.newTxs.Contents(), tx, all);
    var _ := pool.Add(tx);
    next := None;
  }

  /** Placing a popped transaction leaves the pool alone. */
  method PlaceBeside(vm: VM, pool: Mempool, job: Job, vdb: Database, ghost all: set<TxId>, next: Transaction,
                     p: Progress, ghost s: Sorting)
    returns (p': Progress, ghost s': Sorting)
    requires Selecting(job, all, p, s) && IsHighest(s.pooled, next.ID())
    requires job.rules == vm.rules && vdb.Sound() && vdb.view == p.shown && job.price <= next.price
    requires pool.Valid() && pool.newTxs.Ok()
    modifies vdb`mem, vdb`view
    ensures Selecting(job, all, p', s') && s'.pooled == s.pooled - {next.ID()}
    ensures vdb.Sound() && vdb.view == p'.shown && pool.Valid() && pool.SameParts()
    ensures pool.maxHeap.lookup == old(pool.maxHeap.lookup) && pool.newTxs.Contents() == old(pool.newTxs.Contents())
  {
    p', s' := Place(vm, job, vdb, all, next, p, s);
    assert unchanged(pool, pool.maxHeap, pool.minHeap) && unchanged(pool.newTxs.arr);
    assert unchanged(pool.maxHeap.entries) && unchanged(pool.minHeap.entries);
  }

  /** One round of the selection loop. */
  method SelectNext(vm: VM, pool: Mempool, job: Job, vdb: Database, ghost all: set<TxId>, p: Progress, ghost s: Sorting)
    returns (done: bool, p': Progress, ghost s': Sorting)
    requires pool.Valid() && pool.newTxs.Ok() && 0 < |pool.maxHeap.lookup.Keys| <= pool.maxSize
    requires pool.maxHeap.lookup.Keys == s.pooled && Selecting(job, all, p, s)
    requires job.rules == vm.rules && vdb.Sound() && vdb.view == p.shown
    modifies vdb`mem, vdb`view
    modifies pool, pool.maxHeap, pool.minHeap, pool.maxHeap.entries, pool.minHeap.entries, pool.newTxs.arr
    ensures pool.Valid() && pool.newTxs.Ok() && pool.maxHeap.lookup.Keys == s'.pooled
    ensures Selecting(job, all, p', s') && vdb.Sound() && vdb.view == p'.shown
    ensures if done then pool.OwnsOldOrNew() && forall id :: id in s'.pooled ==> id.tx.price < job.price
            else |s'.pooled| < |s.pooled| && pool.SameParts()
    ensures if done then Requeues(old(pool.newTxs.Contents()), pool.newTxs.Contents(), {}, s'.pooled)
            else pool.newTxs.Contents() == old(pool.newTxs.Contents())
  {
    done, p', s' := true, p, s;
    var next := PopPaying(pool, job.price);
    if next.Some? {
      done := false;
      p', s' := PlaceBeside(vm, pool, job, vdb, all, next.value, p, s);
    }
  }

  /** The selection loop: afterwards every transaction of the pool is chosen, failed, set
      aside or still pooled, and the pooled ones do not pay the block price. */
  method SelectTxs(vm: VM, pool: Mempool, job: Job, vdb: Database)
    returns (txs: seq<Transaction>, unusable: seq<Transaction>, ghost s: Sorting)
    requires pool.Valid() && pool.newTxs.Ok() && |pool.maxHeap.lookup.Keys| <= pool.maxSize
    requires job.rules == vm.rules && vdb.Sound() && vdb.view == job.shown
    modifies vdb`mem, vdb`view
    modifies pool, pool.maxHeap, pool.minHeap, pool.maxHeap.entries, pool.minHeap.entries, pool.newTxs.arr
    ensures pool.Valid() && pool.newTxs.Ok() && pool.maxHeap.lookup.Keys == s.pooled
    ensures pool.OwnsOldOrNew() && Requeues(old(pool.newTxs.Contents()), pool.newTxs.Contents(), {}, s.pooled)
    ensures s.Partitions(old(pool.maxHeap.lookup.Keys)) && s.aside == TxIds(unusable)
    ensures job.Chosen(txs, s) && forall id :: id in s.pooled ==> id.tx.price < job.price
    ensures vdb.Sound() && RunTxs(job.rules, job.shown, job.tmstmp, txs) == Some(vdb.view)
  {
    ghost var all := pool.maxHeap.lookup.Keys;
    var p := Progress([], [], 0, job.shown);
    s := Sorting(all, {}, {}, {});
    ghost var queue := pool.newTxs.Contents();
    while pool.Len() > 0
      invariant pool.Valid() && pool.newTxs.Ok() && pool.SameParts() && pool.newTxs.Contents() == queue
      invariant pool.maxHeap.lookup.Keys == s.pooled && |s.pooled| <= |all|
      invariant Selecting(job, all, p, s) && vdb.Sound() && vdb.view == p.shown
      decreases |s.pooled|
    {
      var done;
      done, p, s := SelectNext(vm, pool, job, vdb, all, p, s);
      if done {
        return p.txs, p.unusable, s;
      }
    }
    RequeuesNone(queue, s.pooled);
    txs, unusable := p.txs, p.unusable;
  }

  function NewBlock(prnt: BlockId, hght: nat, tmstmp: int, context: Context): StatefulBlock {
    StatefulBlock(prnt, tmstmp, hght + 1, context.nextPrice, context.nextCost, 0, [])
  }

  /** What a block on the given parent is built with at the given time. */
  ghost function JobOn(rules: Rules, preferred: BlockId, now: int): Job
    requires ChainOf(preferred) != [] && StateAfter(rules, preferred).Some?
  {
    var context := ContextOf(rules, now, ChainOf(preferred));
    Job(rules, context, StateAfter(rules, preferred).value, now, context.nextPrice)
  }

  function Assembled(job: Job, preferred: BlockId, hght: nat, txs: seq<Transaction>): StatefulBlock {
    var b := NewBlock(preferred, hght, job.tmstmp, job.context);
    b.(txs := txs, accessProof := job.rules.proofOf(job.shown, preferred, b.hght))
  }

  /** What decides whether a block of chosen transactions is any good. */
  predicate WorthIt(job: Job, parent: StatefulBlock, b: StatefulBlock) {
    && b.txs != [] && job.tmstmp >= parent.tmstmp
    && SurplusFee(job.rules.g, b.price, b.txs) >= Wrap(b.price * b.cost)
  }

  /** Builder and verifier agree: chosen transactions pass every check of verify except
      those that depend on how much was chosen and on the clock. */
  lemma AssembledIsAcceptable(vm: VM, preferred: BlockId, now: int, wall: int, hght: nat, txs: seq<Transaction>)
    requires preferred.BlockHash? && vm.Known(preferred) && StateAfter(vm.rules, preferred).Some?
    requires JobOn(vm.rules, preferred, now).Runs(txs) && now <= wall
    ensures var b := Assembled(JobOn(vm.rules, preferred, now), preferred, hght, txs);
            vm.Acceptable(b, wall) <==> WorthIt(JobOn(vm.rules, preferred, now), preferred.block, b)
  {}

  /** The overlay that a block on the given parent is built on. */
  method OpenState(vm: VM, preferred: BlockId, parent: StatelessBlock) returns (vdb: Database, shown: View)
    requires vm.Valid() && vm.Buildable(preferred) && vm.GetStatelessBlock(preferred) == Some(parent)
    ensures fresh(vdb) && vdb.Sound() && vdb.view == shown && StateAfter(vm.rules, preferred) == Some(shown)
  {
    var parentState := vm.OnAccept(parent);
    vm.OnAcceptIsState(preferred, parent);
    vm.StackClosed(preferred);
    shown := parentState.value.Snapshot(vm.overlays + {vm.db});
    vdb := new Database(parentState.value, parentState.value.rank + 1, EmptyId);
  }

  /** What building a block leaves behind.  The pruned pool splits into the chosen
      transactions, those whose execution failed, and those that are pooled afterwards. */
  ghost predicate Built(job: Job, pruned: set<TxId>, after: set<TxId>, txs: seq<Transaction>, s: Sorting) {
    && s.Partitions(pruned) && job.Chosen(txs, s) && after == s.pooled + s.aside
    && forall id :: id in s.pooled ==> id.tx.price < job.price
  }

  ghost function Pruned(pool: set<TxId>, job: Job): set<TxId> {
    set id | id in pool && id.tx.blockId in job.context.recentBlockIds
  }

  /** The part of BuildBlock that works on the pool: prune, select, then put back what was
      too large.  The program puts it back when BuildBlock returns. */
  method Assemble(vm: VM, pool: Mempool, job: Job, vdb: Database) returns (txs: seq<Transaction>, ghost s: Sorting)
    requires pool.Valid() && pool.newTxs.Ok() && |pool.maxHeap.lookup.Keys| <= pool.maxSize
    requires job.rules == vm.rules && vdb.Sound() && vdb.view == job.shown
    modifies vdb`mem, vdb`view
    modifies pool, pool.maxHeap, pool.minHeap, pool.maxHeap.entries, pool.minHeap.entries, pool.newTxs.arr
    ensures pool.Valid() && pool.newTxs.Ok() && |pool.maxHeap.lookup.Keys| <= pool.maxSize
    ensures Built(job, Pruned(old(pool.maxHeap.lookup.Keys), job), pool.maxHeap.lookup.Keys, txs, s)
    ensures Requeues(old(pool.newTxs.Contents()), pool.newTxs.Contents(), s.aside, pool.maxHeap.lookup.Keys)
    ensures RunTxs(job.rules, job.shown, job.tmstmp, txs) == Some(vdb.view)
  {
    ghost var before := pool.maxHeap.lookup.Keys;
    pool.Prune(job.context.recentBlockIds);
    SubsetSize(pool.maxHeap.lookup.Keys, before);
    txs, s := SelectAndPutBack(vm, pool, job, vdb);
  }

  method SelectAndPutBack(vm: VM, pool: Mempool, job: Job, vdb: Database)
    returns (txs: seq<Transaction>, ghost s: Sorting)
    requires pool.Valid() && pool.newTxs.Ok() && |pool.maxHeap.lookup.Keys| <= pool.maxSize
    requires job.rules == vm.rules && vdb.Sound() && vdb.view == job.shown
    modifies vdb`mem, vdb`view
    modifies pool, pool.maxHeap, pool.minHeap, pool.maxHeap.entries, pool.minHeap.entries, pool.newTxs.arr
    ensures pool.Valid() && pool.newTxs.Ok() && |pool.maxHeap.lookup.Keys| <= pool.maxSize
    ensures Built(job, old(pool.maxHeap.lookup.Keys), pool.maxHeap.lookup.Keys, txs, s)
    ensures Requeues(old(pool.newTxs.Contents()), pool.newTxs.Contents(), s.aside, pool.maxHeap.lookup.Keys)
    ensures RunTxs(job.rules, job.shown, job.tmstmp, txs) == Some(vdb.view)
  {
    ghost var all, queue := pool.maxHeap.lookup.Keys, pool.newTxs.Contents();
    var unusable;
    txs, unusable, s := SelectTxs(vm, pool, job, vdb);
    PooledFit(s, all);
    RequeuesAll(queue, pool.newTxs.Contents(), s.pooled, unusable);
    AddAll(pool, unusable);
  }

  lemma PooledFit(s: Sorting, all: set<TxId>)
    requires s.Partitions(all)
    ensures |s.pooled| <= |all| && |s.pooled + s.aside| <= |all| && s.aside !! s.pooled
  {
    forall id | id in s.aside ensures id !in s.pooled {
      assert s.InOne(id, all);
    }
    forall id | id in s.pooled + s.aside ensures id in all {
      assert s.InOne(id, all);
    }
    SubsetSize(s.pooled, all);
    SubsetSize(s.pooled + s.aside, all);
  }

  /** The part of BuildBlock before the selection: the context and the overlay. */
  method StartJob(vm: VM, preferred: BlockId, now: int) returns (job: Option<Job>, hght: nat, vdb: Database?)
    requires vm.Valid() && (vm.Known(preferred) ==> vm.Buildable(preferred))
    ensures vm.Valid() && (job.Some? <==> vm.Known(preferred))
    ensures job.Some? ==> preferred.BlockHash? && hght == preferred.block.hght && StateAfter(vm.rules, preferred).Some?
                          && job.value == JobOn(vm.rules, preferred, now)
                          && vdb != null && fresh(vdb) && vdb.Sound() && vdb.view == job.value.shown
  {
    var parent := vm.GetStatelessBlock(preferred);
    if parent.None? {
      return None, 0, null;
    }
    var context := vm.ExecutionContext(now, parent.value);
    var shown;
    vdb, shown := OpenState(vm, preferred, parent.value);
    hght := parent.value.blk.hght;
    job := Some(Job(vm.rules, context.value, shown, now, context.value.nextPrice));
  }

  /** Starting leaves the pool alone. */
  method StartBeside(vm: VM, pool: Mempool, preferred: BlockId, now: int)
    returns (job: Option<Job>, hght: nat, vdb: Database?)
    requires vm.Valid() && (vm.Known(preferred) ==> vm.Buildable(preferred)) && pool.Valid() && pool.newTxs.Ok()
    ensures vm.Valid() && (job.Some? <==> vm.Known(preferred))
    ensures job.Some? ==> preferred.BlockHash? && hght == preferred.block.hght && StateAfter(vm.rules, preferred).Some?
                          && job.value == JobOn(vm.rules, preferred, now)
                          && vdb != null && fresh(vdb) && vdb.Sound() && vdb.view == job.value.shown
    ensures pool.Valid() && pool.newTxs.Ok() && pool.SameParts() && pool.maxHeap.lookup == old(pool.maxHeap.lookup)
    ensures pool.newTxs.Contents() == old(pool.newTxs.Contents())
  {
    job, hght, vdb := StartJob(vm, preferred, now);
    assert unchanged(pool, pool.maxHeap, pool.minHeap) && unchanged(pool.newTxs.arr);
    assert unchanged(pool.maxHeap.entries) && unchanged(pool.minHeap.entries);
  }

  /** The part of BuildBlock after the selection: verify the block. */
  method CheckBuilt(vm: VM, job: Job, preferred: BlockId, wall: int, hght: nat, txs: seq<Transaction>)
    returns (r: Result<StatefulBlock, BlockError>)
    requires vm.Valid() && vm.Buildable(preferred) && preferred.BlockHash? && StateAfter(vm.rules, preferred).Some?
    requires job == JobOn(vm.rules, preferred, job.tmstmp) && job.tmstmp <= wall && job.Runs(txs)
    requires hght == preferred.block.hght
    ensures Judged(vm, job, preferred, wall, txs, r)
  {
    var b := NewBlock(preferred, hght, job.tmstmp, job.context);
    b := b.(txs := txs, accessProof := vm.rules.proofOf(job.shown, preferred, b.hght));
    AssembledIsAcceptable(vm, preferred, job.tmstmp, wall, hght, txs);
    var verified := vm.VerifyBlock(b, wall);
    r := if verified.Ok? then Ok(b) else Err(verified.error);
  }

  /** The result of building: the assembled block, if it is worth it. */
  ghost predicate Judged(vm: VM, job: Job, preferred: BlockId, wall: int, txs: seq<Transaction>,
                         r: Result<StatefulBlock, BlockError>)
    requires preferred.BlockHash?
    reads vm
  {
    var b := Assembled(job, preferred, preferred.block.hght, txs);
    && (r.Ok? <==> WorthIt(job, preferred.block, b))
    && (r.Ok? ==> r.value == b && vm.Acceptable(b, wall))
    && (r.Ok? ==> r.value.prnt == preferred && r.value.hght == preferred.block.hght + 1
                  && r.value.tmstmp == job.tmstmp && r.value.txs == txs)
  }

  /** A built block takes transactions that pay its price and leaves those that do not, at
      the price that the rules demand of it. */
  lemma BuiltAtPrice(rules: Rules, preferred: BlockId, now: int, txs: seq<Transaction>, pruned: set<TxId>,
                     after: set<TxId>, s: Sorting)
    requires ChainOf(preferred) != [] && StateAfter(rules, preferred).Some?
    requires Built(JobOn(rules, preferred, now), pruned, after, txs, s)
    ensures var chain := ChainOf(preferred);
            var price := NextPrice(rules.g, chain[|chain| - 1], now, WindowUnits(rules.g, Window(rules.g, now, chain)),
                                   rules.target);
            && (forall i :: 0 <= i < |txs| ==> txs[i].price >= price)
            && (forall id :: id in s.pooled ==> id.tx.price < price)
            && (forall id :: id in after ==> id in s.aside || id.tx.price < price)
  {}

  method SelectAndCheck(vm: VM, pool: Mempool, job: Job, preferred: BlockId, hght: nat, wall: int, vdb: Database)
    returns (r: Result<StatefulBlock, BlockError>, ghost txs: seq<Transaction>, ghost s: Sorting)
    requires vm.Valid() && vm.Buildable(preferred) && preferred.BlockHash? && StateAfter(vm.rules, preferred).Some?
    requires job == JobOn(vm.rules, preferred, job.tmstmp) && job.tmstmp <= wall && hght == preferred.block.hght
    requires vdb.Sound() && vdb.view == job.shown && vdb !in vm.overlays && vdb != vm.db
    requires pool.Valid() && pool.newTxs.Ok() && |pool.maxHeap.lookup.Keys| <= pool.maxSize
    modifies vdb`mem, vdb`view
    modifies pool, pool.maxHeap, pool.minHeap, pool.maxHeap.entries, pool.minHeap.entries, pool.newTxs.arr
    ensures pool.Valid() && pool.newTxs.Ok() && |pool.maxHeap.lookup.Keys| <= pool.maxSize
    ensures Built(job, Pruned(old(pool.maxHeap.lookup.Keys), job), pool.maxHeap.lookup.Keys, txs, s)
    ensures Requeues(old(pool.newTxs.Contents()), pool.newTxs.Contents(), s.aside, pool.maxHeap.lookup.Keys)
    ensures Judged(vm, job, preferred, wall, txs, r)
  {
    var chosen;
    chosen, s := AssembleBeside(vm, pool, job, vdb);
    txs := chosen;
    label Selected:
    r := CheckBuilt(vm, job, preferred, wall, hght, chosen);
    assert unchanged@Selected(pool, pool.maxHeap, pool.minHeap);
    assert unchanged@Selected(pool.maxHeap.entries) && unchanged@Selected(pool.minHeap.entries);
  }

  /** Assembling leaves the tree alone. */
  method AssembleBeside(vm: VM, pool: Mempool, job: Job, vdb: Database)
    returns (txs: seq<Transaction>, ghost s: Sorting)
    requires vm.Valid() && vdb !in vm.overlays && vdb != vm.db
    requires pool.Valid() && pool.newTxs.Ok() && |pool.maxHeap.lookup.Keys| <= pool.maxSize
    requires job.rules == vm.rules && vdb.Sound() && vdb.view == job.shown
    modifies vdb`mem, vdb`view
    modifies pool, pool.maxHeap, pool.minHeap, pool.maxHeap.entries, pool.minHeap.entries, pool.newTxs.arr
    ensures vm.Valid() && pool.Valid() && pool.newTxs.Ok() && |pool.maxHeap.lookup.Keys| <= pool.maxSize
    ensures Built(job, Pruned(old(pool.maxHeap.lookup.Keys), job), pool.maxHeap.lookup.Keys, txs, s)
    ensures Requeues(old(pool.newTxs.Contents()), pool.newTxs.Contents(), s.aside, pool.maxHeap.lookup.Keys)
  {
    txs, s := Assemble(vm, pool, job, vdb);
    assert unchanged(vm, vm.db) && unchanged(vm.nodes) && unchanged(vm.overlays);
  }

  /** BuildBlock at time now; its block is verified at a later time wall.  No transaction is
      lost or invented, and the block is refused only if it would be empty, earlier than
      its parent, or too cheap for its cost; its transactions are then lost to the pool. */
  method BuildBlock(vm: VM, pool: Mempool, preferred: BlockId, now: int, wall: int)
    returns (r: Result<StatefulBlock, BlockError>, ghost txs: seq<Transaction>, ghost s: Sorting)
    requires vm.Valid() && (vm.Known(preferred) ==> vm.Buildable(preferred)) && now <= wall
    requires pool.Valid() && pool.newTxs.Ok() && |pool.maxHeap.lookup.Keys| <= pool.maxSize
    modifies pool, pool.maxHeap, pool.minHeap, pool.maxHeap.entries, pool.minHeap.entries, pool.newTxs.arr
    ensures pool.Valid() && pool.newTxs.Ok() && |pool.maxHeap.lookup.Keys| <= pool.maxSize
    ensures !vm.Known(preferred) ==> r == Err(ErrNoParent) && pool.maxHeap.lookup.Keys == old(pool.maxHeap.lookup.Keys)
                                     && pool.newTxs.Contents() == old(pool.newTxs.Contents())
    ensures vm.Known(preferred) ==> preferred.BlockHash? && StateAfter(vm.rules, preferred).Some?
    ensures vm.Known(preferred) ==>
              var job := JobOn(vm.rules, preferred, now);
              && Built(job, Pruned(old(pool.maxHeap.lookup.Keys), job), pool.maxHeap.lookup.Keys, txs, s)
              && Requeues(old(pool.newTxs.Contents()), pool.newTxs.Contents(), s.aside, pool.maxHeap.lookup.Keys)
              && Judged(vm, job, preferred, wall, txs, r)
  {
    txs, s := [], Sorting({}, {}, {}, {});
    var job, hght, vdb := StartBeside(vm, pool, preferred, now);
    if job.None? {
      return Err(ErrNoParent), txs, s;
    }
    r, txs, s := SelectAndCheck(vm, pool, job.value, preferred, hght, wall, vdb);
  }
}
