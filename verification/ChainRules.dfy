/**
 The rules that tie a block to its ancestors: the replay window of vm/helpers.go, the
 cost and price rules of vm/chain_vm.go and the checks of chain/block.go and chain/tx.go
 that do not look at the state.  A chain is the list of a block's ancestors, genesis
 first; a block id determines it.
 */
module ChainRules {
  import opened ChainTypes

  const MIN_BLOCK_COST: nat := 0

  function ChainOf(id: BlockId): (chain: seq<StatefulBlock>)
    ensures id.BlockHash? ==> |chain| > 0 && chain[|chain| - 1] == id.block
  {
    match id
    case EmptyId => []
    case BlockHash(b) => ChainOf(b.prnt) + [b]
  }

  // ---------- the replay window ----------

  /** The oldest block that looking back from block i visits: the walk goes on while the
      parent is recent enough and stops after a block of height zero. */
  function WindowStart(g: Genesis, now: int, chain: seq<StatefulBlock>, i: nat): (start: nat)
    requires i < |chain|
    ensures start <= i
  {
    if chain[i].hght == 0 || i == 0 || now - chain[i - 1].tmstmp > g.lookbackWindow then i
    else WindowStart(g, now, chain, i - 1)
  }

  function Window(g: Genesis, now: int, chain: seq<StatefulBlock>): seq<StatefulBlock> {
    if chain == [] then [] else chain[WindowStart(g, now, chain, |chain| - 1)..]
  }

  function BlockIds(window: seq<StatefulBlock>): set<BlockId> {
    if window == [] then {} else {window[0].ID()} + BlockIds(window[1..])
  }

  function TxIds(txs: seq<Transaction>): set<TxId> {
    if txs == [] then {} else TxIds(txs[..|txs| - 1]) + {txs[|txs| - 1].ID()}
  }

  function RecentTxIds(window: seq<StatefulBlock>): set<TxId> {
    if window == [] then {} else TxIds(window[0].txs) + RecentTxIds(window[1..])
  }

  function WindowUnits(g: Genesis, window: seq<StatefulBlock>): nat {
    if window == [] then 0 else BlockUnits(g, window[0].txs) + WindowUnits(g, window[1..])
  }

  // ---------- cost and price ----------

  function NextCost(g: Genesis, parent: StatefulBlock, now: int): nat {
    var elapsed := now - parent.tmstmp;
    if !g.blockCostEnabled then parent.cost
    else if elapsed < g.targetBlockRate then parent.cost + (g.targetBlockRate - elapsed)
    else if parent.cost >= MIN_BLOCK_COST && elapsed - g.targetBlockRate < parent.cost - MIN_BLOCK_COST then
      parent.cost - (elapsed - g.targetBlockRate)
    else MIN_BLOCK_COST
  }

  // Go's integer division truncates towards zero.
  function TruncDiv(a: int, b: int): int
    requires b > 0
  {
    if a >= 0 then a / b else -((-a) / b)
  }

  function NextPrice(g: Genesis, parent: StatefulBlock, now: int, units: nat, target: nat): nat {
    if units > target then parent.price + 1
    else if units < target then
      var elapsedWindows := Wrap(TruncDiv(now - parent.tmstmp, g.lookbackWindow) + 1);
      if parent.price >= g.minPrice && elapsedWindows < parent.price - g.minPrice
      then parent.price - elapsedWindows else g.minPrice
    else parent.price
  }

  // ---------- what verification demands of a block ----------

  /** The checks of Transaction.Execute that come before the state is touched. */
  predicate TxOk(g: Genesis, recentBlockIds: set<BlockId>, recentTxIds: set<TxId>, t: Transaction) {
    && t.blockId != EmptyId && t.magic == g.magic && t.price >= g.minPrice
    && t.blockId in recentBlockIds && t.ID() !in recentTxIds
  }

  /** The checks of verify before the transactions run, for a block b on a chain. */
  predicate FieldsOk(g: Genesis, target: nat, chain: seq<StatefulBlock>, b: StatefulBlock)
    requires chain != []
  {
    var parent, window := chain[|chain| - 1], Window(g, b.tmstmp, chain);
    && b.txs != [] && BlockUnits(g, b.txs) <= g.maxBlockSize && b.tmstmp >= parent.tmstmp
    && b.cost == NextCost(g, parent, b.tmstmp)
    && b.price == NextPrice(g, parent, b.tmstmp, WindowUnits(g, window), target)
  }

  /** All checks of verify that do not look at the state. */
  predicate HeaderOk(g: Genesis, target: nat, chain: seq<StatefulBlock>, b: StatefulBlock)
    requires chain != []
  {
    var window := Window(g, b.tmstmp, chain);
    && FieldsOk(g, target, chain, b)
    && forall n :: 0 <= n < |b.txs| ==> TxOk(g, BlockIds(window), RecentTxIds(window), b.txs[n])
  }

  /** Every block of the chain that ends in id, except genesis, passed those checks. */
  ghost predicate Verified(g: Genesis, target: nat, genesis: StatefulBlock, id: BlockId) {
    && id.BlockHash?
    && (id.block == genesis
        || (Verified(g, target, genesis, id.block.prnt) && HeaderOk(g, target, ChainOf(id.block.prnt), id.block)))
  }

  /** What a chain starts from: a block without parent and without transactions. */
  predicate IsGenesis(b: StatefulBlock) {
    b.prnt == EmptyId && b.txs == []
  }

  lemma {:induction false} ChainPrefix(id: BlockId, i: nat)
    requires i < |ChainOf(id)|
    ensures ChainOf(ChainOf(id)[i].ID()) == ChainOf(id)[..i + 1]
    ensures i > 0 ==> ChainOf(id)[i].prnt == ChainOf(id)[i - 1].ID()
  {
    var rest := ChainOf(id.block.prnt);
    assert ChainOf(id) == rest + [id.block];
    if i < |rest| {
      ChainPrefix(id.block.prnt, i);
      assert ChainOf(id)[..i + 1] == rest[..i + 1];
    } else {
      assert ChainOf(id)[..i + 1] == ChainOf(id);
      if i > 0 {
        ChainPrefix(id.block.prnt, i - 1);
      }
    }
  }

  lemma ParentAt(id: BlockId, i: nat)
    requires i < |ChainOf(id)|
    ensures ChainOf(id)[i].prnt == if i == 0 then EmptyId else ChainOf(id)[i - 1].ID()
  {
    ChainPrefix(id, i);
    if i == 0 {
      assert |ChainOf(ChainOf(id)[0].prnt)| == 0;
    }
  }

  /** Every block of a verified chain passed the checks against the blocks before it. */
  lemma {:induction false} VerifiedAt(g: Genesis, target: nat, genesis: StatefulBlock, id: BlockId, i: nat)
    requires IsGenesis(genesis) && Verified(g, target, genesis, id) && i < |ChainOf(id)|
    ensures if i == 0 then ChainOf(id)[0] == genesis
            else HeaderOk(g, target, ChainOf(id)[..i], ChainOf(id)[i])
  {
    var rest := ChainOf(id.block.prnt);
    assert ChainOf(id) == rest + [id.block];
    if i < |rest| {
      VerifiedAt(g, target, genesis, id.block.prnt, i);
      assert ChainOf(id)[..i] == rest[..i];
    } else {
      assert ChainOf(id)[..i] == rest;
      assert id.block == genesis <==> i == 0 by {
        if id.block != genesis {
          assert ChainOf(id.block.prnt) != [];
        }
      }
    }
  }

  function Depth(id: BlockId): nat {
    match id
    case EmptyId => 0
    case BlockHash(b) => 1 + Depth(b.prnt)
  }

  lemma {:induction false} DepthIsLength(id: BlockId)
    ensures |ChainOf(id)| == Depth(id)
  {
    match id
    case EmptyId =>
    case BlockHash(b) => DepthIsLength(b.prnt);
  }

  /** No block occurs twice among its own ancestors. */
  lemma AncestorsDistinct(id: BlockId, i: nat, j: nat)
    requires i < |ChainOf(id)| && j < |ChainOf(id)| && ChainOf(id)[i].ID() == ChainOf(id)[j].ID()
    ensures i == j
  {
    ChainPrefix(id, i);
    ChainPrefix(id, j);
  }

  lemma {:induction false} NamedBlock(window: seq<StatefulBlock>, id: BlockId) returns (k: nat)
    requires id in BlockIds(window)
    ensures k < |window| && window[k].ID() == id
  {
    if window[0].ID() == id {
      k := 0;
    } else {
      k := NamedBlock(window[1..], id);
      k := k + 1;
    }
  }

  lemma {:induction false} WindowShows(window: seq<StatefulBlock>, k: nat)
    requires k < |window|
    ensures TxIds(window[k].txs) <= RecentTxIds(window)
  {
    if k > 0 {
      WindowShows(window[1..], k - 1);
    }
  }

  /** TxIds collects exactly the ids of the listed transactions. */
  lemma {:induction false} TxIdsExact(txs: seq<Transaction>, id: TxId)
    ensures id in TxIds(txs) <==> exists n :: 0 <= n < |txs| && txs[n].ID() == id
  {
    if txs != [] {
      var last := |txs| - 1;
      TxIdsExact(txs[..last], id);
      if n :| 0 <= n < |txs| && txs[n].ID() == id {
        assert n < last ==> txs[..last][n].ID() == id;
      }
    }
  }

  lemma TxChecked(g: Genesis, target: nat, genesis: StatefulBlock, id: BlockId, i: nat, tx: TxId)
    requires IsGenesis(genesis) && Verified(g, target, genesis, id)
    requires i < |ChainOf(id)| && tx in TxIds(ChainOf(id)[i].txs)
    ensures i > 0
    ensures var window := Window(g, ChainOf(id)[i].tmstmp, ChainOf(id)[..i]);
            TxOk(g, BlockIds(window), RecentTxIds(window), tx.tx)
  {
    VerifiedAt(g, target, genesis, id, i);
    TxIdsExact(ChainOf(id)[i].txs, tx);
  }

  /** Where blocks i and j of a chain both see the block called named, j also sees i: the
      window is a run of ancestors. */
  lemma LaterWindowSees(g: Genesis, chain: seq<StatefulBlock>, i: nat, j: nat, named: BlockId)
    requires 0 < i < j < |chain|
    requires forall m, n :: 0 <= m < |chain| && 0 <= n < |chain| && chain[m].ID() == chain[n].ID() ==> m == n
    requires named in BlockIds(Window(g, chain[i].tmstmp, chain[..i]))
    requires named in BlockIds(Window(g, chain[j].tmstmp, chain[..j]))
    ensures TxIds(chain[i].txs) <= RecentTxIds(Window(g, chain[j].tmstmp, chain[..j]))
  {
    var early := Window(g, chain[i].tmstmp, chain[..i]);
    var late := Window(g, chain[j].tmstmp, chain[..j]);
    var k := NamedBlock(early, named);
    var l := NamedBlock(late, named);
    var m := WindowIsSuffix(g, chain[i].tmstmp, chain, i, k);
    var n := WindowIsSuffix(g, chain[j].tmstmp, chain, j, l);
    assert chain[m].ID() == chain[n].ID();
    assert late[l + (i - n)] == chain[i] by {
      var o := WindowIsSuffix(g, chain[j].tmstmp, chain, j, l + (i - n));
    }
    WindowShows(late, l + (i - n));
  }

  /** Block k of the window below block i of a chain is block m of the chain. */
  lemma WindowIsSuffix(g: Genesis, now: int, chain: seq<StatefulBlock>, i: nat, k: nat) returns (m: nat)
    requires i <= |chain| && k < |Window(g, now, chain[..i])|
    ensures m == i - |Window(g, now, chain[..i])| + k < i && Window(g, now, chain[..i])[k] == chain[m]
  {
    m := i - |Window(g, now, chain[..i])| + k;
  }

  /** No transaction occurs in two blocks of one verified chain.  A transaction must name
      a recent block; the window of the later block is a run of ancestors, so if it
      reaches the named block it also contains the earlier use, which is refused. */
  lemma NoReplay(g: Genesis, target: nat, genesis: StatefulBlock, id: BlockId, i: nat, j: nat, tx: TxId)
    requires IsGenesis(genesis) && Verified(g, target, genesis, id)
    requires i < j < |ChainOf(id)| && tx in TxIds(ChainOf(id)[i].txs)
    ensures tx !in TxIds(ChainOf(id)[j].txs)
  {
    if tx in TxIds(ChainOf(id)[j].txs) {
      TxChecked(g, target, genesis, id, i, tx);
      TxChecked(g, target, genesis, id, j, tx);
      forall m, n | 0 <= m < |ChainOf(id)| && 0 <= n < |ChainOf(id)| && ChainOf(id)[m].ID() == ChainOf(id)[n].ID()
        ensures m == n
      {
        AncestorsDistinct(id, m, n);
      }
      LaterWindowSees(g, ChainOf(id), i, j, tx.tx.blockId);
    }
  }

  predicate DistinctTxs(txs: seq<Transaction>) {
    forall m, n :: 0 <= m < n < |txs| ==> txs[m].ID() != txs[n].ID()
  }

  /** Transaction m of block i and transaction n of block j have the same id. */
  predicate SameTx(chain: seq<StatefulBlock>, i: int, m: int, j: int, n: int) {
    && 0 <= i < |chain| && 0 <= m < |chain[i].txs| && 0 <= j < |chain| && 0 <= n < |chain[j].txs|
    && chain[i].txs[m].ID() == chain[j].txs[n].ID()
  }

  /** Whether every transaction occurs once on the whole chain is decided block by block:
      the checks cover ancestors only, so it holds exactly if no single block repeats a
      transaction within itself. */
  lemma OnceOnChainIff(g: Genesis, target: nat, genesis: StatefulBlock, id: BlockId)
    requires IsGenesis(genesis) && Verified(g, target, genesis, id)
    ensures (forall i :: 0 <= i < |ChainOf(id)| ==> DistinctTxs(ChainOf(id)[i].txs)) <==>
            (forall i, m, j, n :: SameTx(ChainOf(id), i, m, j, n) ==> i == j && m == n)
  {
    var chain := ChainOf(id);
    forall i, m, j, n | SameTx(chain, i, m, j, n) ensures i == j {
      TxIdsExact(chain[i].txs, chain[i].txs[m].ID());
      TxIdsExact(chain[j].txs, chain[i].txs[m].ID());
      if i < j {
        NoReplay(g, target, genesis, id, i, j, chain[i].txs[m].ID());
      } else if j < i {
        NoReplay(g, target, genesis, id, j, i, chain[j].txs[n].ID());
      }
    }
    if forall i, m, j, n :: SameTx(chain, i, m, j, n) ==> i == j && m == n {
      forall i, m, n | 0 <= i < |chain| && 0 <= m < n < |chain[i].txs|
        ensures chain[i].txs[m].ID() != chain[i].txs[n].ID()
      {
        assert !SameTx(chain, i, m, i, n);
      }
    }
  }

  /** The block with one of its transactions once more. */
  function Repeated(b: StatefulBlock, t: Transaction): StatefulBlock {
    b.(txs := b.txs + [t])
  }

  /** That condition is not enforced: a block that passes the checks also passes them with
      any of its transactions repeated, exactly if the copy fits. */
  lemma RepeatPasses(g: Genesis, target: nat, chain: seq<StatefulBlock>, b: StatefulBlock, t: Transaction)
    requires chain != [] && t in b.txs && HeaderOk(g, target, chain, b)
    ensures HeaderOk(g, target, chain, Repeated(b, t)) <==> BlockUnits(g, b.txs) + t.LoadUnits(g) <= g.maxBlockSize
    ensures !DistinctTxs(Repeated(b, t).txs)
  {}

  // ---------- what is recent ----------

  predicate Later(chain: seq<StatefulBlock>, n: nat)
    requires 0 < n < |chain|
  {
    chain[n].tmstmp >= chain[n - 1].tmstmp
  }

  predicate TimesRise(chain: seq<StatefulBlock>) {
    forall n {:trigger Later(chain, n)} :: 0 < n < |chain| ==> Later(chain, n)
  }

  lemma TimesRiseBefore(chain: seq<StatefulBlock>, n: nat)
    requires n <= |chain| && TimesRise(chain)
    ensures TimesRise(chain[..n])
  {
    forall k | 0 < k < n ensures Later(chain[..n], k) {
      assert Later(chain, k);
    }
  }

  lemma VerifiedTimesRise(g: Genesis, target: nat, genesis: StatefulBlock, id: BlockId)
    requires IsGenesis(genesis) && Verified(g, target, genesis, id)
    ensures TimesRise(ChainOf(id))
  {
    forall n | 0 < n < |ChainOf(id)| ensures Later(ChainOf(id), n) {
      VerifiedAt(g, target, genesis, id, n);
    }
  }

  /** Block m is the last one or no older than the window, and no block above it has height
      zero. */
  predicate Recent(g: Genesis, now: int, chain: seq<StatefulBlock>, m: nat)
    requires m < |chain|
  {
    && (m == |chain| - 1 || now - chain[m].tmstmp <= g.lookbackWindow)
    && forall j :: m < j < |chain| ==> chain[j].hght != 0
  }

  lemma {:induction false} WindowReaches(g: Genesis, now: int, chain: seq<StatefulBlock>, i: nat, m: nat)
    requires m <= i < |chain| && TimesRise(chain)
    ensures WindowStart(g, now, chain, i) <= m <==>
            (m == i || now - chain[m].tmstmp <= g.lookbackWindow) && forall j :: m < j <= i ==> chain[j].hght != 0
  {
    if m < i {
      WindowReaches(g, now, chain, i - 1, m);
      TimesRiseTo(chain, m, i - 1);
    }
  }

  lemma {:induction false} TimesRiseTo(chain: seq<StatefulBlock>, m: nat, n: nat)
    requires m <= n < |chain| && TimesRise(chain)
    ensures chain[m].tmstmp <= chain[n].tmstmp
    decreases n
  {
    if m < n {
      TimesRiseTo(chain, m, n - 1);
      assert Later(chain, n);
    }
  }

  /** The window holds exactly the recent blocks. */
  lemma WindowIsRecent(g: Genesis, now: int, chain: seq<StatefulBlock>, m: nat)
    requires m < |chain| && TimesRise(chain)
    ensures |Window(g, now, chain)| <= |chain|
    ensures m >= |chain| - |Window(g, now, chain)| <==> Recent(g, now, chain, m)
  {
    WindowReaches(g, now, chain, |chain| - 1, m);
  }

  lemma {:induction false} BlockIdsExact(window: seq<StatefulBlock>, id: BlockId)
    ensures id in BlockIds(window) <==> exists k :: 0 <= k < |window| && window[k].ID() == id
  {
    if window != [] {
      BlockIdsExact(window[1..], id);
      if k :| 0 <= k < |window| && window[k].ID() == id {
        assert k > 0 ==> window[1..][k - 1].ID() == id;
      }
    }
  }

  lemma {:induction false} RecentTxIdsExact(window: seq<StatefulBlock>, tx: TxId)
    ensures tx in RecentTxIds(window) <==> exists k :: 0 <= k < |window| && tx in TxIds(window[k].txs)
  {
    if window != [] {
      RecentTxIdsExact(window[1..], tx);
      if k :| 0 <= k < |window| && tx in TxIds(window[k].txs) {
        assert k > 0 ==> tx in TxIds(window[1..][k - 1].txs);
      }
    }
  }

  /** A transaction may go into a block on the chain exactly if it has the chain's magic
      number, pays the minimum price, names a recent block and is in no recent block. */
  predicate MayGoOn(g: Genesis, now: int, chain: seq<StatefulBlock>, t: Transaction) {
    && t.magic == g.magic && t.price >= g.minPrice
    && (exists m :: 0 <= m < |chain| && chain[m].ID() == t.blockId && Recent(g, now, chain, m))
    && (forall m :: 0 <= m < |chain| && Recent(g, now, chain, m) ==> t !in chain[m].txs)
  }

  lemma NamesRecent(g: Genesis, now: int, chain: seq<StatefulBlock>, id: BlockId)
    requires chain != [] && TimesRise(chain)
    ensures id in BlockIds(Window(g, now, chain)) <==>
            exists m :: 0 <= m < |chain| && chain[m].ID() == id && Recent(g, now, chain, m)
  {
    var window := Window(g, now, chain);
    forall m | 0 <= m < |chain| ensures m >= |chain| - |window| <==> Recent(g, now, chain, m) {
      WindowIsRecent(g, now, chain, m);
    }
    assert forall k :: 0 <= k < |window| ==> window[k] == chain[|chain| - |window| + k];
    BlockIdsExact(window, id);
  }

  lemma SeenRecently(g: Genesis, now: int, chain: seq<StatefulBlock>, tx: TxId)
    requires chain != [] && TimesRise(chain)
    ensures tx in RecentTxIds(Window(g, now, chain)) <==>
            exists m :: 0 <= m < |chain| && Recent(g, now, chain, m) && tx in TxIds(chain[m].txs)
  {
    var window := Window(g, now, chain);
    forall m | 0 <= m < |chain| ensures m >= |chain| - |window| <==> Recent(g, now, chain, m) {
      WindowIsRecent(g, now, chain, m);
    }
    assert forall k :: 0 <= k < |window| ==> window[k] == chain[|chain| - |window| + k];
    RecentTxIdsExact(window, tx);
  }

  lemma TxOkIff(g: Genesis, now: int, chain: seq<StatefulBlock>, t: Transaction)
    requires chain != [] && TimesRise(chain)
    ensures TxOk(g, BlockIds(Window(g, now, chain)), RecentTxIds(Window(g, now, chain)), t) <==>
            MayGoOn(g, now, chain, t)
  {
    NamesRecent(g, now, chain, t.blockId);
    SeenRecently(g, now, chain, t.ID());
    forall m | 0 <= m < |chain| ensures t.ID() in TxIds(chain[m].txs) <==> t in chain[m].txs {
      TxIdsExact(chain[m].txs, t.ID());
    }
  }

  /** So is every transaction of a verified chain, for the blocks before its own. */
  lemma TxsMayGoOn(g: Genesis, target: nat, genesis: StatefulBlock, id: BlockId, i: nat, n: nat)
    requires IsGenesis(genesis) && Verified(g, target, genesis, id)
    requires i < |ChainOf(id)| && n < |ChainOf(id)[i].txs|
    ensures i > 0 && MayGoOn(g, ChainOf(id)[i].tmstmp, ChainOf(id)[..i], ChainOf(id)[i].txs[n])
  {
    VerifiedAt(g, target, genesis, id, i);
    VerifiedTimesRise(g, target, genesis, id);
    TimesRiseBefore(ChainOf(id), i);
    TxOkIff(g, ChainOf(id)[i].tmstmp, ChainOf(id)[..i], ChainOf(id)[i].txs[n]);
  }

  // ---------- the cost of a block in closed form ----------

  /** By how much blocks j+1 to n came faster than one in every T seconds. */
  function Rush(chain: seq<StatefulBlock>, T: int, j: nat, n: nat): int
    requires j <= n < |chain|
  {
    (n - j) * T - (chain[n].tmstmp - chain[j].tmstmp)
  }

  lemma RushStep(chain: seq<StatefulBlock>, T: int, k: nat, n: nat)
    requires k < n < |chain|
    ensures Rush(chain, T, k, n) == Rush(chain, T, k, n - 1) + T - (chain[n].tmstmp - chain[n - 1].tmstmp)
  {
    assert (n - k) * T == (n - 1 - k) * T + T;
  }

  /** The cost rule on neighbouring blocks. */
  predicate CostFollows(chain: seq<StatefulBlock>, T: int, n: nat)
    requires 0 < n < |chain|
  {
    var c := chain[n - 1].cost + T - (chain[n].tmstmp - chain[n - 1].tmstmp);
    chain[n].cost == if c > 0 then c else 0
  }

  lemma {:induction false} LargestRush(chain: seq<StatefulBlock>, T: int, n: nat) returns (j: nat)
    requires n < |chain| && chain[0].cost == 0 && forall k :: 0 < k <= n ==> CostFollows(chain, T, k)
    ensures j <= n && chain[n].cost == Rush(chain, T, j, n)
    ensures forall k :: 0 <= k <= n ==> Rush(chain, T, k, n) <= chain[n].cost
  {
    j := n;
    if n > 0 {
      var before := LargestRush(chain, T, n - 1);
      forall k | 0 <= k < n
        ensures Rush(chain, T, k, n) == Rush(chain, T, k, n - 1) + T - (chain[n].tmstmp - chain[n - 1].tmstmp)
      {
        RushStep(chain, T, k, n);
      }
      assert CostFollows(chain, T, n);
      if chain[n].cost > 0 {
        j := before;
      }
    }
  }

  /** The cost of block n is the largest Rush of any run of blocks that ends in n: blocks
      that come faster than the target rate pile up cost, slower ones wear it off. */
  lemma CostIsLargestRush(g: Genesis, target: nat, genesis: StatefulBlock, id: BlockId, n: nat) returns (j: nat)
    requires IsGenesis(genesis) && genesis.cost == MIN_BLOCK_COST && Verified(g, target, genesis, id)
    requires g.blockCostEnabled && n < |ChainOf(id)|
    ensures j <= n && ChainOf(id)[n].cost == Rush(ChainOf(id), g.targetBlockRate, j, n)
    ensures forall k :: 0 <= k <= n ==> Rush(ChainOf(id), g.targetBlockRate, k, n) <= ChainOf(id)[n].cost
  {
    forall k | 0 < k <= n ensures CostFollows(ChainOf(id), g.targetBlockRate, k) {
      VerifiedAt(g, target, genesis, id, k);
    }
    VerifiedAt(g, target, genesis, id, 0);
    j := LargestRush(ChainOf(id), g.targetBlockRate, n);
  }

  /** Any k blocks produced in s seconds force the last one to cost at least k*T - s. */
  lemma RushForcesCost(g: Genesis, target: nat, genesis: StatefulBlock, id: BlockId, n: nat, k: nat)
    requires IsGenesis(genesis) && genesis.cost == MIN_BLOCK_COST && Verified(g, target, genesis, id)
    requires g.blockCostEnabled && k <= n < |ChainOf(id)|
    ensures ChainOf(id)[n].cost >= k * g.targetBlockRate - (ChainOf(id)[n].tmstmp - ChainOf(id)[n - k].tmstmp)
  {
    var _ := CostIsLargestRush(g, target, genesis, id, n);
    assert Rush(ChainOf(id), g.targetBlockRate, n - k, n) <= ChainOf(id)[n].cost;
  }

  /** Without block costs every block has the cost of genesis. */
  lemma {:induction false} CostIsFixed(g: Genesis, target: nat, genesis: StatefulBlock, id: BlockId, n: nat)
    requires IsGenesis(genesis) && Verified(g, target, genesis, id) && !g.blockCostEnabled && n < |ChainOf(id)|
    ensures ChainOf(id)[n].cost == genesis.cost
  {
    VerifiedAt(g, target, genesis, id, n);
    if n > 0 {
      CostIsFixed(g, target, genesis, id, n - 1);
      assert ChainOf(id)[..n][n - 1] == ChainOf(id)[n - 1];
    }
  }

  /** Every block above genesis has transactions, which fit, and is no earlier than its parent. */
  lemma BlocksFit(g: Genesis, target: nat, genesis: StatefulBlock, id: BlockId, n: nat)
    requires IsGenesis(genesis) && Verified(g, target, genesis, id) && 0 < n < |ChainOf(id)|
    ensures ChainOf(id)[n].txs != [] && BlockUnits(g, ChainOf(id)[n].txs) <= g.maxBlockSize
    ensures ChainOf(id)[n - 1].tmstmp <= ChainOf(id)[n].tmstmp
  {
    VerifiedAt(g, target, genesis, id, n);
  }

  lemma PriceStep(g: Genesis, parent: StatefulBlock, now: int, units: nat, target: nat)
    requires parent.price >= g.minPrice
    ensures var next := NextPrice(g, parent, now, units, target);
            && g.minPrice <= next <= parent.price + 1
            && (next > parent.price <==> units > target) && (next < parent.price ==> units < target)
  {}

  /** The price never falls below its minimum and never rises by more than one a block;
      it rises only after a busy window and falls only after a quiet one. */
  lemma {:induction false} PriceStaysAboveMinimum(g: Genesis, target: nat, genesis: StatefulBlock, id: BlockId, n: nat)
    requires IsGenesis(genesis) && genesis.price == g.minPrice && Verified(g, target, genesis, id)
    requires n < |ChainOf(id)|
    ensures g.minPrice <= ChainOf(id)[n].price <= g.minPrice + n
    ensures n > 0 ==>
      var units := WindowUnits(g, Window(g, ChainOf(id)[n].tmstmp, ChainOf(id)[..n]));
      (ChainOf(id)[n].price > ChainOf(id)[n - 1].price <==> units > target)
      && (ChainOf(id)[n].price < ChainOf(id)[n - 1].price ==> units < target)
  {
    VerifiedAt(g, target, genesis, id, n);
    if n > 0 {
      PriceStaysAboveMinimum(g, target, genesis, id, n - 1);
      var units := WindowUnits(g, Window(g, ChainOf(id)[n].tmstmp, ChainOf(id)[..n]));
      PriceStep(g, ChainOf(id)[n - 1], ChainOf(id)[n].tmstmp, units, target);
      assert ChainOf(id)[..n][n - 1] == ChainOf(id)[n - 1];
    }
  }

  // ---------- the price of a block in closed form ----------

  function Max(a: int, b: int): int { if a > b then a else b }

  /** How many whole windows fit into some seconds. */
  function WholeWindows(g: Genesis, secs: nat): (n: nat)
    ensures n * g.lookbackWindow <= secs < (n + 1) * g.lookbackWindow
  {
    secs / g.lookbackWindow
  }

  lemma QuotientIs(a: nat, b: nat, q: nat)
    requires q * b <= a < (q + 1) * b
    ensures a / b == q
  {
    Larger(a / b, q, b);
    Larger(q, a / b, b);
  }

  lemma Larger(x: nat, y: nat, b: nat)
    ensures x < y ==> (x + 1) * b <= y * b
  {
    if x < y {
      assert y * b == (x + 1) * b + (y - x - 1) * b;
    }
  }

  /** After a quiet window the price falls by one more than the whole windows since the
      parent, but not below its minimum. */
  lemma PriceFall(g: Genesis, parent: StatefulBlock, now: int, units: nat, target: nat, windows: nat)
    requires units < target && parent.price >= g.minPrice
    requires windows * g.lookbackWindow <= now - parent.tmstmp < (windows + 1) * g.lookbackWindow
    ensures NextPrice(g, parent, now, units, target) == Max(g.minPrice, parent.price - Wrap(windows + 1))
  {
    QuotientIs(now - parent.tmstmp, g.lookbackWindow, windows);
  }

  /** The load of the recent ones of the first m blocks. */
  function RecentLoad(g: Genesis, now: int, chain: seq<StatefulBlock>, m: nat): nat
    requires m <= |chain|
  {
    if m == 0 then 0
    else
      RecentLoad(g, now, chain, m - 1) + if Recent(g, now, chain, m - 1) then BlockUnits(g, chain[m - 1].txs) else 0
  }

  lemma {:induction false} WindowUnitsSnoc(g: Genesis, window: seq<StatefulBlock>, b: StatefulBlock)
    ensures WindowUnits(g, window + [b]) == WindowUnits(g, window) + BlockUnits(g, b.txs)
  {
    if window == [] {
      assert ([] + [b])[1..] == [];
    } else {
      WindowUnitsSnoc(g, window[1..], b);
      assert (window + [b])[1..] == window[1..] + [b];
    }
  }

  lemma {:induction false} LoadFromStart(g: Genesis, now: int, chain: seq<StatefulBlock>, start: nat, m: nat)
    requires m <= |chain| && start <= |chain|
    requires forall k :: 0 <= k < |chain| ==> (k >= start <==> Recent(g, now, chain, k))
    ensures RecentLoad(g, now, chain, m) == if m <= start then 0 else WindowUnits(g, chain[start..m])
  {
    if m > 0 {
      LoadFromStart(g, now, chain, start, m - 1);
      if m > start {
        WindowUnitsSnoc(g, chain[start..m - 1], chain[m - 1]);
        assert chain[start..m] == chain[start..m - 1] + [chain[m - 1]];
      }
    }
  }

  /** The load of the window is that of the recent blocks. */
  lemma WindowUnitsAreRecent(g: Genesis, now: int, chain: seq<StatefulBlock>)
    requires chain != [] && TimesRise(chain)
    ensures WindowUnits(g, Window(g, now, chain)) == RecentLoad(g, now, chain, |chain|)
  {
    var start := |chain| - |Window(g, now, chain)|;
    forall k | 0 <= k < |chain| ensures k >= start <==> Recent(g, now, chain, k) {
      WindowIsRecent(g, now, chain, k);
    }
    LoadFromStart(g, now, chain, start, |chain|);
    assert chain[start..|chain|] == Window(g, now, chain);
  }

  /** The load of the blocks that block n looks back on. */
  function RecentUnits(g: Genesis, chain: seq<StatefulBlock>, n: nat): nat
    requires n < |chain|
  {
    RecentLoad(g, chain[n].tmstmp, chain[..n], n)
  }

  /** One more than the whole windows between block n and its parent. */
  function Fall(g: Genesis, chain: seq<StatefulBlock>, n: nat): UInt64
    requires 0 < n < |chain| && Later(chain, n)
  {
    Wrap(WholeWindows(g, chain[n].tmstmp - chain[n - 1].tmstmp) + 1)
  }

  /** What block n would change the price by if there were no minimum. */
  function Drift(g: Genesis, target: nat, chain: seq<StatefulBlock>, n: nat): int
    requires 0 < n < |chain| && Later(chain, n)
  {
    if RecentUnits(g, chain, n) > target then 1
    else if RecentUnits(g, chain, n) == target then 0
    else 0 - Fall(g, chain, n)
  }

  function Drifts(g: Genesis, target: nat, chain: seq<StatefulBlock>, j: nat, n: nat): int
    requires j <= n < |chain| && TimesRise(chain)
  {
    if j == n then 0
    else
      assert Later(chain, n);
      Drifts(g, target, chain, j, n - 1) + Drift(g, target, chain, n)
  }

  /** The price rule on neighbouring blocks. */
  predicate PriceFollows(g: Genesis, target: nat, chain: seq<StatefulBlock>, n: nat)
    requires 0 < n < |chain| && TimesRise(chain)
  {
    assert Later(chain, n);
    chain[n].price == Max(g.minPrice, chain[n - 1].price + Drift(g, target, chain, n))
  }

  lemma PriceFollowsAt(g: Genesis, target: nat, chain: seq<StatefulBlock>, n: nat)
    requires 0 < n < |chain| && TimesRise(chain) && chain[n - 1].price >= g.minPrice
    requires chain[n].price == NextPrice(g, chain[n - 1], chain[n].tmstmp,
                                         WindowUnits(g, Window(g, chain[n].tmstmp, chain[..n])), target)
    ensures PriceFollows(g, target, chain, n)
  {
    TimesRiseBefore(chain, n);
    WindowUnitsAreRecent(g, chain[n].tmstmp, chain[..n]);
    assert Later(chain, n);
    if RecentUnits(g, chain, n) < target {
      PriceFall(g, chain[n - 1], chain[n].tmstmp, RecentUnits(g, chain, n), target,
                WholeWindows(g, chain[n].tmstmp - chain[n - 1].tmstmp));
    }
  }

  lemma PricesFollow(g: Genesis, target: nat, genesis: StatefulBlock, id: BlockId)
    requires IsGenesis(genesis) && genesis.price == g.minPrice && Verified(g, target, genesis, id)
    ensures TimesRise(ChainOf(id)) && ChainOf(id)[0].price == g.minPrice
    ensures forall n :: 0 < n < |ChainOf(id)| ==> PriceFollows(g, target, ChainOf(id), n)
  {
    VerifiedTimesRise(g, target, genesis, id);
    VerifiedAt(g, target, genesis, id, 0);
    forall n | 0 < n < |ChainOf(id)| ensures PriceFollows(g, target, ChainOf(id), n) {
      VerifiedAt(g, target, genesis, id, n);
      PriceStaysAboveMinimum(g, target, genesis, id, n - 1);
      PriceFollowsAt(g, target, ChainOf(id), n);
    }
  }

  lemma {:induction false} LargestDrift(g: Genesis, target: nat, chain: seq<StatefulBlock>, n: nat) returns (j: nat)
    requires n < |chain| && TimesRise(chain) && chain[0].price == g.minPrice
    requires forall k :: 0 < k <= n ==> PriceFollows(g, target, chain, k)
    ensures j <= n && chain[n].price == g.minPrice + Drifts(g, target, chain, j, n)
    ensures forall k :: 0 <= k <= n ==> g.minPrice + Drifts(g, target, chain, k, n) <= chain[n].price
  {
    j := n;
    if n > 0 {
      var before := LargestDrift(g, target, chain, n - 1);
      assert PriceFollows(g, target, chain, n);
      if chain[n].price > g.minPrice {
        j := before;
      }
    }
  }

  /** The price of block n exceeds the minimum by the largest drift of any run of blocks that
      ends in n. */
  lemma PriceIsLargestDrift(g: Genesis, target: nat, genesis: StatefulBlock, id: BlockId, n: nat) returns (j: nat)
    requires IsGenesis(genesis) && genesis.price == g.minPrice && Verified(g, target, genesis, id)
    requires n < |ChainOf(id)|
    ensures TimesRise(ChainOf(id)) && j <= n
    ensures ChainOf(id)[n].price == g.minPrice + Drifts(g, target, ChainOf(id), j, n)
    ensures forall k :: 0 <= k <= n ==> g.minPrice + Drifts(g, target, ChainOf(id), k, n) <= ChainOf(id)[n].price
  {
    PricesFollow(g, target, genesis, id);
    j := LargestDrift(g, target, ChainOf(id), n);
  }

  /** The falls from block j to block n if they all look back on quiet windows. */
  function Falls(g: Genesis, chain: seq<StatefulBlock>, j: nat, n: nat): nat
    requires j <= n < |chain| && TimesRise(chain)
  {
    if j == n then 0
    else
      assert Later(chain, n);
      Falls(g, chain, j, n - 1) + Fall(g, chain, n)
  }

  /** Blocks j + 1 to n look back on quiet windows. */
  predicate Quiet(g: Genesis, target: nat, chain: seq<StatefulBlock>, j: nat, n: nat) {
    j <= n < |chain| && forall k :: j < k <= n ==> RecentUnits(g, chain, k) < target
  }

  lemma {:induction false} QuietFalls(g: Genesis, target: nat, chain: seq<StatefulBlock>, j: nat, n: nat)
    requires Quiet(g, target, chain, j, n) && TimesRise(chain) && chain[j].price >= g.minPrice
    requires forall k :: j < k <= n ==> PriceFollows(g, target, chain, k)
    ensures chain[n].price == Max(g.minPrice, chain[j].price - Falls(g, chain, j, n))
    decreases n
  {
    if j < n {
      QuietFalls(g, target, chain, j, n - 1);
      assert PriceFollows(g, target, chain, n) && RecentUnits(g, chain, n) < target;
    }
  }

  /** After a run of blocks that look back on quiet windows the price is what it was less the
      falls, or its minimum. */
  lemma QuietRunLowersPrice(g: Genesis, target: nat, genesis: StatefulBlock, id: BlockId, j: nat, n: nat)
    requires IsGenesis(genesis) && genesis.price == g.minPrice && Verified(g, target, genesis, id)
    requires Quiet(g, target, ChainOf(id), j, n)
    ensures TimesRise(ChainOf(id))
    ensures ChainOf(id)[n].price == Max(g.minPrice, ChainOf(id)[j].price - Falls(g, ChainOf(id), j, n))
  {
    PricesFollow(g, target, genesis, id);
    assert j > 0 ==> PriceFollows(g, target, ChainOf(id), j);
    QuietFalls(g, target, ChainOf(id), j, n);
  }
}
