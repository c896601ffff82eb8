/**
 The tree of processing blocks of chain/block.go and vm/chain_vm.go: Verify stacks an
 overlay on the parent's, Accept commits an overlay and puts the children's overlays on
 the committed database, Reject forgets a block.
 */
module BlockTree {
  import opened ChainTypes
  import opened ChainRules
  import opened VersionDb
  import opened Replay

  const FUTURE_BOUND: int := 10

  datatype Status = Processing | Accepted | Rejected

  datatype BlockError =
    | ErrNoTxs | ErrTimestampTooLate | ErrBlockTooBig | ErrNoParent | ErrTimestampTooEarly
    | ErrInvalidCost | ErrInvalidPrice | ErrParentBlockNotVerified | ErrInvalidAccessProof
    | ErrInvalidBlockID | ErrInvalidMagic | ErrDuplicateTx | ErrExecution | ErrInsufficientSurplus

  /** What consensus asks of the VM, one step at a time. */
  datatype Step = VerifyStep(block: StatefulBlock, wall: int) | AcceptStep(id: BlockId) | RejectStep(id: BlockId)

  /** What ExecutionContext hands to verification. */
  datatype Context = Context(
    recentBlockIds: set<BlockId>, recentTxIds: set<TxId>, recentUnits: nat,
    prices: seq<nat>, costs: seq<nat>, nextPrice: nat, nextCost: nat)

  class StatelessBlock {
    const blk: StatefulBlock
    var st: Status
    var children: seq<StatelessBlock>
    var onAcceptDB: Database?

    constructor (blk: StatefulBlock, st: Status)
      ensures this.blk == blk && this.st == st && children == [] && onAcceptDB == null
    {
      this.blk, this.st := blk, st;
      children, onAcceptDB := [], null;
    }
  }

  function PricesBackwards(window: seq<StatefulBlock>): seq<nat> {
    if window == [] then [] else PricesBackwards(window[1..]) + [window[0].price]
  }

  function CostsBackwards(window: seq<StatefulBlock>): seq<nat> {
    if window == [] then [] else CostsBackwards(window[1..]) + [window[0].cost]
  }

  /** Prices and costs of the window, newest block first. */
  lemma {:induction false} ListedBackwards(window: seq<StatefulBlock>, k: nat)
    requires k < |window|
    ensures |PricesBackwards(window)| == |window| == |CostsBackwards(window)|
    ensures PricesBackwards(window)[k] == window[|window| - 1 - k].price
    ensures CostsBackwards(window)[k] == window[|window| - 1 - k].cost
  {
    if |window| > 1 {
      ListedBackwards(window[1..], if k < |window| - 1 then k else 0);
    }
  }

  /** What a block time and the chain below it determine. */
  function ContextOf(rules: Rules, now: int, chain: seq<StatefulBlock>): Context
    requires chain != []
  {
    var window, parent := Window(rules.g, now, chain), chain[|chain| - 1];
    var units := WindowUnits(rules.g, window);
    Context(BlockIds(window), RecentTxIds(window), units, PricesBackwards(window), CostsBackwards(window),
            NextPrice(rules.g, parent, now, units, rules.target), NextCost(rules.g, parent, now))
  }

  /** The blocks from the newest one down to position start. */
  ghost predicate Backwards(visited: seq<StatefulBlock>, chain: seq<StatefulBlock>, start: nat)
    requires start <= |chain|
  {
    |visited| == |chain| - start && forall k :: 0 <= k < |visited| ==> visited[k] == chain[|chain| - 1 - k]
  }

  lemma NextVisited(visited: seq<StatefulBlock>, chain: seq<StatefulBlock>, i: nat)
    requires i < |chain| && Backwards(visited, chain, i + 1)
    ensures Backwards(visited + [chain[i]], chain, i)
  {}

  /** The walk from the newest block reaches block i and may go on from there. */
  ghost predicate WalkedTo(g: Genesis, now: int, chain: seq<StatefulBlock>, i: nat)
    requires i < |chain|
  {
    chain[i].hght != 0 && WindowStart(g, now, chain, i) == WindowStart(g, now, chain, |chain| - 1)
  }

  lemma WalkOn(g: Genesis, now: int, chain: seq<StatefulBlock>, i: nat)
    requires i < |chain| && chain[i].hght != 0
    requires i < |chain| - 1 ==> WalkedTo(g, now, chain, i + 1) && now - chain[i].tmstmp <= g.lookbackWindow
    ensures WalkedTo(g, now, chain, i)
  {}

  lemma WindowIs(g: Genesis, now: int, chain: seq<StatefulBlock>, s: nat)
    requires s < |chain| && WindowStart(g, now, chain, s) == WindowStart(g, now, chain, |chain| - 1)
    requires chain[s].hght == 0 || s == 0 || now - chain[s - 1].tmstmp > g.lookbackWindow
    ensures WindowStart(g, now, chain, |chain| - 1) == s
  {}

  lemma {:induction false} MoreTxsMoreUnits(g: Genesis, txs: seq<Transaction>, n: nat)
    requires n <= |txs|
    ensures BlockUnits(g, txs[..n]) <= BlockUnits(g, txs)
  {
    if n < |txs| {
      MoreTxsMoreUnits(g, txs[..|txs| - 1], n);
      assert txs[..|txs| - 1][..n] == txs[..n];
    } else {
      assert txs[..n] == txs;
    }
  }

  /** The first n transactions of a block have been executed without failure. */
  ghost predicate ExecutedUpTo(rules: Rules, context: Context, shown: View, b: StatefulBlock, n: nat, after: View,
                               surplusFee: nat)
    requires n <= |b.txs|
  {
    && (forall k {:trigger b.txs[k]} :: 0 <= k < n ==>
          TxOk(rules.g, context.recentBlockIds, context.recentTxIds, b.txs[k]))
    && RunTxs(rules, shown, b.tmstmp, b.txs[..n]) == Some(after)
    && surplusFee == SurplusFee(rules.g, b.price, b.txs[..n])
  }

  lemma ExecutedNext(rules: Rules, context: Context, shown: View, b: StatefulBlock, n: nat, after: View,
                     surplusFee: nat)
    requires n < |b.txs| && ExecutedUpTo(rules, context, shown, b, n, after, surplusFee)
    ensures var t, r := b.txs[n], rules.exec(after, b.tmstmp, b.txs[n]);
            if TxOk(rules.g, context.recentBlockIds, context.recentTxIds, t) && r.ok then
              ExecutedUpTo(rules, context, shown, b, n + 1, Apply(after, r.writes),
                           Wrap(surplusFee + Wrap(Wrap(t.price - b.price) * t.LoadUnits(rules.g))))
            else
              !TxOk(rules.g, context.recentBlockIds, context.recentTxIds, t)
              || RunTxs(rules, shown, b.tmstmp, b.txs).None?
  {
    assert b.txs[..n + 1][..n] == b.txs[..n];
    if RunTxs(rules, shown, b.tmstmp, b.txs).Some? {
      RunTxsPrefix(rules, shown, b.tmstmp, b.txs, n + 1);
    }
  }

  /** A database with the genesis allocation and the genesis block. */
  method GenesisDisk(rules: Rules) returns (disk: Database)
    ensures fresh(disk) && disk.Sound() && disk.base == null && disk.rank == 0 && disk.view == rules.GenesisState()
  {
    disk := new Database(null, 0, EmptyId);
    disk.Write(map k | k in rules.allocation :: Some(rules.allocation[k]));
    assert disk.view == rules.allocation;
    disk.Write(StoreBlock(rules.genesis));
  }

  /** What is left of the tree when overlays and block objects are forgotten. */
  datatype Tree = Tree(accepted: set<BlockId>, processing: set<BlockId>, last: BlockId) {
    predicate Known(id: BlockId) {
      id in accepted || id in processing
    }

    predicate Live(id: BlockId) {
      id in processing && last in Ancestors(id)
    }

    predicate Buildable(id: BlockId) {
      id == last || (Live(id) && id.block.hght != 0)
    }

    /** Whether consensus may take the step: it verifies new blocks on buildable parents,
        accepts children of the last accepted block and rejects blocks that conflict with
        an accepted one. */
    predicate Allowed(step: Step) {
      match step
      case VerifyStep(block, wall) => !Known(block.ID()) && (Known(block.prnt) ==> Buildable(block.prnt))
      case AcceptStep(id) => id in processing && id.BlockHash? && id.block.prnt == last
      case RejectStep(id) => id in processing && !Live(id)
    }
  }

  /** What a block must satisfy to be verified at wall clock time wall: that it is timely, on
      a known parent and follows the rules, and that it runs on the replay of its ancestors. */
  ghost predicate AcceptableIn(rules: Rules, tree: Tree, b: StatefulBlock, wall: int) {
    && b.tmstmp < wall + FUTURE_BOUND && tree.Known(b.prnt) && ChainOf(b.prnt) != []
    && HeaderOk(rules.g, rules.target, ChainOf(b.prnt), b)
    && StateAfter(rules, b.prnt).Some? && BodyOk(rules, StateAfter(rules, b.prnt).value, b)
  }

  /** The tree after a step; steps that are not allowed are skipped. */
  ghost function NextTree(rules: Rules, tree: Tree, step: Step): Tree {
    if !tree.Allowed(step) then tree
    else
      match step
      case VerifyStep(block, wall) =>
        if AcceptableIn(rules, tree, block, wall) then tree.(processing := tree.processing + {block.ID()}) else tree
      case AcceptStep(id) => Tree(tree.accepted + {id}, tree.processing - {id}, id)
      case RejectStep(id) => tree.(processing := tree.processing - {id})
  }

  ghost function AfterSteps(rules: Rules, tree: Tree, steps: seq<Step>): Tree {
    if steps == [] then tree
    else NextTree(rules, AfterSteps(rules, tree, steps[..|steps| - 1]), steps[|steps| - 1])
  }

  class VM {
    const rules: Rules
    const db: Database
    var blocks: map<BlockId, StatelessBlock>          // accepted
    var verifiedBlocks: map<BlockId, StatelessBlock>  // processing
    var lastAccepted: StatelessBlock
    ghost var nodes: set<StatelessBlock>
    ghost var overlays: set<Database>

    constructor (rules: Rules)
      requires IsGenesis(rules.genesis) && rules.genesis.hght == 0
      ensures Valid() && this.rules == rules && lastAccepted.blk == rules.genesis && verifiedBlocks == map[]
      ensures fresh(nodes) && fresh(overlays) && fresh(db)
    {
      var genesisBlk := new StatelessBlock(rules.genesis, Accepted);
      var disk := GenesisDisk(rules);
      this.rules, db := rules, disk;
      blocks := map[rules.genesis.ID() := genesisBlk];
      verifiedBlocks := map[];
      lastAccepted := genesisBlk;
      nodes, overlays := {genesisBlk}, {};
      assert Ancestors(rules.genesis.ID()) == {rules.genesis.ID()};
    }

    predicate Known(id: BlockId)
      reads this
    {
      id in blocks || id in verifiedBlocks
    }

    /** The id of a processing block that descends from the last accepted block: the only
        kind that consensus still builds on or may accept. */
    predicate Live(id: BlockId)
      reads this
    {
      id in verifiedBlocks && lastAccepted.blk.ID() in Ancestors(id)
    }

    /** The accepted chain and the live blocks; the other processing blocks conflict with
        an accepted one and await rejection. */
    predicate InTree(id: BlockId)
      reads this
    {
      id in blocks || Live(id)
    }

    /** Blocks are stored under their ids, and with a block of the tree its parent is stored. */
    ghost predicate Closed()
      reads this
    {
      && rules.genesis.hght == 0
      && (forall id {:trigger blocks[id]} :: id in blocks ==> blocks[id].blk.ID() == id)
      && (forall id {:trigger verifiedBlocks[id]} :: id in verifiedBlocks ==> verifiedBlocks[id].blk.ID() == id)
      && (forall id {:trigger InTree(id)} :: InTree(id) ==>
            id.BlockHash? && (id.block != rules.genesis ==> InTree(id.block.prnt)))
    }

    /** Every block of the tree has been verified, and exactly the ancestors of the last
        accepted block have been accepted. */
    ghost predicate StoreOk()
      reads this
    {
      && Closed() && IsGenesis(rules.genesis)
      && (forall id {:trigger InTree(id)} :: InTree(id) ==>
            Verified(rules.g, rules.target, rules.genesis, id) && Executed(rules, id))
      && (forall id {:trigger id in blocks} :: id in blocks ==>
            id.BlockHash? && (id.block != rules.genesis ==> id.block.prnt in blocks))
      && (forall id {:trigger id in verifiedBlocks} :: id in verifiedBlocks ==> id !in blocks)
      && lastAccepted.blk.ID() in blocks && blocks[lastAccepted.blk.ID()] == lastAccepted
      && blocks.Keys == Ancestors(lastAccepted.blk.ID())
    }

    /** Every live block hangs on its parent and its overlay shows the replay of its
        ancestors; the committed database shows the replay of the accepted chain. */
    ghost predicate TreeOk()
      reads this, db, nodes, overlays
    {
      && db.base == null && db.Sound() && db !in overlays && db.rank == 0
      && StateAfter(rules, lastAccepted.blk.ID()) == Some(db.view)
      && lastAccepted in nodes && lastAccepted.st == Accepted
      && (forall id {:trigger verifiedBlocks[id]} :: id in verifiedBlocks ==> verifiedBlocks[id] in nodes)
      && (forall id {:trigger Live(id)} :: Live(id) ==> id.BlockHash? && NodeOk(id))
      && (forall d {:trigger d in overlays} :: d in overlays ==>
            Live(d.owner) && verifiedBlocks[d.owner].onAcceptDB == d)
    }

    ghost predicate NodeOk(id: BlockId)
      requires id in verifiedBlocks && id.BlockHash?
      reads this, db, nodes, overlays
    {
      var p := verifiedBlocks[id];
      && p in nodes && p.st == Processing && p.onAcceptDB != null && p.onAcceptDB in overlays
      && p.onAcceptDB.owner == id && p.onAcceptDB.rank == Depth(id)
      && (p.onAcceptDB.base == db || (p.onAcceptDB.base != null && p.onAcceptDB.base in overlays))
      && StateAfter(rules, id) == Some(p.onAcceptDB.view)
      && Hangs(id, p)
      && (forall c {:trigger c in p.children} :: c in p.children ==>
            c.blk.prnt == id && c.blk.ID() in verifiedBlocks && verifiedBlocks[c.blk.ID()] == c)
    }

    /** The block's overlay sits on its parent's, or on the committed database if the
        parent is the last accepted block, and the parent knows the block. */
    ghost predicate Hangs(id: BlockId, p: StatelessBlock)
      requires id.BlockHash? && p in nodes && p.onAcceptDB != null && p.onAcceptDB in overlays
      requires p.onAcceptDB.base == db || (p.onAcceptDB.base != null && p.onAcceptDB.base in overlays)
      reads this, db, nodes, overlays
    {
      var prnt := id.block.prnt;
      && p.onAcceptDB.Sound()
      && (if prnt == lastAccepted.blk.ID() then p.onAcceptDB.base == db
          else
            && Live(prnt) && prnt.block.hght != 0 && verifiedBlocks[prnt] in nodes
            && p.onAcceptDB.base == verifiedBlocks[prnt].onAcceptDB && p in verifiedBlocks[prnt].children)
    }

    /** The database a child of the given block is verified on. */
    ghost function BaseFor(id: BlockId): Database?
      reads this, nodes
    {
      if id == lastAccepted.blk.ID() then db
      else if id in verifiedBlocks && verifiedBlocks[id] in nodes then verifiedBlocks[id].onAcceptDB
      else null
    }

    ghost predicate Valid()
      reads this, db, nodes, overlays
    {
      StoreOk() && TreeOk()
    }

    /** The same tree as ids; the predicates above say of the objects what Tree says of ids. */
    function Outline(): Tree
      reads this
    {
      Tree(blocks.Keys, verifiedBlocks.Keys, lastAccepted.blk.ID())
    }

    function GetStatelessBlock(id: BlockId): (b: Option<StatelessBlock>)
      reads this
      ensures b.Some? <==> Known(id)
    {
      if id in blocks then Some(blocks[id])
      else if id in verifiedBlocks then Some(verifiedBlocks[id])
      else None
    }

    /** lookback: visits the window, newest block first. */
    method Lookback(now: int, lastId: BlockId) returns (visited: seq<StatefulBlock>, ok: bool)
      requires Closed() && (Known(lastId) ==> InTree(lastId))
      ensures ok <==> Known(lastId)
      ensures ok ==> var chain := ChainOf(lastId);
                     chain != [] && Backwards(visited, chain, WindowStart(rules.g, now, chain, |chain| - 1))
    {
      visited := [];
      var found := GetStatelessBlock(lastId);
      if found.None? {
        return visited, false;
      }
      var curr := found.value.blk;
      ghost var chain := ChainOf(lastId);
      ghost var i: nat := |chain| - 1;
      while now - curr.tmstmp <= rules.g.lookbackWindow || curr.ID() == lastId
        invariant InTree(curr.ID()) && i < |chain| && curr == chain[i]
        invariant Backwards(visited, chain, i + 1)
        invariant i < |chain| - 1 ==> WalkedTo(rules.g, now, chain, i + 1)
        decreases i
      {
        if curr.ID() == lastId {
          AncestorsDistinct(lastId, i, |chain| - 1);
        }
        NextVisited(visited, chain, i);
        visited := visited + [curr];
        if curr.hght == 0 {
          WindowIs(rules.g, now, chain, i);
          return visited, true;
        }
        ParentAt(lastId, i);
        WalkOn(rules.g, now, chain, i);
        var next := GetStatelessBlock(curr.prnt);
        if next.None? {
          return visited, false;
        }
        curr := next.value.blk;
        i := i - 1;
      }
      WindowIs(rules.g, now, chain, i + 1);
      ok := true;
    }

    /** The callback that ExecutionContext passes to lookback, over all visited blocks. */
    method Collect(visited: seq<StatefulBlock>, ghost chain: seq<StatefulBlock>, ghost start: nat)
      returns (blockIds: set<BlockId>, txIds: set<TxId>, units: nat, prices: seq<nat>, costs: seq<nat>)
      requires start <= |chain| && Backwards(visited, chain, start)
      ensures blockIds == BlockIds(chain[start..]) && txIds == RecentTxIds(chain[start..])
      ensures units == WindowUnits(rules.g, chain[start..])
      ensures prices == PricesBackwards(chain[start..]) && costs == CostsBackwards(chain[start..])
    {
      blockIds, txIds, units, prices, costs := {}, {}, 0, [], [];
      for i := 0 to |visited|
        invariant blockIds == BlockIds(chain[|chain| - i..]) && txIds == RecentTxIds(chain[|chain| - i..])
        invariant units == WindowUnits(rules.g, chain[|chain| - i..])
        invariant prices == PricesBackwards(chain[|chain| - i..]) && costs == CostsBackwards(chain[|chain| - i..])
      {
        var b := visited[i];
        blockIds := blockIds + {b.ID()};
        var ids, load := TxsOf(b);
        txIds, units := txIds + ids, units + load;
        prices, costs := prices + [b.price], costs + [b.cost];
        assert chain[|chain| - (i + 1)..][1..] == chain[|chain| - i..];
      }
    }

    method TxsOf(b: StatefulBlock) returns (ids: set<TxId>, load: nat)
      ensures ids == TxIds(b.txs) && load == BlockUnits(rules.g, b.txs)
    {
      ids, load := {}, 0;
      for n := 0 to |b.txs|
        invariant ids == TxIds(b.txs[..n]) && load == BlockUnits(rules.g, b.txs[..n])
      {
        ids, load := ids + {b.txs[n].ID()}, load + b.txs[n].LoadUnits(rules.g);
        assert b.txs[..n + 1][..n] == b.txs[..n];
      }
      assert b.txs[..|b.txs|] == b.txs;
    }

    /** The second half of ExecutionContext: adjusts cost and price step by step. */
    method Fees(now: int, last: StatefulBlock, units: nat) returns (nextCost: nat, nextPrice: nat)
      ensures nextCost == NextCost(rules.g, last, now)
      ensures nextPrice == NextPrice(rules.g, last, now, units, rules.target)
    {
      var elapsed := now - last.tmstmp;
      nextCost := last.cost;
      if elapsed < rules.g.targetBlockRate {
        nextCost := nextCost + (rules.g.targetBlockRate - elapsed);
      } else {
        var possibleDiff := elapsed - rules.g.targetBlockRate;
        if nextCost >= MIN_BLOCK_COST && possibleDiff < nextCost - MIN_BLOCK_COST {
          nextCost := nextCost - possibleDiff;
        } else {
          nextCost := MIN_BLOCK_COST;
        }
      }
      if !rules.g.blockCostEnabled {
        nextCost := last.cost;
      }

      nextPrice := last.price;
      if units > rules.target {
        nextPrice := nextPrice + 1;
      } else if units < rules.target {
        var elapsedWindows := Wrap(TruncDiv(elapsed, rules.g.lookbackWindow) + 1);
        if nextPrice >= rules.g.minPrice && elapsedWindows < nextPrice - rules.g.minPrice {
          nextPrice := nextPrice - elapsedWindows;
        } else {
          nextPrice := rules.g.minPrice;
        }
      }
    }

    /** ExecutionContext: depends on the block time and the ancestors only. */
    method ExecutionContext(now: int, lastBlock: StatelessBlock) returns (context: Option<Context>)
      requires Closed() && InTree(lastBlock.blk.ID())
      ensures context == Some(ContextOf(rules, now, ChainOf(lastBlock.blk.ID())))
    {
      var visited, ok := Lookback(now, lastBlock.blk.ID());
      if !ok {
        return None;
      }
      ghost var chain := ChainOf(lastBlock.blk.ID());
      ghost var start := WindowStart(rules.g, now, chain, |chain| - 1);
      var blockIds, txIds, units, prices, costs := Collect(visited, chain, start);
      var nextCost, nextPrice := Fees(now, lastBlock.blk, units);
      context := Some(Context(blockIds, txIds, units, prices, costs, nextPrice, nextCost));
    }

    /** Transaction.Execute: the checks against the context come first and write nothing;
        the rest may have written before it fails.  shown is what the overlay shows. */
    method ExecuteTx(t: Transaction, tmstmp: int, context: Context, overlay: Database, shown: View)
      returns (after: View, err: Option<BlockError>)
      requires overlay.Sound() && overlay.view == shown
      modifies overlay`mem, overlay`view
      ensures overlay.Sound() && overlay.view == after
      ensures err.None? <==> TxOk(rules.g, context.recentBlockIds, context.recentTxIds, t)
                             && rules.exec(shown, tmstmp, t).ok
      ensures err.None? ==> after == Apply(shown, rules.exec(shown, tmstmp, t).writes)
      ensures err != Some(ErrInvalidAccessProof)
    {
      after := shown;
      if t.blockId == EmptyId {
        return after, Some(ErrInvalidBlockID);
      }
      if t.magic != rules.g.magic {
        return after, Some(ErrInvalidMagic);
      }
      if t.price < rules.g.minPrice {
        return after, Some(ErrInvalidPrice);
      }
      if t.blockId !in context.recentBlockIds {
        return after, Some(ErrInvalidBlockID);
      }
      if t.ID() in context.recentTxIds {
        return after, Some(ErrDuplicateTx);
      }
      var r := rules.exec(shown, tmstmp, t);
      overlay.Write(r.writes);
      after, err := Apply(shown, r.writes), if r.ok then None else Some(ErrExecution);
    }

    /** The transaction loop of verify. */
    method ExecuteTxs(b: StatefulBlock, context: Context, overlay: Database, shown: View)
      returns (after: View, surplusFee: nat, err: Option<BlockError>)
      requires overlay.Sound() && overlay.view == shown
      modifies overlay`mem, overlay`view
      ensures overlay.Sound() && overlay.view == after
      ensures err.None? <==>
                (forall n :: 0 <= n < |b.txs| ==> TxOk(rules.g, context.recentBlockIds, context.recentTxIds, b.txs[n]))
                && RunTxs(rules, shown, b.tmstmp, b.txs).Some?
      ensures err.None? ==> RunTxs(rules, shown, b.tmstmp, b.txs) == Some(after)
                            && surplusFee == SurplusFee(rules.g, b.price, b.txs)
      ensures err != Some(ErrInvalidAccessProof)
    {
      after, surplusFee, err := shown, 0, None;
      for i := 0 to |b.txs|
        invariant overlay.Sound() && overlay.view == after
                  && ExecutedUpTo(rules, context, shown, b, i, after, surplusFee)
      {
        var next;
        next, err := ExecuteTx(b.txs[i], b.tmstmp, context, overlay, after);
        ExecutedNext(rules, context, shown, b, i, after, surplusFee);
        after := next;
        if err.Some? {
          return;
        }
        surplusFee := Wrap(surplusFee + Wrap(Wrap(b.txs[i].price - b.price) * b.txs[i].LoadUnits(rules.g)));
      }
      assert b.txs[..|b.txs|] == b.txs;
      err := None;
    }

    /** What consensus may build on: the last accepted block or a live block.  A live
        block of height zero is excluded, because onAccept takes it for genesis. */
    predicate Buildable(id: BlockId)
      reads this
    {
      id == lastAccepted.blk.ID() || (Live(id) && id.block.hght != 0)
    }

    function OnAccept(p: StatelessBlock): (state: Option<Database>)
      reads p
      ensures state.None? <==> p.st != Accepted && p.blk.hght != 0 && p.onAcceptDB == null
    {
      if p.st == Accepted || p.blk.hght == 0 then Some(db)
      else if p.onAcceptDB != null then Some(p.onAcceptDB)
      else None
    }

    /** onAccept gives the state after the block exactly for the buildable blocks: for a
        live block of height zero it gives the committed state, which is another one. */
    lemma OnAcceptIsState(id: BlockId, p: StatelessBlock)
      requires Valid() && (id == lastAccepted.blk.ID() || Live(id)) && GetStatelessBlock(id) == Some(p)
      ensures StateAfter(rules, id).Some? && OnAccept(p).Some?
      ensures StateAfter(rules, id) == Some(OnAccept(p).value.view) <==> Buildable(id)
    {
      if id != lastAccepted.blk.ID() {
        assert NodeOk(id);
        LastAcceptedIs(rules, id);
        LastAcceptedIs(rules, lastAccepted.blk.ID());
      }
    }

    ghost predicate Acceptable(b: StatefulBlock, wall: int)
      reads this
    {
      AcceptableIn(rules, Outline(), b, wall)
    }

    /** The block at another height, with the access proof that belongs to it. */
    function AtHeight(b: StatefulBlock, hght: nat): StatefulBlock
      requires StateAfter(rules, b.prnt).Some?
    {
      b.(hght := hght, accessProof := rules.proofOf(StateAfter(rules, b.prnt).value, b.prnt, hght))
    }

    /** verify never reads the height but for the access proof: a block with the right proof
        is acceptable at every height or at none. */
    lemma HeightIsUnchecked(b: StatefulBlock, hght: nat, wall: int)
      requires StateAfter(rules, b.prnt).Some?
      ensures Acceptable(AtHeight(b, b.hght), wall) <==> Acceptable(AtHeight(b, hght), wall)
    {}

    /** On one parent at one height exactly one access proof passes: that of the database that
        onAccept names for the parent. */
    lemma OneProofPasses(b: StatefulBlock, parent: StatelessBlock, x: nat, wall: int)
      requires Valid() && Buildable(b.prnt) && GetStatelessBlock(b.prnt) == Some(parent) && Acceptable(b, wall)
      ensures OnAccept(parent).Some?
      ensures Acceptable(b.(accessProof := x), wall) <==>
              x == rules.proofOf(OnAccept(parent).value.view, b.prnt, b.hght)
    {
      OnAcceptIsState(b.prnt, parent);
    }

    /** Every block above genesis, accepted or live, carries the access proof of the replay of
        the blocks before it, and pays for its cost. */
    lemma ProofsFollowReplay(id: BlockId, i: nat)
      requires Valid() && InTree(id) && 0 < i < |ChainOf(id)|
      ensures var b, before := ChainOf(id)[i], Fold(rules, rules.GenesisState(), ChainOf(id)[1..i]);
              && before.Some? && b.accessProof == rules.proofOf(before.value, b.prnt, b.hght)
              && SurplusFee(rules.g, b.price, b.txs) >= Wrap(b.price * b.cost)
    {
      ProofIsOfReplay(rules, id, i);
    }

    /** A block may repeat a transaction of its own: it stays acceptable exactly if the copy
        fits, executes once more and leaves the surplus high enough. */
    lemma RepeatIsAcceptable(b: StatefulBlock, t: Transaction, wall: int)
      requires Acceptable(b, wall) && t in b.txs
      ensures var before := StateAfter(rules, b.prnt).value;
              Acceptable(Repeated(b, t), wall) <==>
              && BlockUnits(rules.g, b.txs) + t.LoadUnits(rules.g) <= rules.g.maxBlockSize
              && rules.exec(RunTxs(rules, before, b.tmstmp, b.txs).value, b.tmstmp, t).ok
              && SurplusFee(rules.g, b.price, b.txs + [t]) >= Wrap(b.price * b.cost)
    {}

    /** The checks of verify up to the price, in order. */
    method VerifyHeader(b: StatefulBlock, wall: int) returns (r: Result<(StatelessBlock, Context), BlockError>)
      requires Closed() && (Known(b.prnt) ==> InTree(b.prnt))
      ensures r.Ok? <==> b.tmstmp < wall + FUTURE_BOUND && Known(b.prnt) && ChainOf(b.prnt) != []
                         && FieldsOk(rules.g, rules.target, ChainOf(b.prnt), b)
      ensures r.Ok? ==> GetStatelessBlock(b.prnt) == Some(r.value.0)
                        && r.value.1 == ContextOf(rules, b.tmstmp, ChainOf(b.prnt))
      ensures r != Err(ErrInvalidAccessProof)
    {
      if b.txs == [] {
        return Err(ErrNoTxs);
      }
      if b.tmstmp >= wall + FUTURE_BOUND {
        return Err(ErrTimestampTooLate);
      }
      var fits := CheckSize(b);
      if !fits {
        return Err(ErrBlockTooBig);
      }
      var parent := GetStatelessBlock(b.prnt);
      if parent.None? {
        return Err(ErrNoParent);
      }
      if b.tmstmp < parent.value.blk.tmstmp {
        return Err(ErrTimestampTooEarly);
      }
      var context := ExecutionContext(b.tmstmp, parent.value);
      if context.None? {
        return Err(ErrNoParent);
      }
      if b.cost != context.value.nextCost {
        return Err(ErrInvalidCost);
      }
      if b.price != context.value.nextPrice {
        return Err(ErrInvalidPrice);
      }
      r := Ok((parent.value, context.value));
    }

    /** The overlays and the committed database form complete stacks. */
    lemma StackClosed(id: BlockId)
      requires Valid()
      ensures forall d :: d in overlays + {db} ==> d.Sound() && (d.base != null ==> d.base in overlays + {db})
      ensures Live(id) ==> NodeOk(id)
    {
      forall d | d in overlays ensures d.Sound() && d.base in overlays + {db} {
        assert NodeOk(d.owner);
      }
    }

    /** The size loop of verify stops as soon as the block is too big. */
    method CheckSize(b: StatefulBlock) returns (fits: bool)
      ensures fits <==> BlockUnits(rules.g, b.txs) <= rules.g.maxBlockSize
    {
      var blockSize := 0;
      for i := 0 to |b.txs|
        invariant blockSize == BlockUnits(rules.g, b.txs[..i])
        invariant blockSize <= rules.g.maxBlockSize || i == 0
      {
        assert b.txs[..i + 1][..i] == b.txs[..i];
        blockSize := blockSize + b.txs[i].LoadUnits(rules.g);
        if blockSize > rules.g.maxBlockSize {
          MoreTxsMoreUnits(rules.g, b.txs, i + 1);
          return false;
        }
      }
      assert b.txs[..|b.txs|] == b.txs;
      fits := true;
    }

    /** The checks of verify from the access proof on, on a new overlay. */
    method VerifyOnState(b: StatefulBlock, context: Context, parentState: Database)
      returns (r: Result<Database, BlockError>)
      requires parentState in overlays + {db} && parentState.rank < Depth(b.ID())
      requires forall d :: d in overlays + {db} ==> d.Sound() && (d.base != null ==> d.base in overlays + {db})
      ensures r.Ok? <==>
                BodyOk(rules, parentState.view, b)
                && forall n :: 0 <= n < |b.txs| ==> TxOk(rules.g, context.recentBlockIds, context.recentTxIds, b.txs[n])
      ensures r.Ok? ==> fresh(r.value) && r.value.Sound() && r.value.base == parentState
                        && r.value.owner == b.ID() && r.value.rank == Depth(b.ID())
                        && RunTxs(rules, parentState.view, b.tmstmp, b.txs) == Some(r.value.view)
      ensures r == Err(ErrInvalidAccessProof) <==>
              b.accessProof != rules.proofOf(parentState.view, b.prnt, b.hght)
    {
      var shown := parentState.Snapshot(overlays + {db});
      var overlay := new Database(parentState, Depth(b.ID()), b.ID());
      if b.accessProof != rules.proofOf(shown, b.prnt, b.hght) {
        return Err(ErrInvalidAccessProof);
      }
      var after, surplusFee, err := ExecuteTxs(b, context, overlay, shown);
      if err.Some? {
        return Err(err.value);
      }
      var requiredSurplus := Wrap(b.price * b.cost);
      if surplusFee < requiredSurplus {
        return Err(ErrInsufficientSurplus);
      }
      r := Ok(overlay);
    }

    /** verify: all checks of a block, in order; the overlay it returns is new. */
    method VerifyBlock(b: StatefulBlock, wall: int) returns (r: Result<Database, BlockError>)
      requires Valid() && (Known(b.prnt) ==> Buildable(b.prnt))
      ensures r.Ok? <==> Acceptable(b, wall)
      ensures r.Ok? ==> fresh(r.value) && r.value.Sound() && r.value.owner == b.ID() && r.value.rank == Depth(b.ID())
                        && r.value.base == BaseFor(b.prnt)
                        && RunTxs(rules, StateAfter(rules, b.prnt).value, b.tmstmp, b.txs) == Some(r.value.view)
      ensures r == Err(ErrInvalidAccessProof) <==>
              && b.tmstmp < wall + FUTURE_BOUND && Known(b.prnt) && ChainOf(b.prnt) != []
              && FieldsOk(rules.g, rules.target, ChainOf(b.prnt), b) && StateAfter(rules, b.prnt).Some?
              && b.accessProof != rules.proofOf(StateAfter(rules, b.prnt).value, b.prnt, b.hght)
    {
      var header := VerifyHeader(b, wall);
      if header.Err? {
        return Err(header.error);
      }
      var (parent, context) := header.value;
      r := VerifyOnParent(b, parent, context);
    }

    /** The part of verify from the parent's state on. */
    method VerifyOnParent(b: StatefulBlock, parent: StatelessBlock, context: Context)
      returns (r: Result<Database, BlockError>)
      requires Valid() && Buildable(b.prnt) && GetStatelessBlock(b.prnt) == Some(parent)
      ensures StateAfter(rules, b.prnt).Some?
      ensures r.Ok? <==>
                BodyOk(rules, StateAfter(rules, b.prnt).value, b)
                && forall n :: 0 <= n < |b.txs| ==> TxOk(rules.g, context.recentBlockIds, context.recentTxIds, b.txs[n])
      ensures r.Ok? ==> fresh(r.value) && r.value.Sound() && r.value.owner == b.ID() && r.value.rank == Depth(b.ID())
                        && r.value.base == BaseFor(b.prnt)
                        && RunTxs(rules, StateAfter(rules, b.prnt).value, b.tmstmp, b.txs) == Some(r.value.view)
      ensures r == Err(ErrInvalidAccessProof) <==>
              b.accessProof != rules.proofOf(StateAfter(rules, b.prnt).value, b.prnt, b.hght)
    {
      var parentState := OnAccept(parent);
      OnAcceptIsState(b.prnt, parent);
      if parentState.None? {
        return Err(ErrParentBlockNotVerified);
      }
      StackClosed(b.prnt);
      r := VerifyOnState(b, context, parentState.value);
    }

    /** How the state changes when b joins the tree below its parent. */
    twostate predicate Joined(b: StatelessBlock)
      reads this, db, nodes, overlays, b
    {
      && b.onAcceptDB != null
      && blocks == old(blocks) && lastAccepted == old(lastAccepted)
      && verifiedBlocks == old(verifiedBlocks)[b.blk.ID() := b]
      && nodes == old(nodes) + {b} && overlays == old(overlays) + {b.onAcceptDB}
      && (forall n {:trigger n in old(nodes)} :: n in old(nodes) ==>
            n.st == old(n.st) && n.onAcceptDB == old(n.onAcceptDB)
            && n.children ==
               (if old(GetStatelessBlock(b.blk.prnt)) == Some(n) then old(n.children) + [b] else old(n.children)))
      && (forall d {:trigger d in old(overlays)} :: d in old(overlays) ==>
            d.base == old(d.base) && d.mem == old(d.mem) && d.view == old(d.view))
      && db.base == old(db.base) && db.mem == old(db.mem) && db.view == old(db.view)
    }

    /** The block passes the checks against the state after its parent. */
    ghost predicate RunsOn(b: StatefulBlock) {
      StateAfter(rules, b.prnt).Some? && BodyOk(rules, StateAfter(rules, b.prnt).value, b)
    }

    lemma NextIsVerified(b: StatefulBlock)
      requires Verified(rules.g, rules.target, rules.genesis, b.prnt) && Executed(rules, b.prnt) && RunsOn(b)
      requires ChainOf(b.prnt) != [] && HeaderOk(rules.g, rules.target, ChainOf(b.prnt), b)
      ensures Verified(rules.g, rules.target, rules.genesis, b.ID()) && Executed(rules, b.ID())
    {}

    twostate lemma JoinKeepsStore(b: StatelessBlock)
      requires old(Valid()) && Joined(b)
      requires old(!Known(b.blk.ID())) && old(InTree(b.blk.prnt)) && ChainOf(b.blk.prnt) != []
      requires HeaderOk(rules.g, rules.target, ChainOf(b.blk.prnt), b.blk) && RunsOn(b.blk)
      ensures StoreOk()
    {
      forall id | InTree(id)
        ensures id.BlockHash? && (id.block != rules.genesis ==> InTree(id.block.prnt))
        ensures Verified(rules.g, rules.target, rules.genesis, id) && Executed(rules, id)
      {
        if id == b.blk.ID() {
          assert old(InTree(b.blk.prnt)) && InTree(b.blk.prnt);
          NextIsVerified(b.blk);
        } else {
          assert old(InTree(id));
          assert id.block != rules.genesis ==> old(InTree(id.block.prnt)) && InTree(id.block.prnt);
        }
      }
    }

    twostate lemma JoinKeepsNodes(b: StatelessBlock)
      requires old(Valid()) && Joined(b) && b !in old(nodes) && old(!Known(b.blk.ID())) && old(Known(b.blk.prnt))
      ensures forall id {:trigger Live(id)} :: old(Live(id)) ==> Live(id) && id.BlockHash? && NodeOk(id)
    {
      forall id | old(Live(id)) ensures Live(id) && id.BlockHash? && NodeOk(id) {
        assert old(NodeOk(id));
        if id.block.prnt != lastAccepted.blk.ID() {
          assert old(NodeOk(id.block.prnt));
        }
      }
    }

    twostate lemma JoinAddsNode(b: StatelessBlock)
      requires old(Valid()) && Joined(b) && b !in old(nodes) && old(!Known(b.blk.ID()))
      requires old(Buildable(b.blk.prnt))
      requires b.st == Processing && b.children == [] && b.onAcceptDB.Sound()
      requires b.onAcceptDB.owner == b.blk.ID() && b.onAcceptDB.rank == Depth(b.blk.ID())
      requires b.onAcceptDB.base == old(BaseFor(b.blk.prnt))
      requires StateAfter(rules, b.blk.ID()) == Some(b.onAcceptDB.view)
      ensures Live(b.blk.ID()) && NodeOk(b.blk.ID())
    {
      if b.blk.prnt != lastAccepted.blk.ID() {
        assert old(NodeOk(b.blk.prnt));
      }
    }

    twostate lemma JoinKeepsTree(b: StatelessBlock)
      requires old(Valid()) && Joined(b) && b !in old(nodes) && old(!Known(b.blk.ID()))
      requires old(Buildable(b.blk.prnt))
      requires b.st == Processing && b.children == [] && b.onAcceptDB.Sound()
      requires b.onAcceptDB != db && b.onAcceptDB.owner == b.blk.ID() && b.onAcceptDB.rank == Depth(b.blk.ID())
      requires b.onAcceptDB.base == old(BaseFor(b.blk.prnt))
      requires StateAfter(rules, b.blk.ID()) == Some(b.onAcceptDB.view)
      ensures TreeOk() && Live(b.blk.ID())
    {
      JoinAddsNode(b);
      JoinKeepsNodes(b);
      assert forall id {:trigger Live(id)} :: Live(id) ==> id == b.blk.ID() || old(Live(id));
      JoinKeepsOwners(b);
    }

    twostate lemma JoinKeepsValid(b: StatelessBlock)
      requires old(Valid()) && Joined(b) && b !in old(nodes) && old(!Known(b.blk.ID()))
      requires old(Buildable(b.blk.prnt)) && ChainOf(b.blk.prnt) != []
      requires HeaderOk(rules.g, rules.target, ChainOf(b.blk.prnt), b.blk) && RunsOn(b.blk)
      requires b.st == Processing && b.children == [] && b.onAcceptDB.Sound()
      requires b.onAcceptDB != db && b.onAcceptDB.owner == b.blk.ID() && b.onAcceptDB.rank == Depth(b.blk.ID())
      requires b.onAcceptDB.base == old(BaseFor(b.blk.prnt))
      requires StateAfter(rules, b.blk.ID()) == Some(b.onAcceptDB.view)
      ensures Valid() && Live(b.blk.ID())
    {
      JoinKeepsStore(b);
      JoinKeepsTree(b);
    }

    twostate lemma JoinKeepsOwners(b: StatelessBlock)
      requires old(Valid()) && Joined(b) && old(!Known(b.blk.ID()))
      requires b.onAcceptDB.owner == b.blk.ID() && Live(b.blk.ID())
      ensures forall d {:trigger d in overlays} :: d in overlays ==>
                Live(d.owner) && verifiedBlocks[d.owner].onAcceptDB == d
    {
      forall d | d in old(overlays) ensures Live(d.owner) && verifiedBlocks[d.owner].onAcceptDB == d {
        assert old(Live(d.owner)) && old(NodeOk(d.owner));
      }
    }

    method Link(b: StatelessBlock, parent: StatelessBlock, overlay: Database)
      requires b !in nodes && GetStatelessBlock(b.blk.prnt) == Some(parent) && parent != b && overlay.Sound()
      modifies this`verifiedBlocks, this`nodes, this`overlays, b`onAcceptDB, parent`children
      ensures Joined(b) && b.onAcceptDB == overlay && overlay.Sound()
      ensures b.st == old(b.st) && b.children == old(b.children)
      ensures overlay.base == old(overlay.base) && overlay.view == old(overlay.view)
    {
      b.onAcceptDB := overlay;
      parent.children := parent.children + [b];
      verifiedBlocks := verifiedBlocks[b.blk.ID() := b];
      nodes, overlays := nodes + {b}, overlays + {overlay};
    }

    ghost predicate Ready(b: StatefulBlock, overlay: Database)
      reads this, nodes, overlay, overlay.base
    {
      && Buildable(b.prnt) && ChainOf(b.prnt) != [] && HeaderOk(rules.g, rules.target, ChainOf(b.prnt), b) && RunsOn(b)
      && overlay != db && overlay.Sound() && overlay.owner == b.ID() && overlay.rank == Depth(b.ID())
      && overlay.base == BaseFor(b.prnt) && StateAfter(rules, b.ID()) == Some(overlay.view)
    }

    method Join(b: StatelessBlock, parent: StatelessBlock, overlay: Database)
      requires Valid() && b !in nodes && b.st == Processing && b.children == [] && !Known(b.blk.ID())
      requires GetStatelessBlock(b.blk.prnt) == Some(parent) && parent in nodes && Ready(b.blk, overlay)
      modifies this`verifiedBlocks, this`nodes, this`overlays, b`onAcceptDB, parent`children
      ensures Valid() && blocks == old(blocks) && lastAccepted == old(lastAccepted) && Live(b.blk.ID())
      ensures verifiedBlocks == old(verifiedBlocks)[b.blk.ID() := b] && nodes == old(nodes) + {b}
      ensures Joined(b) && b.onAcceptDB == overlay && overlays == old(overlays) + {overlay}
    {
      Link(b, parent, overlay);
      JoinKeepsValid(b);
    }

    /** Verify: on success the block joins the tree with an overlay that shows the replay
        of its whole chain; nothing that was there before shows anything new. */
    method Verify(b: StatelessBlock, wall: int) returns (err: Option<BlockError>)
      requires Valid() && b !in nodes && b.st == Processing && b.children == [] && !Known(b.blk.ID())
      requires Known(b.blk.prnt) ==> Buildable(b.blk.prnt)
      modifies this, b, nodes
      ensures Valid() && blocks == old(blocks) && lastAccepted == old(lastAccepted)
      ensures err.None? <==> old(Acceptable(b.blk, wall))
      ensures err.None? ==> Joined(b) && verifiedBlocks == old(verifiedBlocks)[b.blk.ID() := b] && Live(b.blk.ID())
                            && nodes == old(nodes) + {b}
      ensures err.None? ==> b.onAcceptDB != null && fresh(b.onAcceptDB) && overlays == old(overlays) + {b.onAcceptDB}
      ensures err.Some? ==> verifiedBlocks == old(verifiedBlocks) && nodes == old(nodes) && overlays == old(overlays)
    {
      var r := VerifyAndStore(b.blk, wall);
      if r.Err? {
        return Some(r.error);
      }
      var (parent, overlay) := r.value;
      Join(b, parent, overlay);
      err := None;
    }

    /** The part of Verify that changes no block: verify, then SetLastAccepted on the new
        overlay.  Also gives the parent. */
    method VerifyAndStore(b: StatefulBlock, wall: int) returns (r: Result<(StatelessBlock, Database), BlockError>)
      requires Valid() && (Known(b.prnt) ==> Buildable(b.prnt)) && !Known(b.ID())
      ensures r.Ok? <==> Acceptable(b, wall)
      ensures r.Ok? ==>
        var (parent, overlay) := r.value;
        && GetStatelessBlock(b.prnt) == Some(parent) && parent in nodes
        && fresh(overlay) && Ready(b, overlay)
    {
      BuildableIsNode(b.prnt);
      var verified := VerifyBlock(b, wall);
      if verified.Err? {
        return Err(verified.error);
      }
      Seal(b, verified.value);
      r := Ok((GetStatelessBlock(b.prnt).value, verified.value));
    }

    method Seal(b: StatefulBlock, overlay: Database)
      requires IsGenesis(rules.genesis) && Buildable(b.prnt) && ChainOf(b.prnt) != []
      requires HeaderOk(rules.g, rules.target, ChainOf(b.prnt), b) && RunsOn(b)
      requires overlay != db && overlay.Sound() && overlay.owner == b.ID() && overlay.rank == Depth(b.ID())
      requires overlay.base == BaseFor(b.prnt) && StateAfter(rules, b.prnt).Some?
      requires RunTxs(rules, StateAfter(rules, b.prnt).value, b.tmstmp, b.txs) == Some(overlay.view)
      modifies overlay`mem, overlay`view
      ensures Ready(b, overlay)
    {
      Store(b, overlay);
    }

    lemma BuildableIsNode(id: BlockId)
      requires Valid()
      ensures Buildable(id) ==> GetStatelessBlock(id).Some? && GetStatelessBlock(id).value in nodes
      ensures db !in overlays && IsGenesis(rules.genesis)
    {
      if Live(id) {
        assert NodeOk(id);
      }
    }

    /** SetLastAccepted on the overlay of a verified block. */
    method Store(b: StatefulBlock, overlay: Database)
      requires overlay.Sound() && IsGenesis(rules.genesis) && ChainOf(b.prnt) != [] && StateAfter(rules, b.prnt).Some?
      requires RunTxs(rules, StateAfter(rules, b.prnt).value, b.tmstmp, b.txs) == Some(overlay.view)
      modifies overlay`mem, overlay`view
      ensures overlay.Sound() && StateAfter(rules, b.ID()) == Some(overlay.view)
    {
      overlay.Write(StoreBlock(b));
    }

    /** The overlay of a child of b either still sits on b's overlay or already on the
        committed database; every other overlay is as it was. */
    twostate predicate Rebasing(b: StatelessBlock)
      requires b.onAcceptDB != null
      reads this, b, db, overlays
    {
      overlays == old(overlays) && forall d {:trigger d in overlays} :: d in overlays && d != b.onAcceptDB ==>
        && d.mem == old(d.mem) && d.view == old(d.view)
        && (d.base == old(d.base) || (old(d.base) == b.onAcceptDB && d.base == db))
    }

    /** The database half of Accept: commits b's overlay, then puts the overlays of b's
        children on the committed database.  No other overlay shows anything new. */
    method CommitAndRebase(b: StatelessBlock)
      requires Valid() && Live(b.blk.ID()) && verifiedBlocks[b.blk.ID()] == b && b.blk.prnt == lastAccepted.blk.ID()
      modifies db, overlays
      ensures db.base == null && db.Sound() && db.view == old(b.onAcceptDB.view) && Rebasing(b)
      ensures forall k :: 0 <= k < |b.children| ==> Rebased(b.children[k])
    {
      assert NodeOk(b.blk.ID());
      ChildrenHang(b);
      b.onAcceptDB.Commit();
      SetChildrenDB(b);
    }

    /** The child loop of Accept. */
    method SetChildrenDB(b: StatelessBlock)
      requires b.onAcceptDB != null && db !in overlays && db.rank == 0 && b.onAcceptDB.view == db.view
      requires forall k :: 0 <= k < |b.children| ==> ChildOk(b, b.children[k])
      modifies overlays - {b.onAcceptDB}
      ensures Rebasing(b)
      ensures forall k :: 0 <= k < |b.children| ==> Rebased(b.children[k])
    {
      for i := 0 to |b.children|
        invariant Rebasing(b)
        invariant forall k :: 0 <= k < i ==> Rebased(b.children[k])
      {
        assert old(ChildOk(b, b.children[i]));
        b.children[i].onAcceptDB.SetDatabase(db);
      }
    }

    ghost predicate Rebased(c: StatelessBlock)
      reads this, c, c.onAcceptDB
    {
      c in nodes && c.onAcceptDB != null && c.onAcceptDB in overlays && c.onAcceptDB.base == db
    }

    ghost predicate ChildOk(b: StatelessBlock, c: StatelessBlock)
      requires b.onAcceptDB != null
      reads this, b, b.onAcceptDB, c, c.onAcceptDB, overlays
    {
      var d := c.onAcceptDB;
      c in nodes && d != null && d in overlays && d != b.onAcceptDB && d.base == b.onAcceptDB && d.rank > 0
      && d.view == Apply(b.onAcceptDB.view, d.mem)
    }

    lemma ChildHangs(b: StatelessBlock, c: StatelessBlock)
      requires Valid() && Live(b.blk.ID()) && verifiedBlocks[b.blk.ID()] == b
      requires b.onAcceptDB != null && c in b.children
      ensures ChildOk(b, c)
    {
      var id := c.blk.ID();
      assert NodeOk(b.blk.ID());
      assert Ancestors(id) == {id} + Ancestors(b.blk.ID());
      assert Live(id);
      assert NodeOk(id);
    }

    lemma ChildrenHang(b: StatelessBlock)
      requires Valid() && Live(b.blk.ID()) && verifiedBlocks[b.blk.ID()] == b
      ensures b in nodes && b.onAcceptDB != null && b.onAcceptDB in overlays
      ensures forall k :: 0 <= k < |b.children| ==> ChildOk(b, b.children[k])
    {
      assert NodeOk(b.blk.ID());
      forall k | 0 <= k < |b.children| ensures ChildOk(b, b.children[k]) {
        ChildHangs(b, b.children[k]);
      }
    }

    /** How the state changes when b, a child of the last accepted block, is accepted. */
    twostate predicate Promoted(b: StatelessBlock)
      reads this, b, db, nodes, overlays
    {
      && lastAccepted == b && b.st == Accepted && nodes == old(nodes)
      && blocks == old(blocks)[b.blk.ID() := b] && verifiedBlocks == old(verifiedBlocks) - {b.blk.ID()}
      && overlays == (set d | d in old(overlays) && d != b.onAcceptDB && b.blk.ID() in Ancestors(d.owner))
      && (forall n {:trigger n in nodes} :: n in nodes ==>
            n.children == old(n.children) && n.onAcceptDB == old(n.onAcceptDB) && (n != b ==> n.st == old(n.st)))
      && (forall d {:trigger d in overlays} :: d in overlays ==>
            d.mem == old(d.mem) && d.view == old(d.view)
            && (d.base == old(d.base) || (old(d.base) == b.onAcceptDB && d.base == db)))
      && (forall c {:trigger c in b.children} :: c in b.children ==>
            c in nodes && c.onAcceptDB != null && c.onAcceptDB in overlays && c.onAcceptDB.base == db)
      && db.base == null && db.Sound() && b.onAcceptDB != null && b.onAcceptDB in old(overlays)
      && old(b.onAcceptDB) == b.onAcceptDB && db.view == old(b.onAcceptDB.view)
    }

    /** The live blocks after the acceptance of b are those that descend from b. */
    twostate lemma StillLive(b: StatelessBlock)
      requires old(Valid()) && Promoted(b) && b.blk.prnt == old(lastAccepted.blk.ID())
      requires old(Live(b.blk.ID())) && old(verifiedBlocks[b.blk.ID()]) == b
      ensures forall id {:trigger Live(id)} :: Live(id) ==>
                old(Live(id)) && id.BlockHash? && id != b.blk.ID() && id.block.prnt != b.blk.prnt
                && (id.block.prnt != b.blk.ID() ==> Live(id.block.prnt))
    {
      var last := b.blk.prnt;
      assert old(NodeOk(b.blk.ID()));
      forall id | Live(id)
        ensures old(Live(id)) && id.BlockHash? && id != b.blk.ID() && id.block.prnt != last
        ensures id.block.prnt != b.blk.ID() ==> Live(id.block.prnt)
      {
        AncestorDepth(id, b.blk.ID());
        assert old(Live(id)) && old(NodeOk(id));
        assert old(Hangs(id, verifiedBlocks[id]));
      }
    }

    twostate lemma AcceptKeepsNodes(b: StatelessBlock)
      requires old(Valid()) && Promoted(b) && b.blk.prnt == old(lastAccepted.blk.ID())
      requires old(Live(b.blk.ID())) && old(verifiedBlocks[b.blk.ID()]) == b
      ensures forall id {:trigger Live(id)} :: Live(id) ==>
                id.BlockHash? && NodeOk(id) && old(Live(id))
                && verifiedBlocks[id].onAcceptDB.view == old(verifiedBlocks[id].onAcceptDB.view)
    {
      StillLive(b);
      assert old(NodeOk(b.blk.ID()));
      forall id | Live(id)
        ensures id.BlockHash? && NodeOk(id) && old(Live(id))
        ensures verifiedBlocks[id].onAcceptDB.view == old(verifiedBlocks[id].onAcceptDB.view)
      {
        assert old(NodeOk(id));
        if id.block.prnt != b.blk.ID() {
          assert old(NodeOk(id.block.prnt));
        }
      }
    }

    twostate lemma AcceptKeepsStore(b: StatelessBlock)
      requires old(Valid()) && Promoted(b) && b.blk.prnt == old(lastAccepted.blk.ID())
      requires old(Live(b.blk.ID())) && old(verifiedBlocks[b.blk.ID()]) == b
      ensures StoreOk()
    {
      StillLive(b);
      assert old(NodeOk(b.blk.ID()));
      assert old(InTree(b.blk.ID()));
      forall id | Live(id)
        ensures Verified(rules.g, rules.target, rules.genesis, id) && Executed(rules, id)
                && (id.block != rules.genesis ==> InTree(id.block.prnt))
      {
        assert old(InTree(id));
        assert id.block.prnt == b.blk.ID() ==> id.block.prnt in blocks;
      }
      forall id | id in blocks ensures Verified(rules.g, rules.target, rules.genesis, id) && Executed(rules, id) {
        assert old(InTree(id));
      }
    }

    twostate lemma AcceptKeepsValid(b: StatelessBlock)
      requires old(Valid()) && Promoted(b) && b.blk.prnt == old(lastAccepted.blk.ID())
      requires old(Live(b.blk.ID())) && old(verifiedBlocks[b.blk.ID()]) == b
      ensures Valid()
    {
      assert old(NodeOk(b.blk.ID()));
      AcceptKeepsStore(b);
      AcceptKeepsNodes(b);
      forall d | d in overlays ensures Live(d.owner) && verifiedBlocks[d.owner].onAcceptDB == d {
        assert old(Live(d.owner)) && old(NodeOk(d.owner));
      }
    }

    /** Accept: afterwards the committed database shows the replay up to b, and every block
        that still descends from the last accepted block shows what it showed before. */
    method Accept(b: StatelessBlock)
      requires Valid() && b.blk.ID() in verifiedBlocks && verifiedBlocks[b.blk.ID()] == b
      requires b.blk.prnt == lastAccepted.blk.ID()
      modifies this, nodes, db, overlays
      ensures Valid() && Promoted(b) && lastAccepted == b && nodes == old(nodes) && overlays <= old(overlays)
      ensures blocks == old(blocks)[b.blk.ID() := b] && verifiedBlocks == old(verifiedBlocks) - {b.blk.ID()}
      ensures forall id {:trigger Live(id)} :: Live(id) ==>
                old(Live(id)) && verifiedBlocks[id].onAcceptDB == old(verifiedBlocks[id].onAcceptDB)
                && verifiedBlocks[id].onAcceptDB.view == old(verifiedBlocks[id].onAcceptDB.view)
    {
      assert Live(b.blk.ID());
      CommitAndPromote(b);
      AcceptKeepsValid(b);
      AcceptKeepsNodes(b);
    }

    method CommitAndPromote(b: StatelessBlock)
      requires Valid() && Live(b.blk.ID()) && verifiedBlocks[b.blk.ID()] == b && b.blk.prnt == lastAccepted.blk.ID()
      modifies this, b, db, overlays
      ensures Promoted(b)
    {
      assert NodeOk(b.blk.ID());
      ChildrenHang(b);
      CommitAndRebase(b);
      Promote(b);
    }

    /** The bookkeeping half of Accept. */
    method Promote(b: StatelessBlock)
      requires b.onAcceptDB != null
      modifies this`lastAccepted, this`blocks, this`verifiedBlocks, this`overlays, b`st
      ensures lastAccepted == b && b.st == Accepted
      ensures blocks == old(blocks)[b.blk.ID() := b] && verifiedBlocks == old(verifiedBlocks) - {b.blk.ID()}
      ensures overlays == set d | d in old(overlays) && d != b.onAcceptDB && b.blk.ID() in Ancestors(d.owner)
    {
      b.st := Accepted;
      blocks := blocks[b.blk.ID() := b];
      verifiedBlocks := verifiedBlocks - {b.blk.ID()};
      lastAccepted := b;
      overlays := set d | d in overlays && d != b.onAcceptDB && b.blk.ID() in Ancestors(d.owner);
    }

    /** Reject: consensus rejects blocks that conflict with an accepted one, which are the
        processing blocks that are no longer live. */
    method Reject(b: StatelessBlock)
      requires Valid() && b.blk.ID() in verifiedBlocks && verifiedBlocks[b.blk.ID()] == b
      requires !Live(b.blk.ID())
      modifies this`verifiedBlocks, b`st
      ensures Valid() && Dropped(b) && b.st == Rejected
    {
      b.st := Rejected;
      verifiedBlocks := verifiedBlocks - {b.blk.ID()};
      RejectKeepsValid(b);
    }

    /** How the state changes when b is rejected. */
    twostate predicate Dropped(b: StatelessBlock)
      reads this, db, nodes, overlays
    {
      && verifiedBlocks == old(verifiedBlocks) - {b.blk.ID()} && blocks == old(blocks)
      && lastAccepted == old(lastAccepted)
      && nodes == old(nodes) && overlays == old(overlays) && unchanged(db) && unchanged(overlays)
      && (forall n {:trigger n in nodes} :: n in nodes ==>
            n.children == old(n.children) && n.onAcceptDB == old(n.onAcceptDB) && (n != b ==> n.st == old(n.st)))
    }

    twostate lemma RejectKeepsStore(b: StatelessBlock)
      requires old(Valid()) && old(!Live(b.blk.ID())) && Dropped(b)
      requires old(b.blk.ID() in verifiedBlocks) && old(verifiedBlocks[b.blk.ID()]) == b
      ensures StoreOk()
    {
      forall id | Live(id)
        ensures id.BlockHash? && Verified(rules.g, rules.target, rules.genesis, id) && Executed(rules, id)
        ensures id.block != rules.genesis ==> InTree(id.block.prnt)
      {
        assert old(InTree(id)) && old(NodeOk(id));
        assert id.block.prnt != lastAccepted.blk.ID() ==> Live(id.block.prnt);
      }
      forall id | id in blocks ensures Verified(rules.g, rules.target, rules.genesis, id) && Executed(rules, id) {
        assert old(InTree(id));
      }
    }

    twostate lemma RejectKeepsNodes(b: StatelessBlock)
      requires old(Valid()) && old(!Live(b.blk.ID())) && Dropped(b)
      requires old(b.blk.ID() in verifiedBlocks) && old(verifiedBlocks[b.blk.ID()]) == b
      ensures forall id {:trigger Live(id)} :: Live(id) ==> id.BlockHash? && NodeOk(id)
    {
      forall id | Live(id) ensures id.BlockHash? && NodeOk(id) {
        assert old(Live(id)) && old(NodeOk(id)) && verifiedBlocks[id] != b;
        assert id.block.prnt != lastAccepted.blk.ID() ==> old(NodeOk(id.block.prnt)) && Live(id.block.prnt);
      }
    }

    twostate lemma RejectKeepsValid(b: StatelessBlock)
      requires old(Valid()) && old(!Live(b.blk.ID())) && Dropped(b)
      requires old(b.blk.ID() in verifiedBlocks) && old(verifiedBlocks[b.blk.ID()]) == b
      ensures Valid()
    {
      RejectKeepsStore(b);
      RejectKeepsNodes(b);
      assert lastAccepted != b;
      forall d | d in overlays ensures Live(d.owner) && verifiedBlocks[d.owner].onAcceptDB == d {
        assert old(Live(d.owner)) && old(NodeOk(d.owner));
      }
    }

    /** The committed database is the genesis state with the accepted blocks applied in
        order, oldest first. */
    lemma CommittedIsReplay()
      requires Valid()
      ensures ChainOf(lastAccepted.blk.ID()) != []
      ensures Fold(rules, rules.GenesisState(), ChainOf(lastAccepted.blk.ID())[1..]) == Some(db.view)
    {
      assert InTree(lastAccepted.blk.ID());
      StateIsReplay(rules, lastAccepted.blk.ID());
    }

    /** So is every live block's overlay, for the chain that ends in that block. */
    lemma OverlayIsReplay(id: BlockId)
      requires Valid() && Live(id)
      ensures ChainOf(id) != [] && verifiedBlocks[id].onAcceptDB != null
      ensures Fold(rules, rules.GenesisState(), ChainOf(id)[1..]) == Some(verifiedBlocks[id].onAcceptDB.view)
    {
      assert InTree(id) && NodeOk(id);
      StateIsReplay(rules, id);
    }

    /** So a block of height zero can join the tree, and then onAccept gives the state of its
        parent's chain for it. */
    method HeightZeroGoesLive(block: StatefulBlock, wall: int) returns (b: StatelessBlock)
      requires Valid() && Acceptable(block, wall) && Buildable(block.prnt)
      requires !Known(AtHeight(block, 0).ID())
      modifies this, nodes
      ensures Valid() && b.blk == AtHeight(block, 0) && Live(b.blk.ID())
      ensures StateAfter(rules, b.blk.ID()).Some? && OnAccept(b) == Some(db)
      ensures StateAfter(rules, b.blk.ID()).value != db.view
    {
      HeightIsUnchecked(block, 0, wall);
      assert AtHeight(block, block.hght) == block;
      b := new StatelessBlock(AtHeight(block, 0), Processing);
      var err := Verify(b, wall);
      assert err.None?;
      OnAcceptIsState(b.blk.ID(), b);
    }

    /** The tree takes over no block object and no overlay that somebody else may hold. */
    twostate predicate OwnsOldOrNew()
      reads this
    {
      && (forall n {:trigger n in nodes} :: n in nodes ==> n in old(nodes) || fresh(n))
      && (forall d {:trigger d in overlays} :: d in overlays ==> d in old(overlays) || fresh(d))
    }

    /** Consensus hands over a block it has not seen. */
    method TakeBlock(block: StatefulBlock, wall: int)
      requires Valid() && !Known(block.ID()) && (Known(block.prnt) ==> Buildable(block.prnt))
      modifies this, nodes
      ensures Valid() && OwnsOldOrNew()
      ensures blocks == old(blocks) && lastAccepted == old(lastAccepted)
      ensures verifiedBlocks.Keys ==
              old(verifiedBlocks.Keys) + if old(Acceptable(block, wall)) then {block.ID()} else {}
    {
      var b := new StatelessBlock(block, Processing);
      assert Valid();
      var _ := Verify(b, wall);
    }

    method Take(step: Step)
      requires Valid()
      modifies this, db, nodes, overlays
      ensures Valid() && OwnsOldOrNew() && Outline() == NextTree(rules, old(Outline()), step)
    {
      if !Outline().Allowed(step) {
        return;
      }
      match step
      case VerifyStep(block, wall) => TakeBlock(block, wall);
      case AcceptStep(id) => Accept(verifiedBlocks[id]);
      case RejectStep(id) => Reject(verifiedBlocks[id]);
    }

    method TakeAll(steps: seq<Step>)
      requires Valid()
      modifies this, db, nodes, overlays
      ensures Valid() && OwnsOldOrNew() && Outline() == AfterSteps(rules, old(Outline()), steps)
    {
      for i := 0 to |steps|
        invariant Valid() && OwnsOldOrNew()
        invariant Outline() == AfterSteps(rules, old(Outline()), steps[..i])
      {
        assert steps[..i + 1][..i] == steps[..i];
        Take(steps[i]);
      }
      assert steps[..|steps|] == steps;
    }

    /** Any run of steps, from genesis or from wherever the tree stands, changes the tree as
        the steps say and keeps it valid: the committed database is the replay of the
        accepted chain.  Steps that are not allowed are skipped. */
    method Run(steps: seq<Step>)
      requires Valid()
      modifies this, db, nodes, overlays
      ensures Valid() && OwnsOldOrNew() && Outline() == AfterSteps(rules, old(Outline()), steps)
      ensures ChainOf(lastAccepted.blk.ID()) != []
      ensures Fold(rules, rules.GenesisState(), ChainOf(lastAccepted.blk.ID())[1..]) == Some(db.view)
    {
      TakeAll(steps);
      CommittedIsReplay();
    }
  }
}
