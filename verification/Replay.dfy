/**
 What the state is after a block, as plain replay: start from the genesis state and run
 the blocks of the chain in order.  Executing one transaction is a parameter: a
 deterministic function of what the database shows, the block time and the transaction.
 It may write before it fails.
 */
module Replay {
  import opened ChainTypes
  import opened ChainRules
  import opened VersionDb

  datatype ExecResult = ExecResult(ok: bool, writes: Writes)

  datatype Rules = Rules(
    g: Genesis,
    target: nat,  // load units that leave the price as it is
    genesis: StatefulBlock,
    allocation: View,  // what loading the genesis parameters writes
    exec: (View, int, Transaction) -> ExecResult,
    proofOf: (View, BlockId, nat) -> nat)
  {
    /** The genesis block is stored and marked as last accepted like any other. */
    function GenesisState(): View { Apply(allocation, StoreBlock(genesis)) }
  }

  /** The state after running the transactions in order, if none of them fails. */
  function RunTxs(rules: Rules, view: View, tmstmp: int, txs: seq<Transaction>): Option<View> {
    if txs == [] then Some(view)
    else
      match RunTxs(rules, view, tmstmp, txs[..|txs| - 1])
      case None => None
      case Some(before) =>
        var r := rules.exec(before, tmstmp, txs[|txs| - 1]);
        if r.ok then Some(Apply(before, r.writes)) else None
  }

  /** What SetLastAccepted writes. */
  function StoreBlock(b: StatefulBlock): Writes {
    map[LastAcceptedKey := Some(IdValue(b.ID())), BlockKey(b.ID()) := Some(BlockValue(b))]
  }

  function ApplyBlock(rules: Rules, view: View, b: StatefulBlock): Option<View> {
    match RunTxs(rules, view, b.tmstmp, b.txs)
    case None => None
    case Some(after) => Some(Apply(after, StoreBlock(b)))
  }

  function StateAfter(rules: Rules, id: BlockId): Option<View> {
    match id
    case EmptyId => None
    case BlockHash(b) =>
      if b == rules.genesis then Some(rules.GenesisState())
      else
        match StateAfter(rules, b.prnt)
        case None => None
        case Some(before) => ApplyBlock(rules, before, b)
  }

  /** The state after a block names the block as the last accepted one. */
  lemma LastAcceptedIs(rules: Rules, id: BlockId)
    requires StateAfter(rules, id).Some?
    ensures LastAcceptedKey in StateAfter(rules, id).value
    ensures StateAfter(rules, id).value[LastAcceptedKey] == IdValue(id)
    ensures BlockKey(id) in StateAfter(rules, id).value
    ensures StateAfter(rules, id).value[BlockKey(id)] == BlockValue(id.block)
  {}

  /** The fee paid above the block price, in unsigned 64-bit arithmetic. */
  function SurplusFee(g: Genesis, price: nat, txs: seq<Transaction>): nat {
    if txs == [] then 0
    else
      var t := txs[|txs| - 1];
      Wrap(SurplusFee(g, price, txs[..|txs| - 1]) + Wrap(Wrap(t.price - price) * t.LoadUnits(g)))
  }

  /** What the transactions pay at their own prices. */
  function Paid(g: Genesis, txs: seq<Transaction>): nat {
    if txs == [] then 0 else Paid(g, txs[..|txs| - 1]) + txs[|txs| - 1].price * txs[|txs| - 1].LoadUnits(g)
  }

  /** The surplus is what they pay less what their load costs at the block price, modulo 2^64. */
  lemma {:induction false} SurplusIsExcess(g: Genesis, price: nat, txs: seq<Transaction>)
    ensures SurplusFee(g, price, txs) == Wrap(Paid(g, txs) - price * BlockUnits(g, txs))
  {
    if txs != [] {
      var before, t := txs[..|txs| - 1], txs[|txs| - 1];
      SurplusIsExcess(g, price, before);
      SurplusNext(SurplusFee(g, price, before), Paid(g, before), BlockUnits(g, before), price, t.price,
                  t.LoadUnits(g));
    }
  }

  lemma SurplusNext(surplus: nat, paid: nat, units: nat, price: nat, own: nat, load: nat)
    requires surplus == Wrap(paid - price * units)
    ensures Wrap(surplus + Wrap(Wrap(own - price) * load)) == Wrap(paid + own * load - price * (units + load))
  {
    var more := load * (own - price);
    assert Wrap(Wrap(own - price) * load) == Wrap(more) by {
      WrapProduct(load, own - price);
      assert Wrap(own - price) * load == load * Wrap(own - price);
    }
    WrapTwo(paid - price * units, more);
    assert price * (units + load) == price * units + price * load;
    assert more == own * load - price * load;
  }

  /** The checks of verify that look at the parent's state. */
  predicate BodyOk(rules: Rules, before: View, b: StatefulBlock) {
    && b.accessProof == rules.proofOf(before, b.prnt, b.hght)
    && RunTxs(rules, before, b.tmstmp, b.txs).Some?
    && SurplusFee(rules.g, b.price, b.txs) >= Wrap(b.price * b.cost)
  }

  /** Every block of the chain that ends in id, except genesis, passed those checks on the
      state after the block before it. */
  ghost predicate Executed(rules: Rules, id: BlockId) {
    && id.BlockHash?
    && (id.block == rules.genesis
        || (Executed(rules, id.block.prnt) && StateAfter(rules, id.block.prnt).Some?
            && BodyOk(rules, StateAfter(rules, id.block.prnt).value, id.block)))
  }

  function Ancestors(id: BlockId): set<BlockId> {
    match id
    case EmptyId => {}
    case BlockHash(b) => {id} + Ancestors(b.prnt)
  }

  /** If a run of transactions fails, every longer run fails. */
  lemma {:induction false} RunTxsPrefix(rules: Rules, view: View, tmstmp: int, txs: seq<Transaction>, n: nat)
    requires n <= |txs| && RunTxs(rules, view, tmstmp, txs).Some?
    ensures RunTxs(rules, view, tmstmp, txs[..n]).Some?
  {
    if n < |txs| {
      RunTxsPrefix(rules, view, tmstmp, txs[..|txs| - 1], n);
      assert txs[..|txs| - 1][..n] == txs[..n];
    } else {
      assert txs[..n] == txs;
    }
  }

  lemma {:induction false} AncestorDepth(id: BlockId, anc: BlockId)
    requires anc in Ancestors(id)
    ensures Depth(anc) <= Depth(id) && (Depth(anc) == Depth(id) ==> anc == id)
    ensures Ancestors(anc) <= Ancestors(id)
  {
    if anc != id {
      AncestorDepth(id.block.prnt, anc);
    }
  }

  /** Replaying a chain is folding its blocks over the genesis state, one at a time. */
  function Fold(rules: Rules, view: View, blocks: seq<StatefulBlock>): Option<View>
    decreases |blocks|
  {
    if blocks == [] then Some(view)
    else
      match ApplyBlock(rules, view, blocks[0])
      case None => None
      case Some(after) => Fold(rules, after, blocks[1..])
  }

  lemma {:induction false} FoldSnoc(rules: Rules, view: View, blocks: seq<StatefulBlock>, b: StatefulBlock)
    ensures Fold(rules, view, blocks + [b]) ==
            match Fold(rules, view, blocks) case None => None case Some(before) => ApplyBlock(rules, before, b)
    decreases |blocks|
  {
    if blocks == [] {
      assert ([] + [b])[1..] == [];
    } else {
      assert (blocks + [b])[1..] == blocks[1..] + [b];
      match ApplyBlock(rules, view, blocks[0])
      case None =>
      case Some(after) => FoldSnoc(rules, after, blocks[1..], b);
    }
  }

  /** The state after a verified block is the genesis state with the blocks of its chain
      applied in order, oldest first. */
  lemma {:induction false} StateIsReplay(rules: Rules, id: BlockId)
    requires IsGenesis(rules.genesis) && Verified(rules.g, rules.target, rules.genesis, id)
    ensures |ChainOf(id)| > 0
    ensures StateAfter(rules, id) == Fold(rules, rules.GenesisState(), ChainOf(id)[1..])
  {
    if id.block == rules.genesis {
      assert ChainOf(id) == [id.block];
    } else {
      StateIsReplay(rules, id.block.prnt);
      var rest := ChainOf(id.block.prnt);
      assert ChainOf(id)[1..] == rest[1..] + [id.block];
      FoldSnoc(rules, rules.GenesisState(), rest[1..], id.block);
    }
  }

  /** Every block of a verified and executed chain carries the access proof of the replay of
      the blocks before it, and pays for its cost. */
  lemma {:induction false} ProofIsOfReplay(rules: Rules, id: BlockId, i: nat)
    requires IsGenesis(rules.genesis) && Verified(rules.g, rules.target, rules.genesis, id) && Executed(rules, id)
    requires 0 < i < |ChainOf(id)|
    ensures var b, before := ChainOf(id)[i], Fold(rules, rules.GenesisState(), ChainOf(id)[1..i]);
            && before.Some? && b.accessProof == rules.proofOf(before.value, b.prnt, b.hght)
            && SurplusFee(rules.g, b.price, b.txs) >= Wrap(b.price * b.cost)
  {
    var rest := ChainOf(id.block.prnt);
    assert ChainOf(id) == rest + [id.block];
    VerifiedAt(rules.g, rules.target, rules.genesis, id, 0);
    if i < |rest| {
      ProofIsOfReplay(rules, id.block.prnt, i);
      assert ChainOf(id)[1..i] == rest[1..i];
    } else {
      GenesisIsAlone(rules.genesis, id);
      StateIsReplay(rules, id.block.prnt);
      assert ChainOf(id)[1..i] == rest[1..];
    }
  }

  lemma GenesisIsAlone(genesis: StatefulBlock, id: BlockId)
    requires IsGenesis(genesis) && |ChainOf(id)| > 1
    ensures id.block != genesis
  {
    assert |ChainOf(id.block.prnt)| > 0;
  }
}
