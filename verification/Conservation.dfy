/**
 Conservation of value on the block tree: the ledger's results for the funds that the
 committed database and the overlays of live blocks hold.
 */
module Conservation {
  import opened ChainTypes
  import opened ChainRules
  import opened VersionDb
  import opened Replay
  import opened BlockTree
  import Ledger

  /** The balances and stake balances that a database shows. */
  ghost function FundsOf(view: View): Ledger.Funds {
    Ledger.Funds(
      map k | k in view && k.BalanceKey? && view[k].AmountValue? :: k.holder := view[k].amount,
      map k | k in view && k.StakeBalanceKey? && view[k].AmountValue? :: k.holder := view[k].amount)
  }

  lemma BalanceAt(view: View, a: Address)
    ensures a in FundsOf(view).balances <==> BalanceKey(a) in view && view[BalanceKey(a)].AmountValue?
    ensures a in FundsOf(view).balances ==> FundsOf(view).balances[a] == view[BalanceKey(a)].amount
  {
    assert BalanceKey(a).holder == a;
  }

  lemma StakeAt(view: View, a: Address)
    ensures a in FundsOf(view).stakes <==> StakeBalanceKey(a) in view && view[StakeBalanceKey(a)].AmountValue?
    ensures a in FundsOf(view).stakes ==> FundsOf(view).stakes[a] == view[StakeBalanceKey(a)].amount
  {
    assert StakeBalanceKey(a).holder == a;
  }

  ghost predicate SameAmounts(one: View, other: View) {
    forall k: Key {:trigger k in one} {:trigger k in other} :: k.BalanceKey? || k.StakeBalanceKey? ==>
      (k in one <==> k in other) && (k in one ==> one[k] == other[k])
  }

  lemma SameFunds(one: View, other: View)
    requires SameAmounts(one, other)
    ensures FundsOf(one) == FundsOf(other)
  {
    forall a ensures a in FundsOf(one).balances <==> a in FundsOf(other).balances {
      BalanceAt(one, a);
      BalanceAt(other, a);
    }
    forall a | a in FundsOf(one).balances ensures FundsOf(one).balances[a] == FundsOf(other).balances[a] {
      BalanceAt(one, a);
      BalanceAt(other, a);
    }
    forall a ensures a in FundsOf(one).stakes <==> a in FundsOf(other).stakes {
      StakeAt(one, a);
      StakeAt(other, a);
    }
    forall a | a in FundsOf(one).stakes ensures FundsOf(one).stakes[a] == FundsOf(other).stakes[a] {
      StakeAt(one, a);
      StakeAt(other, a);
    }
  }

  /** What a transaction is to the ledger: the fee units it pays for, and the value it moves,
      which may depend on the state. */
  datatype Moves = Moves(feeUnits: Transaction -> nat, actionOf: (View, int, Transaction) -> Ledger.Action)
  {
    function TxOf(view: View, now: int, t: Transaction): Ledger.Tx {
      Ledger.Tx(t.sender, feeUnits(t), t.price, actionOf(view, now, t))
    }
  }

  /** Executing a transaction moves the funds as the ledger does. */
  ghost predicate MovesFunds(rules: Rules, m: Moves) {
    forall view, now, t {:trigger rules.exec(view, now, t)} :: rules.exec(view, now, t).ok ==>
      Ledger.After(FundsOf(view), m.TxOf(view, now, t)) == Some(FundsOf(Apply(view, rules.exec(view, now, t).writes)))
  }

  /** What the transactions are to the ledger, one after the other. */
  ghost function TxsOf(rules: Rules, m: Moves, view: View, now: int, txs: seq<Transaction>): seq<Ledger.Tx>
    requires RunTxs(rules, view, now, txs).Some?
  {
    if txs == [] then []
    else
      var rest := txs[..|txs| - 1];
      TxsOf(rules, m, view, now, rest) + [m.TxOf(RunTxs(rules, view, now, rest).value, now, txs[|txs| - 1])]
  }

  lemma {:induction false} RunMovesFunds(rules: Rules, m: Moves, view: View, now: int, txs: seq<Transaction>)
    requires MovesFunds(rules, m) && RunTxs(rules, view, now, txs).Some?
    ensures Ledger.AfterAll(FundsOf(view), TxsOf(rules, m, view, now, txs)) ==
            Some(FundsOf(RunTxs(rules, view, now, txs).value))
  {
    if txs != [] {
      var rest, last := txs[..|txs| - 1], txs[|txs| - 1];
      RunMovesFunds(rules, m, view, now, rest);
      var done, before := TxsOf(rules, m, view, now, rest), RunTxs(rules, view, now, rest).value;
      var tx := m.TxOf(before, now, last);
      assert (done + [tx])[..|done|] == done;
      assert rules.exec(before, now, last).ok;
    }
  }

  /** All transactions of the chain that ends in a block. */
  ghost function HistoryOf(rules: Rules, m: Moves, id: BlockId): seq<Ledger.Tx>
    requires StateAfter(rules, id).Some?
  {
    if id.block == rules.genesis then []
    else
      HistoryOf(rules, m, id.block.prnt)
      + TxsOf(rules, m, StateAfter(rules, id.block.prnt).value, id.block.tmstmp, id.block.txs)
  }

  lemma {:induction false} AfterBoth(f: Ledger.Funds, first: seq<Ledger.Tx>, second: seq<Ledger.Tx>)
    requires Ledger.AfterAll(f, first).Some?
    ensures Ledger.AfterAll(f, first + second) == Ledger.AfterAll(Ledger.AfterAll(f, first).value, second)
  {
    if second == [] {
      assert first + second == first;
    } else {
      AfterBoth(f, first, second[..|second| - 1]);
      assert (first + second)[..|first + second| - 1] == first + second[..|second| - 1];
    }
  }

  /** The funds after a block are the genesis allocation with the whole history applied. */
  lemma {:induction false} FundsAreHistory(rules: Rules, m: Moves, id: BlockId)
    requires MovesFunds(rules, m) && StateAfter(rules, id).Some?
    ensures Ledger.AfterAll(FundsOf(rules.allocation), HistoryOf(rules, m, id)) ==
            Some(FundsOf(StateAfter(rules, id).value))
  {
    if id.block == rules.genesis {
      SameFunds(rules.allocation, rules.GenesisState());
    } else {
      var b := id.block;
      var before := StateAfter(rules, b.prnt).value;
      var ran := RunTxs(rules, before, b.tmstmp, b.txs).value;
      FundsAreHistory(rules, m, b.prnt);
      RunMovesFunds(rules, m, before, b.tmstmp, b.txs);
      AfterBoth(FundsOf(rules.allocation), HistoryOf(rules, m, b.prnt), TxsOf(rules, m, before, b.tmstmp, b.txs));
      SameFunds(ran, Apply(ran, StoreBlock(b)));
    }
  }

  /** On every chain the total of all balances and stakes is the genesis allocation less all
      fees plus all inflows. */
  lemma ChainConserves(rules: Rules, m: Moves, id: BlockId)
    requires MovesFunds(rules, m) && StateAfter(rules, id).Some?
    ensures Ledger.Total(FundsOf(StateAfter(rules, id).value)) ==
            Ledger.Total(FundsOf(rules.allocation)) - Ledger.Fees(HistoryOf(rules, m, id))
            + Ledger.Inflows(HistoryOf(rules, m, id))
  {
    FundsAreHistory(rules, m, id);
    Ledger.RunConserves(FundsOf(rules.allocation), HistoryOf(rules, m, id));
  }

  /** So it is for the committed database and for the overlay of every live block, after
      whatever steps the tree has taken. */
  lemma TreeConserves(vm: VM, m: Moves, id: BlockId)
    requires vm.Valid() && MovesFunds(vm.rules, m) && (id == vm.lastAccepted.blk.ID() || vm.Live(id))
    ensures StateAfter(vm.rules, id).Some? && vm.BaseFor(id) != null
    ensures Ledger.Total(FundsOf(vm.BaseFor(id).view)) ==
            Ledger.Total(FundsOf(vm.rules.allocation)) - Ledger.Fees(HistoryOf(vm.rules, m, id))
            + Ledger.Inflows(HistoryOf(vm.rules, m, id))
  {
    if id != vm.lastAccepted.blk.ID() {
      assert vm.NodeOk(id);
    }
    ChainConserves(vm.rules, m, id);
  }

  // ---------- an execution that moves funds ----------

  /** Writes all amounts of the ledger. */
  function Stored(f: Ledger.Funds): Writes {
    (map a | a in f.balances :: BalanceKey(a) := Some(AmountValue(f.balances[a])))
    + (map a | a in f.stakes :: StakeBalanceKey(a) := Some(AmountValue(f.stakes[a])))
  }

  /** Execution that writes what the ledger says. */
  ghost function Execute(m: Moves): (View, int, Transaction) -> ExecResult {
    (view, now, t) =>
      match Ledger.After(FundsOf(view), m.TxOf(view, now, t))
      case None => ExecResult(false, map[])
      case Some(f) => ExecResult(true, Stored(f))
  }

  lemma StoredAt(f: Ledger.Funds, a: Address)
    ensures BalanceKey(a) in Stored(f) <==> a in f.balances
    ensures a in f.balances ==> Stored(f)[BalanceKey(a)] == Some(AmountValue(f.balances[a]))
    ensures StakeBalanceKey(a) in Stored(f) <==> a in f.stakes
    ensures a in f.stakes ==> Stored(f)[StakeBalanceKey(a)] == Some(AmountValue(f.stakes[a]))
  {
    assert BalanceKey(a).holder == a && StakeBalanceKey(a).holder == a;
  }

  /** The key's value is the one that is written, if any. */
  ghost predicate Reads(view: View, key: Key, amount: Option<UInt64>) {
    if amount.Some? then key in view && view[key] == AmountValue(amount.value)
    else key !in view || !view[key].AmountValue?
  }

  lemma WrittenReads(view: View, writes: Writes, key: Key, amount: Option<UInt64>)
    requires amount.Some? ==> key in writes && writes[key] == Some(AmountValue(amount.value))
    requires amount.None? ==> key !in writes && (key !in view || !view[key].AmountValue?)
    ensures Reads(Apply(view, writes), key, amount)
  {}

  lemma BalanceReads(view: View, f: Ledger.Funds, a: Address)
    requires BalanceKey(a) in view && view[BalanceKey(a)].AmountValue? ==> a in f.balances
    ensures Reads(Apply(view, Stored(f)), BalanceKey(a), if a in f.balances then Some(f.balances[a]) else None)
  {
    StoredAt(f, a);
    WrittenReads(view, Stored(f), BalanceKey(a), if a in f.balances then Some(f.balances[a]) else None);
  }

  lemma StakeReads(view: View, f: Ledger.Funds, a: Address)
    requires StakeBalanceKey(a) in view && view[StakeBalanceKey(a)].AmountValue? ==> a in f.stakes
    ensures Reads(Apply(view, Stored(f)), StakeBalanceKey(a), if a in f.stakes then Some(f.stakes[a]) else None)
  {
    StoredAt(f, a);
    WrittenReads(view, Stored(f), StakeBalanceKey(a), if a in f.stakes then Some(f.stakes[a]) else None);
  }

  lemma FundsRead(view: View, f: Ledger.Funds)
    requires forall a :: Reads(view, BalanceKey(a), if a in f.balances then Some(f.balances[a]) else None)
    requires forall a :: Reads(view, StakeBalanceKey(a), if a in f.stakes then Some(f.stakes[a]) else None)
    ensures FundsOf(view) == f
  {
    forall a ensures (a in FundsOf(view).balances <==> a in f.balances)
                     && (a in f.balances ==> FundsOf(view).balances[a] == f.balances[a]) {
      BalanceAt(view, a);
    }
    forall a ensures (a in FundsOf(view).stakes <==> a in f.stakes)
                     && (a in f.stakes ==> FundsOf(view).stakes[a] == f.stakes[a]) {
      StakeAt(view, a);
    }
    assert FundsOf(view).balances == f.balances && FundsOf(view).stakes == f.stakes;
  }

  /** The ledger has an account for everybody that the database has one for. */
  ghost predicate Covered(view: View, f: Ledger.Funds) {
    forall a {:trigger BalanceKey(a)} {:trigger StakeBalanceKey(a)} ::
      && (BalanceKey(a) in view && view[BalanceKey(a)].AmountValue? ==> a in f.balances)
      && (StakeBalanceKey(a) in view && view[StakeBalanceKey(a)].AmountValue? ==> a in f.stakes)
  }

  lemma AccountsCovered(view: View, f: Ledger.Funds)
    requires FundsOf(view).balances.Keys <= f.balances.Keys && FundsOf(view).stakes.Keys <= f.stakes.Keys
    ensures Covered(view, f)
  {
    forall a
      ensures BalanceKey(a) in view && view[BalanceKey(a)].AmountValue? ==> a in f.balances
      ensures StakeBalanceKey(a) in view && view[StakeBalanceKey(a)].AmountValue? ==> a in f.stakes
    {
      BalanceAt(view, a);
      StakeAt(view, a);
    }
  }

  lemma StoredShows(view: View, f: Ledger.Funds)
    requires Covered(view, f)
    ensures FundsOf(Apply(view, Stored(f))) == f
  {
    var after := Apply(view, Stored(f));
    forall a ensures Reads(after, BalanceKey(a), if a in f.balances then Some(f.balances[a]) else None) {
      BalanceReads(view, f, a);
    }
    forall a ensures Reads(after, StakeBalanceKey(a), if a in f.stakes then Some(f.stakes[a]) else None) {
      StakeReads(view, f, a);
    }
    FundsRead(after, f);
  }

  /** No transaction removes an account. */
  lemma AccountsStay(f: Ledger.Funds, tx: Ledger.Tx)
    requires Ledger.After(f, tx).Some?
    ensures f.balances.Keys <= Ledger.After(f, tx).value.balances.Keys
    ensures f.stakes.Keys <= Ledger.After(f, tx).value.stakes.Keys
  {}

  /** What is asked of the execution can be met. */
  lemma LedgerMovesFunds(rules: Rules, m: Moves)
    requires rules.exec == Execute(m)
    ensures MovesFunds(rules, m)
  {
    forall view, now, t | rules.exec(view, now, t).ok
      ensures Ledger.After(FundsOf(view), m.TxOf(view, now, t))
              == Some(FundsOf(Apply(view, rules.exec(view, now, t).writes)))
    {
      var after := Ledger.After(FundsOf(view), m.TxOf(view, now, t));
      assert after.Some? && rules.exec(view, now, t).writes == Stored(after.value);
      AccountsStay(FundsOf(view), m.TxOf(view, now, t));
      AccountsCovered(view, after.value);
      StoredShows(view, after.value);
    }
  }
}
