/**
 Balances and stake balances: the checked arithmetic of chain/storage.go and what the
 transactions that move value do with it.  A transaction writes step by step and may fail
 half way; its overlay is then dropped.
 */
module Ledger {
  import opened ChainTypes

  type Amounts = map<Address, UInt64>

  datatype Funds = Funds(balances: Amounts, stakes: Amounts)

  /** The part of a transaction that moves value.  checked says whether everything that
      does not depend on the balances succeeds: roles, times, confirmations, the declared
      reward, and the bookkeeping in the caches. */
  datatype Action =
    | Transfer(to: Address, units: UInt64)
    | Stake(checked: bool, amount: UInt64)
    | Unstake(checked: bool, stakeAmount: UInt64, reward: UInt64)
    | Claim(checked: bool, reward: UInt64)
    | AddUser(checked: bool, payAmount: UInt64)
    | NoValue(checked: bool)

  datatype Tx = Tx(sender: Address, feeUnits: nat, price: nat, action: Action)
  {
    function Fee(): UInt64 { Wrap(feeUnits * price) }
  }

  // An address without an entry owns nothing.
  function Get(m: Amounts, a: Address): UInt64 {
    if a in m then m[a] else 0
  }

  // ---------- totals ----------

  ghost function Sum(m: Amounts): nat {
    if m == map[] then 0
    else
      var a :| a in m;
      m[a] + Sum(m - {a})
  }

  lemma {:induction false} SumWithout(m: Amounts, a: Address)
    requires a in m
    ensures Sum(m) == m[a] + Sum(m - {a})
  {
    var b :| b in m && Sum(m) == m[b] + Sum(m - {b});
    if b != a {
      SumWithout(m - {b}, a);
      SumWithout(m - {a}, b);
      assert m - {a} - {b} == m - {b} - {a};
    }
  }

  /** Setting one amount changes the total by the difference, and no other amount. */
  lemma SumSet(m: Amounts, a: Address, n: UInt64)
    ensures Sum(m[a := n]) == Sum(m) - Get(m, a) + n
  {
    SumWithout(m[a := n], a);
    assert m[a := n] - {a} == m - {a};
    if a in m {
      SumWithout(m, a);
    } else {
      assert m - {a} == m;
    }
  }

  ghost function Total(f: Funds): nat { Sum(f.balances) + Sum(f.stakes) }

  // ---------- checked arithmetic ----------

  function SafeAdd(x: UInt64, y: UInt64): (r: (UInt64, bool))
    ensures r.1 <==> x + y > MAX_UINT64
    ensures !r.1 ==> r.0 == x + y
  {
    (Wrap(x + y), y > MAX_UINT64 - x)
  }

  function SafeSub(x: UInt64, y: UInt64): (r: (UInt64, bool))
    ensures r.1 <==> y > x
    ensures !r.1 ==> r.0 == x - y
  {
    (Wrap(x - y), y > x)
  }

  /** A change to one amount that fails if the amount would leave its range. */
  function Modified(m: Amounts, a: Address, add: bool, change: UInt64): Option<Amounts> {
    var n := if add then Get(m, a) + change else Get(m, a) - change;
    if 0 <= n <= MAX_UINT64 then Some(m[a := n]) else None
  }

  // ---------- what a transaction does to the funds ----------

  function WithBalance(f: Funds, a: Address, add: bool, change: UInt64): Option<Funds> {
    match Modified(f.balances, a, add, change)
    case None => None
    case Some(balances) => Some(f.(balances := balances))
  }

  function WithStake(f: Funds, a: Address, add: bool, change: UInt64): Option<Funds> {
    match Modified(f.stakes, a, add, change)
    case None => None
    case Some(stakes) => Some(f.(stakes := stakes))
  }

  function Then(f: Option<Funds>, next: Funds -> Option<Funds>): Option<Funds> {
    match f
    case None => None
    case Some(g) => next(g)
  }

  /** The funds after a transaction, if it succeeds. */
  function After(f: Funds, tx: Tx): Option<Funds> {
    Then(WithBalance(f, tx.sender, false, tx.Fee()), g => AfterAction(g, tx.sender, tx.action))
  }

  function AfterAction(f: Funds, sender: Address, action: Action): Option<Funds> {
    match action
    case Transfer(to, units) =>
      if to == 0 || to == sender || units == 0 then None
      else Then(WithBalance(f, sender, false, units), g => WithBalance(g, to, true, units))
    case Stake(checked, amount) =>
      if !checked then None
      else Then(WithBalance(f, sender, false, amount), g => WithStake(g, sender, true, amount))
    case Unstake(checked, stakeAmount, reward) =>
      if !checked then None
      else Then(WithStake(f, sender, false, stakeAmount), g => WithBalance(g, sender, true, Wrap(stakeAmount + reward)))
    case Claim(checked, reward) => if !checked then None else WithBalance(f, sender, true, reward)
    case AddUser(checked, payAmount) => if !checked then None else WithBalance(f, sender, false, payAmount)
    case NoValue(checked) => if !checked then None else Some(f)
  }

  /** The value that an action takes in from outside the ledger or gives out. */
  function Inflow(action: Action): int {
    match action
    case Transfer(_, _) => 0
    case Stake(_, _) => 0
    case Unstake(_, stakeAmount, reward) => Wrap(stakeAmount + reward) - stakeAmount
    case Claim(_, reward) => reward
    case AddUser(_, payAmount) => 0 - payAmount
    case NoValue(_) => 0
  }

  lemma BalanceMoves(f: Funds, a: Address, add: bool, change: UInt64)
    requires WithBalance(f, a, add, change).Some?
    ensures Total(WithBalance(f, a, add, change).value) == Total(f) + (if add then change else 0 - change)
  {
    SumSet(f.balances, a, if add then Get(f.balances, a) + change else Get(f.balances, a) - change);
  }

  lemma StakeMoves(f: Funds, a: Address, add: bool, change: UInt64)
    requires WithStake(f, a, add, change).Some?
    ensures Total(WithStake(f, a, add, change).value) == Total(f) + (if add then change else 0 - change)
  {
    SumSet(f.stakes, a, if add then Get(f.stakes, a) + change else Get(f.stakes, a) - change);
  }

  lemma ActionConserves(f: Funds, sender: Address, action: Action)
    requires AfterAction(f, sender, action).Some?
    ensures Total(AfterAction(f, sender, action).value) == Total(f) + Inflow(action)
  {
    match action
    case Transfer(to, units) =>
      BalanceMoves(f, sender, false, units);
      BalanceMoves(WithBalance(f, sender, false, units).value, to, true, units);
    case Stake(_, amount) =>
      BalanceMoves(f, sender, false, amount);
      StakeMoves(WithBalance(f, sender, false, amount).value, sender, true, amount);
    case Unstake(_, stakeAmount, reward) =>
      StakeMoves(f, sender, false, stakeAmount);
      BalanceMoves(WithStake(f, sender, false, stakeAmount).value, sender, true, Wrap(stakeAmount + reward));
    case Claim(_, reward) => BalanceMoves(f, sender, true, reward);
    case AddUser(_, payAmount) => BalanceMoves(f, sender, false, payAmount);
    case NoValue(_) =>
  }

  /** Value is conserved: the total changes by the fee and by what the action takes in or
      gives out; a transfer only moves value, and staking only locks it. */
  lemma Conserved(f: Funds, tx: Tx)
    requires After(f, tx).Some?
    ensures Total(After(f, tx).value) == Total(f) - tx.Fee() + Inflow(tx.action)
  {
    BalanceMoves(f, tx.sender, false, tx.Fee());
    ActionConserves(WithBalance(f, tx.sender, false, tx.Fee()).value, tx.sender, tx.action);
  }

  /** Unstaking pays out stake and reward in one unchecked sum: besides the fee the total
      changes by exactly the reward if and only if that sum does not overflow. */
  lemma UnstakePaysReward(f: Funds, tx: Tx)
    requires tx.action.Unstake? && After(f, tx).Some?
    ensures Total(After(f, tx).value) == Total(f) - tx.Fee() + tx.action.reward <==>
            tx.action.stakeAmount + tx.action.reward <= MAX_UINT64
  {
    Conserved(f, tx);
  }

  /** It can overflow and succeed: the stake of one unit is gone and no reward comes in. */
  lemma UnstakeOverflows(a: Address)
    ensures var f, tx := Funds(map[], map[a := 1]), Tx(a, 0, 0, Unstake(true, 1, MAX_UINT64));
            After(f, tx).Some? && Total(After(f, tx).value) == Total(f) - 1
  {
    Conserved(Funds(map[], map[a := 1]), Tx(a, 0, 0, Unstake(true, 1, MAX_UINT64)));
  }

  /** Nobody's funds change but the sender's and, for a transfer, the recipient's; a
      sender's balance only falls by a transfer, a stake or a payment, and by the fee. */
  lemma OthersUntouched(f: Funds, tx: Tx, a: Address)
    requires After(f, tx).Some? && a != tx.sender
    ensures Get(After(f, tx).value.stakes, a) == Get(f.stakes, a)
    ensures Get(After(f, tx).value.balances, a) ==
            Get(f.balances, a) + (if tx.action.Transfer? && a == tx.action.to then tx.action.units else 0)
  {}

  lemma SenderPays(f: Funds, tx: Tx)
    requires After(f, tx).Some?
    ensures Get(After(f, tx).value.balances, tx.sender) + Get(After(f, tx).value.stakes, tx.sender) ==
            Get(f.balances, tx.sender) + Get(f.stakes, tx.sender) - tx.Fee() + Inflow(tx.action)
            - (if tx.action.Transfer? then tx.action.units else 0)
  {}

  /** When a transaction succeeds, in amounts. */
  predicate CanPay(f: Funds, tx: Tx) {
    var left, locked := Get(f.balances, tx.sender) - Wrap(tx.feeUnits * tx.price), Get(f.stakes, tx.sender);
    && left >= 0
    && match tx.action
       case Transfer(to, units) =>
         to != 0 && to != tx.sender && 0 < units <= left && Get(f.balances, to) + units <= MAX_UINT64
       case Stake(checked, amount) => checked && amount <= left && locked + amount <= MAX_UINT64
       case Unstake(checked, stakeAmount, reward) =>
         checked && stakeAmount <= locked && left + Wrap(stakeAmount + reward) <= MAX_UINT64
       case Claim(checked, reward) => checked && left + reward <= MAX_UINT64
       case AddUser(checked, payAmount) => checked && payAmount <= left
       case NoValue(checked) => checked
  }

  lemma SucceedsIff(f: Funds, tx: Tx)
    ensures After(f, tx).Some? <==> CanPay(f, tx)
  {}

  /** By how much a transaction changes an address's stake balance. */
  function StakeChange(tx: Tx, a: Address): int {
    if a != tx.sender then 0
    else if tx.action.Stake? then tx.action.amount
    else if tx.action.Unstake? then 0 - tx.action.stakeAmount
    else 0
  }

  /** By how much it changes its balance. */
  function BalanceChange(tx: Tx, a: Address): int {
    if a == tx.sender then Gain(tx.action) - Wrap(tx.feeUnits * tx.price)
    else if tx.action.Transfer? && a == tx.action.to then tx.action.units
    else 0
  }

  /** What the action brings into its sender's balance. */
  function Gain(action: Action): int {
    match action
    case Transfer(_, units) => 0 - units
    case Stake(_, amount) => 0 - amount
    case Unstake(_, stakeAmount, reward) => Wrap(stakeAmount + reward)
    case Claim(_, reward) => reward
    case AddUser(_, payAmount) => 0 - payAmount
    case NoValue(_) => 0
  }

  lemma ActionMoves(f: Funds, sender: Address, action: Action)
    requires AfterAction(f, sender, action).Some?
    ensures var after := AfterAction(f, sender, action).value;
            && Get(after.balances, sender) == Get(f.balances, sender) + Gain(action)
            && Get(after.stakes, sender) == Get(f.stakes, sender) + StakeChange(Tx(sender, 0, 0, action), sender)
  {}

  /** Balance and stake balance move apart: a stake goes from the one to the other, an
      unstaking back. */
  lemma MovesEach(f: Funds, tx: Tx, a: Address)
    requires After(f, tx).Some?
    ensures Get(After(f, tx).value.stakes, a) == Get(f.stakes, a) + StakeChange(tx, a)
    ensures Get(After(f, tx).value.balances, a) == Get(f.balances, a) + BalanceChange(tx, a)
  {
    if a == tx.sender {
      ActionMoves(WithBalance(f, tx.sender, false, tx.Fee()).value, tx.sender, tx.action);
    } else {
      OthersUntouched(f, tx, a);
    }
  }

  /** Staking an amount and unstaking it without reward gives everybody the funds back, less
      the sender's fees; the unstaking succeeds exactly if its fee is there. */
  lemma StakeThenUnstake(f: Funds, stake: Tx, unstake: Tx, amount: UInt64, a: Address)
    requires stake.action == Stake(true, amount) && unstake.action == Unstake(true, amount, 0)
    requires stake.sender == unstake.sender && After(f, stake).Some?
    ensures var staked := After(f, stake).value;
            && (After(staked, unstake).Some? <==> unstake.Fee() <= Get(staked.balances, stake.sender))
            && (After(staked, unstake).Some? ==>
                  var again := After(staked, unstake).value;
                  && Get(again.stakes, a) == Get(f.stakes, a)
                  && Get(again.balances, a) ==
                     Get(f.balances, a) - (if a == stake.sender then stake.Fee() + unstake.Fee() else 0))
  {
    MovesEach(f, stake, stake.sender);
    MovesEach(f, stake, a);
    SucceedsIff(After(f, stake).value, unstake);
    if After(After(f, stake).value, unstake).Some? {
      MovesEach(After(f, stake).value, unstake, a);
    }
  }

  // ---------- runs ----------

  function AfterAll(f: Funds, txs: seq<Tx>): Option<Funds> {
    if txs == [] then Some(f)
    else Then(AfterAll(f, txs[..|txs| - 1]), g => After(g, txs[|txs| - 1]))
  }

  function Fees(txs: seq<Tx>): nat {
    if txs == [] then 0 else Fees(txs[..|txs| - 1]) + txs[|txs| - 1].Fee()
  }

  function Inflows(txs: seq<Tx>): int {
    if txs == [] then 0 else Inflows(txs[..|txs| - 1]) + Inflow(txs[|txs| - 1].action)
  }

  /** Conservation over any run of transactions. */
  lemma {:induction false} RunConserves(f: Funds, txs: seq<Tx>)
    requires AfterAll(f, txs).Some?
    ensures Total(AfterAll(f, txs).value) == Total(f) - Fees(txs) + Inflows(txs)
  {
    if txs != [] {
      var n := |txs| - 1;
      RunConserves(f, txs[..n]);
      Conserved(AfterAll(f, txs[..n]).value, txs[n]);
    }
  }

  function StakeChanges(txs: seq<Tx>, a: Address): int {
    if txs == [] then 0 else StakeChanges(txs[..|txs| - 1], a) + StakeChange(txs[|txs| - 1], a)
  }

  function BalanceChanges(txs: seq<Tx>, a: Address): int {
    if txs == [] then 0 else BalanceChanges(txs[..|txs| - 1], a) + BalanceChange(txs[|txs| - 1], a)
  }

  /** Over any run an address's stake balance changes by what it stakes less what it unstakes,
      and its balance by everything else it pays and is paid. */
  lemma {:induction false} RunMovesEach(f: Funds, txs: seq<Tx>, a: Address)
    requires AfterAll(f, txs).Some?
    ensures Get(AfterAll(f, txs).value.stakes, a) == Get(f.stakes, a) + StakeChanges(txs, a)
    ensures Get(AfterAll(f, txs).value.balances, a) == Get(f.balances, a) + BalanceChanges(txs, a)
  {
    if txs != [] {
      var n := |txs| - 1;
      RunMovesEach(f, txs[..n], a);
      MovesEach(AfterAll(f, txs[..n]).value, txs[n], a);
    }
  }

  class Store {
    var balances: Amounts
    var stakes: Amounts

    constructor (f: Funds)
      ensures balances == f.balances && stakes == f.stakes
    {
      balances, stakes := f.balances, f.stakes;
    }

    function Contents(): Funds
      reads this
    {
      Funds(balances, stakes)
    }

    /** ModifyBalance: all or nothing, for one address. */
    method ModifyBalance(a: Address, add: bool, change: UInt64) returns (ok: bool)
      modifies this`balances
      ensures ok <==> Modified(old(balances), a, add, change).Some?
      ensures balances == if ok then Modified(old(balances), a, add, change).value else old(balances)
    {
      var b := Get(balances, a);
      var (n, xflow) := if add then SafeAdd(b, change) else SafeSub(b, change);
      if xflow {
        return false;
      }
      balances := balances[a := n];
      ok := true;
    }

    method ModifyStakeBalance(a: Address, add: bool, change: UInt64) returns (ok: bool)
      modifies this`stakes
      ensures ok <==> Modified(old(stakes), a, add, change).Some?
      ensures stakes == if ok then Modified(old(stakes), a, add, change).value else old(stakes)
    {
      var b := Get(stakes, a);
      var (n, xflow) := if add then SafeAdd(b, change) else SafeSub(b, change);
      if xflow {
        return false;
      }
      stakes := stakes[a := n];
      ok := true;
    }

    /** Transaction.Execute, the part that moves value: writes in place, step by step.  When
        it fails it may have written already. */
    method Execute(tx: Tx) returns (ok: bool)
      modifies this
      ensures ok <==> After(old(Contents()), tx).Some?
      ensures ok ==> Contents() == After(old(Contents()), tx).value
    {
      ok := ModifyBalance(tx.sender, false, tx.Fee());
      if !ok {
        return;
      }
      match tx.action
      case Transfer(to, units) =>
        if to == 0 || to == tx.sender || units == 0 {
          return false;
        }
        ok := ModifyBalance(tx.sender, false, units);
        if !ok {
          return;
        }
        ok := ModifyBalance(to, true, units);
      case Stake(checked, amount) =>
        if !checked {
          return false;
        }
        ok := ModifyBalance(tx.sender, false, amount);
        if !ok {
          return;
        }
        ok := ModifyStakeBalance(tx.sender, true, amount);
      case Unstake(checked, stakeAmount, reward) =>
        if !checked {
          return false;
        }
        ok := ModifyStakeBalance(tx.sender, false, stakeAmount);
        if !ok {
          return;
        }
        ok := ModifyBalance(tx.sender, true, Wrap(stakeAmount + reward));
      case Claim(checked, reward) =>
        if !checked {
          return false;
        }
        ok := ModifyBalance(tx.sender, true, reward);
      case AddUser(checked, payAmount) =>
        if !checked {
          return false;
        }
        ok := ModifyBalance(tx.sender, false, payAmount);
      case NoValue(checked) =>
        ok := checked;
    }

    /** The transactions of a block on an overlay: all of them take effect or none. */
    method ExecuteAll(txs: seq<Tx>) returns (ok: bool)
      modifies this
      ensures ok <==> AfterAll(old(Contents()), txs).Some?
      ensures Contents() == if ok then AfterAll(old(Contents()), txs).value else old(Contents())
      ensures ok ==> Total(Contents()) == Total(old(Contents())) - Fees(txs) + Inflows(txs)
    {
      var overlay := new Store(Contents());
      for i := 0 to |txs|
        invariant fresh(overlay) && unchanged(this)
        invariant AfterAll(Contents(), txs[..i]) == Some(overlay.Contents())
      {
        assert txs[..i + 1][..i] == txs[..i];
        ok := overlay.Execute(txs[i]);
        if !ok {
          FailsOn(Contents(), txs, i + 1);
          return;
        }
      }
      assert txs[..|txs|] == txs;
      RunConserves(Contents(), txs);
      balances, stakes := overlay.balances, overlay.stakes;
      ok := true;
    }
  }

  lemma {:induction false} FailsOn(f: Funds, txs: seq<Tx>, n: nat)
    requires n <= |txs| && AfterAll(f, txs[..n]).None?
    ensures AfterAll(f, txs).None?
  {
    if n < |txs| {
      assert txs[..|txs| - 1][..n] == txs[..n];
      FailsOn(f, txs[..|txs| - 1], n);
    } else {
      assert txs[..n] == txs;
    }
  }
}
