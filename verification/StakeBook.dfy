/**
 Stake balances against staker records, chain/stake_tx.go and chain/unstake_tx.go.  A stake
 is debited from the sender but recorded under the address that the transaction names, and
 unstaking takes the recorded amount from the stake balance of its sender.  Whether an
 address stakes is looked up among the committed records.
 */
module StakeBook {
  import opened ChainTypes
  import opened Ledger
  import opened VersionDb

  /** The staked amount of every kind and address. */
  type Records = map<(StakerKind, Address), UInt64>

  /** Stake balances and records as the block in flight leaves them, and as committed. */
  datatype Book = Book(stakes: Amounts, records: Records, committedStakes: Amounts, committed: Records)

  datatype Step =
    | StakeStep(sender: Address, kind: StakerKind, addr: Address, amount: UInt64, checked: bool)
    | UnstakeStep(sender: Address, kind: StakerKind, checked: bool)
    | CommitStep
    | AbortStep

  function Recorded(records: Records, kind: StakerKind, a: Address): UInt64 {
    if (kind, a) in records then records[(kind, a)] else 0
  }

  predicate IsStaker(records: Records, a: Address) {
    (Route, a) in records || (Ser, a) in records || (Validator, a) in records
  }

  /** What the records say that an address has staked. */
  function Staked(records: Records, a: Address): nat {
    Recorded(records, Route, a) + Recorded(records, Ser, a) + Recorded(records, Validator, a)
  }

  /** Whether the transaction of the step succeeds, as far as the book decides. */
  predicate Succeeds(b: Book, step: Step) {
    match step
    case StakeStep(sender, kind, addr, amount, checked) =>
      checked && addr != 0 && !IsStaker(b.committed, addr) && Modified(b.stakes, sender, true, amount).Some?
    case UnstakeStep(sender, kind, checked) =>
      && checked && kind != Validator && (kind, sender) in b.committed
      && Modified(b.stakes, sender, false, b.committed[(kind, sender)]).Some?
    case _ => true
  }

  function Next(b: Book, step: Step): Book {
    if !Succeeds(b, step) then b
    else
      match step
      case StakeStep(sender, kind, addr, amount, _) =>
        b.(stakes := Modified(b.stakes, sender, true, amount).value, records := b.records[(kind, addr) := amount])
      case UnstakeStep(sender, kind, _) =>
        b.(stakes := Modified(b.stakes, sender, false, b.committed[(kind, sender)]).value,
           records := b.records - {(kind, sender)})
      case CommitStep => b.(committedStakes := b.stakes, committed := b.records)
      case AbortStep => b.(stakes := b.committedStakes, records := b.committed)
  }

  function AfterAll(b: Book, steps: seq<Step>): Book {
    if steps == [] then b else Next(AfterAll(b, steps[..|steps| - 1]), steps[|steps| - 1])
  }

  /** Every stake balance is the sum of the address's records. */
  ghost predicate Covers(stakes: Amounts, records: Records) {
    forall a {:trigger Get(stakes, a)} :: Get(stakes, a) == Staked(records, a)
  }

  ghost predicate Backed(b: Book) {
    Covers(b.stakes, b.records) && Covers(b.committedStakes, b.committed)
  }

  /** A stake for the sender itself that replaces no record, or an unstaking that takes out
      what the record in flight holds. */
  predicate Own(b: Book, step: Step) {
    match step
    case StakeStep(sender, kind, addr, amount, _) =>
      Succeeds(b, step) ==> Recorded(b.records, kind, addr) == 0 && (sender == addr || amount == 0)
    case UnstakeStep(sender, kind, _) =>
      Succeeds(b, step) ==> Recorded(b.records, kind, sender) == b.committed[(kind, sender)]
    case _ => true
  }

  /** Exactly such steps keep every stake balance the sum of the address's records. */
  lemma NextKeepsBacked(b: Book, step: Step)
    requires Backed(b)
    ensures Backed(Next(b, step)) <==> Own(b, step)
  {
    if Succeeds(b, step) {
      match step
      case StakeStep(sender, kind, addr, amount, _) => StakeKeepsCovers(b, sender, kind, addr, amount);
      case UnstakeStep(sender, kind, _) => UnstakeKeepsCovers(b, sender, kind);
      case _ =>
    }
  }

  lemma StakeKeepsCovers(b: Book, sender: Address, kind: StakerKind, addr: Address, amount: UInt64)
    requires Covers(b.stakes, b.records) && Modified(b.stakes, sender, true, amount).Some?
    ensures Covers(Modified(b.stakes, sender, true, amount).value, b.records[(kind, addr) := amount]) <==>
            Recorded(b.records, kind, addr) == 0 && (sender == addr || amount == 0)
  {
    var stakes, records := Modified(b.stakes, sender, true, amount).value, b.records[(kind, addr) := amount];
    StakedAfterPut(b.records, kind, addr, amount);
    forall a ensures Get(stakes, a) == Staked(b.records, a) + if a == sender then amount else 0 {
      assert Get(b.stakes, a) == Staked(b.records, a);
    }
    assert Covers(stakes, records) ==>
           Get(stakes, sender) == Staked(records, sender) && Get(stakes, addr) == Staked(records, addr);
  }

  lemma UnstakeKeepsCovers(b: Book, sender: Address, kind: StakerKind)
    requires Covers(b.stakes, b.records) && (kind, sender) in b.committed
    requires Modified(b.stakes, sender, false, b.committed[(kind, sender)]).Some?
    ensures Covers(Modified(b.stakes, sender, false, b.committed[(kind, sender)]).value,
                   b.records - {(kind, sender)}) <==>
            Recorded(b.records, kind, sender) == b.committed[(kind, sender)]
  {
    var amount := b.committed[(kind, sender)];
    var stakes, records := Modified(b.stakes, sender, false, amount).value, b.records - {(kind, sender)};
    StakedAfterDelete(b.records, kind, sender);
    forall a ensures Get(stakes, a) == Staked(b.records, a) - if a == sender then amount else 0 {
      assert Get(b.stakes, a) == Staked(b.records, a);
    }
    assert Covers(stakes, records) ==> Get(stakes, sender) == Staked(records, sender);
  }

  lemma StakedAfterPut(records: Records, kind: StakerKind, addr: Address, amount: UInt64)
    ensures forall a {:trigger Staked(records, a)} {:trigger Staked(records[(kind, addr) := amount], a)} ::
              Staked(records[(kind, addr) := amount], a) ==
              Staked(records, a) + if a == addr then amount - Recorded(records, kind, addr) else 0
  {}

  lemma StakedAfterDelete(records: Records, kind: StakerKind, addr: Address)
    ensures forall a {:trigger Staked(records, a)} {:trigger Staked(records - {(kind, addr)}, a)} ::
              Staked(records - {(kind, addr)}, a) ==
              Staked(records, a) - if a == addr then Recorded(records, kind, addr) else 0
  {}

  ghost predicate AlwaysBacked(b: Book, steps: seq<Step>) {
    Backed(AfterAll(b, steps)) && (steps != [] ==> AlwaysBacked(b, steps[..|steps| - 1]))
  }

  predicate AlwaysOwn(b: Book, steps: seq<Step>) {
    steps != [] ==>
      var n := |steps| - 1;
      Own(AfterAll(b, steps[..n]), steps[n]) && AlwaysOwn(b, steps[..n])
  }

  /** Throughout a run every stake balance is the sum of the address's records if and only
      if nobody stakes for somebody else, replaces a record or unstakes one twice. */
  lemma {:induction false} RunKeepsBacked(b: Book, steps: seq<Step>)
    requires Backed(b)
    ensures AlwaysBacked(b, steps) <==> AlwaysOwn(b, steps)
    decreases |steps|
  {
    if steps != [] {
      var n := |steps| - 1;
      RunKeepsBacked(b, steps[..n]);
      if Backed(AfterAll(b, steps[..n])) {
        NextKeepsBacked(AfterAll(b, steps[..n]), steps[n]);
      }
    }
  }

  /** What an address has locked beyond its records. */
  function Excess(stakes: Amounts, records: Records, a: Address): int {
    Get(stakes, a) - Staked(records, a)
  }

  lemma NextKeepsExcess(b: Book, step: Step, a: Address)
    requires Own(b, step) && Excess(b.stakes, b.records, a) == Excess(b.committedStakes, b.committed, a)
    ensures Excess(Next(b, step).stakes, Next(b, step).records, a) == Excess(b.stakes, b.records, a)
    ensures Excess(Next(b, step).committedStakes, Next(b, step).committed, a) == Excess(b.stakes, b.records, a)
  {
    if Succeeds(b, step) {
      match step
      case StakeStep(sender, kind, addr, amount, _) => StakedAfterPut(b.records, kind, addr, amount);
      case UnstakeStep(sender, kind, _) => StakedAfterDelete(b.records, kind, sender);
      case _ =>
    }
  }

  lemma {:induction false} RunKeepsExcess(b: Book, steps: seq<Step>, a: Address)
    requires AlwaysOwn(b, steps) && Excess(b.stakes, b.records, a) == Excess(b.committedStakes, b.committed, a)
    ensures var after := AfterAll(b, steps);
            && Excess(after.stakes, after.records, a) == Excess(b.stakes, b.records, a)
            && Excess(after.committedStakes, after.committed, a) == Excess(b.stakes, b.records, a)
    decreases |steps|
  {
    if steps != [] {
      RunKeepsExcess(b, steps[..|steps| - 1], a);
      NextKeepsExcess(AfterAll(b, steps[..|steps| - 1]), steps[|steps| - 1], a);
    }
  }

  /** Nobody can take out what is recorded for the address: it has no stake balance. */
  ghost predicate Locked(b: Book, kind: StakerKind, addr: Address, amount: UInt64) {
    && amount > 0 && Get(b.stakes, addr) == 0 == Get(b.committedStakes, addr)
    && (forall k :: (k, addr) in b.records <==> k == kind) && b.records[(kind, addr)] == amount
    && (forall k :: (k, addr) in b.committed <==> k == kind) && b.committed[(kind, addr)] == amount
  }

  lemma NextKeepsLocked(b: Book, step: Step, kind: StakerKind, addr: Address, amount: UInt64)
    requires Locked(b, kind, addr, amount) && Own(b, step)
    ensures Locked(Next(b, step), kind, addr, amount)
    ensures forall k, checked :: !Succeeds(b, UnstakeStep(addr, k, checked))
  {
    assert (kind, addr) in b.committed && IsStaker(b.committed, addr);
    match step
    case StakeStep(_, k, other, _, _) => assert Succeeds(b, step) ==> other != addr;
    case UnstakeStep(sender, k, _) => assert Succeeds(b, step) ==> sender != addr;
    case _ =>
  }

  lemma {:induction false} RunKeepsLocked(b: Book, steps: seq<Step>, kind: StakerKind, addr: Address, amount: UInt64)
    requires Locked(b, kind, addr, amount) && AlwaysOwn(b, steps)
    ensures Locked(AfterAll(b, steps), kind, addr, amount)
    decreases |steps|
  {
    if steps != [] {
      RunKeepsLocked(b, steps[..|steps| - 1], kind, addr, amount);
      NextKeepsLocked(AfterAll(b, steps[..|steps| - 1]), steps[|steps| - 1], kind, addr, amount);
    }
  }

  /** A stake for another address is locked while everybody goes on on their own account: once
      it is committed the named address cannot unstake it, then or later, and the amount stays
      in the sender's stake balance. */
  lemma StakeForAnother(b: Book, sender: Address, kind: StakerKind, addr: Address, amount: UInt64, steps: seq<Step>)
    requires Backed(b) && b.records == b.committed && b.stakes == b.committedStakes && sender != addr && amount > 0
    requires Succeeds(b, StakeStep(sender, kind, addr, amount, true))
    requires AlwaysOwn(Next(Next(b, StakeStep(sender, kind, addr, amount, true)), CommitStep), steps)
    ensures var locked := Next(Next(b, StakeStep(sender, kind, addr, amount, true)), CommitStep);
            && !Succeeds(AfterAll(locked, steps), UnstakeStep(addr, kind, true))
            && Get(AfterAll(locked, steps).stakes, sender) >= amount
  {
    var staked := Next(b, StakeStep(sender, kind, addr, amount, true));
    var locked := Next(staked, CommitStep);
    assert Get(b.stakes, sender) == Staked(b.records, sender) && Get(b.stakes, addr) == Staked(b.records, addr) == 0;
    StakedAfterPut(b.records, kind, addr, amount);
    assert forall k :: (k, addr) in locked.records <==> k == kind;
    RunKeepsLocked(locked, steps, kind, addr, amount);
    NextKeepsLocked(AfterAll(locked, steps), CommitStep, kind, addr, amount);
    assert Excess(locked.stakes, locked.records, sender) == amount;
    RunKeepsExcess(locked, steps, sender);
  }

  /** It is not locked against other steps: if the named address in turn stakes as much for a
      third one, it can unstake what was staked for it. */
  lemma AnotherStakeUnlocks(b: Book, kind: StakerKind, addr: Address, third: Address, amount: UInt64)
    requires Locked(b, kind, addr, amount) && kind != Validator && third != 0 && !IsStaker(b.committed, third)
    ensures Succeeds(Next(b, StakeStep(addr, kind, third, amount, true)), UnstakeStep(addr, kind, true))
  {
    assert (kind, addr) in b.committed;
    assert third != addr;
  }

  /** The record of a validator, in flight and committed. */
  predicate IsValidator(b: Book, a: Address, amount: UInt64) {
    && (Validator, a) in b.records && b.records[(Validator, a)] == amount
    && (Validator, a) in b.committed && b.committed[(Validator, a)] == amount
  }

  /** Validators cannot unstake and nobody can stake for them again: whatever happens, a
      validator's committed record stays as it is. */
  lemma {:induction false} ValidatorStays(b: Book, steps: seq<Step>, a: Address, amount: UInt64)
    requires IsValidator(b, a, amount)
    ensures IsValidator(AfterAll(b, steps), a, amount)
    ensures forall kind, checked :: kind == Validator ==>
              !Succeeds(AfterAll(b, steps), UnstakeStep(a, kind, checked))
    ensures forall sender, kind, stake, checked ::
              !Succeeds(AfterAll(b, steps), StakeStep(sender, kind, a, stake, checked))
  {
    if steps != [] {
      ValidatorStays(b, steps[..|steps| - 1], a, amount);
    }
  }
}
