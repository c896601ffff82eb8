/**
 The versioned database that blocks execute on: an overlay of pending writes, with
 tombstones for deleted keys, on a base database.  Overlays stack; the database at the
 bottom has no base.
 */
module VersionDb {
  import opened ChainTypes

  datatype StakerKind = Route | Ser | Validator

  datatype StakerMeta = StakerMeta(txId: nat, kind: StakerKind, stakeAmount: UInt64, stakeTime: nat, addr: Address)

  datatype PowKind = SerPow | RoutePow

  datatype PowRecord = PowRecord(
    kind: PowKind, totalTime: UInt64, totalFlow: UInt64, lastUpdateTime: nat, lastUpdateTx: nat, miner: Address)

  datatype Key =
    | LastAcceptedKey
    | BlockKey(id: BlockId)
    | TxValueKey(txId: TxId)
    | StakerKey(kind: StakerKind, addr: Address)
    | PowKey(powKind: PowKind, miner: Address)
    | BalanceKey(holder: Address)
    | StakeBalanceKey(holder: Address)
    | StateKey(k: nat)

  datatype Value =
    | IdValue(id: BlockId)
    | BlockValue(block: StatefulBlock)
    | RawValue(raw: seq<nat>)
    | StakerValue(staker: StakerMeta)
    | PowValue(pow: PowRecord)
    | AmountValue(amount: UInt64)
    | Bytes(b: nat)

  /** What a reader of a database sees. */
  type View = map<Key, Value>

  /** A batch of writes; None is a tombstone. */
  type Writes = map<Key, Option<Value>>

  function Apply(view: View, writes: Writes): (r: View)
  {
    map k | k in view.Keys + writes.Keys && (k in writes ==> writes[k].Some?) ::
      if k in writes then writes[k].value else view[k]
  }

  /** Writing one batch and then another is writing their union: a commit of one overlay
      into the next loses no write. */
  lemma ApplyTwice(view: View, first: Writes, second: Writes)
    ensures Apply(Apply(view, first), second) == Apply(view, first + second)
  {}

  lemma ApplyNothing(view: View)
    ensures Apply(view, map[]) == view
  {}

  class Database {
    var mem: Writes
    var base: Database?
    ghost var view: View   // what Get answers from
    ghost const rank: nat  // decreases from an overlay to its base
    ghost const owner: BlockId

    /** This overlay's view is its own writes on top of its base's view. */
    ghost predicate Sound()
      reads this, base
    {
      && (base != null ==> base.rank < rank)
      && view == Apply(if base == null then map[] else base.view, mem)
    }

    constructor (base: Database?, ghost rank: nat, ghost owner: BlockId)
      requires base != null ==> base.rank < rank
      ensures this.base == base && this.rank == rank && this.owner == owner && mem == map[] && Sound()
      ensures view == if base == null then map[] else base.view
    {
      ApplyNothing(if base == null then map[] else base.view);
      this.base, this.rank, this.owner := base, rank, owner;
      mem := map[];
      view := if base == null then map[] else base.view;
    }

    /** Reads through the stack of overlays: the topmost write wins. */
    method Get(key: Key, ghost stack: set<Database>) returns (v: Option<Value>)
      requires this in stack
      requires forall d :: d in stack ==> d.Sound() && (d.base != null ==> d.base in stack)
      ensures v == if key in view then Some(view[key]) else None
    {
      var d: Database? := this;
      v := None;
      while d != null
        invariant d != null ==> d in stack && (key in view <==> key in d.view)
                                && (key in view ==> view[key] == d.view[key])
        invariant d == null ==> key !in view
        decreases if d == null then 0 else d.rank + 1
      {
        if key in d.mem {
          return d.mem[key];
        }
        d := d.base;
      }
    }

    /** Everything Get answers, collected from the stack of overlays. */
    method Snapshot(ghost stack: set<Database>) returns (shown: View)
      requires this in stack
      requires forall d :: d in stack ==> d.Sound() && (d.base != null ==> d.base in stack)
      ensures shown == view
    {
      var d: Database? := this;
      var writes: Writes := map[];
      ApplyNothing(view);
      while d != null
        invariant d != null ==> d in stack
        invariant view == Apply(if d == null then map[] else d.view, writes)
        decreases if d == null then 0 else d.rank + 1
      {
        ApplyTwice(if d.base == null then map[] else d.base.view, d.mem, writes);
        writes := d.mem + writes;
        d := d.base;
      }
      shown := Apply(map[], writes);
    }

    /** A batch of Put and Delete calls. */
    method Write(writes: Writes)
      requires Sound()
      modifies this`mem, this`view
      ensures Sound() && view == Apply(old(view), writes) && mem == old(mem) + writes
    {
      ApplyTwice(if base == null then map[] else base.view, mem, writes);
      mem := mem + writes;
      view := Apply(view, writes);
    }

    /** Commit: moves the pending writes into the base. */
    method Commit()
      requires Sound() && base != null && base.Sound()
      modifies this`mem, base`mem, base`view
      ensures Sound() && base.Sound() && base.view == old(view) && view == old(view)
    {
      ApplyTwice(if base.base == null then map[] else base.base.view, base.mem, mem);
      base.mem := base.mem + mem;
      mem := map[];
      base.view := view;
      ApplyNothing(view);
    }

    /** SetDatabase: puts the pending writes on another base. */
    method SetDatabase(db: Database)
      requires db.rank < rank && db != this
      modifies this`base, this`view
      ensures base == db && Sound() && view == Apply(db.view, mem)
    {
      base := db;
      view := Apply(db.view, mem);
    }
  }
}
