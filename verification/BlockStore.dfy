/**
 Storing blocks, chain/storage.go.  The values that SetTx transactions carry are stored
 apart: while a block is written, its transaction objects carry transaction ids in place
 of values.
 */
module BlockStore {
  import opened ChainTypes
  import opened Sequences
  import opened VersionDb

  /** How a transaction id is written as bytes and read back. */
  datatype IdCodec = IdCodec(bytesOf: TxId -> seq<nat>, idOf: seq<nat> -> Option<TxId>)
  {
    ghost predicate Ok() {
      forall id {:trigger bytesOf(id)} :: bytesOf(id) != [] && idOf(bytesOf(id)) == Some(id)
    }
  }

  /** A transaction object.  Init computes the id from the body; it stays when the body
      changes. */
  class TransactionObject {
    var body: Transaction
    var id: TxId

    constructor Init(body: Transaction)
      ensures this.body == body && id == body.ID()
    {
      this.body, id := body, body.ID();
    }
  }

  predicate CarriesValue(t: Transaction) {
    t.payload.SetValue? && t.payload.bytes != []
  }

  /** The transaction with its value replaced by its id. */
  function Linked(c: IdCodec, t: Transaction): Transaction {
    if CarriesValue(t) then t.(payload := SetValue(c.bytesOf(t.ID()))) else t
  }

  function LinkedAll(c: IdCodec, txs: seq<Transaction>): (r: seq<Transaction>)
    ensures |r| == |txs| && forall i :: 0 <= i < |txs| ==> r[i] == Linked(c, txs[i])
  {
    seq(|txs|, i requires 0 <= i < |txs| => Linked(c, txs[i]))
  }

  ghost function Bodies(objects: seq<TransactionObject>): (r: seq<Transaction>)
    reads objects
    ensures |r| == |objects| && forall i :: 0 <= i < |objects| ==> r[i] == objects[i].body
  {
    seq(|objects|, i requires 0 <= i < |objects| reads objects => objects[i].body)
  }

  /** A block object in memory. */
  class BlockObject {
    const header: StatefulBlock  // all fields but the transactions
    const id: BlockId
    var txs: seq<TransactionObject>

    constructor (b: StatefulBlock, txs: seq<TransactionObject>)
      ensures header == b.(txs := []) && id == b.ID() && this.txs == txs
    {
      header, id, this.txs := b.(txs := []), b.ID(), txs;
    }

    ghost function Value(): StatefulBlock
      reads this, txs
    {
      header.(txs := Bodies(txs))
    }

    /** The id is the hash of the contents, and every transaction object has been
        initialised. */
    ghost predicate Initialised()
      reads this, txs
    {
      id == Value().ID() && forall i :: 0 <= i < |txs| ==> txs[i].id == txs[i].body.ID()
    }

    /** Moreover every transaction has an object of its own. */
    ghost predicate Valid()
      reads this, txs
    {
      Initialised() && Distinct(txs)
    }
  }

  // ---------- what storing a block writes ----------

  /** The object at position i is also one of the first n. */
  ghost predicate Seen(objects: seq<TransactionObject>, i: nat, n: nat)
    requires i < |objects| && n <= |objects|
  {
    exists k :: 0 <= k < n && Same(objects, k, i)
  }

  ghost predicate Same(objects: seq<TransactionObject>, k: nat, i: nat)
    requires k < |objects| && i < |objects|
  {
    objects[k] == objects[i]
  }

  /** What linkValues finds in object i of a block with the transactions was: an object that
      it has seen before holds an id in place of its value. */
  ghost function Found(c: IdCodec, was: seq<Transaction>, objects: seq<TransactionObject>, i: nat): Transaction
    requires i < |objects| == |was|
  {
    if Seen(objects, i, i) then Linked(c, was[i]) else was[i]
  }

  ghost function FoundAll(c: IdCodec, was: seq<Transaction>, objects: seq<TransactionObject>): (r: seq<Transaction>)
    requires |objects| == |was|
    ensures |r| == |was| && forall i :: 0 <= i < |was| ==> r[i] == Found(c, was, objects, i)
  {
    seq(|was|, i requires 0 <= i < |was| => Found(c, was, objects, i))
  }

  ghost function ValueWrite(t: Transaction, found: Transaction): Writes {
    if CarriesValue(found) then map[TxValueKey(t.ID()) := Some(RawValue(found.payload.bytes))] else map[]
  }

  /** The values that the first n objects leave in the database. */
  ghost function ValueWrites(c: IdCodec, was: seq<Transaction>, objects: seq<TransactionObject>, n: nat): Writes
    requires n <= |objects| == |was|
  {
    if n == 0 then map[]
    else ValueWrites(c, was, objects, n - 1) + ValueWrite(was[n - 1], Found(c, was, objects, n - 1))
  }

  ghost function BlockWrites(c: IdCodec, was: StatefulBlock, objects: seq<TransactionObject>): Writes
    requires |objects| == |was.txs|
  {
    map[LastAcceptedKey := Some(IdValue(was.ID()))] + ValueWrites(c, was.txs, objects, |objects|)
    + map[BlockKey(was.ID()) := Some(BlockValue(was.(txs := LinkedAll(c, was.txs))))]
  }

  /** The last of the first n objects with the id that finds a value decides what is stored
      under the id. */
  lemma {:induction false} LastWrite(c: IdCodec, was: seq<Transaction>, objects: seq<TransactionObject>, n: nat,
                                     id: TxId)
    returns (last: nat)
    requires n <= |objects| == |was|
    ensures forall key :: key in ValueWrites(c, was, objects, n) ==> key.TxValueKey?
    ensures TxValueKey(id) in ValueWrites(c, was, objects, n) ==>
              && last < n && was[last].ID() == id && CarriesValue(Found(c, was, objects, last))
              && ValueWrites(c, was, objects, n)[TxValueKey(id)]
                 == Some(RawValue(Found(c, was, objects, last).payload.bytes))
    ensures var start := if TxValueKey(id) in ValueWrites(c, was, objects, n) then last + 1 else 0;
            forall k :: start <= k < n && was[k].ID() == id ==> !CarriesValue(Found(c, was, objects, k))
  {
    last := 0;
    if n > 0 {
      last := LastWrite(c, was, objects, n - 1, id);
      if was[n - 1].ID() == id && CarriesValue(Found(c, was, objects, n - 1)) {
        last := n - 1;
      }
    }
  }

  lemma {:induction false} CarriedIsWritten(c: IdCodec, was: seq<Transaction>, objects: seq<TransactionObject>, n: nat,
                                            k: nat)
    requires c.Ok() && k < n <= |objects| == |was| && was[k].payload.SetValue? && was[k].payload.bytes != []
    ensures TxValueKey(was[k].ID()) in ValueWrites(c, was, objects, n)
  {
    if k < n - 1 {
      CarriedIsWritten(c, was, objects, n - 1, k);
    } else {
      assert c.bytesOf(was[k].ID()) != [] by {
        assert c.idOf(c.bytesOf(was[k].ID())) == Some(was[k].ID());
      }
    }
  }

  /** The block is stored with an id in place of every value that is not empty, and something
      is stored under that id; everything else in the block is stored as it was. */
  lemma StoredWithoutValues(c: IdCodec, was: StatefulBlock, objects: seq<TransactionObject>)
    requires c.Ok() && |objects| == |was.txs|
    ensures var writes := BlockWrites(c, was, objects);
            && BlockKey(was.ID()) in writes && writes[BlockKey(was.ID())].Some?
            && writes[BlockKey(was.ID())].value.BlockValue?
            && var stored := writes[BlockKey(was.ID())].value.block;
               && |stored.txs| == |was.txs| && stored.(txs := []) == was.(txs := [])
               && forall n :: 0 <= n < |was.txs| ==>
                    var t := was.txs[n];
                    if t.payload.SetValue? && t.payload.bytes != [] then
                      stored.txs[n] == t.(payload := SetValue(c.bytesOf(t.ID()))) && TxValueKey(t.ID()) in writes
                    else stored.txs[n] == t
  {
    var writes := BlockWrites(c, was, objects);
    forall n | 0 <= n < |was.txs| && was.txs[n].payload.SetValue? && was.txs[n].payload.bytes != []
      ensures TxValueKey(was.txs[n].ID()) in writes
    {
      CarriedIsWritten(c, was.txs, objects, |objects|, n);
    }
  }

  /** A value is lost if an object that carries one occurs twice, unless the value is the
      very id that takes its place. */
  ghost predicate ValueLost(c: IdCodec, was: seq<Transaction>, objects: seq<TransactionObject>)
    requires |objects| == |was|
  {
    exists i :: 0 <= i < |was| && Seen(objects, i, i) && Found(c, was, objects, i) != was[i]
  }

  /** Every value is stored last from an object that is met for the first time. */
  ghost predicate ValuesSurvive(c: IdCodec, was: seq<Transaction>, objects: seq<TransactionObject>)
    requires |objects| == |was|
  {
    forall i :: 0 <= i < |was| && LastOfItsId(was, i) ==> Found(c, was, objects, i) == was[i]
  }

  ghost predicate LastOfItsId(was: seq<Transaction>, i: nat)
    requires i < |was|
  {
    forall k :: i < k < |was| ==> was[k].ID() != was[i].ID()
  }

  lemma FoundIsOriginal(c: IdCodec, was: seq<Transaction>, objects: seq<TransactionObject>)
    requires |objects| == |was| && !ValueLost(c, was, objects)
    ensures FoundAll(c, was, objects) == was && ValuesSurvive(c, was, objects)
  {
    forall i | 0 <= i < |was| ensures Found(c, was, objects, i) == was[i] {}
  }

  lemma DistinctLosesNothing(c: IdCodec, was: seq<Transaction>, objects: seq<TransactionObject>)
    requires |objects| == |was| && Distinct(objects)
    ensures !ValueLost(c, was, objects)
  {}

  /** An object that is in the block twice loses its value in memory and in the database; if
      an object of its own with the same transaction follows, only in memory. */
  lemma SharedObject(c: IdCodec, t: Transaction, shared: TransactionObject, own: TransactionObject)
    requires CarriesValue(t) && c.bytesOf(t.ID()) != t.payload.bytes && shared != own
    ensures ValueLost(c, [t, t], [shared, shared]) && !ValuesSurvive(c, [t, t], [shared, shared])
    ensures ValueLost(c, [t, t, t], [shared, shared, own]) && ValuesSurvive(c, [t, t, t], [shared, shared, own])
  {
    var two, three := [shared, shared], [shared, shared, own];
    assert Same(two, 0, 1) && Same(three, 0, 1);
    assert Seen(two, 1, 1) && Seen(three, 1, 1) && !Seen(three, 2, 2);
    assert Found(c, [t, t], two, 1) != t && LastOfItsId([t, t], 1);
    assert Found(c, [t, t, t], three, 1) != t;
    assert [t, t, t][2].ID() == [t, t, t][0].ID() == [t, t, t][1].ID();
  }

  // ---------- a store of blocks ----------

  ghost predicate ValueOk(view: View, id: TxId) {
    TxValueKey(id) in view ==> CarriesValue(id.tx) && view[TxValueKey(id)] == RawValue(id.tx.payload.bytes)
  }

  /** A stored block is in linked form, and the values it needs are stored too. */
  ghost predicate BlockOk(c: IdCodec, view: View, id: BlockId) {
    BlockKey(id) in view ==>
      id.BlockHash? && view[BlockKey(id)] == BlockValue(id.block.(txs := LinkedAll(c, id.block.txs)))
      && ValuesStored(id.block.txs, |id.block.txs|, view)
  }

  ghost predicate StoreOk(c: IdCodec, view: View) {
    && (forall id {:trigger ValueOk(view, id)} :: ValueOk(view, id))
    && (forall id {:trigger BlockOk(c, view, id)} :: BlockOk(c, view, id))
  }

  /** The body of the loop of linkValues: stores the value that an object carries under the
      id of the object and leaves the id in its place. */
  method LinkObject(c: IdCodec, db: Database, tx: TransactionObject) returns (ogTx: TransactionObject)
    requires db.Sound()
    modifies tx`body, db`mem, db`view
    ensures db.Sound()
    ensures tx.body == if CarriesValue(old(tx.body)) then old(tx.body).(payload := SetValue(c.bytesOf(tx.id)))
                       else old(tx.body)
    ensures db.view == if CarriesValue(old(tx.body)) then
                         Apply(old(db.view), map[TxValueKey(tx.id) := Some(RawValue(old(tx.body).payload.bytes))])
                       else old(db.view)
    ensures ogTx.body == old(tx.body)
    ensures if CarriesValue(old(tx.body)) then fresh(ogTx) && ogTx.id == ogTx.body.ID() else ogTx == tx
  {
    if !CarriesValue(tx.body) {
      return tx;
    }
    ogTx := new TransactionObject.Init(tx.body);
    db.Write(map[TxValueKey(tx.id) := Some(RawValue(tx.body.payload.bytes))]);
    tx.body := tx.body.(payload := SetValue(c.bytesOf(tx.id)));
  }

  /** The bodies after the first n objects have been linked. */
  ghost predicate BodiesUpTo(c: IdCodec, was: seq<Transaction>, objects: seq<TransactionObject>, n: nat,
                             bodies: seq<Transaction>)
    requires n <= |objects| == |was| == |bodies|
  {
    forall j {:trigger bodies[j]} :: 0 <= j < |objects| ==>
      bodies[j] == if Seen(objects, j, n) then Linked(c, was[j]) else was[j]
  }

  function Replaced(c: IdCodec, body: Transaction, id: TxId): Transaction {
    if CarriesValue(body) then body.(payload := SetValue(c.bytesOf(id))) else body
  }

  lemma BodiesNext(c: IdCodec, was: seq<Transaction>, objects: seq<TransactionObject>, n: nat,
                   before: seq<Transaction>, after: seq<Transaction>)
    requires n < |objects| == |was| == |before| == |after| && BodiesUpTo(c, was, objects, n, before)
    requires forall j {:trigger after[j]} :: 0 <= j < |objects| ==>
               after[j] == if objects[j] == objects[n] then Replaced(c, before[j], was[n].ID()) else before[j]
    requires forall j :: 0 <= j < |objects| && objects[j] == objects[n] ==> was[j] == was[n]
    ensures BodiesUpTo(c, was, objects, n + 1, after) && before[n] == Found(c, was, objects, n)
  {
    forall j | 0 <= j < |objects|
      ensures after[j] == if Seen(objects, j, n + 1) then Linked(c, was[j]) else was[j]
    {
      if objects[j] == objects[n] {
        assert Same(objects, n, j);
      } else if Seen(objects, j, n + 1) {
        var k :| 0 <= k < n + 1 && Same(objects, k, j);
        assert k < n;
      }
    }
  }

  /** What linkValues has made of the first |ogTxs| objects of a block with transactions was. */
  ghost predicate LinkedUpTo(c: IdCodec, was: seq<Transaction>, objects: seq<TransactionObject>,
                             ogTxs: seq<TransactionObject>)
    requires |ogTxs| <= |objects| == |was|
    reads objects, ogTxs
  {
    && (forall j {:trigger objects[j]} :: 0 <= j < |objects| ==> objects[j].id == was[j].ID())
    && BodiesUpTo(c, was, objects, |ogTxs|, Bodies(objects))
    && CopiesUpTo(c, was, objects, ogTxs)
    && (Distinct(objects) ==> CopiedUpTo(was, objects, ogTxs))
  }

  /** The originals are as they were found, and linking further objects leaves them alone. */
  ghost predicate CopiesUpTo(c: IdCodec, was: seq<Transaction>, objects: seq<TransactionObject>,
                             ogTxs: seq<TransactionObject>)
    requires |ogTxs| <= |objects| == |was|
    reads objects, ogTxs
  {
    forall j {:trigger ogTxs[j]} :: 0 <= j < |ogTxs| ==>
      ogTxs[j].body == Found(c, was, objects, j) && (CarriesValue(ogTxs[j].body) ==> ogTxs[j] !in objects)
  }

  /** The originals of distinct objects are distinct objects with the same ids. */
  ghost predicate CopiedUpTo(was: seq<Transaction>, objects: seq<TransactionObject>, ogTxs: seq<TransactionObject>)
    requires |ogTxs| <= |objects| == |was|
    reads ogTxs
  {
    && (forall j {:trigger ogTxs[j]} :: 0 <= j < |ogTxs| ==> ogTxs[j].id == was[j].ID())
    && (forall j, k {:trigger ogTxs[j], objects[k]} :: 0 <= j < |ogTxs| && 0 <= k < |objects| && j != k ==>
          ogTxs[j] != objects[k])
    && Distinct(ogTxs)
  }

  method LinkNext(c: IdCodec, db: Database, ghost was: seq<Transaction>, objects: seq<TransactionObject>,
                  ogTxs: seq<TransactionObject>)
    returns (longer: seq<TransactionObject>)
    requires |ogTxs| < |objects| == |was| && LinkedUpTo(c, was, objects, ogTxs) && db.Sound()
    modifies {objects[|ogTxs|]}, db`mem, db`view
    ensures |longer| == |ogTxs| + 1 && LinkedUpTo(c, was, objects, longer) && db.Sound()
    ensures db.view == Apply(old(db.view), ValueWrite(was[|ogTxs|], Found(c, was, objects, |ogTxs|)))
  {
    ghost var n, before := |ogTxs|, Bodies(objects);
    ApplyNothing(db.view);
    var ogTx := LinkObject(c, db, objects[|ogTxs|]);
    longer := ogTxs + [ogTx];
    BodiesNext(c, was, objects, n, before, Bodies(objects));
    forall j | 0 <= j < |longer|
      ensures longer[j].body == Found(c, was, objects, j)
      ensures CarriesValue(longer[j].body) ==> longer[j] !in objects
    {
      if j == n {
        assert longer[j] == ogTx;
      } else {
        assert longer[j] == ogTxs[j] && old(ogTxs[j].body) == Found(c, was, objects, j);
        assert ogTxs[j] == objects[n] ==> ogTxs[j] in objects;
      }
    }
  }

  /** When all objects have been linked the block is in linked form. */
  lemma LinkedThrough(c: IdCodec, was: seq<Transaction>, objects: seq<TransactionObject>, ogTxs: seq<TransactionObject>)
    requires |ogTxs| == |objects| == |was| && LinkedUpTo(c, was, objects, ogTxs)
    ensures Bodies(objects) == LinkedAll(c, was) && Bodies(ogTxs) == FoundAll(c, was, objects)
  {
    forall i | 0 <= i < |was| ensures Bodies(objects)[i] == Linked(c, was[i]) {
      assert Same(objects, i, i);
    }
  }

  /** linkValues: stores the values and leaves the objects of the block with ids in their
      place; the result are the transactions it found, in copies where needed. */
  method LinkValues(c: IdCodec, db: Database, objects: seq<TransactionObject>) returns (ogTxs: seq<TransactionObject>)
    requires db.Sound() && forall i {:trigger objects[i]} :: 0 <= i < |objects| ==>
             objects[i].id == objects[i].body.ID()
    modifies objects, db`mem, db`view
    ensures db.Sound() && |ogTxs| == |objects|
    ensures db.view == Apply(old(db.view), ValueWrites(c, old(Bodies(objects)), objects, |objects|))
    ensures Bodies(objects) == LinkedAll(c, old(Bodies(objects)))
    ensures Bodies(ogTxs) == FoundAll(c, old(Bodies(objects)), objects)
    ensures Distinct(objects) ==> CopiedUpTo(old(Bodies(objects)), objects, ogTxs)
  {
    ghost var was, before := Bodies(objects), db.view;
    ogTxs := [];
    ApplyNothing(before);
    for i := 0 to |objects|
      invariant db.Sound() && |ogTxs| == i && LinkedUpTo(c, was, objects, ogTxs)
      invariant db.view == Apply(before, ValueWrites(c, was, objects, i))
    {
      ApplyTwice(before, ValueWrites(c, was, objects, i), ValueWrite(was[i], Found(c, was, objects, i)));
      ogTxs := LinkNext(c, db, was, objects, ogTxs);
    }
    LinkedThrough(c, was, objects, ogTxs);
  }

  ghost predicate ValuesStored(txs: seq<Transaction>, n: nat, view: View)
    requires n <= |txs|
  {
    forall i {:trigger txs[i]} :: 0 <= i < n && CarriesValue(txs[i]) ==> TxValueKey(txs[i].ID()) in view
  }

  /** Marshal: the contents of the block as its objects are now. */
  method Marshal(block: BlockObject) returns (b: StatefulBlock)
    ensures b == block.Value()
  {
    var txs := [];
    for i := 0 to |block.txs|
      invariant txs == Bodies(block.txs)[..i]
    {
      txs := txs + [block.txs[i].body];
    }
    b := block.header.(txs := txs);
  }

  /** SetLastAccepted: what it writes, and what it leaves in memory. */
  method SetLastAccepted(c: IdCodec, db: Database, block: BlockObject)
    requires block.Initialised() && db.Sound()
    modifies block, block.txs, db`mem, db`view
    ensures db.Sound() && db.view == Apply(old(db.view), BlockWrites(c, old(block.Value()), old(block.txs)))
    ensures block.Value() == old(block.Value()).(txs := FoundAll(c, old(block.Value()).txs, old(block.txs)))
    ensures old(block.Valid()) ==> block.Valid() && block.Value() == old(block.Value())
    ensures old(block.Valid()) && StoreOk(c, old(db.view)) ==> StoreOk(c, db.view)
  {
    ghost var was, objects, before := block.Value(), block.txs, db.view;
    db.Write(map[LastAcceptedKey := Some(IdValue(block.id))]);
    var ogTxs := LinkAndStore(c, db, block, block.txs, was);
    block.txs := ogTxs;
    assert Bodies(ogTxs) == FoundAll(c, was.txs, objects);
    WrittenTogether(c, before, was, objects);
    if Distinct(objects) {
      DistinctLosesNothing(c, was.txs, objects);
      FoundIsOriginal(c, was.txs, objects);
      if StoreOk(c, before) {
        BlockWritesKeepStore(c, before, was, objects);
      }
    }
  }

  /** The part of SetLastAccepted from linkValues on, for a block with the given objects. */
  method LinkAndStore(c: IdCodec, db: Database, block: BlockObject, objects: seq<TransactionObject>,
                      ghost was: StatefulBlock)
    returns (ogTxs: seq<TransactionObject>)
    requires block.Initialised() && block.txs == objects && was == block.Value() && db.Sound()
    modifies objects, db`mem, db`view
    ensures db.Sound() && |ogTxs| == |was.txs| == |objects|
    ensures db.view == Apply(Apply(old(db.view), ValueWrites(c, was.txs, objects, |objects|)),
                             map[BlockKey(was.ID()) := Some(BlockValue(was.(txs := LinkedAll(c, was.txs))))])
    ensures Bodies(ogTxs) == FoundAll(c, was.txs, objects)
    ensures Distinct(objects) ==> CopiedUpTo(was.txs, objects, ogTxs)
  {
    ogTxs := LinkValues(c, db, objects);
    label Linked:
    StoreLinked(c, db, block, was);
    assert unchanged@Linked(ogTxs);
  }

  method StoreLinked(c: IdCodec, db: Database, block: BlockObject, ghost was: StatefulBlock)
    requires block.Value() == was.(txs := LinkedAll(c, was.txs)) && block.id == was.ID() && db.Sound()
    modifies db`mem, db`view
    ensures db.Sound()
    ensures db.view ==
            Apply(old(db.view), map[BlockKey(was.ID()) := Some(BlockValue(was.(txs := LinkedAll(c, was.txs))))])
  {
    var sbytes := Marshal(block);
    db.Write(map[BlockKey(block.id) := Some(BlockValue(sbytes))]);
  }

  lemma WrittenTogether(c: IdCodec, view: View, was: StatefulBlock, objects: seq<TransactionObject>)
    requires |objects| == |was.txs|
    ensures Apply(Apply(Apply(view, map[LastAcceptedKey := Some(IdValue(was.ID()))]),
                        ValueWrites(c, was.txs, objects, |objects|)),
                  map[BlockKey(was.ID()) := Some(BlockValue(was.(txs := LinkedAll(c, was.txs))))])
            == Apply(view, BlockWrites(c, was, objects))
  {
    var first := map[LastAcceptedKey := Some(IdValue(was.ID()))];
    var values := ValueWrites(c, was.txs, objects, |objects|);
    ApplyTwice(view, first, values);
    ApplyTwice(view, first + values, map[BlockKey(was.ID()) := Some(BlockValue(was.(txs := LinkedAll(c, was.txs))))]);
  }

  /** Of a carried value something is stored under the id, and of distinct objects it is the
      value. */
  lemma ValueIsWritten(c: IdCodec, was: seq<Transaction>, objects: seq<TransactionObject>, id: TxId)
    requires |objects| == |was|
    ensures var writes := ValueWrites(c, was, objects, |was|);
            && (!ValueLost(c, was, objects) && TxValueKey(id) in writes ==>
                  CarriesValue(id.tx) && writes[TxValueKey(id)] == Some(RawValue(id.tx.payload.bytes)))
            && (forall i :: 0 <= i < |was| && was[i].ID() == id && CarriesValue(Found(c, was, objects, i)) ==>
                  TxValueKey(id) in writes)
  {
    var last := LastWrite(c, was, objects, |was|, id);
    if !ValueLost(c, was, objects) {
      FoundIsOriginal(c, was, objects);
      if TxValueKey(id) in ValueWrites(c, was, objects, |was|) {
        assert Found(c, was, objects, last) == was[last];
      }
    }
  }

  lemma BlockWritesKeepStore(c: IdCodec, view: View, was: StatefulBlock, objects: seq<TransactionObject>)
    requires StoreOk(c, view) && |objects| == |was.txs| && !ValueLost(c, was.txs, objects)
    ensures StoreOk(c, Apply(view, BlockWrites(c, was, objects)))
  {
    var writes, after := BlockWrites(c, was, objects), Apply(view, BlockWrites(c, was, objects));
    var _ := LastWrite(c, was.txs, objects, |objects|, TxHash(Transaction(EmptyId, 0, 0, Free(0), 0)));
    forall id ensures ValueOk(after, id) {
      assert ValueOk(view, id);
      ValueIsWritten(c, was.txs, objects, id);
    }
    FoundIsOriginal(c, was.txs, objects);
    forall i | 0 <= i < |was.txs| && CarriesValue(was.txs[i]) ensures TxValueKey(was.txs[i].ID()) in after {
      assert Found(c, was.txs, objects, i) == was.txs[i];
      ValueIsWritten(c, was.txs, objects, was.txs[i].ID());
      assert ValueOk(after, was.txs[i].ID());
    }
    forall id ensures BlockOk(c, after, id) {
      assert BlockOk(c, view, id);
      forall t: TxId | TxValueKey(t) in view ensures TxValueKey(t) in after {
        ValueIsWritten(c, was.txs, objects, t);
      }
    }
  }

  // ---------- loading ----------

  /** The transaction with its id replaced by the value that is stored under it. */
  function RestoreTx(c: IdCodec, view: View, t: Transaction): Option<Transaction> {
    if !CarriesValue(t) then Some(t)
    else
      var id := c.idOf(t.payload.bytes);
      if id.Some? && TxValueKey(id.value) in view && view[TxValueKey(id.value)].RawValue?
      then Some(t.(payload := SetValue(view[TxValueKey(id.value)].raw))) else None
  }

  function RestoreTxs(c: IdCodec, view: View, txs: seq<Transaction>): Option<seq<Transaction>> {
    if txs == [] then Some([])
    else
      match RestoreTxs(c, view, txs[..|txs| - 1])
      case None => None
      case Some(before) =>
        match RestoreTx(c, view, txs[|txs| - 1])
        case None => None
        case Some(t) => Some(before + [t])
  }

  /** restoreValues, for one transaction: an id in place of a value leads to the value. */
  method RestoreOne(c: IdCodec, db: Database, t: Transaction, ghost stack: set<Database>)
    returns (r: Option<Transaction>)
    requires db in stack && forall d :: d in stack ==> d.Sound() && (d.base != null ==> d.base in stack)
    ensures r == RestoreTx(c, db.view, t)
  {
    if !CarriesValue(t) {
      return Some(t);
    }
    var txId := c.idOf(t.payload.bytes);
    if txId.None? {
      return None;
    }
    var b := db.Get(TxValueKey(txId.value), stack);
    if b.None? || !b.value.RawValue? {
      return None;
    }
    r := Some(t.(payload := SetValue(b.value.raw)));
  }

  lemma {:induction false} RestoreFails(c: IdCodec, view: View, txs: seq<Transaction>, n: nat)
    requires n < |txs| && RestoreTx(c, view, txs[n]).None?
    ensures RestoreTxs(c, view, txs).None?
  {
    if n < |txs| - 1 {
      RestoreFails(c, view, txs[..|txs| - 1], n);
    }
  }

  method RestoreValues(c: IdCodec, db: Database, blk: StatefulBlock, ghost stack: set<Database>)
    returns (txs: Option<seq<Transaction>>)
    requires db in stack && forall d :: d in stack ==> d.Sound() && (d.base != null ==> d.base in stack)
    ensures txs == RestoreTxs(c, db.view, blk.txs)
  {
    var restored := [];
    for i := 0 to |blk.txs|
      invariant RestoreTxs(c, db.view, blk.txs[..i]) == Some(restored)
    {
      assert blk.txs[..i + 1][..i] == blk.txs[..i];
      var r := RestoreOne(c, db, blk.txs[i], stack);
      if r.None? {
        RestoreFails(c, db.view, blk.txs, i);
        return None;
      }
      restored := restored + [r.value];
    }
    assert blk.txs[..|blk.txs|] == blk.txs;
    txs := Some(restored);
  }

  /** Under the ids of the carried values lie values, whichever. */
  ghost predicate SomeValues(view: View, txs: seq<Transaction>) {
    forall i {:trigger txs[i]} :: 0 <= i < |txs| && CarriesValue(txs[i]) ==>
      TxValueKey(txs[i].ID()) in view && view[TxValueKey(txs[i].ID())].RawValue?
  }

  /** The value that lies under the id is the transaction's own. */
  ghost predicate OwnValue(view: View, t: Transaction) {
    CarriesValue(t) ==> TxValueKey(t.ID()) in view && view[TxValueKey(t.ID())] == RawValue(t.payload.bytes)
  }

  /** Restoring what linking left gives the original transactions exactly if under their
      ids lie their own values. */
  lemma {:induction false} RestoreLinked(c: IdCodec, view: View, txs: seq<Transaction>)
    requires c.Ok() && SomeValues(view, txs)
    ensures RestoreTxs(c, view, LinkedAll(c, txs)).Some?
    ensures RestoreTxs(c, view, LinkedAll(c, txs)) == Some(txs) <==>
            forall i :: 0 <= i < |txs| ==> OwnValue(view, txs[i])
  {
    if txs != [] {
      var n := |txs| - 1;
      var t := txs[n];
      RestoreLinked(c, view, txs[..n]);
      assert LinkedAll(c, txs)[..n] == LinkedAll(c, txs[..n]);
      assert c.idOf(c.bytesOf(t.ID())) == Some(t.ID()) && c.bytesOf(t.ID()) != [];
      var before := RestoreTxs(c, view, LinkedAll(c, txs[..n])).value;
      var last := RestoreTx(c, view, Linked(c, t)).value;
      assert last == t <==> OwnValue(view, t);
      assert txs == txs[..n] + [t];
      assert (before + [last])[..|before|] == before;
      assert before + [last] == txs <==> before == txs[..n] && last == t by {
        if before + [last] == txs {
          assert |before| == n && (before + [last])[..n] == txs[..n] && (before + [last])[n] == txs[n];
        }
      }
    }
  }

  /** GetBlock: of every block of a sound store it returns the original, values and all. */
  method GetBlock(c: IdCodec, db: Database, bid: BlockId, ghost stack: set<Database>) returns (r: Option<StatefulBlock>)
    requires db in stack && forall d :: d in stack ==> d.Sound() && (d.base != null ==> d.base in stack)
    ensures r == if BlockKey(bid) in db.view && db.view[BlockKey(bid)].BlockValue? then
                   var stored := db.view[BlockKey(bid)].block;
                   match RestoreTxs(c, db.view, stored.txs)
                   case None => None
                   case Some(txs) => Some(stored.(txs := txs))
                 else None
    ensures c.Ok() && StoreOk(c, db.view) ==>
              r == if BlockKey(bid) in db.view && bid.BlockHash? then Some(bid.block) else None
  {
    if c.Ok() && StoreOk(c, db.view) {
      StoredIsLoaded(c, db.view, bid);
    }
    var b := db.Get(BlockKey(bid), stack);
    if b.None? || !b.value.BlockValue? {
      return None;
    }
    var txs := RestoreValues(c, db, b.value.block, stack);
    r := if txs.None? then None else Some(b.value.block.(txs := txs.value));
  }

  lemma StoredIsLoaded(c: IdCodec, view: View, id: BlockId)
    requires c.Ok() && StoreOk(c, view)
    ensures BlockKey(id) in view ==>
              && id.BlockHash? && view[BlockKey(id)] == BlockValue(id.block.(txs := LinkedAll(c, id.block.txs)))
              && RestoreTxs(c, view, LinkedAll(c, id.block.txs)) == Some(id.block.txs)
  {
    assert BlockOk(c, view, id);
    if BlockKey(id) in view {
      forall i | 0 <= i < |id.block.txs| ensures OwnValue(view, id.block.txs[i]) {
        assert ValueOk(view, id.block.txs[i].ID());
      }
      RestoreLinked(c, view, id.block.txs);
    }
  }

  /** A block just stored is loaded as it was exactly if its values survive. */
  lemma LoadedIff(c: IdCodec, before: View, was: StatefulBlock, objects: seq<TransactionObject>)
    requires c.Ok() && |objects| == |was.txs|
    ensures var view := Apply(before, BlockWrites(c, was, objects));
            && RestoreTxs(c, view, LinkedAll(c, was.txs)).Some?
            && (RestoreTxs(c, view, LinkedAll(c, was.txs)) == Some(was.txs) <==> ValuesSurvive(c, was.txs, objects))
  {
    var view := Apply(before, BlockWrites(c, was, objects));
    forall i | 0 <= i < |was.txs| && CarriesValue(was.txs[i])
      ensures TxValueKey(was.txs[i].ID()) in view && view[TxValueKey(was.txs[i].ID())].RawValue?
    {
      var _ := StoredValue(c, before, was, objects, i);
    }
    RestoreLinked(c, view, was.txs);
    if ValuesSurvive(c, was.txs, objects) {
      forall i | 0 <= i < |was.txs| ensures OwnValue(view, was.txs[i]) {
        if CarriesValue(was.txs[i]) {
          var _ := StoredValue(c, before, was, objects, i);
        }
      }
    }
    if forall i :: 0 <= i < |was.txs| ==> OwnValue(view, was.txs[i]) {
      forall i | 0 <= i < |was.txs| && LastOfItsId(was.txs, i) ensures Found(c, was.txs, objects, i) == was.txs[i] {
        if CarriesValue(was.txs[i]) {
          var last := StoredValue(c, before, was, objects, i);
          assert last == i && OwnValue(view, was.txs[i]);
        }
      }
    }
  }

  /** Under the id of a carried value lies what its last occurrence held. */
  lemma StoredValue(c: IdCodec, before: View, was: StatefulBlock, objects: seq<TransactionObject>, i: nat)
    returns (last: nat)
    requires c.Ok() && i < |objects| == |was.txs| && CarriesValue(was.txs[i])
    ensures i <= last < |was.txs| && was.txs[last] == was.txs[i] && LastOfItsId(was.txs, last)
    ensures var key, view := TxValueKey(was.txs[i].ID()), Apply(before, BlockWrites(c, was, objects));
            Found(c, was.txs, objects, last).payload.SetValue?
            && key in view && view[key] == RawValue(Found(c, was.txs, objects, last).payload.bytes)
  {
    var id := was.txs[i].ID();
    assert c.bytesOf(id) != [];
    last := LastWrite(c, was.txs, objects, |objects|, id);
    forall k | 0 <= k < |was.txs| && was.txs[k].ID() == id ensures CarriesValue(Found(c, was.txs, objects, k)) {
      assert was.txs[k] == was.txs[i];
    }
    assert CarriesValue(Found(c, was.txs, objects, i));
  }

  /** What is loaded and what stays in memory are both the block as it was exactly if no
      value is lost; distinct objects lose none. */
  lemma RoundTrip(c: IdCodec, before: View, was: StatefulBlock, objects: seq<TransactionObject>)
    requires c.Ok() && |objects| == |was.txs|
    ensures var txs := RestoreTxs(c, Apply(before, BlockWrites(c, was, objects)), LinkedAll(c, was.txs));
            && txs.Some? && (txs == Some(was.txs) <==> ValuesSurvive(c, was.txs, objects))
            && (txs == Some(was.txs) && FoundAll(c, was.txs, objects) == was.txs <==> !ValueLost(c, was.txs, objects))
    ensures Distinct(objects) ==> !ValueLost(c, was.txs, objects)
  {
    LoadedIff(c, before, was, objects);
    if !ValueLost(c, was.txs, objects) {
      FoundIsOriginal(c, was.txs, objects);
    } else {
      var i :| 0 <= i < |was.txs| && Seen(objects, i, i) && Found(c, was.txs, objects, i) != was.txs[i];
      assert FoundAll(c, was.txs, objects)[i] != was.txs[i];
    }
    if Distinct(objects) {
      DistinctLosesNothing(c, was.txs, objects);
    }
  }

  /** GetBlock for a block that has just been stored. */
  method LoadStored(c: IdCodec, db: Database, id: BlockId, ghost before: View, ghost was: StatefulBlock,
                    ghost objects: seq<TransactionObject>)
    returns (r: Option<StatefulBlock>)
    requires c.Ok() && db.Sound() && db.base == null && id == was.ID() && |objects| == |was.txs|
    requires db.view == Apply(before, BlockWrites(c, was, objects))
    ensures r.Some? && (r == Some(was) <==> ValuesSurvive(c, was.txs, objects))
    ensures r == Some(was) && FoundAll(c, was.txs, objects) == was.txs <==> !ValueLost(c, was.txs, objects)
    ensures Distinct(objects) ==> !ValueLost(c, was.txs, objects)
  {
    RoundTrip(c, before, was, objects);
    r := GetBlock(c, db, id, {db});
  }

  /** The round trip.  The block in memory stays as it was and loading gives it back if and
      only if no value-carrying object occurs twice in the block, as for blocks with an
      object for each transaction; loading alone succeeds if and only if every value is
      stored last from an object met for the first time. */
  method StoreAndLoad(c: IdCodec, db: Database, block: BlockObject) returns (r: Option<StatefulBlock>)
    requires block.Initialised() && c.Ok() && db.Sound() && db.base == null
    modifies block, block.txs, db`mem, db`view
    ensures r.Some? && db.Sound()
    ensures r == Some(old(block.Value())) && block.Value() == old(block.Value()) <==>
            !ValueLost(c, old(block.Value()).txs, old(block.txs))
    ensures r == Some(old(block.Value())) <==> ValuesSurvive(c, old(block.Value()).txs, old(block.txs))
    ensures old(block.Valid()) ==> r == Some(old(block.Value())) && block.Value() == old(block.Value()) && block.Valid()
    ensures old(block.Valid()) && StoreOk(c, old(db.view)) ==> StoreOk(c, db.view)
  {
    ghost var was, objects, before := block.Value(), block.txs, db.view;
    SetLastAccepted(c, db, block);
    r := LoadStored(c, db, block.id, before, was, objects);
  }
}
