/**
 The proof-of-work cache of chain/pow_status.go.  Records are shared objects that are
 updated in place; a block in flight works on records of its own, so that an abort leaves
 no trace of it.
 */
module PowCache {
  import opened ChainTypes
  import opened InFlight
  import opened VersionDb
  import opened StagedMaps
  import Ledger

  type Work = (PowKind, Proof)

  datatype Proof = Proof(miner: Address, netflow: UInt64, workTime: UInt64, txId: nat, updateTime: nat)

  /** A miner's record.  Its kind and miner never change. */
  class PowMeta {
    const kind: PowKind
    const miner: Address
    var totalTime: UInt64
    var totalFlow: UInt64
    var lastUpdateTime: nat
    var lastUpdateTx: nat

    constructor (kind: PowKind, r: PowRecord)
      requires r.kind == kind
      ensures this.kind == kind && miner == r.miner && Record() == r
    {
      this.kind, miner := kind, r.miner;
      totalTime, totalFlow, lastUpdateTime, lastUpdateTx := r.totalTime, r.totalFlow, r.lastUpdateTime, r.lastUpdateTx;
    }

    method Grow(proof: Proof)
      requires proof.miner == miner
      modifies this
      ensures Record() == Grown(Some(old(Record())), kind, proof)
    {
      totalFlow := Wrap(totalFlow + proof.netflow);
      totalTime := Wrap(totalTime + proof.workTime);
      lastUpdateTx := proof.txId;
      lastUpdateTime := proof.updateTime;
    }

    function Record(): PowRecord
      reads this
    {
      PowRecord(kind, totalTime, totalFlow, lastUpdateTime, lastUpdateTx, miner)
    }
  }

  type Table = map<Address, PowMeta>

  /** The record after one more proof. */
  function Grown(before: Option<PowRecord>, kind: PowKind, proof: Proof): PowRecord {
    var time := if before.Some? then before.value.totalTime else 0;
    var flow := if before.Some? then before.value.totalFlow else 0;
    PowRecord(kind, Wrap(time + proof.workTime), Wrap(flow + proof.netflow), proof.updateTime, proof.txId, proof.miner)
  }

  function Stored(view: View, kind: PowKind, a: Address): Option<PowRecord> {
    if PowKey(kind, a) in view && view[PowKey(kind, a)].PowValue? then Some(view[PowKey(kind, a)].pow) else None
  }

  function Put(view: View, r: PowRecord): View {
    Apply(view, map[PowKey(r.kind, r.miner) := Some(PowValue(r))])
  }

  lemma StoredPut(view: View, r: PowRecord, k: PowKind, b: Address)
    ensures Stored(Put(view, r), k, b) == if k == r.kind && b == r.miner then Some(r) else Stored(view, k, b)
  {}

  lemma StoredDel(view: View, kind: PowKind, a: Address, k: PowKind, b: Address)
    ensures Stored(Apply(view, map[PowKey(kind, a) := None]), k, b) ==
            if k == kind && b == a then None else Stored(view, k, b)
  {}

  /** What the proofs of a block make of a record. */
  function GrownAll(r: Option<PowRecord>, kind: PowKind, a: Address, proofs: seq<Work>): Option<PowRecord> {
    if proofs == [] then r
    else
      var before, (k, proof) := GrownAll(r, kind, a, proofs[..|proofs| - 1]), proofs[|proofs| - 1];
      if k == kind && proof.miner == a then Some(Grown(before, kind, proof)) else before
  }

  lemma {:induction false} GrownTwice(r: Option<PowRecord>, kind: PowKind, a: Address,
                                      first: seq<Work>, second: seq<Work>)
    ensures GrownAll(GrownAll(r, kind, a, first), kind, a, second) == GrownAll(r, kind, a, first + second)
  {
    if second == [] {
      assert first + second == first;
    } else {
      GrownTwice(r, kind, a, first, second[..|second| - 1]);
      assert (first + second)[..|first + second| - 1] == first + second[..|second| - 1];
    }
  }

  /** The proofs of a block, and whether it is accepted or building it is aborted. */
  datatype Block = Block(proofs: seq<Work>, accepted: bool)

  /** The proofs of the accepted blocks, in order. */
  function Effects(blocks: seq<Block>): seq<Work> {
    if blocks == [] then []
    else
      var last := blocks[|blocks| - 1];
      Effects(blocks[..|blocks| - 1]) + if last.accepted then last.proofs else []
  }

  function Worked(kind: PowKind, a: Address, proofs: seq<Work>): nat {
    if proofs == [] then 0
    else
      var (k, proof) := proofs[|proofs| - 1];
      Worked(kind, a, proofs[..|proofs| - 1]) + (if k == kind && proof.miner == a then proof.workTime else 0)
  }

  function TimeOf(r: Option<PowRecord>): UInt64 { if r.Some? then r.value.totalTime else 0 }

  /** A miner's total time grows by exactly the time of its own proofs. */
  lemma {:induction false} TimeGrowsByWork(r: Option<PowRecord>, kind: PowKind, a: Address,
                                           proofs: seq<Work>)
    ensures TimeOf(GrownAll(r, kind, a, proofs)) == Wrap(TimeOf(r) + Worked(kind, a, proofs))
  {
    if proofs != [] {
      var (k, proof) := proofs[|proofs| - 1];
      TimeGrowsByWork(r, kind, a, proofs[..|proofs| - 1]);
      WrapSum(TimeOf(r) + Worked(kind, a, proofs[..|proofs| - 1]), proof.workTime);
    }
  }

  function Flowed(kind: PowKind, a: Address, proofs: seq<Work>): nat {
    if proofs == [] then 0
    else
      var (k, proof) := proofs[|proofs| - 1];
      Flowed(kind, a, proofs[..|proofs| - 1]) + (if k == kind && proof.miner == a then proof.netflow else 0)
  }

  function FlowOf(r: Option<PowRecord>): UInt64 { if r.Some? then r.value.totalFlow else 0 }

  /** And its total flow by the flow of its own proofs. */
  lemma {:induction false} FlowGrowsByWork(r: Option<PowRecord>, kind: PowKind, a: Address, proofs: seq<Work>)
    ensures FlowOf(GrownAll(r, kind, a, proofs)) == Wrap(FlowOf(r) + Flowed(kind, a, proofs))
  {
    if proofs != [] {
      var (k, proof) := proofs[|proofs| - 1];
      FlowGrowsByWork(r, kind, a, proofs[..|proofs| - 1]);
      WrapSum(FlowOf(r) + Flowed(kind, a, proofs[..|proofs| - 1]), proof.netflow);
    }
  }

  predicate OwnProof(kind: PowKind, a: Address, work: Work) {
    work.0 == kind && work.1.miner == a
  }

  /** The record bears the transaction and the time of the miner's last proof, and names the
      kind and the miner. */
  lemma {:induction false} LastProofMarks(r: Option<PowRecord>, kind: PowKind, a: Address, proofs: seq<Work>, i: nat)
    requires i < |proofs| && OwnProof(kind, a, proofs[i])
    requires forall j :: i < j < |proofs| ==> !OwnProof(kind, a, proofs[j])
    ensures var grown := GrownAll(r, kind, a, proofs);
            && grown.Some? && grown.value.kind == kind && grown.value.miner == a
            && grown.value.lastUpdateTx == proofs[i].1.txId && grown.value.lastUpdateTime == proofs[i].1.updateTime
    decreases |proofs|
  {
    var last := |proofs| - 1;
    if i < last {
      assert !OwnProof(kind, a, proofs[last]);
      LastProofMarks(r, kind, a, proofs[..last], i);
    }
  }

  /** What has been staged shows as growth of the records. */
  ghost predicate Grew(before: View, after: View, proofs: seq<Work>) {
    forall k, b :: Stored(after, k, b) == GrownAll(Stored(before, k, b), k, b, proofs)
  }

  /** Some proof of the list is the miner's. */
  predicate Works(kind: PowKind, a: Address, proofs: seq<Work>) {
    proofs != [] &&
      var (k, proof) := proofs[|proofs| - 1];
      (k == kind && proof.miner == a) || Works(kind, a, proofs[..|proofs| - 1])
  }

  /** The overlay holds what the cache shows for the miners at work, and its own records for
      the others. */
  ghost predicate TakesOver(before: View, shown: View, after: View, proofs: seq<Work>) {
    forall k, b :: Stored(after, k, b) == if Works(k, b, proofs) then Stored(shown, k, b) else Stored(before, k, b)
  }

  lemma StagedNext(start: View, shown: View, before: View, overlay: View, proofs: seq<Work>, i: nat)
    requires i < |proofs| && Grew(start, shown, proofs[..i]) && TakesOver(before, shown, overlay, proofs[..i])
    ensures var (kind, proof) := proofs[i];
            var r := Grown(Stored(shown, kind, proof.miner), kind, proof);
            && Grew(start, Put(shown, r), proofs[..i + 1])
            && TakesOver(before, Put(shown, r), Put(overlay, r), proofs[..i + 1])
  {
    assert proofs[..i + 1][..i] == proofs[..i];
    var (kind, proof) := proofs[i];
    var r := Grown(Stored(shown, kind, proof.miner), kind, proof);
    forall k, b
      ensures Stored(Put(shown, r), k, b) == GrownAll(Stored(start, k, b), k, b, proofs[..i + 1])
      ensures Stored(Put(overlay, r), k, b) ==
              if Works(k, b, proofs[..i + 1]) then Stored(Put(shown, r), k, b) else Stored(before, k, b)
    {
      StoredPut(shown, r, k, b);
      StoredPut(overlay, r, k, b);
    }
  }

  lemma {:induction false} IdlersStay(r: Option<PowRecord>, kind: PowKind, a: Address, proofs: seq<Work>)
    requires !Works(kind, a, proofs)
    ensures GrownAll(r, kind, a, proofs) == r
  {
    if proofs != [] {
      IdlersStay(r, kind, a, proofs[..|proofs| - 1]);
    }
  }

  /** On its own a block's overlay holds what the cache shows. */
  lemma TakenOverAt(before: View, shown: View, after: View, proofs: seq<Work>, k: PowKind, b: Address)
    requires Grew(before, shown, proofs) && TakesOver(before, shown, after, proofs)
    ensures Stored(after, k, b) == Stored(shown, k, b)
  {
    if !Works(k, b, proofs) {
      IdlersStay(Stored(before, k, b), k, b, proofs);
    }
  }

  // ---------- when two lists of proofs come to the same ----------

  /** What proofs alone would make of no record: the mark of the last one and the totals. */
  function Alone(kind: PowKind, a: Address, proofs: seq<Work>): Option<PowRecord> {
    GrownAll(None, kind, a, proofs)
  }

  /** A record and what further proofs alone would make. */
  function Joined(r: Option<PowRecord>, more: Option<PowRecord>): Option<PowRecord> {
    if r.None? || more.None? then if r.None? then more else r
    else
      Some(more.value.(totalTime := Wrap(r.value.totalTime + more.value.totalTime),
                       totalFlow := Wrap(r.value.totalFlow + more.value.totalFlow)))
  }

  lemma JoinedNext(r: Option<PowRecord>, more: Option<PowRecord>, kind: PowKind, proof: Proof)
    ensures Joined(r, Some(Grown(more, kind, proof))) == Some(Grown(Joined(r, more), kind, proof))
  {
    if r.Some? && more.Some? {
      var sum, grown := Joined(r, more), Grown(more, kind, proof);
      WrapAround(r.value.totalTime, more.value.totalTime, proof.workTime, grown.totalTime, sum.value.totalTime);
      WrapAround(r.value.totalFlow, more.value.totalFlow, proof.netflow, grown.totalFlow, sum.value.totalFlow);
      assert Joined(r, Some(grown)).value.totalTime == Grown(sum, kind, proof).totalTime;
      assert Joined(r, Some(grown)).value.totalFlow == Grown(sum, kind, proof).totalFlow;
    } else if r.Some? {
      assert Grown(None, kind, proof).totalTime == proof.workTime
             && Grown(None, kind, proof).totalFlow == proof.netflow;
    }
  }

  lemma WrapAround(x: nat, y: nat, z: nat, yz: nat, xy: nat)
    requires yz == Wrap(y + z) && xy == Wrap(x + y)
    ensures Wrap(x + yz) == Wrap(xy + z)
  {
    WrapSum(y + z, x);
    WrapSum(x + y, z);
    assert (y + z) + x == (x + y) + z;
  }

  lemma {:induction false} GrownIsJoined(r: Option<PowRecord>, kind: PowKind, a: Address, proofs: seq<Work>)
    ensures GrownAll(r, kind, a, proofs) == Joined(r, Alone(kind, a, proofs))
  {
    if proofs != [] {
      var (k, proof) := proofs[|proofs| - 1];
      GrownIsJoined(r, kind, a, proofs[..|proofs| - 1]);
      JoinedNext(r, Alone(kind, a, proofs[..|proofs| - 1]), kind, proof);
    }
  }

  lemma AloneConcat(kind: PowKind, a: Address, first: seq<Work>, second: seq<Work>)
    ensures Alone(kind, a, first + second) == Joined(Alone(kind, a, first), Alone(kind, a, second))
  {
    GrownTwice(None, kind, a, first, second);
    GrownIsJoined(Alone(kind, a, first), kind, a, second);
  }

  lemma {:induction false} WorksAlone(kind: PowKind, a: Address, proofs: seq<Work>)
    ensures Works(kind, a, proofs) <==> Alone(kind, a, proofs).Some?
  {
    if proofs != [] {
      WorksAlone(kind, a, proofs[..|proofs| - 1]);
    }
  }

  /** Joining changes nothing: the record bears the mark already and the totals come round. */
  predicate AddsNothing(r: Option<PowRecord>, more: Option<PowRecord>) {
    more.Some? ==>
      && r.Some? && more.value.totalTime == 0 == more.value.totalFlow
      && r.value == more.value.(totalTime := r.value.totalTime, totalFlow := r.value.totalFlow)
  }

  lemma AddsNothingIff(r: Option<PowRecord>, more: Option<PowRecord>)
    ensures Joined(r, more) == r <==> AddsNothing(r, more)
  {
    if r.Some? && more.Some? {
      WrapCancels(r.value.totalTime, more.value.totalTime, 0);
      WrapCancels(r.value.totalFlow, more.value.totalFlow, 0);
    }
  }

  lemma WrapCancels(t: UInt64, x: UInt64, y: UInt64)
    ensures Wrap(t + x) == Wrap(t + y) <==> x == y
  {}

  /** What two lists make alone changes the record to the same: it is the same, or where only
      one list is about the miner it leaves the record as it is. */
  predicate SameJoined(r: Option<PowRecord>, one: Option<PowRecord>, other: Option<PowRecord>) {
    if one.Some? && other.Some? then one == other else AddsNothing(r, one) && AddsNothing(r, other)
  }

  lemma SameJoinedIff(r: Option<PowRecord>, one: Option<PowRecord>, other: Option<PowRecord>)
    ensures Joined(r, one) == Joined(r, other) <==> SameJoined(r, one, other)
  {
    AddsNothingIff(r, one);
    AddsNothingIff(r, other);
    if r.Some? && one.Some? && other.Some? {
      WrapCancels(r.value.totalTime, one.value.totalTime, other.value.totalTime);
      WrapCancels(r.value.totalFlow, one.value.totalFlow, other.value.totalFlow);
    }
  }

  predicate SameGrowth(r: Option<PowRecord>, kind: PowKind, a: Address, first: seq<Work>, second: seq<Work>) {
    SameJoined(r, Alone(kind, a, first), Alone(kind, a, second))
  }

  lemma SameGrowthIff(r: Option<PowRecord>, kind: PowKind, a: Address, first: seq<Work>, second: seq<Work>)
    ensures GrownAll(r, kind, a, first) == GrownAll(r, kind, a, second) <==> SameGrowth(r, kind, a, first, second)
  {
    GrownIsJoined(r, kind, a, first);
    GrownIsJoined(r, kind, a, second);
    SameJoinedIff(r, Alone(kind, a, first), Alone(kind, a, second));
  }

  // ---------- runs ----------

  type Moment = Event<Work>

  /** What has been written to the database about a miner: what the cache showed when the last
      accepted block with work of the miner was staged. */
  ghost function OnDisk(events: seq<Moment>, kind: PowKind, a: Address): seq<Work>
    requires RunOk(events)
  {
    if events == [] then []
    else
      var n := |events| - 1;
      PrefixOk(events, n);
      assert EventOk(events, n);
      if events[n].Accepting? && Works(kind, a, events[events[n].block].staged) then Told(events[..events[n].block + 1])
      else OnDisk(events[..n], kind, a)
  }

  lemma OnDiskNext(done: seq<Moment>, event: Moment, kind: PowKind, a: Address)
    requires RunOk(done) && RunOk(done + [event])
    ensures event.Accepting? ==> event.block < |done| && done[event.block].Staging?
    ensures OnDisk(done + [event], kind, a) ==
            if event.Accepting? && Works(kind, a, done[event.block].staged) then Told(done[..event.block + 1])
            else OnDisk(done, kind, a)
  {
    var next := done + [event];
    assert next[..|done|] == done && EventOk(next, |done|);
    assert event.Accepting? ==> next[..event.block + 1] == done[..event.block + 1];
  }

  lemma {:induction false} NothingOnDisk(events: seq<Moment>, kind: PowKind, a: Address)
    requires RunOk(events) && NoAccepts(events)
    ensures OnDisk(events, kind, a) == []
  {
    if events != [] {
      PrefixOk(events, |events| - 1);
      NothingOnDisk(events[..|events| - 1], kind, a);
    }
  }

  /** Every record of the view has grown from the start by the list for its miner. */
  ghost predicate DiskIs(start: View, events: seq<Moment>, view: View)
    requires RunOk(events)
  {
    forall k, b {:trigger Stored(view, k, b)} ::
      Stored(view, k, b) == GrownAll(Stored(start, k, b), k, b, OnDisk(events, k, b))
  }

  /** What the cache has committed and what it shows, and what is in the database. */
  ghost predicate Reached(start: View, events: seq<Moment>, committed: View, shown: View, view: View)
    requires RunOk(events)
  {
    Grew(start, committed, Kept(events)) && Grew(start, shown, Told(events)) && DiskIs(start, events, view)
  }

  lemma ReachedStaging(start: View, done: seq<Moment>, committed: View, shown: View, view: View, proofs: seq<Work>,
                       after: View)
    requires RunOk(done) && RunOk(done + [Staging(proofs)]) && Reached(start, done, committed, shown, view)
    requires Grew(shown, after, proofs)
    ensures Reached(start, done + [Staging(proofs)], committed, after, view)
  {
    var next := done + [Staging(proofs)];
    ListsNext(done, Staging(proofs));
    assert Told(next) == Told(done) + proofs;
    forall k, b ensures Stored(after, k, b) == GrownAll(Stored(start, k, b), k, b, Told(next)) {
      GrownTwice(Stored(start, k, b), k, b, Told(done), proofs);
    }
    forall k, b ensures OnDisk(next, k, b) == OnDisk(done, k, b) {
      OnDiskNext(done, Staging(proofs), k, b);
    }
  }

  lemma ReachedAbort(start: View, done: seq<Moment>, committed: View, shown: View, view: View)
    requires RunOk(done) && RunOk(done + [Aborting]) && Reached(start, done, committed, shown, view)
    ensures Reached(start, done + [Aborting], committed, committed, view)
  {
    var next := done + [Aborting];
    ListsNext(done, Aborting);
    assert Told(next) == Kept(done);
    forall k, b ensures OnDisk(next, k, b) == OnDisk(done, k, b) {
      OnDiskNext(done, Aborting, k, b);
    }
  }

  /** What a staged block writes: the records shown after it, of the miners at work in it. */
  ghost predicate WroteAt(writes: Writes, record: Option<PowRecord>, works: bool, k: PowKind, b: Address) {
    if works then record.Some? && PowKey(k, b) in writes && writes[PowKey(k, b)] == Some(PowValue(record.value))
    else PowKey(k, b) !in writes
  }

  ghost predicate Wrote(writes: Writes, shown: View, proofs: seq<Work>) {
    forall k, b {:trigger Works(k, b, proofs)} :: WroteAt(writes, Stored(shown, k, b), Works(k, b, proofs), k, b)
  }

  ghost predicate WroteStaged(start: View, events: seq<Moment>, i: nat, writes: Writes)
    requires i < |events| && events[i].Staging?
  {
    forall k, b {:trigger Works(k, b, events[i].staged)} ::
      WroteAt(writes, GrownAll(Stored(start, k, b), k, b, Told(events[..i + 1])), Works(k, b, events[i].staged), k, b)
  }

  lemma WroteNext(before: Writes, shown: View, proofs: seq<Work>, i: nat)
    requires i < |proofs| && Wrote(before, shown, proofs[..i])
    ensures var (kind, proof) := proofs[i];
            var r := Grown(Stored(shown, kind, proof.miner), kind, proof);
            Wrote(before + map[PowKey(kind, proof.miner) := Some(PowValue(r))], Put(shown, r), proofs[..i + 1])
  {
    assert proofs[..i + 1][..i] == proofs[..i];
    var (kind, proof) := proofs[i];
    var r := Grown(Stored(shown, kind, proof.miner), kind, proof);
    var after := before + map[PowKey(kind, proof.miner) := Some(PowValue(r))];
    forall k, b ensures WroteAt(after, Stored(Put(shown, r), k, b), Works(k, b, proofs[..i + 1]), k, b) {
      StoredPut(shown, r, k, b);
      assert WroteAt(before, Stored(shown, k, b), Works(k, b, proofs[..i]), k, b);
    }
  }

  lemma AppliedAt(view: View, writes: Writes, record: Option<PowRecord>, works: bool, k: PowKind, b: Address)
    requires WroteAt(writes, record, works, k, b)
    ensures Stored(Apply(view, writes), k, b) == if works then record else Stored(view, k, b)
  {}

  lemma AcceptedAt(start: View, done: seq<Moment>, view: View, block: nat, writes: Writes, k: PowKind, b: Address)
    requires RunOk(done) && RunOk(done + [Accepting(block)]) && DiskIs(start, done, view)
    requires block < |done| && done[block].Staging? && WroteStaged(start, done, block, writes)
    ensures Stored(Apply(view, writes), k, b) ==
            GrownAll(Stored(start, k, b), k, b, OnDisk(done + [Accepting(block)], k, b))
  {
    var works, record := Works(k, b, done[block].staged), GrownAll(Stored(start, k, b), k, b, Told(done[..block + 1]));
    OnDiskNext(done, Accepting(block), k, b);
    assert WroteAt(writes, record, works, k, b);
    AppliedAt(view, writes, record, works, k, b);
    assert Stored(view, k, b) == GrownAll(Stored(start, k, b), k, b, OnDisk(done, k, b));
  }

  lemma ReachedAccept(start: View, done: seq<Moment>, committed: View, shown: View, view: View, block: nat,
                      writes: Writes)
    requires RunOk(done) && RunOk(done + [Accepting(block)]) && Reached(start, done, committed, shown, view)
    requires block < |done| && done[block].Staging? && WroteStaged(start, done, block, writes)
    ensures Reached(start, done + [Accepting(block)], shown, shown, Apply(view, writes))
  {
    var next, after := done + [Accepting(block)], Apply(view, writes);
    ListsNext(done, Accepting(block));
    assert Told(next) == Told(done);
    forall k, b ensures Stored(after, k, b) == GrownAll(Stored(start, k, b), k, b, OnDisk(next, k, b)) {
      AcceptedAt(start, done, view, block, writes, k, b);
    }
  }

  ghost predicate Holds(start: View, events: seq<Moment>, written: seq<Writes>)
    requires |written| == |events|
  {
    forall i {:trigger written[i]} :: 0 <= i < |events| && events[i].Staging? ==>
      WroteStaged(start, events, i, written[i])
  }

  lemma HoldsNext(start: View, done: seq<Moment>, written: seq<Writes>, event: Moment, writes: Writes)
    requires |written| == |done| && Holds(start, done, written)
    requires event.Staging? ==> WroteStaged(start, done + [event], |done|, writes)
    ensures Holds(start, done + [event], written + [writes])
  {
    var next := done + [event];
    forall i | 0 <= i < |next| && next[i].Staging? ensures WroteStaged(start, next, i, (written + [writes])[i]) {
      if i < |done| {
        assert next[..i + 1] == done[..i + 1] && WroteStaged(start, done, i, written[i]);
      }
    }
  }

  // ---------- a block among others ----------

  /** The block can be accepted although the others were staged, as far as the miner goes.
      After an abort, the later work comes to the same as what the block was staged with.
      Without one, later work adds nothing to the block's, and if the block has no work of the
      miner, the other blocks' work leaves the record as it is. */
  predicate Undisturbed(r: Option<PowRecord>, before: seq<Moment>, proofs: seq<Work>, after: seq<Moment>,
                        kind: PowKind, a: Address) {
    if Aborts(after) then SameGrowth(r, kind, a, Pending(after), WrittenAmong(before, proofs, kind, a))
    else if Works(kind, a, proofs) then
      AddsNothing(Alone(kind, a, Pending(before) + proofs), Alone(kind, a, Pending(after)))
    else AddsNothing(r, Alone(kind, a, Pending(before) + Pending(after)))
  }

  function WrittenAmong(before: seq<Moment>, proofs: seq<Work>, kind: PowKind, a: Address): seq<Work> {
    if Works(kind, a, proofs) then Pending(before) + proofs else []
  }

  lemma {:induction false} WorkedConcat(kind: PowKind, a: Address, first: seq<Work>, second: seq<Work>)
    ensures Worked(kind, a, first + second) == Worked(kind, a, first) + Worked(kind, a, second)
  {
    if second == [] {
      assert first + second == first;
    } else {
      WorkedConcat(kind, a, first, second[..|second| - 1]);
      assert (first + second)[..|first + second| - 1] == first + second[..|second| - 1];
    }
  }

  /** A miner of an accepted block is also credited with its work in the blocks that were
      staged before, accepted or not. */
  lemma OthersWorkCounts(r: Option<PowRecord>, kind: PowKind, a: Address, before: seq<Moment>, proofs: seq<Work>)
    requires Works(kind, a, proofs)
    ensures TimeOf(GrownAll(r, kind, a, WrittenAmong(before, proofs, kind, a))) ==
            Wrap(TimeOf(r) + (Worked(kind, a, Pending(before)) + Worked(kind, a, proofs)))
  {
    WorkedConcat(kind, a, Pending(before), proofs);
    TimeGrowsByWork(r, kind, a, Pending(before) + proofs);
  }

  lemma WrittenIs(before: seq<Moment>, proofs: seq<Work>, after: seq<Moment>, kind: PowKind, a: Address)
    requires NoAccepts(before) && NoAccepts(after)
    ensures var events := before + [Staging(proofs)] + after;
            RunOk(events + [Accepting(|before|)])
            && OnDisk(events + [Accepting(|before|)], kind, a) == WrittenAmong(before, proofs, kind, a)
  {
    var events := before + [Staging(proofs)] + after;
    AmongIsRun(before, proofs, after);
    OnDiskNext(events, Accepting(|before|), kind, a);
    NothingOnDisk(events, kind, a);
    assert events[..|before| + 1] == before + [Staging(proofs)];
    ListsNext(before, Staging(proofs));
    NothingKept(before);
    assert [] + (Pending(before) + proofs) == Pending(before) + proofs;
  }

  lemma UndisturbedIff(r: Option<PowRecord>, before: seq<Moment>, proofs: seq<Work>, after: seq<Moment>,
                       kind: PowKind, a: Address)
    requires NoAccepts(after)
    ensures SameGrowth(r, kind, a, Pending(before + [Staging(proofs)] + after),
                       WrittenAmong(before, proofs, kind, a)) <==>
            Undisturbed(r, before, proofs, after, kind, a)
  {
    PendingAmong(before, proofs, after);
    var earlier, later := Pending(before), Pending(after);
    WorksAlone(kind, a, proofs);
    AloneConcat(kind, a, earlier + proofs, later);
    AloneConcat(kind, a, earlier, proofs);
    AloneConcat(kind, a, earlier, later);
    AddsNothingIff(Alone(kind, a, earlier + proofs), Alone(kind, a, later));
  }

  /** If no two proofs in play are of one transaction, and none is of the one that the record
      is marked with, it comes down to who works where: nobody works in a later block; after an
      abort nobody in the block either, and else whoever works in an earlier block also works
      in the block. */
  lemma UndisturbedIsWhoWorks(r: Option<PowRecord>, before: seq<Moment>, proofs: seq<Work>, after: seq<Moment>,
                              kind: PowKind, a: Address)
    requires AllNew(r, Pending(before) + proofs + Pending(after))
    ensures Undisturbed(r, before, proofs, after, kind, a) <==>
            && !Works(kind, a, Pending(after))
            && if Aborts(after) then !Works(kind, a, proofs)
               else Works(kind, a, Pending(before)) ==> Works(kind, a, proofs)
  {
    var earlier, later := Pending(before), Pending(after);
    var all, n := earlier + proofs + later, |earlier| + |proofs|;
    WorksAlone(kind, a, earlier);
    WorksAlone(kind, a, proofs);
    WorksAlone(kind, a, later);
    MarkConcat(kind, a, earlier, proofs);
    MarkConcat(kind, a, earlier, later);
    assert all[0..|earlier|] == earlier && all[0..n] == earlier + proofs && all[n..|all|] == later;
    var i := MarkedBy(all, 0, |earlier|, kind, a);
    var j := MarkedBy(all, 0, n, kind, a);
    var k := MarkedBy(all, n, |all|, kind, a);
    NewMarksDiffer(r, Alone(kind, a, earlier), Alone(kind, a, proofs), Alone(kind, a, later),
                   Alone(kind, a, earlier + proofs), Alone(kind, a, earlier + later));
  }

  /** Records with different marks are not the same. */
  lemma NewMarksDiffer(r: Option<PowRecord>, earlier: Option<PowRecord>, own: Option<PowRecord>,
                       later: Option<PowRecord>,
                       with: Option<PowRecord>, without: Option<PowRecord>)
    requires (with.Some? <==> earlier.Some? || own.Some?) && (without.Some? <==> earlier.Some? || later.Some?)
    requires without.Some? ==>
               without.value.lastUpdateTx ==
               if later.Some? then later.value.lastUpdateTx else earlier.value.lastUpdateTx
    requires r.Some? ==>
               && (earlier.Some? ==> earlier.value.lastUpdateTx != r.value.lastUpdateTx)
               && (later.Some? ==> later.value.lastUpdateTx != r.value.lastUpdateTx)
               && (with.Some? ==> with.value.lastUpdateTx != r.value.lastUpdateTx)
    requires later.Some? && with.Some? ==> later.value.lastUpdateTx != with.value.lastUpdateTx
    ensures SameJoined(r, later, if own.Some? then with else None) <==> later.None? && own.None?
    ensures (if own.Some? then AddsNothing(with, later) else AddsNothing(r, without)) <==>
            later.None? && (earlier.Some? ==> own.Some?)
  {}

  lemma MarkConcat(kind: PowKind, a: Address, first: seq<Work>, second: seq<Work>)
    ensures var one, other, both := Alone(kind, a, first), Alone(kind, a, second), Alone(kind, a, first + second);
            && (both.Some? <==> one.Some? || other.Some?)
            && (both.Some? ==>
                  both.value.lastUpdateTx == if other.Some? then other.value.lastUpdateTx else one.value.lastUpdateTx)
  {
    AloneConcat(kind, a, first, second);
  }

  ghost predicate AllNew(r: Option<PowRecord>, proofs: seq<Work>) {
    && (forall i, j :: 0 <= i < j < |proofs| ==> proofs[i].1.txId != proofs[j].1.txId)
    && (r.Some? ==> forall i :: 0 <= i < |proofs| ==> proofs[i].1.txId != r.value.lastUpdateTx)
  }

  /** What proofs make of no record is marked with one of them. */
  lemma {:induction false} MarkedBy(all: seq<Work>, start: nat, end: nat, kind: PowKind, a: Address) returns (i: nat)
    requires start <= end <= |all|
    ensures var alone := Alone(kind, a, all[start..end]);
            alone.Some? ==> start <= i < end && all[i].1.txId == alone.value.lastUpdateTx
    decreases end
  {
    i := 0;
    if start < end {
      i := MarkedBy(all, start, end - 1, kind, a);
      assert all[start..end][..end - 1 - start] == all[start..end - 1];
      assert all[start..end][end - 1 - start] == all[end - 1];
      if all[end - 1].0 == kind && all[end - 1].1.miner == a {
        i := end - 1;
      }
    }
  }

  // ---------- whole runs ----------

  /** What the cache has committed and what is in the database, as Run leaves them, are the
      same record. */
  ghost predicate InStep(r: Option<PowRecord>, events: seq<Moment>, kind: PowKind, a: Address)
    requires RunOk(events)
  {
    GrownAll(r, kind, a, Kept(events)) == GrownAll(r, kind, a, OnDisk(events, kind, a))
  }

  /** The cache agrees with the database on the miner's record, after every event. */
  ghost predicate AlwaysInStep(r: Option<PowRecord>, events: seq<Moment>, kind: PowKind, a: Address)
    requires RunOk(events)
  {
    InStep(r, events, kind, a)
    && (events != [] ==>
          var n := |events| - 1;
          assert RunOk(events[..n]) by {
            PrefixOk(events, n);
          }
          AlwaysInStep(r, events[..n], kind, a))
  }

  /** A block can be accepted, as far as the miner goes: if the miner works in it, the block is
      not dropped by an abort after it was staged, and nothing staged since has work of the
      miner; and else no work of the miner is pending. */
  predicate Fits(events: seq<Moment>, block: nat, kind: PowKind, a: Address)
    requires block < |events| && events[block].Staging?
  {
    if Works(kind, a, events[block].staged) then
      !Drops(events[block + 1..]) && !Works(kind, a, Told(events[block + 1..]))
    else !Works(kind, a, Pending(events))
  }

  /** No two proofs of the block, committed or pending when it was staged, or staged since and
      not dropped again, are of one transaction, and none is of the one that the record is
      marked with at the start of the run.  Proofs that an abort has dropped may be staged
      again, as they are after building. */
  ghost predicate NewAt(r: Option<PowRecord>, events: seq<Moment>, block: nat)
    requires block < |events| && events[block].Staging?
  {
    AllNew(r, Told(events[..block]) + events[block].staged + Told(events[block + 1..]))
  }

  ghost predicate AlwaysNew(r: Option<PowRecord>, events: seq<Moment>)
    requires RunOk(events)
  {
    if events == [] then true
    else
      var n := |events| - 1;
      PrefixOk(events, n);
      assert EventOk(events, n);
      AlwaysNew(r, events[..n]) && (events[n].Accepting? ==> NewAt(r, events[..n], events[n].block))
  }

  ghost predicate AlwaysFits(events: seq<Moment>, kind: PowKind, a: Address)
    requires RunOk(events)
  {
    if events == [] then true
    else
      var n := |events| - 1;
      PrefixOk(events, n);
      assert EventOk(events, n);
      && AlwaysFits(events[..n], kind, a)
      && (events[n].Accepting? ==> Fits(events[..n], events[n].block, kind, a))
  }

  /** The record is marked with a proof of the list, or not changed. */
  lemma {:induction false} MarkIsOf(r: Option<PowRecord>, kind: PowKind, a: Address, proofs: seq<Work>)
    returns (mark: Work)
    ensures var grown := GrownAll(r, kind, a, proofs);
            if Works(kind, a, proofs) then
              grown.Some? && mark in proofs && mark.1.txId == grown.value.lastUpdateTx
            else grown == r
  {
    mark := (kind, Proof(a, 0, 0, 0, 0));
    if proofs != [] {
      var last := proofs[|proofs| - 1];
      if last.0 == kind && last.1.miner == a {
        mark := last;
      } else {
        mark := MarkIsOf(r, kind, a, proofs[..|proofs| - 1]);
      }
    }
  }

  /** Lists of new proofs leave different records if the last work of one is not in the other. */
  lemma NewMarkShows(r: Option<PowRecord>, kind: PowKind, a: Address, first: seq<Work>, own: seq<Work>,
                     other: seq<Work>)
    requires Works(kind, a, own)
    requires forall x, y :: x in own && y in other ==> x.1.txId != y.1.txId
    requires r.Some? ==> forall x :: x in own ==> x.1.txId != r.value.lastUpdateTx
    ensures GrownAll(r, kind, a, first + own) != GrownAll(r, kind, a, other)
  {
    GrownTwice(r, kind, a, first, own);
    var x := MarkIsOf(GrownAll(r, kind, a, first), kind, a, own);
    var y := MarkIsOf(r, kind, a, other);
  }

  lemma AllNewApart(r: Option<PowRecord>, first: seq<Work>, second: seq<Work>, third: seq<Work>)
    requires AllNew(r, first + second + third)
    ensures AllNew(r, first + third)
    ensures forall x, y :: x in second && (y in first || y in third) ==> x.1.txId != y.1.txId
    ensures r.Some? ==> forall x :: x in second ==> x.1.txId != r.value.lastUpdateTx
  {
    var all, n := first + second + third, |first| + |second|;
    assert forall k :: 0 <= k < |first| ==> first[k] == all[k];
    assert forall k :: 0 <= k < |second| ==> second[k] == all[|first| + k];
    assert forall k :: 0 <= k < |third| ==> third[k] == all[n + k];
    assert forall k :: 0 <= k < |first + third| ==> (first + third)[k] == all[if k < |first| then k else k + |second|];
  }

  lemma LastIsNew(r: Option<PowRecord>, first: seq<Work>, second: seq<Work>)
    requires AllNew(r, first + second)
    ensures forall x, y :: x in second && y in first ==> x.1.txId != y.1.txId
    ensures r.Some? ==> forall x :: x in second ==> x.1.txId != r.value.lastUpdateTx
  {
    assert first + second + [] == first + second;
    AllNewApart(r, first, second, []);
  }

  /** An accepted block with the miner's work writes what the cache showed when the block was
      staged.  The cache still holds that record if and only if the block has not been dropped
      and the miner has not worked since. */
  lemma WorkShows(r: Option<PowRecord>, kind: PowKind, a: Address, kept: seq<Work>, pending: seq<Work>,
                  proofs: seq<Work>, rest: seq<Work>, drops: bool)
    requires Works(kind, a, proofs) && AllNew(r, kept + pending + proofs + rest)
    ensures GrownAll(r, kind, a, (if drops then kept else kept + pending + proofs) + rest) ==
            GrownAll(r, kind, a, kept + pending + proofs)
            <==> !drops && !Works(kind, a, rest)
  {
    var told := kept + pending;
    AllNewApart(r, told, proofs, rest);
    if drops {
      NewMarkShows(r, kind, a, told, proofs, kept + rest);
    } else if Works(kind, a, rest) {
      LastIsNew(r, told + proofs, rest);
      NewMarkShows(r, kind, a, told + proofs, rest, told + proofs);
    } else {
      GrownTwice(r, kind, a, told + proofs, rest);
      IdlersStay(GrownAll(r, kind, a, told + proofs), kind, a, rest);
    }
  }

  lemma AcceptedWork(r: Option<PowRecord>, before: seq<Moment>, proofs: seq<Work>, after: seq<Moment>, kind: PowKind,
                     a: Address)
    requires AllNew(r, Told(before) + proofs + Told(after))
    ensures Works(kind, a, proofs) ==>
              (GrownAll(r, kind, a, Told(before + [Staging(proofs)] + after)) ==
               GrownAll(r, kind, a, Told(before + [Staging(proofs)]))
               <==> !Drops(after) && !Works(kind, a, Told(after)))
    ensures AllNew(r, Told(before + [Staging(proofs)] + after))
  {
    var staged := before + [Staging(proofs)];
    ToldNext(before, Staging(proofs));
    assert Kept(staged) == Kept(before) && Told(staged) == Told(before) + proofs;
    ToldConcat(staged, after);
    if Works(kind, a, proofs) {
      WorkShows(r, kind, a, Kept(before), Pending(before), proofs, Told(after), Drops(after));
    }
    if Drops(after) {
      assert Kept(before) + (Pending(before) + proofs) == Told(before) + proofs;
      AllNewApart(r, Kept(before), Pending(before) + proofs, Told(after));
    }
  }

  /** An acceptance, from a state in step. */
  lemma AcceptInStep(r: Option<PowRecord>, events: seq<Moment>, block: nat, kind: PowKind, a: Address,
                     stored: seq<Work>)
    requires block < |events| && events[block].Staging? && NewAt(r, events, block)
    requires GrownAll(r, kind, a, Kept(events)) == GrownAll(r, kind, a, stored)
    ensures GrownAll(r, kind, a, Told(events)) ==
            GrownAll(r, kind, a, if Works(kind, a, events[block].staged) then Told(events[..block + 1]) else stored)
            <==> Fits(events, block, kind, a)
  {
    CutAt(events, block);
    AcceptedWork(r, events[..block], events[block].staged, events[block + 1..], kind, a);
    if !Works(kind, a, events[block].staged) {
      IdleWork(r, events, kind, a);
    }
  }

  lemma IdleWork(r: Option<PowRecord>, events: seq<Moment>, kind: PowKind, a: Address)
    requires AllNew(r, Told(events))
    ensures GrownAll(r, kind, a, Told(events)) == GrownAll(r, kind, a, Kept(events))
            <==> !Works(kind, a, Pending(events))
  {
    if Works(kind, a, Pending(events)) {
      LastIsNew(r, Kept(events), Pending(events));
      NewMarkShows(r, kind, a, Kept(events), Pending(events), Kept(events));
    } else {
      GrownTwice(r, kind, a, Kept(events), Pending(events));
      IdlersStay(GrownAll(r, kind, a, Kept(events)), kind, a, Pending(events));
    }
  }

  lemma NextInStep(r: Option<PowRecord>, init: seq<Moment>, last: Moment, kind: PowKind, a: Address)
    requires RunOk(init) && RunOk(init + [last]) && InStep(r, init, kind, a)
    requires last.Accepting? ==> last.block < |init| && init[last.block].Staging? && NewAt(r, init, last.block)
    ensures InStep(r, init + [last], kind, a) <==> (last.Accepting? ==> Fits(init, last.block, kind, a))
  {
    ListsNext(init, last);
    OnDiskNext(init, last, kind, a);
    if last.Accepting? {
      AcceptInStep(r, init, last.block, kind, a, OnDisk(init, kind, a));
    }
  }

  /** If at every acceptance the proofs are new, the cache agrees with the database on the
      miner throughout the run if and only if every accepted block fits when it is accepted. */
  lemma {:induction false} RunInStep(r: Option<PowRecord>, events: seq<Moment>, kind: PowKind, a: Address)
    requires RunOk(events) && AlwaysNew(r, events)
    ensures AlwaysInStep(r, events, kind, a) <==> AlwaysFits(events, kind, a)
    decreases |events|
  {
    if events != [] {
      var init, last := events[..|events| - 1], events[|events| - 1];
      PrefixOk(events, |events| - 1);
      assert events == init + [last] && EventOk(events, |events| - 1);
      RunInStep(r, init, kind, a);
      if InStep(r, init, kind, a) {
        NextInStep(r, init, last, kind, a);
      }
    }
  }

  /** Records lie under the kind and miner they name. */
  ghost predicate WellKeyed(view: View) {
    forall k, a {:trigger Stored(view, k, a)} :: Stored(view, k, a).Some? ==>
      Stored(view, k, a).value.kind == k && Stored(view, k, a).value.miner == a
  }

  class PowState {
    var curSer: Table
    var curRoute: Table
    var pendingRouteAdd: Table
    var pendingSerAdd: Table
    var pendingRouteDel: set<Address>
    var pendingSerDel: set<Address>
    ghost var objs: set<PowMeta>

    function Cur(kind: PowKind): Table
      reads this
    {
      match kind case SerPow => curSer case RoutePow => curRoute
    }

    // The pending maps serve the kinds crosswise.
    function PendingAdd(kind: PowKind): Table
      reads this
    {
      match kind case SerPow => pendingRouteAdd case RoutePow => pendingSerAdd
    }

    function PendingDel(kind: PowKind): set<Address>
      reads this
    {
      match kind case SerPow => pendingRouteDel case RoutePow => pendingSerDel
    }

    method SetPending(kind: PowKind, added: Table, deleted: set<Address>)
      modifies this`pendingRouteAdd, this`pendingRouteDel, this`pendingSerAdd, this`pendingSerDel
      ensures forall k :: PendingAdd(k) == if k == kind then added else old(PendingAdd(k))
      ensures forall k :: PendingDel(k) == if k == kind then deleted else old(PendingDel(k))
    {
      match kind
      case SerPow => pendingRouteAdd, pendingRouteDel := added, deleted;
      case RoutePow => pendingSerAdd, pendingSerDel := added, deleted;
    }

    /** The records of an address are its own, and the pending one is not the current one. */
    ghost predicate SlotOk(kind: PowKind, a: Address)
      reads this
    {
      && (a in Cur(kind) ==> Cur(kind)[a] in objs && Cur(kind)[a].kind == kind && Cur(kind)[a].miner == a)
      && (a in PendingAdd(kind) ==>
            PendingAdd(kind)[a] in objs && PendingAdd(kind)[a].kind == kind && PendingAdd(kind)[a].miner == a)
      && (a in PendingAdd(kind) ==> a !in PendingDel(kind) && (a in Cur(kind) ==> Cur(kind)[a] != PendingAdd(kind)[a]))
    }

    ghost predicate Valid()
      reads this
    {
      forall kind, a {:trigger SlotOk(kind, a)} :: SlotOk(kind, a)
    }

    ghost function CurRecord(kind: PowKind, a: Address): Option<PowRecord>
      requires SlotOk(kind, a)
      reads this, objs
    {
      if a in Cur(kind) then Some(Cur(kind)[a].Record()) else None
    }

    /** The record as the block in flight leaves it. */
    ghost function StagedRecord(kind: PowKind, a: Address): Option<PowRecord>
      requires SlotOk(kind, a)
      reads this, objs
    {
      if a in PendingAdd(kind) then Some(PendingAdd(kind)[a].Record())
      else if a in PendingDel(kind) then None
      else CurRecord(kind, a)
    }

    ghost predicate SlotAgrees(kind: PowKind, a: Address, committed: View, overlay: View)
      reads this, objs
    {
      && SlotOk(kind, a) && CurRecord(kind, a) == Stored(committed, kind, a)
      && StagedRecord(kind, a) == Stored(overlay, kind, a)
    }

    /** The maps hold what the committed database holds, and with the pending changes what
        the overlay holds. */
    ghost predicate Agrees(committed: View, overlay: View)
      reads this, objs
    {
      forall kind, a {:trigger SlotAgrees(kind, a, committed, overlay)} :: SlotAgrees(kind, a, committed, overlay)
    }

    ghost predicate Clean()
      reads this
    {
      forall kind {:trigger PendingAdd(kind)} :: PendingAdd(kind) == map[] && PendingDel(kind) == {}
    }

    /** What PutPow builds on: the pending record, else the current one, even if the block
        has deleted it. */
    ghost function Base(kind: PowKind, a: Address): Option<PowRecord>
      requires SlotOk(kind, a)
      reads this, objs
    {
      if a in PendingAdd(kind) then Some(PendingAdd(kind)[a].Record()) else CurRecord(kind, a)
    }

    /** ReloadPows at start-up: new record objects for everything the database holds. */
    constructor Reload(db: Database, ghost stack: set<Database>)
      requires db in stack && forall d :: d in stack ==> d.Sound() && (d.base != null ==> d.base in stack)
      requires WellKeyed(db.view)
      ensures Agrees(db.view, db.view) && Clean() && fresh(objs)
    {
      var view := db.Snapshot(stack);
      var sers := LoadKind(view, SerPow);
      var routes := LoadKind(view, RoutePow);
      curSer, curRoute := sers, routes;
      pendingRouteAdd, pendingSerAdd, pendingRouteDel, pendingSerDel := map[], map[], {}, {};
      objs := sers.Values + routes.Values;
      new;
      forall k, a ensures SlotAgrees(k, a, view, view) {
        match k
        case SerPow => assert a in sers <==> Stored(view, SerPow, a).Some?;
        case RoutePow => assert a in routes <==> Stored(view, RoutePow, a).Some?;
      }
      forall k ensures PendingAdd(k) == map[] && PendingDel(k) == {} {
        match k
        case SerPow => assert pendingRouteAdd == map[];
        case RoutePow => assert pendingSerAdd == map[];
      }
      forall o | o in objs ensures fresh(o) {
        assert o in sers.Values || o in routes.Values;
      }
    }

    /** The cursor loop of ReloadPows. */
    static method LoadKind(view: View, kind: PowKind) returns (t: Table)
      requires WellKeyed(view)
      ensures forall a :: a in t <==> Stored(view, kind, a).Some?
      ensures forall a {:trigger t[a]} :: a in t ==>
                fresh(t[a]) && t[a].kind == kind && t[a].miner == a && Some(t[a].Record()) == Stored(view, kind, a)
    {
      t := map[];
      var left := view.Keys;
      while left != {}
        invariant left <= view.Keys
        invariant forall a :: a in t <==> Stored(view, kind, a).Some? && PowKey(kind, a) !in left
        invariant forall a {:trigger t[a]} :: a in t ==>
                    fresh(t[a]) && t[a].kind == kind && t[a].miner == a && Some(t[a].Record()) == Stored(view, kind, a)
        decreases left
      {
        var k :| k in left;
        left := left - {k};
        if k.PowKey? && k.powKind == kind && view[k].PowValue? {
          assert Stored(view, kind, k.miner) == Some(view[k].pow);
          var pmeta := new PowMeta(kind, view[k].pow);
          t := t[pmeta.miner := pmeta];
        }
      }
    }

    /** PutPow: adds a proof to the miner's pending record, in place if there is one, and
        writes the record to the overlay.  shown is what the cache shows, which is the
        overlay as long as only one block is in flight. */
    method PutPow(db: Database, kind: PowKind, proof: Proof, ghost committed: View, ghost shown: View)
      returns (ok: bool)
      requires Agrees(committed, shown) && db.Sound()
      modifies this, objs, db`mem, db`view
      ensures ok && db.Sound() && old(objs) <= objs && fresh(objs - old(objs)) && old(SlotOk(kind, proof.miner))
      ensures var r := Grown(old(Base(kind, proof.miner)), kind, proof);
              && Agrees(committed, Put(shown, r)) && db.view == Put(old(db.view), r)
              && db.mem == old(db.mem) + map[PowKey(kind, proof.miner) := Some(PowValue(r))]
      ensures forall k :: PendingDel(k) <= old(PendingDel(k))
    {
      assert SlotAgrees(kind, proof.miner, committed, shown);
      if proof.miner in PendingAdd(kind) {
        GrowPending(db, kind, proof, committed, shown);
        return true;
      }
      var before: Option<PowRecord> := None;
      if proof.miner in Cur(kind) {
        if Cur(kind)[proof.miner].kind != kind {
          return false;
        }
        before := Some(Cur(kind)[proof.miner].Record());
      }
      StageNew(db, kind, before, proof, committed, shown);
      ok := true;
    }

    method GrowPending(db: Database, kind: PowKind, proof: Proof, ghost committed: View, ghost shown: View)
      requires Agrees(committed, shown) && db.Sound()
      requires SlotOk(kind, proof.miner) && proof.miner in PendingAdd(kind)
      modifies PendingAdd(kind)[proof.miner], db`mem, db`view
      ensures db.Sound()
      ensures var r := Grown(old(Base(kind, proof.miner)), kind, proof);
              && Agrees(committed, Put(shown, r)) && db.view == Put(old(db.view), r)
              && db.mem == old(db.mem) + map[PowKey(kind, proof.miner) := Some(PowValue(r))]
    {
      var pendingMeta := PendingAdd(kind)[proof.miner];
      ghost var r := Grown(Base(kind, proof.miner), kind, proof);
      pendingMeta.Grow(proof);
      db.Write(map[PowKey(kind, proof.miner) := Some(PowValue(pendingMeta.Record()))]);
      ghost var after := Put(shown, r);
      forall k, b ensures SlotAgrees(k, b, committed, after) {
        StoredPut(shown, r, k, b);
        assert old(SlotAgrees(k, b, committed, shown));
      }
    }

    method StageNew(db: Database, kind: PowKind, before: Option<PowRecord>, proof: Proof,
                    ghost committed: View, ghost shown: View)
      requires Agrees(committed, shown) && db.Sound()
      requires SlotOk(kind, proof.miner) && proof.miner !in PendingAdd(kind) && before == CurRecord(kind, proof.miner)
      modifies this, db`mem, db`view
      ensures db.Sound() && Agrees(committed, Put(shown, Grown(before, kind, proof)))
      ensures old(objs) <= objs && fresh(objs - old(objs))
      ensures db.view == Put(old(db.view), Grown(before, kind, proof))
      ensures db.mem == old(db.mem) + map[PowKey(kind, proof.miner) := Some(PowValue(Grown(before, kind, proof)))]
      ensures forall k :: PendingDel(k) <= old(PendingDel(k))
    {
      forall k, b ensures SlotOk(k, b) {
        assert SlotAgrees(k, b, committed, shown);
      }
      ghost var r := Grown(before, kind, proof);
      var pmeta := new PowMeta(kind, Grown(before, kind, proof));
      StageRecord(kind, pmeta);
      label Staged:
      db.Write(map[PowKey(kind, proof.miner) := Some(PowValue(pmeta.Record()))]);
      assert unchanged@Staged(this) && unchanged@Staged(objs);
      ghost var after := Put(shown, r);
      forall k, b ensures SlotAgrees(k, b, committed, after) {
        StoredPut(shown, r, k, b);
        assert old(SlotAgrees(k, b, committed, shown)) && SlotOk(k, b);
      }
    }

    method StageRecord(kind: PowKind, pmeta: PowMeta)
      requires Valid() && pmeta !in objs && pmeta.kind == kind && pmeta.miner !in PendingAdd(kind)
      modifies this
      ensures Valid() && objs == old(objs) + {pmeta} && forall k :: PendingDel(k) <= old(PendingDel(k))
      ensures forall k, b {:trigger SlotOk(k, b)} ::
                && SlotOk(k, b) && old(SlotOk(k, b)) && CurRecord(k, b) == old(CurRecord(k, b))
                && StagedRecord(k, b) ==
                   if k == kind && b == pmeta.miner then Some(pmeta.Record()) else old(StagedRecord(k, b))
    {
      objs := objs + {pmeta};
      SetPending(kind, PendingAdd(kind)[pmeta.miner := pmeta], PendingDel(kind) - {pmeta.miner});
      forall k, b ensures SlotOk(k, b) && old(SlotOk(k, b)) && CurRecord(k, b) == old(CurRecord(k, b))
        ensures StagedRecord(k, b) ==
                if k == kind && b == pmeta.miner then Some(pmeta.Record()) else old(StagedRecord(k, b))
      {
        assert old(SlotOk(k, b));
      }
    }

    /** DelPow: stages the deletion and writes it to the overlay. */
    method DelPow(db: Database, kind: PowKind, a: Address, ghost committed: View)
      requires Agrees(committed, db.view) && db.Sound()
      modifies this, db`mem, db`view
      ensures db.Sound() && Agrees(committed, db.view) && objs == old(objs)
      ensures db.view == Apply(old(db.view), map[PowKey(kind, a) := None])
    {
      SetPending(kind, PendingAdd(kind) - {a}, PendingDel(kind) + {a});
      label Staged:
      db.Write(map[PowKey(kind, a) := None]);
      assert unchanged@Staged(this) && unchanged@Staged(objs);
      forall k, b ensures SlotAgrees(k, b, committed, db.view) {
        StoredDel(old(db.view), kind, a, k, b);
        assert old(SlotAgrees(k, b, committed, db.view));
      }
    }

    /** CachePowsCommit for one kind. */
    method CommitKind(kind: PowKind)
      requires Valid()
      modifies this
      ensures Valid() && objs == old(objs) && PendingAdd(kind) == map[] && PendingDel(kind) == {}
      ensures forall k :: k != kind ==> PendingAdd(k) == old(PendingAdd(k)) && PendingDel(k) == old(PendingDel(k))
      ensures forall k, b {:trigger SlotOk(k, b)} :: SlotOk(k, b) && old(SlotOk(k, b))
                && CurRecord(k, b) == (if k == kind then old(StagedRecord(k, b)) else old(CurRecord(k, b)))
                && StagedRecord(k, b) == old(StagedRecord(k, b))
    {
      var merged := Merge(Cur(kind), PendingAdd(kind), PendingDel(kind));
      match kind {
        case SerPow => curSer := merged;
        case RoutePow => curRoute := merged;
      }
      SetPending(kind, map[], {});
      forall k, b
        ensures SlotOk(k, b) && old(SlotOk(k, b))
        ensures CurRecord(k, b) == (if k == kind then old(StagedRecord(k, b)) else old(CurRecord(k, b)))
        ensures StagedRecord(k, b) == old(StagedRecord(k, b))
      {
        assert old(SlotOk(k, b));
      }
    }

    /** CachePowsCommit, after the overlay has been committed. */
    method CachePowsCommit(ghost committed: View, ghost overlay: View)
      requires Agrees(committed, overlay)
      modifies this
      ensures Agrees(overlay, overlay) && Clean() && objs == old(objs)
    {
      forall k, b ensures SlotOk(k, b) {
        assert SlotAgrees(k, b, committed, overlay);
      }
      CommitKind(SerPow);
      CommitKind(RoutePow);
      forall k, b ensures SlotAgrees(k, b, overlay, overlay) {
        assert old(SlotAgrees(k, b, committed, overlay)) && SlotOk(k, b);
      }
    }

    /** CachePowsAbort: no trace of the block in flight remains, although it has updated
        records in place. */
    method CachePowsAbort(ghost committed: View, ghost overlay: View)
      requires Agrees(committed, overlay)
      modifies this
      ensures Agrees(committed, committed) && Clean() && objs == old(objs)
    {
      SetPending(SerPow, map[], {});
      SetPending(RoutePow, map[], {});
      forall k, b ensures SlotAgrees(k, b, committed, committed) {
        assert old(SlotAgrees(k, b, committed, overlay));
      }
    }

    /** Nothing is staged for deletion: no operation of the program deletes a record. */
    ghost predicate NoDeletions()
      reads this
    {
      forall k {:trigger PendingDel(k)} :: PendingDel(k) == {}
    }

    lemma CleanHasNoDeletions()
      requires Clean()
      ensures NoDeletions()
    {
      forall k ensures PendingDel(k) == {} {
        assert PendingAdd(k) == map[];
      }
    }

    /** The proofs of a block, staged on its overlay: the cache shows more, and the overlay
        takes over what the cache shows for the miners of the block. */
    method Stage(overlay: Database, proofs: seq<Work>, ghost committed: View, ghost shown: View)
      returns (ghost after: View)
      requires Agrees(committed, shown) && NoDeletions() && overlay.Sound()
      modifies this, objs, overlay`mem, overlay`view
      ensures Agrees(committed, after) && NoDeletions() && overlay.Sound()
      ensures old(objs) <= objs && fresh(objs - old(objs))
      ensures Grew(shown, after, proofs) && TakesOver(old(overlay.view), after, overlay.view, proofs)
      ensures old(overlay.mem) == map[] ==> Wrote(overlay.mem, after, proofs)
    {
      after := shown;
      for i := 0 to |proofs|
        invariant Agrees(committed, after) && NoDeletions() && overlay.Sound()
        invariant old(objs) <= objs && fresh(objs - old(objs))
        invariant Grew(shown, after, proofs[..i]) && TakesOver(old(overlay.view), after, overlay.view, proofs[..i])
        invariant old(overlay.mem) == map[] ==> Wrote(overlay.mem, after, proofs[..i])
      {
        var (kind, proof) := proofs[i];
        BaseIsStored(kind, proof.miner, committed, after);
        ghost var r := Grown(Stored(after, kind, proof.miner), kind, proof);
        StagedNext(shown, after, old(overlay.view), overlay.view, proofs, i);
        if Wrote(overlay.mem, after, proofs[..i]) {
          WroteNext(overlay.mem, after, proofs, i);
        }
        var _ := PutPow(overlay, kind, proof, committed, after);
        after := Put(after, r);
      }
      assert proofs[..|proofs|] == proofs;
    }

    lemma BaseIsStored(kind: PowKind, a: Address, committed: View, overlay: View)
      requires Agrees(committed, overlay) && PendingDel(kind) == {}
      ensures SlotOk(kind, a) && Base(kind, a) == Stored(overlay, kind, a)
    {
      assert SlotAgrees(kind, a, committed, overlay);
    }

    /** One block: its proofs are staged, then the block is accepted or building it is
        aborted.  What is stored grows by exactly the proofs of accepted blocks. */
    method RunBlock(disk: Database, proofs: seq<Work>, accept: bool)
      requires Agrees(disk.view, disk.view) && Clean() && disk.Sound() && disk.base == null
      modifies this, objs, disk`mem, disk`view
      ensures Agrees(disk.view, disk.view) && Clean() && disk.Sound() && fresh(objs - old(objs))
      ensures forall k, b :: Stored(disk.view, k, b) ==
                if accept then GrownAll(Stored(old(disk.view), k, b), k, b, proofs) else Stored(old(disk.view), k, b)
    {
      ghost var committed := disk.view;
      CleanHasNoDeletions();
      var overlay := new Database(disk, disk.rank + 1, EmptyId);
      ghost var shown := Stage(overlay, proofs, committed, committed);
      if accept {
        overlay.Commit();
        forall k, b ensures Stored(disk.view, k, b) == Stored(shown, k, b) {
          TakenOverAt(committed, shown, disk.view, proofs, k, b);
        }
        CachePowsCommit(committed, shown);
        SameRecords(shown, disk.view);
      } else {
        CachePowsAbort(committed, shown);
      }
    }

    /** The cache looks at nothing but the stored records. */
    lemma SameRecords(one: View, other: View)
      requires Agrees(one, one)
      ensures Agrees(other, other) <==> forall k, b :: Stored(one, k, b) == Stored(other, k, b)
    {
      forall k, b ensures SlotAgrees(k, b, other, other) <==> Stored(one, k, b) == Stored(other, k, b) {
        assert SlotAgrees(k, b, one, one);
      }
    }

    /** The current records and those that the cache shows have grown by what it was told. */
    ghost predicate After(start: View, events: seq<Moment>)
      reads this, objs
    {
      forall k, b {:trigger SlotOk(k, b)} ::
        && SlotOk(k, b) && CurRecord(k, b) == GrownAll(Stored(start, k, b), k, b, Kept(events))
        && StagedRecord(k, b) == GrownAll(Stored(start, k, b), k, b, Told(events))
    }

    /** The current records are those of the view. */
    ghost predicate CurrentIs(view: View)
      reads this, objs
    {
      forall k, b {:trigger SlotOk(k, b)} :: SlotOk(k, b) && CurRecord(k, b) == Stored(view, k, b)
    }

    /** Any run in which blocks are staged, each on an overlay of its own, building aborts and
        staged blocks are accepted, in any order.  The cache keeps all that was pending at an
        acceptance, the database for each miner what the cache showed when the last accepted
        block with its work was staged.  They agree if and only if for every miner these two
        lists of proofs leave the same mark and the same totals. */
    method Run(disk: Database, events: seq<Moment>)
      requires Agrees(disk.view, disk.view) && Clean() && disk.Sound() && disk.base == null && RunOk(events)
      modifies this, objs, disk`mem, disk`view
      ensures disk.Sound() && fresh(objs - old(objs)) && After(old(disk.view), events)
      ensures DiskIs(old(disk.view), events, disk.view)
      ensures CurrentIs(disk.view) <==>
              forall k, b {:trigger Stored(old(disk.view), k, b)} ::
                SameGrowth(Stored(old(disk.view), k, b), k, b, Kept(events), OnDisk(events, k, b))
      ensures events != [] && !events[|events| - 1].Staging? ==>
                Clean() && (CurrentIs(disk.view) <==> Agrees(disk.view, disk.view))
    {
      ghost var start, done: seq<Moment> := disk.view, [];
      ghost var committed, shown := start, start;
      CleanHasNoDeletions();
      var written: seq<Writes> := [];
      for i := 0 to |events|
        invariant done == events[..i] && RunOk(done) && disk.Sound() && disk.base == null
        invariant Agrees(committed, shown) && NoDeletions() && old(objs) <= objs && fresh(objs - old(objs))
        invariant Reached(start, done, committed, shown, disk.view)
        invariant |written| == i && Holds(start, done, written)
        invariant i > 0 && !events[i - 1].Staging? ==> Clean() && shown == committed
      {
        PrefixOk(events, i + 1);
        assert events[..i + 1] == done + [events[i]];
        written, committed, shown := Next(disk, events[i], written, start, done, committed, shown);
        done := done + [events[i]];
      }
      assert done == events;
      ReachedSlots(start, events, committed, shown);
      ReachedAgrees(start, events, committed, shown, disk.view);
    }

    lemma ReachedSlots(start: View, events: seq<Moment>, committed: View, shown: View)
      requires Agrees(committed, shown) && Grew(start, committed, Kept(events)) && Grew(start, shown, Told(events))
      ensures After(start, events)
    {
      forall k, b
        ensures SlotOk(k, b) && CurRecord(k, b) == GrownAll(Stored(start, k, b), k, b, Kept(events))
        ensures StagedRecord(k, b) == GrownAll(Stored(start, k, b), k, b, Told(events))
      {
        assert SlotAgrees(k, b, committed, shown);
      }
    }

    lemma ReachedAgrees(start: View, events: seq<Moment>, committed: View, shown: View, view: View)
      requires RunOk(events) && Agrees(committed, shown) && Reached(start, events, committed, shown, view)
      ensures CurrentIs(view) <==>
              forall k, b {:trigger Stored(start, k, b)} ::
                SameGrowth(Stored(start, k, b), k, b, Kept(events), OnDisk(events, k, b))
      ensures shown == committed ==> (CurrentIs(view) <==> Agrees(view, view))
    {
      forall k, b
        ensures SlotOk(k, b)
        ensures CurRecord(k, b) == Stored(view, k, b) <==>
                SameGrowth(Stored(start, k, b), k, b, Kept(events), OnDisk(events, k, b))
        ensures shown == committed ==> (SlotAgrees(k, b, view, view) <==> CurRecord(k, b) == Stored(view, k, b))
      {
        assert SlotAgrees(k, b, committed, shown);
        assert Stored(committed, k, b) == GrownAll(Stored(start, k, b), k, b, Kept(events));
        assert Stored(view, k, b) == GrownAll(Stored(start, k, b), k, b, OnDisk(events, k, b));
        SameGrowthIff(Stored(start, k, b), k, b, Kept(events), OnDisk(events, k, b));
      }
    }

    method Next(disk: Database, event: Moment, written: seq<Writes>, ghost start: View, ghost done: seq<Moment>,
                ghost committed: View, ghost shown: View)
      returns (longer: seq<Writes>, ghost committed': View, ghost shown': View)
      requires RunOk(done) && RunOk(done + [event]) && disk.Sound() && disk.base == null
      requires Agrees(committed, shown) && NoDeletions() && Reached(start, done, committed, shown, disk.view)
      requires |written| == |done| && Holds(start, done, written)
      modifies this, objs, disk`mem, disk`view
      ensures disk.Sound() && disk.base == null && old(objs) <= objs && fresh(objs - old(objs))
      ensures Agrees(committed', shown') && NoDeletions()
      ensures Reached(start, done + [event], committed', shown', disk.view)
      ensures |longer| == |done| + 1 && Holds(start, done + [event], longer)
      ensures !event.Staging? ==> Clean() && shown' == committed'
    {
      match event
      case Staging(proofs) =>
        var writes;
        committed' := committed;
        writes, shown' := StageBlock(disk, proofs, start, done, committed, shown);
        longer := written + [writes];
        HoldsNext(start, done, written, event, writes);
      case Aborting =>
        CachePowsAbort(committed, shown);
        CleanHasNoDeletions();
        ReachedAbort(start, done, committed, shown, disk.view);
        longer, committed', shown' := written + [map[]], committed, committed;
        HoldsNext(start, done, written, event, map[]);
      case Accepting(block) =>
        assert EventOk(done + [event], |done|);
        ReachedAccept(start, done, committed, shown, disk.view, block, written[block]);
        var overlay := new Database(disk, disk.rank + 1, EmptyId);
        overlay.Write(written[block]);
        overlay.Commit();
        CachePowsCommit(committed, shown);
        CleanHasNoDeletions();
        longer, committed', shown' := written + [map[]], shown, shown;
        HoldsNext(start, done, written, event, map[]);
    }

    /** A block is staged on an overlay of its own, which is what it writes. */
    method StageBlock(disk: Database, proofs: seq<Work>, ghost start: View, ghost done: seq<Moment>,
                      ghost committed: View, ghost shown: View)
      returns (writes: Writes, ghost after: View)
      requires RunOk(done) && RunOk(done + [Staging(proofs)])
      requires Agrees(committed, shown) && NoDeletions() && Reached(start, done, committed, shown, disk.view)
      modifies this, objs
      ensures old(objs) <= objs && fresh(objs - old(objs)) && Agrees(committed, after) && NoDeletions()
      ensures Reached(start, done + [Staging(proofs)], committed, after, disk.view)
      ensures WroteStaged(start, done + [Staging(proofs)], |done|, writes)
    {
      var overlay := new Database(disk, disk.rank + 1, EmptyId);
      after := Stage(overlay, proofs, committed, shown);
      writes := overlay.mem;
      ReachedStaging(start, done, committed, shown, disk.view, proofs, after);
      ghost var next := done + [Staging(proofs)];
      assert next[..|next|] == next;
      forall k, b ensures WroteAt(writes, GrownAll(Stored(start, k, b), k, b, Told(next)), Works(k, b, proofs), k, b) {
        assert Stored(after, k, b) == GrownAll(Stored(start, k, b), k, b, Told(next));
      }
    }

    /** A block is staged and accepted while other blocks are staged and aborted around it.
        The cache then holds the proofs staged since the last abort, the database for the
        miners of the block what the cache showed when the block was staged; they agree if
        and only if no miner is disturbed. */
    method AcceptAmong(disk: Database, before: seq<Moment>, proofs: seq<Work>, after: seq<Moment>)
      requires Agrees(disk.view, disk.view) && Clean() && disk.Sound() && disk.base == null
      requires NoAccepts(before) && NoAccepts(after)
      modifies this, objs, disk`mem, disk`view
      ensures Clean() && disk.Sound() && fresh(objs - old(objs))
      ensures forall k, b {:trigger SlotOk(k, b)} :: SlotOk(k, b) && CurRecord(k, b) ==
                GrownAll(Stored(old(disk.view), k, b), k, b, Pending(before + [Staging(proofs)] + after))
      ensures forall k, b {:trigger Stored(disk.view, k, b)} :: Stored(disk.view, k, b) ==
                GrownAll(Stored(old(disk.view), k, b), k, b, WrittenAmong(before, proofs, k, b))
      ensures Agrees(disk.view, disk.view) <==>
              forall k, b {:trigger Stored(old(disk.view), k, b)} ::
                Undisturbed(Stored(old(disk.view), k, b), before, proofs, after, k, b)
    {
      ghost var start := disk.view;
      var events := before + [Staging(proofs)] + after;
      AmongIsRun(before, proofs, after);
      Run(disk, events + [Accepting(|before|)]);
      forall k, b
        ensures OnDisk(events + [Accepting(|before|)], k, b) == WrittenAmong(before, proofs, k, b)
        ensures SameGrowth(Stored(start, k, b), k, b, Pending(events), WrittenAmong(before, proofs, k, b)) <==>
                Undisturbed(Stored(start, k, b), before, proofs, after, k, b)
      {
        WrittenIs(before, proofs, after, k, b);
        UndisturbedIff(Stored(start, k, b), before, proofs, after, k, b);
      }
    }

    /** Any run of blocks one after the other: what is stored grows by exactly the proofs of
        the accepted blocks, in order, and a miner's total time and flow by its own work in them. */
    method RunBlocks(disk: Database, blocks: seq<Block>)
      requires Agrees(disk.view, disk.view) && Clean() && disk.Sound() && disk.base == null
      modifies this, objs, disk`mem, disk`view
      ensures Agrees(disk.view, disk.view) && Clean() && disk.Sound() && fresh(objs - old(objs))
      ensures forall k, b :: Stored(disk.view, k, b) == GrownAll(Stored(old(disk.view), k, b), k, b, Effects(blocks))
      ensures forall k, b :: TimeOf(Stored(disk.view, k, b)) ==
                             Wrap(TimeOf(Stored(old(disk.view), k, b)) + Worked(k, b, Effects(blocks)))
      ensures forall k, b :: FlowOf(Stored(disk.view, k, b)) ==
                             Wrap(FlowOf(Stored(old(disk.view), k, b)) + Flowed(k, b, Effects(blocks)))
    {
      ghost var start := disk.view;
      for i := 0 to |blocks|
        invariant Agrees(disk.view, disk.view) && Clean() && disk.Sound() && fresh(objs - old(objs))
        invariant forall k, b :: Stored(disk.view, k, b) == GrownAll(Stored(start, k, b), k, b, Effects(blocks[..i]))
      {
        assert blocks[..i + 1][..i] == blocks[..i];
        ghost var before := disk.view;
        RunBlock(disk, blocks[i].proofs, blocks[i].accepted);
        forall k, b ensures Stored(disk.view, k, b) == GrownAll(Stored(start, k, b), k, b, Effects(blocks[..i + 1])) {
          if blocks[i].accepted {
            GrownTwice(Stored(start, k, b), k, b, Effects(blocks[..i]), blocks[i].proofs);
          } else {
            assert Effects(blocks[..i + 1]) == Effects(blocks[..i]);
          }
        }
      }
      assert blocks[..|blocks|] == blocks;
      forall k, b
        ensures TimeOf(Stored(disk.view, k, b)) == Wrap(TimeOf(Stored(start, k, b)) + Worked(k, b, Effects(blocks)))
        ensures FlowOf(Stored(disk.view, k, b)) == Wrap(FlowOf(Stored(start, k, b)) + Flowed(k, b, Effects(blocks)))
      {
        TimeGrowsByWork(Stored(start, k, b), k, b, Effects(blocks));
        FlowGrowsByWork(Stored(start, k, b), k, b, Effects(blocks));
      }
    }

    ghost function Times(kind: PowKind): map<Address, UInt64>
      reads this, objs
      requires Valid()
    {
      map a | a in Cur(kind) :: (assert SlotOk(kind, a); Cur(kind)[a].totalTime)
    }

    /** TotalPowTime: the sum over all miners, in whatever order they come. */
    method TotalPowTime(kind: PowKind) returns (total: UInt64)
      requires Valid()
      ensures total == Wrap(Ledger.Sum(Times(kind)))
    {
      total := 0;
      ghost var times := Times(kind);
      var left := Cur(kind).Keys;
      ghost var done: map<Address, UInt64> := map[];
      while left != {}
        invariant left <= Cur(kind).Keys && done == (map a | a in times && a !in left :: times[a])
        invariant total == Wrap(Ledger.Sum(done))
        decreases left
      {
        var a :| a in left;
        assert SlotOk(kind, a);
        Ledger.SumSet(done, a, times[a]);
        WrapSum(Ledger.Sum(done), times[a]);
        total := Wrap(total + Cur(kind)[a].totalTime);
        left := left - {a};
        done := done[a := times[a]];
      }
      assert done == times;
    }
  }
}
