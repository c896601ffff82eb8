/** What all caches do when a block is accepted. */
module StagedMaps {
  import opened ChainTypes

  /** The two merging loops of a commit: additions first, then deletions. */
  method Merge<T>(before: map<Address, T>, added: map<Address, T>, deleted: set<Address>) returns (t: map<Address, T>)
    ensures t == before + added - deleted
  {
    t := before;
    var left := added.Keys;
    while left != {}
      invariant left <= added.Keys && t == before + (map a | a in added && a !in left :: added[a])
      decreases left
    {
      var a :| a in left;
      t := (t - {a})[a := added[a]];
      left := left - {a};
    }
    assert t == before + added;
    left := deleted;
    while left != {}
      invariant left <= deleted && t == before + added - (deleted - left)
      decreases left
    {
      var a :| a in left;
      t := t - {a};
      left := left - {a};
    }
  }
}

/**
 The staker cache of chain/stake_status.go.  The committed stakers of each kind are kept
 in maps; a block in flight stages additions and deletions beside them while it writes
 the same changes to its overlay of the database.
 */
module StakeCache {
  import opened ChainTypes
  import opened InFlight
  import opened VersionDb
  import opened StagedMaps

  type Table = map<Address, StakerMeta>

  const STAKER_TYPES: seq<StakerKind> := [Route, Ser, Validator]

  /** Staker records lie under the kind and address they name. */
  ghost predicate WellKeyed(view: View) {
    forall kind, a {:trigger StakerKey(kind, a)} :: StakerKey(kind, a) in view ==>
      view[StakerKey(kind, a)].StakerValue?
      && view[StakerKey(kind, a)].staker.kind == kind && view[StakerKey(kind, a)].staker.addr == a
  }

  /** What iterating over the keys of a kind finds. */
  ghost function Scan(view: View, kind: StakerKind): Table {
    if view == map[] then map[]
    else
      var k :| k in view;
      var rest := Scan(view - {k}, kind);
      if k.StakerKey? && k.kind == kind && view[k].StakerValue? then rest[k.addr := view[k].staker] else rest
  }

  lemma {:induction false} ScanAt(view: View, kind: StakerKind, a: Address)
    ensures a in Scan(view, kind) <==> StakerKey(kind, a) in view && view[StakerKey(kind, a)].StakerValue?
    ensures a in Scan(view, kind) ==> Scan(view, kind)[a] == view[StakerKey(kind, a)].staker
  {
    if view != map[] {
      var k :| k in view && Scan(view, kind) ==
        var rest := Scan(view - {k}, kind);
        if k.StakerKey? && k.kind == kind && view[k].StakerValue? then rest[k.addr := view[k].staker] else rest;
      ScanAt(view - {k}, kind, a);
      assert k.StakerKey? && k.kind == kind && k.addr == a ==> k == StakerKey(kind, a);
    }
  }

  /** Putting a record: the scan of its kind gains it, no other scan changes. */
  lemma ScanPut(view: View, staker: StakerMeta)
    requires WellKeyed(view)
    ensures var after := Apply(view, map[StakerKey(staker.kind, staker.addr) := Some(StakerValue(staker))]);
            WellKeyed(after)
            && forall kind {:trigger Scan(after, kind)} :: Scan(after, kind) ==
                 if kind == staker.kind then Scan(view, kind)[staker.addr := staker] else Scan(view, kind)
  {
    var after := Apply(view, map[StakerKey(staker.kind, staker.addr) := Some(StakerValue(staker))]);
    assert WellKeyed(after);
    forall kind ensures Scan(after, kind) ==
                 if kind == staker.kind then Scan(view, kind)[staker.addr := staker] else Scan(view, kind)
    {
      forall a
        ensures a in Scan(after, kind) <==> (a in Scan(view, kind) || (kind == staker.kind && a == staker.addr))
      {
        ScanAt(view, kind, a);
        ScanAt(after, kind, a);
      }
      forall a | a in Scan(after, kind)
        ensures Scan(after, kind)[a] == if kind == staker.kind && a == staker.addr then staker else Scan(view, kind)[a]
      {
        ScanAt(view, kind, a);
        ScanAt(after, kind, a);
      }
    }
  }

  lemma ScanDel(view: View, kind: StakerKind, addr: Address)
    requires WellKeyed(view)
    ensures var after := Apply(view, map[StakerKey(kind, addr) := None]);
            WellKeyed(after)
            && forall k {:trigger Scan(after, k)} ::
               Scan(after, k) == if k == kind then Scan(view, k) - {addr} else Scan(view, k)
  {
    var after := Apply(view, map[StakerKey(kind, addr) := None]);
    assert WellKeyed(after);
    forall k ensures Scan(after, k) == if k == kind then Scan(view, k) - {addr} else Scan(view, k) {
      forall a ensures a in Scan(after, k) <==> (a in Scan(view, k) && !(k == kind && a == addr)) {
        ScanAt(view, k, a);
        ScanAt(after, k, a);
      }
      forall a | a in Scan(after, k) ensures Scan(after, k)[a] == Scan(view, k)[a] {
        ScanAt(view, k, a);
        ScanAt(after, k, a);
      }
    }
  }

  /** The two kinds of changes a block makes. */
  datatype Change = Put(staker: StakerMeta) | Del(kind: StakerKind, addr: Address)

  function Changed(t: Table, kind: StakerKind, c: Change): Table {
    match c
    case Put(staker) => if staker.kind == kind then t[staker.addr := staker] else t
    case Del(k, addr) => if k == kind then t - {addr} else t
  }

  /** The stakers of all kinds. */
  datatype Tables = Tables(route: Table, ser: Table, validator: Table)

  function ChangedAll(t: Tables, cs: seq<Change>): Tables {
    if cs == [] then t
    else
      var before, c := ChangedAll(t, cs[..|cs| - 1]), cs[|cs| - 1];
      Tables(Changed(before.route, Route, c), Changed(before.ser, Ser, c), Changed(before.validator, Validator, c))
  }

  ghost function ScanAll(view: View): Tables {
    Tables(Scan(view, Route), Scan(view, Ser), Scan(view, Validator))
  }

  lemma OneChange(t: Tables, c: Change)
    ensures ChangedAll(t, [c]) ==
            Tables(Changed(t.route, Route, c), Changed(t.ser, Ser, c), Changed(t.validator, Validator, c))
  {
    assert [c][..0] == [] && ChangedAll(t, []) == t;
  }

  lemma {:induction false} ChangedTwice(t: Tables, first: seq<Change>, second: seq<Change>)
    ensures ChangedAll(ChangedAll(t, first), second) == ChangedAll(t, first + second)
  {
    if second == [] {
      assert first + second == first;
    } else {
      ChangedTwice(t, first, second[..|second| - 1]);
      assert (first + second)[..|first + second| - 1] == first + second[..|second| - 1];
    }
  }

  /** What a change and a list of changes write to an overlay. */
  function WriteOf(c: Change): Writes {
    match c
    case Put(staker) => map[StakerKey(staker.kind, staker.addr) := Some(StakerValue(staker))]
    case Del(kind, addr) => map[StakerKey(kind, addr) := None]
  }

  function WritesOf(cs: seq<Change>): Writes {
    if cs == [] then map[] else WritesOf(cs[..|cs| - 1]) + WriteOf(cs[|cs| - 1])
  }

  lemma JoinWrites(first: Writes, second: Writes, third: Writes)
    ensures (first + second) + third == first + (second + third) && first + map[] == first && map[] + first == first
  {}

  /** Whatever the overlay sits on, its writes make the changes. */
  lemma {:induction false} WritesChange(view: View, cs: seq<Change>)
    requires WellKeyed(view)
    ensures WellKeyed(Apply(view, WritesOf(cs))) && ScanAll(Apply(view, WritesOf(cs))) == ChangedAll(ScanAll(view), cs)
  {
    if cs == [] {
      ApplyNothing(view);
    } else {
      var rest, c := cs[..|cs| - 1], cs[|cs| - 1];
      WritesChange(view, rest);
      ApplyTwice(view, WritesOf(rest), WriteOf(c));
      match c
      case Put(staker) => ScanPut(Apply(view, WritesOf(rest)), staker);
      case Del(kind, addr) => ScanDel(Apply(view, WritesOf(rest)), kind, addr);
    }
  }

  // ---------- when two lists of changes come to the same ----------

  function Slot(t: Tables, kind: StakerKind, a: Address): Option<StakerMeta> {
    var table := match kind case Route => t.route case Ser => t.ser case Validator => t.validator;
    if a in table then Some(table[a]) else None
  }

  /** The last change to a staker of a kind. */
  function LastOn(cs: seq<Change>, kind: StakerKind, a: Address): Option<Change> {
    if cs == [] then None
    else if Concerns(cs[|cs| - 1], kind, a) then Some(cs[|cs| - 1])
    else LastOn(cs[..|cs| - 1], kind, a)
  }

  predicate Concerns(c: Change, kind: StakerKind, a: Address) {
    match c
    case Put(staker) => staker.kind == kind && staker.addr == a
    case Del(k, addr) => k == kind && addr == a
  }

  function Leaves(c: Change): Option<StakerMeta> {
    match c
    case Put(staker) => Some(staker)
    case Del(_, _) => None
  }

  lemma {:induction false} SlotAfter(t: Tables, cs: seq<Change>, kind: StakerKind, a: Address)
    ensures Slot(ChangedAll(t, cs), kind, a) ==
            match LastOn(cs, kind, a) case None => Slot(t, kind, a) case Some(c) => Leaves(c)
  {
    if cs != [] {
      SlotAfter(t, cs[..|cs| - 1], kind, a);
    }
  }

  lemma {:induction false} LastOnConcat(first: seq<Change>, second: seq<Change>, kind: StakerKind, a: Address)
    ensures LastOn(first + second, kind, a) ==
            if LastOn(second, kind, a).Some? then LastOn(second, kind, a) else LastOn(first, kind, a)
  {
    if second == [] {
      assert first + second == first;
    } else {
      LastOnConcat(first, second[..|second| - 1], kind, a);
      assert (first + second)[..|first + second| - 1] == first + second[..|second| - 1];
    }
  }

  /** The last changes to a staker leave the same; where only one list has a change, it leaves
      the staker as it was. */
  predicate SameOn(t: Tables, first: seq<Change>, second: seq<Change>, kind: StakerKind, a: Address) {
    var one := match LastOn(first, kind, a) case None => Slot(t, kind, a) case Some(c) => Leaves(c);
    var other := match LastOn(second, kind, a) case None => Slot(t, kind, a) case Some(c) => Leaves(c);
    one == other
  }

  ghost predicate SameOutcome(t: Tables, first: seq<Change>, second: seq<Change>) {
    forall kind, a {:trigger SameOn(t, first, second, kind, a)} :: SameOn(t, first, second, kind, a)
  }

  lemma SameSlots(one: Tables, other: Tables)
    requires forall kind, a {:trigger Slot(one, kind, a)} :: Slot(one, kind, a) == Slot(other, kind, a)
    ensures one == other
  {
    SameTable(one, other, Route, one.route, other.route);
    SameTable(one, other, Ser, one.ser, other.ser);
    SameTable(one, other, Validator, one.validator, other.validator);
  }

  lemma SameTable(one: Tables, other: Tables, kind: StakerKind, first: Table, second: Table)
    requires forall a {:trigger Slot(one, kind, a)} :: Slot(one, kind, a) == Slot(other, kind, a)
    requires first == match kind case Route => one.route case Ser => one.ser case Validator => one.validator
    requires second == match kind case Route => other.route case Ser => other.ser case Validator => other.validator
    ensures first == second
  {
    forall a ensures a in first <==> a in second {
      assert Slot(one, kind, a) == Slot(other, kind, a);
    }
    forall a | a in first ensures first[a] == second[a] {
      assert Slot(one, kind, a) == Slot(other, kind, a);
    }
  }

  lemma SameOutcomeIff(t: Tables, first: seq<Change>, second: seq<Change>)
    ensures ChangedAll(t, first) == ChangedAll(t, second) <==> SameOutcome(t, first, second)
  {
    forall kind, a ensures SameOn(t, first, second, kind, a) <==>
                           Slot(ChangedAll(t, first), kind, a) == Slot(ChangedAll(t, second), kind, a)
    {
      SlotAfter(t, first, kind, a);
      SlotAfter(t, second, kind, a);
    }
    if SameOutcome(t, first, second) {
      forall kind, a ensures Slot(ChangedAll(t, first), kind, a) == Slot(ChangedAll(t, second), kind, a) {
        assert SameOn(t, first, second, kind, a);
      }
      SameSlots(ChangedAll(t, first), ChangedAll(t, second));
    }
  }

  // ---------- runs ----------

  /** The changes of a block, and whether it is accepted or building it is aborted. */
  datatype Block = Block(changes: seq<Change>, accepted: bool)

  /** The changes of the accepted blocks, in order. */
  function Effects(blocks: seq<Block>): seq<Change> {
    if blocks == [] then []
    else
      var last := blocks[|blocks| - 1];
      Effects(blocks[..|blocks| - 1]) + if last.accepted then last.changes else []
  }

  lemma NextEffect(t: Tables, blocks: seq<Block>, i: nat)
    requires i < |blocks|
    ensures ChangedAll(ChangedAll(t, Effects(blocks[..i])), Effects([blocks[i]])) ==
            ChangedAll(t, Effects(blocks[..i + 1]))
  {
    assert [blocks[i]][..0] == [] && blocks[..i + 1][..i] == blocks[..i];
    assert Effects([blocks[i]]) == if blocks[i].accepted then blocks[i].changes else [];
    ChangedTwice(t, Effects(blocks[..i]), Effects([blocks[i]]));
  }

  type Moment = Event<Change>

  /** The changes of the accepted blocks. */
  ghost function OnDisk(events: seq<Moment>): seq<Change>
    requires RunOk(events)
  {
    if events == [] then []
    else
      var n := |events| - 1;
      PrefixOk(events, n);
      assert EventOk(events, n);
      OnDisk(events[..n]) + if events[n].Accepting? then events[events[n].block].staged else []
  }

  lemma RunNext(t: Tables, done: seq<Moment>, event: Moment)
    requires RunOk(done) && RunOk(done + [event])
    ensures event.Staging? ==>
              var next := done + [event];
              && Kept(next) == Kept(done) && OnDisk(next) == OnDisk(done)
              && ChangedAll(t, Told(next)) ==
                 ChangedAll(ChangedAll(t, Told(done)), event.staged)
    ensures event.Aborting? ==>
              var next := done + [event];
              Kept(next) == Kept(done) && OnDisk(next) == OnDisk(done) && Told(next) == Kept(done)
    ensures event.Accepting? ==>
              var next := done + [event];
              && event.block < |done| && done[event.block].Staging?
              && Kept(next) == Told(done) && Told(next) == Kept(next)
              && OnDisk(next) == OnDisk(done) + done[event.block].staged
              && ChangedAll(t, OnDisk(next)) == ChangedAll(ChangedAll(t, OnDisk(done)), done[event.block].staged)
  {
    var next := done + [event];
    ListsNext(done, event);
    assert next[..|done|] == done && EventOk(next, |done|);
    match event
    case Staging(changes) =>
      ChangedTwice(t, Told(done), changes);
      assert Kept(done) + (Pending(done) + changes) == Told(done) + changes;
    case Aborting =>
    case Accepting(n) => ChangedTwice(t, OnDisk(done), done[n].staged);
  }

  // ---------- when the cache agrees ----------

  /** The cache agrees with the database after the events. */
  ghost predicate InStep(t: Tables, events: seq<Moment>)
    requires RunOk(events)
  {
    ChangedAll(t, Kept(events)) == ChangedAll(t, OnDisk(events))
  }

  ghost predicate AlwaysInStep(t: Tables, events: seq<Moment>)
    requires RunOk(events)
  {
    if events == [] then InStep(t, events)
    else
      PrefixOk(events, |events| - 1);
      InStep(t, events) && AlwaysInStep(t, events[..|events| - 1])
  }

  /** Whenever a block is accepted, what has been staged since the last commit or abort leaves
      every staker as the block does. */
  ghost predicate AlwaysMatched(t: Tables, events: seq<Moment>)
    requires RunOk(events)
  {
    if events == [] then true
    else
      PrefixOk(events, |events| - 1);
      var n := |events| - 1;
      assert EventOk(events, n);
      && AlwaysMatched(t, events[..n])
      && (events[n].Accepting? ==>
            SameOutcome(ChangedAll(t, Kept(events[..n])), Pending(events[..n]), events[events[n].block].staged))
  }

  /** Throughout a run the cache agrees with the database if and only if it is so at every
      accepted block. */
  lemma {:induction false} RunInStep(t: Tables, events: seq<Moment>)
    requires RunOk(events)
    ensures AlwaysInStep(t, events) <==> AlwaysMatched(t, events)
    decreases |events|
  {
    if events != [] {
      PrefixOk(events, |events| - 1);
      var n := |events| - 1;
      var init := events[..n];
      RunInStep(t, init);
      assert events == init + [events[n]];
      RunNext(t, init, events[n]);
      if events[n].Accepting? && InStep(t, init) {
        var now := ChangedAll(t, Kept(init));
        ChangedTwice(t, Kept(init), Pending(init));
        SameOutcomeIff(now, Pending(init), init[events[n].block].staged);
      }
    }
  }

  lemma {:induction false} NothingOnDisk(events: seq<Moment>)
    requires RunOk(events) && NoAccepts(events)
    ensures OnDisk(events) == []
  {
    if events != [] {
      PrefixOk(events, |events| - 1);
      NothingOnDisk(events[..|events| - 1]);
    }
  }

  /** The block can be accepted although the others were staged: a later block leaves the
      staker as the block does, or as it was if the block does not concern it; without a later
      change, but after a later abort, the block leaves it as it was; and else an earlier block
      that the block does not overwrite leaves it as it was. */
  predicate Undisturbed(t: Tables, before: seq<Moment>, changes: seq<Change>, after: seq<Moment>, kind: StakerKind,
                        a: Address) {
    var was, earlier := Slot(t, kind, a), LastOn(Pending(before), kind, a);
    var own, later := LastOn(changes, kind, a), LastOn(Pending(after), kind, a);
    if later.Some? then Leaves(later.value) == if own.Some? then Leaves(own.value) else was
    else if Aborts(after) then own.Some? ==> Leaves(own.value) == was
    else own.None? && earlier.Some? ==> Leaves(earlier.value) == was
  }

  lemma UndisturbedIff(t: Tables, before: seq<Moment>, changes: seq<Change>, after: seq<Moment>, kind: StakerKind,
                       a: Address)
    requires NoAccepts(after)
    ensures SameOn(t, Pending(before + [Staging(changes)] + after), changes, kind, a) <==>
            Undisturbed(t, before, changes, after, kind, a)
  {
    PendingAmong(before, changes, after);
    LastOnConcat(Pending(before) + changes, Pending(after), kind, a);
    LastOnConcat(Pending(before), changes, kind, a);
  }

  ghost predicate NobodyDisturbed(t: Tables, before: seq<Moment>, changes: seq<Change>, after: seq<Moment>) {
    forall kind, a {:trigger Undisturbed(t, before, changes, after, kind, a)} ::
      Undisturbed(t, before, changes, after, kind, a)
  }

  lemma AmongLists(before: seq<Moment>, changes: seq<Change>, after: seq<Moment>)
    requires NoAccepts(before) && NoAccepts(after)
    ensures var events := before + [Staging(changes)] + after;
            var run := events + [Accepting(|before|)];
            RunOk(run) && Kept(run) == Pending(events) && OnDisk(run) == changes
  {
    var events := before + [Staging(changes)] + after;
    var run := events + [Accepting(|before|)];
    AmongIsRun(before, changes, after);
    NothingOnDisk(events);
    assert run[..|run| - 1] == events && OnDisk(run) == OnDisk(events) + changes == [] + changes == changes;
  }

  lemma AmongGuards(t: Tables, before: seq<Moment>, changes: seq<Change>, after: seq<Moment>)
    requires NoAccepts(after)
    ensures SameOutcome(t, Pending(before + [Staging(changes)] + after), changes) <==>
            NobodyDisturbed(t, before, changes, after)
  {
    var pending := Pending(before + [Staging(changes)] + after);
    forall kind, a
      ensures SameOn(t, pending, changes, kind, a) <==> Undisturbed(t, before, changes, after, kind, a)
    {
      UndisturbedIff(t, before, changes, after, kind, a);
    }
  }

  /** What has been written for every staged block. */
  ghost predicate Holds(events: seq<Moment>, written: seq<Writes>)
    requires |written| == |events|
  {
    forall i {:trigger written[i]} :: 0 <= i < |events| && events[i].Staging? ==>
      written[i] == WritesOf(events[i].staged)
  }

  /** The current stakers of a kind and the changes of the block in flight. */
  datatype Cache = Cache(cur: Table, pendingAdd: Table, pendingDel: set<Address>)
  {
    ghost predicate Ok() { pendingAdd.Keys !! pendingDel }

    ghost predicate Clean() { pendingAdd == map[] && pendingDel == {} }

    /** The stakers of the kind as the block in flight leaves them. */
    ghost function Staged(): Table { cur + pendingAdd - pendingDel }
  }

  lemma StagedPut(c: Cache, after: Cache, a: Address, staker: StakerMeta)
    requires c.Ok() && after == Cache(c.cur, c.pendingAdd[a := staker], c.pendingDel - {a})
    ensures after.Ok() && after.Staged() == c.Staged()[a := staker]
  {}

  lemma StagedDel(c: Cache, after: Cache, a: Address)
    requires c.Ok() && after == Cache(c.cur, c.pendingAdd - {a}, c.pendingDel + {a})
    ensures after.Ok() && after.Staged() == c.Staged() - {a}
  {}

  class StakerState {
    var route: Cache
    var ser: Cache
    var validator: Cache

    function Of(kind: StakerKind): Cache
      reads this
    {
      match kind
      case Route => route
      case Ser => ser
      case Validator => validator
    }

    method Set(kind: StakerKind, c: Cache)
      modifies this
      ensures forall k :: Of(k) == if k == kind then c else old(Of(k))
    {
      match kind
      case Route => route := c;
      case Ser => ser := c;
      case Validator => validator := c;
    }

    /** The current stakers, and the stakers as the blocks in flight leave them. */
    ghost function Current(): Tables
      reads this
    {
      Tables(Of(Route).cur, Of(Ser).cur, Of(Validator).cur)
    }

    ghost function Staged(): Tables
      reads this
    {
      Tables(Of(Route).Staged(), Of(Ser).Staged(), Of(Validator).Staged())
    }

    ghost predicate Ok()
      reads this
    {
      Of(Route).Ok() && Of(Ser).Ok() && Of(Validator).Ok()
    }

    /** The maps are a scan of the committed database, and with the pending changes a scan
        of the overlay. */
    ghost predicate Agrees(committed: View, overlay: View)
      reads this
    {
      && WellKeyed(committed) && WellKeyed(overlay) && Ok()
      && Current() == ScanAll(committed) && Staged() == ScanAll(overlay)
    }

    ghost predicate Clean()
      reads this
    {
      Of(Route).Clean() && Of(Ser).Clean() && Of(Validator).Clean()
    }

    lemma CleanIsCurrent()
      requires Clean()
      ensures Ok() && Staged() == Current()
    {}

    /** The cache and the overlay have taken the same changes. */
    twostate predicate Took(changes: seq<Change>, before: View, after: View)
      reads this
    {
      && Ok() && WellKeyed(after) && Current() == old(Current())
      && Staged() == ChangedAll(old(Staged()), changes) && ScanAll(after) == ChangedAll(ScanAll(before), changes)
    }

    /** ReloadStakers at start-up: collects the records of every kind from the database. */
    constructor Reload(db: Database, ghost stack: set<Database>)
      requires db in stack && forall d :: d in stack ==> d.Sound() && (d.base != null ==> d.base in stack)
      requires WellKeyed(db.view)
      ensures Agrees(db.view, db.view) && Clean()
    {
      var view := db.Snapshot(stack);
      var routes := LoadKind(view, Route);
      var sers := LoadKind(view, Ser);
      var validators := LoadKind(view, Validator);
      route, ser, validator := Cache(routes, map[], {}), Cache(sers, map[], {}), Cache(validators, map[], {});
      new;
      CleanIsCurrent();
    }

    /** The cursor loop of ReloadStakers, into an empty map. */
    static method LoadKind(view: View, kind: StakerKind) returns (t: Table)
      requires WellKeyed(view)
      ensures t == Scan(view, kind)
    {
      t := map[];
      var left := view.Keys;
      forall a ensures a in Scan(view, kind) ==> StakerKey(kind, a) in view {
        ScanAt(view, kind, a);
      }
      while left != {}
        invariant left <= view.Keys
        invariant forall a :: a in t <==> a in Scan(view, kind) && StakerKey(kind, a) !in left
        invariant forall a :: a in t ==> t[a] == Scan(view, kind)[a]
        decreases left
      {
        var k :| k in left;
        left := left - {k};
        if k.StakerKey? && k.kind == kind {
          ScanAt(view, kind, k.addr);
          var staker := view[k].staker;
          t := t[staker.addr := staker];
        }
      }
    }

    /** PutStaker: stages the record and writes it to the overlay, whatever else is staged. */
    method PutStaker(db: Database, staker: StakerMeta)
      requires Ok() && WellKeyed(db.view) && db.Sound()
      modifies this, db`mem, db`view
      ensures db.Sound() && Took([Put(staker)], old(db.view), db.view)
      ensures db.mem == old(db.mem) + WriteOf(Put(staker))
    {
      ScanPut(db.view, staker);
      var c := Of(staker.kind);
      var added: Table := c.pendingAdd;
      added := added[staker.addr := staker];
      var after := Cache(c.cur, added, c.pendingDel - {staker.addr});
      StagedPut(c, after, staker.addr, staker);
      Set(staker.kind, after);
      db.Write(map[StakerKey(staker.kind, staker.addr) := Some(StakerValue(staker))]);
      OneChange(old(Staged()), Put(staker));
      OneChange(ScanAll(old(db.view)), Put(staker));
    }

    /** DelStaker: stages the deletion and writes it to the overlay. */
    method DelStaker(db: Database, kind: StakerKind, addr: Address)
      requires Ok() && WellKeyed(db.view) && db.Sound()
      modifies this, db`mem, db`view
      ensures db.Sound() && Took([Del(kind, addr)], old(db.view), db.view)
      ensures db.mem == old(db.mem) + WriteOf(Del(kind, addr))
    {
      ScanDel(db.view, kind, addr);
      var c := Of(kind);
      var after := Cache(c.cur, c.pendingAdd - {addr}, c.pendingDel + {addr});
      StagedDel(c, after, addr);
      Set(kind, after);
      db.Write(map[StakerKey(kind, addr) := None]);
      OneChange(old(Staged()), Del(kind, addr));
      OneChange(ScanAll(old(db.view)), Del(kind, addr));
    }

    /** CacheStakersCommit, after the overlay has been committed: the staged stakers become
        the current ones. */
    method CacheStakersCommit()
      modifies this
      ensures Clean() && Current() == old(Staged()) && Ok() && Staged() == Current()
    {
      for i := 0 to |STAKER_TYPES|
        invariant forall kind {:trigger Of(kind)} :: Of(kind) ==
                    if kind in STAKER_TYPES[..i] then Cache(old(Of(kind).Staged()), map[], {}) else old(Of(kind))
      {
        var c := Of(STAKER_TYPES[i]);
        var merged := Merge(c.cur, c.pendingAdd, c.pendingDel);
        Set(STAKER_TYPES[i], Cache(merged, map[], {}));
      }
      assert STAKER_TYPES[0] == Route && STAKER_TYPES[1] == Ser && STAKER_TYPES[2] == Validator;
      CleanIsCurrent();
    }

    /** CacheStakersAbort: forgets the block in flight. */
    method CacheStakersAbort()
      modifies this
      ensures Clean() && Current() == old(Current()) && Ok() && Staged() == Current()
    {
      for i := 0 to |STAKER_TYPES|
        invariant forall kind {:trigger Of(kind)} :: Of(kind) ==
                    if kind in STAKER_TYPES[..i] then Cache(old(Of(kind).cur), map[], {}) else old(Of(kind))
      {
        Set(STAKER_TYPES[i], Cache(Of(STAKER_TYPES[i]).cur, map[], {}));
      }
      assert STAKER_TYPES[0] == Route && STAKER_TYPES[1] == Ser && STAKER_TYPES[2] == Validator;
      CleanIsCurrent();
    }

    /** The changes of a block, staged on an overlay. */
    method Stage(overlay: Database, changes: seq<Change>)
      requires Ok() && WellKeyed(overlay.view) && overlay.Sound()
      modifies this, overlay`mem, overlay`view
      ensures overlay.Sound() && Took(changes, old(overlay.view), overlay.view)
      ensures overlay.mem == old(overlay.mem) + WritesOf(changes)
    {
      JoinWrites(overlay.mem, map[], map[]);
      for i := 0 to |changes|
        invariant overlay.Sound() && Took(changes[..i], old(overlay.view), overlay.view)
        invariant overlay.mem == old(overlay.mem) + WritesOf(changes[..i])
      {
        assert changes[..i + 1] == changes[..i] + [changes[i]] && changes[..i + 1][..i] == changes[..i];
        ChangedTwice(old(Staged()), changes[..i], [changes[i]]);
        ChangedTwice(ScanAll(old(overlay.view)), changes[..i], [changes[i]]);
        JoinWrites(old(overlay.mem), WritesOf(changes[..i]), WriteOf(changes[i]));
        StageOne(overlay, changes[i]);
      }
      assert changes[..|changes|] == changes;
    }

    method StageOne(overlay: Database, c: Change)
      requires Ok() && WellKeyed(overlay.view) && overlay.Sound()
      modifies this, overlay`mem, overlay`view
      ensures overlay.Sound() && Took([c], old(overlay.view), overlay.view)
      ensures overlay.mem == old(overlay.mem) + WriteOf(c)
    {
      match c
      case Put(staker) => PutStaker(overlay, staker);
      case Del(kind, addr) => DelStaker(overlay, kind, addr);
    }

    /** The cache and the database after some events, from the stakers at the start. */
    ghost predicate After(t: Tables, events: seq<Moment>, view: View)
      requires RunOk(events)
      reads this
    {
      && Ok() && WellKeyed(view) && Current() == ChangedAll(t, Kept(events))
      && Staged() == ChangedAll(t, Told(events)) && ScanAll(view) == ChangedAll(t, OnDisk(events))
    }

    /** Any run in which blocks are staged, each on an overlay of its own, building aborts and
        staged blocks are accepted, in any order.  A commit makes everything current that is
        pending, whichever block it belongs to, so the cache agrees with the database if and
        only if for every staker the last change committed to the cache leaves the same as the
        last change of the accepted blocks. */
    method Run(disk: Database, events: seq<Moment>)
      requires Agrees(disk.view, disk.view) && Clean() && disk.Sound() && disk.base == null && RunOk(events)
      modifies this, disk`mem, disk`view
      ensures disk.Sound() && After(old(Current()), events, disk.view)
      ensures events != [] && !events[|events| - 1].Staging? ==> Clean()
      ensures Current() == ScanAll(disk.view) <==> SameOutcome(old(Current()), Kept(events), OnDisk(events))
    {
      ghost var t, done: seq<Moment> := Current(), [];
      CleanIsCurrent();
      var written: seq<Writes> := [];
      for i := 0 to |events|
        invariant done == events[..i] && RunOk(done) && disk.Sound() && disk.base == null && After(t, done, disk.view)
        invariant |written| == i && Holds(done, written) && (i > 0 && !events[i - 1].Staging? ==> Clean())
      {
        PrefixOk(events, i + 1);
        assert events[..i + 1] == done + [events[i]];
        written := Next(disk, events[i], written, t, done);
        done := done + [events[i]];
      }
      assert done == events;
      SameOutcomeIff(t, Kept(events), OnDisk(events));
    }

    method Next(disk: Database, event: Moment, written: seq<Writes>, ghost t: Tables, ghost done: seq<Moment>)
      returns (longer: seq<Writes>)
      requires RunOk(done) && RunOk(done + [event]) && disk.Sound() && disk.base == null && After(t, done, disk.view)
      requires |written| == |done| && Holds(done, written)
      modifies this, disk`mem, disk`view
      ensures disk.Sound() && disk.base == null && After(t, done + [event], disk.view)
      ensures !event.Staging? ==> Clean()
      ensures |longer| == |done| + 1 && Holds(done + [event], longer)
    {
      RunNext(t, done, event);
      match event
      case Staging(changes) =>
        var writes := StageBlock(disk, changes);
        longer := written + [writes];
      case Aborting =>
        CacheStakersAbort();
        longer := written + [map[]];
      case Accepting(block) =>
        AcceptBlock(disk, done[block].staged, written[block]);
        longer := written + [map[]];
    }

    /** A block is staged on an overlay of its own, which is what it writes. */
    method StageBlock(disk: Database, changes: seq<Change>) returns (writes: Writes)
      requires Ok() && WellKeyed(disk.view)
      modifies this
      ensures Took(changes, disk.view, Apply(disk.view, writes)) && writes == WritesOf(changes)
    {
      var overlay := new Database(disk, disk.rank + 1, EmptyId);
      Stage(overlay, changes);
      WritesChange(disk.view, changes);
      writes := overlay.mem;
      JoinWrites(writes, map[], map[]);
      JoinWrites(WritesOf(changes), map[], map[]);
    }

    /** The block's overlay is committed, and with it whatever is pending. */
    method AcceptBlock(disk: Database, ghost changes: seq<Change>, writes: Writes)
      requires Ok() && WellKeyed(disk.view) && disk.Sound() && disk.base == null && writes == WritesOf(changes)
      modifies this, disk`mem, disk`view
      ensures disk.Sound() && WellKeyed(disk.view) && ScanAll(disk.view) == ChangedAll(ScanAll(old(disk.view)), changes)
      ensures Clean() && Current() == old(Staged()) && Ok() && Staged() == Current()
    {
      WritesChange(disk.view, changes);
      var overlay := new Database(disk, disk.rank + 1, EmptyId);
      overlay.Write(writes);
      overlay.Commit();
      CacheStakersCommit();
    }

    /** A block is staged and accepted while other blocks are staged and aborted around it.
        What has been staged since the last abort becomes current, and the cache agrees with
        the database if and only if no staker is disturbed. */
    method AcceptAmong(disk: Database, before: seq<Moment>, changes: seq<Change>, after: seq<Moment>)
      requires Agrees(disk.view, disk.view) && Clean() && disk.Sound() && disk.base == null
      requires NoAccepts(before) && NoAccepts(after)
      modifies this, disk`mem, disk`view
      ensures Clean() && disk.Sound() && WellKeyed(disk.view)
      ensures Current() == ChangedAll(old(Current()), Pending(before + [Staging(changes)] + after))
      ensures ScanAll(disk.view) == ChangedAll(old(Current()), changes)
      ensures Agrees(disk.view, disk.view) <==> NobodyDisturbed(old(Current()), before, changes, after)
    {
      var events := before + [Staging(changes)] + after;
      AmongLists(before, changes, after);
      AmongGuards(Current(), before, changes, after);
      Run(disk, events + [Accepting(|before|)]);
      CleanIsCurrent();
    }

    /** One block: its changes are staged, then the block is accepted or building it is
        aborted.  The maps end as a scan of the database, so reloading would rebuild them
        exactly. */
    method RunBlock(disk: Database, block: Block)
      requires Agrees(disk.view, disk.view) && Clean() && disk.Sound() && disk.base == null
      modifies this, disk`mem, disk`view
      ensures Agrees(disk.view, disk.view) && Clean() && disk.Sound()
      ensures Current() == ChangedAll(old(Current()), Effects([block]))
    {
      assert [block][..0] == [] && Effects([block]) == if block.accepted then block.changes else [];
      CleanIsCurrent();
      var overlay := new Database(disk, disk.rank + 1, EmptyId);
      Stage(overlay, block.changes);
      if block.accepted {
        overlay.Commit();
        CacheStakersCommit();
      } else {
        CacheStakersAbort();
      }
    }

    /** Any run of blocks one after the other leaves the maps as a scan of the database,
        changed by exactly the accepted blocks, in order. */
    method RunBlocks(disk: Database, blocks: seq<Block>)
      requires Agrees(disk.view, disk.view) && Clean() && disk.Sound() && disk.base == null
      modifies this, disk`mem, disk`view
      ensures Agrees(disk.view, disk.view) && Clean() && disk.Sound()
      ensures Current() == ChangedAll(old(Current()), Effects(blocks))
    {
      for i := 0 to |blocks|
        invariant Agrees(disk.view, disk.view) && Clean() && disk.Sound()
        invariant Current() == ChangedAll(old(Current()), Effects(blocks[..i]))
      {
        NextEffect(old(Current()), blocks, i);
        RunBlock(disk, blocks[i]);
      }
      assert blocks[..|blocks|] == blocks;
    }
  }

  /** Stakers are disturbed if a second block with a new staker is verified before the first
      is accepted, and if building a block aborts after a block with a new staker. */
  lemma OverlapBreaks(t: Tables, first: seq<Change>, x: StakerMeta)
    requires Slot(t, x.kind, x.addr) == None && LastOn(first, x.kind, x.addr) == None
    ensures !Undisturbed(t, [], first, [Staging([Put(x)])], x.kind, x.addr)
    ensures !Undisturbed(t, [], [Put(x)], [Aborting], x.kind, x.addr)
  {
    var second, aborted: seq<Moment> := [Staging([Put(x)])], [Aborting];
    assert second[..0] == [] && Pending(second) == [] + [Put(x)] == [Put(x)];
    assert aborted[0].Aborting? && Pending(aborted) == [];
  }
}
