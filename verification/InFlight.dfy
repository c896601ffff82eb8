/**
 Blocks in flight over a cache that all of them share, chain/block.go and chain/builder.go.
 The cache holds what has been committed and what is pending, whichever block it belongs to;
 the database holds what accepted blocks have written.
 */
module InFlight {

  /** What happens to the cache: a block is staged when it is verified or built, with all it
      stages or as much as was executed before it failed; building a block aborts; a block
      that was staged earlier is accepted.  A rejected block is one that is never accepted:
      neither rejection nor a failed verification aborts. */
  datatype Event<T> = Staging(staged: seq<T>) | Aborting | Accepting(block: nat)

  ghost predicate EventOk<T>(events: seq<Event<T>>, i: nat)
    requires i < |events|
  {
    events[i].Accepting? ==> events[i].block < i && events[events[i].block].Staging?
  }

  ghost predicate RunOk<T>(events: seq<Event<T>>) {
    forall i {:trigger EventOk(events, i)} :: 0 <= i < |events| ==> EventOk(events, i)
  }

  lemma PrefixOk<T>(events: seq<Event<T>>, n: nat)
    requires RunOk(events) && n <= |events|
    ensures RunOk(events[..n])
  {
    forall i | 0 <= i < n ensures EventOk(events[..n], i) {
      assert EventOk(events, i);
    }
  }

  /** What has been staged since the last commit or abort. */
  function Pending<T>(events: seq<Event<T>>): seq<T> {
    if events == [] then []
    else
      match events[|events| - 1]
      case Staging(staged) => Pending(events[..|events| - 1]) + staged
      case _ => []
  }

  /** What has been committed to the cache: at every acceptance all that was pending. */
  function Kept<T>(events: seq<Event<T>>): seq<T> {
    if events == [] then []
    else
      var init := events[..|events| - 1];
      if events[|events| - 1].Accepting? then Kept(init) + Pending(init) else Kept(init)
  }

  /** What the cache shows to whoever executes next. */
  function Told<T>(events: seq<Event<T>>): seq<T> {
    Kept(events) + Pending(events)
  }

  lemma ListsNext<T>(done: seq<Event<T>>, event: Event<T>)
    ensures var next := done + [event];
            && Kept(next) == (if event.Accepting? then Kept(done) + Pending(done) else Kept(done))
            && Pending(next) == (if event.Staging? then Pending(done) + event.staged else [])
  {
    assert (done + [event])[..|done|] == done;
  }

  predicate NoAccepts<T>(events: seq<Event<T>>) {
    forall i :: 0 <= i < |events| ==> !events[i].Accepting?
  }

  predicate Aborts<T>(events: seq<Event<T>>) {
    exists i :: 0 <= i < |events| && events[i].Aborting?
  }

  lemma {:induction false} NothingKept<T>(events: seq<Event<T>>)
    requires NoAccepts(events)
    ensures RunOk(events) && Kept(events) == []
  {
    if events != [] {
      NothingKept(events[..|events| - 1]);
    }
  }

  lemma Associative<T>(first: seq<T>, second: seq<T>, third: seq<T>)
    ensures (first + second) + third == first + (second + third)
  {}

  lemma SplitLast<T>(first: seq<T>, second: seq<T>)
    requires second != []
    ensures var n := |second| - 1;
            first + second == first + second[..n] + [second[n]] && second == second[..n] + [second[n]]
  {}

  lemma {:induction false} PendingConcat<T>(first: seq<Event<T>>, second: seq<Event<T>>)
    requires NoAccepts(second)
    ensures Pending(first + second) == if Aborts(second) then Pending(second) else Pending(first) + Pending(second)
  {
    if second == [] {
      assert first + second == first && Pending(first) + [] == Pending(first);
    } else {
      var n := |second| - 1;
      PendingConcat(first, second[..n]);
      SplitLast(first, second);
      ListsNext(first + second[..n], second[n]);
      ListsNext(second[..n], second[n]);
      AbortsLast(second);
      if second[n].Staging? {
        Associative(Pending(first), Pending(second[..n]), second[n].staged);
      }
    }
  }

  lemma AbortsLast<T>(events: seq<Event<T>>)
    requires events != []
    ensures var n := |events| - 1; Aborts(events) <==> events[n].Aborting? || Aborts(events[..n])
  {
    var n := |events| - 1;
    assert forall i :: 0 <= i < n ==> events[..n][i] == events[i];
  }

  /** What is pending after a block has been staged among others. */
  lemma PendingAmong<T>(before: seq<Event<T>>, staged: seq<T>, after: seq<Event<T>>)
    requires NoAccepts(after)
    ensures Pending(before + [Staging(staged)] + after) ==
            if Aborts(after) then Pending(after) else Pending(before) + staged + Pending(after)
  {
    ListsNext(before, Staging(staged));
    PendingConcat(before + [Staging(staged)], after);
  }

  /** A block staged and accepted among others is a run. */
  lemma AmongIsRun<T>(before: seq<Event<T>>, staged: seq<T>, after: seq<Event<T>>)
    requires NoAccepts(before) && NoAccepts(after)
    ensures var events := before + [Staging(staged)] + after;
            var run := events + [Accepting(|before|)];
            && RunOk(events) && RunOk(run) && Kept(run) == Pending(events) && Pending(run) == []
            && events[|before|] == Staging(staged)
  {
    var events := before + [Staging(staged)] + after;
    var run := events + [Accepting(|before|)];
    NothingKept(events);
    ListsNext(events, Accepting(|before|));
    forall i | 0 <= i < |run| ensures EventOk(run, i) {
      assert events[|before|] == Staging(staged);
    }
    assert [] + Pending(events) == Pending(events);
  }

  /** The first commit or abort of the events is an abort, so that what was pending before
      them is lost. */
  predicate Drops<T>(events: seq<Event<T>>) {
    events != [] && if events[0].Staging? then Drops(events[1..]) else events[0].Aborting?
  }

  /** What the cache shows after one more event. */
  lemma ToldNext<T>(done: seq<Event<T>>, event: Event<T>)
    ensures Kept(done + [event]) == if event.Accepting? then Told(done) else Kept(done)
    ensures Told(done + [event]) ==
            if event.Staging? then Told(done) + event.staged
            else if event.Aborting? then Kept(done)
            else Told(done)
  {
    ListsNext(done, event);
    match event
    case Staging(staged) => assert Kept(done) + (Pending(done) + staged) == Told(done) + staged;
    case Aborting => assert Kept(done) + [] == Kept(done);
    case Accepting(_) => assert Told(done) + [] == Told(done);
  }

  /** And after any further events. */
  lemma {:induction false} ToldConcat<T>(first: seq<Event<T>>, second: seq<Event<T>>)
    ensures Told(first + second) == (if Drops(second) then Kept(first) else Told(first)) + Told(second)
    decreases |second|
  {
    if second == [] {
      assert first + second == first && Told(first) + Told(second) == Told(first);
    } else {
      var event, rest := second[0], second[1..];
      ToldConcat(first + [event], rest);
      ToldConcat([event], rest);
      assert second == [event] + rest;
      assert first + ([event] + rest) == (first + [event]) + rest;
      ToldFrom(first, event, Drops(rest), Told(rest));
    }
  }

  lemma ToldFrom<T>(first: seq<Event<T>>, event: Event<T>, drops: bool, later: seq<T>)
    ensures var lone, next := [event], first + [event];
            (if drops then Kept(next) else Told(next)) + later ==
            (if event.Aborting? || (event.Staging? && drops) then Kept(first) else Told(first))
            + ((if drops then Kept(lone) else Told(lone)) + later)
  {
    LoneEvent(event);
    ToldNext(first, event);
    if event.Staging? && !drops {
      Associative(Told(first), event.staged, later);
    } else {
      assert [] + later == later;
    }
  }

  lemma LoneEvent<T>(event: Event<T>)
    ensures Kept([event]) == [] && Told([event]) == if event.Staging? then event.staged else []
  {
    var none: seq<Event<T>> := [];
    assert [event] == none + [event];
    ToldNext(none, event);
    assert event.Staging? ==> [] + event.staged == event.staged;
  }

  lemma CutAt<T>(events: seq<Event<T>>, block: nat)
    requires block < |events| && events[block].Staging?
    ensures events[..block + 1] == events[..block] + [Staging(events[block].staged)]
    ensures events == events[..block] + [Staging(events[block].staged)] + events[block + 1..]
  {
    assert events[block] == Staging(events[block].staged);
  }
}
