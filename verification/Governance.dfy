/**
 Governance: the action cache of chain/action_status.go and the register, proposal and
 vote transactions that write to it.  Votes are checked against the committed actions;
 what a block in flight stages is seen only by the check for repeated proposals.
 */
module Governance {
  import opened ChainTypes
  import opened Sequences
  import opened StagedMaps

  type ActionId = nat

  const SECONDS_7_DAY: nat := 7 * 24 * 60 * 60

  datatype ActionType = AddStaker | ModifySysParam | AddUserType | ModifyUserType | ModifyFoundation

  datatype ActionMeta = ActionMeta(
    id: ActionId, actionType: ActionType, startTime: nat, endTime: nat, txIds: seq<nat>, voters: seq<Address>,
    key: string, newValue: string)

  type Actions = map<ActionId, ActionMeta>

  /** Who may vote, given the route stakers: they may, and while there are few of them the
      root address. */
  predicate MayVote(a: Address, routes: set<Address>, root: Address) {
    a in routes || (a == root && |routes| <= 3)
  }

  /** Who proposes or registers and may vote also votes. */
  function FirstVoters(sender: Address, routes: set<Address>, root: Address): (voters: seq<Address>)
    ensures voters == [sender] || voters == []
    ensures voters == [sender] <==> sender in routes || (sender == root && |routes| < 3)
  {
    if (sender == root && |routes| < 3) || sender in routes then [sender] else []
  }

  function SetOf(voters: seq<Address>): set<Address> {
    set i | 0 <= i < |voters| :: voters[i]
  }

  lemma {:induction false} DistinctSize(voters: seq<Address>)
    requires Distinct(voters)
    ensures |SetOf(voters)| == |voters|
  {
    if voters == [] {
      assert SetOf(voters) == {};
    } else {
      var n := |voters| - 1;
      DistinctSize(voters[..n]);
      assert SetOf(voters) == SetOf(voters[..n]) + {voters[n]};
    }
  }

  /** Two actions that are not about new stakers compete for different keys. */
  predicate KeysDiffer(a: ActionMeta, b: ActionMeta) {
    a.actionType == AddStaker || b.actionType == AddStaker || a.id == b.id || a.key != b.key
  }

  ghost predicate NoSharedKeys(some: Actions, others: Actions) {
    forall i, j {:trigger some[i], others[j]} :: i in some && j in others ==> KeysDiffer(some[i], others[j])
  }

  /** The routes at the time each vote was cast. */
  type VoteLog = map<(ActionId, Address), set<Address>>

  function Logged(log: VoteLog, id: ActionId, voters: seq<Address>, routes: set<Address>): VoteLog {
    if voters == [] then log else log[(id, voters[0]) := routes]
  }

  /** Whoever voted was a route then, or the root address with at most three routes. */
  ghost predicate LogOk(log: VoteLog, root: Address) {
    forall vote {:trigger log[vote]} :: vote in log ==>
      vote.1 in log[vote] || (vote.1 == root && |log[vote]| <= 3)
  }

  ghost predicate Voted(action: ActionMeta, log: VoteLog) {
    forall i {:trigger action.voters[i]} :: 0 <= i < |action.voters| ==> (action.id, action.voters[i]) in log
  }

  /** An action lies under its id, and its voters are distinct and were entitled to vote. */
  ghost predicate ActionOk(action: ActionMeta, id: ActionId, log: VoteLog) {
    action.id == id && Distinct(action.voters) && Voted(action, log)
  }

  ghost predicate ActionsOk(actions: Actions, log: VoteLog) {
    forall id {:trigger actions[id]} :: id in actions ==> ActionOk(actions[id], id, log)
  }

  lemma LogGrows(actions: Actions, log: VoteLog, more: VoteLog)
    requires ActionsOk(actions, log) && log.Keys <= more.Keys
    ensures ActionsOk(actions, more)
  {}

  /** The maps of the cache as a value. */
  datatype Board = Board(routes: set<Address>, cur: Actions, pendingAdd: Actions, pendingDel: set<ActionId>) {
    /** What is committed next if nothing more happens. */
    function Outcome(): Actions {
      cur + pendingAdd - pendingDel
    }

    function Staged(id: ActionId, action: ActionMeta): Board {
      this.(pendingAdd := pendingAdd[id := action], pendingDel := pendingDel - {id})
    }

    /** Whether a vote on the action is accepted. */
    predicate Accepts(root: Address, ballot: Ballot, id: ActionId) {
      && MayVote(ballot.sender, routes, root)
      && id in cur && ballot.now <= cur[id].endTime && ballot.sender !in cur[id].voters
    }

    /** The senders whose votes are accepted. */
    function Accepted(root: Address, ballots: seq<Ballot>, id: ActionId): set<Address> {
      set i | 0 <= i < |ballots| && Accepts(root, ballots[i], id) :: ballots[i].sender
    }

    function LastAccepted(root: Address, ballots: seq<Ballot>, id: ActionId): (last: Option<Ballot>)
      ensures last.Some? ==> Accepts(root, last.value, id)
    {
      if ballots == [] then None
      else
        var last := ballots[|ballots| - 1];
        if Accepts(root, last, id) then Some(last) else LastAccepted(root, ballots[..|ballots| - 1], id)
    }
  }

  predicate KeyIn(actions: Actions, key: string) {
    exists i :: i in actions && actions[i].key == key
  }

  /** Neither the id nor the key is in use, committed or staged. */
  predicate Unused(board: Board, id: ActionId, key: string) {
    id !in board.cur && id !in board.pendingAdd && !KeyIn(board.cur, key) && !KeyIn(board.pendingAdd, key)
  }

  datatype Ballot = Ballot(sender: Address, txId: nat, now: nat)

  /** The action with one vote more. */
  function WithVote(action: ActionMeta, ballot: Ballot): ActionMeta {
    action.(txIds := action.txIds + [ballot.txId], voters := action.voters + [ballot.sender])
  }

  /** There is a last accepted vote exactly if some vote is accepted. */
  lemma {:induction false} LastIsAccepted(board: Board, root: Address, ballots: seq<Ballot>, id: ActionId)
    ensures var last := board.LastAccepted(root, ballots, id);
            if last.None? then board.Accepted(root, ballots, id) == {}
            else last.value.sender in board.Accepted(root, ballots, id)
    decreases ballots
  {
    if ballots == [] {
      assert board.Accepted(root, ballots, id) == {};
    } else {
      var n := |ballots| - 1;
      LastIsAccepted(board, root, ballots[..n], id);
      var before := board.Accepted(root, ballots[..n], id);
      if board.Accepts(root, ballots[n], id) {
        assert ballots[n].sender in board.Accepted(root, ballots, id);
      } else {
        assert board.Accepted(root, ballots, id) == before;
      }
    }
  }

  /** The vote that is left is the only one to count, so no accepted voter is lost exactly
      if the accepted votes are all of one sender. */
  lemma OneVoteIsKept(board: Board, root: Address, ballots: seq<Ballot>, id: ActionId)
    requires id in board.cur && board.Accepted(root, ballots, id) != {}
    ensures var last := board.LastAccepted(root, ballots, id);
            && last.Some?
            && (SetOf(WithVote(board.cur[id], last.value).voters)
                == SetOf(board.cur[id].voters) + board.Accepted(root, ballots, id)
                <==> |board.Accepted(root, ballots, id)| == 1)
  {
    LastIsAccepted(board, root, ballots, id);
    var accepted := board.Accepted(root, ballots, id);
    var last := board.LastAccepted(root, ballots, id).value.sender;
    var voters := board.cur[id].voters;
    SetOfSnoc(voters, last);
    assert accepted !! SetOf(voters);
    if |accepted| == 1 {
      Singleton(accepted, last);
    } else {
      assert accepted != {last};
      var other :| other in accepted && other != last;
      assert other !in SetOf(voters) + {last};
    }
  }

  lemma SetOfSnoc(voters: seq<Address>, a: Address)
    ensures SetOf(voters + [a]) == SetOf(voters) + {a}
  {
    var more := voters + [a];
    assert more[|voters|] == a;
    forall i | 0 <= i < |voters| ensures voters[i] in SetOf(more) {
      assert more[i] == voters[i];
    }
  }

  lemma Singleton(s: set<Address>, a: Address)
    requires a in s && |s| == 1
    ensures s == {a}
  {
    assert |s - {a}| == 0;
  }

  /** Some action that proposes the staker. */
  predicate StakerIn(actions: Actions, key: string) {
    exists i :: i in actions && Matches(actions[i], AddStaker, key)
  }

  predicate Matches(action: ActionMeta, actionType: ActionType, key: string) {
    action.actionType == actionType && action.key == key
  }

  /** Every new staker is proposed once. */
  ghost predicate StakersDiffer(actions: Actions) {
    forall i, j {:trigger actions[i], actions[j]} ::
      i in actions && j in actions && actions[i].actionType == AddStaker
      && Matches(actions[j], AddStaker, actions[i].key)
      ==> i == j
  }

  /** Putting an action leaves every new staker proposed once exactly if the others are and
      none of them proposes the same one. */
  lemma PutKeepsStakers(actions: Actions, id: ActionId, action: ActionMeta)
    ensures StakersDiffer(actions[id := action]) <==>
            StakersDiffer(actions - {id})
            && (action.actionType == AddStaker ==> !StakerIn(actions - {id}, action.key))
  {
    var others, all := actions - {id}, actions[id := action];
    assert all[id] == action;
    forall i | i in others ensures all[i] == others[i] {}
  }

  class ActionsState {
    const root: Address
    var routes: set<Address>  // the committed route stakers
    var cur: Actions
    var pendingAdd: Actions
    var pendingDel: set<ActionId>
    ghost var log: VoteLog

    ghost predicate Valid()
      reads this
    {
      && ActionsOk(cur, log) && ActionsOk(pendingAdd, log) && LogOk(log, root) && pendingAdd.Keys !! pendingDel
      && NoSharedKeys(cur, cur) && NoSharedKeys(pendingAdd, pendingAdd) && NoSharedKeys(cur, pendingAdd)
    }

    function Contents(): Board
      reads this
    {
      Board(routes, cur, pendingAdd, pendingDel)
    }

    constructor (root: Address, routes: set<Address>)
      ensures Valid() && this.root == root && Contents() == Board(routes, map[], map[], {})
    {
      this.root, this.routes := root, routes;
      cur, pendingAdd, pendingDel, log := map[], map[], {}, map[];
    }

    /** GetActionMeta: committed actions only, as long as they last. */
    function GetActionMeta(id: ActionId, now: nat): Option<ActionMeta>
      reads this
    {
      if id in cur && now <= cur[id].endTime then Some(cur[id]) else None
    }

    method PutAction(action: ActionMeta)
      requires Valid() && ActionOk(action, action.id, log)
      requires NoSharedKeys(cur, map[action.id := action]) && NoSharedKeys(pendingAdd, map[action.id := action])
      modifies this`pendingAdd, this`pendingDel
      ensures Valid() && Contents() == old(Contents()).Staged(action.id, action)
    {
      var alone := map[action.id := action];
      pendingDel := pendingDel - {action.id};
      pendingAdd := pendingAdd[action.id := action];
      forall i, j | i in pendingAdd && j in pendingAdd ensures KeysDiffer(pendingAdd[i], pendingAdd[j]) {
        assert alone[action.id] == action;
      }
      forall i, j | i in cur && j in pendingAdd ensures KeysDiffer(cur[i], pendingAdd[j]) {
        assert alone[action.id] == action;
      }
    }

    ghost method LogVotes(id: ActionId, voters: seq<Address>)
      requires Valid() && (voters == [] || (|voters| == 1 && MayVote(voters[0], routes, root)))
      modifies this`log
      ensures Valid() && log == Logged(old(log), id, voters, routes)
      ensures forall i :: 0 <= i < |voters| ==> (id, voters[i]) in log
    {
      if voters != [] {
        log := log[(id, voters[0]) := routes];
        LogGrows(cur, old(log), log);
        LogGrows(pendingAdd, old(log), log);
      }
    }

    /** RegisterTx, the part that stages an action: proposes a new staker under any id,
        replacing what is staged there.  checked stands for the checks of the address. */
    method Register(sender: Address, id: ActionId, stakerKey: string, blockTime: nat, txId: nat, checked: bool)
      returns (ok: bool)
      requires Valid()
      modifies this
      ensures Valid() && ok == checked
      ensures log == Logged(old(log), id, if ok then FirstVoters(sender, routes, root) else [], routes)
      ensures Contents() == if !ok then old(Contents()) else old(Contents()).Staged(id, ActionMeta(
                id, AddStaker, blockTime, blockTime + SECONDS_7_DAY, [txId], FirstVoters(sender, routes, root),
                stakerKey, ""))
    {
      if !checked {
        return false;
      }
      LogVotes(id, FirstVoters(sender, routes, root));
      var action := ActionMeta(id, AddStaker, blockTime, blockTime + SECONDS_7_DAY, [txId],
                               FirstVoters(sender, routes, root), stakerKey, "");
      PutAction(action);
      ok := true;
    }

    /** ProposalRepeat: whether the id or the key is in use, committed or staged. */
    method ProposalRepeat(id: ActionId, key: string) returns (repeated: bool)
      ensures repeated <==> !Unused(Contents(), id, key)
    {
      if id in cur {
        return true;
      }
      repeated := HasKey(cur, key);
      if repeated {
        return;
      }
      if id in pendingAdd {
        return true;
      }
      repeated := HasKey(pendingAdd, key);
    }

    static method HasKey(actions: Actions, key: string) returns (found: bool)
      ensures found <==> KeyIn(actions, key)
    {
      var left := actions.Keys;
      while left != {}
        invariant left <= actions.Keys && forall i :: i in actions && i !in left ==> actions[i].key != key
        decreases left
      {
        var i :| i in left;
        if actions[i].key == key {
          return true;
        }
        left := left - {i};
      }
      found := false;
    }

    /** ProposalTx: stages a new action if neither its id nor its key is in use.  checked
        stands for the checks of the key and value. */
    method Propose(sender: Address, id: ActionId, actionType: ActionType, key: string, newValue: string,
                   blockTime: nat, txId: nat, now: nat, checked: bool) returns (ok: bool)
      requires Valid()
      modifies this
      ensures Valid()
      ensures ok <==> checked && actionType != AddStaker && Unused(old(Contents()), id, key)
      ensures ok ==> id !in old(cur) && id !in old(pendingAdd)
      ensures ok ==> forall i :: (i in old(cur) ==> old(cur)[i].key != key)
                                 && (i in old(pendingAdd) ==> old(pendingAdd)[i].key != key)
      ensures !ok && checked && actionType != AddStaker ==>
                id in old(cur) || id in old(pendingAdd) || (exists i :: i in old(cur) && old(cur)[i].key == key)
                || (exists i :: i in old(pendingAdd) && old(pendingAdd)[i].key == key)
      ensures log == Logged(old(log), id, if ok then FirstVoters(sender, routes, root) else [], routes)
      ensures Contents() == if !ok then old(Contents()) else old(Contents()).Staged(id, ActionMeta(
                id, actionType, blockTime, blockTime + SECONDS_7_DAY, [txId], FirstVoters(sender, routes, root),
                key, newValue))
    {
      if GetActionMeta(id, now).Some? {
        return false;
      }
      if actionType == AddStaker || !checked {
        return false;
      }
      var repeated := ProposalRepeat(id, key);
      if repeated {
        return false;
      }
      LogVotes(id, FirstVoters(sender, routes, root));
      var action := ActionMeta(id, actionType, blockTime, blockTime + SECONDS_7_DAY, [txId],
                               FirstVoters(sender, routes, root), key, newValue);
      PutAction(action);
      ok := true;
    }

    /** VoteTx: stages a copy of the committed action with one more voter, whatever is
        staged for the action already. */
    method Vote(ballot: Ballot, id: ActionId) returns (ok: bool)
      requires Valid()
      modifies this
      ensures Valid()
      ensures log == Logged(old(log), id, if ok then [ballot.sender] else [], routes)
      ensures ok <==> old(Contents()).Accepts(root, ballot, id)
      ensures ok <==>
                && (ballot.sender in routes || (ballot.sender == root && |routes| <= 3))
                && id in old(cur) && ballot.now <= old(cur)[id].endTime
                && ballot.sender !in SetOf(old(cur)[id].voters)
      ensures Contents() == if !ok then old(Contents()) else old(Contents()).Staged(id, WithVote(old(cur)[id], ballot))
      ensures ok ==> id in pendingAdd && var was := old(cur)[id];
                     pendingAdd[id] == was.(voters := was.voters + [ballot.sender], txIds := was.txIds + [ballot.txId])
    {
      var sender := ballot.sender;
      if sender !in routes {
        if sender != root {
          return false;
        }
        if |routes| > 3 {
          return false;
        }
      }
      var found := GetActionMeta(id, ballot.now);
      if found.None? {
        return false;
      }
      var action := found.value;
      for i := 0 to |action.voters|
        invariant sender !in action.voters[..i]
      {
        if action.voters[i] == sender {
          return false;
        }
      }
      LogVotes(id, [sender]);
      assert ActionOk(action, id, old(log));
      PutAction(WithVote(action, ballot));
      ok := true;
    }

    /** DelAction: a new staker's action is deleted when it stakes. */
    method DelAction(id: ActionId)
      requires Valid()
      modifies this`pendingAdd, this`pendingDel
      ensures Valid()
              && Contents() == old(Contents().(pendingAdd := pendingAdd - {id}, pendingDel := pendingDel + {id}))
    {
      pendingAdd := pendingAdd - {id};
      pendingDel := pendingDel + {id};
    }

    /** CacheActionsCommit. */
    method CacheActionsCommit()
      requires Valid()
      modifies this
      ensures Valid() && Contents() == Board(routes, old(Contents()).Outcome(), map[], {})
      ensures routes == old(routes) && log == old(log)
    {
      var merged := Merge(cur, pendingAdd, pendingDel);
      assert NoSharedKeys(merged, merged);
      cur, pendingAdd, pendingDel := merged, map[], {};
    }

    method CacheActionsAbort()
      requires Valid()
      modifies this`pendingAdd, this`pendingDel
      ensures Valid() && Contents() == Board(routes, cur, map[], {})
    {
      pendingAdd, pendingDel := map[], {};
    }

    /** GetVotersNum: some committed action of the type with the key, whichever the map
        iteration comes to first. */
    method GetVotersNum(actionType: ActionType, key: string) returns (found: Option<ActionMeta>)
      ensures found.None? <==> forall i :: i in cur ==> !Matches(cur[i], actionType, key)
      ensures found.Some? ==> exists i :: i in cur && found == Some(cur[i]) && Matches(cur[i], actionType, key)
    {
      var left := cur.Keys;
      while left != {}
        invariant left <= cur.Keys
        invariant forall i :: i in cur && i !in left ==> !Matches(cur[i], actionType, key)
        decreases left
      {
        var i :| i in left;
        if Matches(cur[i], actionType, key) {
          return Some(cur[i]);
        }
        left := left - {i};
      }
      found := None;
    }

    /** What confirms an action: the root's vote while there are fewer than three routes,
        else two thirds of their number in votes, rounded down. */
    predicate Confirmed(action: ActionMeta, now: nat)
      reads this
    {
      if |routes| < 3 then now <= action.endTime && root in action.voters
      else |action.voters| >= |routes| * 2 / 3
    }

    /** Some order of the map leads to the answer. */
    ghost predicate MayAnswer(actionType: ActionType, key: string, now: nat, ok: bool)
      reads this
    {
      || (exists i :: i in cur && Matches(cur[i], actionType, key) && Confirmed(cur[i], now) == ok)
      || (!ok && forall i :: i in cur ==> !Matches(cur[i], actionType, key))
    }

    /** The answer does not depend on the order exactly if all actions that could be found
        are confirmed or none is. */
    lemma OneAnswer(actionType: ActionType, key: string, now: nat)
      ensures (MayAnswer(actionType, key, now, true) <==> !MayAnswer(actionType, key, now, false)) <==>
              forall i, j ::
                i in cur && j in cur && Matches(cur[i], actionType, key) && Matches(cur[j], actionType, key) ==>
                  Confirmed(cur[i], now) == Confirmed(cur[j], now)
    {}

    /** While every new staker is proposed once, it never does. */
    lemma OneAnswerIfStakersDiffer(actionType: ActionType, key: string, now: nat)
      requires Valid() && (actionType == AddStaker ==> StakersDiffer(cur))
      ensures MayAnswer(actionType, key, now, true) <==> !MayAnswer(actionType, key, now, false)
    {}

    /** IsBeConfirmed for the action found. */
    method IsBeConfirmed(actionType: ActionType, key: string, now: nat) returns (ok: bool, found: Option<ActionMeta>)
      requires Valid()
      ensures found.None? <==> forall i :: i in cur ==> !Matches(cur[i], actionType, key)
      ensures found.Some? ==> found.value.id in cur && cur[found.value.id] == found.value
                              && Matches(found.value, actionType, key)
      ensures ok <==> found.Some? && Confirmed(found.value, now)
      ensures MayAnswer(actionType, key, now, ok)
    {
      found := GetVotersNum(actionType, key);
      if found.None? {
        return false, None;
      }
      if |routes| < 3 {
        var action := GetActionMeta(found.value.id, now);
        if action.None? {
          return false, found;
        }
        for i := 0 to |action.value.voters|
          invariant root !in action.value.voters[..i]
        {
          if action.value.voters[i] == root {
            return true, found;
          }
        }
        ok := false;
      } else {
        ok := |found.value.voters| >= |routes| * 2 / 3;
      }
    }

    /** Confirmation with three or more routes takes exactly the votes of two thirds of their
        number, rounded down, of different voters, each of whom was a route when it voted or
        the root address while there were at most three routes. */
    lemma ConfirmedByEntitledVoters(id: ActionId, now: nat)
      requires Valid() && id in cur && |routes| >= 3
      ensures Confirmed(cur[id], now) <==> 2 * |routes| < 3 * (|SetOf(cur[id].voters)| + 1)
      ensures Confirmed(cur[id], now) <==> |SetOf(cur[id].voters)| >= |routes| * 2 / 3
      ensures forall a :: a in SetOf(cur[id].voters) ==>
                (id, a) in log && (a in log[(id, a)] || (a == root && |log[(id, a)]| <= 3))
    {
      DistinctSize(cur[id].voters);
    }

    /** With fewer routes it takes exactly the root's vote, while the action lasts. */
    lemma ConfirmedByRoot(id: ActionId, now: nat)
      requires id in cur && |routes| < 3
      ensures Confirmed(cur[id], now) <==> now <= cur[id].endTime && root in SetOf(cur[id].voters)
    {}

    /** For anything but new stakers at most one committed action has the key, so what is
        confirmed does not depend on the order of the map. */
    lemma OneActionPerKey(i: ActionId, j: ActionId)
      requires Valid() && i in cur && j in cur && cur[i].key == cur[j].key
      requires cur[i].actionType != AddStaker && cur[j].actionType != AddStaker
      ensures i == j
    {
      assert KeysDiffer(cur[i], cur[j]);
    }

    /** Votes on one action within a block replace each other: each copies the committed
        action, so that the last accepted one is all that is left. */
    method VoteInOneBlock(id: ActionId, ballots: seq<Ballot>)
      requires Valid()
      modifies this
      ensures Valid()
      ensures var was := old(Contents()); var last := was.LastAccepted(root, ballots, id);
              Contents() == if last.None? then was else was.Staged(id, WithVote(was.cur[id], last.value))
      ensures old(id !in pendingAdd) ==> (id !in pendingAdd <==> old(Contents()).Accepted(root, ballots, id) == {})
      ensures var accepted := old(Contents()).Accepted(root, ballots, id);
              accepted != {} ==>
                && id in old(cur) && id in pendingAdd
                && (SetOf(pendingAdd[id].voters) == SetOf(old(cur[id]).voters) + accepted <==> |accepted| == 1)
    {
      ghost var was := Contents();
      for i := 0 to |ballots|
        invariant Valid()
        invariant var last := was.LastAccepted(root, ballots[..i], id);
                  Contents() == if last.None? then was else was.Staged(id, WithVote(was.cur[id], last.value))
      {
        assert ballots[..i + 1][..i] == ballots[..i];
        var ok := Vote(ballots[i], id);
        var _ := ok;
      }
      assert ballots[..|ballots|] == ballots;
      LastIsAccepted(was, root, ballots, id);
      if was.Accepted(root, ballots, id) != {} {
        OneVoteIsKept(was, root, ballots, id);
      }
    }
  }

  /** What can happen to the actions, a transaction or a block boundary at a time. */
  datatype Step =
    | RegisterStep(sender: Address, id: ActionId, key: string, blockTime: nat, txId: nat, checked: bool)
    | ProposeStep(sender: Address, id: ActionId, actionType: ActionType, key: string, newValue: string,
                  blockTime: nat, txId: nat, now: nat, checked: bool)
    | VoteStep(ballot: Ballot, id: ActionId)
    | StakedStep(id: ActionId)
    | CommitStep(routes: set<Address>)
    | AbortStep

  function Next(board: Board, root: Address, step: Step): Board {
    match step
    case RegisterStep(sender, id, key, blockTime, txId, checked) =>
      if !checked then board
      else board.Staged(id, ActionMeta(id, AddStaker, blockTime, blockTime + SECONDS_7_DAY, [txId],
                                       FirstVoters(sender, board.routes, root), key, ""))
    case ProposeStep(sender, id, actionType, key, newValue, blockTime, txId, now, checked) =>
      if !checked || actionType == AddStaker || !Unused(board, id, key) then board
      else board.Staged(id, ActionMeta(id, actionType, blockTime, blockTime + SECONDS_7_DAY, [txId],
                                       FirstVoters(sender, board.routes, root), key, newValue))
    case VoteStep(ballot, id) =>
      if !board.Accepts(root, ballot, id) then board else board.Staged(id, WithVote(board.cur[id], ballot))
    case StakedStep(id) => board.(pendingAdd := board.pendingAdd - {id}, pendingDel := board.pendingDel + {id})
    case CommitStep(routes) => Board(routes, board.Outcome(), map[], {})
    case AbortStep => board.(pendingAdd := map[], pendingDel := {})
  }

  function AfterAll(board: Board, root: Address, steps: seq<Step>): Board {
    if steps == [] then board
    else Next(AfterAll(board, root, steps[..|steps| - 1]), root, steps[|steps| - 1])
  }

  /** The sets of routes there have been: the one at the start and those of the commits. */
  function RouteSets(routes: set<Address>, steps: seq<Step>): set<set<Address>> {
    if steps == [] then {routes}
    else
      var last := steps[|steps| - 1];
      RouteSets(routes, steps[..|steps| - 1]) + if last.CommitStep? then {last.routes} else {}
  }

  predicate Votes(actions: Actions, a: Address) {
    exists id :: id in actions && a in actions[id].voters
  }

  lemma NextKeepsStrangers(board: Board, root: Address, step: Step, a: Address)
    requires a != root && a !in board.routes && !Votes(board.cur, a) && !Votes(board.pendingAdd, a)
    ensures !Votes(Next(board, root, step).cur, a) && !Votes(Next(board, root, step).pendingAdd, a)
  {}

  /** Whoever is not the root and no route at the start or at any commit of a run, and has not
      voted before it, is not among the voters of any action after it. */
  lemma {:induction false} StrangersNeverVote(board: Board, root: Address, steps: seq<Step>, a: Address)
    requires a != root && !Votes(board.cur, a) && !Votes(board.pendingAdd, a)
    requires forall routes :: routes in RouteSets(board.routes, steps) ==> a !in routes
    ensures var after := AfterAll(board, root, steps);
            !Votes(after.cur, a) && !Votes(after.pendingAdd, a) && after.routes in RouteSets(board.routes, steps)
  {
    if steps != [] {
      StrangersNeverVote(board, root, steps[..|steps| - 1], a);
      NextKeepsStrangers(AfterAll(board, root, steps[..|steps| - 1]), root, steps[|steps| - 1], a);
    }
  }

  /** Every logged vote was there before or was cast with one of the sets as routes. */
  ghost predicate LoggedFrom(log: VoteLog, before: VoteLog, sets: set<set<Address>>) {
    forall vote {:trigger log[vote]} :: vote in log ==>
      (vote in before && log[vote] == before[vote]) || log[vote] in sets
  }

  /** Any run does what its steps say, in order, and keeps every action's voters distinct and
      entitled, and the keys of actions that are not about new stakers apart. */
  method Run(s: ActionsState, steps: seq<Step>)
    requires s.Valid()
    modifies s
    ensures s.Valid() && s.Contents() == AfterAll(old(s.Contents()), s.root, steps)
    ensures LoggedFrom(s.log, old(s.log), RouteSets(old(s.routes), steps))
    ensures forall id :: id in s.cur ==> Distinct(s.cur[id].voters)
    ensures forall i, j :: i in s.cur && j in s.cur && i != j
                           && s.cur[i].actionType != AddStaker && s.cur[j].actionType != AddStaker ==>
              s.cur[i].key != s.cur[j].key
  {
    for i := 0 to |steps|
      invariant s.Valid() && s.Contents() == AfterAll(old(s.Contents()), s.root, steps[..i])
      invariant s.routes in RouteSets(old(s.routes), steps[..i])
      invariant LoggedFrom(s.log, old(s.log), RouteSets(old(s.routes), steps[..i]))
    {
      assert steps[..i + 1][..i] == steps[..i];
      Take(s, steps[i]);
    }
    assert steps[..|steps|] == steps;
    forall i, j | i in s.cur && j in s.cur && i != j
                  && s.cur[i].actionType != AddStaker && s.cur[j].actionType != AddStaker
      ensures s.cur[i].key != s.cur[j].key
    {
      assert KeysDiffer(s.cur[i], s.cur[j]);
    }
  }

  method Take(s: ActionsState, step: Step)
    requires s.Valid()
    modifies s
    ensures s.Valid() && s.Contents() == Next(old(s.Contents()), s.root, step)
    ensures LoggedFrom(s.log, old(s.log), {old(s.routes)})
  {
    match step
    case RegisterStep(sender, id, key, blockTime, txId, checked) =>
      var _ := s.Register(sender, id, key, blockTime, txId, checked);
    case ProposeStep(sender, id, actionType, key, newValue, blockTime, txId, now, checked) =>
      var _ := s.Propose(sender, id, actionType, key, newValue, blockTime, txId, now, checked);
    case VoteStep(ballot, id) =>
      var _ := s.Vote(ballot, id);
    case StakedStep(id) =>
      s.DelAction(id);
    case CommitStep(routes) =>
      s.CacheActionsCommit();
      s.routes := routes;
    case AbortStep =>
      s.CacheActionsAbort();
  }

  /** Every new staker is proposed once, among the committed actions and what comes of them. */
  ghost predicate StakersOnce(board: Board) {
    StakersDiffer(board.cur) && StakersDiffer(board.Outcome())
  }

  /** The step proposes no staker that another action proposes already. */
  predicate NewStaker(board: Board, root: Address, step: Step) {
    match step
    case RegisterStep(_, id, key, _, _, checked) => checked ==> !StakerIn(board.Outcome() - {id}, key)
    case VoteStep(ballot, id) =>
      board.Accepts(root, ballot, id) && board.cur[id].actionType == AddStaker ==>
        !StakerIn(board.Outcome() - {id}, board.cur[id].key)
    case _ => true
  }

  /** Exactly such a step leaves every new staker proposed once. */
  lemma NextKeepsStakers(board: Board, root: Address, step: Step)
    requires StakersOnce(board)
    ensures StakersOnce(Next(board, root, step)) <==> NewStaker(board, root, step)
  {
    var next := Next(board, root, step);
    match step
    case RegisterStep(sender, id, key, blockTime, txId, checked) =>
      if checked {
        StagedOutcome(board, id, next.pendingAdd[id]);
      }
    case ProposeStep(sender, id, actionType, key, newValue, blockTime, txId, now, checked) =>
      if checked && actionType != AddStaker && Unused(board, id, key) {
        StagedOutcome(board, id, next.pendingAdd[id]);
      }
    case VoteStep(ballot, id) =>
      if board.Accepts(root, ballot, id) {
        StagedOutcome(board, id, next.pendingAdd[id]);
      }
    case StakedStep(id) =>
      assert next.Outcome() == board.Outcome() - {id};
    case CommitStep(routes) =>
      assert next.Outcome() == board.Outcome();
    case AbortStep =>
      assert next.Outcome() == board.cur;
  }

  lemma StagedOutcome(board: Board, id: ActionId, action: ActionMeta)
    requires StakersDiffer(board.Outcome())
    ensures board.Staged(id, action).Outcome() == board.Outcome()[id := action]
    ensures StakersDiffer(board.Staged(id, action).Outcome()) <==>
            (action.actionType == AddStaker ==> !StakerIn(board.Outcome() - {id}, action.key))
  {
    assert board.Staged(id, action).Outcome() == board.Outcome()[id := action];
    PutKeepsStakers(board.Outcome(), id, action);
  }

  /** Every new staker is proposed once throughout the run. */
  ghost predicate AlwaysOnce(board: Board, root: Address, steps: seq<Step>) {
    && StakersOnce(AfterAll(board, root, steps))
    && (steps != [] ==> AlwaysOnce(board, root, steps[..|steps| - 1]))
  }

  predicate AlwaysNew(board: Board, root: Address, steps: seq<Step>) {
    steps != [] ==>
      var n := |steps| - 1;
      NewStaker(AfterAll(board, root, steps[..n]), root, steps[n]) && AlwaysNew(board, root, steps[..n])
  }

  /** Throughout a run every new staker is proposed once if and only if no step proposes one
      that is proposed under another id. */
  lemma {:induction false} RunKeepsStakers(board: Board, root: Address, steps: seq<Step>)
    requires StakersOnce(board)
    ensures AlwaysOnce(board, root, steps) <==> AlwaysNew(board, root, steps)
    decreases |steps|
  {
    if steps != [] {
      var n := |steps| - 1;
      RunKeepsStakers(board, root, steps[..n]);
      var before := AfterAll(board, root, steps[..n]);
      if StakersOnce(before) {
        NextKeepsStakers(before, root, steps[n]);
      }
    }
  }

  /** A staker registered under two ids: the order of the map decides the answer. */
  method RegisterTwice(root: Address, other: Address, key: string) returns (s: ActionsState)
    requires other != root
    ensures s.Valid() && 1 in s.cur && 2 in s.cur && s.cur[1].key == key == s.cur[2].key
    ensures s.cur[1].actionType == AddStaker == s.cur[2].actionType
    ensures s.MayAnswer(AddStaker, key, 0, true) && s.MayAnswer(AddStaker, key, 0, false)
  {
    s := new ActionsState(root, {});
    var _ := s.Register(root, 1, key, 0, 1, true);
    var _ := s.Register(other, 2, key, 0, 2, true);
    s.CacheActionsCommit();
    assert s.Confirmed(s.cur[1], 0) && !s.Confirmed(s.cur[2], 0);
  }
}
