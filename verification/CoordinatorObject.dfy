/** The coordinator as objects: a group whose methods update its fields, and a coordinator that
    keeps a map of groups over the metadata store (pkg/broker/coordinator.go). Each method is the
    value-level definition applied to the object's state. */
module CoordinatorObject {
  import opened Bytes
  import opened Durations
  import opened Wrappers
  import opened Sorting
  import opened Assignment
  import opened AssignmentLoops
  import opened Subscriptions
  import opened GroupRecords
  import opened GroupDeletion
  import G = Groups
  import M = GroupMachine

  class GroupState {
    var protocolName: Name
    var protocolType: Name
    var generationId: int
    var leaderId: Name
    var phase: G.Phase
    var members: map<Name, G.Member>
    var assignments: map<Name, seq<AssignmentTopic>>
    var rebalanceTimeout: int
    var rebalanceDeadline: Option<int>

    function View(): G.Group
      reads this
    {
      G.Group(protocolName, protocolType, generationId, leaderId, phase, members, assignments, rebalanceTimeout,
              rebalanceDeadline)
    }

    constructor ()
      ensures View() == G.NEW_GROUP
    {
      protocolName, protocolType, generationId, leaderId := [], [], 0, [];
      phase, members, assignments := G.Empty, map[], map[];
      rebalanceTimeout, rebalanceDeadline := G.DEFAULT_TIMEOUT, None;
    }

    constructor FromRecord(r: GroupRecord, now: int)
      ensures View() == RestoreGroupState(r, now)
    {
      protocolName, protocolType, generationId, leaderId := r.protocol, r.protocolType, r.generation, r.leader;
      phase := ParsePhase(r.state);
      members := map m | m in r.members ::
        G.Member(r.members[m].subscriptions, FromMillis(r.members[m].sessionTimeoutMs), r.members[m].heartbeatAt,
                 r.generation);
      assignments := map m | m in r.members && r.members[m].assignments != [] :: r.members[m].assignments;
      rebalanceTimeout := FromMillis(r.rebalanceTimeoutMs);
      rebalanceDeadline :=
        if ParsePhase(r.state).PreparingRebalance? || ParsePhase(r.state).CompletingRebalance?
        then Some(now + FromMillis(r.rebalanceTimeoutMs)) else None;
      new;
      EnsureLeader();
    }

    method EnsureLeader()
      modifies this
      ensures View() == G.EnsureLeader(old(View()))
    {
      if leaderId != [] && leaderId in members { return; }
      if members == map[] { leaderId := []; return; }
      var ids := SortNames(members.Keys);
      G.FirstOf(members.Keys);
      leaderId := ids[0];
    }

    method StartRebalance(timeout: int, now: int)
      modifies this
      ensures View() == G.StartRebalance(old(View()), timeout, now)
    {
      hide G.EnsureLeader, G.WithJoinGenerations;
      if members == map[] {
        phase, assignments, rebalanceDeadline, leaderId := G.Empty, map[], None, [];
        return;
      }
      if timeout > 0 {
        rebalanceTimeout := timeout;
      } else if rebalanceTimeout == 0 {
        rebalanceTimeout := G.DEFAULT_TIMEOUT;
      }
      generationId := generationId + 1;
      phase := G.PreparingRebalance;
      assignments := map[];
      rebalanceDeadline := Some(now + rebalanceTimeout);
      EnsureLeader();
      ClearJoins();
    }

    /** Nobody has joined the new generation yet. */
    method ClearJoins()
      modifies this`members
      ensures members == G.WithJoinGenerations(old(members), 0)
    {
      ghost var before := members;
      var rest := members.Keys;
      while rest != {}
        invariant rest <= before.Keys && members.Keys == before.Keys
        invariant forall m ::
                    m in before ==> members[m] == if m in rest then before[m] else before[m].(joinGeneration := 0)
        decreases rest
      {
        var m :| m in rest;
        members := members[m := members[m].(joinGeneration := 0)];
        rest := rest - {m};
      }
    }

    method BumpRebalanceDeadline(timeout: int, now: int)
      modifies this
      ensures View() == G.BumpRebalanceDeadline(old(View()), timeout, now)
    {
      if timeout > 0 { rebalanceTimeout := timeout; }
      if rebalanceTimeout == 0 { rebalanceTimeout := G.DEFAULT_TIMEOUT; }
      rebalanceDeadline := Some(now + rebalanceTimeout);
    }

    method CompleteIfReady() returns (ready: bool)
      modifies this
      ensures (View(), ready) == G.CompleteIfReady(old(View()))
    {
      if members == map[] { return false; }
      var rest := members.Keys;
      while rest != {}
        invariant rest <= members.Keys && View() == old(View())
        invariant forall m :: m in members && m !in rest ==> members[m].joinGeneration == generationId
        decreases rest
      {
        var m :| m in rest;
        if members[m].joinGeneration != generationId { return false; }
        rest := rest - {m};
      }
      phase, rebalanceDeadline := G.CompletingRebalance, None;
      return true;
    }

    method MarkStable()
      modifies this
      ensures View() == G.MarkStable(old(View()))
    {
      if phase != G.Dead { phase, rebalanceDeadline := G.Stable, None; }
    }

    /** The members in `gone` are deleted one by one, wherever the map walk meets them. */
    method Remove(gone: set<Name>) returns (changed: bool)
      requires gone <= members.Keys
      modifies this
      ensures View() == G.Removed(old(View()), gone)
      ensures changed == (gone != {})
    {
      changed := false;
      ghost var before := View();
      var rest := members.Keys;
      ghost var done: set<Name> := {};
      G.KeepNext(members, {}, []);
      G.KeepNext(assignments, {}, []);
      while rest != {}
        invariant rest <= before.members.Keys && done == (before.members.Keys - rest) * gone
        invariant View() == before.(members := G.Keep(before.members, done),
                                    assignments := G.Keep(before.assignments, done),
                                    leader := if before.leader in done then [] else before.leader)
        invariant changed == (done != {})
        decreases rest
      {
        hide G.Keep;
        var m :| m in rest;
        if m in gone {
          G.KeepNext(before.members, done, m);
          G.KeepNext(before.assignments, done, m);
          members, assignments := members - {m}, assignments - {m};
          if leaderId == m { leaderId := []; }
          changed := true;
          done := done + {m};
        }
        rest := rest - {m};
      }
      assert done == gone;
      if members == map[] { phase := G.Empty; }
    }

    method RemoveExpiredMembers(now: int) returns (changed: bool)
      modifies this
      ensures (View(), changed) == G.RemoveExpiredMembers(old(View()), now)
    {
      changed := Remove(set m | m in members && G.Expired(members[m], now));
    }

    method DropRebalanceLaggers(now: int) returns (changed: bool)
      modifies this
      ensures (View(), changed) == G.DropRebalanceLaggers(old(View()), now)
    {
      if rebalanceDeadline.None? || now < rebalanceDeadline.value { return false; }
      changed := Remove(set m | m in members && members[m].joinGeneration != generationId);
    }

    /** A join enters the member, under its own id or the new one. */
    method Enter(req: M.JoinRequest, freshId: Name, now: int) returns (id: Name, known: bool)
      modifies this
      ensures View() == M.Entered(old(View()), req, freshId, now)
      ensures id == M.JoinId(old(View()), req, freshId) && known == M.Known(old(View()), req)
    {
      protocolType := req.protocolType;
      if |req.protocols| > 0 { protocolName := req.protocols[0].name; }
      id, known := req.memberId, req.memberId in members;
      var member := if known then members[id] else G.Member([], 0, None, 0);
      if id == [] || !known {
        id, known, member := freshId, false, G.Member([], 0, None, 0);
      }
      if req.sessionTimeoutMs > 0 {
        member := member.(sessionTimeout := req.sessionTimeoutMs * MILLISECOND);
      } else if member.sessionTimeout == 0 {
        member := member.(sessionTimeout := G.DEFAULT_TIMEOUT);
      }
      var topics := ParseSubscriptionTopics(req.protocols);
      members := members[id := member.(topics := topics, lastHeartbeat := Some(now))];
    }

    method Rebalance(id: Name, known: bool, timeout: int, now: int)
      modifies this
      ensures View() == M.Rebalanced(old(View()), id, known, timeout, now)
    {
      hide G.StartRebalance, G.BumpRebalanceDeadline;
      if |members| == 1 && phase == G.Empty {
        leaderId := id;
        StartRebalance(timeout, now);
      } else if phase == G.Stable && !known {
        StartRebalance(timeout, now);
      } else if phase == G.Empty {
        StartRebalance(timeout, now);
      } else if phase == G.PreparingRebalance || phase == G.CompletingRebalance {
        BumpRebalanceDeadline(timeout, now);
      }
    }

    method Join(req: M.JoinRequest, freshId: Name, now: int) returns (id: Name, ready: bool)
      modifies this
      ensures (View(), ready) == M.Joined(old(View()), req, freshId, now)
      ensures id == M.JoinId(old(View()), req, freshId)
    {
      hide M.Entered, M.Rebalanced, G.EnsureLeader, G.CompleteIfReady;
      var known;
      id, known := Enter(req, freshId, now);
      Rebalance(id, known, M.JoinTimeout(req), now);
      if id !in members { return id, false; }
      members := members[id := members[id].(joinGeneration := generationId)];
      if leaderId == [] { EnsureLeader(); }
      ready := phase == G.Stable || phase == G.CompletingRebalance;
      if !ready { ready := CompleteIfReady(); }
    }

    /** What a leader needs to assign: every member's subscription, in id order. */
    method EncodeMemberSubscriptions() returns (r: seq<(Name, bytes)>)
      ensures r == M.MemberSubscriptions(View())
    {
      hide EncodeSubscription, Sorted;
      var ids := SortNames(members.Keys);
      r := [];
      for i := 0 to |ids|
        invariant |r| == i
        invariant forall k :: 0 <= k < i ==> r[k] == M.MemberSubscription(View(), ids[k])
      {
        assert ids[i] in ids;
        var metadata := WriteSubscription(members[ids[i]].topics);
        r := r + [(ids[i], metadata)];
      }
    }

    method Sync(memberId: Name, generation: int, topics: map<Name, seq<int>>) returns (code: M.Code)
      modifies this
      ensures (code, View()) == M.SyncOutcome(old(View()), memberId, generation, topics)
    {
      hide Assigned;
      if generation != generationId { return M.ILLEGAL_GENERATION; }
      if memberId !in members { return M.UNKNOWN_MEMBER_ID; }
      if phase == G.PreparingRebalance { return M.REBALANCE_IN_PROGRESS; }
      if phase == G.CompletingRebalance && assignments == map[] {
        if memberId != leaderId { return M.REBALANCE_IN_PROGRESS; }
        ghost var before := View();
        assignments := AssignPartitions(map m | m in members :: members[m].topics, topics);
        assert View() == before.(assignments := Assigned(G.SubscriptionsOf(before), topics));
        MarkStable();
      }
      if (memberId !in assignments || assignments[memberId] == []) && phase != G.Stable {
        return M.REBALANCE_IN_PROGRESS;
      }
      return M.NONE;
    }

    /** Takes one member out; the caller drops the group when nobody is left. */
    method Leave(memberId: Name, now: int)
      requires memberId in members
      modifies this
      ensures M.Left(old(View()), memberId, now) == if members == map[] then None else Some(View())
    {
      hide G.StartRebalance;
      ghost var before := View();
      G.KeepNext(members, {}, memberId);
      G.KeepNext(assignments, {}, memberId);
      assert {} + {memberId} == {memberId};
      members, assignments := members - {memberId}, assignments - {memberId};
      if members == map[] { return; }
      if leaderId == memberId { leaderId := []; }
      G.StartRebalanceNames(View(), 0, now);
      StartRebalance(0, now);
    }

    /** One cleanup pass; the caller drops the group when nobody is left. */
    method Sweep(now: int) returns (changed: bool)
      modifies this
      ensures M.Swept(old(View()), now) == (if members == map[] then None else Some(View()), changed)
      ensures members == map[] ==> changed
    {
      hide G.StartRebalance, G.RemoveExpiredMembers, G.DropRebalanceLaggers;
      var removed := RemoveExpiredMembers(now);
      var lost := DropRebalanceLaggers(now);
      if members == map[] { return true; }
      if removed || lost {
        G.StartRebalanceNames(View(), 0, now);
        StartRebalance(0, now);
      }
      return removed || lost;
    }
  }

  /** The coordinator: groups in memory, records in the metadata store. */
  class GroupCoordinator {
    const cloning: bool
    var groups: map<Name, GroupState>
    var store: map<Name, GroupRecord>

    /** Every group id has its own group object. */
    ghost predicate Valid()
      reads this
    {
      forall a, b :: a in groups && b in groups && groups[a] == groups[b] ==> a == b
    }

    /** One group's slice of the coordinator. */
    ghost function CellOf(id: Name): M.Cell
      reads this, groups.Values
    {
      M.Cell(if id in groups then Some(groups[id].View()) else None,
             if id in store then Some(store[id]) else None)
    }

    constructor (cloning: bool)
      ensures Valid() && this.cloning == cloning && forall id :: CellOf(id) == M.Cell(None, None)
    {
      this.cloning := cloning;
      groups, store := map[], map[];
    }

    /** Brings the group into memory if the store has it. */
    method LoadGroupIfMissing(id: Name, now: int, fetchOk: bool) returns (r: Result<Option<GroupState>>)
      requires Valid()
      modifies this`groups
      ensures Valid()
      ensures var found := M.Loaded(old(CellOf(id)), now, M.Io(fetchOk, Done, cloning));
              if found.Err? then r.Err? && groups == old(groups)
              else r.Ok? && (r.value.Some? <==> found.value.Some?)
                   && (r.value.None? ==> groups == old(groups) && id !in groups)
                   && (r.value.Some? ==>
                         && id in groups && groups[id] == r.value.value && r.value.value.View() == found.value.value
                         && groups == old(groups)[id := r.value.value])
      ensures r.Ok? && r.value.Some?
              ==> if id in old(groups) then r.value.value in old(groups.Values) else fresh(r.value.value)
    {
      if id in groups {
        assert groups == groups[id := groups[id]];
        return Ok(Some(groups[id]));
      }
      if !fetchOk { return Err(Unavailable); }
      if id !in store { return Ok(None); }
      var state := new GroupState.FromRecord(store[id], now);
      groups := groups[id := state];
      return Ok(Some(state));
    }

    /** Writes the group's record, or removes it when there is no group or nobody in it. */
    method PersistGroup(id: Name, state: GroupState?, write: Write) returns (ok: bool)
      modifies this`store
      ensures ok == write.Done?
      ensures forall other ::
                other != id
                ==> (other in store <==> other in old(store)) && (other in store ==> store[other] == old(store)[other])
      ensures var before := if id in old(store) then Some(old(store)[id]) else None;
              var after := M.Persisted(before, if state == null then None else Some(state.View()),
                                       M.Io(true, write, cloning));
              (id in store <==> after.Some?) && (id in store ==> after == Some(store[id]))
    {
      if write.Applied() {
        if state == null || state.members == map[] {
          store := store - {id};
        } else {
          store := store[id := Kept(BuildConsumerGroup(state.View()), cloning)];
        }
      }
      return write.Done?;
    }

    /** The group a join works on, created when neither memory nor the store has it. */
    method EnsureGroup(id: Name, now: int, fetchOk: bool) returns (r: Result<GroupState>)
      requires Valid()
      modifies this`groups
      ensures Valid()
      ensures var found := M.Loaded(old(CellOf(id)), now, M.Io(fetchOk, Done, cloning));
              if found.Err? then r.Err? && groups == old(groups)
              else r.Ok? && r.value.View() == (if found.value.Some? then found.value.value else G.NEW_GROUP)
                   && groups == old(groups)[id := r.value]
      ensures r.Ok? ==> if id in old(groups) then r.value in old(groups.Values) else fresh(r.value)
    {
      hide RestoreGroupState;
      var loaded := LoadGroupIfMissing(id, now, fetchOk);
      if loaded.Err? { return Err(Unavailable); }
      if loaded.value.Some? { return Ok(loaded.value.value); }
      var state := new GroupState();
      groups := groups[id := state];
      return Ok(state);
    }

    /** Changing one group's object leaves every other cell alone. */
    twostate predicate OnlyGroup(id: Name)
      reads this, groups.Values
    {
      forall other :: other != id ==> CellOf(other) == old(CellOf(other))
    }

    /** A join on a group in memory. */
    method JoinHere(id: Name, req: M.JoinRequest, freshId: Name, now: int, write: Write) returns (resp: M.JoinResponse)
      requires Valid() && id in groups
      modifies this`store, groups[id]
      ensures OnlyGroup(id)
      ensures (CellOf(id), Some(resp)) == M.JoinGroup(old(CellOf(id)), req, freshId, now, M.Io(true, write, cloning))
    {
      hide Kept, BuildConsumerGroup, M.Joined, M.JoinId, M.MemberSubscriptions;
      var state := groups[id];
      var memberId, ready := state.Join(req, freshId, now);
      var members := [];
      if ready && memberId == state.leaderId {
        members := state.EncodeMemberSubscriptions();
      }
      var code := if ready then M.NONE else M.REBALANCE_IN_PROGRESS;
      var ok := PersistGroup(id, state, write);
      if !ok { code := M.UNKNOWN_SERVER_ERROR; }
      return M.JoinResponse(code, state.generationId, state.protocolName, state.leaderId, memberId, members);
    }

    method JoinGroup(id: Name, req: M.JoinRequest, freshId: Name, now: int, fetchOk: bool, write: Write)
        returns (resp: Option<M.JoinResponse>)
      requires Valid()
      modifies this, groups.Values
      ensures Valid() && OnlyGroup(id)
      ensures (CellOf(id), resp) == M.JoinGroup(old(CellOf(id)), req, freshId, now, M.Io(fetchOk, write, cloning))
    {
      hide RestoreGroupState, Kept, BuildConsumerGroup, M.Joined, M.JoinId, M.MemberSubscriptions;
      var ensured := EnsureGroup(id, now, fetchOk);
      if ensured.Err? { return None; }
      var response := JoinHere(id, req, freshId, now, write);
      return Some(response);
    }

    /** A sync on a group in memory. */
    method SyncHere(id: Name, memberId: Name, generation: int, topics: map<Name, seq<int>>, now: int, write: Write)
        returns (resp: M.SyncResponse)
      requires Valid() && id in groups
      modifies this`store, groups[id]
      ensures OnlyGroup(id)
      ensures (CellOf(id), Some(resp))
              == M.SyncGroup(old(CellOf(id)), memberId, generation, topics, now, M.Io(true, write, cloning))
    {
      hide Kept, BuildConsumerGroup, M.SyncOutcome, EncodeAssignment;
      var state := groups[id];
      var code := state.Sync(memberId, generation, topics);
      if code != M.NONE { return M.SyncResponse(code, []); }
      var assignment := WriteAssignment(G.AssignmentOf(state.View(), memberId));
      var ok := PersistGroup(id, state, write);
      return M.SyncResponse(if ok then M.NONE else M.UNKNOWN_SERVER_ERROR, assignment);
    }

    method SyncGroup(id: Name, memberId: Name, generation: int, topics: map<Name, seq<int>>, now: int, fetchOk: bool,
                     write: Write)
        returns (resp: Option<M.SyncResponse>)
      requires Valid()
      modifies this, groups.Values
      ensures Valid() && OnlyGroup(id)
      ensures (CellOf(id), resp)
              == M.SyncGroup(old(CellOf(id)), memberId, generation, topics, now, M.Io(fetchOk, write, cloning))
    {
      hide RestoreGroupState, EncodeAssignment, G.AssignmentOf, Kept, BuildConsumerGroup, M.SyncOutcome;
      var loaded := LoadGroupIfMissing(id, now, fetchOk);
      if loaded.Err? { return None; }
      if loaded.value.None? { return Some(M.SyncResponse(M.UNKNOWN_MEMBER_ID, [])); }
      var response := SyncHere(id, memberId, generation, topics, now, write);
      return Some(response);
    }

    /** A heartbeat for a group in memory. */
    method HeartbeatHere(id: Name, memberId: Name, generation: int, now: int, write: Write) returns (code: M.Code)
      requires Valid() && id in groups
      modifies this`store, groups[id]
      ensures OnlyGroup(id)
      ensures (CellOf(id), code) == M.Heartbeat(old(CellOf(id)), memberId, generation, now, M.Io(true, write, cloning))
    {
      hide Kept, BuildConsumerGroup;
      var state := groups[id];
      if memberId !in state.members { return M.UNKNOWN_MEMBER_ID; }
      if generation != state.generationId { return M.ILLEGAL_GENERATION; }
      if state.phase != G.Stable { return M.REBALANCE_IN_PROGRESS; }
      state.members := state.members[memberId := state.members[memberId].(lastHeartbeat := Some(now))];
      var ok := PersistGroup(id, state, write);
      return if ok then M.NONE else M.UNKNOWN_SERVER_ERROR;
    }

    method Heartbeat(id: Name, memberId: Name, generation: int, now: int, fetchOk: bool, write: Write)
      returns (code: M.Code)
      requires Valid()
      modifies this, groups.Values
      ensures Valid() && OnlyGroup(id)
      ensures (CellOf(id), code)
              == M.Heartbeat(old(CellOf(id)), memberId, generation, now, M.Io(fetchOk, write, cloning))
    {
      hide RestoreGroupState, Kept, BuildConsumerGroup;
      var loaded := LoadGroupIfMissing(id, now, fetchOk);
      if loaded.Err? { return M.UNKNOWN_SERVER_ERROR; }
      if loaded.value.None? { return M.UNKNOWN_MEMBER_ID; }
      code := HeartbeatHere(id, memberId, generation, now, write);
    }

    /** A leave by a member of a group in memory. */
    method LeaveHere(id: Name, memberId: Name, now: int, write: Write) returns (code: M.Code)
      requires Valid() && id in groups && memberId in groups[id].members
      modifies this, groups[id]
      ensures Valid() && OnlyGroup(id)
      ensures (CellOf(id), code) == M.LeaveGroup(old(CellOf(id)), memberId, now, M.Io(true, write, cloning))
    {
      hide Kept, BuildConsumerGroup, M.Left;
      var state := groups[id];
      state.Leave(memberId, now);
      var ok;
      if state.members == map[] {
        groups := groups - {id};
        ok := PersistGroup(id, null, write);
      } else {
        ok := PersistGroup(id, state, write);
      }
      return if ok then M.NONE else M.UNKNOWN_SERVER_ERROR;
    }

    method LeaveGroup(id: Name, memberId: Name, now: int, fetchOk: bool, write: Write) returns (code: M.Code)
      requires Valid()
      modifies this, groups.Values
      ensures Valid() && OnlyGroup(id)
      ensures (CellOf(id), code) == M.LeaveGroup(old(CellOf(id)), memberId, now, M.Io(fetchOk, write, cloning))
    {
      hide RestoreGroupState, Kept, BuildConsumerGroup, M.Left;
      var loaded := LoadGroupIfMissing(id, now, fetchOk);
      if loaded.Err? { return M.UNKNOWN_SERVER_ERROR; }
      if loaded.value.None? || memberId !in loaded.value.value.members { return M.UNKNOWN_MEMBER_ID; }
      code := LeaveHere(id, memberId, now, write);
    }

    /** One group's turn in a cleanup pass. */
    method CleanupGroup(id: Name, now: int, write: Write)
      requires Valid() && id in groups
      modifies this, groups[id]
      ensures Valid() && OnlyGroup(id)
      ensures CellOf(id) == M.Cleanup(old(CellOf(id)), now, M.Io(true, write, cloning))
      ensures groups == old(groups) || groups == old(groups) - {id}
    {
      hide Kept, BuildConsumerGroup, M.Swept;
      var state := groups[id];
      var changed := state.Sweep(now);
      if state.members == map[] {
        groups := groups - {id};
        var _ := PersistGroup(id, null, write);
      } else if changed {
        var _ := PersistGroup(id, state, write);
      }
    }

    /** A cleanup pass: every group in memory gets one turn, whatever the order of the walk. */
    method CleanupGroups(now: int, writes: map<Name, Write>)
      requires Valid() && groups.Keys <= writes.Keys
      modifies this, groups.Values
      ensures Valid()
      ensures forall id :: CellOf(id) == if id !in old(groups) then old(CellOf(id))
                                         else M.Cleanup(old(CellOf(id)), now, M.Io(true, writes[id], cloning))
    {
      hide M.Cleanup;
      var rest := groups.Keys;
      while rest != {}
        invariant Valid() && rest <= groups.Keys
        invariant groups.Values <= old(groups.Values)
        invariant forall id :: CellOf(id) == if id !in old(groups) || id in rest then old(CellOf(id))
                                             else M.Cleanup(old(CellOf(id)), now, M.Io(true, writes[id], cloning))
        decreases rest
      {
        var id :| id in rest;
        CleanupGroup(id, now, writes[id]);
        rest := rest - {id};
      }
    }

    /** One group's turn in a deletion request. */
    method DeleteGroup(id: Name, turn: Turn) returns (code: M.Code)
      requires Valid()
      modifies this
      ensures Valid() && OnlyGroup(id) && groups.Values <= old(groups.Values)
      ensures CellOf(id) == Deleted(old(CellOf(id)), turn)
      ensures code == M.NONE <==> turn.fetchOk && old(CellOf(id)).rec.Some? && turn.write.Done?
      ensures code == M.GROUP_ID_NOT_FOUND <==> turn.fetchOk && old(CellOf(id)).rec.None?
      ensures code in {M.NONE, M.GROUP_ID_NOT_FOUND, M.UNKNOWN_SERVER_ERROR}
    {
      hide Kept, BuildConsumerGroup;
      if !turn.fetchOk { return M.UNKNOWN_SERVER_ERROR; }
      if id !in store {
        groups := groups - {id};
        return M.GROUP_ID_NOT_FOUND;
      }
      var ok := PersistGroup(id, null, turn.write);
      if !ok { return M.UNKNOWN_SERVER_ERROR; }
      groups := groups - {id};
      return M.NONE;
    }

    /** A deletion request takes its groups one by one; DeletionMeans says what that comes to. */
    method DeleteGroups(ids: seq<Name>, turns: seq<Turn>) returns (codes: seq<M.Code>)
      requires Valid() && |turns| == |ids|
      modifies this
      ensures Valid() && |codes| == |ids|
      ensures forall id :: CellOf(id) == After(old(CellOf(id)), id, ids, turns, |ids|)
      ensures forall i :: 0 <= i < |ids| ==> codes[i] == Answer(old(CellOf(ids[i])), ids, turns, i)
    {
      hide M.DeleteGroup, Blank;
      codes := [];
      for k := 0 to |ids|
        invariant Valid() && |codes| == k && groups.Values <= old(groups.Values)
        invariant forall id :: CellOf(id) == After(old(CellOf(id)), id, ids, turns, k)
        invariant forall i :: 0 <= i < k ==> codes[i] == Answer(old(CellOf(ids[i])), ids, turns, i)
      {
        var code;
        if Blank(ids[k]) {
          code := M.INVALID_REQUEST;
        } else {
          code := DeleteGroup(ids[k], turns[k]);
        }
        codes := codes + [code];
      }
    }
  }
}
