/** What the coordinator's answers mean, in every state of every run: who the caller is, what the
    group is, what the bytes say, and what is on record (pkg/broker/coordinator.go). */
module GroupAnswers {
  import opened Bytes
  import opened Wrappers
  import opened Sorting
  import opened Assignment
  import opened Subscriptions
  import opened Groups
  import opened GroupRecords
  import opened GroupMachine
  import opened GroupInvariant
  import opened GroupRuns
  import opened GroupTheorems
  import opened GroupLives
  import opened GroupBarrier

  /** A member of the group: in memory if it is there, else on record. */
  predicate IsMember(c: Cell, m: Name) {
    if c.mem.Some? then m in c.mem.value.members else c.rec.Some? && m in c.rec.value.members
  }

  ghost function IoOf(w: World, a: Action): Io
    requires !a.Sweep? && !a.Crash?
  {
    Io(a.fetchOk, a.write, w.cloning)
  }

  lemma BaseMembers(w: World, now: int, io: Io, m: Name)
    requires Inv(w) && io.cloning == w.cloning && Loaded(w.cell, now, io).Ok?
    ensures m in BaseGroup(w, now, io).members <==> IsMember(w.cell, m)
  {
    hide Inv, Loaded, BaseGroup;
    Loads(w, now, io);
  }

  // ------------------------------------------------------------------------- JoinGroup

  /** The list a leader gets: every member once, in id order, with metadata that reads back as what the
      member subscribes to. */
  ghost predicate ListsMembers(g: Group, l: seq<(Name, bytes)>) {
    && (forall i, j :: 0 <= i < j < |l| ==> Less(l[i].0, l[j].0))
    && (forall m :: m in g.members <==> exists i :: 0 <= i < |l| && l[i].0 == m)
    && (forall i, p :: 0 <= i < |l| && l[i].0 in g.members ==>
          ParsedTopics([Protocol(p, l[i].1)]) == g.members[l[i].0].topics)
  }

  /** What the answer to a join says. */
  ghost predicate JoinSays(c: Cell, g: Group, a: Action, r: JoinResponse)
    requires a.Join?
  {
    && r.memberId == (if a.req.memberId != [] && IsMember(c, a.req.memberId) then a.req.memberId else a.freshId)
    && r.leader == g.leader && r.generation == g.generation && r.protocolName == g.protocolName
    && r.code == (if !a.write.Done? then UNKNOWN_SERVER_ERROR
                  else if g.phase.PreparingRebalance? then REBALANCE_IN_PROGRESS else NONE)
    && (r.members != [] <==> !g.phase.PreparingRebalance? && r.memberId == r.leader)
    && (r.members != [] ==> ListsMembers(g, r.members))
  }

  /** What the group is after a join of member `m` to `before`: the member counts as joined, with what it
      asked for, and the deadline of a rebalance is counted anew. */
  ghost predicate JoinShows(before: Group, g: Group, a: Action, m: Name)
    requires a.Join?
  {
    && IsJoined(g, m) && g.members[m].topics == ParsedTopics(a.req.protocols)
    && g.members[m].lastHeartbeat == Some(a.now)
    && g.members[m].sessionTimeout == (if a.req.sessionTimeoutMs > 0 then a.req.sessionTimeoutMs * 1_000_000
                                       else KnownTimeout(before, m))
    && g.protocolName == (if a.req.protocols != [] then a.req.protocols[0].name else before.protocolName)
    && g.protocolType == a.req.protocolType
    && g.rebalanceDeadline == if g.phase.Stable? then before.rebalanceDeadline
                              else DeadlineAfter(before, g, a.req, a.now)
  }

  /** The rebalance timeout a request asks for, or thirty seconds. */
  function AskedTimeout(req: JoinRequest): int {
    if req.rebalanceTimeoutMs > 0 then req.rebalanceTimeoutMs * 1_000_000 else 30_000_000_000
  }

  /** The deadline after a join that left the group in `g'`: none when the rebalance has just completed,
      and otherwise counted anew. */
  function DeadlineAfter(g: Group, g': Group, req: JoinRequest, now: int): Option<int> {
    if g'.phase.CompletingRebalance? && !g.phase.CompletingRebalance? then None else Some(now + AskedTimeout(req))
  }

  /** Every join of every run is answered so about the group in memory afterwards, unless the group has
      to be loaded and that fails. */
  lemma JoinAnswer(cloning: bool, actions: seq<Action>, states: seq<World>, i: nat)
    requires IsRun(cloning, actions, states) && i < |actions| && actions[i].Join?
    ensures var w, a := states[i], actions[i];
            var resp := JoinGroup(w.cell, a.req, a.freshId, a.now, IoOf(w, a)).1;
            && (resp.None? <==> w.cell.mem.None? && !a.fetchOk)
            && (resp.Some? ==>
                  && states[i + 1].cell.mem.Some? && JoinSays(w.cell, states[i + 1].cell.mem.value, a, resp.value)
                  && JoinShows(BaseGroup(w, a.now, IoOf(w, a)), states[i + 1].cell.mem.value, a, resp.value.memberId))
  {
    hide Inv, GroupOk, Joined, Persisted, MemberSubscriptions, JoinId, ListsMembers, RestoreGroupState, JoinShows,
         BaseGroup;
    RunKeeps(cloning, actions, states, i);
    var w, a := states[i], actions[i];
    var io := IoOf(w, a);
    if Loaded(w.cell, a.now, io).Ok? {
      var g := BaseGroup(w, a.now, io);
      BaseOk(w, a.now, io);
      BaseIs(w, a.now, io);
      LegalJoin(w, a);
      BaseMembers(w, a.now, io, a.req.memberId);
      JoinIdIs(g, a.req, a.freshId);
      JoinOk(g, a.req, a.freshId, a.now);
      JoinEffect(g, a);
      MembersListed(Joined(g, a.req, a.freshId, a.now).0);
    }
  }

  lemma BaseIs(w: World, now: int, io: Io)
    requires Loaded(w.cell, now, io).Ok?
    ensures BaseGroup(w, now, io) == var found := Loaded(w.cell, now, io).value;
                                     if found.Some? then found.value else NEW_GROUP
  {
    hide Loaded;
  }

  lemma LegalJoin(w: World, a: Action)
    requires a.Join? && Legal(w, a)
    ensures IsInt32(a.req.sessionTimeoutMs) && IsInt32(a.req.rebalanceTimeoutMs) && a.freshId != []
    ensures a.freshId !in BaseGroup(w, a.now, IoOf(w, a)).members
  {
    hide BaseGroup;
  }

  lemma JoinEffect(g: Group, a: Action)
    requires a.Join? && Startable(g) && a.freshId != [] && a.freshId !in g.members
    requires IsInt32(a.req.sessionTimeoutMs) && IsInt32(a.req.rebalanceTimeoutMs)
    ensures JoinShows(g, Joined(g, a.req, a.freshId, a.now).0, a, JoinId(g, a.req, a.freshId))
  {
    hide GroupOk, Joined, JoinId, Startable, ParsedTopics, KnownTimeout, DeadlineAfter, Preserves, JoinsOnly, Evolves;
    JoinOk(g, a.req, a.freshId, a.now);
    JoinPreserves(g, a.req, a.freshId, a.now);
    JoinDeadline(g, a.req, a.freshId, a.now);
  }

  lemma JoinIdIs(g: Group, req: JoinRequest, freshId: Name)
    ensures JoinId(g, req, freshId) == if req.memberId != [] && req.memberId in g.members then req.memberId else freshId
  {
  }

  lemma MembersListed(g: Group)
    requires GroupOk(g)
    ensures ListsMembers(g, MemberSubscriptions(g)) && MemberSubscriptions(g) != []
  {
    hide EncodeSubscription, ParsedTopics, Sorted, WholeMillis, Exclusive, AllJoined;
    var l, ids := MemberSubscriptions(g), Sorted(g.members.Keys);
    FirstOf(g.members.Keys);
    forall i, p | 0 <= i < |l| && l[i].0 in g.members
      ensures ParsedTopics([Protocol(p, l[i].1)]) == g.members[l[i].0].topics
    {
      SubscriptionRoundTrip(p, g.members[l[i].0].topics);
    }
    forall m ensures m in g.members <==> exists i :: 0 <= i < |l| && l[i].0 == m {
      if m in g.members {
        assert m in ids;
        var i :| 0 <= i < |ids| && ids[i] == m;
        assert l[i].0 == m;
      }
      if i :| 0 <= i < |l| && l[i].0 == m { assert ids[i] in ids; }
    }
  }

  lemma JoinDeadline(g: Group, req: JoinRequest, freshId: Name, now: int)
    requires Startable(g) && freshId != [] && freshId !in g.members
    ensures var g' := Joined(g, req, freshId, now).0;
            g'.rebalanceDeadline == if g'.phase.Stable? then g.rebalanceDeadline else DeadlineAfter(g, g', req, now)
  {
    hide Entered, Rebalanced, Joined, JoinId, Known, JoinTimeout, GroupOk;
    TimeoutIs(req);
    JoinRebalances(g, req, freshId, now);
    EnteredPhase(g, req, freshId, now);
    GroupPhases(g);
    var e := Entered(g, req, freshId, now);
    var id := JoinId(g, req, freshId);
    RebalancedDeadline(e, id, Known(g, req), JoinTimeout(req), now);
    JoinedDeadline(g, req, freshId, now, Rebalanced(e, id, Known(g, req), JoinTimeout(req), now));
  }

  lemma EnteredPhase(g: Group, req: JoinRequest, freshId: Name, now: int)
    ensures Entered(g, req, freshId, now).phase == g.phase
    ensures Entered(g, req, freshId, now).rebalanceDeadline == g.rebalanceDeadline
  {
  }

  lemma TimeoutIs(req: JoinRequest)
    ensures JoinTimeout(req) > 0
    ensures JoinTimeout(req) == AskedTimeout(req)
  {
  }

  lemma JoinRebalances(g: Group, req: JoinRequest, freshId: Name, now: int)
    requires Startable(g) && freshId != [] && freshId !in g.members
    ensures var e := Entered(g, req, freshId, now);
            var id := JoinId(g, req, freshId);
            var r := Rebalanced(e, id, Known(g, req), JoinTimeout(req), now);
            id in e.members && id in r.members && r.leader != []
  {
    EnteredMembers(g, req, freshId, now);
    StartableLeader(g);
    hide Entered, GroupOk, Startable, Rebalanced, ParsedTopics, JoinTimeout;
    var e := Entered(g, req, freshId, now);
    var id := JoinId(g, req, freshId);
    if g == NEW_GROUP { assert e.members.Keys == {id} && |e.members| == 1; }
    RebalancedShape(e, id, Known(g, req), JoinTimeout(req), now);
  }

  lemma RebalancedDeadline(e: Group, id: Name, known: bool, timeout: int, now: int)
    requires id in e.members && timeout > 0 && !e.phase.Dead?
    ensures var r := Rebalanced(e, id, known, timeout, now);
            && (r.phase.PreparingRebalance? || r.phase.CompletingRebalance? || (r.phase.Stable? && e.phase.Stable?))
            && (r.phase.CompletingRebalance? <==> e.phase.CompletingRebalance?)
            && r.rebalanceDeadline == if r.phase.Stable? then e.rebalanceDeadline else Some(now + timeout)
  {
    hide EnsureLeader;
  }

  /** Completing is the only thing a join does to the phase and the deadline after that. */
  lemma JoinedDeadline(g: Group, req: JoinRequest, freshId: Name, now: int, r: Group)
    requires r == Rebalanced(Entered(g, req, freshId, now), JoinId(g, req, freshId), Known(g, req), JoinTimeout(req),
                             now)
    requires JoinId(g, req, freshId) in r.members && r.leader != [] && !r.phase.Empty? && !r.phase.Dead?
    ensures var g' := Joined(g, req, freshId, now).0;
            || (g'.phase == r.phase && g'.rebalanceDeadline == r.rebalanceDeadline)
            || (g'.phase.CompletingRebalance? && r.phase.PreparingRebalance? && g'.rebalanceDeadline.None?)
  {
    hide Rebalanced, Entered, JoinTimeout, EnsureLeader, AllJoined;
  }

  /** A caller told NONE can go on: its id and generation are accepted by the sync and the heartbeat
      that follow. */
  lemma AnsweredJoinAccepted(cloning: bool, actions: seq<Action>, states: seq<World>, i: nat,
                             topics: map<Name, seq<int>>, now: int, io: Io)
    requires IsRun(cloning, actions, states) && i < |actions| && actions[i].Join?
    requires JoinGroup(states[i].cell, actions[i].req, actions[i].freshId, actions[i].now,
                       IoOf(states[i], actions[i])).1.Some?
    ensures var r := JoinGroup(states[i].cell, actions[i].req, actions[i].freshId, actions[i].now,
                               IoOf(states[i], actions[i])).1.value;
            var sync := SyncGroup(states[i + 1].cell, r.memberId, r.generation, topics, now, io).1;
            && sync.Some? && sync.value.code != UNKNOWN_MEMBER_ID && sync.value.code != ILLEGAL_GENERATION
            && (r.code == NONE && r.memberId == r.leader && io.write.Done? ==> sync.value.code == NONE)
            && Heartbeat(states[i + 1].cell, r.memberId, r.generation, now, io).1 != UNKNOWN_MEMBER_ID
            && Heartbeat(states[i + 1].cell, r.memberId, r.generation, now, io).1 != ILLEGAL_GENERATION
  {
    hide Inv, JoinGroup, Step, Legal, ListsMembers, Assigned, EncodeAssignment, Persisted, ParsedTopics;
    JoinAnswer(cloning, actions, states, i);
    RunKeeps(cloning, actions, states, i + 1);
    InMemoryOk(states[i + 1]);
    GroupPhases(states[i + 1].cell.mem.value);
    if states[i + 1].cell.mem.value.phase.CompletingRebalance? { CompletingUnassigned(states[i + 1].cell.mem.value); }
  }

  // ------------------------------------------------------------------------- SyncGroup

  /** What the answer to a sync says. The bytes are an assignment in the consumer protocol's form, and
      name exactly what the member holds. */
  ghost predicate SyncAnswered(g: Group, a: Action, r: SyncResponse)
    requires a.Sync?
  {
    && (r.code == ILLEGAL_GENERATION <==> a.generation != g.generation)
    && (r.code == UNKNOWN_MEMBER_ID <==> a.generation == g.generation && a.memberId !in g.members)
    && (r.code == REBALANCE_IN_PROGRESS <==>
          a.generation == g.generation && a.memberId in g.members && !g.phase.Stable?)
    && (r.code == NONE <==>
          a.generation == g.generation && a.memberId in g.members && g.phase.Stable? && a.write.Done?)
    && (r.code == UNKNOWN_SERVER_ERROR <==>
          a.generation == g.generation && a.memberId in g.members && g.phase.Stable? && !a.write.Done?)
    && (if r.code == NONE || r.code == UNKNOWN_SERVER_ERROR
        then ParseAssignment(r.assignment) == Some(AssignmentOf(g, a.memberId))
        else r.assignment == [])
  }

  /** Every sync of every run is answered so about the group in memory afterwards; a group that does not
      exist has no members, and one that cannot be loaded gives no answer. */
  lemma SyncAnswer(cloning: bool, actions: seq<Action>, states: seq<World>, i: nat)
    requires IsRun(cloning, actions, states) && i < |actions| && actions[i].Sync?
    ensures var w, a := states[i], actions[i];
            var resp := SyncGroup(w.cell, a.memberId, a.generation, a.topics, a.now, IoOf(w, a)).1;
            && (resp.None? <==> w.cell.mem.None? && !a.fetchOk)
            && (resp.Some? ==>
                  if !Exists(w.cell) then resp.value == SyncResponse(UNKNOWN_MEMBER_ID, [])
                  else states[i + 1].cell.mem.Some? && SyncAnswered(states[i + 1].cell.mem.value, a, resp.value))
  {
    hide Inv, GroupOk, SyncOutcome, Persisted, EncodeAssignment, ParseAssignment, RestoreGroupState, AssignmentOf;
    RunKeeps(cloning, actions, states, i);
    var w, a := states[i], actions[i];
    var io := IoOf(w, a);
    BaseOk(w, a.now, io);
    var found := Loaded(w.cell, a.now, io);
    if found.Ok? && found.value.Some? {
      var g := BaseGroup(w, a.now, io);
      var g' := SyncOutcome(g, a.memberId, a.generation, a.topics).1;
      SyncOk(g, a.memberId, a.generation, a.topics);
      SyncCodes(g, a.memberId, a.generation, a.topics);
      HeldReadsBack(g', a.memberId);
    }
  }

  lemma SyncCodes(g: Group, memberId: Name, generation: int, topics: map<Name, seq<int>>)
    requires GroupOk(g)
    ensures var (code, g') := SyncOutcome(g, memberId, generation, topics);
            && g'.generation == g.generation && g'.members == g.members
            && code == (if generation != g'.generation then ILLEGAL_GENERATION
                        else if memberId !in g'.members then UNKNOWN_MEMBER_ID
                        else if !g'.phase.Stable? then REBALANCE_IN_PROGRESS else NONE)
  {
    hide Assigned, Exclusive, WholeMillis, AllJoined;
  }

  /** Only the leader assigns. In every run a sync changes the group exactly when it is the leader's own, in
      the current generation, after a rebalance has completed; then it makes the group stable with an exact
      cover of the collected partitions by the members subscribed to them. */
  lemma OnlyLeaderAssigns(cloning: bool, actions: seq<Action>, states: seq<World>, i: nat)
    requires IsRun(cloning, actions, states) && i < |actions| && actions[i].Sync? && states[i].cell.mem.Some?
    ensures var a, g := actions[i], states[i].cell.mem.value;
            && states[i + 1].cell.mem.Some?
            && var g' := states[i + 1].cell.mem.value;
               if g.phase.CompletingRebalance? && a.memberId == g.leader && a.generation == g.generation
               then g'.phase.Stable? && ExactCover(g'.assignments, SubscriptionsOf(g), a.topics)
               else g' == g
  {
    hide Inv, GroupOk, Persisted, EncodeAssignment, SyncOutcome, ExactCover, SubscriptionsOf;
    RunKeeps(cloning, actions, states, i);
    var a, g := actions[i], states[i].cell.mem.value;
    InMemoryOk(states[i]);
    SyncChanges(g, a.memberId, a.generation, a.topics);
  }

  lemma SyncChanges(g: Group, memberId: Name, generation: int, topics: map<Name, seq<int>>)
    requires GroupOk(g) && Collectable(topics)
    ensures var g' := SyncOutcome(g, memberId, generation, topics).1;
            if g.phase.CompletingRebalance? && memberId == g.leader && generation == g.generation
            then g'.phase.Stable? && ExactCover(g'.assignments, SubscriptionsOf(g), topics)
            else g' == g
  {
    hide Assigned, Exclusive, AllJoined, MemberOk, ExactCover, SubscriptionsOf;
    if g.phase.CompletingRebalance? { SyncCoversExactly(g, topics); }
  }

  lemma HeldReadsBack(g: Group, m: Name)
    requires GroupOk(g)
    ensures ParseAssignment(EncodeAssignment(AssignmentOf(g, m))) == Some(AssignmentOf(g, m))
  {
    hide EncodeAssignment, ParseAssignment, Exclusive, WholeMillis, AllJoined;
    AssignmentRoundTrip(AssignmentOf(g, m));
  }

  /** The assignment names partition `p` of topic `t`. */
  ghost predicate Names(l: seq<AssignmentTopic>, t: Name, p: int) {
    exists i :: 0 <= i < |l| && l[i].name == t && p in l[i].partitions
  }

  /** No partition is told to two members: what any two of them read out of their answers in one
      generation is disjoint, at any two points of a run between which the group exists, through
      failed writes, crashes and reloads. */
  lemma AnswersDisjoint(cloning: bool, actions: seq<Action>, states: seq<World>, i: nat, j: nat,
                        m: Name, m': Name, generation: int, answer: bytes, answer': bytes, t: Name, p: int)
    requires IsRun(cloning, actions, states) && i < j < |actions| && m != m'
    requires AnsweredSync(states[i], actions[i], m, generation, answer)
    requires AnsweredSync(states[j], actions[j], m', generation, answer')
    requires forall k :: i < k <= j ==> Exists(states[k].cell)
    ensures var l, l' := ParseAssignment(answer), ParseAssignment(answer');
            l.Some? && l'.Some? && !(Names(l.value, t, p) && Names(l'.value, t, p))
  {
    hide AnsweredSync, Step, Legal, Inv, ParseAssignment, Names;
    RunKeeps(cloning, actions, states, i);
    AnsweredIsRecorded(states[i], actions[i], m, generation, answer);
    SyncedPersists(cloning, actions, states, i + 1, j, Synced(generation, m, answer));
    RunKeeps(cloning, actions, states, j);
    AnsweredIsRecorded(states[j], actions[j], m', generation, answer');
    SyncedGrows(states[j], actions[j]);
    RunKeeps(cloning, actions, states, j + 1);
    SaidByMemory(cloning, actions, states, j, m', generation, answer');
    SaidDisjoint(states[j + 1], Synced(generation, m, answer), Synced(generation, m', answer'), t, p);
  }

  lemma SaidByMemory(cloning: bool, actions: seq<Action>, states: seq<World>, j: nat, m: Name, generation: int,
                     answer: bytes)
    requires IsRun(cloning, actions, states) && j < |actions|
    requires AnsweredSync(states[j], actions[j], m, generation, answer)
    ensures states[j + 1].cell.mem.Some? && states[j + 1].cell.mem.value.generation == generation
  {
    hide Step, Legal, ParseAssignment;
    SyncAnswer(cloning, actions, states, j);
    hide SyncGroup;
  }

  lemma SaidDisjoint(w: World, s: Synced, s': Synced, t: Name, p: int)
    requires Inv(w) && w.cell.mem.Some? && s in w.synced && s' in w.synced && s.member != s'.member
    requires s.generation == s'.generation == w.cell.mem.value.generation
    ensures var l, l' := ParseAssignment(s.assignment), ParseAssignment(s'.assignment);
            l.Some? && l'.Some? && !(Names(l.value, t, p) && Names(l'.value, t, p))
  {
    hide ParseAssignment, EncodeAssignment, Saved, RecordSays, WholeMillis;
    var g := w.cell.mem.value;
    HeldReadsBack(g, s.member);
    HeldReadsBack(g, s'.member);
    HeldDisjoint(g, s.member, s'.member, t, p);
  }

  lemma HeldDisjoint(g: Group, m: Name, m': Name, t: Name, p: int)
    requires GroupOk(g) && m != m'
    ensures !(Names(AssignmentOf(g, m), t, p) && Names(AssignmentOf(g, m'), t, p))
  {
    hide WholeMillis, AllJoined;
    assert Names(AssignmentOf(g, m), t, p) ==> Has(g.assignments, m, t, p);
    assert Names(AssignmentOf(g, m'), t, p) ==> Has(g.assignments, m', t, p);
  }

  // ------------------------------------------------------------- Heartbeat and LeaveGroup

  /** What the answer to a heartbeat says about the group in memory afterwards. A heartbeat that gets as
      far as the store is noted. */
  ghost predicate HeartbeatAnswered(g: Group, a: Action, code: Code)
    requires a.Beat?
  {
    && (code == UNKNOWN_MEMBER_ID <==> a.memberId !in g.members)
    && (code == ILLEGAL_GENERATION <==> a.memberId in g.members && a.generation != g.generation)
    && (code == REBALANCE_IN_PROGRESS <==>
          a.memberId in g.members && a.generation == g.generation && !g.phase.Stable?)
    && (code == NONE <==>
          a.memberId in g.members && a.generation == g.generation && g.phase.Stable? && a.write.Done?)
    && (code == NONE || code == UNKNOWN_SERVER_ERROR ==> g.members[a.memberId].lastHeartbeat == Some(a.now))
  }

  lemma HeartbeatAnswer(cloning: bool, actions: seq<Action>, states: seq<World>, i: nat)
    requires IsRun(cloning, actions, states) && i < |actions| && actions[i].Beat?
    ensures var w, a := states[i], actions[i];
            var code := Heartbeat(w.cell, a.memberId, a.generation, a.now, IoOf(w, a)).1;
            if w.cell.mem.None? && !a.fetchOk then code == UNKNOWN_SERVER_ERROR
            else if !Exists(w.cell) then code == UNKNOWN_MEMBER_ID
            else states[i + 1].cell.mem.Some? && HeartbeatAnswered(states[i + 1].cell.mem.value, a, code)
  {
    hide Persisted, RestoreGroupState, Legal;
  }

  /** What the answer to a leave says: NONE and a store that failed mean that the member was there and is
      gone, and that the group is gone exactly if it was the last. */
  lemma LeaveAnswer(cloning: bool, actions: seq<Action>, states: seq<World>, i: nat)
    requires IsRun(cloning, actions, states) && i < |actions| && actions[i].Leave?
    ensures var w, a := states[i], actions[i];
            var code := LeaveGroup(w.cell, a.memberId, a.now, IoOf(w, a)).1;
            if w.cell.mem.None? && !a.fetchOk then code == UNKNOWN_SERVER_ERROR
            else
              && (code == UNKNOWN_MEMBER_ID <==> !IsMember(w.cell, a.memberId))
              && (code == NONE <==> IsMember(w.cell, a.memberId) && a.write.Done?)
              && (code == UNKNOWN_SERVER_ERROR <==> IsMember(w.cell, a.memberId) && !a.write.Done?)
              && (IsMember(w.cell, a.memberId) ==>
                    var c := states[i + 1].cell;
                    && (c.mem.None? <==> forall m :: IsMember(w.cell, m) ==> m == a.memberId)
                    && (c.mem.Some? ==>
                          forall m :: m in c.mem.value.members <==> IsMember(w.cell, m) && m != a.memberId))
  {
    hide Inv, GroupOk, Persisted, RestoreGroupState, Left;
    RunKeeps(cloning, actions, states, i);
    var w, a := states[i], actions[i];
    var io := IoOf(w, a);
    if Loaded(w.cell, a.now, io).Ok? {
      forall m ensures m in BaseGroup(w, a.now, io).members <==> IsMember(w.cell, m) { BaseMembers(w, a.now, io, m); }
      if IsMember(w.cell, a.memberId) {
        BaseOk(w, a.now, io);
        LeftExactly(BaseGroup(w, a.now, io), a.memberId, a.now);
      }
    }
  }

  // -------------------------------------------------------------------- leader and record

  /** Who leads: across any step that finds and leaves the group in memory the leader stays as long as it
      is a member, and is succeeded by the least id. */
  lemma LeaderSucceeds(cloning: bool, actions: seq<Action>, states: seq<World>, i: nat)
    requires IsRun(cloning, actions, states) && i < |actions|
    requires states[i].cell.mem.Some? && states[i + 1].cell.mem.Some?
    ensures var g, g' := states[i].cell.mem.value, states[i + 1].cell.mem.value;
            if g.leader in g'.members then g'.leader == g.leader
            else g'.leader in g'.members && forall m :: m in g'.members ==> m == g'.leader || Less(g'.leader, m)
  {
    hide Inv, Legal, Step, Callers, Touched;
    RunKeeps(cloning, actions, states, i);
    StepMoves(states[i], actions[i]);
    hide JoinsOnly, Follows;
    var w, w' := states[i], states[i + 1];
    var g :| Turns(w, w', g, w'.cell.mem.value, Callers(w, actions[i]), Touched(w, actions[i]));
  }

  /** The request reached the store and reports success: a join or sync or heartbeat or leave whose write
      is done, or a cleanup that changed the group and whose write is done. */
  ghost predicate Wrote(w: World, a: Action) {
    match a
    case Join(_, _, now, _, write) => write.Done? && Loaded(w.cell, now, IoOf(w, a)).Ok?
    case Sync(memberId, generation, topics, now, _, _) =>
      var r := SyncGroup(w.cell, memberId, generation, topics, now, IoOf(w, a)).1; r.Some? && r.value.code == NONE
    case Beat(memberId, generation, now, _, _) => Heartbeat(w.cell, memberId, generation, now, IoOf(w, a)).1 == NONE
    case Leave(memberId, now, _, _) => LeaveGroup(w.cell, memberId, now, IoOf(w, a)).1 == NONE
    case Sweep(_, write) => write.Done? && w.cell.mem.Some? && Step(w, a).cell.mem != w.cell.mem
    case _ => false
  }

  /** What is answered survives. After a request that reports success the record is the group's own: a
      crash and a reload give the same phase, generation, leader, protocol, members, subscriptions,
      heartbeats and assignments back, and a group that ended does not come back. */
  lemma WrittenSurvivesCrash(cloning: bool, actions: seq<Action>, states: seq<World>, i: nat, now: int)
    requires IsRun(cloning, actions, states) && i < |actions| && Wrote(states[i], actions[i])
    ensures var c := states[i + 1].cell;
            if c.mem.None? then c.rec.None?
            else c.rec.Some? && SameGroup(RestoreGroupState(c.rec.value, now), c.mem.value)
  {
    hide Inv, GroupOk, Kept, BuildConsumerGroup, RestoreGroupState, SameGroup, Legal, Step, Wrote;
    RunKeeps(cloning, actions, states, i);
    RunKeeps(cloning, actions, states, i + 1);
    WroteIsRecorded(states[i], actions[i]);
    if states[i + 1].cell.mem.Some? {
      InMemoryOk(states[i + 1]);
      RestoreBuilt(states[i + 1].cell.mem.value, cloning, now);
      SameCloning(cloning, actions, states, i + 1);
    }
  }

  lemma {:induction false} SameCloning(cloning: bool, actions: seq<Action>, states: seq<World>, i: nat)
    requires IsRun(cloning, actions, states) && i < |states|
    ensures states[i].cloning == cloning
  {
    hide Legal, JoinGroup, SyncGroup, Heartbeat, LeaveGroup, Cleanup, DeleteGroup, Loaded;
    if i > 0 { SameCloning(cloning, actions, states, i - 1); }
  }

  /** The record is that of the group in memory, if there is one. */
  ghost predicate OnRecord(w: World) {
    w.cell.rec == if w.cell.mem.None? then None else Some(Kept(BuildConsumerGroup(w.cell.mem.value), w.cloning))
  }

  lemma JoinWrites(w: World, a: Action)
    requires a.Join? && Wrote(w, a) && (Step(w, a).cell.mem.Some? ==> Step(w, a).cell.mem.value.members != map[])
    ensures OnRecord(Step(w, a))
  {
    hide Kept, BuildConsumerGroup, RestoreGroupState, Joined, MemberSubscriptions;
  }

  lemma SyncWrites(w: World, a: Action)
    requires a.Sync? && Wrote(w, a) && (Step(w, a).cell.mem.Some? ==> Step(w, a).cell.mem.value.members != map[])
    ensures OnRecord(Step(w, a))
  {
    hide Kept, BuildConsumerGroup, RestoreGroupState, SyncOutcome, EncodeAssignment;
  }

  lemma BeatWrites(w: World, a: Action)
    requires a.Beat? && Wrote(w, a) && (Step(w, a).cell.mem.Some? ==> Step(w, a).cell.mem.value.members != map[])
    ensures OnRecord(Step(w, a))
  {
    hide Kept, BuildConsumerGroup, RestoreGroupState, SyncOutcome;
  }

  lemma LeaveWrites(w: World, a: Action)
    requires a.Leave? && Wrote(w, a) && (Step(w, a).cell.mem.Some? ==> Step(w, a).cell.mem.value.members != map[])
    ensures OnRecord(Step(w, a))
  {
    hide Kept, BuildConsumerGroup, RestoreGroupState, Left;
  }

  lemma SweepWrites(w: World, a: Action)
    requires Inv(w) && a.Sweep? && Wrote(w, a)
    requires Step(w, a).cell.mem.Some? ==> Step(w, a).cell.mem.value.members != map[]
    ensures OnRecord(Step(w, a))
  {
    hide Inv, Kept, BuildConsumerGroup, Swept;
    SweptSame(w, a.now);
  }

  lemma WroteIsRecorded(w: World, a: Action)
    requires Inv(w) && Legal(w, a) && Wrote(w, a)
    ensures OnRecord(Step(w, a))
  {
    hide Inv, GroupOk, OnRecord, Wrote, Legal, Step;
    StepKeeps(w, a);
    if Step(w, a).cell.mem.Some? {
      InMemoryOk(Step(w, a));
      GroupMembers(Step(w, a).cell.mem.value);
    }
    match a
    case Join(_, _, _, _, _) => JoinWrites(w, a);
    case Sync(_, _, _, _, _, _) => SyncWrites(w, a);
    case Beat(_, _, _, _, _) => BeatWrites(w, a);
    case Leave(_, _, _, _) => LeaveWrites(w, a);
    case Sweep(_, _) => SweepWrites(w, a);
    case Delete(_, _) => NothingWritten(w, a);
    case Crash => NothingWritten(w, a);
  }

  lemma NothingWritten(w: World, a: Action)
    requires a.Delete? || a.Crash?
    ensures !Wrote(w, a)
  {
  }

  lemma SweptSame(w: World, now: int)
    requires Inv(w)
    ensures w.cell.mem.Some? && !Swept(w.cell.mem.value, now).1 ==> Swept(w.cell.mem.value, now).0 == w.cell.mem
  {
    hide Inv, Swept;
    if w.cell.mem.Some? {
      InMemoryOk(w);
      SweptOk(w.cell.mem.value, now);
    }
  }
}
