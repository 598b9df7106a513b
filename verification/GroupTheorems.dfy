/** What the coordinator guarantees over whole runs. */
module GroupTheorems {
  import opened Bytes
  import opened Wrappers
  import opened Sorting
  import opened Assignment
  import opened Subscriptions
  import opened Groups
  import opened GroupRecords
  import opened GroupMachine
  import opened GroupInvariant
  import opened GroupRuns

  /** In every state of every run a group in memory has members, a leader among them, one of the
      three working phases, assignments only when stable and only for members, every member joined
      once it is past preparing, and no partition held twice. */
  lemma ReachableGroup(cloning: bool, actions: seq<Action>, states: seq<World>, i: nat)
    requires IsRun(cloning, actions, states) && i < |states| && states[i].cell.mem.Some?
    ensures var g := states[i].cell.mem.value;
            && g.members != map[] && g.leader in g.members
            && (g.phase.PreparingRebalance? || g.phase.CompletingRebalance? || g.phase.Stable?)
            && (g.assignments != map[] ==> g.phase.Stable?)
            && (forall m :: m in g.assignments ==> m in g.members)
            && (!g.phase.PreparingRebalance? ==>
                  forall m :: m in g.members ==> g.members[m].joinGeneration == g.generation)
            && (forall m, m', t, p :: Has(g.assignments, m, t, p) && Has(g.assignments, m', t, p) ==> m == m')
  {
    RunKeeps(cloning, actions, states, i);
    hide IsRun, Has;
  }

  /** While a group stays in memory its generation never decreases, and while its record stays in
      the store the recorded generation never decreases, through any store failures. */
  lemma {:induction false} GenerationsOnlyGrow(cloning: bool, actions: seq<Action>, states: seq<World>, i: nat, j: nat)
    requires IsRun(cloning, actions, states) && i <= j < |states|
    ensures (forall k :: i <= k <= j ==> states[k].cell.mem.Some?) ==>
              states[i].cell.mem.value.generation <= states[j].cell.mem.value.generation
    ensures (forall k :: i <= k <= j ==> states[k].cell.rec.Some?) ==>
              states[i].cell.rec.value.generation <= states[j].cell.rec.value.generation
    decreases j - i
  {
    hide Step, Legal, Inv;
    if i < j {
      GenerationsOnlyGrow(cloning, actions, states, i, j - 1);
      RunKeeps(cloning, actions, states, j - 1);
      StepKeeps(states[j - 1], actions[j - 1]);
      AdvancesGeneration(states[j - 1], states[j]);
    }
  }

  lemma AdvancesGeneration(w: World, w': World)
    requires Advances(w, w')
    ensures w.cell.mem.Some? && w'.cell.mem.Some? ==> w.cell.mem.value.generation <= w'.cell.mem.value.generation
    ensures w.cell.rec.Some? && w'.cell.rec.Some? ==> w.cell.rec.value.generation <= w'.cell.rec.value.generation
  {
  }

  // ------------------------------------------------------------ sync answers agree

  /** Request `a` in state `w` is a sync of `memberId` in `generation`, answered NONE with `bytes`. */
  ghost predicate AnsweredSync(w: World, a: Action, memberId: Name, generation: int, answer: bytes) {
    && a.Sync? && a.memberId == memberId && a.generation == generation
    && SyncGroup(w.cell, memberId, generation, a.topics, a.now, Io(a.fetchOk, a.write, w.cloning)).1
        == Some(SyncResponse(NONE, answer))
  }

  lemma AnsweredIsRecorded(w: World, a: Action, memberId: Name, generation: int, answer: bytes)
    requires Inv(w) && Legal(w, a) && AnsweredSync(w, a, memberId, generation, answer)
    ensures Step(w, a).cell.rec.Some? && Synced(generation, memberId, answer) in Step(w, a).synced
  {
    hide GroupOk, SyncOutcome, EncodeAssignment, Kept, BuildConsumerGroup, Inv;
    var io := Io(a.fetchOk, a.write, w.cloning);
    BaseOk(w, a.now, io);
    var g := BaseGroup(w, a.now, io);
    SyncOk(g, memberId, generation, a.topics);
    GroupMembers(SyncOutcome(g, memberId, generation, a.topics).1);
  }

  lemma SyncedGrows(w: World, a: Action)
    requires Legal(w, a) && Exists(Step(w, a).cell)
    ensures w.synced <= Step(w, a).synced
  {
    hide JoinGroup, SyncGroup, Heartbeat, LeaveGroup, Cleanup, BaseGroup, Loaded, Legal;
  }

  lemma {:induction false} SyncedPersists(cloning: bool, actions: seq<Action>, states: seq<World>, i: nat, j: nat,
                                          s: Synced)
    requires IsRun(cloning, actions, states) && i <= j < |states| && s in states[i].synced
    requires forall k :: i < k <= j ==> Exists(states[k].cell)
    ensures s in states[j].synced
    decreases j - i
  {
    hide Step, Legal;
    if i < j {
      SyncedPersists(cloning, actions, states, i, j - 1, s);
      assert Exists(states[j].cell) && states[j] == Step(states[j - 1], actions[j - 1]);
      SyncedGrows(states[j - 1], actions[j - 1]);
    }
  }

  /** Within one generation every successful sync of a member returns the same bytes: at any two
      points of a run between which the group exists, in memory or in the store, through any number
      of failed and ambiguous writes and deletions, crashes and reloads in between. */
  lemma AgreeWhileExisting(cloning: bool, actions: seq<Action>, states: seq<World>, i: nat, j: nat,
                         memberId: Name, generation: int, answer: bytes, answer': bytes)
    requires IsRun(cloning, actions, states) && i < j < |actions|
    requires AnsweredSync(states[i], actions[i], memberId, generation, answer)
    requires AnsweredSync(states[j], actions[j], memberId, generation, answer')
    requires forall k :: i < k <= j ==> Exists(states[k].cell)
    ensures answer == answer'
  {
    hide AnsweredSync, Step, Legal;
    RunKeeps(cloning, actions, states, i);
    AnsweredIsRecorded(states[i], actions[i], memberId, generation, answer);
    SyncedPersists(cloning, actions, states, i + 1, j, Synced(generation, memberId, answer));
    RunKeeps(cloning, actions, states, j);
    AnsweredIsRecorded(states[j], actions[j], memberId, generation, answer');
    SyncedGrows(states[j], actions[j]);
    RunKeeps(cloning, actions, states, j + 1);
    OneAnswer(states[j + 1], Synced(generation, memberId, answer), Synced(generation, memberId, answer'));
  }

  lemma OneAnswer(w: World, s: Synced, s': Synced)
    requires Inv(w) && s in w.synced && s' in w.synced && s.generation == s'.generation && s.member == s'.member
    ensures s == s'
  {
    hide GroupOk, Saved, Says, RecordSays;
  }

  // --------------------------------------------------------------------- joining

  /** A join answered NONE leaves the group past preparing, so the join barrier applies to it. */
  lemma JoinAnsweredNone(w: World, a: Action)
    requires Inv(w) && a.Join? && Legal(w, a)
    requires var resp := JoinGroup(w.cell, a.req, a.freshId, a.now, Io(a.fetchOk, a.write, w.cloning)).1;
             resp.Some? && resp.value.code == NONE
    ensures Step(w, a).cell.mem.Some? && !Step(w, a).cell.mem.value.phase.PreparingRebalance?
  {
    hide Inv, GroupOk, Joined, Persisted, MemberSubscriptions;
    var io := Io(a.fetchOk, a.write, w.cloning);
    BaseOk(w, a.now, io);
    JoinOk(BaseGroup(w, a.now, io), a.req, a.freshId, a.now);
  }

  /** Loading marks everyone as joined, so the first rejoin of any member is answered ready, whoever
      else has come back. */
  lemma ReloadedJoinIsReady(g: Group, cloning: bool, req: JoinRequest, freshId: Name, loadedAt: int, now: int)
    requires GroupOk(g) && req.memberId in g.members && freshId != [] && freshId !in g.members
    requires IsInt32(req.sessionTimeoutMs) && IsInt32(req.rebalanceTimeoutMs)
    ensures Joined(RestoreGroupState(Kept(BuildConsumerGroup(g), cloning), loadedAt), req, freshId, now).1
  {
    RestoreBuilt(g, cloning, loadedAt);
    GroupMembers(g);
    var r := RestoreGroupState(Kept(BuildConsumerGroup(g), cloning), loadedAt);
    hide RestoreGroupState, Kept, BuildConsumerGroup, Joined, GroupOk;
    KeptGeneration(r, req, freshId, now);
  }

  /** A known member's join to a well-formed group keeps its generation. */
  lemma KeptGeneration(r: Group, req: JoinRequest, freshId: Name, now: int)
    requires GroupOk(r) && AllJoined(r) && req.memberId in r.members
    requires freshId != [] && freshId !in r.members
    requires IsInt32(req.sessionTimeoutMs) && IsInt32(req.rebalanceTimeoutMs)
    ensures Joined(r, req, freshId, now).1
  {
    EnteredPeopled(r, req, freshId, now);
    EnteredShape(r, req, freshId, now);
    GroupLeader(r);
    GroupPhases(r);
    GroupMembers(r);
    hide GroupOk, Peopled, Entered, StartRebalance, WholeMillis;
    var e := Entered(r, req, freshId, now);
    var id := req.memberId;
    var b := Rebalanced(e, id, true, JoinTimeout(req), now);
    assert b.members == e.members && b.generation == r.generation && b.leader == r.leader;
    var g2 := MarkJoined(b, id);
    assert AllJoined(g2);
    assert g2.members != map[] by { assert id in g2.members; }
  }

  // --------------------------------------------------------------- what is assigned

  /** When the leader's sync completes a rebalance, the new assignment is an exact cover: each
      partition of a collected topic goes to exactly one member subscribed to it at that moment,
      unless nobody subscribes. */
  lemma SyncCoversExactly(g: Group, topics: map<Name, seq<int>>)
    requires GroupOk(g) && g.phase.CompletingRebalance? && forall t :: t in topics ==> Distinct(topics[t])
    ensures var (code, g') := SyncOutcome(g, g.leader, g.generation, topics);
            && code == NONE && g'.phase.Stable?
            && g'.assignments.Keys == g.members.Keys
            && ExactCover(g'.assignments, SubscriptionsOf(g), topics)
  {
    AssignedExactCover(SubscriptionsOf(g), topics);
    SubscriptionsKeys(g);
    hide ExactCover, Assigned, Exclusive, WholeMillis;
  }

  /** A member that rejoins a stable group keeps the assignment of that generation, whatever it
      subscribes to now. */
  lemma RejoinKeepsAssignment(g: Group, req: JoinRequest, freshId: Name, now: int, m: Name)
    requires GroupOk(g) && g.phase.Stable? && req.memberId in g.members && freshId != [] && freshId !in g.members
    requires IsInt32(req.sessionTimeoutMs) && IsInt32(req.rebalanceTimeoutMs)
    ensures var g' := Joined(g, req, freshId, now).0;
            && g'.generation == g.generation && g'.phase.Stable?
            && AssignmentOf(g', m) == AssignmentOf(g, m)
            && g'.members[req.memberId].topics == ParsedTopics(req.protocols)
  {
    hide GroupOk, Peopled, StartRebalance, WholeMillis, ParsedTopics, EnsureLeader, CompleteIfReady, JoinTimeout,
         Entered, Rebalanced;
    GroupMembers(g);
    GroupLeader(g);
    assert Known(g, req);
    EnteredTopics(g, req, freshId, now);
    RebalancedStable(Entered(g, req, freshId, now), req.memberId, JoinTimeout(req), now);
  }

  lemma EnteredTopics(g: Group, req: JoinRequest, freshId: Name, now: int)
    requires Known(g, req)
    ensures var e := Entered(g, req, freshId, now);
            && e.generation == g.generation && e.phase == g.phase && e.assignments == g.assignments
                && e.leader == g.leader
            && req.memberId in e.members && e.members[req.memberId].topics == ParsedTopics(req.protocols)
  {
    hide ParsedTopics;
  }

  lemma RebalancedStable(e: Group, id: Name, timeout: int, now: int)
    requires e.phase.Stable?
    ensures Rebalanced(e, id, true, timeout, now) == e
  {
  }

  /** The first join of a new group is answered ready, with the caller as leader of generation 1. */
  lemma FirstJoinIsReady(req: JoinRequest, freshId: Name, now: int)
    requires freshId != []
    ensures var (g, ready) := Joined(NEW_GROUP, req, freshId, now);
            && ready && g.leader == freshId && g.generation == 1 && g.phase.CompletingRebalance?
            && g.members.Keys == {freshId} && g.members[freshId].topics == ParsedTopics(req.protocols)
  {
    hide ParsedTopics, JoinTimeout;
    var e := Entered(NEW_GROUP, req, freshId, now);
    assert e.members.Keys == {freshId} && |e.members| == 1;
    var s := StartRebalance(e.(leader := freshId), JoinTimeout(req), now);
    assert s.members.Keys == {freshId} && s.leader == freshId;
    var g := MarkJoined(s, freshId);
    assert g.members.Keys == {freshId} && g.members != map[];
    assert AllJoined(g);
  }
}
