/** Sessions: what a heartbeat or a join is good for, and how long (pkg/broker/coordinator.go). */
module GroupSessions {
  import opened Wrappers
  import opened Sorting
  import opened Groups
  import opened GroupRecords
  import opened GroupMachine
  import opened GroupInvariant
  import opened GroupRuns
  import opened GroupLives
  import opened GroupBarrier
  import opened GroupAnswers

  /** The coordinator hears from `m`: a heartbeat answered NONE, or a join that reaches the group. */
  ghost predicate Hears(w: World, a: Action, m: Name) {
    || Calls(w, a, m)
    || (a.Beat? && a.memberId == m && Heartbeat(w.cell, m, a.generation, a.now, IoOf(w, a)).1 == NONE)
  }

  ghost function MemberIn(w: World, m: Name): Member
    requires w.cell.mem.Some? && m in w.cell.mem.value.members
  {
    w.cell.mem.value.members[m]
  }

  /** In all states after `i` up to `j` the member is in the group in memory. */
  ghost predicate Present(states: seq<World>, i: nat, j: nat, m: Name)
    requires j < |states|
  {
    forall k :: i < k <= j ==> states[k].cell.mem.Some? && m in states[k].cell.mem.value.members
  }

  /** Between step `i` and state `j` no request is about the member. */
  ghost predicate Silent(actions: seq<Action>, states: seq<World>, i: nat, j: nat, m: Name)
    requires j <= |actions| <= |states|
  {
    forall k :: i < k < j ==> m !in Touched(states[k], actions[k])
  }

  lemma StepSame(w: World, a: Action, m: Name)
    requires Inv(w) && Legal(w, a) && m !in Touched(w, a)
    requires w.cell.mem.Some? && m in w.cell.mem.value.members
    requires Step(w, a).cell.mem.Some? && m in Step(w, a).cell.mem.value.members
    ensures SameMember(MemberIn(Step(w, a), m), MemberIn(w, m))
  {
    hide Inv, Legal, Step, Callers, Touched;
    StepMoves(w, a);
    hide JoinsOnly, Follows;
    var w' := Step(w, a);
    var g :| Turns(w, w', g, w'.cell.mem.value, Callers(w, a), Touched(w, a));
  }

  lemma {:induction false} SilentSame(cloning: bool, actions: seq<Action>, states: seq<World>, i: nat, j: nat, m: Name)
    requires IsRun(cloning, actions, states) && i < j < |states|
    requires Present(states, i, j, m) && Silent(actions, states, i, j, m)
    ensures SameMember(MemberIn(states[j], m), MemberIn(states[i + 1], m))
    decreases j - i
  {
    hide Inv, Legal, Step, Touched;
    if i + 1 < j {
      SilentSame(cloning, actions, states, i, j - 1, m);
      RunKeeps(cloning, actions, states, j - 1);
      assert states[j] == Step(states[j - 1], actions[j - 1]);
      StepSame(states[j - 1], actions[j - 1], m);
    }
  }

  lemma HeardIsNoted(cloning: bool, actions: seq<Action>, states: seq<World>, i: nat, m: Name)
    requires IsRun(cloning, actions, states) && i < |actions| && Hears(states[i], actions[i], m)
    ensures states[i + 1].cell.mem.Some? && m in states[i + 1].cell.mem.value.members
    ensures MemberIn(states[i + 1], m).lastHeartbeat == Some(actions[i].now)
    ensures MemberIn(states[i + 1], m).sessionTimeout > 0
  {
    hide Inv, Legal, GroupOk, Step, JoinGroup, JoinId, ListsMembers;
    RunKeeps(cloning, actions, states, i);
    RunKeeps(cloning, actions, states, i + 1);
    var w, a := states[i], actions[i];
    if Calls(w, a, m) {
      JoinAnswer(cloning, actions, states, i);
      CallerAnswered(w, a, m);
    } else {
      HeartbeatAnswer(cloning, actions, states, i);
      NoneExists(w, a);
    }
    InMemoryOk(states[i + 1]);
    TimeoutPositive(states[i + 1].cell.mem.value, m);
  }

  lemma CallerAnswered(w: World, a: Action, m: Name)
    requires Calls(w, a, m)
    ensures var resp := JoinGroup(w.cell, a.req, a.freshId, a.now, IoOf(w, a)).1; resp.Some? && resp.value.memberId == m
  {
    hide Joined, Persisted, MemberSubscriptions, JoinId;
  }

  lemma NoneExists(w: World, a: Action)
    requires a.Beat? && Heartbeat(w.cell, a.memberId, a.generation, a.now, IoOf(w, a)).1 == NONE
    ensures Exists(w.cell) && (w.cell.mem.Some? || a.fetchOk)
  {
    hide Persisted;
  }

  lemma TimeoutPositive(g: Group, m: Name)
    requires GroupOk(g) && m in g.members
    ensures g.members[m].sessionTimeout > 0
  {
  }

  /** How long a heartbeat is good for, exactly. After the coordinator has heard from a member at time
      `t`, and nothing from it since, the next cleanup keeps it if and only if it comes no later than
      the member's session timeout after `t`, and the member is not late for a rebalance. */
  lemma SessionKeptExactlyWhen(cloning: bool, actions: seq<Action>, states: seq<World>, i: nat, j: nat, m: Name)
    requires IsRun(cloning, actions, states) && i < j < |actions| && Hears(states[i], actions[i], m)
    requires Present(states, i, j, m) && Silent(actions, states, i, j, m) && actions[j].Sweep?
    ensures var g, c, now := states[j].cell.mem.value, states[j + 1].cell, actions[j].now;
            c.mem.Some? && m in c.mem.value.members <==>
              && now <= actions[i].now + MemberIn(states[i + 1], m).sessionTimeout
              && (g.rebalanceDeadline.None? || now < g.rebalanceDeadline.value || IsJoined(g, m))
  {
    hide Inv, Legal, GroupOk, Hears, Silent, Step, IsJoined;
    HeardIsNoted(cloning, actions, states, i, m);
    SilentSame(cloning, actions, states, i, j, m);
    RunKeeps(cloning, actions, states, j);
    SweepKeepsExactly(states[j], actions[j], m);
  }

  lemma SweepKeepsExactly(w: World, a: Action, m: Name)
    requires Inv(w) && a.Sweep? && w.cell.mem.Some? && m in w.cell.mem.value.members
    ensures var g, c := w.cell.mem.value, Step(w, a).cell;
            c.mem.Some? && m in c.mem.value.members <==>
              && g.members[m].lastHeartbeat.Some?
              && a.now <= g.members[m].lastHeartbeat.value + g.members[m].sessionTimeout
              && (g.rebalanceDeadline.None? || a.now < g.rebalanceDeadline.value || IsJoined(g, m))
  {
    hide Inv, GroupOk, Swept, Persisted;
    InMemoryOk(w);
    TimeoutPositive(w.cell.mem.value, m);
    SweptExactly(w.cell.mem.value, a.now);
    var stay := Survivors(w.cell.mem.value, a.now);
    assert Step(w, a).cell.mem == Swept(w.cell.mem.value, a.now).0;
    assert Step(w, a).cell.mem.Some? && m in Step(w, a).cell.mem.value.members <==> m in stay;
  }

  // ------------------------------------------------------------------------- deadlines

  /** A rebalance that a leave or a cleanup starts runs for the group's own rebalance timeout. */
  lemma RebalanceRuns(cloning: bool, actions: seq<Action>, states: seq<World>, i: nat)
    requires IsRun(cloning, actions, states) && i < |actions| && (actions[i].Leave? || actions[i].Sweep?)
    requires states[i].cell.mem.Some? && states[i + 1].cell.mem.Some?
    ensures var g, g' := states[i].cell.mem.value, states[i + 1].cell.mem.value;
            && g'.rebalanceTimeout == g.rebalanceTimeout
            && (g'.generation > g.generation ==> g'.rebalanceDeadline == Some(actions[i].now + g.rebalanceTimeout))
            && (g'.generation == g.generation ==> g' == g)
  {
    hide Inv, GroupOk, Persisted, Left, Swept, Legal;
    RunKeeps(cloning, actions, states, i);
    InMemoryOk(states[i]);
    var g := states[i].cell.mem.value;
    if actions[i].Leave? {
      LeftRuns(g, actions[i].memberId, actions[i].now);
    } else {
      SweptRuns(g, actions[i].now);
    }
  }

  lemma StartRuns(g: Group, now: int)
    requires g.members != map[] && g.rebalanceTimeout > 0
    ensures var g' := StartRebalance(g, 0, now);
            && g'.rebalanceTimeout == g.rebalanceTimeout && g'.rebalanceDeadline == Some(now + g.rebalanceTimeout)
            && g'.generation == g.generation + 1
  {
  }

  lemma LeftRuns(g: Group, m: Name, now: int)
    requires GroupOk(g)
    ensures Left(g, m, now).Some? ==>
              var g' := Left(g, m, now).value;
              && g'.rebalanceTimeout == g.rebalanceTimeout && g'.rebalanceDeadline == Some(now + g.rebalanceTimeout)
              && g'.generation == g.generation + 1
  {
    hide StartRebalance, Exclusive;
    var members := Keep(g.members, {m});
    if members != map[] {
      StartRuns(g.(members := members, assignments := Keep(g.assignments, {m}),
                   leader := if g.leader == m then [] else g.leader), now);
    }
  }

  lemma SweptRuns(g: Group, now: int)
    requires GroupOk(g)
    ensures Swept(g, now).0.Some? ==>
              var g' := Swept(g, now).0.value;
              && g'.rebalanceTimeout == g.rebalanceTimeout
              && (g'.generation > g.generation ==> g'.rebalanceDeadline == Some(now + g.rebalanceTimeout))
              && (g'.generation == g.generation ==> g' == g)
  {
    TimeoutsPositive(g);
    SweptOk(g, now);
    SweptShape(g, now);
    hide GroupOk, StartRebalance, Swept, Evolves, JoinsOnly;
    var (g', changed) := Swept(g, now);
    if g'.Some? && changed { StartRuns(Remaining(g, now), now); }
  }

  /** What is left of the group before the rebalance of a cleanup. */
  function Remaining(g: Group, now: int): Group {
    DropRebalanceLaggers(RemoveExpiredMembers(g, now).0, now).0
  }

  lemma SweptShape(g: Group, now: int)
    ensures var (g', changed) := Swept(g, now);
            var g2 := Remaining(g, now);
            && g2.rebalanceTimeout == g.rebalanceTimeout && g2.generation == g.generation
            && (g'.Some? && changed ==> g2.members != map[] && g' == Some(StartRebalance(g2, 0, now)))
  {
    hide StartRebalance, ExpiredMembers, Laggers, Removed;
    RemovedFields(g, ExpiredMembers(g, now));
    RemovedFields(Removed(g, ExpiredMembers(g, now)), Laggers(Removed(g, ExpiredMembers(g, now)), now));
  }

  lemma RemovedFields(g: Group, gone: set<Name>)
    ensures Removed(g, gone).rebalanceTimeout == g.rebalanceTimeout && Removed(g, gone).generation == g.generation
  {
  }

  lemma TimeoutsPositive(g: Group)
    requires GroupOk(g)
    ensures g.rebalanceTimeout > 0
  {
  }

  /** A group that is loaded in the middle of a rebalance has its whole timeout again. */
  lemma LoadedDeadline(r: GroupRecord, now: int)
    ensures var g := RestoreGroupState(r, now);
            g.rebalanceDeadline == if g.phase.PreparingRebalance? || g.phase.CompletingRebalance?
                                   then Some(now + g.rebalanceTimeout) else None
  {
  }
}
