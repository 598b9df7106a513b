/** What survives a crash, a lost write and the end of a group, and what does not
    (pkg/broker/coordinator.go). */
module GroupLives {
  import opened Bytes
  import opened Wrappers
  import opened Sorting
  import opened Assignment
  import opened Subscriptions
  import opened Groups
  import opened GroupRecords
  import opened GroupMachine
  import opened GroupInvariant
  import opened GroupRuns
  import opened GroupTheorems

  // ---------------------------------------------------------- a member that is not there

  ghost predicate Absent(c: Cell, m: Name) {
    && (c.mem.Some? ==> m !in c.mem.value.members)
    && (c.rec.Some? ==> m !in c.rec.value.members)
  }

  /** The join hands out `m` as a new member id. */
  ghost predicate Issues(w: World, a: Action, m: Name) {
    a.Join? && a.freshId == m && !Known(BaseGroup(w, a.now, Io(a.fetchOk, a.write, w.cloning)), a.req)
  }

  lemma RestoredNames(rec: GroupRecord, now: int)
    ensures RestoreGroupState(rec, now).members.Keys == rec.members.Keys
  {
  }

  lemma KeptNames(g: Group, cloning: bool)
    ensures Kept(BuildConsumerGroup(g), cloning).members.Keys == g.members.Keys
  {
  }

  lemma BaseAbsent(w: World, now: int, io: Io, m: Name)
    requires Absent(w.cell, m)
    ensures m !in BaseGroup(w, now, io).members
  {
    hide RestoreGroupState;
    if w.cell.rec.Some? { RestoredNames(w.cell.rec.value, now); }
  }

  lemma PersistedAbsent(w: World, g: Option<Group>, io: Io, m: Name)
    requires Absent(w.cell, m) && (g.Some? ==> m !in g.value.members)
    ensures Absent(Cell(g, Persisted(w.cell.rec, g, io)), m) && Absent(Cell(g, w.cell.rec), m)
  {
    hide Kept, BuildConsumerGroup;
    if g.Some? { KeptNames(g.value, io.cloning); }
  }

  lemma SyncMembers(g: Group, memberId: Name, generation: int, topics: map<Name, seq<int>>)
    ensures SyncOutcome(g, memberId, generation, topics).1.members == g.members
    ensures SyncOutcome(g, memberId, generation, topics).0 == NONE ==> memberId in g.members
  {
    hide Assigned;
  }

  lemma JoinAbsent(w: World, a: Action, m: Name)
    requires Inv(w) && Legal(w, a) && a.Join? && Absent(w.cell, m) && !Issues(w, a, m)
    ensures Absent(Step(w, a).cell, m)
  {
    hide Inv, GroupOk, Joined, Persisted, MemberSubscriptions, Absent, Known;
    var io := Io(a.fetchOk, a.write, w.cloning);
    BaseOk(w, a.now, io);
    BaseAbsent(w, a.now, io, m);
    if Loaded(w.cell, a.now, io).Ok? {
      var g := BaseGroup(w, a.now, io);
      JoinExactly(g, a.req, a.freshId, a.now);
      KnownIsMember(g, a.req);
      PersistedAbsent(w, Some(Joined(g, a.req, a.freshId, a.now).0), io, m);
    }
  }

  lemma KnownIsMember(g: Group, req: JoinRequest)
    ensures Known(g, req) ==> req.memberId in g.members
  {
  }

  lemma SyncAbsent(w: World, a: Action, m: Name)
    requires Absent(w.cell, m) && a.Sync?
    ensures Absent(Step(w, a).cell, m)
  {
    hide SyncOutcome, Persisted, Absent, EncodeAssignment;
    var io := Io(a.fetchOk, a.write, w.cloning);
    BaseAbsent(w, a.now, io, m);
    var g := BaseGroup(w, a.now, io);
    SyncMembers(g, a.memberId, a.generation, a.topics);
    PersistedAbsent(w, Some(SyncOutcome(g, a.memberId, a.generation, a.topics).1), io, m);
  }

  lemma BeatAbsent(w: World, a: Action, m: Name)
    requires Absent(w.cell, m) && a.Beat?
    ensures Absent(Step(w, a).cell, m)
  {
    hide Persisted, Absent;
    var io := Io(a.fetchOk, a.write, w.cloning);
    BaseAbsent(w, a.now, io, m);
    var g := BaseGroup(w, a.now, io);
    PersistedAbsent(w, Some(g), io, m);
    if a.memberId in g.members {
      var beat := g.members[a.memberId].(lastHeartbeat := Some(a.now));
      PersistedAbsent(w, Some(g.(members := g.members[a.memberId := beat])), io, m);
    }
  }

  lemma LeaveAbsent(w: World, a: Action, m: Name)
    requires Inv(w) && Absent(w.cell, m) && a.Leave?
    ensures Absent(Step(w, a).cell, m)
  {
    hide Inv, GroupOk, Persisted, Absent, Left;
    var io := Io(a.fetchOk, a.write, w.cloning);
    BaseOk(w, a.now, io);
    BaseAbsent(w, a.now, io, m);
    var g := BaseGroup(w, a.now, io);
    PersistedAbsent(w, Some(g), io, m);
    if Loaded(w.cell, a.now, io).Ok? && Loaded(w.cell, a.now, io).value.Some? && a.memberId in g.members {
      LeftExactly(g, a.memberId, a.now);
      PersistedAbsent(w, Left(g, a.memberId, a.now), io, m);
    }
  }

  lemma SweepAbsent(w: World, a: Action, m: Name)
    requires Inv(w) && Absent(w.cell, m) && a.Sweep?
    ensures Absent(Step(w, a).cell, m)
  {
    hide Persisted, Swept, Says, Saved, RecordSays;
    if w.cell.mem.Some? {
      var g := w.cell.mem.value;
      SweptExactly(g, a.now);
      PersistedAbsent(w, Swept(g, a.now).0, Io(true, a.write, w.cloning), m);
    }
  }

  lemma StepAbsent(w: World, a: Action, m: Name)
    requires Inv(w) && Legal(w, a) && Absent(w.cell, m) && !Issues(w, a, m)
    ensures Absent(Step(w, a).cell, m)
  {
    hide Inv, Legal, Issues;
    match a
    case Join(_, _, _, _, _) => JoinAbsent(w, a, m);
    case Sync(_, _, _, _, _, _) => SyncAbsent(w, a, m);
    case Beat(_, _, _, _, _) => BeatAbsent(w, a, m);
    case Leave(_, _, _, _) => LeaveAbsent(w, a, m);
    case Sweep(_, _) => SweepAbsent(w, a, m);
    case Delete(_, _) =>
    case Crash =>
  }

  /** A member that is neither in memory nor in the store stays away until its id is handed out. */
  lemma {:induction false} StaysAbsent(cloning: bool, actions: seq<Action>, states: seq<World>, k: nat, j: nat, m: Name)
    requires IsRun(cloning, actions, states) && k <= j < |states| && Absent(states[k].cell, m)
    requires forall p :: k <= p < j ==> !Issues(states[p], actions[p], m)
    ensures Absent(states[j].cell, m)
    decreases j - k
  {
    hide Step, Legal, Inv, Absent, Issues;
    if k < j {
      StaysAbsent(cloning, actions, states, k, j - 1, m);
      RunKeeps(cloning, actions, states, j - 1);
      StepAbsent(states[j - 1], actions[j - 1], m);
    }
  }

  // ---------------------------------------------------------------- sync answers agree

  /** An answered sync is that of a member. */
  lemma AnsweredIsMember(w: World, a: Action, memberId: Name, generation: int, answer: bytes)
    requires AnsweredSync(w, a, memberId, generation, answer)
    ensures !Absent(w.cell, memberId)
  {
    hide SyncOutcome, EncodeAssignment, Persisted, RestoreGroupState;
    var io := Io(a.fetchOk, a.write, w.cloning);
    var g := BaseGroup(w, a.now, io);
    SyncMembers(g, memberId, generation, a.topics);
    if Absent(w.cell, memberId) { BaseAbsent(w, a.now, io, memberId); }
  }

  /** Within one generation any two successful syncs of a member return the same bytes, through
      failed and ambiguous writes, deletions, crashes and reloads, if either the group exists all
      the time between them or the member's id is not handed out anew between them. */
  lemma SyncAnswersAgree(cloning: bool, actions: seq<Action>, states: seq<World>, i: nat, j: nat,
                         memberId: Name, generation: int, answer: bytes, answer': bytes)
    requires IsRun(cloning, actions, states) && i < j < |actions|
    requires AnsweredSync(states[i], actions[i], memberId, generation, answer)
    requires AnsweredSync(states[j], actions[j], memberId, generation, answer')
    requires || (forall k :: i < k <= j ==> Exists(states[k].cell))
             || (forall k :: i < k < j ==> !Issues(states[k], actions[k], memberId))
    ensures answer == answer'
  {
    hide AnsweredSync, Step, Legal, Issues;
    if k :| i < k <= j && !Exists(states[k].cell) {
      StaysAbsent(cloning, actions, states, k, j, memberId);
      AnsweredIsMember(states[j], actions[j], memberId, generation, answer');
    } else {
      AgreeWhileExisting(cloning, actions, states, i, j, memberId, generation, answer, answer');
    }
  }

  // ------------------------------------------------------------ generations and crashes

  /** What a crash does to the generation, in any run: whatever request comes next works on the
      record's generation, or starts over without a record. That is behind the one that was in
      memory if and only if there is no record or its generation is behind. */
  lemma GenerationAfterCrash(cloning: bool, actions: seq<Action>, states: seq<World>, i: nat, now: int, io: Io)
    requires IsRun(cloning, actions, states) && i < |actions| && actions[i].Crash?
    requires states[i].cell.mem.Some? && io.fetchOk && io.cloning == cloning
    ensures var before, rec := states[i].cell.mem.value.generation, states[i].cell.rec;
            var after := BaseGroup(states[i + 1], now, io).generation;
            && Loaded(states[i + 1].cell, now, io).Ok?
            && after == (if rec.Some? then rec.value.generation else 0) <= before
            && (after < before <==> rec.None? || rec.value.generation < before)
  {
    hide Inv, Legal, Step, BaseGroup, Loaded;
    RunKeeps(cloning, actions, states, i);
    CrashStep(states[i]);
    ReloadedAt(states[i + 1], now, io);
    NotAhead(states[i]);
  }

  lemma NotAhead(w: World)
    requires Inv(w) && w.cell.mem.Some?
    ensures w.cell.mem.value.generation >= 1
    ensures w.cell.rec.Some? ==> w.cell.rec.value.generation <= w.cell.mem.value.generation
  {
    hide Says, RecordSays, Saved;
  }

  lemma RestoredGeneration(rec: GroupRecord, now: int)
    ensures RestoreGroupState(rec, now).generation == rec.generation
  {
  }

  /** A request that reports its write as done leaves the record at the group's own generation. */
  lemma DoneIsRecorded(rec: Option<GroupRecord>, g: Group, io: Io)
    requires g.members != map[] && io.write.Done?
    ensures var r := Persisted(rec, Some(g), io); r.Some? && r.value.generation == g.generation
  {
  }

  // -------------------------------------------------------------------------- witnesses

  /** A join of a new member that subscribes to `topic`. */
  function JoinOf(topic: Name): JoinRequest {
    JoinRequest([], [], [Protocol([], EncodeSubscription([topic]))], 0, 0)
  }

  lemma Subscribes(topic: Name)
    requires |topic| < TWO16
    ensures ParsedTopics(JoinOf(topic).protocols) == [topic]
  {
    hide ParsedTopics, EncodeSubscription;
    SubscriptionRoundTrip([], [topic]);
  }

  /** The first member of a group that does not exist joins it, alone. */
  lemma Founds(w: World, topic: Name, a: Name, now: int)
    requires Inv(w) && w.cell == Cell(None, None) && a != [] && |topic| < TWO16
    ensures var act := Join(JoinOf(topic), a, now, true, Done);
            var w' := Step(w, act);
            && Legal(w, act) && Inv(w') && w'.cloning == w.cloning && w'.cell.mem.Some? && w'.cell.rec.Some?
            && var g := w'.cell.mem.value;
               && w'.cell == Cell(Some(g), Some(Kept(BuildConsumerGroup(g), w.cloning)))
               && g == Joined(NEW_GROUP, JoinOf(topic), a, now).0
               && GroupOk(g) && g.leader == a && g.generation == 1 && g.phase.CompletingRebalance?
               && g.members.Keys == {a} && SubscriptionsOf(g) == map[a := [topic]]
  {
    hide Inv, GroupOk, Joined, Kept, BuildConsumerGroup, MemberSubscriptions, ParsedTopics, EncodeSubscription;
    var act := Join(JoinOf(topic), a, now, true, Done);
    FirstJoinIsReady(JoinOf(topic), a, now);
    Subscribes(topic);
    StepKeeps(w, act);
    var g := Joined(NEW_GROUP, JoinOf(topic), a, now).0;
    assert Step(w, act).cell == Cell(Some(g), Some(Kept(BuildConsumerGroup(g), w.cloning)));
    InMemoryOk(Step(w, act));
  }

  lemma InMemoryOk(w: World)
    requires Inv(w) && w.cell.mem.Some?
    ensures GroupOk(w.cell.mem.value)
  {
  }

  /** The leader of a group in CompletingRebalance syncs: what it is told, and the group after it. */
  lemma LeaderSyncs(w: World, topics: map<Name, seq<int>>, now: int)
    requires Inv(w) && w.cell.mem.Some? && w.cell.mem.value.phase.CompletingRebalance?
    requires Collectable(topics)
    ensures var g := w.cell.mem.value;
            var act := Sync(g.leader, g.generation, topics, now, true, Done);
            var w' := Step(w, act);
            && Legal(w, act) && Inv(w') && w'.cloning == w.cloning && w'.cell.mem.Some? && w'.cell.rec.Some?
            && var g' := w'.cell.mem.value;
               && GroupOk(g') && g'.phase.Stable? && g'.generation == g.generation && g'.members == g.members
               && g'.leader == g.leader && w'.cell.rec.value.generation == g.generation
               && g'.assignments == Assigned(SubscriptionsOf(g), topics)
               && AnsweredSync(w, act, g.leader, g.generation, EncodeAssignment(AssignmentOf(g', g.leader)))
  {
    hide Inv, Assigned, EncodeAssignment, Kept, BuildConsumerGroup, ExactCover;
    var g := w.cell.mem.value;
    var act := Sync(g.leader, g.generation, topics, now, true, Done);
    InMemoryOk(w);
    SyncCoversExactly(g, topics);
    StepKeeps(w, act);
    hide GroupOk;
    SyncMembers(g, g.leader, g.generation, topics);
    GroupMembers(g);
    CompletingUnassigned(g);
    var g' := SyncOutcome(g, g.leader, g.generation, topics).1;
    DoneIsRecorded(w.cell.rec, g', Io(true, Done, w.cloning));
    InMemoryOk(Step(w, act));
  }

  lemma CompletingUnassigned(g: Group)
    requires GroupOk(g) && g.phase.CompletingRebalance?
    ensures g.assignments == map[]
  {
  }

  /** A run of the given steps: each is legal, and leads from one state to the next. */
  ghost predicate Steps(w: World, actions: seq<Action>, states: seq<World>)
    decreases |actions|
  {
    if actions == [] then states == [w]
    else states != [] && states[0] == w && Legal(w, actions[0]) && Steps(Step(w, actions[0]), actions[1..], states[1..])
  }

  lemma {:induction false} StepsRun(w: World, actions: seq<Action>, states: seq<World>)
    requires Steps(w, actions, states)
    ensures |states| == |actions| + 1 && states[0] == w
    ensures forall i ::
              0 <= i < |actions| ==> Legal(states[i], actions[i]) && states[i + 1] == Step(states[i], actions[i])
    decreases |actions|
  {
    hide Step, Legal;
    if actions != [] {
      StepsRun(Step(w, actions[0]), actions[1..], states[1..]);
      forall i | 0 <= i < |actions|
        ensures Legal(states[i], actions[i]) && states[i + 1] == Step(states[i], actions[i])
      {
        if i > 0 { assert states[i] == states[1..][i - 1] && actions[i] == actions[1..][i - 1]; }
      }
    }
  }

  lemma StepsOne(a: Action, w: World, actions: seq<Action>, states: seq<World>)
    requires Legal(w, a) && Steps(Step(w, a), actions, states)
    ensures Steps(w, [a] + actions, [w] + states)
  {
    hide Step, Legal;
    assert ([a] + actions)[1..] == actions && ([w] + states)[1..] == states;
  }

  /** The generation goes back: a stranger's join starts generation 2, its write is lost, the broker
      crashes, and the next request works on generation 1. */
  lemma GenerationGoesBack(cloning: bool, topic: Name, a: Name, b: Name, now: int)
    returns (actions: seq<Action>, states: seq<World>)
    requires |topic| < TWO16 && a != [] && b != [] && a != b
    ensures IsRun(cloning, actions, states) && |actions| == 4 && actions[3].Crash?
    ensures states[3].cell.mem.Some? && states[3].cell.mem.value.generation == 2
    ensures BaseGroup(states[4], now, Io(true, Done, cloning)).generation == 1
  {
    hide Inv, GroupOk, Step, Legal, Assigned, SubscriptionsOf, Kept, BuildConsumerGroup, Steps, AnsweredSync, Joined,
         JoinOf;
    hide BaseGroup;
    InitInv(cloning);
    var w0 := Init(cloning);
    var a0, a1 := Join(JoinOf(topic), a, now, true, Done), Sync(a, 1, map[], now, true, Done);
    var a2 := Join(JoinOf(topic), b, now, true, Failed(false));
    Founds(w0, topic, a, now);
    var w1 := Step(w0, a0);
    LeaderSyncs(w1, map[], now);
    var w2 := Step(w1, a1);
    StrangerJoins(w2, topic, b, now);
    var w3 := Step(w2, a2);
    CrashStep(w3);
    var w4 := Step(w3, Crash);
    StepsNone(w4);
    StepsOne(Crash, w3, [], [w4]);
    StepsOne(a2, w2, [Crash] + [], [w3] + [w4]);
    StepsOne(a1, w1, [a2] + ([Crash] + []), [w2] + ([w3] + [w4]));
    StepsOne(a0, w0, [a1] + ([a2] + ([Crash] + [])), [w1] + ([w2] + ([w3] + [w4])));
    actions, states := [a0] + ([a1] + ([a2] + ([Crash] + []))), [w0] + ([w1] + ([w2] + ([w3] + [w4])));
    StepsRun(w0, actions, states);
    ReloadedAt(w4, now, Io(true, Done, cloning));
  }

  lemma StepsNone(w: World)
    ensures Steps(w, [], [w])
  {
  }

  lemma ReloadedAt(w: World, now: int, io: Io)
    requires w.cell.mem.None? && io.fetchOk
    ensures Loaded(w.cell, now, io).Ok?
    ensures BaseGroup(w, now, io).generation == if w.cell.rec.Some? then w.cell.rec.value.generation else 0
  {
    hide RestoreGroupState;
    if w.cell.rec.Some? { RestoredGeneration(w.cell.rec.value, now); }
  }

  lemma InitInv(cloning: bool)
    ensures Inv(Init(cloning))
  {
  }

  lemma CrashStep(w: World)
    ensures Legal(w, Crash) && Step(w, Crash).cell == Cell(None, w.cell.rec)
  {
  }

  /** A stranger's join to a stable group whose write is lost: memory moves on, the record does not. */
  lemma StrangerJoins(w: World, topic: Name, b: Name, now: int)
    requires Inv(w) && w.cell.mem.Some? && w.cell.mem.value.phase.Stable? && b != [] && b !in w.cell.mem.value.members
    ensures var act := Join(JoinOf(topic), b, now, true, Failed(false));
            var w' := Step(w, act);
            && Legal(w, act) && w'.cell.rec == w.cell.rec
            && w'.cell.mem.Some? && w'.cell.mem.value.generation == w.cell.mem.value.generation + 1
  {
    hide Inv, GroupOk, Joined, MemberSubscriptions, EncodeSubscription;
    InMemoryOk(w);
    JoinExactly(w.cell.mem.value, JoinOf(topic), b, now);
  }

  /** The answers differ: a member is told in generation 1 that it has nothing to read, leaves and
      so ends the group; its id is handed out again, and in the new generation 1 it is told to read
      a partition. Neither condition of SyncAnswersAgree can be dropped. */
  lemma AnswersDiffer(cloning: bool, topic: Name, a: Name, now: int)
      returns (actions: seq<Action>, states: seq<World>, answer: bytes, answer': bytes)
    requires |topic| < TWO16 && a != []
    ensures IsRun(cloning, actions, states) && |actions| == 5
    ensures AnsweredSync(states[1], actions[1], a, 1, answer) && AnsweredSync(states[4], actions[4], a, 1, answer')
    ensures answer != answer'
  {
    hide Inv, GroupOk, Step, Legal, Assigned, AnsweredSync, EncodeAssignment, Kept, BuildConsumerGroup, Steps, Joined,
         JoinOf;
    InitInv(cloning);
    var w0 := Init(cloning);
    var topics := map[topic := [0]];
    assert Distinct([0]);
    var a0, a1 := Join(JoinOf(topic), a, now, true, Done), Sync(a, 1, map[], now, true, Done);
    var a2, a4 := Leave(a, now, true, Done), Sync(a, 1, topics, now, true, Done);
    Founds(w0, topic, a, now);
    var w1 := Step(w0, a0);
    LeaderSyncs(w1, map[], now);
    var w2 := Step(w1, a1);
    LastLeaves(w2, a, now);
    var w3 := Step(w2, a2);
    Founds(w3, topic, a, now);
    var w4 := Step(w3, a0);
    LeaderSyncs(w4, topics, now);
    var w5 := Step(w4, a4);
    StepsNone(w5);
    StepsOne(a4, w4, [], [w5]);
    StepsOne(a0, w3, [a4] + [], [w4] + [w5]);
    StepsOne(a2, w2, [a0] + ([a4] + []), [w3] + ([w4] + [w5]));
    StepsOne(a1, w1, [a2] + ([a0] + ([a4] + [])), [w2] + ([w3] + ([w4] + [w5])));
    StepsOne(a0, w0, [a1] + ([a2] + ([a0] + ([a4] + []))), [w1] + ([w2] + ([w3] + ([w4] + [w5]))));
    actions := [a0] + ([a1] + ([a2] + ([a0] + ([a4] + []))));
    states := [w0] + ([w1] + ([w2] + ([w3] + ([w4] + [w5]))));
    StepsRun(w0, actions, states);
    answer := EncodeAssignment(AssignmentOf(w2.cell.mem.value, a));
    answer' := EncodeAssignment(AssignmentOf(w5.cell.mem.value, a));
    var subs := map[a := [topic]];
    NothingAssigned(subs, a);
    SomethingAssigned(subs, topic, a);
    LongerAnswer(Assigned(subs, topics)[a]);
  }

  lemma LastLeaves(w: World, a: Name, now: int)
    requires Inv(w) && w.cell.mem.Some? && w.cell.mem.value.members.Keys == {a}
    ensures var act := Leave(a, now, true, Done);
            Legal(w, act) && Step(w, act).cell == Cell(None, None) && Inv(Step(w, act))
                && Step(w, act).cloning == w.cloning
  {
    hide Inv, GroupOk, Left;
    InMemoryOk(w);
    LeftExactly(w.cell.mem.value, a, now);
    StepKeeps(w, Leave(a, now, true, Done));
  }

  /** With no topics collected nobody is assigned anything. */
  lemma NothingAssigned(subs: map<Name, seq<Name>>, a: Name)
    requires a in subs
    ensures Assigned(subs, map[])[a] == []
  {
    hide Assigned;
    var r: map<Name, seq<AssignmentTopic>> := Assigned(subs, map[]);
    AssignedExactCover(subs, map[]);
    if r[a] != [] {
      AssignedCanonical(subs, map[], a, 0);
      Holds(r, a);
    }
  }

  lemma Holds(r: map<Name, seq<AssignmentTopic>>, a: Name)
    requires a in r && r[a] != [] && r[a][0].partitions != []
    ensures exists t, p :: Held(r, t, p)
  {
    var t := r[a][0];
    assert t.partitions[0] in t.partitions;
    assert Has(r, a, t.name, t.partitions[0]);
    assert Held(r, t.name, t.partitions[0]);
  }

  lemma SomethingAssigned(subs: map<Name, seq<Name>>, topic: Name, a: Name)
    requires subs == map[a := [topic]]
    ensures Assigned(subs, map[topic := [0]])[a] != []
  {
    hide Assigned;
    var topics := map[topic := [0]];
    var r: map<Name, seq<AssignmentTopic>> := Assigned(subs, topics);
    assert Distinct([0]);
    AssignedExactCover(subs, topics);
    assert a in subs && topic in subs[a];
    assert Wanted(subs, topic);
    assert Held(r, topic, 0);
  }

  lemma LongerAnswer(topics: seq<AssignmentTopic>)
    requires topics != []
    ensures |EncodeAssignment(topics)| > |EncodeAssignment([])|
  {
    hide PutUint16, PutUint32;
  }
}
