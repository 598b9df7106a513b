/** Every run of the coordinator on one group: requests, cleanup passes, deletions, store
    failures, crashes and reloads. */
module GroupRuns {
  import opened Bytes
  import opened Wrappers
  import opened Sorting
  import opened Assignment
  import opened Subscriptions
  import opened Groups
  import opened GroupRecords
  import opened GroupMachine
  import opened GroupInvariant

  // ------------------------------------------------------------------- the machine

  /** A sync answered NONE: to whom, in which generation, with which bytes. */
  datatype Synced = Synced(generation: int, member: Name, assignment: bytes)

  /** `synced`, the answers given since the group came into being, is a history variable. */
  datatype World = World(cell: Cell, cloning: bool, synced: set<Synced>)

  datatype Action =
    | Join(req: JoinRequest, freshId: Name, now: int, fetchOk: bool, write: Write)
    | Sync(memberId: Name, generation: int, topics: map<Name, seq<int>>, now: int, fetchOk: bool, write: Write)
    | Beat(memberId: Name, generation: int, now: int, fetchOk: bool, write: Write)
    | Leave(memberId: Name, now: int, fetchOk: bool, write: Write)
    | Sweep(now: int, write: Write)
    | Delete(fetchOk: bool, write: Write)
    | Crash

  /** New member ids are fresh, millisecond fields are 32-bit, and partition lists have no duplicates. */
  ghost predicate Legal(w: World, a: Action) {
    match a
    case Join(req, freshId, now, fetchOk, write) =>
      && IsInt32(req.sessionTimeoutMs) && IsInt32(req.rebalanceTimeoutMs) && freshId != []
      && freshId !in BaseGroup(w, now, Io(fetchOk, write, w.cloning)).members
    case Sync(_, _, topics, _, _, _) => Collectable(topics)
    case _ => true
  }

  /** The group a request starts from: the loaded one, or a new one. */
  ghost function BaseGroup(w: World, now: int, io: Io): Group {
    var found := Loaded(w.cell, now, io);
    if found.Ok? && found.value.Some? then found.value.value else NEW_GROUP
  }

  /** The group exists, in memory or in the store. */
  predicate Exists(c: Cell) {
    c.mem.Some? || c.rec.Some?
  }

  /** The world after a request that led to the cell `c`. */
  function Recorded(w: World, c: Cell, sync: set<Synced>): World {
    World(c, w.cloning, if Exists(c) then w.synced + sync else {})
  }

  ghost function Step(w: World, a: Action): World {
    match a
    case Join(req, freshId, now, fetchOk, write) =>
      var io := Io(fetchOk, write, w.cloning);
      if Loaded(w.cell, now, io).Err? then w
      else Recorded(w, JoinGroup(w.cell, req, freshId, now, io).0, {})
    case Sync(memberId, generation, topics, now, fetchOk, write) =>
      var io := Io(fetchOk, write, w.cloning);
      var (c, resp) := SyncGroup(w.cell, memberId, generation, topics, now, io);
      if c.mem.None? then w
      else Recorded(w, c,
                    if resp.Some? && resp.value.code == NONE then {Synced(generation, memberId, resp.value.assignment)}
                        else {})
    case Beat(memberId, generation, now, fetchOk, write) =>
      var io := Io(fetchOk, write, w.cloning);
      var c := Heartbeat(w.cell, memberId, generation, now, io).0;
      if c.mem.None? then w else Recorded(w, c, {})
    case Leave(memberId, now, fetchOk, write) =>
      var io := Io(fetchOk, write, w.cloning);
      Recorded(w, LeaveGroup(w.cell, memberId, now, io).0, {})
    case Sweep(now, write) =>
      var io := Io(true, write, w.cloning);
      if w.cell.mem.None? then w else Recorded(w, Cleanup(w.cell, now, io), {})
    case Delete(fetchOk, write) =>
      Recorded(w, DeleteGroup(w.cell, Io(fetchOk, write, w.cloning)), {})
    case Crash =>
      Recorded(w, Cell(None, w.cell.rec), {})
  }

  function Init(cloning: bool): World {
    World(Cell(None, None), cloning, {})
  }

  ghost predicate IsRun(cloning: bool, actions: seq<Action>, states: seq<World>) {
    && |states| == |actions| + 1 && states[0] == Init(cloning)
    && forall i :: 0 <= i < |actions| ==> Legal(states[i], actions[i]) && states[i + 1] == Step(states[i], actions[i])
  }

  // ----------------------------------------------------------------- the invariant

  /** The record is what some well-formed group persisted. */
  ghost predicate Saved(rec: GroupRecord, cloning: bool) {
    exists g :: GroupOk(g) && rec == Kept(BuildConsumerGroup(g), cloning)
  }

  /** `g` answers member `s.member` in generation `s.generation` with `s.assignment`. */
  ghost predicate Says(g: Group, s: Synced) {
    g.phase.Stable? && EncodeAssignment(AssignmentOf(g, s.member)) == s.assignment
  }

  ghost predicate RecordSays(rec: GroupRecord, s: Synced) {
    s.generation <= rec.generation && (s.generation == rec.generation ==> Says(RestoreGroupState(rec, 0), s))
  }

  /** A group that a request may start from, consistent with the record and the answers given. */
  ghost predicate Consistent(w: World, g: Group) {
    && (w.cell.rec.Some? ==> w.cell.rec.value.generation <= g.generation)
    && forall s :: s in w.synced ==> s.generation <= g.generation && (s.generation == g.generation ==> Says(g, s))
  }

  ghost predicate Inv(w: World) {
    && (w.cell.mem.Some? ==> GroupOk(w.cell.mem.value) && Consistent(w, w.cell.mem.value))
    && (w.cell.rec.Some? ==> Saved(w.cell.rec.value, w.cloning))
    && (!Exists(w.cell) ==> w.synced == {})
    && (forall s :: s in w.synced && w.cell.rec.Some? ==> RecordSays(w.cell.rec.value, s))
    && (forall s, s' ::
          s in w.synced && s' in w.synced && s.generation == s'.generation && s.member == s'.member ==> s == s')
  }

  lemma RestoredSaysSame(rec: GroupRecord, cloning: bool, now: int, s: Synced)
    requires Saved(rec, cloning)
    ensures GroupOk(RestoreGroupState(rec, now)) && RestoreGroupState(rec, now).generation == rec.generation
    ensures Says(RestoreGroupState(rec, now), s) <==> Says(RestoreGroupState(rec, 0), s)
  {
    var g :| GroupOk(g) && rec == Kept(BuildConsumerGroup(g), cloning);
    RestoreBuilt(g, cloning, now);
    RestoreBuilt(g, cloning, 0);
    hide GroupOk, RestoreGroupState;
    BuiltGeneration(g, cloning);
  }

  lemma BuiltGeneration(g: Group, cloning: bool)
    ensures Kept(BuildConsumerGroup(g), cloning).generation == g.generation
  {
  }

  lemma BuiltSays(g: Group, cloning: bool, s: Synced)
    requires GroupOk(g) && s.generation <= g.generation && (s.generation == g.generation ==> Says(g, s))
    ensures RecordSays(Kept(BuildConsumerGroup(g), cloning), s)
  {
    RestoreBuilt(g, cloning, 0);
    BuiltGeneration(g, cloning);
    hide GroupOk, RestoreGroupState, Kept, BuildConsumerGroup;
  }

  /** Loading yields a well-formed group that agrees with every answer given. */
  lemma BaseOk(w: World, now: int, io: Io)
    requires Inv(w) && io.cloning == w.cloning
    ensures Loaded(w.cell, now, io).Ok? ==> Startable(BaseGroup(w, now, io)) && Consistent(w, BaseGroup(w, now, io))
    ensures Loaded(w.cell, now, io).Ok? && Loaded(w.cell, now, io).value.Some? ==> GroupOk(BaseGroup(w, now, io))
    ensures w.cell.mem.Some? ==> BaseGroup(w, now, io) == w.cell.mem.value
  {
    hide GroupOk, Says, RestoreGroupState;
    if w.cell.mem.None? && w.cell.rec.Some? {
      var rec := w.cell.rec.value;
      RestoredSaysSame(rec, w.cloning, now, Synced(0, [], []));
      forall s | s in w.synced && s.generation == rec.generation ensures Says(RestoreGroupState(rec, now), s) {
        RestoredSaysSame(rec, w.cloning, now, s);
        assert RecordSays(rec, s);
      }
    }
  }

  // --------------------------------------------------------------- requests keep it

  /** The record after a request: as before, or the new group's. */
  ghost predicate Follows(w: World, g': Group, rec: Option<GroupRecord>) {
    rec == w.cell.rec || rec == Some(Kept(BuildConsumerGroup(g'), w.cloning))
  }

  /** Across one step, a group that stays in memory evolves and a record that stays moves forward. */
  ghost predicate Advances(w: World, w': World) {
    && (w.cell.mem.Some? && w'.cell.mem.Some? ==> Evolves(w.cell.mem.value, w'.cell.mem.value))
    && (w.cell.rec.Some? && w'.cell.rec.Some? ==> w.cell.rec.value.generation <= w'.cell.rec.value.generation)
  }

  /** An answered group agrees with all the answers given before. */
  lemma EvolvedConsistent(w: World, g: Group, g': Group, s: Synced)
    requires Inv(w) && Consistent(w, g) && Evolves(g, g') && s in w.synced
    ensures s.generation <= g'.generation && (s.generation == g'.generation ==> Says(g', s))
  {
    hide GroupOk, Saved, EncodeAssignment;
  }

  lemma SyncedKeeps(w: World, g: Group, g': Group, rec: Option<GroupRecord>, sync: set<Synced>)
    requires Inv(w) && GroupOk(g') && Consistent(w, g) && Evolves(g, g') && Follows(w, g', rec)
    requires sync != {} ==> rec == Some(Kept(BuildConsumerGroup(g'), w.cloning))
    requires forall s :: s in sync ==> s.generation == g'.generation && Says(g', s)
    ensures rec.Some? ==> Saved(rec.value, w.cloning) && rec.value.generation <= g'.generation
    ensures rec.Some? ==> forall s :: s in w.synced + sync ==> RecordSays(rec.value, s)
    ensures forall s :: s in w.synced + sync ==>
              s.generation <= g'.generation && (s.generation == g'.generation ==> Says(g', s))
    ensures forall s, s' ::
              && s in w.synced + sync && s' in w.synced + sync
              && s.generation == s'.generation && s.member == s'.member
              ==> s == s'
  {
    hide GroupOk, Evolves, EncodeAssignment, RestoreGroupState, Kept, BuildConsumerGroup, RecordSays;
    BuiltGeneration(g', w.cloning);
    forall s | s in w.synced + sync
      ensures s.generation <= g'.generation && (s.generation == g'.generation ==> Says(g', s))
    {
      if s in w.synced { EvolvedConsistent(w, g, g', s); }
    }
    if rec == Some(Kept(BuildConsumerGroup(g'), w.cloning)) {
      forall s | s in w.synced + sync ensures RecordSays(rec.value, s) { BuiltSays(g', w.cloning, s); }
    }
    EvolvedGeneration(w, g, g');
  }

  lemma EvolvedGeneration(w: World, g: Group, g': Group)
    requires Consistent(w, g) && Evolves(g, g')
    ensures w.cell.rec.Some? ==> w.cell.rec.value.generation <= g'.generation
  {
  }

  lemma RequestKeeps(w: World, g: Group, g': Group, rec: Option<GroupRecord>, sync: set<Synced>)
    requires Inv(w) && GroupOk(g') && Consistent(w, g) && Evolves(g, g')
             && Follows(w, g', rec)
    requires w.cell.mem.Some? ==> g == w.cell.mem.value
    requires sync != {} ==> rec == Some(Kept(BuildConsumerGroup(g'), w.cloning))
    requires forall s :: s in sync ==> s.generation == g'.generation && Says(g', s)
    ensures Inv(Recorded(w, Cell(Some(g'), rec), sync))
    ensures Advances(w, Recorded(w, Cell(Some(g'), rec), sync))
  {
    hide GroupOk, Saved, Says, RecordSays, Kept, BuildConsumerGroup, Evolves;
    BuiltGeneration(g', w.cloning);
    EvolvedGeneration(w, g, g');
    SyncedKeeps(w, g, g', rec, sync);
  }

  /** A request that leaves no group in memory. */
  lemma GoneKeeps(w: World, rec: Option<GroupRecord>)
    requires Inv(w) && (rec == w.cell.rec || rec.None?)
    ensures Inv(Recorded(w, Cell(None, rec), {})) && Advances(w, Recorded(w, Cell(None, rec), {}))
  {
    hide GroupOk, Saved, Says, RecordSays;
  }

  lemma PersistedFollows(w: World, g': Group, io: Io)
    requires GroupOk(g') && io.cloning == w.cloning
    ensures Follows(w, g', Persisted(w.cell.rec, Some(g'), io))
    ensures io.write.Done? ==> Persisted(w.cell.rec, Some(g'), io) == Some(Kept(BuildConsumerGroup(g'), w.cloning))
  {
    hide Kept, BuildConsumerGroup;
  }

  lemma AdvancesSame(w: World)
    ensures Advances(w, w)
  {
  }

  lemma JoinKeeps(w: World, a: Action)
    requires Inv(w) && a.Join? && Legal(w, a)
    ensures Inv(Step(w, a)) && Advances(w, Step(w, a))
  {
    hide Inv, Advances, GroupOk, Persisted, Evolves, Joined, Recorded, Consistent, Follows,
         MemberSubscriptions;
    AdvancesSame(w);
    var io := Io(a.fetchOk, a.write, w.cloning);
    BaseOk(w, a.now, io);
    if Loaded(w.cell, a.now, io).Ok? {
      var g := BaseGroup(w, a.now, io);
      JoinOk(g, a.req, a.freshId, a.now);
      var g' := Joined(g, a.req, a.freshId, a.now).0;
      PersistedFollows(w, g', io);
      RequestKeeps(w, g, g', Persisted(w.cell.rec, Some(g'), io), {});
    }
  }

  lemma SyncKeeps(w: World, a: Action)
    requires Inv(w) && a.Sync? && Legal(w, a)
    ensures Inv(Step(w, a)) && Advances(w, Step(w, a))
  {
    hide Inv, Advances, GroupOk, Persisted, Evolves, SyncOutcome, Recorded, Consistent, Follows,
         EncodeAssignment;
    AdvancesSame(w);
    var io := Io(a.fetchOk, a.write, w.cloning);
    BaseOk(w, a.now, io);
    var found := Loaded(w.cell, a.now, io);
    if found.Ok? && found.value.Some? {
      var g := BaseGroup(w, a.now, io);
      SyncOk(g, a.memberId, a.generation, a.topics);
      var (code, g') := SyncOutcome(g, a.memberId, a.generation, a.topics);
      FollowsSame(w, g');
      PersistedFollows(w, g', io);
      if code != NONE {
        RequestKeeps(w, g, g', w.cell.rec, {});
      } else {
        var synced := Synced(a.generation, a.memberId, EncodeAssignment(AssignmentOf(g', a.memberId)));
        var sync := if io.write.Done? then {synced} else {};
        RequestKeeps(w, g, g', Persisted(w.cell.rec, Some(g'), io), sync);
      }
    }
  }

  lemma FollowsSame(w: World, g': Group)
    ensures Follows(w, g', w.cell.rec)
  {
  }

  lemma SameEvolves(g: Group)
    ensures Evolves(g, g)
  {
  }

  lemma BeatKeeps(w: World, a: Action)
    requires Inv(w) && a.Beat?
    ensures Inv(Step(w, a)) && Advances(w, Step(w, a))
  {
    hide Inv, Advances, GroupOk, Persisted, Evolves, Recorded, Consistent, Follows;
    AdvancesSame(w);
    var io := Io(a.fetchOk, a.write, w.cloning);
    BaseOk(w, a.now, io);
    var found := Loaded(w.cell, a.now, io);
    if found.Ok? && found.value.Some? {
      var g := BaseGroup(w, a.now, io);
      SameEvolves(g);
      FollowsSame(w, g);
      RequestKeeps(w, g, g, w.cell.rec, {});
      if a.memberId in g.members {
        HeartbeatOk(g, a.memberId, a.now);
        var g' := g.(members := g.members[a.memberId := g.members[a.memberId].(lastHeartbeat := Some(a.now))]);
        PersistedFollows(w, g', io);
        RequestKeeps(w, g, g', Persisted(w.cell.rec, Some(g'), io), {});
      }
    }
  }

  lemma LeaveKeeps(w: World, a: Action)
    requires Inv(w) && a.Leave?
    ensures Inv(Step(w, a)) && Advances(w, Step(w, a))
  {
    hide Inv, Advances, GroupOk, Evolves, Recorded, Consistent, Follows, Left, Kept, BuildConsumerGroup;
    var io := Io(a.fetchOk, a.write, w.cloning);
    BaseOk(w, a.now, io);
    var found := Loaded(w.cell, a.now, io);
    var g := BaseGroup(w, a.now, io);
    if found.Ok? && found.value.Some? {
      SameEvolves(g);
      FollowsSame(w, g);
      RequestKeeps(w, g, g, w.cell.rec, {});
      if a.memberId in g.members {
        LeftOk(g, a.memberId, a.now);
        var left := Left(g, a.memberId, a.now);
        if left.Some? {
          PersistedFollows(w, left.value, io);
          RequestKeeps(w, g, left.value, Persisted(w.cell.rec, left, io), {});
        } else {
          GoneKeeps(w, Persisted(w.cell.rec, None, io));
        }
      }
    } else {
      GoneKeeps(w, w.cell.rec);
    }
  }

  lemma SweepKeeps(w: World, a: Action)
    requires Inv(w) && a.Sweep?
    ensures Inv(Step(w, a)) && Advances(w, Step(w, a))
  {
    hide Inv, Advances, GroupOk, Evolves, Recorded, Consistent, Follows, Swept, Kept, BuildConsumerGroup;
    AdvancesSame(w);
    var io := Io(true, a.write, w.cloning);
    if w.cell.mem.Some? {
      BaseOk(w, a.now, io);
      var g := w.cell.mem.value;
      SweptOk(g, a.now);
      var (g', changed) := Swept(g, a.now);
      if g'.Some? {
        FollowsSame(w, g'.value);
        PersistedFollows(w, g'.value, io);
        RequestKeeps(w, g, g'.value, if changed then Persisted(w.cell.rec, g', io) else w.cell.rec, {});
      } else {
        GoneKeeps(w, Persisted(w.cell.rec, None, io));
      }
    }
  }

  lemma DeleteKeeps(w: World, a: Action)
    requires Inv(w) && (a.Delete? || a.Crash?)
    ensures Inv(Step(w, a)) && Advances(w, Step(w, a))
  {
    hide GroupOk, Saved, Says, RecordSays;
  }

  lemma StepKeeps(w: World, a: Action)
    requires Inv(w) && Legal(w, a)
    ensures Inv(Step(w, a)) && Advances(w, Step(w, a))
  {
    hide Inv, Advances, Step, Legal;
    match a
    case Join(_, _, _, _, _) => JoinKeeps(w, a);
    case Sync(_, _, _, _, _, _) => SyncKeeps(w, a);
    case Beat(_, _, _, _, _) => BeatKeeps(w, a);
    case Leave(_, _, _, _) => LeaveKeeps(w, a);
    case Sweep(_, _) => SweepKeeps(w, a);
    case Delete(_, _) => DeleteKeeps(w, a);
    case Crash => DeleteKeeps(w, a);
  }

  /** Every state of every run satisfies the invariant. */
  lemma {:induction false} RunKeeps(cloning: bool, actions: seq<Action>, states: seq<World>, i: nat)
    requires IsRun(cloning, actions, states) && i < |states|
    ensures Inv(states[i])
  {
    hide Step, Legal;
    if i > 0 {
      RunKeeps(cloning, actions, states, i - 1);
      hide Inv;
      StepKeeps(states[i - 1], actions[i - 1]);
    }
  }
}
