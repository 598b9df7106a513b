/** The coordinator's requests on one consumer group, each one atomic step over the group in
    memory and its persisted record (pkg/broker/coordinator.go). */
module GroupMachine {
  import opened Bytes
  import opened Durations
  import opened Wrappers
  import opened Sorting
  import opened Assignment
  import opened Subscriptions
  import opened Groups
  import opened GroupRecords

  datatype Code = NONE | REBALANCE_IN_PROGRESS | ILLEGAL_GENERATION | UNKNOWN_MEMBER_ID | UNKNOWN_SERVER_ERROR
                | GROUP_ID_NOT_FOUND | INVALID_REQUEST

  datatype JoinRequest = JoinRequest(memberId: Name, protocolType: Name, protocols: seq<Protocol>,
                                     sessionTimeoutMs: int, rebalanceTimeoutMs: int)

  datatype JoinResponse = JoinResponse(code: Code, generation: int, protocolName: Name, leader: Name, memberId: Name,
                                       members: seq<(Name, bytes)>)

  datatype SyncResponse = SyncResponse(code: Code, assignment: bytes)

  /** One group: in memory, and in the metadata store. */
  datatype Cell = Cell(mem: Option<Group>, rec: Option<GroupRecord>)

  /** How the metadata store behaves during one request. */
  datatype Io = Io(fetchOk: bool, write: Write, cloning: bool)

  function Persisted(rec: Option<GroupRecord>, g: Option<Group>, io: Io): Option<GroupRecord> {
    if !io.write.Applied() then rec
    else if g.None? || g.value.members == map[] then None
    else Some(Kept(BuildConsumerGroup(g.value), io.cloning))
  }

  /** The group a request works on: in memory, else loaded, else none; an error if loading fails. */
  ghost function Loaded(c: Cell, now: int, io: Io): Result<Option<Group>> {
    if c.mem.Some? then Ok(c.mem)
    else if !io.fetchOk then Err(Unavailable)
    else if c.rec.None? then Ok(None)
    else Ok(Some(RestoreGroupState(c.rec.value, now)))
  }

  // -------------------------------------------------------------------- JoinGroup

  function JoinTimeout(req: JoinRequest): int {
    if req.rebalanceTimeoutMs <= 0 then DEFAULT_TIMEOUT else req.rebalanceTimeoutMs * MILLISECOND
  }

  predicate Known(g: Group, req: JoinRequest) {
    req.memberId != [] && req.memberId in g.members
  }

  /** The id a join is for: the member's own if it is known, a new one otherwise. */
  function JoinId(g: Group, req: JoinRequest, freshId: Name): Name {
    if Known(g, req) then req.memberId else freshId
  }

  function JoiningMember(g: Group, req: JoinRequest, now: int): Member {
    var m := if Known(g, req) then g.members[req.memberId] else Member([], 0, None, 0);
    m.(topics := ParsedTopics(req.protocols), lastHeartbeat := Some(now),
       sessionTimeout := if req.sessionTimeoutMs > 0 then req.sessionTimeoutMs * MILLISECOND
                         else if m.sessionTimeout == 0 then DEFAULT_TIMEOUT else m.sessionTimeout)
  }

  /** The group with the joining member entered. */
  function Entered(g: Group, req: JoinRequest, freshId: Name, now: int): Group {
    var id := JoinId(g, req, freshId);
    g.(protocolType := req.protocolType,
       protocolName := if req.protocols != [] then req.protocols[0].name else g.protocolName,
       members := g.members[id := JoiningMember(g, req, now)])
  }

  /** Whether the join starts a rebalance, and if not, whether it extends one. */
  ghost function Rebalanced(g: Group, id: Name, exists_: bool, timeout: int, now: int): Group {
    if |g.members| == 1 && g.phase.Empty? then StartRebalance(g.(leader := id), timeout, now)
    else if g.phase.Stable? && !exists_ then StartRebalance(g, timeout, now)
    else if g.phase.Empty? then StartRebalance(g, timeout, now)
    else if g.phase.PreparingRebalance? || g.phase.CompletingRebalance? then BumpRebalanceDeadline(g, timeout, now)
    else g
  }

  function MarkJoined(g: Group, id: Name): Group
    requires id in g.members
  {
    g.(members := g.members[id := g.members[id].(joinGeneration := g.generation)])
  }

  ghost function Joined(g: Group, req: JoinRequest, freshId: Name, now: int): (Group, bool) {
    var id := JoinId(g, req, freshId);
    var g1 := Rebalanced(Entered(g, req, freshId, now), id, Known(g, req), JoinTimeout(req), now);
    if id !in g1.members then (g1, false)
    else
      var g2 := MarkJoined(g1, id);
      var g3 := if g2.leader == [] then EnsureLeader(g2) else g2;
      if g3.phase.Stable? || g3.phase.CompletingRebalance? then (g3, true) else CompleteIfReady(g3)
  }

  function MemberSubscription(g: Group, id: Name): (Name, bytes) {
    (id, EncodeSubscription(if id in g.members then g.members[id].topics else []))
  }

  ghost function MemberSubscriptions(g: Group): seq<(Name, bytes)> {
    var ids := Sorted(g.members.Keys);
    seq(|ids|, i requires 0 <= i < |ids| => MemberSubscription(g, ids[i]))
  }

  ghost function JoinGroup(c: Cell, req: JoinRequest, freshId: Name, now: int, io: Io): (Cell, Option<JoinResponse>) {
    match Loaded(c, now, io)
    case Err(_) => (c, None)
    case Ok(found) =>
      var g := if found.Some? then found.value else NEW_GROUP;
      var id := JoinId(g, req, freshId);
      var (g', ready) := Joined(g, req, freshId, now);
      var code := if !io.write.Done? then UNKNOWN_SERVER_ERROR else if ready then NONE else REBALANCE_IN_PROGRESS;
      (Cell(Some(g'), Persisted(c.rec, Some(g'), io)),
       Some(JoinResponse(code, g'.generation, g'.protocolName, g'.leader, id,
                         if ready && id == g'.leader then MemberSubscriptions(g') else [])))
  }

  // -------------------------------------------------------------------- SyncGroup

  /** The group after the leader's sync assigned the collected topics, if this sync is that one. */
  ghost function Assigning(g: Group, topics: map<Name, seq<int>>): Group {
    if g.phase.CompletingRebalance? && g.assignments == map[]
    then MarkStable(g.(assignments := Assigned(SubscriptionsOf(g), topics)))
    else g
  }

  /** The answer without the store: refused, or the member's assignment in `g'`. */
  ghost function SyncOutcome(g: Group, memberId: Name, generation: int, topics: map<Name, seq<int>>): (Code, Group) {
    if generation != g.generation then (ILLEGAL_GENERATION, g)
    else if memberId !in g.members then (UNKNOWN_MEMBER_ID, g)
    else if g.phase.PreparingRebalance? then (REBALANCE_IN_PROGRESS, g)
    else if g.phase.CompletingRebalance? && g.assignments == map[] && memberId != g.leader then
      (REBALANCE_IN_PROGRESS, g)
    else
      var g' := Assigning(g, topics);
      if AssignmentOf(g', memberId) == [] && !g'.phase.Stable? then (REBALANCE_IN_PROGRESS, g') else (NONE, g')
  }

  ghost function SyncGroup(c: Cell, memberId: Name, generation: int, topics: map<Name, seq<int>>, now: int,
                           io: Io): (Cell, Option<SyncResponse>) {
    match Loaded(c, now, io)
    case Err(_) => (c, None)
    case Ok(None) => (c, Some(SyncResponse(UNKNOWN_MEMBER_ID, [])))
    case Ok(Some(g)) =>
      var (code, g') := SyncOutcome(g, memberId, generation, topics);
      if code != NONE then (c.(mem := Some(g')), Some(SyncResponse(code, [])))
      else (Cell(Some(g'), Persisted(c.rec, Some(g'), io)),
            Some(SyncResponse(if io.write.Done? then NONE else UNKNOWN_SERVER_ERROR,
                              EncodeAssignment(AssignmentOf(g', memberId)))))
  }

  // ----------------------------------------------------- Heartbeat and LeaveGroup

  ghost function Heartbeat(c: Cell, memberId: Name, generation: int, now: int, io: Io): (Cell, Code) {
    match Loaded(c, now, io)
    case Err(_) => (c, UNKNOWN_SERVER_ERROR)
    case Ok(None) => (c, UNKNOWN_MEMBER_ID)
    case Ok(Some(g)) =>
      if memberId !in g.members then (c.(mem := Some(g)), UNKNOWN_MEMBER_ID)
      else if generation != g.generation then (c.(mem := Some(g)), ILLEGAL_GENERATION)
      else if !g.phase.Stable? then (c.(mem := Some(g)), REBALANCE_IN_PROGRESS)
      else
        var g' := g.(members := g.members[memberId := g.members[memberId].(lastHeartbeat := Some(now))]);
        (Cell(Some(g'), Persisted(c.rec, Some(g'), io)), if io.write.Done? then NONE else UNKNOWN_SERVER_ERROR)
  }

  /** The group after one member left; None when it was the last. */
  ghost function Left(g: Group, memberId: Name, now: int): Option<Group> {
    var members := Keep(g.members, {memberId});
    var assignments := Keep(g.assignments, {memberId});
    if members == map[] then None
    else Some(StartRebalance(g.(members := members, assignments := assignments,
                                leader := if g.leader == memberId then [] else g.leader), 0, now))
  }

  ghost function LeaveGroup(c: Cell, memberId: Name, now: int, io: Io): (Cell, Code) {
    match Loaded(c, now, io)
    case Err(_) => (c, UNKNOWN_SERVER_ERROR)
    case Ok(None) => (c, UNKNOWN_MEMBER_ID)
    case Ok(Some(g)) =>
      if memberId !in g.members then (c.(mem := Some(g)), UNKNOWN_MEMBER_ID)
      else
        var g' := Left(g, memberId, now);
        (Cell(g', Persisted(c.rec, g', io)), if io.write.Done? then NONE else UNKNOWN_SERVER_ERROR)
  }

  // ------------------------------------------------------ cleanup, deletion, crash

  /** The group after one cleanup pass, and whether the pass changed it; None when nobody is left. */
  ghost function Swept(g: Group, now: int): (Option<Group>, bool) {
    var (g1, removed) := RemoveExpiredMembers(g, now);
    var (g2, lost) := DropRebalanceLaggers(g1, now);
    if g2.members == map[] then (None, true)
    else if removed || lost then (Some(StartRebalance(g2, 0, now)), true)
    else (Some(g2), false)
  }

  ghost function Cleanup(c: Cell, now: int, io: Io): Cell {
    if c.mem.None? then c
    else
      var (g', changed) := Swept(c.mem.value, now);
      Cell(g', if changed then Persisted(c.rec, g', io) else c.rec)
  }

  function DeleteGroup(c: Cell, io: Io): Cell {
    if !io.fetchOk then c
    else if c.rec.None? then c.(mem := None)
    else if io.write.Done? then Cell(None, None)
    else c.(rec := Persisted(c.rec, None, io))
  }
}
