/** Persisting a group and loading it back (pkg/broker/coordinator.go, pkg/metadata/store.go). */
module GroupRecords {
  import opened Bytes
  import opened Durations
  import opened Wrappers
  import opened Sorting
  import opened Assignment
  import opened Groups

  datatype MemberRecord = MemberRecord(subscriptions: seq<Name>, sessionTimeoutMs: int, heartbeatAt: Option<int>,
                                       assignments: seq<AssignmentTopic>)

  datatype GroupRecord = GroupRecord(state: string, protocolType: Name, protocol: Name, leader: Name, generation: int,
                                     rebalanceTimeoutMs: int, members: map<Name, MemberRecord>)

  function PhaseString(p: Phase): string {
    match p
    case PreparingRebalance => "preparing_rebalance"
    case CompletingRebalance => "completing_rebalance"
    case Stable => "stable"
    case Dead => "dead"
    case Empty => "empty"
  }

  function ParsePhase(s: string): Phase {
    if s == "preparing_rebalance" then PreparingRebalance
    else if s == "completing_rebalance" then CompletingRebalance
    else if s == "stable" then Stable
    else if s == "dead" then Dead
    else Empty
  }

  lemma PhaseRoundTrip(p: Phase)
    ensures ParsePhase(PhaseString(p)) == p
  {
    assert "preparing_rebalance"[0] == 'p' && "completing_rebalance"[0] == 'c' && "stable"[0] == 's'
           && "dead"[0] == 'd' && "empty"[0] == 'e';
  }

  function Millis(d: int): int {
    if d > 0 then ToInt32(d / MILLISECOND) else 0
  }

  function FromMillis(ms: int): int {
    if ms > 0 then ms * MILLISECOND else DEFAULT_TIMEOUT
  }

  function BuildMember(g: Group, m: Name): MemberRecord
    requires m in g.members
  {
    MemberRecord(g.members[m].topics, Millis(g.members[m].sessionTimeout), g.members[m].lastHeartbeat,
                 AssignmentOf(g, m))
  }

  function BuildConsumerGroup(g: Group): GroupRecord {
    GroupRecord(PhaseString(g.phase), g.protocolType, g.protocolName, g.leader, g.generation,
                Millis(g.rebalanceTimeout),
                map m | m in g.members :: BuildMember(g, m))
  }

  /** The in-memory store's copy, which leaves the timeout fields at zero. */
  function CloneConsumerGroup(r: GroupRecord): GroupRecord {
    r.(rebalanceTimeoutMs := 0, members := map m | m in r.members :: r.members[m].(sessionTimeoutMs := 0))
  }

  /** What a store gives back for what was put: the etcd store keeps the record, the in-memory one clones it. */
  function Kept(r: GroupRecord, cloning: bool): GroupRecord {
    if cloning then CloneConsumerGroup(r) else r
  }

  ghost function RestoreGroupState(r: GroupRecord, now: int): Group {
    var timeout := FromMillis(r.rebalanceTimeoutMs);
    var phase := ParsePhase(r.state);
    EnsureLeader(Group(
      r.protocol, r.protocolType, r.generation, r.leader, phase,
      map m | m in r.members :: Member(r.members[m].subscriptions, FromMillis(r.members[m].sessionTimeoutMs),
                                       r.members[m].heartbeatAt, r.generation),
      map m | m in r.members && r.members[m].assignments != [] :: r.members[m].assignments,
      timeout,
      if phase.PreparingRebalance? || phase.CompletingRebalance? then Some(now + timeout) else None))
  }

  /** Two groups that answer every request about membership and assignment alike. */
  ghost predicate SameGroup(a: Group, b: Group) {
    && a.phase == b.phase && a.generation == b.generation && a.leader == b.leader
    && a.protocolName == b.protocolName && a.protocolType == b.protocolType
    && a.members.Keys == b.members.Keys
    && (forall m ::
          m in a.members
          ==> a.members[m].topics == b.members[m].topics && a.members[m].lastHeartbeat == b.members[m].lastHeartbeat)
    && (forall m :: AssignmentOf(a, m) == AssignmentOf(b, m))
  }

  ghost predicate SameTimeouts(a: Group, b: Group)
    requires a.members.Keys == b.members.Keys
  {
    && a.rebalanceTimeout == b.rebalanceTimeout
    && forall m :: m in a.members ==> a.members[m].sessionTimeout == b.members[m].sessionTimeout
  }

  lemma MillisRoundTrip(d: int)
    requires WholeMillis(d)
    ensures FromMillis(Millis(d)) == d
  {
  }

  /** Only the part below a millisecond is lost. */
  lemma MillisTruncates(d: int)
    requires 0 < d / MILLISECOND < TWO31
    ensures FromMillis(Millis(d)) == d - d % MILLISECOND
  {
  }

  lemma AssignmentsSame(a: map<Name, seq<AssignmentTopic>>, b: map<Name, seq<AssignmentTopic>>)
    requires Exclusive(a) && forall m :: m in b ==> m in a && a[m] == b[m]
    ensures Exclusive(b)
  {
    forall m, m', t, p | Has(b, m, t, p) && Has(b, m', t, p) ensures m == m' {
      assert Has(a, m, t, p) && Has(a, m', t, p);
    }
  }

  /** Field by field, what comes back. */
  lemma RestoredFields(g: Group, cloning: bool, now: int)
    requires g.leader != [] && g.leader in g.members
    ensures var r := RestoreGroupState(Kept(BuildConsumerGroup(g), cloning), now);
            && r.phase == g.phase && r.generation == g.generation && r.leader == g.leader
            && r.protocolName == g.protocolName && r.protocolType == g.protocolType
            && r.members.Keys == g.members.Keys
            && (forall m :: m in g.members ==>
                  r.members[m] == Member(g.members[m].topics,
                                         FromMillis(if cloning then 0 else Millis(g.members[m].sessionTimeout)),
                                         g.members[m].lastHeartbeat, g.generation))
            && r.assignments == (map m | m in g.members && AssignmentOf(g, m) != [] :: AssignmentOf(g, m))
            && r.rebalanceTimeout == FromMillis(if cloning then 0 else Millis(g.rebalanceTimeout))
  {
    PhaseRoundTrip(g.phase);
    hide PhaseString, ParsePhase, Millis, FromMillis, AssignmentOf;
    var rec := Kept(BuildConsumerGroup(g), cloning);
    assert rec.members.Keys == g.members.Keys;
    assert forall m :: m in g.members ==> rec.members[m].assignments == AssignmentOf(g, m);
  }

  /** Loading what was persisted gives the same group back: phase, generation, leader, protocol,
      members, subscriptions, heartbeats and assignments, through either store; every member
      counts as joined. Timeouts survive exactly the store that keeps the record. */
  lemma RestoreBuilt(g: Group, cloning: bool, now: int)
    requires GroupOk(g)
    ensures var r := RestoreGroupState(Kept(BuildConsumerGroup(g), cloning), now);
            && SameGroup(r, g) && GroupOk(r) && AllJoined(r)
            && (if cloning then r.rebalanceTimeout == DEFAULT_TIMEOUT
                                && forall m :: m in r.members ==> r.members[m].sessionTimeout == DEFAULT_TIMEOUT
                else SameTimeouts(r, g))
  {
    hide RestoreGroupState, Kept, BuildConsumerGroup, WholeMillis, Exclusive, Millis, FromMillis, SameGroup, GroupOk,
         SameTimeouts;
    var r := RestoreGroupState(Kept(BuildConsumerGroup(g), cloning), now);
    LeaderNamed(g);
    RestoredFields(g, cloning, now);
    RestoredSame(g, r);
    RestoredTimeouts(g, r, cloning);
    RestoredOk(g, r);
  }

  lemma LeaderNamed(g: Group)
    requires GroupOk(g)
    ensures g.leader != [] && g.leader in g.members
  {
  }

  lemma RestoredSame(g: Group, r: Group)
    requires GroupOk(g) && r.phase == g.phase && r.generation == g.generation && r.leader == g.leader
    requires r.protocolName == g.protocolName && r.protocolType == g.protocolType && r.members.Keys == g.members.Keys
    requires forall m :: m in g.members ==> r.members[m].topics == g.members[m].topics
    requires forall m :: m in g.members ==> r.members[m].lastHeartbeat == g.members[m].lastHeartbeat
    requires r.assignments == (map m | m in g.members && AssignmentOf(g, m) != [] :: AssignmentOf(g, m))
    ensures SameGroup(r, g)
  {
    hide WholeMillis, Exclusive, AllJoined;
  }

  lemma RestoredTimeouts(g: Group, r: Group, cloning: bool)
    requires GroupOk(g) && r.members.Keys == g.members.Keys
    requires forall m ::
               m in g.members
               ==> r.members[m].sessionTimeout == FromMillis(if cloning then 0 else Millis(g.members[m].sessionTimeout))
    requires r.rebalanceTimeout == FromMillis(if cloning then 0 else Millis(g.rebalanceTimeout))
    ensures WholeMillis(r.rebalanceTimeout) && forall m :: m in r.members ==> WholeMillis(r.members[m].sessionTimeout)
    ensures if cloning then r.rebalanceTimeout == DEFAULT_TIMEOUT
                            && forall m :: m in r.members ==> r.members[m].sessionTimeout == DEFAULT_TIMEOUT
            else SameTimeouts(r, g)
  {
    hide Exclusive, AllJoined, Millis, WholeMillis;
    MillisRoundTrip(g.rebalanceTimeout);
    forall m | m in g.members ensures FromMillis(Millis(g.members[m].sessionTimeout)) == g.members[m].sessionTimeout {
      MillisRoundTrip(g.members[m].sessionTimeout);
    }
    DefaultWhole();
  }

  lemma DefaultWhole()
    ensures WholeMillis(DEFAULT_TIMEOUT)
  {
  }

  lemma RestoredOk(g: Group, r: Group)
    requires GroupOk(g) && SameGroup(r, g) && AllJoined(r)
    requires WholeMillis(r.rebalanceTimeout) && forall m :: m in r.members ==> WholeMillis(r.members[m].sessionTimeout)
    requires r.assignments == (map m | m in g.members && AssignmentOf(g, m) != [] :: AssignmentOf(g, m))
    ensures GroupOk(r)
  {
    hide WholeMillis, Exclusive;
    AssignmentsSame(g.assignments, r.assignments);
    assert g.leader in r.members;
  }
}
