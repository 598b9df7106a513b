/** A consumer group's state and its transitions, as values (pkg/broker/coordinator.go).
    Times and durations are nanoseconds. */
module Groups {
  import opened Bytes
  import opened Durations
  import opened Wrappers
  import opened Sorting
  import opened Assignment

  const DEFAULT_TIMEOUT := 30_000 * MILLISECOND

  datatype Phase = Empty | PreparingRebalance | CompletingRebalance | Stable | Dead

  /** `lastHeartbeat` is None for the zero time. */
  datatype Member = Member(topics: seq<Name>, sessionTimeout: int, lastHeartbeat: Option<int>, joinGeneration: int)

  /** `rebalanceDeadline` is None for the zero time; an absent assignment is an empty one. */
  datatype Group = Group(protocolName: Name, protocolType: Name, generation: int, leader: Name, phase: Phase,
                         members: map<Name, Member>, assignments: map<Name, seq<AssignmentTopic>>,
                         rebalanceTimeout: int, rebalanceDeadline: Option<int>)

  const NEW_GROUP := Group([], [], 0, [], Empty, map[], map[], DEFAULT_TIMEOUT, None)

  function SubscriptionsOf(g: Group): Subscriptions {
    map m | m in g.members :: g.members[m].topics
  }

  function AssignmentOf(g: Group, m: Name): seq<AssignmentTopic> {
    if m in g.assignments then g.assignments[m] else []
  }

  // -------------------------------------------------------------------- transitions

  ghost function EnsureLeader(g: Group): (r: Group)
    ensures r == g.(leader := r.leader)
  {
    if g.leader != [] && g.leader in g.members then g
    else if g.members == map[] then g.(leader := [])
    else
      FirstOf(g.members.Keys);
      g.(leader := Sorted(g.members.Keys)[0])
  }

  lemma FirstOf(s: set<Name>)
    ensures s != {} ==> Sorted(s) != [] && Sorted(s)[0] in s
  {
    if s != {} {
      var x :| x in s;
      assert x in Sorted(s);
      assert Sorted(s)[0] in Sorted(s);
    }
  }

  function WithJoinGenerations(members: map<Name, Member>, generation: int): (r: map<Name, Member>)
    ensures r.Keys == members.Keys
  {
    map m | m in members :: members[m].(joinGeneration := generation)
  }

  ghost function StartRebalance(g: Group, timeout: int, now: int): Group {
    if g.members == map[] then g.(phase := Empty, assignments := map[], rebalanceDeadline := None, leader := [])
    else
      var t := if timeout > 0 then timeout else if g.rebalanceTimeout == 0 then DEFAULT_TIMEOUT else g.rebalanceTimeout;
      var g1 := g.(rebalanceTimeout := t, generation := g.generation + 1, phase := PreparingRebalance,
                   assignments := map[], rebalanceDeadline := Some(now + t));
      EnsureLeader(g1).(members := WithJoinGenerations(g.members, 0))
  }

  lemma StartRebalanceNames(g: Group, timeout: int, now: int)
    ensures var g' := StartRebalance(g, timeout, now);
            && g'.members.Keys == g.members.Keys
            && (g.members != map[] ==> g'.generation == g.generation + 1 && g'.phase.PreparingRebalance?)
  {
  }

  function BumpRebalanceDeadline(g: Group, timeout: int, now: int): Group {
    var t0 := if timeout > 0 then timeout else g.rebalanceTimeout;
    var t := if t0 == 0 then DEFAULT_TIMEOUT else t0;
    g.(rebalanceTimeout := t, rebalanceDeadline := Some(now + t))
  }

  predicate AllJoined(g: Group) {
    forall m :: m in g.members ==> g.members[m].joinGeneration == g.generation
  }

  function CompleteIfReady(g: Group): (Group, bool) {
    if g.members == map[] || !AllJoined(g) then (g, false)
    else (g.(phase := CompletingRebalance, rebalanceDeadline := None), true)
  }

  function MarkStable(g: Group): Group {
    if g.phase != Dead then g.(phase := Stable, rebalanceDeadline := None) else g
  }

  /** The entries whose keys are not in `gone`. */
  function Keep<V>(m: map<Name, V>, gone: set<Name>): map<Name, V> {
    map k | k in m && k !in gone :: m[k]
  }

  lemma KeepNext<V>(m: map<Name, V>, gone: set<Name>, k: Name)
    ensures Keep(m, gone) - {k} == Keep(m, gone + {k})
    ensures Keep(m, {}) == m
  {
  }

  /** Members and assignments without `gone`; a leader among them is forgotten, and a group left
      without members is empty. */
  function Removed(g: Group, gone: set<Name>): Group {
    var members := Keep(g.members, gone);
    g.(members := members,
       assignments := Keep(g.assignments, gone),
       leader := if g.leader in gone then [] else g.leader,
       phase := if members == map[] then Empty else g.phase)
  }

  predicate Expired(m: Member, now: int) {
    var timeout := if m.sessionTimeout == 0 then DEFAULT_TIMEOUT else m.sessionTimeout;
    m.lastHeartbeat.None? || now - m.lastHeartbeat.value > timeout
  }

  function ExpiredMembers(g: Group, now: int): set<Name> {
    set m | m in g.members && Expired(g.members[m], now)
  }

  function Laggers(g: Group, now: int): set<Name> {
    if g.rebalanceDeadline.None? || now < g.rebalanceDeadline.value then {}
    else set m | m in g.members && g.members[m].joinGeneration != g.generation
  }

  function RemoveExpiredMembers(g: Group, now: int): (Group, bool) {
    (Removed(g, ExpiredMembers(g, now)), ExpiredMembers(g, now) != {})
  }

  function DropRebalanceLaggers(g: Group, now: int): (Group, bool) {
    if g.rebalanceDeadline.None? || now < g.rebalanceDeadline.value then (g, false)
    else (Removed(g, Laggers(g, now)), Laggers(g, now) != {})
  }

  // -------------------------------------------------------------------- invariant

  /** No partition is held by two members. */
  ghost predicate Exclusive(a: map<Name, seq<AssignmentTopic>>) {
    forall m, m', t, p :: Has(a, m, t, p) && Has(a, m', t, p) ==> m == m'
  }

  /** Whole milliseconds that fit the persisted field. */
  predicate WholeMillis(d: int) {
    d > 0 && d % MILLISECOND == 0 && d / MILLISECOND < TWO31
  }

  predicate MemberOk(m: Member) {
    WholeMillis(m.sessionTimeout) && m.lastHeartbeat.Some? && NamesFit(m.topics)
  }

  /** What holds of every group the coordinator has in memory between requests. */
  ghost predicate GroupOk(g: Group) {
    && g.members != map[] && [] !in g.members && g.leader in g.members
    && (g.phase.PreparingRebalance? || g.phase.CompletingRebalance? || g.phase.Stable?)
    && g.generation >= 1
    && (!g.phase.Stable? ==> g.assignments == map[])
    && (forall m :: m in g.assignments ==> m in g.members && ListFits(g.assignments[m]))
    && Exclusive(g.assignments)
    && (!g.phase.PreparingRebalance? ==> AllJoined(g))
    && WholeMillis(g.rebalanceTimeout)
    && (forall m :: m in g.members ==> MemberOk(g.members[m]))
  }

  /** What StartRebalance needs and gives. */
  ghost predicate Peopled(g: Group) {
    && g.members != map[] && [] !in g.members && g.generation >= 0
    && WholeMillis(g.rebalanceTimeout)
    && (forall m :: m in g.members ==> MemberOk(g.members[m]))
  }

  lemma NothingExclusive()
    ensures Exclusive(map[])
  {
  }

  /** A rebalance starts a new generation that nobody has joined, with a leader among the members. */
  lemma StartRebalanceOk(g: Group, timeout: int, now: int)
    requires Peopled(g) && (timeout > 0 ==> WholeMillis(timeout))
    ensures var g' := StartRebalance(g, timeout, now);
            && GroupOk(g') && g'.phase.PreparingRebalance? && g'.generation == g.generation + 1
            && g'.members.Keys == g.members.Keys
            && (forall m :: m in g'.members ==> g'.members[m] == g.members[m].(joinGeneration := 0))
  {
    assert g.rebalanceTimeout != 0;
    hide WholeMillis, Exclusive;
    NothingExclusive();
    FirstOf(g.members.Keys);
    var g' := StartRebalance(g, timeout, now);
    assert g'.members.Keys == g.members.Keys;
    assert g'.members != map[];
  }

  lemma OkPeopled(g: Group)
    requires GroupOk(g)
    ensures Peopled(g)
  {
  }

  lemma RemovedPeopled(g: Group, gone: set<Name>)
    requires Peopled(g)
    ensures Removed(g, gone).members != map[] ==> Peopled(Removed(g, gone))
    ensures Removed(g, gone).generation == g.generation && Removed(g, gone).members.Keys <= g.members.Keys
  {
    hide WholeMillis;
  }

  lemma RemovedNobody(g: Group)
    requires g.members != map[] && [] !in g.members && g.leader in g.members
    ensures Removed(g, {}) == g
  {
    var r := Removed(g, {});
    assert r.members == g.members && r.assignments == g.assignments;
  }
}
