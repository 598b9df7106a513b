/** What every coordinator request keeps of a group. */
module GroupInvariant {
  import opened Bytes
  import opened Durations
  import opened Wrappers
  import opened Sorting
  import opened Assignment
  import opened Subscriptions
  import opened Groups
  import opened GroupMachine

  // ------------------------------------------------------ one request, one group

  /** How a group may change between two requests: its generation never decreases, and while a
      generation is stable its assignments do not change. */
  ghost predicate Evolves(g: Group, g': Group) {
    && g'.generation >= g.generation
    && (g'.generation == g.generation && g.phase.Stable? ==>
          g'.phase.Stable? && forall m :: AssignmentOf(g', m) == AssignmentOf(g, m))
  }

  predicate IsJoined(g: Group, m: Name) {
    m in g.members && g.members[m].joinGeneration == g.generation
  }

  /** Who counts as joined after a request: exactly those who did before, within one generation, and
      the one whose join this was. Within one generation nobody is removed. */
  ghost predicate JoinsOnly(g: Group, g': Group, joiner: set<Name>) {
    && (forall m :: m in g'.members && m !in joiner ==>
          m in g.members && (IsJoined(g', m) <==> g'.generation == g.generation && IsJoined(g, m)))
    && (g'.generation == g.generation ==> forall m :: m in g.members ==> m in g'.members)
  }

  predicate SameMember(a: Member, b: Member) {
    a.topics == b.topics && a.sessionTimeout == b.sessionTimeout && a.lastHeartbeat == b.lastHeartbeat
  }

  /** The leader is the member with the least id. */
  ghost predicate LeastLeads(g: Group) {
    g.leader in g.members && forall m :: m in g.members ==> m == g.leader || Less(g.leader, m)
  }

  /** What a request leaves alone: everything about the members but those it is about, and a leader who
      stays. A leader who is gone is succeeded by the least id. */
  ghost predicate Preserves(g: Group, g': Group, touched: set<Name>) {
    && (forall m :: m in g'.members && m !in touched ==> m in g.members && SameMember(g'.members[m], g.members[m]))
    && (if g.leader in g'.members then g'.leader == g.leader else LeastLeads(g'))
  }

  lemma FirstIsLeast(s: set<Name>, x: Name)
    requires x in s
    ensures Sorted(s) != [] && (x == Sorted(s)[0] || Less(Sorted(s)[0], x))
  {
    assert x in Sorted(s);
  }

  lemma StartRebalancePreserves(g: Group, timeout: int, now: int)
    requires g.members != map[] && [] !in g.members
    ensures Preserves(g, StartRebalance(g, timeout, now), {})
  {
    hide Sorted;
    var ids := g.members.Keys;
    forall m | m in ids ensures Sorted(ids) != [] && (m == Sorted(ids)[0] || Less(Sorted(ids)[0], m)) {
      FirstIsLeast(ids, m);
    }
    FirstOf(ids);
  }

  ghost predicate Startable(g: Group) {
    GroupOk(g) || g == NEW_GROUP
  }

  lemma EnteredPeopled(g: Group, req: JoinRequest, freshId: Name, now: int)
    requires Startable(g) && freshId != [] && freshId !in g.members
    requires IsInt32(req.sessionTimeoutMs)
    ensures var e := Entered(g, req, freshId, now);
            var id := JoinId(g, req, freshId);
            && Peopled(e) && id in e.members && id != []
            && e.members.Keys == g.members.Keys + {id}
            && (forall m :: m in e.members && m != id ==> m in g.members && e.members[m] == g.members[m])
            && (id in g.members ==>
                  e.members.Keys == g.members.Keys && e.members[id].joinGeneration == g.members[id].joinGeneration)
  {
    hide Exclusive, AllJoined, ParsedTopics;
    assert WholeMillis(DEFAULT_TIMEOUT);
    var id := JoinId(g, req, freshId);
    if req.sessionTimeoutMs > 0 { MillisWhole(req.sessionTimeoutMs); }
    assert id in g.members ==> WholeMillis(g.members[id].sessionTimeout);
  }

  lemma MillisWhole(ms: int)
    requires 0 < ms < TWO31
    ensures WholeMillis(ms * MILLISECOND)
  {
  }

  /** A join either starts a new generation, or keeps the old one with the newcomer in it. */
  lemma RebalancedCases(g: Group, req: JoinRequest, freshId: Name, now: int)
    requires Startable(g) && freshId != [] && freshId !in g.members
    requires IsInt32(req.sessionTimeoutMs) && IsInt32(req.rebalanceTimeoutMs)
    ensures var e := Entered(g, req, freshId, now);
            var id := JoinId(g, req, freshId);
            var r := Rebalanced(e, id, Known(g, req), JoinTimeout(req), now);
            && id in r.members && r.members.Keys == e.members.Keys && WholeMillis(r.rebalanceTimeout)
            && (|| (GroupOk(r) && r.phase.PreparingRebalance? && r.generation == g.generation + 1
                    && forall m :: m in r.members ==> r.members[m].joinGeneration == 0)
                || (GroupOk(g)
                    && r == e.(rebalanceTimeout := r.rebalanceTimeout, rebalanceDeadline := r.rebalanceDeadline)
                    && (g.phase.Stable? ==> id in g.members)))
  {
    hide StartRebalance, GroupOk, Peopled, WholeMillis, Entered, JoinTimeout;
    EnteredPeopled(g, req, freshId, now);
    var e := Entered(g, req, freshId, now);
    var id := JoinId(g, req, freshId);
    var timeout := JoinTimeout(req);
    JoinTimeoutWhole(req);
    PeopledLeader(e, id);
    StartRebalanceOk(e, timeout, now);
    StartRebalanceOk(e.(leader := id), timeout, now);
    GroupPhases(g);
    GroupPhases(StartRebalance(e, timeout, now));
    GroupPhases(StartRebalance(e.(leader := id), timeout, now));
    EnteredShape(g, req, freshId, now);
  }

  lemma JoinTimeoutWhole(req: JoinRequest)
    requires IsInt32(req.rebalanceTimeoutMs)
    ensures JoinTimeout(req) > 0 && WholeMillis(JoinTimeout(req))
  {
  }

  lemma PeopledLeader(g: Group, id: Name)
    requires Peopled(g)
    ensures Peopled(g.(leader := id))
  {
  }

  lemma GroupPhases(g: Group)
    ensures GroupOk(g) ==> !g.phase.Empty? && !g.phase.Dead? && WholeMillis(g.rebalanceTimeout)
    ensures g == NEW_GROUP ==> g.phase.Empty?
  {
  }

  lemma EnteredShape(g: Group, req: JoinRequest, freshId: Name, now: int)
    ensures var e := Entered(g, req, freshId, now);
            e.phase == g.phase && e.generation == g.generation && e.rebalanceTimeout == g.rebalanceTimeout
            && e.assignments == g.assignments && e.leader == g.leader
  {
  }

  /** Entering the newcomer into the current generation keeps a group well formed. */
  lemma MarkedKept(g: Group, e: Group, r: Group, id: Name)
    requires GroupOk(g) && Peopled(e) && id in e.members && id != []
    requires e.members.Keys == g.members.Keys + {id}
    requires forall m :: m in e.members && m != id ==> m in g.members && e.members[m] == g.members[m]
    requires e.phase == g.phase && e.generation == g.generation && e.assignments == g.assignments
             && e.leader == g.leader
    requires r == e.(rebalanceTimeout := r.rebalanceTimeout, rebalanceDeadline := r.rebalanceDeadline)
             && WholeMillis(r.rebalanceTimeout)
    ensures GroupOk(MarkJoined(r, id))
  {
    hide Exclusive, WholeMillis, NamesFit, ListFits;
    var g2 := MarkJoined(r, id);
    assert g2.members.Keys == e.members.Keys;
    assert g.leader in g2.members;
    assert forall m :: m in g2.members && m != id ==> g2.members[m] == g.members[m];
  }

  lemma MarkedFresh(r: Group, id: Name)
    requires GroupOk(r) && r.phase.PreparingRebalance? && id in r.members
    ensures GroupOk(MarkJoined(r, id))
  {
    hide Exclusive, WholeMillis;
    var g2 := MarkJoined(r, id);
    assert g2.members.Keys == r.members.Keys;
  }

  /** JoinGroup on the group: it stays well formed and evolves; the caller, and nobody else, becomes
      joined; the answer is ready exactly when the group is past preparing, and then everyone has
      joined this generation. */
  lemma JoinOk(g: Group, req: JoinRequest, freshId: Name, now: int)
    requires Startable(g) && freshId != [] && freshId !in g.members
    requires IsInt32(req.sessionTimeoutMs) && IsInt32(req.rebalanceTimeoutMs)
    ensures var (g', ready) := Joined(g, req, freshId, now);
            var id := JoinId(g, req, freshId);
            && GroupOk(g') && Evolves(g, g') && JoinsOnly(g, g', {id})
            && id in g'.members && g'.members[id].joinGeneration == g'.generation
            && (ready <==> !g'.phase.PreparingRebalance?) && (ready ==> AllJoined(g'))
  {
    hide GroupOk, Peopled, Rebalanced, Entered, WholeMillis, EnsureLeader;
    var id := JoinId(g, req, freshId);
    var e := Entered(g, req, freshId, now);
    EnteredPeopled(g, req, freshId, now);
    EnteredShape(g, req, freshId, now);
    RebalancedCases(g, req, freshId, now);
    var r := Rebalanced(e, id, Known(g, req), JoinTimeout(req), now);
    var g2 := MarkJoined(r, id);
    if GroupOk(g) && r == e.(rebalanceTimeout := r.rebalanceTimeout, rebalanceDeadline := r.rebalanceDeadline) {
      MarkedKept(g, e, r, id);
    } else {
      MarkedFresh(r, id);
    }
    GroupLeader(g2);
    JoinedOk(g2);
    GroupPhases(g2);
    GroupGenerations(g);
    MarkedOnly(g, e, r, id);
    hide JoinsOnly;
    CompletedMarks(g, g2, id);
  }

  lemma MarkedOnly(g: Group, e: Group, r: Group, id: Name)
    requires id in r.members && e.members.Keys == g.members.Keys + {id} && g.generation >= 0
    requires forall m :: m in e.members && m != id ==> m in g.members && e.members[m] == g.members[m]
    requires || (r.members.Keys == e.members.Keys && r.generation == g.generation + 1
                 && forall m :: m in r.members ==> r.members[m].joinGeneration == 0)
             || (r.members == e.members && r.generation == g.generation)
    ensures JoinsOnly(g, MarkJoined(r, id), {id})
  {
  }

  lemma CompletedMarks(g: Group, g2: Group, id: Name)
    requires JoinsOnly(g, g2, {id})
    ensures JoinsOnly(g, CompleteIfReady(g2).0, {id})
  {
  }

  lemma GroupLeader(g: Group)
    requires GroupOk(g)
    ensures g.leader != [] && (g.phase.CompletingRebalance? || g.phase.Stable? ==> AllJoined(g))
  {
  }

  lemma GroupGenerations(g: Group)
    requires Startable(g)
    ensures g.generation >= 0 && (GroupOk(g) ==> g.generation >= 1)
    ensures g.phase.Stable? ==> GroupOk(g)
  {
  }

  lemma JoinedOk(g: Group)
    requires GroupOk(g)
    ensures g.phase.PreparingRebalance? ==> GroupOk(CompleteIfReady(g).0)
    ensures g.phase.PreparingRebalance? ==> (CompleteIfReady(g).1 <==> AllJoined(g))
    ensures CompleteIfReady(g).1 ==> AllJoined(CompleteIfReady(g).0) && CompleteIfReady(g).0.phase.CompletingRebalance?
    ensures CompleteIfReady(g).0.members == g.members && CompleteIfReady(g).0.generation == g.generation
            && CompleteIfReady(g).0.assignments == g.assignments
  {
    hide Exclusive, WholeMillis;
  }

  // -------------------------------------------------------------- the other requests

  lemma {:induction false} SubscriptionsKeys(g: Group)
    ensures SubscriptionsOf(g).Keys == g.members.Keys
  {
  }

  /** The leader's sync hands every partition to at most one member. */
  lemma AssigningOk(g: Group, topics: map<Name, seq<int>>)
    requires GroupOk(g) && !g.phase.PreparingRebalance? && Collectable(topics)
    ensures GroupOk(Assigning(g, topics)) && Assigning(g, topics).phase.Stable?
    ensures Assigning(g, topics).generation == g.generation && Assigning(g, topics).members == g.members
    ensures g.phase.Stable? ==> Assigning(g, topics) == g
  {
    hide Assigned, WholeMillis, Has;
    if g.phase.CompletingRebalance? {
      var a := Assigned(SubscriptionsOf(g), topics);
      SubscriptionsKeys(g);
      AssignedExactCover(SubscriptionsOf(g), topics);
      assert Exclusive(a);
      forall m | m in a ensures ListFits(a[m]) { AssignedFits(SubscriptionsOf(g), topics, m); }
    }
  }

  lemma SyncOk(g: Group, memberId: Name, generation: int, topics: map<Name, seq<int>>)
    requires GroupOk(g) && Collectable(topics)
    ensures var (code, g') := SyncOutcome(g, memberId, generation, topics);
            && GroupOk(g') && Evolves(g, g') && JoinsOnly(g, g', {})
            && (code == NONE ==> g'.phase.Stable? && memberId in g'.members && generation == g'.generation)
  {
    hide GroupOk, Assigning;
    GroupPhases(g);
    if !g.phase.PreparingRebalance? { AssigningOk(g, topics); }
  }

  lemma HeartbeatOk(g: Group, memberId: Name, now: int)
    requires GroupOk(g) && memberId in g.members
    ensures var g' := g.(members := g.members[memberId := g.members[memberId].(lastHeartbeat := Some(now))]);
            GroupOk(g') && Evolves(g, g') && JoinsOnly(g, g', {})
  {
    hide Exclusive, WholeMillis;
    var g' := g.(members := g.members[memberId := g.members[memberId].(lastHeartbeat := Some(now))]);
    assert g'.members.Keys == g.members.Keys;
  }

  lemma LeftOk(g: Group, memberId: Name, now: int)
    requires GroupOk(g) && memberId in g.members
    ensures var g' := Left(g, memberId, now);
            g'.Some? ==> GroupOk(g'.value) && Evolves(g, g'.value) && JoinsOnly(g, g'.value, {})
  {
    hide Exclusive, WholeMillis, StartRebalance;
    var members := Keep(g.members, {memberId});
    var assignments := Keep(g.assignments, {memberId});
    var g1 := g.(members := members, assignments := assignments,
                 leader := if g.leader == memberId then [] else g.leader);
    if members != map[] {
      assert Peopled(g1);
      StartRebalanceOk(g1, 0, now);
    }
  }

  lemma SweptOk(g: Group, now: int)
    requires GroupOk(g)
    ensures var (g', changed) := Swept(g, now);
            && (g'.Some? ==> GroupOk(g'.value) && Evolves(g, g'.value) && JoinsOnly(g, g'.value, {}))
            && (!changed ==> g' == Some(g))
  {
    hide GroupOk, Peopled, StartRebalance, Removed, ExpiredMembers, Laggers;
    OkPeopled(g);
    GroupMembers(g);
    var (g1, removed) := RemoveExpiredMembers(g, now);
    var (g2, lost) := DropRebalanceLaggers(g1, now);
    if !removed && !lost {
      RemovedNobody(g);
      assert g2 == g;
    } else {
      RemovedPeopled(g, ExpiredMembers(g, now));
      if g1.members == map[] {
        RemovedEmpty(g1, Laggers(g1, now));
      } else {
        RemovedPeopled(g1, Laggers(g1, now));
        if g2.members != map[] { StartRebalanceOk(g2, 0, now); }
      }
    }
  }

  lemma RemovedEmpty(g: Group, gone: set<Name>)
    requires g.members == map[]
    ensures Removed(g, gone).members == map[]
  {
  }

  lemma GroupMembers(g: Group)
    requires GroupOk(g)
    ensures g.members != map[] && [] !in g.members && g.leader in g.members
  {
  }

  // -------------------------------------------------- exactly who stays, and which generation

  /** A join adds exactly the caller, and starts a new generation exactly when the group is new or
      a stranger joins a stable one. */
  lemma JoinExactly(g: Group, req: JoinRequest, freshId: Name, now: int)
    requires Startable(g) && freshId != [] && freshId !in g.members
    ensures var g' := Joined(g, req, freshId, now).0;
            && g'.members.Keys == g.members.Keys + {JoinId(g, req, freshId)}
            && g'.generation == g.generation + (if g == NEW_GROUP || (g.phase.Stable? && !Known(g, req)) then 1 else 0)
  {
    hide GroupOk, Entered, Rebalanced, EnsureLeader, CompleteIfReady;
    GroupPhases(g);
    var id := JoinId(g, req, freshId);
    var e := Entered(g, req, freshId, now);
    EnteredShape(g, req, freshId, now);
    EnteredNames(g, req, freshId, now);
    RebalancedNames(e, id, Known(g, req), JoinTimeout(req), now);
    var g2 := MarkJoined(Rebalanced(e, id, Known(g, req), JoinTimeout(req), now), id);
    assert g2.members.Keys == e.members.Keys;
    CompleteNames(if g2.leader == [] then EnsureLeader(g2) else g2);
  }

  lemma EnteredNames(g: Group, req: JoinRequest, freshId: Name, now: int)
    ensures Entered(g, req, freshId, now).members.Keys == g.members.Keys + {JoinId(g, req, freshId)}
  {
    hide JoiningMember;
  }

  lemma RebalancedNames(e: Group, id: Name, known: bool, timeout: int, now: int)
    requires id in e.members
    ensures var r := Rebalanced(e, id, known, timeout, now);
            && r.members.Keys == e.members.Keys
            && r.generation == e.generation + (if e.phase.Empty? || (e.phase.Stable? && !known) then 1 else 0)
  {
    hide StartRebalance, BumpRebalanceDeadline;
    StartRebalanceNames(e, timeout, now);
    StartRebalanceNames(e.(leader := id), timeout, now);
    BumpNames(e, timeout, now);
  }

  lemma CompleteNames(g: Group)
    ensures CompleteIfReady(g).0.members == g.members && CompleteIfReady(g).0.generation == g.generation
  {
  }

  lemma BumpNames(g: Group, timeout: int, now: int)
    ensures var g' := BumpRebalanceDeadline(g, timeout, now);
            g'.members == g.members && g'.generation == g.generation && g'.phase == g.phase && g'.leader == g.leader
  {
  }

  /** A leave removes exactly the member and starts a new generation; the last one ends the group. */
  lemma LeftExactly(g: Group, memberId: Name, now: int)
    requires GroupOk(g) && memberId in g.members
    ensures var g' := Left(g, memberId, now);
            && (g'.None? <==> g.members.Keys == {memberId})
            && (g'.Some? ==> g'.value.members.Keys == g.members.Keys - {memberId}
                             && g'.value.generation == g.generation + 1 && g'.value.phase.PreparingRebalance?)
  {
    hide GroupOk, StartRebalance;
    var members := Keep(g.members, {memberId});
    assert members.Keys == g.members.Keys - {memberId};
    var g1 := g.(members := members, assignments := Keep(g.assignments, {memberId}),
                 leader := if g.leader == memberId then [] else g.leader);
    assert members == map[] <==> members.Keys == {};
    assert members.Keys == {} ==> g.members.Keys == {memberId};
    if members != map[] { StartRebalanceNames(g1, 0, now); }
  }

  /** Who survives a cleanup pass: members heard of in time who, once the deadline of a rebalance
      has passed, have joined it. */
  ghost function Survivors(g: Group, now: int): set<Name> {
    set m | m in g.members && !Expired(g.members[m], now)
            && (g.rebalanceDeadline.None? || now < g.rebalanceDeadline.value
                || g.members[m].joinGeneration == g.generation)
  }

  /** A cleanup pass keeps exactly the survivors, and starts a new generation exactly when somebody
      is gone; without survivors the group ends. */
  lemma SweptExactly(g: Group, now: int)
    requires GroupOk(g)
    ensures var (g', changed) := Swept(g, now);
            var stay := Survivors(g, now);
            && (g'.None? <==> stay == {})
            && (changed <==> stay != g.members.Keys)
            && (g'.Some? ==> g'.value.members.Keys == stay
                             && g'.value.generation == g.generation + (if stay == g.members.Keys then 0 else 1))
  {
    hide GroupOk, StartRebalance, Expired;
    GroupMembers(g);
    var stay := Survivors(g, now);
    var (g1, removed) := RemoveExpiredMembers(g, now);
    var (g2, lost) := DropRebalanceLaggers(g1, now);
    assert g1.members.Keys == g.members.Keys - ExpiredMembers(g, now);
    assert g2.members.Keys == stay;
    assert removed || lost <==> stay != g.members.Keys by {
      Shrinks(g.members.Keys, g1.members.Keys, stay, ExpiredMembers(g, now), Laggers(g1, now));
    }
    if g2.members != map[] {
      StartRebalanceNames(g2, 0, now);
      assert stay != {};
    }
  }

  lemma Shrinks(all: set<Name>, some: set<Name>, stay: set<Name>, expired: set<Name>, laggers: set<Name>)
    requires expired <= all && some == all - expired && laggers <= some && stay == some - laggers
    ensures expired != {} || laggers != {} <==> stay != all
  {
    if expired != {} { var m :| m in expired; assert m !in stay; }
    if laggers != {} { var m :| m in laggers; assert m !in stay; }
  }

  // ----------------------------------------------------------- what requests leave alone

  lemma StartRebalanceShape(g: Group, timeout: int, now: int)
    requires g.members != map[]
    ensures var r := StartRebalance(g, timeout, now);
            && r.members.Keys == g.members.Keys
            && (forall m :: m in r.members ==> SameMember(r.members[m], g.members[m]))
            && r.protocolName == g.protocolName && r.protocolType == g.protocolType
            && (g.leader != [] && g.leader in g.members ==> r.leader == g.leader)
  {
  }

  /** Whether a join starts a rebalance or not, it only marks members, and a leader stays. */
  lemma RebalancedShape(e: Group, id: Name, known: bool, timeout: int, now: int)
    requires id in e.members && id != []
    ensures var r := Rebalanced(e, id, known, timeout, now);
            && r.members.Keys == e.members.Keys
            && (forall m :: m in r.members ==> SameMember(r.members[m], e.members[m]))
            && r.protocolName == e.protocolName && r.protocolType == e.protocolType
            && (e.leader != [] && e.leader in e.members && !e.phase.Empty? ==> r.leader == e.leader)
            && (e.phase.Empty? && |e.members| == 1 ==> r.leader == id)
  {
    hide StartRebalance;
    StartRebalanceShape(e, timeout, now);
    StartRebalanceShape(e.(leader := id), timeout, now);
  }

  /** The session timeout a member has already, or thirty seconds. */
  function KnownTimeout(g: Group, id: Name): int {
    if id in g.members && g.members[id].sessionTimeout != 0 then g.members[id].sessionTimeout else 30_000_000_000
  }

  /** The entered member, and the rest. */
  lemma EnteredMembers(g: Group, req: JoinRequest, freshId: Name, now: int)
    requires freshId !in g.members
    ensures var e := Entered(g, req, freshId, now);
            var id := JoinId(g, req, freshId);
            && e.members.Keys == g.members.Keys + {id}
            && (forall m :: m in e.members && m != id ==> m in g.members && e.members[m] == g.members[m])
            && e.members[id].topics == ParsedTopics(req.protocols) && e.members[id].lastHeartbeat == Some(now)
            && (req.sessionTimeoutMs > 0 ==> e.members[id].sessionTimeout == req.sessionTimeoutMs * 1_000_000)
            && (req.sessionTimeoutMs <= 0 ==> e.members[id].sessionTimeout == KnownTimeout(g, id))
            && e.protocolName == (if req.protocols != [] then req.protocols[0].name else g.protocolName)
            && e.protocolType == req.protocolType && e.leader == g.leader && e.phase == g.phase
  {
    hide ParsedTopics;
  }

  /** A join leaves the other members alone, enters the caller as it asks, and keeps the leader; in a
      new group the caller leads. */
  lemma JoinPreserves(g: Group, req: JoinRequest, freshId: Name, now: int)
    requires Startable(g) && freshId != [] && freshId !in g.members
    ensures var g' := Joined(g, req, freshId, now).0;
            var id := JoinId(g, req, freshId);
            && Preserves(g, g', {id}) && id in g'.members
            && g'.members[id].topics == ParsedTopics(req.protocols) && g'.members[id].lastHeartbeat == Some(now)
            && (req.sessionTimeoutMs > 0 ==> g'.members[id].sessionTimeout == req.sessionTimeoutMs * 1_000_000)
            && (req.sessionTimeoutMs <= 0 ==> g'.members[id].sessionTimeout == KnownTimeout(g, id))
            && g'.protocolName == (if req.protocols != [] then req.protocols[0].name else g.protocolName)
            && g'.protocolType == req.protocolType
  {
    StartableLeader(g);
    EnteredMembers(g, req, freshId, now);
    hide ParsedTopics, Rebalanced, EnsureLeader, GroupOk, JoinTimeout, Entered, Preserves, CompleteIfReady, Joined,
         Startable, MarkJoined;
    var e := Entered(g, req, freshId, now);
    var id := JoinId(g, req, freshId);
    if g == NEW_GROUP { assert e.members.Keys == {id} && |e.members| == 1; }
    RebalancedShape(e, id, Known(g, req), JoinTimeout(req), now);
    var r := Rebalanced(e, id, Known(g, req), JoinTimeout(req), now);
    JoinedShape(g, req, freshId, now, r);
    MarkedPreserves(g, e, r, id);
    RephasedPreserves(g, MarkJoined(r, id), Joined(g, req, freshId, now).0, id);
  }

  lemma JoinedShape(g: Group, req: JoinRequest, freshId: Name, now: int, r: Group)
    requires r == Rebalanced(Entered(g, req, freshId, now), JoinId(g, req, freshId), Known(g, req), JoinTimeout(req),
                             now)
    requires JoinId(g, req, freshId) in r.members && r.leader != []
    ensures var g2 := MarkJoined(r, JoinId(g, req, freshId));
            var g' := Joined(g, req, freshId, now).0;
            && g' == g2.(phase := g'.phase, rebalanceDeadline := g'.rebalanceDeadline)
            && g2.protocolName == r.protocolName && g2.protocolType == r.protocolType
  {
    hide Rebalanced, Entered, JoinTimeout, EnsureLeader, CompleteIfReady;
    CompletedShape(MarkJoined(r, JoinId(g, req, freshId)));
  }

  lemma CompletedShape(g: Group)
    ensures CompleteIfReady(g).0 == g.(phase := CompleteIfReady(g).0.phase,
                                       rebalanceDeadline := CompleteIfReady(g).0.rebalanceDeadline)
  {
  }

  lemma MarkedPreserves(g: Group, e: Group, r: Group, id: Name)
    requires r.members.Keys == e.members.Keys == g.members.Keys + {id}
    requires forall m :: m in e.members && m != id ==> m in g.members && e.members[m] == g.members[m]
    requires forall m :: m in r.members ==> SameMember(r.members[m], e.members[m])
    requires (r.leader == g.leader && g.leader in g.members)
             || (g.members == map[] && r.leader == id && g.leader == [] && id != [])
    ensures Preserves(g, MarkJoined(r, id), {id}) && SameMember(MarkJoined(r, id).members[id], e.members[id])
  {
  }

  lemma RephasedPreserves(g: Group, g2: Group, g': Group, id: Name)
    requires Preserves(g, g2, {id}) && g'.members == g2.members && g'.leader == g2.leader
    ensures Preserves(g, g', {id})
  {
  }

  lemma StartableLeader(g: Group)
    requires Startable(g)
    ensures g == NEW_GROUP || (g.leader in g.members && g.leader != [] && g != NEW_GROUP)
    ensures g == NEW_GROUP ==> g.members == map[] && g.leader == [] && g.phase.Empty?
    ensures g != NEW_GROUP ==> !g.phase.Empty? && [] !in g.members
  {
  }

  lemma SyncPreserves(g: Group, memberId: Name, generation: int, topics: map<Name, seq<int>>)
    requires g.leader in g.members
    ensures Preserves(g, SyncOutcome(g, memberId, generation, topics).1, {})
  {
    hide Assigned;
  }

  lemma HeartbeatPreserves(g: Group, memberId: Name, now: int)
    requires g.leader in g.members && memberId in g.members
    ensures var g' := g.(members := g.members[memberId := g.members[memberId].(lastHeartbeat := Some(now))]);
            Preserves(g, g', {memberId})
  {
  }

  lemma LeftPreserves(g: Group, memberId: Name, now: int)
    requires GroupOk(g)
    ensures Left(g, memberId, now).Some? ==> Preserves(g, Left(g, memberId, now).value, {})
  {
    hide StartRebalance, Exclusive, WholeMillis;
    var members := Keep(g.members, {memberId});
    if members != map[] {
      StartRebalancePreserves(g.(members := members, assignments := Keep(g.assignments, {memberId}),
                                 leader := if g.leader == memberId then [] else g.leader), 0, now);
    }
  }

  lemma SweptPreserves(g: Group, now: int)
    requires GroupOk(g)
    ensures Swept(g, now).0.Some? ==> Preserves(g, Swept(g, now).0.value, {})
  {
    hide GroupOk, StartRebalance, Expired, ExpiredMembers, Laggers;
    GroupMembers(g);
    var (g1, removed) := RemoveExpiredMembers(g, now);
    var (g2, lost) := DropRebalanceLaggers(g1, now);
    if g2.members != map[] && (removed || lost) { StartRebalancePreserves(g2, 0, now); }
    if !removed && !lost { RemovedNobody(g); }
  }
}
