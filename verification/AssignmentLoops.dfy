/** The assignment loops over maps in their unspecified order, and the topic list they work on
    (pkg/broker/coordinator.go, pkg/metadata/store.go). */
module AssignmentLoops {
  import opened Wrappers
  import opened Sorting
  import opened Assignment

  // ------------------------------------------------------------ topics and partitions

  datatype TopicMeta = TopicMeta(errorCode: int, name: Name, partitions: seq<int>)

  const UNKNOWN_TOPIC := 3

  /** The index the store builds by name: the last topic of that name. */
  function LastNamed(all: seq<TopicMeta>, name: Name): (r: Option<TopicMeta>)
    ensures r.Some? ==> r.value in all && r.value.name == name
    ensures r.None? ==> forall t :: t in all ==> t.name != name
  {
    if all == [] then None
    else if all[|all| - 1].name == name then Some(all[|all| - 1])
    else LastNamed(all[..|all| - 1], name)
  }

  function Requested(all: seq<TopicMeta>, name: Name): (t: TopicMeta)
    ensures t.name == name
  {
    match LastNamed(all, name)
    case Some(t) => t
    case None => TopicMeta(UNKNOWN_TOPIC, name, [])
  }

  function FilterTopics(all: seq<TopicMeta>, requested: seq<Name>): seq<TopicMeta> {
    if requested == [] then all
    else seq(|requested|, i requires 0 <= i < |requested| => Requested(all, requested[i]))
  }

  /** Partition numbers to assign for one topic of a metadata reply. */
  function Numbers(t: TopicMeta): seq<int> {
    SortInts(if t.partitions == [] then [0] else t.partitions)
  }

  function ByName(metas: seq<TopicMeta>): (m: map<Name, seq<int>>) {
    if metas == [] then map[]
    else
      var t := metas[|metas| - 1];
      ByName(metas[..|metas| - 1])[t.name := Numbers(t)]
  }

  /** collectTopicPartitions for the subscribed topics, given the store's reply to a request that
      lists them; no reply stands for a failed request. */
  function Collected(listing: seq<Name>, reply: Option<seq<TopicMeta>>): map<Name, seq<int>> {
    if listing == [] then map[]
    else
      match reply
      case None => map i | 0 <= i < |listing| :: listing[i] := [0]
      case Some(metas) => ByName(metas)
  }

  lemma {:induction false} ByNameAt(metas: seq<TopicMeta>, name: Name)
    ensures name in ByName(metas) <==> LastNamed(metas, name).Some?
    ensures name in ByName(metas) ==> ByName(metas)[name] == Numbers(LastNamed(metas, name).value)
  {
    if metas != [] { ByNameAt(metas[..|metas| - 1], name); }
  }

  /** With the store's own filter, exactly the listed topics are collected, whatever the order of
      the listing: known ones with their partitions, unknown ones with partition 0. */
  lemma CollectedExactly(listing: seq<Name>, all: seq<TopicMeta>, name: Name)
    ensures var c := Collected(listing, Some(FilterTopics(all, listing)));
            && (name in c <==> name in listing)
            && (name in c ==> c[name] == Numbers(Requested(all, name)))
  {
    if listing != [] {
      var metas := FilterTopics(all, listing);
      ByNameAt(metas, name);
      hide ByName, Numbers;
      forall t | t in metas ensures t == Requested(all, t.name) && t.name in listing {
        var i :| 0 <= i < |metas| && metas[i] == t;
        assert t == Requested(all, listing[i]);
      }
      if name in listing {
        var i :| 0 <= i < |listing| && listing[i] == name;
        assert metas[i].name == name && metas[i] in metas;
      }
    }
  }

  lemma NumbersDistinct(t: TopicMeta)
    requires Distinct(t.partitions)
    ensures StrictlySorted(Numbers(t)) && Distinct(Numbers(t)) && Numbers(t) != []
  {
    SortIntsSorted(if t.partitions == [] then [0] else t.partitions);
    SortIntsMembers(if t.partitions == [] then [0] else t.partitions);
  }

  /** No partition is collected twice, whether or not the store replies, so what the leader's sync
      deals out is what keeps every partition with one member. */
  lemma CollectedDistinct(listing: seq<Name>, all: seq<TopicMeta>, replied: bool)
    requires forall t :: t in all ==> Distinct(t.partitions)
    ensures var c := Collected(listing, if replied then Some(FilterTopics(all, listing)) else None);
            && (forall name :: name in c <==> name in listing)
            && (forall name :: name in c ==> Distinct(c[name]) && c[name] != [])
            && (!replied ==> forall name :: name in c ==> c[name] == [0])
  {
    var c := Collected(listing, if replied then Some(FilterTopics(all, listing)) else None);
    if replied {
      forall name ensures name in c <==> name in listing {
        CollectedExactly(listing, all, name);
      }
      forall name | name in c ensures Distinct(c[name]) && c[name] != [] {
        CollectedExactly(listing, all, name);
        LastNamedFrom(all, name);
        NumbersDistinct(Requested(all, name));
      }
    } else {
      assert forall i :: 0 <= i < |listing| ==> listing[i] in listing;
    }
  }

  lemma {:induction false} LastNamedFrom(all: seq<TopicMeta>, name: Name)
    ensures LastNamed(all, name).Some? ==> LastNamed(all, name).value in all
  {
    if all != [] { LastNamedFrom(all[..|all| - 1], name); }
  }

  /** Partition numbers of a topic as CreateTopic makes them and CreatePartitions extends them. */
  function Dense(n: nat): (r: seq<int>)
    ensures |r| == n && forall i :: 0 <= i < n ==> r[i] == i
  {
    seq(n, i => i)
  }

  /** CreatePartitions appends the missing numbers, so dense numbers stay dense. */
  method CreatePartitions(partitions: seq<int>, partitionCount: int) returns (r: Result<seq<int>>)
    ensures r.Ok? <==> partitionCount > |partitions|
    ensures r.Ok? ==> |r.value| == partitionCount && partitions <= r.value
                      && forall i :: |partitions| <= i < partitionCount ==> r.value[i] == i
    ensures r.Ok? && partitions == Dense(|partitions|) ==> r.value == Dense(partitionCount)
  {
    if partitionCount <= 0 { return Err(Malformed); }
    var current := |partitions|;
    if partitionCount <= current { return Err(Malformed); }
    var out := partitions;
    for i := current to partitionCount
      invariant |out| == i && partitions <= out
      invariant forall k :: current <= k < i ==> out[k] == k
    {
      out := out + [i];
    }
    return Ok(out);
  }

  // -------------------------------------------------------------------- the loops

  /** After the topics `done`, each member's table holds exactly its shares of them. */
  ghost predicate Dealt(result: map<Name, map<Name, seq<int>>>, subs: Subscriptions, topics: map<Name, seq<int>>,
                        done: set<Name>) {
    && result.Keys == subs.Keys
    && forall m :: m in subs ==> Table(result[m], subs, topics, done, m)
  }

  ghost predicate Table(table: map<Name, seq<int>>, subs: Subscriptions, topics: map<Name, seq<int>>, done: set<Name>,
                        m: Name) {
    forall t :: (t in table <==> t in done && t in topics && Share(subs, topics, m, t) != [])
             && (t in table ==> table[t] == Share(subs, topics, m, t))
  }

  /** `table` is `before` plus a row for `topic`, which is there only if it is not empty. */
  ghost predicate Row(table: map<Name, seq<int>>, before: map<Name, seq<int>>, topic: Name, share: seq<int>) {
    && topic !in before
    && (forall t :: t != topic ==> (t in table <==> t in before))
    && (forall t :: t != topic && t in before ==> table[t] == before[t])
    && (topic in table <==> share != [])
    && (topic in table ==> table[topic] == share)
  }

  /** What member `m` of the eligible list `e` has got of the partitions `dealt`. */
  function Part(e: seq<Name>, dealt: seq<int>, m: Name): seq<int> {
    if m in e then Deal(dealt, |e|, Position(e, m)) else []
  }

  /** Midway through a topic: the members of `e` have been dealt the partitions `dealt`. */
  ghost predicate Dealing(result: map<Name, map<Name, seq<int>>>, before: map<Name, map<Name, seq<int>>>, topic: Name,
                          e: seq<Name>, dealt: seq<int>) {
    && result.Keys == before.Keys
    && forall m :: m in before ==> Row(result[m], before[m], topic, Part(e, dealt, m))
  }

  lemma PartNext(e: seq<Name>, dealt: seq<int>, p: int, m: Name)
    requires e != [] && Distinct(e)
    ensures Part(e, dealt + [p], m) == Part(e, dealt, m) + (if m == e[|dealt| % |e|] then [p] else [])
  {
    assert (dealt + [p])[..|dealt|] == dealt;
    PositionUnique(e, |dealt| % |e|);
  }

  lemma RowNext(table: map<Name, seq<int>>, before: map<Name, seq<int>>, topic: Name, share: seq<int>, p: int)
    requires Row(table, before, topic, share)
    ensures var row := if topic in table then table[topic] + [p] else [p];
            Row(table[topic := row], before, topic, share + [p])
  {
  }

  lemma DealingNext(result: map<Name, map<Name, seq<int>>>, before: map<Name, map<Name, seq<int>>>, topic: Name,
                    e: seq<Name>, dealt: seq<int>, p: int)
    requires Dealing(result, before, topic, e, dealt) && e != [] && Distinct(e) && forall m :: m in e ==> m in before
    ensures var m := e[|dealt| % |e|];
            var row := if topic in result[m] then result[m][topic] + [p] else [p];
            Dealing(result[m := result[m][topic := row]], before, topic, e, dealt + [p])
  {
    hide Row, Part;
    var m := e[|dealt| % |e|];
    var row := if topic in result[m] then result[m][topic] + [p] else [p];
    var next := result[m := result[m][topic := row]];
    forall x | x in before ensures Row(next[x], before[x], topic, Part(e, dealt + [p], x)) {
      PartNext(e, dealt, p, x);
      if x == m {
        RowNext(result[m], before[m], topic, Part(e, dealt, m), p);
      } else {
        assert Part(e, dealt + [p], x) == Part(e, dealt, x);
      }
    }
  }

  lemma DealtNext(result: map<Name, map<Name, seq<int>>>, before: map<Name, map<Name, seq<int>>>, subs: Subscriptions,
                  topics: map<Name, seq<int>>, done: set<Name>, topic: Name)
    requires Dealt(before, subs, topics, done) && topic in topics && topic !in done
    requires EligibleOf(subs, topic) != [] && Dealing(result, before, topic, EligibleOf(subs, topic), topics[topic])
    ensures Dealt(result, subs, topics, done + {topic})
  {
    hide EligibleOf, Deal, Position, Row, Table;
    forall m | m in subs ensures Table(result[m], subs, topics, done + {topic}, m) {
      assert Share(subs, topics, m, topic) == Part(EligibleOf(subs, topic), topics[topic], m);
      RowTable(result[m], before[m], subs, topics, done, topic, m);
    }
  }

  lemma RowTable(table: map<Name, seq<int>>, before: map<Name, seq<int>>, subs: Subscriptions,
                 topics: map<Name, seq<int>>, done: set<Name>, topic: Name, m: Name)
    requires Table(before, subs, topics, done, m) && topic in topics && topic !in done
    requires Row(table, before, topic, Share(subs, topics, m, topic))
    ensures Table(table, subs, topics, done + {topic}, m)
  {
    hide Share;
  }

  lemma NobodyEligible(result: map<Name, map<Name, seq<int>>>, subs: Subscriptions, topics: map<Name, seq<int>>,
                       done: set<Name>, topic: Name)
    requires Dealt(result, subs, topics, done) && topic !in done && EligibleOf(subs, topic) == []
    ensures Dealt(result, subs, topics, done + {topic})
  {
    forall m | m in subs ensures Table(result[m], subs, topics, done + {topic}, m) {
      assert Table(result[m], subs, topics, done, m);
    }
  }

  method FilterEligible(subs: Subscriptions, memberIds: seq<Name>, topic: Name) returns (e: seq<Name>)
    requires memberIds == Sorted(subs.Keys)
    ensures e == EligibleOf(subs, topic)
  {
    hide Sorted, Ordered;
    e := [];
    for i := 0 to |memberIds|
      invariant e == Eligible(subs, memberIds[..i], topic)
    {
      var m := memberIds[i];
      assert memberIds[..i + 1] == memberIds[..i] + [m];
      assert m in memberIds;
      if topic in subs[m] { e := e + [m]; }
    }
    assert memberIds[..|memberIds|] == memberIds;
  }

  /** Deals the partitions of one topic round-robin. */
  method DealTopic(before: map<Name, map<Name, seq<int>>>, topic: Name, e: seq<Name>, partitions: seq<int>)
    returns (result: map<Name, map<Name, seq<int>>>)
    requires e != [] && Distinct(e) && (forall m :: m in e ==> m in before)
    requires forall m :: m in before ==> topic !in before[m]
    ensures Dealing(result, before, topic, e, partitions)
  {
    hide Row, Part;
    result := before;
    DealingNothing(before, topic, e);
    for idx := 0 to |partitions|
      invariant Dealing(result, before, topic, e, partitions[..idx])
      invariant result.Keys == before.Keys
    {
      DealingNext(result, before, topic, e, partitions[..idx], partitions[idx]);
      assert partitions[..idx] + [partitions[idx]] == partitions[..idx + 1];
      var memberId := e[idx % |e|];
      var row := if topic in result[memberId] then result[memberId][topic] + [partitions[idx]] else [partitions[idx]];
      result := result[memberId := result[memberId][topic := row]];
    }
    assert partitions[..|partitions|] == partitions;
  }

  lemma DealingNothing(before: map<Name, map<Name, seq<int>>>, topic: Name, e: seq<Name>)
    requires e != [] && forall m :: m in before ==> topic !in before[m]
    ensures Dealing(before, before, topic, e, [])
  {
  }

  method MemberList(table: map<Name, seq<int>>, ghost subs: Subscriptions, ghost topics: map<Name, seq<int>>,
                    ghost m: Name) returns (r: seq<AssignmentTopic>)
    requires Table(table, subs, topics, topics.Keys, m)
    ensures r == Listed(subs, topics, m)
  {
    hide Share, SortInts;
    assert table.Keys == TopicsOf(subs, topics, m);
    var names := SortNames(table.Keys);
    r := [];
    for i := 0 to |names|
      invariant |r| == i
      invariant forall k :: 0 <= k < i ==> r[k] == AssignmentTopic(names[k], SortInts(Share(subs, topics, m, names[k])))
    {
      assert names[i] in names;
      r := r + [AssignmentTopic(names[i], SortInts(table[names[i]]))];
    }
  }

  /** Deals every topic, in whatever order the topic map is walked. */
  method DealAll(subs: Subscriptions, topics: map<Name, seq<int>>) returns (result: map<Name, map<Name, seq<int>>>)
    ensures Dealt(result, subs, topics, topics.Keys)
  {
    hide Dealt, Dealing;
    var memberIds := SortNames(subs.Keys);
    result := map m | m in subs :: map[];
    DealtNothing(result, subs, topics);
    var rest := topics.Keys;
    ghost var done := {};
    while rest != {}
      invariant rest <= topics.Keys && done == topics.Keys - rest
      invariant Dealt(result, subs, topics, done)
      decreases rest
    {
      var topic :| topic in rest;
      var eligible := FilterEligible(subs, memberIds, topic);
      ghost var before := result;
      if |eligible| == 0 {
        NobodyEligible(result, subs, topics, done, topic);
      } else {
        NotYet(result, subs, topics, done, topic);
        result := DealTopic(result, topic, eligible, topics[topic]);
        DealtNext(result, before, subs, topics, done, topic);
      }
      rest := rest - {topic};
      done := done + {topic};
    }
    assert done == topics.Keys;
  }

  /** assignPartitions: whatever order the maps are walked in, the result is the one assignment. */
  method AssignPartitions(subs: Subscriptions, topics: map<Name, seq<int>>) returns (a: map<Name, seq<AssignmentTopic>>)
    ensures a == Assigned(subs, topics)
  {
    hide Dealt, Table, Listed;
    var result := DealAll(subs, topics);
    a := map[];
    var todo := subs.Keys;
    while todo != {}
      invariant todo <= subs.Keys
      invariant forall m :: m in a <==> m in subs && m !in todo
      invariant forall m :: m in a ==> a[m] == Listed(subs, topics, m)
      decreases todo
    {
      var m :| m in todo;
      DealtTable(result, subs, topics, topics.Keys, m);
      var l := MemberList(result[m], subs, topics, m);
      a := a[m := l];
      todo := todo - {m};
    }
  }

  lemma DealtNothing(result: map<Name, map<Name, seq<int>>>, subs: Subscriptions, topics: map<Name, seq<int>>)
    requires result.Keys == subs.Keys && forall m :: m in result ==> result[m] == map[]
    ensures Dealt(result, subs, topics, {})
  {
  }

  lemma NotYet(result: map<Name, map<Name, seq<int>>>, subs: Subscriptions, topics: map<Name, seq<int>>,
               done: set<Name>, topic: Name)
    requires Dealt(result, subs, topics, done) && topic !in done
    ensures result.Keys == subs.Keys && forall m :: m in result ==> topic !in result[m]
  {
    forall m | m in result ensures topic !in result[m] { assert Table(result[m], subs, topics, done, m); }
  }

  lemma DealtTable(result: map<Name, map<Name, seq<int>>>, subs: Subscriptions, topics: map<Name, seq<int>>,
                   done: set<Name>, m: Name)
    requires Dealt(result, subs, topics, done) && m in subs
    ensures m in result && Table(result[m], subs, topics, done, m)
  {
  }
}
