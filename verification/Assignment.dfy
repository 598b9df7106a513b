/** Server-side partition assignment (pkg/broker/coordinator.go, assignPartitions). */
module Assignment {
  import opened Bytes
  import opened Sorting

  datatype AssignmentTopic = AssignmentTopic(name: Name, partitions: seq<int>)

  /** What each member subscribes to. */
  type Subscriptions = map<Name, seq<Name>>

  // -------------------------------------------------------------- what fits the fields

  /** A subscription whose count and name lengths fit their byte form. */
  predicate NamesFit(topics: seq<Name>) {
    |topics| < TWO32 && forall i :: 0 <= i < |topics| ==> |topics[i]| < TWO16
  }

  predicate TopicFits(t: AssignmentTopic) {
    |t.name| < TWO16 && |t.partitions| < TWO32 && forall p :: p in t.partitions ==> IsInt32(p)
  }

  /** An assignment whose counts, name lengths and partition numbers fit their byte form. */
  predicate ListFits(l: seq<AssignmentTopic>) {
    |l| < TWO32 && forall i :: 0 <= i < |l| ==> TopicFits(l[i])
  }

  /** Collected topics: partition lists without duplicates, of 32-bit numbers, and counts below 2^32. */
  ghost predicate Collectable(topics: map<Name, seq<int>>) {
    && |topics| < TWO32
    && forall t :: t in topics ==>
         Distinct(topics[t]) && |topics[t]| < TWO32 && forall p :: p in topics[t] ==> IsInt32(p)
  }

  // --------------------------------------------------------- dealing one topic out

  /** Every n-th partition starting at position j. */
  function Deal(partitions: seq<int>, n: nat, j: nat): seq<int>
    requires n > 0
  {
    if partitions == [] then []
    else
      var k := |partitions| - 1;
      Deal(partitions[..k], n, j) + (if k % n == j then [partitions[k]] else [])
  }

  lemma {:induction false} DealMembers(partitions: seq<int>, n: nat, j: nat, p: int)
    requires n > 0
    ensures p in Deal(partitions, n, j) <==> exists i :: 0 <= i < |partitions| && i % n == j && partitions[i] == p
  {
    if partitions != [] {
      var k := |partitions| - 1;
      DealMembers(partitions[..k], n, j, p);
      if i :| 0 <= i < k && i % n == j && partitions[..k][i] == p { assert partitions[i] == p; }
      if i :| 0 <= i <= k && i % n == j && partitions[i] == p { assert i == k || partitions[..k][i] == p; }
    }
  }

  lemma {:induction false} DealDistinct(partitions: seq<int>, n: nat, j: nat)
    requires n > 0 && Distinct(partitions)
    ensures Distinct(Deal(partitions, n, j))
  {
    if partitions != [] {
      var k := |partitions| - 1;
      DealDistinct(partitions[..k], n, j);
      var front := Deal(partitions[..k], n, j);
      forall i | 0 <= i < |front| ensures front[i] != partitions[k] {
        assert front[i] in front;
        DealMembers(partitions[..k], n, j, front[i]);
      }
    }
  }

  lemma NextMod(k: nat, n: nat)
    requires n > 0
    ensures (k + 1) % n == if k % n + 1 == n then 0 else k % n + 1
    ensures (k + 1) / n == if k % n + 1 == n then k / n + 1 else k / n
  {
    var q, r := k / n, k % n;
    assert k == n * q + r;
    if r + 1 == n {
      assert k + 1 == n * (q + 1);
      Quotient(k + 1, n, q + 1, 0);
    } else {
      Quotient(k + 1, n, q, r + 1);
    }
  }

  lemma {:induction false} MulMono(n: nat, a: nat, b: nat)
    requires a <= b
    ensures n * a <= n * b
  {
    if a < b {
      MulMono(n, a, b - 1);
      assert n * b == n * (b - 1) + n;
    }
  }

  lemma Quotient(x: nat, n: nat, q: nat, r: nat)
    requires n > 0 && x == n * q + r && r < n
    ensures x / n == q && x % n == r
  {
    var q', r' := x / n, x % n;
    assert x == n * q' + r' && r' < n;
    assert n * (q + 1) == n * q + n && n * (q' + 1) == n * q' + n;
    if q < q' {
      MulMono(n, q + 1, q');
    } else if q' < q {
      MulMono(n, q' + 1, q);
    }
  }

  /** Each position gets the quotient, and the first `remainder` positions one more. */
  lemma {:induction false} DealCount(partitions: seq<int>, n: nat, j: nat)
    requires n > 0 && j < n
    ensures |Deal(partitions, n, j)| == |partitions| / n + (if j < |partitions| % n then 1 else 0)
  {
    if partitions == [] {
      Quotient(0, n, 0, 0);
    } else {
      var k := |partitions| - 1;
      DealCount(partitions[..k], n, j);
      NextMod(k, n);
    }
  }

  // ------------------------------------------------------------------- eligibility

  function Eligible(subs: Subscriptions, ids: seq<Name>, topic: Name): (r: seq<Name>)
    ensures forall m :: m in r <==> m in ids && m in subs && topic in subs[m]
  {
    if ids == [] then []
    else
      var m := ids[|ids| - 1];
      Eligible(subs, ids[..|ids| - 1], topic) + (if m in subs && topic in subs[m] then [m] else [])
  }

  lemma {:induction false} EligibleDistinct(subs: Subscriptions, ids: seq<Name>, topic: Name)
    requires Distinct(ids)
    ensures Distinct(Eligible(subs, ids, topic))
  {
    if ids != [] {
      var k := |ids| - 1;
      EligibleDistinct(subs, ids[..k], topic);
      var front := Eligible(subs, ids[..k], topic);
      assert forall i :: 0 <= i < |front| ==> front[i] in front;
      assert ids[k] !in ids[..k];
    }
  }

  ghost function EligibleOf(subs: Subscriptions, topic: Name): (r: seq<Name>)
    ensures Distinct(r)
    ensures forall m :: m in r <==> m in subs && topic in subs[m]
  {
    OrderedDistinct(Sorted(subs.Keys));
    EligibleDistinct(subs, Sorted(subs.Keys), topic);
    Eligible(subs, Sorted(subs.Keys), topic)
  }

  function Position(s: seq<Name>, m: Name): (i: nat)
    requires m in s
    ensures i < |s| && s[i] == m
  {
    if s[0] == m then 0 else 1 + Position(s[1..], m)
  }

  lemma {:induction false} PositionUnique(s: seq<Name>, i: nat)
    requires Distinct(s) && i < |s|
    ensures Position(s, s[i]) == i
  {
  }

  /** The partitions of `topic` that member `m` gets. */
  ghost function Share(subs: Subscriptions, topics: map<Name, seq<int>>, m: Name, topic: Name): seq<int> {
    var e := EligibleOf(subs, topic);
    if topic in topics && m in e then Deal(topics[topic], |e|, Position(e, m)) else []
  }

  ghost function TopicsOf(subs: Subscriptions, topics: map<Name, seq<int>>, m: Name): set<Name> {
    set t | t in topics && Share(subs, topics, m, t) != []
  }

  /** One member's assignment: topics in name order, partitions in number order. */
  ghost function Listed(subs: Subscriptions, topics: map<Name, seq<int>>, m: Name): (r: seq<AssignmentTopic>)
    ensures var names := Sorted(TopicsOf(subs, topics, m));
            |r| == |names|
            && forall i :: 0 <= i < |r|
                ==> r[i] == AssignmentTopic(names[i], SortInts(Share(subs, topics, m, names[i])))
  {
    var names := Sorted(TopicsOf(subs, topics, m));
    seq(|names|, i requires 0 <= i < |names| => AssignmentTopic(names[i], SortInts(Share(subs, topics, m, names[i]))))
  }

  /** The whole assignment; members without partitions have an empty one. */
  ghost function Assigned(subs: Subscriptions, topics: map<Name, seq<int>>): (r: map<Name, seq<AssignmentTopic>>)
    ensures r.Keys == subs.Keys
  {
    map m | m in subs :: Listed(subs, topics, m)
  }

  // ------------------------------------------------------------------ exact cover

  /** Member `m` is assigned partition `p` of `topic`. */
  ghost predicate Has(a: map<Name, seq<AssignmentTopic>>, m: Name, topic: Name, p: int) {
    m in a && exists i :: 0 <= i < |a[m]| && a[m][i].name == topic && p in a[m][i].partitions
  }

  lemma HasIsShare(subs: Subscriptions, topics: map<Name, seq<int>>, m: Name, topic: Name, p: int)
    ensures Has(Assigned(subs, topics), m, topic, p)
            <==> m in subs && topic in topics && p in Share(subs, topics, m, topic)
  {
    hide Share, SortInts, Sorted;
    var a: map<Name, seq<AssignmentTopic>> := Assigned(subs, topics);
    if m in subs {
      var names := Sorted(TopicsOf(subs, topics, m));
      SortIntsMembers(Share(subs, topics, m, topic));
      if topic in topics && p in Share(subs, topics, m, topic) {
        assert topic in names;
        var i :| 0 <= i < |names| && names[i] == topic;
        assert a[m][i].name == topic;
      }
      if Has(a, m, topic, p) {
        var i :| 0 <= i < |a[m]| && a[m][i].name == topic && p in a[m][i].partitions;
        assert names[i] in names;
      }
    }
  }

  lemma SharedByPosition(subs: Subscriptions, topics: map<Name, seq<int>>, topic: Name, i: nat) returns (m: Name)
    requires topic in topics && i < |topics[topic]| && EligibleOf(subs, topic) != []
    ensures m in subs && topic in subs[m] && topics[topic][i] in Share(subs, topics, m, topic)
  {
    var e := EligibleOf(subs, topic);
    m := e[i % |e|];
    PositionUnique(e, i % |e|);
    DealMembers(topics[topic], |e|, i % |e|, topics[topic][i]);
  }

  lemma ShareSound(subs: Subscriptions, topics: map<Name, seq<int>>, topic: Name, m: Name, p: int)
    requires p in Share(subs, topics, m, topic)
    ensures m in subs && topic in subs[m] && topic in topics && p in topics[topic]
  {
    var e := EligibleOf(subs, topic);
    DealMembers(topics[topic], |e|, Position(e, m), p);
  }

  lemma SharesDisjoint(subs: Subscriptions, topics: map<Name, seq<int>>, topic: Name, m: Name, m': Name, p: int)
    requires topic in topics && Distinct(topics[topic])
    requires p in Share(subs, topics, m, topic) && p in Share(subs, topics, m', topic)
    ensures m == m'
  {
    var e := EligibleOf(subs, topic);
    var ps := topics[topic];
    DealMembers(ps, |e|, Position(e, m), p);
    DealMembers(ps, |e|, Position(e, m'), p);
    var i :| 0 <= i < |ps| && i % |e| == Position(e, m) && ps[i] == p;
    var i' :| 0 <= i' < |ps| && i' % |e| == Position(e, m') && ps[i'] == p;
    assert i == i';
  }

  ghost predicate Wanted(subs: Subscriptions, topic: Name) {
    exists m :: m in subs && topic in subs[m]
  }

  ghost predicate Held(a: map<Name, seq<AssignmentTopic>>, topic: Name, p: int) {
    exists m :: Has(a, m, topic, p)
  }

  /** A partition is assigned to somebody exactly when its topic is known and has a subscriber, then
      to exactly one member, who subscribes to the topic. */
  ghost predicate ExactCover(a: map<Name, seq<AssignmentTopic>>, subs: Subscriptions, topics: map<Name, seq<int>>) {
    && (forall t, p :: Held(a, t, p) <==> t in topics && p in topics[t] && Wanted(subs, t))
    && (forall m, t, p :: Has(a, m, t, p) ==> m in subs && t in subs[m])
    && (forall m, m', t, p :: Has(a, m, t, p) && Has(a, m', t, p) ==> m == m')
  }

  /** For all members, subscriptions and duplicate-free partition lists the assignment is an exact cover. */
  lemma AssignedExactCover(subs: Subscriptions, topics: map<Name, seq<int>>)
    requires forall t :: t in topics ==> Distinct(topics[t])
    ensures ExactCover(Assigned(subs, topics), subs, topics)
  {
    hide Assigned, Share, Has;
    var a := Assigned(subs, topics);
    forall m, t, p | Has(a, m, t, p) ensures m in subs && t in subs[m] && t in topics && p in topics[t] {
      HasIsShare(subs, topics, m, t, p);
      ShareSound(subs, topics, t, m, p);
    }
    forall t, p | Held(a, t, p) ensures t in topics && p in topics[t] && Wanted(subs, t) {
      var m :| Has(a, m, t, p);
    }
    forall t, p | t in topics && p in topics[t] && Wanted(subs, t) ensures Held(a, t, p) {
      var m' :| m' in subs && t in subs[m'];
      assert m' in EligibleOf(subs, t);
      var i :| 0 <= i < |topics[t]| && topics[t][i] == p;
      var m := SharedByPosition(subs, topics, t, i);
      HasIsShare(subs, topics, m, t, p);
    }
    forall m, m', t, p | Has(a, m, t, p) && Has(a, m', t, p) ensures m == m' {
      HasIsShare(subs, topics, m, t, p);
      HasIsShare(subs, topics, m', t, p);
      SharesDisjoint(subs, topics, t, m, m', p);
    }
  }

  /** Two subscribers of a topic get numbers of its partitions that differ by at most one. */
  lemma AssignedBalanced(subs: Subscriptions, topics: map<Name, seq<int>>, topic: Name, m: Name, m': Name)
    requires topic in topics && m in subs && topic in subs[m] && m' in subs && topic in subs[m']
    ensures -1 <= |Share(subs, topics, m, topic)| - |Share(subs, topics, m', topic)| <= 1
  {
    var e := EligibleOf(subs, topic);
    DealCount(topics[topic], |e|, Position(e, m));
    DealCount(topics[topic], |e|, Position(e, m'));
  }

  /** A member's list names each topic once, in order, with its partitions strictly ascending. */
  lemma AssignedCanonical(subs: Subscriptions, topics: map<Name, seq<int>>, m: Name, i: nat)
    requires m in subs && i < |Assigned(subs, topics)[m]|
    requires forall t :: t in topics ==> Distinct(topics[t])
    ensures var l := Assigned(subs, topics)[m];
            && l[i].partitions != [] && StrictlySorted(l[i].partitions)
            && |l[i].partitions| == |Share(subs, topics, m, l[i].name)|
            && forall j :: i < j < |l| ==> Less(l[i].name, l[j].name)
  {
    hide SortInts, Less;
    var names := Sorted(TopicsOf(subs, topics, m));
    assert names[i] in names;
    var e := EligibleOf(subs, names[i]);
    DealDistinct(topics[names[i]], |e|, Position(e, m));
    SortIntsSorted(Share(subs, topics, m, names[i]));
    SortIntsMembers(Share(subs, topics, m, names[i]));
    assert Share(subs, topics, m, names[i])[0] in Share(subs, topics, m, names[i]);
  }

  lemma {:induction false} DealShort(partitions: seq<int>, n: nat, j: nat)
    requires n > 0
    ensures |Deal(partitions, n, j)| <= |partitions|
  {
    if partitions != [] { DealShort(partitions[..|partitions| - 1], n, j); }
  }

  lemma {:induction false} OrderedWithin(names: seq<Name>, s: set<Name>)
    requires Ordered(names) && forall x :: x in names ==> x in s
    ensures |names| <= |s|
  {
    if names != [] {
      HeadNotInTail(names);
      OrderedWithin(names[1..], s - {names[0]});
    }
  }

  /** What is dealt out of collected topics to subscriptions that fit, fits. */
  lemma AssignedFits(subs: Subscriptions, topics: map<Name, seq<int>>, m: Name)
    requires Collectable(topics) && m in subs && NamesFit(subs[m])
    ensures ListFits(Assigned(subs, topics)[m])
  {
    hide Share, Sorted, SortInts;
    var l := Listed(subs, topics, m);
    var names := Sorted(TopicsOf(subs, topics, m));
    OrderedWithin(names, topics.Keys);
    forall i | 0 <= i < |l| ensures TopicFits(l[i]) {
      assert names[i] in names;
      ShareFits(subs, topics, m, names[i]);
    }
  }

  lemma ShareFits(subs: Subscriptions, topics: map<Name, seq<int>>, m: Name, t: Name)
    requires Collectable(topics) && m in subs && NamesFit(subs[m]) && t in topics && Share(subs, topics, m, t) != []
    ensures TopicFits(AssignmentTopic(t, SortInts(Share(subs, topics, m, t))))
  {
    hide EligibleOf, SortInts, Deal;
    var share := Share(subs, topics, m, t);
    SortIntsMembers(share);
    assert share[0] in share;
    forall p | p in share ensures t in subs[m] && p in topics[t] { ShareSound(subs, topics, t, m, p); }
    var e := EligibleOf(subs, t);
    DealShort(topics[t], |e|, Position(e, m));
    assert t in subs[m];
    var i :| 0 <= i < |subs[m]| && subs[m][i] == t;
  }

  lemma {:induction false} EligibleOrdered(subs: Subscriptions, ids: seq<Name>, topic: Name)
    requires Ordered(ids)
    ensures Ordered(Eligible(subs, ids, topic))
    ensures forall x :: x in Eligible(subs, ids, topic) ==> x in ids
  {
    if ids != [] {
      var k := |ids| - 1;
      EligibleOrdered(subs, ids[..k], topic);
      var front := Eligible(subs, ids[..k], topic);
      forall i | 0 <= i < |front| ensures Less(front[i], ids[k]) {
        assert front[i] in ids[..k];
      }
    }
  }

  /** Round robin: the subscribers of a topic in id order take its partitions in turn. The `i`-th
      partition goes to the `i`-th subscriber, counted round. */
  lemma RoundRobin(subs: Subscriptions, topics: map<Name, seq<int>>, topic: Name, e: seq<Name>, i: nat, m: Name)
    requires topic in topics && i < |topics[topic]| && Distinct(topics[topic])
    requires e != [] && Ordered(e) && forall x :: x in e <==> x in subs && topic in subs[x]
    ensures Has(Assigned(subs, topics), m, topic, topics[topic][i]) <==> m == e[i % |e|]
  {
    hide Assigned, Has, Sorted;
    EligibleOrdered(subs, Sorted(subs.Keys), topic);
    OrderedUnique(e, EligibleOf(subs, topic));
    HasIsShare(subs, topics, m, topic, topics[topic][i]);
    OrderedDistinct(e);
    PositionUnique(e, i % |e|);
    if m in e {
      DealMembers(topics[topic], |e|, Position(e, m), topics[topic][i]);
      hide Deal;
      if j :| 0 <= j < |topics[topic]| && j % |e| == Position(e, m) && topics[topic][j] == topics[topic][i] {
        assert j == i;
      }
    }
  }
}
