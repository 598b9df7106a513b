/** Publishing the metadata snapshot: merge with what is stored and compare-and-swap, at most five
    times, against any number of other writers (pkg/operator/snapshot.go). The JSON codec is taken
    to be lossless. */
module Snapshots {
  import opened Wrappers

  datatype Broker = Broker(nodeId: int, host: string, port: int)

  datatype Partition = Partition(index: int, leader: int, replicas: seq<int>)

  datatype Definition = Definition(topicId: seq<int>, isInternal: bool, partitions: seq<Partition>, operations: int)

  datatype Topic = Topic(name: string, errorCode: int, definition: Definition)

  datatype Cluster = Cluster(brokers: seq<Broker>, controllerId: int, topics: seq<Topic>,
                             clusterName: Option<string>, clusterId: Option<string>)

  // ----------------------------------------------------------------------- merging

  /** Topics of a stored snapshot that a publish carries over. */
  predicate Usable(t: Topic) {
    t.name != "" && t.errorCode == 0
  }

  predicate Names(topics: seq<Topic>, name: string) {
    exists i :: 0 <= i < |topics| && topics[i].name == name
  }

  /** The usable topics of `existing` whose name `next` does not have, in order. */
  function Missing(next: seq<Topic>, existing: seq<Topic>): seq<Topic> {
    if existing == [] then []
    else
      var t := existing[|existing| - 1];
      Missing(next, existing[..|existing| - 1]) + (if Usable(t) && !Names(next, t.name) then [t] else [])
  }

  function Merged(next: Cluster, existing: Cluster): Cluster {
    next.(topics := next.topics + Missing(next.topics, existing.topics))
  }

  /** The names that `topics` has. */
  method SeenNames(topics: seq<Topic>) returns (seen: set<string>)
    ensures forall name :: name in seen <==> name != "" && Names(topics, name)
  {
    hide Names;
    seen := {};
    NamesNothing();
    for i := 0 to |topics|
      invariant forall name :: name in seen <==> name != "" && Names(topics[..i], name)
    {
      NamesSnoc(topics[..i], topics[i]);
      assert topics[..i + 1] == topics[..i] + [topics[i]];
      if topics[i].name == "" { continue; }
      seen := seen + {topics[i].name};
    }
    assert topics[..|topics|] == topics;
  }

  method MergeSnapshots(next: Cluster, existing: Cluster) returns (r: Cluster)
    ensures r == Merged(next, existing)
  {
    hide Names;
    if |existing.topics| == 0 {
      assert next.topics + [] == next.topics;
      return next;
    }
    var seen := SeenNames(next.topics);
    r := next;
    for i := 0 to |existing.topics|
      invariant r == next.(topics := next.topics + Missing(next.topics, existing.topics[..i]))
    {
      var topic := existing.topics[i];
      assert existing.topics[..i + 1][..i] == existing.topics[..i];
      if topic.name == "" || topic.errorCode != 0 { continue; }
      if topic.name in seen { continue; }
      r := r.(topics := r.topics + [topic]);
    }
    assert existing.topics[..|existing.topics|] == existing.topics;
  }

  lemma NamesNothing()
    ensures forall name :: !Names([], name)
  {
  }

  lemma NamesSnoc(topics: seq<Topic>, t: Topic)
    ensures forall name :: Names(topics + [t], name) <==> Names(topics, name) || t.name == name
  {
    forall name ensures Names(topics + [t], name) <==> Names(topics, name) || t.name == name {
      assert (topics + [t])[|topics|] == t;
      if i :| 0 <= i < |topics| && topics[i].name == name { assert (topics + [t])[i].name == name; }
    }
  }

  /** What Missing takes over is exactly the usable topics under names that are missing. */
  lemma {:induction false} MissingExactly(next: seq<Topic>, existing: seq<Topic>, t: Topic)
    ensures t in Missing(next, existing) <==>
              && t in existing && t.name != "" && t.errorCode == 0
              && forall i :: 0 <= i < |next| ==> next[i].name != t.name
  {
    if existing != [] {
      var n := |existing| - 1;
      MissingExactly(next, existing[..n], t);
      assert existing == existing[..n] + [existing[n]];
    }
  }

  /** The topics under one name, in order. */
  function Under(topics: seq<Topic>, name: string): seq<Topic> {
    if topics == [] then []
    else
      Under(topics[..|topics| - 1], name)
      + if topics[|topics| - 1].name == name then [topics[|topics| - 1]] else []
  }

  function UsableOf(topics: seq<Topic>): seq<Topic> {
    if topics == [] then []
    else UsableOf(topics[..|topics| - 1]) + (if Usable(topics[|topics| - 1]) then [topics[|topics| - 1]] else [])
  }

  lemma {:induction false} UnderAppend(a: seq<Topic>, b: seq<Topic>, name: string)
    ensures Under(a + b, name) == Under(a, name) + Under(b, name)
  {
    if b == [] {
      assert a + b == a;
    } else {
      var n := |b| - 1;
      UnderAppend(a, b[..n], name);
      assert (a + b)[..|a + b| - 1] == a + b[..n];
    }
  }

  lemma {:induction false} UnderNames(topics: seq<Topic>, name: string)
    ensures Under(topics, name) != [] <==> Names(topics, name)
  {
    if topics != [] {
      var n := |topics| - 1;
      UnderNames(topics[..n], name);
      NamesSnoc(topics[..n], topics[n]);
      assert topics == topics[..n] + [topics[n]];
    }
  }

  lemma {:induction false} UnderMissing(next: seq<Topic>, existing: seq<Topic>, name: string)
    ensures Under(Missing(next, existing), name) == if Names(next, name) then [] else Under(UsableOf(existing), name)
  {
    if existing != [] {
      var n := |existing| - 1;
      var t := existing[n];
      UnderMissing(next, existing[..n], name);
      UnderAppend(Missing(next, existing[..n]), if Usable(t) && !Names(next, t.name) then [t] else [], name);
      UnderAppend(UsableOf(existing[..n]), if Usable(t) then [t] else [], name);
      UnderOne(t, name);
    }
  }

  lemma UnderOne(t: Topic, name: string)
    ensures Under([t], name) == (if t.name == name then [t] else []) && Under([], name) == []
  {
    assert [t][..0] == [];
  }

  /** A merge keeps what it has under a name, and takes over a name it does not have. */
  lemma UnderMerged(next: Cluster, existing: Cluster, name: string)
    ensures Under(Merged(next, existing).topics, name)
         == if Names(next.topics, name) then Under(next.topics, name) else Under(UsableOf(existing.topics), name)
  {
    hide Under, Missing, UsableOf, Names;
    UnderAppend(next.topics, Missing(next.topics, existing.topics), name);
    UnderMissing(next.topics, existing.topics, name);
    UnderNames(next.topics, name);
  }

  // ------------------------------------------------------------------ several merges

  /** Merging with one value after another. */
  function MergedAll(desired: Cluster, found: seq<Cluster>): Cluster {
    if found == [] then desired else Merged(MergedAll(desired, found[..|found| - 1]), found[|found| - 1])
  }

  /** The desired topics come first and unchanged, and the rest of the snapshot is the desired one. */
  predicate Delivers(desired: Cluster, stored: Cluster) {
    desired.topics <= stored.topics && stored.(topics := desired.topics) == desired
  }

  /** Every named, error-free topic of a decodable value survives its replacement, by name. */
  predicate Preserves(replaced: Option<Payload>, stored: Cluster) {
    replaced.Some? && replaced.value.Json? ==>
      forall t :: t in replaced.value.cluster.topics && Usable(t) ==> Names(stored.topics, t.name)
  }

  lemma {:induction false} DeliversAll(desired: Cluster, found: seq<Cluster>)
    ensures Delivers(desired, MergedAll(desired, found))
  {
    if found != [] { DeliversAll(desired, found[..|found| - 1]); }
  }

  lemma PreservesMerged(next: Cluster, existing: Cluster)
    ensures Preserves(Some(Json(existing)), Merged(next, existing))
  {
    var m := Merged(next, existing).topics;
    forall t | t in existing.topics && Usable(t) ensures Names(m, t.name) {
      MissingExactly(next.topics, existing.topics, t);
      if i :| 0 <= i < |next.topics| && next.topics[i].name == t.name {
        assert m[i].name == t.name;
      } else {
        assert t in m;
      }
    }
  }

  /** Where a name comes from: the desired topics, else the first value found that offers it. */
  function Origin(desired: Cluster, found: seq<Cluster>, name: string): seq<Topic> {
    if Names(desired.topics, name) then Under(desired.topics, name)
    else if found == [] then []
    else if Origin(desired, found[..|found| - 1], name) != [] then Origin(desired, found[..|found| - 1], name)
    else Under(UsableOf(found[|found| - 1].topics), name)
  }

  /** What a chain of merges has under a name is decided by the first that offers it. */
  lemma {:induction false} FirstFoundWins(desired: Cluster, found: seq<Cluster>, name: string)
    ensures Under(MergedAll(desired, found).topics, name) == Origin(desired, found, name)
  {
    hide Under, UsableOf, Names, Merged;
    if found == [] {
      UnderNames(desired.topics, name);
    } else {
      var n := |found| - 1;
      var before := MergedAll(desired, found[..n]);
      FirstFoundWins(desired, found[..n], name);
      UnderMerged(before, found[n], name);
      UnderNames(before.topics, name);
      UnderNames(desired.topics, name);
    }
  }

  /** So the stored definition of a name that is not desired is the one it replaces exactly when
      the last value found agrees with the first that offered the name. */
  lemma CurrentExactlyWhen(desired: Cluster, found: seq<Cluster>, name: string)
    requires found != [] && !Names(desired.topics, name)
    ensures var last := found[|found| - 1];
            var earlier := Origin(desired, found[..|found| - 1], name);
            (Under(MergedAll(desired, found).topics, name) == Under(UsableOf(last.topics), name)
             <==> earlier == [] || earlier == Under(UsableOf(last.topics), name))
  {
    hide Under, UsableOf, Names, Merged;
    FirstFoundWins(desired, found, name);
  }

  /** It need not agree: with another definition found in between, the first one stays. */
  lemma StaleDefinition(desired: Cluster, old1: Definition, new1: Definition)
    requires desired.topics == [] && old1 != new1
    ensures var first := desired.(topics := [Topic("t", 0, old1)]);
            var second := desired.(topics := [Topic("t", 0, new1)]);
            MergedAll(desired, [first, second]) == first
  {
    var first := desired.(topics := [Topic("t", 0, old1)]);
    var second := desired.(topics := [Topic("t", 0, new1)]);
    assert Missing([], first.topics) == first.topics by { assert first.topics[..0] == []; }
    assert Names(first.topics, "t") by { assert first.topics[0].name == "t"; }
    assert Missing(first.topics, second.topics) == [] by { assert second.topics[..0] == []; }
    assert [first, second][..1] == [first];
    assert [first][..0] == [];
    assert MergedAll(desired, [first]) == first;
  }

  /** Nothing is invented: each stored topic is desired, or usable in a value that was found. */
  lemma {:induction false} NothingInvented(desired: Cluster, found: seq<Cluster>, t: Topic) returns (i: int)
    requires t in MergedAll(desired, found).topics
    ensures t in desired.topics || (0 <= i < |found| && t in found[i].topics && Usable(t))
  {
    i := -1;
    if found != [] {
      var n := |found| - 1;
      var before := MergedAll(desired, found[..n]);
      MissingExactly(before.topics, found[n].topics, t);
      if t in before.topics {
        i := NothingInvented(desired, found[..n], t);
      } else {
        i := n;
      }
    }
  }

  // ------------------------------------------------------------------------- etcd

  datatype Payload = Json(cluster: Cluster) | Garbage

  /** What another writer does to the key. */
  datatype Other = Put(payload: Payload) | Delete

  /** One write of the publisher that took effect: what it replaced and what it stored. */
  datatype Swap = Swap(replaced: Option<Payload>, stored: Cluster)

  /** One etcd key: the store's revision, and the key's modification revision and value if it
      exists. `swaps` is the history of the publisher's own writes. */
  class Etcd {
    var revision: nat
    var value: Option<(nat, Payload)>
    ghost var swaps: seq<Swap>

    ghost predicate Valid()
      reads this
    {
      value.Some? ==> value.value.0 <= revision
    }

    constructor (revision: nat, value: Option<(nat, Payload)>)
      requires value.Some? ==> value.value.0 <= revision
      ensures Valid() && this.revision == revision && this.value == value && swaps == []
    {
      this.revision, this.value, swaps := revision, value, [];
    }

    /** Whatever other writers do. Every write takes a new revision. */
    method Elsewhere(others: seq<Other>)
      requires Valid()
      modifies this`revision, this`value
      ensures Valid() && revision >= old(revision)
      ensures others == [] ==> value == old(value)
      ensures others != [] && value.Some? ==> value.value.0 > old(revision)
      ensures PayloadOf(value) == AfterOthers(PayloadOf(old(value)), others)
    {
      for i := 0 to |others|
        invariant Valid() && revision >= old(revision)
        invariant i == 0 ==> value == old(value)
        invariant i > 0 && value.Some? ==> value.value.0 > old(revision)
        invariant PayloadOf(value) == AfterOthers(PayloadOf(old(value)), others[..i])
      {
        revision := revision + 1;
        value := if others[i].Put? then Some((revision, others[i].payload)) else None;
      }
      assert others[..|others|] == others;
    }

    /** The transaction: put if the key has not moved since `read`. */
    method CompareAndPut(read: Option<(nat, Payload)>, cluster: Cluster) returns (succeeded: bool)
      requires Valid()
      modifies this
      ensures Valid()
      ensures succeeded <==> if read.None? then old(value).None?
                             else old(value).Some? && old(value).value.0 == read.value.0
      ensures if succeeded
              then PayloadOf(value) == Some(Json(cluster))
                  && swaps == old(swaps) + [Swap(PayloadOf(old(value)), cluster)]
              else value == old(value) && swaps == old(swaps)
    {
      succeeded := if read.None? then value.None? else value.Some? && value.value.0 == read.value.0;
      if succeeded {
        swaps := swaps + [Swap(PayloadOf(value), cluster)];
        revision := revision + 1;
        value := Some((revision, Json(cluster)));
      }
    }
  }

  function PayloadOf(v: Option<(nat, Payload)>): Option<Payload> {
    if v.None? then None else Some(v.value.1)
  }

  /** What the key holds after other writers' turns: the last one decides. */
  function AfterOthers(v: Option<Payload>, others: seq<Other>): Option<Payload> {
    if others == [] then v
    else if others[|others| - 1].Put? then Some(others[|others| - 1].payload)
    else None
  }

  // ----------------------------------------------------------------- the retry loop

  datatype Failure = Failure(retryable: bool)

  datatype Commit = Answered | Lost(applied: bool, retryable: bool)

  /** One attempt's surroundings: whether the client connects and the read succeeds, what other
      writers do before the read and between read and commit, how the commit ends (a failure may
      hide a commit that was applied), and whether the context survives the wait that follows. */
  datatype Attempt = Attempt(dial: Option<Failure>, before: seq<Other>, get: Option<Failure>, between: seq<Other>,
                             commit: Commit, patient: bool)

  /** Nothing fails, and nobody else writes between the read and the commit. */
  predicate Undisturbed(e: Attempt) {
    e.dial.None? && e.get.None? && e.between == [] && e.commit.Answered?
  }

  /** Whatever fails in the attempt can be tried again, and the context lives on. */
  predicate GoesOn(e: Attempt) {
    && e.patient && (e.dial.Some? ==> e.dial.value.retryable) && (e.get.Some? ==> e.get.value.retryable)
    && (e.commit.Lost? ==> e.commit.retryable)
  }

  /** One of the five attempts is undisturbed, and those before it can be tried again. */
  ghost predicate GetsThrough(env: seq<Attempt>) {
    exists k :: 0 <= k < |env| && Undisturbed(env[k]) && forall j :: 0 <= j < k ==> GoesOn(env[j])
  }

  /** A write of ours is the merge of the desired snapshot with the values found up to then, the
      last of which is the one it replaces if that is decodable. */
  ghost predicate Explains(desired: Cluster, found: seq<Cluster>, s: Swap, n: nat) {
    && n <= |found| && s.stored == MergedAll(desired, found[..n])
    && (s.replaced.Some? && s.replaced.value.Json? ==> n > 0 && found[n - 1] == s.replaced.value.cluster)
  }

  ghost predicate Explained(desired: Cluster, found: seq<Cluster>, s: Swap) {
    exists n :: Explains(desired, found, s, n)
  }

  lemma ExplainedMore(desired: Cluster, found: seq<Cluster>, more: Cluster, s: Swap)
    requires Explained(desired, found, s)
    ensures Explained(desired, found + [more], s)
  {
    var n := ExplainedAt(desired, found, s);
    assert (found + [more])[..n] == found[..n];
    assert Explains(desired, found + [more], s, n);
  }

  /** Every write of a publish, under any interleaving with other writers and over any number of
      conflicts and lost answers, delivers what was desired and preserves what it replaced. */
  lemma PublishedWell(desired: Cluster, found: seq<Cluster>, s: Swap)
    requires Explained(desired, found, s)
    ensures Delivers(desired, s.stored) && Preserves(s.replaced, s.stored)
  {
    hide Delivers, Preserves, Merged, Explained;
    var n := ExplainedAt(desired, found, s);
    DeliversAll(desired, found[..n]);
    if s.replaced.Some? && s.replaced.value.Json? {
      assert found[..n][..n - 1] == found[..n - 1];
      PreservesMerged(MergedAll(desired, found[..n - 1]), found[n - 1]);
    } else {
      PreservesNothing(s.replaced, s.stored);
    }
  }

  lemma ExplainedAt(desired: Cluster, found: seq<Cluster>, s: Swap) returns (n: nat)
    requires Explained(desired, found, s)
    ensures Explains(desired, found, s, n)
  {
    n :| Explains(desired, found, s, n);
  }

  lemma PreservesNothing(replaced: Option<Payload>, stored: Cluster)
    requires replaced.None? || replaced.value.Garbage?
    ensures Preserves(replaced, stored)
  {
  }

  /** The publisher, at most five attempts. Success means that the key holds its last write. */
  method PublishMetadataSnapshot(endpoints: nat, desired: Cluster, etcd: Etcd, env: seq<Attempt>)
      returns (ok: bool, ghost found: seq<Cluster>)
    requires |env| == 5 && etcd.Valid() && etcd.swaps == []
    modifies etcd
    ensures etcd.Valid()
    ensures forall i :: 0 <= i < |etcd.swaps| ==>
              Explained(desired, found, etcd.swaps[i]) && Delivers(desired, etcd.swaps[i].stored)
              && Preserves(etcd.swaps[i].replaced, etcd.swaps[i].stored)
    ensures ok ==> etcd.swaps != [] && PayloadOf(etcd.value) == Some(Json(etcd.swaps[|etcd.swaps| - 1].stored))
    ensures endpoints > 0 && GetsThrough(env) ==> ok
  {
    hide Explained, MergedAll, Delivers, Preserves, Undisturbed, GoesOn;
    found := [];
    if endpoints == 0 { return false, found; }
    ok := false;
    var snapshot := desired;
    assert MergedAll(desired, []) == desired by { MergedNothing(desired); }
    var attempt, over := 0, false;
    while attempt < 5 && !over
      invariant 0 <= attempt <= 5 && etcd.Valid() && snapshot == MergedAll(desired, found) && (ok ==> over)
      invariant forall i :: 0 <= i < |etcd.swaps| ==> Explained(desired, found, etcd.swaps[i])
      invariant ok ==> etcd.swaps != [] && PayloadOf(etcd.value) == Some(Json(etcd.swaps[|etcd.swaps| - 1].stored))
      invariant !ok ==> forall j :: 0 <= j < attempt ==> !Undisturbed(env[j])
      invariant over && !ok ==> attempt > 0 && !GoesOn(env[attempt - 1])
      decreases 5 - attempt
    {
      ok, over, snapshot, found := TryPublish(desired, snapshot, found, etcd, env[attempt]);
      attempt := attempt + 1;
    }
    forall i | 0 <= i < |etcd.swaps|
      ensures Delivers(desired, etcd.swaps[i].stored) && Preserves(etcd.swaps[i].replaced, etcd.swaps[i].stored)
    {
      PublishedWell(desired, found, etcd.swaps[i]);
    }
  }

  lemma MergedNothing(desired: Cluster)
    ensures MergedAll(desired, []) == desired
  {
  }

  /** One attempt. `over` says that the publisher does not try again. */
  method TryPublish(desired: Cluster, snapshot: Cluster, ghost found: seq<Cluster>, etcd: Etcd, e: Attempt)
      returns (ok: bool, over: bool, merged: Cluster, ghost found': seq<Cluster>)
    requires etcd.Valid() && snapshot == MergedAll(desired, found)
    requires forall i :: 0 <= i < |etcd.swaps| ==> Explained(desired, found, etcd.swaps[i])
    modifies etcd
    ensures etcd.Valid() && merged == MergedAll(desired, found') && (ok ==> over)
    ensures forall i :: 0 <= i < |etcd.swaps| ==> Explained(desired, found', etcd.swaps[i])
    ensures ok ==> etcd.swaps != [] && PayloadOf(etcd.value) == Some(Json(etcd.swaps[|etcd.swaps| - 1].stored))
    ensures var read := AfterOthers(PayloadOf(old(etcd.value)), e.before);
            e.dial.None? && e.get.None? && e.commit.Answered? ==>
              && found' == found + (if read.Some? && read.value.Json? then [read.value.cluster] else [])
              && (ok <==> e.between == [] || (read.None? && AfterOthers(read, e.between).None?))
              && (over <==> ok || !e.patient)
              && etcd.swaps == old(etcd.swaps) + (if ok then [Swap(read, merged)] else [])
              && PayloadOf(etcd.value) == if ok then Some(Json(merged)) else AfterOthers(read, e.between)
    ensures Undisturbed(e) ==> ok
    ensures GoesOn(e) && over ==> ok
  {
    hide Explained, Merged;
    merged, found' := snapshot, found;
    if e.dial.Some? { return false, !e.dial.value.retryable || !e.patient, merged, found'; }
    etcd.Elsewhere(e.before);
    if e.get.Some? { return false, !e.get.value.retryable || !e.patient, merged, found'; }
    var read := etcd.value;
    if read.Some? && read.value.1.Json? {
      var existing := read.value.1.cluster;
      forall i | 0 <= i < |etcd.swaps| ensures Explained(desired, found + [existing], etcd.swaps[i]) {
        ExplainedMore(desired, found, existing, etcd.swaps[i]);
      }
      found' := found + [existing];
      assert found'[..|found|] == found;
      merged := MergeSnapshots(snapshot, existing);
    }
    etcd.Elsewhere(e.between);
    ghost var swap := Swap(PayloadOf(read), merged);
    assert Explained(desired, found', swap) by { LastExplains(desired, found', swap); }
    var succeeded := false;
    if e.commit.Answered? || e.commit.applied {
      succeeded := etcd.CompareAndPut(read, merged);
    }
    if e.commit.Lost? { return false, !e.commit.retryable || !e.patient, merged, found'; }
    return succeeded, succeeded || !e.patient, merged, found';
  }

  lemma LastExplains(desired: Cluster, found: seq<Cluster>, s: Swap)
    requires s.stored == MergedAll(desired, found)
    requires s.replaced.Some? && s.replaced.value.Json?
             ==> found != [] && found[|found| - 1] == s.replaced.value.cluster
    ensures Explained(desired, found, s)
  {
    assert found[..|found|] == found;
    assert Explains(desired, found, s, |found|);
  }

  /** An old definition put back. The key has topic "t"; the publisher, who desires no topic, reads it;
      another writer changes the definition before the commit, which therefore fails; the second
      attempt, undisturbed, succeeds and replaces the new definition by the old one. */
  method PutsBack(desired: Cluster, old1: Definition, new1: Definition, etcd: Etcd) returns (ok: bool)
    requires desired.topics == [] && old1 != new1 && etcd.Valid() && etcd.swaps == []
    requires PayloadOf(etcd.value) == Some(Json(desired.(topics := [Topic("t", 0, old1)])))
    modifies etcd
    ensures var first := desired.(topics := [Topic("t", 0, old1)]);
            var second := desired.(topics := [Topic("t", 0, new1)]);
            && ok && etcd.swaps == [Swap(Some(Json(second)), first)]
            && PayloadOf(etcd.value) == Some(Json(first))
  {
    hide Explained, Merged, MergedAll;
    var second := desired.(topics := [Topic("t", 0, new1)]);
    var over, snapshot;
    ghost var found: seq<Cluster>;
    MergedNothing(desired);
    ok, over, snapshot, found :=
      TryPublish(desired, desired, [], etcd, Attempt(None, [], None, [Put(Json(second))], Answered, true));
    ok, over, snapshot, found :=
      TryPublish(desired, snapshot, found, etcd, Attempt(None, [], None, [], Answered, true));
    assert found == [desired.(topics := [Topic("t", 0, old1)]), second];
    StaleDefinition(desired, old1, new1);
  }
}
