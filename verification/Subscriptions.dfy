/** The consumer-protocol byte forms the coordinator reads and writes
    (pkg/broker/coordinator.go). */
module Subscriptions {
  import opened Bytes
  import opened Wrappers
  import opened Sorting
  import opened Assignment

  datatype Protocol = Protocol(name: Name, metadata: bytes)

  // ------------------------------------------------------------------ subscriptions

  function NamesBytes(topics: seq<Name>): bytes {
    if topics == [] then []
    else PutUint16(|topics[0]|) + topics[0] + NamesBytes(topics[1..])
  }

  function EncodeSubscription(topics: seq<Name>): bytes {
    PutUint16(0) + PutUint32(|topics|) + NamesBytes(topics) + PutUint32(0)
  }

  method WriteSubscription(topics: seq<Name>) returns (buf: bytes)
    ensures buf == EncodeSubscription(topics)
  {
    hide PutUint16, PutUint32;
    buf := PutUint16(0);
    buf := buf + PutUint32(|topics|);
    assert topics[0..] == topics;
    for i := 0 to |topics|
      invariant EncodeSubscription(topics) == buf + NamesBytes(topics[i..]) + PutUint32(0)
    {
      var rest := topics[i..];
      assert rest[0] == topics[i] && rest[1..] == topics[i + 1..];
      assert buf + (PutUint16(|rest[0]|) + rest[0] + NamesBytes(rest[1..]))
          == (buf + PutUint16(|topics[i]|) + topics[i]) + NamesBytes(topics[i + 1..]);
      buf := buf + PutUint16(|topics[i]|) + topics[i];
    }
    assert topics[|topics|..] == [];
    assert buf + [] == buf;
    buf := buf + PutUint32(0);
  }

  /** Up to `count` length-prefixed names from position `read`; a short read ends the list. */
  function ParseNames(data: bytes, read: nat, count: nat): (r: seq<Name>)
    ensures |r| <= count && forall i :: 0 <= i < |r| ==> |r[i]| < TWO16
    decreases count
  {
    if count == 0 || read + 2 > |data| then []
    else
      Widths();
      var n := DecodeBE(data[read..read + 2]);
      if read + 2 + n > |data| then []
      else [data[read + 2..read + 2 + n]] + ParseNames(data, read + 2 + n, count - 1)
  }

  function ParsedTopics(protocols: seq<Protocol>): (r: seq<Name>)
    ensures NamesFit(r)
  {
    if protocols == [] then []
    else
      Widths();
      var data := protocols[0].metadata;
      if |data| < 6 then []
      else ParseNames(data, 6, DecodeBE(data[2..6]))
  }

  method ParseSubscriptionTopics(protocols: seq<Protocol>) returns (topics: seq<Name>)
    ensures topics == ParsedTopics(protocols)
  {
    hide NamesFit, DecodeBE;
    if |protocols| == 0 { return []; }
    var data := protocols[0].metadata;
    if |data| < 2 { return []; }
    var read := 2;
    if |data[read..]| < 4 { return []; }
    var topicCount := DecodeBE(data[read..read + 4]);
    read := read + 4;
    topics := [];
    var i := 0;
    while i < topicCount && read + 2 <= |data|
      invariant 0 <= i <= topicCount && 0 <= read
      invariant topics + ParseNames(data, read, topicCount - i) == ParseNames(data, 6, topicCount)
      decreases topicCount - i
    {
      var nameLen := DecodeBE(data[read..read + 2]);
      if read + 2 + nameLen > |data| { break; }
      ghost var rest := ParseNames(data, read + 2 + nameLen, topicCount - i - 1);
      assert ParseNames(data, read, topicCount - i) == [data[read + 2..read + 2 + nameLen]] + rest;
      assert topics + ([data[read + 2..read + 2 + nameLen]] + rest)
          == (topics + [data[read + 2..read + 2 + nameLen]]) + rest;
      topics := topics + [data[read + 2..read + 2 + nameLen]];
      read := read + 2 + nameLen;
      i := i + 1;
    }
  }

  lemma ParseOne(data: bytes, prefix: bytes, t: Name, rest: bytes, count: nat)
    requires |t| < TWO16 && data == prefix + (PutUint16(|t|) + (t + rest))
    ensures ParseNames(data, |prefix|, count + 1) == [t] + ParseNames(data, |prefix| + 2 + |t|, count)
  {
    GetPut16(|t|);
    hide PutUint16, DecodeBE;
    assert data[|prefix|..|prefix| + 2] == PutUint16(|t|);
    assert data[|prefix| + 2..|prefix| + 2 + |t|] == t;
  }

  lemma NamesFront(topics: seq<Name>)
    ensures NamesBytes(topics) == if topics == [] then []
                                  else PutUint16(|topics[0]|) + topics[0] + NamesBytes(topics[1..])
  {
  }

  lemma {:induction false} NamesRoundTrip(prefix: bytes, topics: seq<Name>, suffix: bytes)
    requires forall i :: 0 <= i < |topics| ==> |topics[i]| < TWO16
    ensures ParseNames(prefix + NamesBytes(topics) + suffix, |prefix|, |topics|) == topics
    decreases |topics|
  {
    hide PutUint16, DecodeBE, ParseNames, NamesBytes;
    NamesFront(topics);
    if topics == [] {
      ParseNone(prefix + [] + suffix, |prefix|);
    } else {
      var t := topics[0];
      var l := PutUint16(|t|);
      var data := prefix + NamesBytes(topics) + suffix;
      NamesRoundTrip(prefix + l + t, topics[1..], suffix);
      assert data == prefix + l + t + NamesBytes(topics[1..]) + suffix;
      var rest := NamesBytes(topics[1..]) + suffix;
      assert data == prefix + (l + (t + rest));
      ParseOne(data, prefix, t, rest, |topics| - 1);
      assert topics == [t] + topics[1..];
    }
  }

  lemma ParseNone(data: bytes, read: nat)
    ensures ParseNames(data, read, 0) == []
  {
  }

  lemma SubscriptionHeader(topics: seq<Name>)
    ensures var data := EncodeSubscription(topics);
            |data| >= 6 && DecodeBE(data[2..6]) == |topics| % TWO32
            && data == (PutUint16(0) + PutUint32(|topics|)) + NamesBytes(topics) + PutUint32(0)
  {
    hide PutUint16, PutUint32, NamesBytes;
    var data := EncodeSubscription(topics);
    assert data[2..6] == PutUint32(|topics|);
    GetPut32(|topics|);
  }

  /** Parsing inverts encoding exactly for the lists whose counts and name lengths fit their
      fields. */
  lemma SubscriptionRoundTrip(name: Name, topics: seq<Name>)
    ensures ParsedTopics([Protocol(name, EncodeSubscription(topics))]) == topics
       <==> NamesFit(topics)
  {
    SubscriptionHeader(topics);
    hide EncodeSubscription, ParseNames, NamesBytes, PutUint16, PutUint32, DecodeBE;
    if NamesFit(topics) {
      NamesRoundTrip(PutUint16(0) + PutUint32(|topics|), topics, PutUint32(0));
    }
  }

  // -------------------------------------------------------------------- assignments

  function PartitionsBytes(partitions: seq<int>): bytes {
    if partitions == [] then [] else PutUint32(partitions[0]) + PartitionsBytes(partitions[1..])
  }

  function TopicBytes(t: AssignmentTopic): bytes {
    PutUint16(|t.name|) + (t.name + (PutUint32(|t.partitions|) + PartitionsBytes(t.partitions)))
  }

  function TopicsBytes(topics: seq<AssignmentTopic>): bytes {
    if topics == [] then [] else TopicBytes(topics[0]) + TopicsBytes(topics[1..])
  }

  function EncodeAssignment(topics: seq<AssignmentTopic>): bytes {
    PutUint16(0) + (PutUint32(|topics|) + (TopicsBytes(topics) + PutUint32(0)))
  }

  /** The writing loops, field after field. */
  method WriteAssignment(topics: seq<AssignmentTopic>) returns (buf: bytes)
    ensures buf == EncodeAssignment(topics)
  {
    hide PutUint16, PutUint32, TopicBytes;
    buf := PutUint16(0);
    buf := buf + PutUint32(|topics|);
    assert topics[0..] == topics;
    for i := 0 to |topics|
      invariant EncodeAssignment(topics) == buf + (TopicsBytes(topics[i..]) + PutUint32(0))
    {
      var more := TopicsBytes(topics[i + 1..]) + PutUint32(0);
      assert topics[i..][0] == topics[i] && topics[i..][1..] == topics[i + 1..];
      assert TopicsBytes(topics[i..]) + PutUint32(0) == TopicBytes(topics[i]) + more;
      assert buf + (TopicBytes(topics[i]) + more) == (buf + TopicBytes(topics[i])) + more;
      buf := WriteTopic(buf, topics[i]);
    }
    assert topics[|topics|..] == [];
    buf := buf + PutUint32(0);
  }

  method WriteTopic(before: bytes, t: AssignmentTopic) returns (buf: bytes)
    ensures buf == before + TopicBytes(t)
  {
    hide PutUint16, PutUint32;
    buf := before + PutUint16(|t.name|) + t.name + PutUint32(|t.partitions|);
    assert t.partitions[0..] == t.partitions;
    assert before + TopicBytes(t) == buf + PartitionsBytes(t.partitions);
    for i := 0 to |t.partitions|
      invariant before + TopicBytes(t) == buf + PartitionsBytes(t.partitions[i..])
    {
      var rest := t.partitions[i..];
      assert rest[0] == t.partitions[i] && rest[1..] == t.partitions[i + 1..];
      assert buf + (PutUint32(rest[0]) + PartitionsBytes(rest[1..]))
          == (buf + PutUint32(t.partitions[i])) + PartitionsBytes(t.partitions[i + 1..]);
      buf := buf + PutUint32(t.partitions[i]);
    }
    assert t.partitions[|t.partitions|..] == [];
  }

  /** `count` partition numbers from the front, and what follows them. */
  function ReadPartitions(data: bytes, count: nat): Option<(seq<int>, bytes)>
    decreases count
  {
    if count == 0 then Some(([], data))
    else if |data| < 4 then None
    else
      match ReadPartitions(data[4..], count - 1)
      case None => None
      case Some((more, rest)) => Some(([GetInt32(data[..4])] + more, rest))
  }

  function ReadTopic(data: bytes): Option<(AssignmentTopic, bytes)> {
    if |data| < 2 then None
    else
      var n := DecodeBE(data[..2]);
      if |data| < 2 + n + 4 then None
      else
        match ReadPartitions(data[2 + n + 4..], DecodeBE(data[2 + n..2 + n + 4]))
        case None => None
        case Some((partitions, rest)) => Some((AssignmentTopic(data[2..2 + n], partitions), rest))
  }

  function ReadTopics(data: bytes, count: nat): Option<(seq<AssignmentTopic>, bytes)>
    decreases count
  {
    if count == 0 then Some(([], data))
    else
      match ReadTopic(data)
      case None => None
      case Some((t, rest)) =>
        match ReadTopics(rest, count - 1)
        case None => None
        case Some((more, end)) => Some(([t] + more, end))
  }

  /** What a consumer reads out of an assignment: version 0, the topics with their partitions, and
      user data up to the very end. */
  function ParseAssignment(data: bytes): Option<seq<AssignmentTopic>> {
    if |data| < 6 || DecodeBE(data[..2]) != 0 then None
    else
      match ReadTopics(data[6..], DecodeBE(data[2..6]))
      case None => None
      case Some((topics, rest)) =>
        if |rest| >= 4 && |rest| == 4 + DecodeBE(rest[..4]) then Some(topics) else None
  }

  lemma {:induction false} PartitionsInvert(partitions: seq<int>, rest: bytes)
    requires forall p :: p in partitions ==> IsInt32(p)
    ensures ReadPartitions(PartitionsBytes(partitions) + rest, |partitions|) == Some((partitions, rest))
  {
    hide PutUint32, GetInt32;
    if partitions == [] {
      assert [] + rest == rest;
    } else {
      var p, more := partitions[0], partitions[1..];
      PartitionsInvert(more, rest);
      GetPut32(p);
      var data := PartitionsBytes(partitions) + rest;
      assert data[..4] == PutUint32(p) && data[4..] == PartitionsBytes(more) + rest;
      assert partitions == [p] + more;
    }
  }

  lemma TopicInverts(t: AssignmentTopic, rest: bytes)
    requires TopicFits(t)
    ensures ReadTopic(TopicBytes(t) + rest) == Some((t, rest))
  {
    hide PutUint16, PutUint32, PartitionsBytes, ReadPartitions, DecodeBE;
    var n := |t.name|;
    var data := TopicBytes(t) + rest;
    GetPut16(n);
    GetPut32(|t.partitions|);
    PartitionsInvert(t.partitions, rest);
    assert data[..2] == PutUint16(n);
    assert data[2..2 + n] == t.name;
    assert data[2 + n..2 + n + 4] == PutUint32(|t.partitions|);
    assert data[2 + n + 4..] == PartitionsBytes(t.partitions) + rest;
  }

  lemma {:induction false} TopicsInvert(topics: seq<AssignmentTopic>, rest: bytes)
    requires forall i :: 0 <= i < |topics| ==> TopicFits(topics[i])
    ensures ReadTopics(TopicsBytes(topics) + rest, |topics|) == Some((topics, rest))
  {
    hide TopicBytes, ReadTopic, TopicFits;
    if topics == [] {
      assert [] + rest == rest;
    } else {
      var t, more := topics[0], topics[1..];
      TopicsInvert(more, rest);
      TopicInverts(t, TopicsBytes(more) + rest);
      assert TopicsBytes(topics) + rest == TopicBytes(t) + (TopicsBytes(more) + rest);
      assert topics == [t] + more;
    }
  }

  lemma {:induction false} PartitionsRead(data: bytes, count: nat)
    ensures ReadPartitions(data, count).Some? ==>
              var ps := ReadPartitions(data, count).value.0; |ps| == count && forall p :: p in ps ==> IsInt32(p)
  {
    hide DecodeBE;
    if count > 0 && |data| >= 4 { PartitionsRead(data[4..], count - 1); }
  }

  lemma {:induction false} TopicsRead(data: bytes, count: nat)
    ensures ReadTopics(data, count).Some? ==>
              var ts := ReadTopics(data, count).value.0; |ts| == count && forall i :: 0 <= i < |ts| ==> TopicFits(ts[i])
    decreases count
  {
    hide ReadTopic, TopicFits;
    if count > 0 {
      match ReadTopic(data)
      case None =>
      case Some((t, rest)) =>
        TopicRead(data);
        TopicsRead(rest, count - 1);
    }
  }

  lemma TopicRead(data: bytes)
    ensures ReadTopic(data).Some? ==> TopicFits(ReadTopic(data).value.0)
  {
    hide ReadPartitions;
    Widths();
    if |data| >= 2 {
      var n := DecodeBE(data[..2]);
      if |data| >= 2 + n + 4 { PartitionsRead(data[2 + n + 4..], DecodeBE(data[2 + n..2 + n + 4])); }
    }
  }

  /** A consumer reads back the assignment that was encoded if and only if counts, name lengths and
      partition numbers fit their fields. */
  lemma AssignmentRoundTrip(l: seq<AssignmentTopic>)
    ensures ParseAssignment(EncodeAssignment(l)) == Some(l) <==> ListFits(l)
  {
    hide PutUint16, PutUint32, TopicsBytes, ReadTopics, TopicFits, DecodeBE;
    var data := EncodeAssignment(l);
    Widths();
    if ListFits(l) {
      AssignmentHeader(l);
      TopicsInvert(l, PutUint32(0));
      GetPut32(0);
      assert PutUint32(0)[..4] == PutUint32(0);
    } else if |data| >= 6 {
      TopicsRead(data[6..], DecodeBE(data[2..6]));
    }
  }

  lemma AssignmentHeader(l: seq<AssignmentTopic>)
    ensures var data := EncodeAssignment(l);
            && |data| >= 6 && DecodeBE(data[..2]) == 0 && DecodeBE(data[2..6]) == |l| % TWO32
            && data[6..] == TopicsBytes(l) + PutUint32(0)
  {
    hide PutUint16, PutUint32, TopicsBytes, DecodeBE;
    var data := EncodeAssignment(l);
    GetPut16(0);
    GetPut32(|l|);
    assert data[..2] == PutUint16(0) && data[2..6] == PutUint32(|l|);
    assert data[6..] == TopicsBytes(l) + PutUint32(0);
  }
}
