/** The shared LRU segment cache (pkg/cache/segment_cache.go), specified by the
    history of its uses. */
module SegmentCache {
  import opened Bytes
  import opened Wrappers

  // ---------------------------------------------------------------- cache keys

  function Digit(d: nat): (c: char)
    requires d < 10
    ensures '0' <= c <= '9' && (c as int - '0' as int) == d
  {
    ('0' as int + d) as char
  }

  function NatText(n: nat): (s: string)
    ensures |s| > 0 && forall i :: 0 <= i < |s| ==> '0' <= s[i] <= '9'
  {
    if n < 10 then [Digit(n)] else NatText(n / 10) + [Digit(n % 10)]
  }

  /** The `%d` verb. */
  function IntText(n: int): (s: string)
    ensures ':' !in s
  {
    if n < 0 then ['-'] + NatText(-n) else NatText(n)
  }

  function NatValue(s: string): int {
    if s == [] then 0 else 10 * NatValue(s[..|s| - 1]) + (s[|s| - 1] as int - '0' as int)
  }

  lemma {:induction false} NatTextValue(n: nat)
    ensures NatValue(NatText(n)) == n
  {
    if n >= 10 {
      NatTextValue(n / 10);
      assert NatText(n)[..|NatText(n)| - 1] == NatText(n / 10);
    } else {
      assert NatValue([]) == 0;
      assert NatText(n)[..0] == [];
    }
  }

  lemma IntTextInjective(m: int, n: int)
    requires IntText(m) == IntText(n)
    ensures m == n
  {
    hide NatText;
    var a, b := if m < 0 then -m else m, if n < 0 then -n else n;
    NatTextValue(a);
    NatTextValue(b);
    assert IntText(m)[0] == IntText(n)[0];
    if m < 0 { assert NatText(a) == IntText(m)[1..] == IntText(n)[1..] == NatText(b); }
  }

  function MakeKey(topic: string, partition: int, baseOffset: int): string {
    topic + [':'] + IntText(partition) + [':'] + IntText(baseOffset)
  }

  lemma LastColon(x: string, y: string, x': string, y': string)
    requires ':' !in y && ':' !in y' && x + [':'] + y == x' + [':'] + y'
    ensures x == x' && y == y'
  {
    var s := x + [':'] + y;
    assert s[|x|] == ':' && s[|x'|] == ':';
    assert x == s[..|x|] && x' == s[..|x'|];
    assert y == s[|x| + 1..] && y' == s[|x'| + 1..];
  }

  /** Two segments share a cache key only if they are the same segment, whatever the topic names contain. */
  lemma MakeKeyInjective(t: string, p: int, b: int, t': string, p': int, b': int)
    requires MakeKey(t, p, b) == MakeKey(t', p', b')
    ensures t == t' && p == p' && b == b'
  {
    LastColon(t + [':'] + IntText(p), IntText(b), t' + [':'] + IntText(p'), IntText(b'));
    LastColon(t, IntText(p), t', IntText(p'));
    IntTextInjective(p, p');
    IntTextInjective(b, b');
  }

  // ------------------------------------------------------- the cache as a value

  datatype Entry = Entry(key: string, data: bytes)

  /** Entries from most to least recently used. */
  type Lru = seq<Entry>

  function Keys(c: Lru): (ks: seq<string>)
    ensures |ks| == |c| && forall i :: 0 <= i < |c| ==> ks[i] == c[i].key
  {
    seq(|c|, i requires 0 <= i < |c| => c[i].key)
  }

  function Size(c: Lru): (n: nat) {
    if c == [] then 0 else Size(c[..|c| - 1]) + |c[|c| - 1].data|
  }

  function Find(c: Lru, key: string): (r: Option<bytes>)
    ensures r.Some? ==> Entry(key, r.value) in c
    ensures r.None? <==> forall i :: 0 <= i < |c| ==> c[i].key != key
  {
    if c == [] then None
    else if c[0].key == key then Some(c[0].data)
    else Find(c[1..], key)
  }

  function Without(c: Lru, key: string): (r: Lru)
    ensures forall i :: 0 <= i < |r| ==> r[i].key != key
    ensures forall e :: e in r ==> e in c
  {
    if c == [] then []
    else if c[|c| - 1].key == key then Without(c[..|c| - 1], key)
    else Without(c[..|c| - 1], key) + [c[|c| - 1]]
  }

  function Evicted(c: Lru, capacity: nat): (r: Lru)
    ensures r <= c && Size(r) <= capacity
  {
    if Size(c) > capacity && |c| > 0 then Evicted(c[..|c| - 1], capacity) else c
  }

  /** GetSegment: a hit moves the entry to the front. */
  function Got(c: Lru, key: string): (r: Lru)
    ensures forall e :: e in r ==> e in c
  {
    match Find(c, key)
    case None => c
    case Some(data) => [Entry(key, data)] + Without(c, key)
  }

  function Put(c: Lru, capacity: nat, key: string, data: bytes): (r: Lru)
    ensures forall e :: e in r ==> e == Entry(key, data) || (e in c && e.key != key)
    ensures Size(r) <= capacity
  {
    Evicted([Entry(key, data)] + Without(c, key), capacity)
  }

  /** What is stored and fits is there afterwards. */
  lemma PutHolds(c: Lru, capacity: nat, key: string, data: bytes)
    requires |data| <= capacity
    ensures Entry(key, data) in Put(c, capacity, key, data)
  {
    hide Without, Evicted, Size;
    var grown := [Entry(key, data)] + Without(c, key);
    EvictedExactly(grown, capacity, 0);
    assert grown[..1] == [Entry(key, data)];
    SizeOne(Entry(key, data));
    assert Evicted(grown, capacity)[0] == Entry(key, data);
  }

  lemma SizeOne(e: Entry)
    ensures Size([e]) == |e.data|
  {
    assert [e][..0] == [];
  }

  predicate NoDup(s: seq<string>) {
    forall i, j :: 0 <= i < j < |s| ==> s[i] != s[j]
  }

  // ------------------------------------------ reference: the history of its uses

  datatype Use = Get(key: string) | Set(key: string, data: bytes)

  function RunCache(uses: seq<Use>, capacity: nat): Lru {
    if uses == [] then []
    else
      var c := RunCache(uses[..|uses| - 1], capacity);
      match uses[|uses| - 1]
      case Get(k) => Got(c, k)
      case Set(k, d) => Put(c, capacity, k, d)
  }

  /** The bytes last stored under a key. */
  function LastStored(uses: seq<Use>, key: string): Option<bytes> {
    if uses == [] then None
    else
      match uses[|uses| - 1]
      case Set(k, d) => if k == key then Some(d) else LastStored(uses[..|uses| - 1], key)
      case Get(_) => LastStored(uses[..|uses| - 1], key)
  }

  function Drop(s: seq<string>, key: string): (r: seq<string>)
    ensures forall x :: x in r <==> x in s && x != key
  {
    if s == [] then []
    else if s[|s| - 1] == key then Drop(s[..|s| - 1], key)
    else Drop(s[..|s| - 1], key) + [s[|s| - 1]]
  }

  /** Bytes last stored under the keys of a list. */
  function StoredBytes(uses: seq<Use>, keys: seq<string>): nat {
    if keys == [] then 0
    else
      var d := LastStored(uses, keys[|keys| - 1]);
      StoredBytes(uses, keys[..|keys| - 1]) + (if d.Some? then |d.value| else 0)
  }

  /** The list up to and including a key. */
  function UpTo(keys: seq<string>, key: string): (r: seq<string>)
    ensures r <= keys
  {
    if keys == [] then []
    else if key in keys[..|keys| - 1] then UpTo(keys[..|keys| - 1], key)
    else keys
  }

  /** Every key ever used, by its last use, most recent first. A use is a store, or a look-up of a
      key that is retained. */
  function Recency(uses: seq<Use>, capacity: nat): seq<string>
    decreases |uses|, 0
  {
    if uses == [] then []
    else
      var before := uses[..|uses| - 1];
      var r := Recency(before, capacity);
      match uses[|uses| - 1]
      case Set(k, _) => [k] + Drop(r, k)
      case Get(k) => if Retained(before, capacity, k) then [k] + Drop(r, k) else r
  }

  /** The bytes of the keys used at least as recently as `key`. */
  function Load(uses: seq<Use>, capacity: nat, key: string): nat
    decreases |uses|, 1
  {
    StoredBytes(uses, UpTo(Recency(uses, capacity), key))
  }

  /** A key is retained from a store on, as long as no store makes the keys at least as recent as it
      exceed the capacity. */
  predicate Retained(uses: seq<Use>, capacity: nat, key: string)
    decreases |uses|, 2
  {
    uses != []
    && var before := uses[..|uses| - 1];
       match uses[|uses| - 1]
       case Get(_) => Retained(before, capacity, key)
       case Set(k, _) => (k == key || Retained(before, capacity, key)) && Load(uses, capacity, key) <= capacity
  }

  /** The same without recursion: since some store of the key, no store exceeded the capacity. */
  ghost predicate RetainedSince(uses: seq<Use>, capacity: nat, key: string, s: int) {
    && 0 <= s < |uses| && uses[s].Set? && uses[s].key == key
    && forall t :: s <= t < |uses| && uses[t].Set? ==> Load(uses[..t + 1], capacity, key) <= capacity
  }

  lemma {:induction false} RetainedMeans(uses: seq<Use>, capacity: nat, key: string)
    ensures Retained(uses, capacity, key) <==> exists s :: RetainedSince(uses, capacity, key, s)
  {
    hide Load;
    if uses != [] {
      var n := |uses| - 1;
      var before := uses[..n];
      RetainedMeans(before, capacity, key);
      assert uses[..n + 1] == uses;
      forall s | 0 <= s < n ensures RetainedSince(uses, capacity, key, s) <==>
          RetainedSince(before, capacity, key, s) && (uses[n].Set? ==> Load(uses, capacity, key) <= capacity) {
        SinceBefore(uses, capacity, key, s);
      }
      if Retained(uses, capacity, key) {
        if uses[n].Set? && uses[n].key == key {
          assert RetainedSince(uses, capacity, key, n);
        } else {
          var s :| RetainedSince(before, capacity, key, s);
          assert RetainedSince(uses, capacity, key, s);
        }
      }
      if s :| RetainedSince(uses, capacity, key, s) {
        if s < n { assert RetainedSince(before, capacity, key, s); }
      }
    }
  }

  lemma SinceBefore(uses: seq<Use>, capacity: nat, key: string, s: int)
    requires uses != [] && 0 <= s < |uses| - 1
    ensures RetainedSince(uses, capacity, key, s) <==>
              RetainedSince(uses[..|uses| - 1], capacity, key, s)
              && (uses[|uses| - 1].Set? ==> Load(uses, capacity, key) <= capacity)
  {
    hide Load;
    var n := |uses| - 1;
    var before := uses[..n];
    assert uses[..n + 1] == uses;
    forall t | s <= t < n ensures before[..t + 1] == uses[..t + 1] && before[t] == uses[t] {
    }
  }

  lemma {:induction false} DropPrefix(a: seq<string>, s: seq<string>, key: string)
    requires a <= s
    ensures Drop(a, key) <= Drop(s, key)
    decreases |s|
  {
    if |a| < |s| {
      DropPrefix(a, s[..|s| - 1], key);
    } else {
      assert a == s;
    }
  }

  lemma {:induction false} KeysWithout(c: Lru, key: string)
    ensures Keys(Without(c, key)) == Drop(Keys(c), key)
  {
    if c != [] {
      var n := |c| - 1;
      KeysWithout(c[..n], key);
      assert Keys(c)[..n] == Keys(c[..n]);
    }
  }

  lemma KeysPrefix(a: Lru, c: Lru)
    requires a <= c
    ensures Keys(a) <= Keys(c)
  {
  }

  lemma {:induction false} DropNoDup(s: seq<string>, key: string)
    requires NoDup(s)
    ensures NoDup([key] + Drop(s, key))
  {
    if s != [] {
      var n := |s| - 1;
      DropNoDup(s[..n], key);
      if s[n] != key {
        var front := [key] + Drop(s[..n], key);
        assert [key] + Drop(s, key) == front + [s[n]];
        assert s[n] !in s[..n];
      }
    }
  }

  /** What LRU means of a cache `c` after the uses `uses`. */
  ghost predicate LruOf(c: Lru, uses: seq<Use>, recency: seq<string>, capacity: nat) {
    && Keys(c) <= recency
    && NoDup(recency)
    && (forall e :: e in c ==> LastStored(uses, e.key) == Some(e.data))
    && Size(c) <= capacity
  }

  lemma LruSet(c: Lru, uses: seq<Use>, recency: seq<string>, capacity: nat, k: string, d: bytes)
    requires LruOf(c, uses, recency, capacity)
    ensures LruOf(Put(c, capacity, k, d), uses + [Set(k, d)], [k] + Drop(recency, k), capacity)
  {
    hide Without, Drop, Size, NoDup;
    KeysWithout(c, k);
    DropPrefix(Keys(c), recency, k);
    DropNoDup(recency, k);
    var grown := [Entry(k, d)] + Without(c, k);
    assert Keys(grown) == [k] + Keys(Without(c, k));
    KeysPrefix(Evicted(grown, capacity), grown);
    assert (uses + [Set(k, d)])[..|uses|] == uses;
  }

  lemma LruGet(c: Lru, uses: seq<Use>, recency: seq<string>, capacity: nat, k: string)
    requires LruOf(c, uses, recency, capacity)
    ensures Find(c, k).Some? ==> LruOf(Got(c, k), uses + [Get(k)], [k] + Drop(recency, k), capacity)
    ensures Find(c, k).None? ==> LruOf(c, uses + [Get(k)], recency, capacity)
  {
    hide Size, Without, Drop, Find, Got, NoDup, LastStored;
    LastStoredGet(uses, k);
    if Find(c, k).Some? {
      KeysWithout(c, k);
      DropPrefix(Keys(c), recency, k);
      DropNoDup(recency, k);
      SizeMoved(c, k, recency);
      GotShape(c, k);
      assert Keys(Got(c, k)) <= [k] + Drop(recency, k);
    }
  }

  lemma LastStoredGet(uses: seq<Use>, k: string)
    ensures forall key :: LastStored(uses + [Get(k)], key) == LastStored(uses, key)
  {
    assert (uses + [Get(k)])[..|uses|] == uses;
  }

  lemma GotShape(c: Lru, k: string)
    requires Find(c, k).Some?
    ensures Keys(Got(c, k)) == [k] + Keys(Without(c, k))
  {
  }

  // ------------------------------------------------------------------- what is retained

  lemma {:induction false} SizePrefix(c: Lru, i: nat)
    requires i <= |c|
    ensures Size(c[..i]) <= Size(c)
  {
    if i < |c| {
      SizePrefix(c[..|c| - 1], i);
      assert c[..|c| - 1][..i] == c[..i];
    } else {
      assert c[..i] == c;
    }
  }

  /** Eviction stops as soon as it can: it keeps exactly the entries up to which the sizes fit. */
  lemma {:induction false} EvictedExactly(c: Lru, capacity: nat, i: nat)
    requires i < |c|
    ensures i < |Evicted(c, capacity)| <==> Size(c[..i + 1]) <= capacity
  {
    if Size(c) <= capacity {
      SizePrefix(c, i + 1);
    } else if i == |c| - 1 {
      assert c[..i + 1] == c;
    } else {
      EvictedExactly(c[..|c| - 1], capacity, i);
      assert c[..|c| - 1][..i + 1] == c[..i + 1];
    }
  }

  lemma {:induction false} UpToAt(keys: seq<string>, i: nat)
    requires NoDup(keys) && i < |keys|
    ensures UpTo(keys, keys[i]) == keys[..i + 1]
  {
    var n := |keys| - 1;
    if i < n {
      UpToAt(keys[..n], i);
      assert keys[i] == keys[..n][i];
      assert keys[..n][..i + 1] == keys[..i + 1];
    } else {
      assert keys[..i + 1] == keys;
    }
  }

  /** The bytes of a list of entries, by what was last stored. */
  lemma {:induction false} SizeStored(c: Lru, uses: seq<Use>)
    requires forall e :: e in c ==> LastStored(uses, e.key) == Some(e.data)
    ensures StoredBytes(uses, Keys(c)) == Size(c)
  {
    hide LastStored;
    if c != [] {
      var n := |c| - 1;
      SizeStored(c[..n], uses);
      assert Keys(c)[..n] == Keys(c[..n]);
      assert c[n] in c;
    }
  }

  /** The cache before eviction, in terms of the history. */
  lemma GrownLoad(grown: Lru, uses: seq<Use>, capacity: nat, i: nat)
    requires i < |grown| && Keys(grown) <= Recency(uses, capacity) && NoDup(Recency(uses, capacity))
    requires forall e :: e in grown ==> LastStored(uses, e.key) == Some(e.data)
    ensures Load(uses, capacity, grown[i].key) == Size(grown[..i + 1])
  {
    hide Recency, LastStored, StoredBytes, Size;
    var r := Recency(uses, capacity);
    UpToAt(r, i);
    assert grown[i].key == Keys(grown)[i] == r[i];
    assert r[..i + 1] == Keys(grown)[..i + 1] == Keys(grown[..i + 1]);
    SizeStored(grown[..i + 1], uses);
  }

  /** The keys of the cache are the retained ones. */
  ghost predicate KeepsRetained(c: Lru, uses: seq<Use>, capacity: nat) {
    forall k :: k in Keys(c) <==> Retained(uses, capacity, k)
  }

  lemma RetainedSet(c: Lru, before: seq<Use>, capacity: nat, k: string, d: bytes)
    requires LruOf(c, before, Recency(before, capacity), capacity) && KeepsRetained(c, before, capacity)
    ensures KeepsRetained(Put(c, capacity, k, d), before + [Set(k, d)], capacity)
  {
    hide Load, Recency, Without, Drop, Size, Evicted;
    var uses := before + [Set(k, d)];
    assert uses[..|before|] == before;
    var grown := [Entry(k, d)] + Without(c, k);
    GrownIs(c, before, capacity, k, d);
    hide Put;
    PutIs(c, capacity, k, d);
    var put := Put(c, capacity, k, d);
    forall key ensures key in Keys(put) <==> Retained(uses, capacity, key) {
      if key in Keys(grown) {
        var i :| 0 <= i < |grown| && Keys(grown)[i] == key;
        GrownLoad(grown, uses, capacity, i);
        EvictedExactly(grown, capacity, i);
        KeyAt(put, grown, i);
      } else {
        KeysPrefix(put, grown);
      }
    }
  }

  lemma PutIs(c: Lru, capacity: nat, k: string, d: bytes)
    ensures Put(c, capacity, k, d) == Evicted([Entry(k, d)] + Without(c, k), capacity)
    ensures Put(c, capacity, k, d) <= [Entry(k, d)] + Without(c, k)
  {
  }

  /** In a prefix of a list without duplicates a key is found only at its own place. */
  lemma KeyAt(a: Lru, c: Lru, i: nat)
    requires a <= c && i < |c| && NoDup(Keys(c))
    ensures c[i].key in Keys(a) <==> i < |a|
  {
    if i < |a| { assert Keys(a)[i] == c[i].key; }
    if j :| 0 <= j < |a| && Keys(a)[j] == c[i].key {
      assert Keys(c)[j] == Keys(c)[i];
    }
  }

  lemma GrownIs(c: Lru, before: seq<Use>, capacity: nat, k: string, d: bytes)
    requires LruOf(c, before, Recency(before, capacity), capacity)
    ensures var uses := before + [Set(k, d)];
            var grown := [Entry(k, d)] + Without(c, k);
            && Keys(grown) <= Recency(uses, capacity) && NoDup(Recency(uses, capacity)) && NoDup(Keys(grown))
            && (forall e :: e in grown ==> LastStored(uses, e.key) == Some(e.data))
            && (forall key :: key in Keys(grown) <==> key == k || key in Keys(c))
  {
    hide Without, Drop, Size;
    var uses := before + [Set(k, d)];
    assert uses[..|before|] == before;
    KeysWithout(c, k);
    var r := Recency(before, capacity);
    DropPrefix(Keys(c), r, k);
    DropNoDup(r, k);
    var grown := [Entry(k, d)] + Without(c, k);
    assert Keys(grown) == [k] + Keys(Without(c, k));
    assert Recency(uses, capacity) == [k] + Drop(r, k);
  }

  lemma RetainedGet(c: Lru, before: seq<Use>, capacity: nat, k: string)
    requires KeepsRetained(c, before, capacity)
    ensures KeepsRetained(Got(c, k), before + [Get(k)], capacity)
    ensures Find(c, k).Some? <==> Retained(before, capacity, k)
  {
    hide Load, Without, Drop, Find, Got, Keys;
    GotKeys(c, k);
    assert (before + [Get(k)])[..|before|] == before;
    forall key ensures key in Keys(Got(c, k)) <==> Retained(before + [Get(k)], capacity, key) {
      assert Retained(before + [Get(k)], capacity, key) == Retained(before, capacity, key);
    }
  }

  /** A lookup moves a key and keeps the set of keys. */
  lemma GotKeys(c: Lru, k: string)
    ensures forall key :: key in Keys(Got(c, k)) <==> key in Keys(c)
    ensures Find(c, k).Some? <==> k in Keys(c)
  {
    hide Without, Drop, Find;
    if Find(c, k).Some? {
      GotShape(c, k);
      KeysWithout(c, k);
      assert Entry(k, Find(c, k).value) in c;
      var i :| 0 <= i < |c| && c[i] == Entry(k, Find(c, k).value);
      assert Keys(c)[i] == k;
    } else {
      assert k !in Keys(c);
    }
  }

  lemma LruNothing(capacity: nat)
    ensures LruOf([], [], [], capacity) && KeepsRetained([], [], capacity)
  {
  }

  /** LRU, over every history: the cache holds exactly the retained keys, they are the most recently
      used ones in order, each has the bytes last stored under it, and together they fit. */
  lemma {:induction false} LruRefinesHistory(uses: seq<Use>, capacity: nat)
    ensures var c := RunCache(uses, capacity);
            LruOf(c, uses, Recency(uses, capacity), capacity) && KeepsRetained(c, uses, capacity)
  {
    hide LruOf, KeepsRetained, Retained, Put, Find, Drop, Without;
    if uses == [] {
      LruNothing(capacity);
    } else {
      var before, u := uses[..|uses| - 1], uses[|uses| - 1];
      LruRefinesHistory(before, capacity);
      assert uses == before + [u];
      var c, r := RunCache(before, capacity), Recency(before, capacity);
      match u {
        case Set(k, d) =>
          LruSet(c, before, r, capacity, k, d);
          RetainedSet(c, before, capacity, k, d);
        case Get(k) =>
          LruGet(c, before, r, capacity, k);
          RetainedGet(c, before, capacity, k);
      }
    }
  }

  lemma {:induction false} SizeWithout(c: Lru, key: string)
    requires NoDup(Keys(c))
    ensures Size(c) == Size(Without(c, key)) + (match Find(c, key) case Some(d) => |d| case None => 0)
  {
    if c != [] {
      var n := |c| - 1;
      assert Keys(c[..n]) == Keys(c)[..n];
      SizeWithout(c[..n], key);
      FindLast(c, key);
    }
  }

  lemma {:induction false} FindLast(c: Lru, key: string)
    requires c != [] && NoDup(Keys(c))
    ensures Find(c, key) == if c[|c| - 1].key == key then Some(c[|c| - 1].data) else Find(c[..|c| - 1], key)
  {
    var n := |c| - 1;
    if n == 0 {
      assert c[1..] == [] && c[..0] == [];
    } else {
      assert Keys(c[1..]) == Keys(c)[1..];
      assert Keys(c)[0] != Keys(c)[n];
      FindLast(c[1..], key);
      assert c[1..][..n - 1] == c[..n][1..];
    }
  }

  lemma {:induction false} SizeFront(e: Entry, c: Lru)
    ensures Size([e] + c) == |e.data| + Size(c)
  {
    if c == [] {
      assert [e] + c == [e];
      assert [e][..0] == [];
    } else {
      var n := |c| - 1;
      SizeFront(e, c[..n]);
      assert ([e] + c)[..n + 1] == [e] + c[..n];
    }
  }

  lemma SizeMoved(c: Lru, key: string, recency: seq<string>)
    requires Keys(c) <= recency && NoDup(recency) && Find(c, key).Some?
    ensures Size(Got(c, key)) == Size(c)
  {
    SizeWithout(c, key);
    SizeFront(Entry(key, Find(c, key).value), Without(c, key));
  }

  // ------------------------------------------------------------ the linked form

  /** The list of keys joined with the map's payloads. */
  function Joined(ll: seq<string>, items: map<string, bytes>): (c: Lru)
    requires forall k :: k in ll ==> k in items
    ensures |c| == |ll| && Keys(c) == ll
  {
    seq(|ll|, i requires 0 <= i < |ll| => Entry(ll[i], items[ll[i]]))
  }

  lemma {:induction false} JoinedDrop(ll: seq<string>, items: map<string, bytes>, key: string)
    requires forall k :: k in ll ==> k in items
    ensures Without(Joined(ll, items), key) == Joined(Drop(ll, key), items)
  {
    if ll != [] {
      var n := |ll| - 1;
      JoinedDrop(ll[..n], items, key);
      assert ll[n] in ll;
      var c := Joined(ll, items);
      assert c[..n] == Joined(ll[..n], items) && c[n] == Entry(ll[n], items[ll[n]]);
    }
  }

  /** The list and the map hold the same keys, each once. */
  ghost predicate SameKeys(ll: seq<string>, items: map<string, bytes>) {
    NoDup(ll) && forall k :: k in ll <==> k in items
  }

  lemma FindJoined(ll: seq<string>, items: map<string, bytes>, key: string)
    requires SameKeys(ll, items)
    ensures Find(Joined(ll, items), key) == if key in items then Some(items[key]) else None
  {
    var c := Joined(ll, items);
    if key in items {
      var i :| 0 <= i < |ll| && ll[i] == key;
      assert c[i].key == key;
    }
  }

  lemma FrontKeys(ll: seq<string>, items: map<string, bytes>, key: string, data: bytes)
    requires SameKeys(ll, items)
    ensures SameKeys([key] + Drop(ll, key), items[key := data])
    ensures key in items ==> SameKeys([key] + Drop(ll, key), items)
  {
    DropNoDup(ll, key);
    hide NoDup;
  }

  lemma FrontJoined(ll: seq<string>, items: map<string, bytes>, key: string, data: bytes)
    requires SameKeys(ll, items) && SameKeys([key] + Drop(ll, key), items[key := data])
    ensures Joined([key] + Drop(ll, key), items[key := data]) == [Entry(key, data)] + Without(Joined(ll, items), key)
  {
    hide Without, NoDup, Drop;
    JoinedDrop(ll, items, key);
    var d := Drop(ll, key);
    assert Joined([key] + d, items[key := data]) == [Entry(key, data)] + Joined(d, items);
  }

  lemma StoreAtFront(ll: seq<string>, items: map<string, bytes>, key: string, data: bytes)
    requires SameKeys(ll, items)
    ensures var ll', items' := [key] + Drop(ll, key), items[key := data];
            && SameKeys(ll', items')
            && Joined(ll', items') == [Entry(key, data)] + Without(Joined(ll, items), key)
            && Size(Joined(ll', items'))
               == Size(Joined(ll, items)) - (if key in items then |items[key]| else 0) + |data|
  {
    var c := Joined(ll, items);
    FrontKeys(ll, items, key, data);
    FrontJoined(ll, items, key, data);
    FindJoined(ll, items, key);
    SizeWithout(c, key);
    hide Size, Without, Find, Drop, SameKeys;
    SizeFront(Entry(key, data), Without(c, key));
  }

  lemma MoveToFront(ll: seq<string>, items: map<string, bytes>, key: string)
    requires SameKeys(ll, items) && key in items
    ensures var ll' := [key] + Drop(ll, key);
            && SameKeys(ll', items)
            && Joined(ll', items) == Got(Joined(ll, items), key)
            && Size(Joined(ll', items)) == Size(Joined(ll, items))
  {
    assert items[key := items[key]] == items;
    StoreAtFront(ll, items, key, items[key]);
    FindJoined(ll, items, key);
  }

  lemma RemoveBack(ll: seq<string>, items: map<string, bytes>)
    requires SameKeys(ll, items) && ll != []
    ensures var n := |ll| - 1;
            && SameKeys(ll[..n], items - {ll[n]})
            && Joined(ll[..n], items - {ll[n]}) == Joined(ll, items)[..n]
            && Size(Joined(ll, items)) == Size(Joined(ll, items)[..n]) + |items[ll[n]]|
  {
  }

  class Cache {
    const capacity: nat
    var size: int
    var ll: seq<string>
    var items: map<string, bytes>

    ghost predicate Linked()
      reads this
    {
      SameKeys(ll, items) && size == Size(Joined(ll, items))
    }

    ghost predicate Valid()
      reads this
    {
      Linked() && size <= capacity
    }

    ghost function View(): Lru
      requires Linked()
      reads this
    {
      Joined(ll, items)
    }

    constructor (capacityBytes: int)
      ensures Valid() && View() == []
      ensures capacity == if capacityBytes <= 0 then 1 else capacityBytes
    {
      capacity := if capacityBytes <= 0 then 1 else capacityBytes;
      size, ll, items := 0, [], map[];
    }

    method GetSegment(topic: string, partition: int, baseOffset: int) returns (r: Option<bytes>)
      requires Valid()
      modifies this
      ensures Valid()
      ensures r == Find(old(View()), MakeKey(topic, partition, baseOffset))
      ensures View() == Got(old(View()), MakeKey(topic, partition, baseOffset))
    {
      var key := MakeKey(topic, partition, baseOffset);
      hide SameKeys, Size, Find, Drop, Without, MakeKey;
      FindJoined(ll, items, key);
      if key in items {
        MoveToFront(ll, items, key);
        ll := [key] + Drop(ll, key);
        return Some(items[key]);
      }
      return None;
    }

    method SetSegment(topic: string, partition: int, baseOffset: int, data: bytes)
      requires Valid()
      modifies this
      ensures Valid()
      ensures View() == Put(old(View()), capacity, MakeKey(topic, partition, baseOffset), data)
    {
      var key := MakeKey(topic, partition, baseOffset);
      StoreAtFront(ll, items, key, data);
      hide SameKeys, Size, Drop, Without, MakeKey, Evicted;
      if key in items { size := size - |items[key]|; }
      items := items[key := data];
      ll := [key] + Drop(ll, key);
      size := size + |data|;
      EvictIfNeeded();
    }

    method EvictIfNeeded()
      requires Linked()
      modifies this
      ensures Valid()
      ensures View() == Evicted(old(View()), capacity)
    {
      while size > capacity && |ll| > 0
        invariant Linked()
        invariant Evicted(View(), capacity) == Evicted(old(View()), capacity)
        decreases |ll|
      {
        RemoveBack(ll, items);
        hide SameKeys, Size;
        var n := |ll| - 1;
        var key := ll[n];
        size := size - |items[key]|;
        items := items - {key};
        ll := ll[..n];
      }
    }
  }
}
