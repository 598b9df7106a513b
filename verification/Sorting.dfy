/** Sorting as the library calls do it, with what makes a sorted result independent of the
    order the elements arrived in. */
module Sorting {
  import opened Bytes

  // ------------------------------------------------------------------- integers

  ghost predicate StrictlySorted(s: seq<int>) {
    forall i, j :: 0 <= i < j < |s| ==> s[i] < s[j]
  }

  ghost predicate Distinct<T>(s: seq<T>) {
    forall i, j :: 0 <= i < j < |s| ==> s[i] != s[j]
  }

  function InsertInt(s: seq<int>, x: int): seq<int> {
    if s == [] then [x] else if x <= s[0] then [x] + s else [s[0]] + InsertInt(s[1..], x)
  }

  function SortInts(s: seq<int>): seq<int> {
    if s == [] then [] else InsertInt(SortInts(s[..|s| - 1]), s[|s| - 1])
  }

  lemma {:induction false} InsertIntSorted(s: seq<int>, x: int)
    requires StrictlySorted(s) && x !in s
    ensures StrictlySorted(InsertInt(s, x))
  {
    if s != [] && x > s[0] {
      InsertIntSorted(s[1..], x);
      var t := InsertInt(s[1..], x);
      InsertIntMembers(s[1..], x);
      forall i | 0 <= i < |t| ensures s[0] < t[i] { assert t[i] in t; }
    }
  }

  lemma {:induction false} SortIntsSorted(s: seq<int>)
    requires Distinct(s)
    ensures StrictlySorted(SortInts(s))
    ensures forall y :: y in SortInts(s) <==> y in s
  {
    if s != [] {
      var front := s[..|s| - 1];
      SortIntsSorted(front);
      InsertIntSorted(SortInts(front), s[|s| - 1]);
      InsertIntMembers(SortInts(front), s[|s| - 1]);
      assert s == front + [s[|s| - 1]];
    }
  }

  lemma {:induction false} SortIntsMembers(s: seq<int>)
    ensures |SortInts(s)| == |s|
    ensures forall y :: y in SortInts(s) <==> y in s
  {
    if s != [] {
      var front := s[..|s| - 1];
      SortIntsMembers(front);
      InsertIntMembers(SortInts(front), s[|s| - 1]);
      assert s == front + [s[|s| - 1]];
    }
  }

  lemma {:induction false} InsertIntMembers(s: seq<int>, x: int)
    ensures |InsertInt(s, x)| == |s| + 1
    ensures forall y :: y in InsertInt(s, x) <==> y in s || y == x
  {
    if s != [] && x > s[0] {
      InsertIntMembers(s[1..], x);
      assert forall y :: y in s <==> y == s[0] || y in s[1..];
    }
  }

  /** A strictly sorted sequence is determined by its elements. */
  lemma {:induction false} SortedUnique(a: seq<int>, b: seq<int>)
    requires StrictlySorted(a) && StrictlySorted(b)
    requires forall y :: y in a <==> y in b
    ensures a == b
  {
    if a == [] {
      assert forall i :: 0 <= i < |b| ==> b[i] in b;
    } else {
      assert a[0] in a;
      assert b != [] && b[0] in b && b[0] in a;
      assert a[0] == b[0];
      forall y ensures y in a[1..] <==> y in b[1..] {
        assert y in a <==> y == a[0] || y in a[1..];
        assert y in b <==> y == b[0] || y in b[1..];
        assert a[0] !in a[1..] && b[0] !in b[1..];
      }
      SortedUnique(a[1..], b[1..]);
    }
  }

  // ---------------------------------------------------- names, in byte order

  /** Member ids, group ids and topic names. */
  type Name = bytes

  /** The `<` of strings. */
  predicate Less(a: Name, b: Name) {
    if b == [] then false
    else if a == [] then true
    else a[0] < b[0] || (a[0] == b[0] && Less(a[1..], b[1..]))
  }

  lemma {:induction false} LessTotal(a: Name, b: Name)
    ensures a == b || Less(a, b) || Less(b, a)
    ensures !(Less(a, b) && Less(b, a)) && !Less(a, a)
  {
    if a != [] {
      LessTotal(a[1..], if b == [] then [] else b[1..]);
      if b != [] && a[0] == b[0] && a[1..] == b[1..] {
        assert a == [a[0]] + a[1..] && b == [b[0]] + b[1..];
      }
    }
  }

  lemma {:induction false} LessTrans(a: Name, b: Name, c: Name)
    requires Less(a, b) && Less(b, c)
    ensures Less(a, c)
  {
    if a != [] && a[0] == b[0] == c[0] { LessTrans(a[1..], b[1..], c[1..]); }
  }

  ghost predicate Ordered(s: seq<Name>) {
    forall i, j :: 0 <= i < j < |s| ==> Less(s[i], s[j])
  }

  function Insert(s: seq<Name>, x: Name): seq<Name> {
    if s == [] then [x] else if Less(x, s[0]) then [x] + s else [s[0]] + Insert(s[1..], x)
  }

  lemma {:induction false} InsertOrdered(s: seq<Name>, x: Name)
    requires Ordered(s) && x !in s
    ensures Ordered(Insert(s, x))
    ensures forall y :: y in Insert(s, x) <==> y in s || y == x
  {
    hide Less;
    if s != [] {
      assert forall y :: y in s <==> y == s[0] || y in s[1..];
      LessTotal(x, s[0]);
      if Less(x, s[0]) {
        forall i | 0 <= i < |s| ensures Less(x, s[i]) { if i > 0 { LessTrans(x, s[0], s[i]); } }
      } else {
        InsertOrdered(s[1..], x);
        var t := Insert(s[1..], x);
        forall i | 0 <= i < |t| ensures Less(s[0], t[i]) {
          assert t[i] in t;
          if t[i] != x { var k :| 0 <= k < |s[1..]| && s[1..][k] == t[i]; }
        }
      }
    }
  }

  /** The elements of a set in order: what sort.Strings makes of any listing of it. */
  ghost function Sorted(s: set<Name>): (r: seq<Name>)
    ensures Ordered(r)
    ensures forall x :: x in r <==> x in s
  {
    if s == {} then []
    else
      var x :| x in s;
      var rest := Sorted(s - {x});
      InsertOrdered(rest, x);
      Insert(rest, x)
  }

  lemma {:induction false} OrderedUnique(a: seq<Name>, b: seq<Name>)
    requires Ordered(a) && Ordered(b)
    requires forall y :: y in a <==> y in b
    ensures a == b
  {
    hide Less;
    if a == [] {
      assert forall i :: 0 <= i < |b| ==> b[i] in b;
    } else {
      assert a[0] in a && a[0] in b;
      assert b != [] && b[0] in b && b[0] in a;
      LessTotal(a[0], b[0]);
      assert a[0] == b[0];
      forall y ensures y in a[1..] <==> y in b[1..] {
        assert y in a <==> y == a[0] || y in a[1..];
        assert y in b <==> y == b[0] || y in b[1..];
        assert a[0] !in a[1..] by { HeadNotInTail(a); }
        assert b[0] !in b[1..] by { HeadNotInTail(b); }
      }
      OrderedUnique(a[1..], b[1..]);
    }
  }

  lemma HeadNotInTail(a: seq<Name>)
    requires Ordered(a) && a != []
    ensures a[0] !in a[1..]
  {
    hide Less;
    forall i | 0 <= i < |a[1..]| ensures a[1..][i] != a[0] {
      LessTotal(a[0], a[0]);
      assert Less(a[0], a[i + 1]);
    }
  }

  lemma OrderedDistinct(a: seq<Name>)
    requires Ordered(a)
    ensures Distinct(a)
  {
    hide Less;
    forall i, j | 0 <= i < j < |a| ensures a[i] != a[j] { LessTotal(a[i], a[i]); }
  }

  /** Collecting the keys in whatever order and sorting them. */
  method SortNames(s: set<Name>) returns (r: seq<Name>)
    ensures r == Sorted(s)
  {
    r := [];
    var rest := s;
    while rest != {}
      invariant rest <= s && Ordered(r)
      invariant forall x :: x in r <==> x in s && x !in rest
      decreases rest
    {
      var x :| x in rest;
      InsertOrdered(r, x);
      r := Insert(r, x);
      rest := rest - {x};
    }
    OrderedUnique(r, Sorted(s));
  }
}
