/** Sorting a sequence of distinct strings into ascending String order, the
    way `keySet().stream().sorted()` produces a table's column order. */
module Ordering {
  import opened Strings

  /** Strictly ascending: sorted and free of duplicates. */
  predicate StrictlySorted(s: seq<string>) {
    forall i, j :: 0 <= i < j < |s| ==> Less(s[i], s[j])
  }

  predicate Distinct(s: seq<string>) {
    forall i, j :: 0 <= i < j < |s| ==> s[i] != s[j]
  }

  /** Placing a string below every element of a strictly sorted sequence
      keeps it strictly sorted. */
  lemma PrependSmallest(x: string, s: seq<string>)
    requires StrictlySorted(s) && (s == [] || Less(x, s[0]))
    ensures StrictlySorted([x] + s)
  {
    forall j | 0 < j < |s| ensures Less(x, s[j]) {
      LessTransitive(x, s[0], s[j]);
    }
  }

  /** The head of a strictly sorted sequence stays below the insertion of a
      larger string into its tail. */
  lemma HeadStaysFirst(s: seq<string>, x: string, t: seq<string>)
    requires s != [] && StrictlySorted(s) && Less(s[0], x)
    requires StrictlySorted(t) && multiset(t) == multiset(s[1..]) + multiset{x}
    ensures StrictlySorted([s[0]] + t)
    ensures multiset([s[0]] + t) == multiset(s) + multiset{x}
  {
    forall j | 0 <= j < |t| ensures Less(s[0], t[j]) {
      assert t[j] in multiset(t);
      if t[j] != x {
        assert t[j] in s[1..];
      }
    }
    assert s == [s[0]] + s[1..];
  }

  function Insert(x: string, s: seq<string>): (r: seq<string>)
    requires StrictlySorted(s) && x !in s
    ensures multiset(r) == multiset(s) + multiset{x}
    ensures StrictlySorted(r)
    decreases |s|
  {
    if s == [] then [x]
    else if Less(x, s[0]) then
      PrependSmallest(x, s);
      [x] + s
    else
      LessTotal(x, s[0]);
      var t := Insert(x, s[1..]);
      HeadStaysFirst(s, x, t);
      [s[0]] + t
  }

  /** Insertion sort of distinct strings. */
  function Sort(s: seq<string>): (r: seq<string>)
    requires Distinct(s)
    ensures multiset(r) == multiset(s)
    ensures StrictlySorted(r)
    decreases |s|
  {
    if s == [] then []
    else
      var init := s[..|s| - 1];
      var last := s[|s| - 1];
      assert s == init + [last];
      assert last !in init;
      var t := Sort(init);
      assert last !in t by { assert last !in multiset(t); }
      Insert(last, t)
  }

  /** Sorting keeps exactly the same elements. */
  lemma SortSameElements(s: seq<string>, x: string)
    requires Distinct(s)
    ensures x in Sort(s) <==> x in s
  {
    assert x in Sort(s) <==> x in multiset(Sort(s));
  }

  /** The ascending order of a set of strings is unique: two strictly sorted
      sequences with the same elements are equal. */
  lemma {:induction false} SortedUnique(a: seq<string>, b: seq<string>)
    requires StrictlySorted(a) && StrictlySorted(b)
    requires forall x :: x in a <==> x in b
    ensures a == b
    decreases |a|
  {
    if a != [] { assert a[0] in b; }
    if b != [] { assert b[0] in a; }
    if a != [] && b != [] {
      if a[0] != b[0] {
        assert b[0] in a;
        var i :| 0 <= i < |a| && a[i] == b[0];
        assert a[0] in b;
        var j :| 0 <= j < |b| && b[j] == a[0];
        assert i > 0 && j > 0;
        LessAsymmetric(a[0], a[i]);
      }
      assert a == [a[0]] + a[1..] && b == [b[0]] + b[1..];
      assert a[0] == b[0];
      LessIrreflexive(a[0]);
      forall x ensures x in a[1..] <==> x in b[1..] {
        if x in a[1..] {
          var i :| 1 <= i < |a| && a[i] == x;
          assert Less(a[0], a[i]);
          assert x in a;
          assert x in b;
          assert x != b[0];
        }
        if x in b[1..] {
          var j :| 1 <= j < |b| && b[j] == x;
          assert Less(b[0], b[j]);
          assert x in b;
          assert x in a;
          assert x != a[0];
        }
      }
      SortedUnique(a[1..], b[1..]);
    }
  }
}
