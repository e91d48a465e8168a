/** The page orders lists with the platform's stable sort and a comparator
    of the form (a, b) => key(a) - key(b). This module models that sort as a
    stable insertion sort by a real-valued rank: a list sorted by rank is in
    non-decreasing rank order, so a descending sort by key uses rank = -key. */
module Ordering {

  /** s is in non-decreasing order of rank. */
  ghost predicate SortedBy<T>(s: seq<T>, rank: T -> real) {
    forall i, j :: 0 <= i < j < |s| ==> rank(s[i]) <= rank(s[j])
  }

  /** No element occurs twice in s. */
  ghost predicate Distinct<T>(s: seq<T>) {
    forall i, j :: 0 <= i < j < |s| ==> s[i] != s[j]
  }

  /** Inserts x before the first element whose rank is not below x's, so
      that x stays ahead of the equal-ranked elements that followed it. */
  function Insert<T>(x: T, s: seq<T>, rank: T -> real): (r: seq<T>)
    ensures multiset(r) == multiset(s) + multiset{x}
  {
    if s == [] || rank(x) <= rank(s[0]) then [x] + s
    else
      assert s == [s[0]] + s[1..];
      [s[0]] + Insert(x, s[1..], rank)
  }

  /** Inserting an element of rank at least lo into a list whose ranks are
      all at least lo gives a list whose ranks are all at least lo. */
  lemma {:induction false} InsertAbove<T>(x: T, s: seq<T>, rank: T -> real, lo: real)
    requires lo <= rank(x)
    requires forall k :: 0 <= k < |s| ==> lo <= rank(s[k])
    ensures forall k :: 0 <= k < |Insert(x, s, rank)| ==> lo <= rank(Insert(x, s, rank)[k])
  {
    if s != [] && rank(x) > rank(s[0]) {
      InsertAbove(x, s[1..], rank, lo);
      var tail := Insert(x, s[1..], rank);
      var r := [s[0]] + tail;
      forall k | 0 <= k < |r| ensures lo <= rank(r[k]) {
        if k > 0 { assert r[k] == tail[k - 1]; }
      }
    } else {
      var r := [x] + s;
      forall k | 0 <= k < |r| ensures lo <= rank(r[k]) {
        if k > 0 { assert r[k] == s[k - 1]; }
      }
    }
  }

  /** Inserting into a sorted list keeps it sorted. */
  lemma {:induction false} InsertSorted<T>(x: T, s: seq<T>, rank: T -> real)
    requires SortedBy(s, rank)
    ensures SortedBy(Insert(x, s, rank), rank)
  {
    if s != [] && rank(x) > rank(s[0]) {
      var rest := s[1..];
      var tail := Insert(x, rest, rank);
      InsertSorted(x, rest, rank);
      forall k | 0 <= k < |rest| ensures rank(s[0]) <= rank(rest[k]) {
        assert rest[k] == s[k + 1];
      }
      InsertAbove(x, rest, rank, rank(s[0]));
      var r := [s[0]] + tail;
      forall i, j | 0 <= i < j < |r| ensures rank(r[i]) <= rank(r[j]) {
        if i > 0 { assert r[i] == tail[i - 1] && r[j] == tail[j - 1]; }
        else { assert r[j] == tail[j - 1]; }
      }
    } else if s != [] {
      var r := [x] + s;
      forall i, j | 0 <= i < j < |r| ensures rank(r[i]) <= rank(r[j]) {
        if i > 0 { assert r[i] == s[i - 1] && r[j] == s[j - 1]; }
        else { assert r[j] == s[j - 1] && rank(s[0]) <= rank(s[j - 1]); }
      }
    }
  }

  /** The list s sorted by rank. */
  function SortBy<T>(s: seq<T>, rank: T -> real): (r: seq<T>)
    ensures multiset(r) == multiset(s)
    ensures SortedBy(r, rank)
  {
    if s == [] then []
    else
      assert s == [s[0]] + s[1..];
      var rest := SortBy(s[1..], rank);
      InsertSorted(s[0], rest, rank);
      Insert(s[0], rest, rank)
  }

  /** Sorting keeps the length and the elements of the list. */
  lemma SortByKeepsElements<T>(s: seq<T>, rank: T -> real)
    ensures |SortBy(s, rank)| == |s|
    ensures forall x :: x in SortBy(s, rank) <==> x in s
  {
    var r := SortBy(s, rank);
    assert |r| == |multiset(r)| == |multiset(s)| == |s|;
    forall x ensures x in r <==> x in s {
      assert x in r <==> x in multiset(r);
      assert x in s <==> x in multiset(s);
    }
  }

  /** The multiplicity of an element in a list without repetitions is at
      most one, and conversely. */
  lemma {:induction false} DistinctMultiplicity<T>(s: seq<T>)
    ensures Distinct(s) <==> forall x :: multiset(s)[x] <= 1
  {
    if s != [] {
      var t := s[1..];
      assert s == [s[0]] + t;
      DistinctMultiplicity(t);
      assert multiset(s) == multiset{s[0]} + multiset(t);
      if Distinct(s) {
        forall k | 0 <= k < |t| ensures t[k] != s[0] {
          assert t[k] == s[k + 1];
        }
        assert Distinct(t) by {
          forall i, j | 0 <= i < j < |t| ensures t[i] != t[j] {
            assert t[i] == s[i + 1] && t[j] == s[j + 1];
          }
        }
        assert multiset(t)[s[0]] == 0;
      } else {
        var i, j :| 0 <= i < j < |s| && s[i] == s[j];
        if i == 0 {
          assert s[j] == t[j - 1];
          assert multiset(t)[s[0]] >= 1;
          assert multiset(s)[s[0]] >= 2;
        } else {
          assert t[i - 1] == t[j - 1];
          assert !Distinct(t);
          var x :| multiset(t)[x] > 1;
          assert multiset(s)[x] > 1;
        }
      }
    }
  }

  /** A permutation of a list without repetitions has none either. */
  lemma DistinctPermutation<T>(s: seq<T>, t: seq<T>)
    requires multiset(s) == multiset(t)
    requires Distinct(s)
    ensures Distinct(t)
  {
    DistinctMultiplicity(s);
    DistinctMultiplicity(t);
  }
}
