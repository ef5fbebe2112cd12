/** What the database does for the services' `findMany` queries: ordering
    the selected rows by a key (`orderBy`) and keeping the first few
    (`take`). The rows a query selects are given as a set; ties between
    equal keys come out in no promised order, as in the database. */
module Listing {

  predicate SortedBy<T>(s: seq<T>, key: T -> int) {
    forall i, j :: 0 <= i < j < |s| ==> key(s[i]) <= key(s[j])
  }

  predicate Distinct<T(==)>(s: seq<T>) {
    forall i, j :: 0 <= i < j < |s| ==> s[i] != s[j]
  }

  /** A non-empty sequence is distinct exactly when its head is not in its
      tail and its tail is distinct. */
  lemma DistinctUncons<T>(s: seq<T>)
    requires s != []
    ensures Distinct(s) <==> s[0] !in s[1..] && Distinct(s[1..])
  {
    var x, rest := s[0], s[1..];
    assert forall j :: 0 <= j < |rest| ==> rest[j] == s[j + 1];
    if x in rest {
      var j :| 0 <= j < |rest| && rest[j] == x;
      assert s[0] == s[j + 1];
    }
  }

  /** Puts `x` in front of the first element whose key is not smaller. */
  function InsertSorted<T>(x: T, s: seq<T>, key: T -> int): (r: seq<T>)
    ensures multiset(r) == multiset(s) + multiset{x}
    decreases |s|
  {
    if s == [] || key(x) <= key(s[0]) then
      [x] + s
    else
      var rest := InsertSorted(x, s[1..], key);
      assert s == [s[0]] + s[1..];
      [s[0]] + rest
  }

  /** A sorted sequence stays sorted under a head no later than any of its
      elements. */
  lemma ConsSorted<T>(h: T, s: seq<T>, key: T -> int)
    requires SortedBy(s, key)
    requires forall y :: y in multiset(s) ==> key(h) <= key(y)
    ensures SortedBy([h] + s, key)
  {
    var r := [h] + s;
    forall i, j | 0 <= i < j < |r| ensures key(r[i]) <= key(r[j]) {
      assert r[j] == s[j - 1] && r[j] in multiset(s);
    }
  }

  /** Inserting into a sorted sequence keeps it sorted. */
  lemma {:induction false} InsertSortedSorted<T>(x: T, s: seq<T>, key: T -> int)
    requires SortedBy(s, key)
    ensures SortedBy(InsertSorted(x, s, key), key)
    decreases |s|
  {
    if s == [] {
      ConsSorted(x, s, key);
    } else if key(x) <= key(s[0]) {
      assert SortedBy([x] + s, key) by {
        HeadIsLeast(s, key);
        assert multiset(s) == multiset{s[0]} + multiset(s[1..]) by {
          assert s == [s[0]] + s[1..];
        }
        ConsSorted(x, s, key);
      }
    } else {
      var rest := InsertSorted(x, s[1..], key);
      assert SortedBy([s[0]] + rest, key) by {
        InsertSortedSorted(x, s[1..], key);
        HeadIsLeast(s, key);
        ConsSorted(s[0], rest, key);
      }
    }
  }

  lemma HeadIsLeast<T>(s: seq<T>, key: T -> int)
    requires SortedBy(s, key) && s != []
    ensures forall y :: y in multiset(s[1..]) ==> key(s[0]) <= key(y)
  {
    forall y | y in multiset(s[1..]) ensures key(s[0]) <= key(y) {
      var k :| 0 <= k < |s[1..]| && s[1..][k] == y;
      assert s[k + 1] == y;
    }
  }

  lemma {:induction false} DistinctFromMultiset<T>(s: seq<T>)
    requires forall y :: multiset(s)[y] <= 1
    ensures Distinct(s)
  {
    forall i, j | 0 <= i < j < |s| ensures s[i] != s[j] {
      assert s == s[..i] + [s[i]] + s[i + 1..j] + [s[j]] + s[j + 1..];
      assert multiset(s) == multiset(s[..i]) + multiset{s[i]} + multiset(s[i + 1..j])
        + multiset{s[j]} + multiset(s[j + 1..]);
      assert multiset(s)[s[i]] >= multiset{s[i]}[s[i]] + multiset{s[j]}[s[i]];
    }
  }

  /** Every element of `items` once, in ascending order of `key`. */
  method OrderBy<T(==)>(items: set<T>, key: T -> int) returns (r: seq<T>)
    ensures SortedBy(r, key)
    ensures Distinct(r)
    ensures forall x :: x in r <==> x in items
  {
    r := [];
    var rest := items;
    while rest != {}
      invariant rest <= items
      invariant SortedBy(r, key)
      invariant forall y :: multiset(r)[y] <= 1
      invariant forall y :: y in multiset(r) <==> y in items - rest
      decreases rest
    {
      var x :| x in rest;
      InsertSortedSorted(x, r, key);
      r := InsertSorted(x, r, key);
      rest := rest - {x};
    }
    DistinctFromMultiset(r);
    assert forall y :: y in r <==> y in multiset(r);
  }

  /** `take: n` — at most the first `n` rows. */
  function Take<T>(s: seq<T>, n: nat): (r: seq<T>)
    ensures |r| == if |s| <= n then |s| else n
    ensures r <= s
    ensures |s| <= n ==> r == s
  {
    if |s| <= n then s else s[..n]
  }

  /** In a sorted sequence every element of a prefix comes no later, by
      key, than every element after it. */
  lemma {:induction false} PrefixComesFirst<T>(s: seq<T>, n: nat, key: T -> int)
    requires SortedBy(s, key) && n <= |s|
    ensures forall x, y :: x in s[..n] && y in s && y !in s[..n] ==> key(x) <= key(y)
  {
    forall x, y | x in s[..n] && y in s && y !in s[..n] ensures key(x) <= key(y) {
      var i :| 0 <= i < n && s[i] == x;
      var j :| 0 <= j < |s| && s[j] == y;
      assert forall k :: 0 <= k < n ==> s[k] in s[..n];
    }
  }

  /** `r` is what `orderBy` with `take: n` returns from `items`: at most
      `n` distinct items in ascending key order, all of them when there
      are fewer, and none left out whose key is below that of one kept. */
  ghost predicate FirstBy<T>(items: set<T>, key: T -> int, n: nat, r: seq<T>) {
    && |r| <= n && Distinct(r)
    && SortedBy(r, key)
    && (forall x :: x in r ==> x in items)
    && (|r| < n ==> forall x :: x in items ==> x in r)
    && (forall x, y :: x in r && y in items && y !in r ==> key(x) <= key(y))
  }

  /** `orderBy` followed by `take: n`. */
  method OrderByTake<T(==)>(items: set<T>, key: T -> int, n: nat) returns (r: seq<T>)
    ensures FirstBy(items, key, n, r)
  {
    var ordered := OrderBy(items, key);
    r := Take(ordered, n);
    assert r == ordered[..|r|];
    PrefixComesFirst(ordered, |r|, key);
  }
}
