/**
 * Sequence operations the application reaches through JavaScript's array
 * methods: `filter`, `find`, `flatMap`, `slice(0, k)` and the stable
 * `Array.prototype.sort`, here as a stable insertion sort on a two-level
 * integer rank (the comparators in the application compare one number and
 * then, on a tie, a second one).
 */
module Seqs {

  // ---------------------------------------------------------------------------
  // filter
  // ---------------------------------------------------------------------------

  function Filter<T(!new)>(p: T -> bool, s: seq<T>): (r: seq<T>)
    ensures |r| <= |s|
  {
    if s == [] then [] else (if p(s[0]) then [s[0]] else []) + Filter(p, s[1..])
  }

  /** `filter` keeps exactly the elements satisfying `p`. */
  lemma {:induction false} FilterMembers<T(!new)>(p: T -> bool, s: seq<T>)
    ensures forall x :: x in Filter(p, s) <==> x in s && p(x)
    decreases |s|
  {
    if s != [] {
      FilterMembers(p, s[1..]);
      assert forall x :: x in s <==> x == s[0] || x in s[1..];
    }
  }

  lemma {:induction false} FilterConcat<T(!new)>(p: T -> bool, a: seq<T>, b: seq<T>)
    ensures Filter(p, a + b) == Filter(p, a) + Filter(p, b)
    decreases |a|
  {
    if a != [] {
      var h := if p(a[0]) then [a[0]] else [];
      assert (a + b)[0] == a[0];
      assert (a + b)[1..] == a[1..] + b;
      FilterConcat(p, a[1..], b);
      calc {
        Filter(p, a + b);
        h + Filter(p, a[1..] + b);
        h + (Filter(p, a[1..]) + Filter(p, b));
        (h + Filter(p, a[1..])) + Filter(p, b);
        Filter(p, a) + Filter(p, b);
      }
    } else {
      assert a + b == b;
    }
  }

  /** `r` is `s` with some elements dropped and the rest kept in order. */
  predicate IsSubsequence<T(==)>(r: seq<T>, s: seq<T>)
    decreases |s|
  {
    if s == [] then r == []
    else (r != [] && r[0] == s[0] && IsSubsequence(r[1..], s[1..])) || IsSubsequence(r, s[1..])
  }

  lemma {:induction false} FilterIsSubsequence<T(!new)>(p: T -> bool, s: seq<T>)
    ensures IsSubsequence(Filter(p, s), s)
    decreases |s|
  {
    if s != [] {
      FilterIsSubsequence(p, s[1..]);
      var r := Filter(p, s[1..]);
      if p(s[0]) {
        assert Filter(p, s) == [s[0]] + r;
        assert Filter(p, s)[1..] == r;
      } else {
        assert Filter(p, s) == r;
      }
    }
  }

  /** With a predicate that holds everywhere, `filter` is the identity. */
  lemma {:induction false} FilterAll<T(!new)>(p: T -> bool, s: seq<T>)
    requires forall x :: x in s ==> p(x)
    ensures Filter(p, s) == s
    decreases |s|
  {
    if s != [] {
      assert forall x :: x in s[1..] ==> x in s;
      FilterAll(p, s[1..]);
    }
  }

  // ---------------------------------------------------------------------------
  // map and find
  // ---------------------------------------------------------------------------

  /** `map`. */
  function Map<T(!new), U>(f: T -> U, s: seq<T>): (r: seq<U>)
    ensures |r| == |s| && forall i :: 0 <= i < |s| ==> r[i] == f(s[i])
  {
    if s == [] then [] else [f(s[0])] + Map(f, s[1..])
  }

  /** `map` distributes over concatenation. */
  lemma {:induction false} MapConcat<T(!new), U>(f: T -> U, a: seq<T>, b: seq<T>)
    ensures Map(f, a + b) == Map(f, a) + Map(f, b)
  {
    var l := Map(f, a + b);
    var r := Map(f, a) + Map(f, b);
    assert |l| == |r|;
    forall i | 0 <= i < |l| ensures l[i] == r[i] {
      if i < |a| {
        assert (a + b)[i] == a[i];
      } else {
        assert (a + b)[i] == b[i - |a|];
      }
    }
  }

  /** `findIndex`: the position of the first element satisfying `p`, or `|s|`. */
  function FindIndex<T(!new)>(p: T -> bool, s: seq<T>): (i: nat)
    ensures i <= |s|
    ensures i < |s| ==> p(s[i])
    ensures forall j :: 0 <= j < i ==> !p(s[j])
  {
    if s == [] then 0 else if p(s[0]) then 0 else 1 + FindIndex(p, s[1..])
  }

  // ---------------------------------------------------------------------------
  // flatMap
  // ---------------------------------------------------------------------------

  function FlatMap<T(!new), U(!new)>(f: T -> seq<U>, s: seq<T>): (r: seq<U>)
    ensures forall y :: y in r <==> exists x :: x in s && y in f(x)
  {
    if s == [] then [] else
      var rest := FlatMap(f, s[1..]);
      assert forall y :: y in rest <==> exists x :: x in s[1..] && y in f(x);
      assert forall x :: x in s <==> x == s[0] || x in s[1..];
      f(s[0]) + rest
  }

  /** `flatMap` over one element is that element's image. */
  lemma FlatMapSingle<T(!new), U(!new)>(f: T -> seq<U>, x: T)
    ensures FlatMap(f, [x]) == f(x)
  {
    assert [x][1..] == [];
  }

  // ---------------------------------------------------------------------------
  // slice(0, k)
  // ---------------------------------------------------------------------------

  function Take<T(!new)>(s: seq<T>, k: nat): (r: seq<T>)
    ensures |r| == if k < |s| then k else |s|
    ensures r <= s
  {
    if k < |s| then s[..k] else s
  }

  // ---------------------------------------------------------------------------
  // A stable sort on a two-level rank
  // ---------------------------------------------------------------------------

  /** Compared on `major` first and on `minor` when the majors are equal. */
  datatype Rank = Rank(major: int, minor: int)

  predicate RankLe(a: Rank, b: Rank)
  {
    a.major < b.major || (a.major == b.major && a.minor <= b.minor)
  }

  predicate SortedBy<T(!new)>(key: T -> Rank, s: seq<T>)
  {
    forall i, j :: 0 <= i < j < |s| ==> RankLe(key(s[i]), key(s[j]))
  }

  /** Inserts `x` after every element whose rank is not greater than its own. */
  function Insert<T(!new)>(key: T -> Rank, x: T, s: seq<T>): (r: seq<T>)
    ensures multiset(r) == multiset(s) + multiset{x}
    ensures |r| == |s| + 1
  {
    if s == [] then [x]
    else
      assert s == [s[0]] + s[1..];
      if RankLe(key(s[0]), key(x)) then [s[0]] + Insert(key, x, s[1..]) else [x] + s
  }

  /** The stable sort: elements of equal rank keep their relative order. */
  function SortBy<T(!new)>(key: T -> Rank, s: seq<T>): (r: seq<T>)
    ensures multiset(r) == multiset(s)
    ensures |r| == |s|
  {
    if s == [] then []
    else
      assert s == s[..|s| - 1] + [s[|s| - 1]];
      Insert(key, s[|s| - 1], SortBy(key, s[..|s| - 1]))
  }

  lemma {:induction false} InsertSorted<T(!new)>(key: T -> Rank, x: T, s: seq<T>)
    requires SortedBy(key, s)
    ensures SortedBy(key, Insert(key, x, s))
    decreases |s|
  {
    if s != [] && RankLe(key(s[0]), key(x)) {
      InsertSorted(key, x, s[1..]);
      var r := Insert(key, x, s);
      var t := Insert(key, x, s[1..]);
      assert r == [s[0]] + t;
      forall k | 0 <= k < |t| ensures RankLe(key(s[0]), key(t[k])) {
        assert t[k] in multiset(t);
        assert t[k] in multiset(s[1..]) || t[k] == x;
        if t[k] != x {
          var m :| 0 <= m < |s[1..]| && s[1..][m] == t[k];
          assert s[m + 1] == t[k];
        }
      }
    }
  }

  lemma {:induction false} SortBySorted<T(!new)>(key: T -> Rank, s: seq<T>)
    ensures SortedBy(key, SortBy(key, s))
    decreases |s|
  {
    if s != [] {
      SortBySorted(key, s[..|s| - 1]);
      InsertSorted(key, s[|s| - 1], SortBy(key, s[..|s| - 1]));
    }
  }

  function HasRank<T(!new)>(key: T -> Rank, k: Rank): T -> bool
  {
    x => key(x) == k
  }

  /** Keeps exactly the elements of rank `k`. */
  function OfRank<T(!new)>(key: T -> Rank, k: Rank, s: seq<T>): seq<T>
  {
    Filter(HasRank(key, k), s)
  }

  lemma {:induction false} FilterNone<T(!new)>(p: T -> bool, s: seq<T>)
    requires forall x :: x in s ==> !p(x)
    ensures Filter(p, s) == []
    decreases |s|
  {
    if s != [] {
      assert forall x :: x in s[1..] ==> x in s;
      FilterNone(p, s[1..]);
    }
  }

  lemma {:induction false} InsertOfRank<T(!new)>(key: T -> Rank, k: Rank, x: T, s: seq<T>)
    requires SortedBy(key, s)
    ensures OfRank(key, k, Insert(key, x, s)) == OfRank(key, k, s) + OfRank(key, k, [x])
    decreases |s|
  {
    var p := HasRank(key, k);
    if s == [] {
    } else if RankLe(key(s[0]), key(x)) {
      var tail := s[1..];
      assert SortedBy(key, tail) by {
        forall i, j | 0 <= i < j < |tail| ensures RankLe(key(tail[i]), key(tail[j])) {
          assert tail[i] == s[i + 1] && tail[j] == s[j + 1];
        }
      }
      InsertOfRank(key, k, x, tail);
      assert Insert(key, x, s) == [s[0]] + Insert(key, x, tail);
      FilterConcat(p, [s[0]], Insert(key, x, tail));
      FilterConcat(p, [s[0]], tail);
      assert [s[0]] + tail == s;
    } else {
      assert Insert(key, x, s) == [x] + s;
      FilterConcat(p, [x], s);
      if key(x) == k {
        // `x` ranks strictly below every element of `s`, so none of them has its rank.
        forall y | y in s ensures !p(y) {
          var m :| 0 <= m < |s| && s[m] == y;
          if m > 0 { assert RankLe(key(s[0]), key(s[m])); }
        }
        FilterNone(p, s);
      } else {
        assert Filter(p, [x]) == [];
      }
    }
  }

  /** Stability: the sort keeps the order of each rank's elements. */
  lemma {:induction false} SortByStable<T(!new)>(key: T -> Rank, k: Rank, s: seq<T>)
    ensures OfRank(key, k, SortBy(key, s)) == OfRank(key, k, s)
    decreases |s|
  {
    if s != [] {
      var init, last := s[..|s| - 1], s[|s| - 1];
      var sorted := SortBy(key, init);
      assert SortBy(key, s) == Insert(key, last, sorted);
      SortByStable(key, k, init);
      SortBySorted(key, init);
      InsertOfRank(key, k, last, sorted);
      assert OfRank(key, k, SortBy(key, s)) == OfRank(key, k, init) + OfRank(key, k, [last]);
      assert s == init + [last];
      FilterConcat(HasRank(key, k), init, [last]);
    }
  }
}
