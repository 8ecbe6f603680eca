/**
 * The ordering shared by both standings tables: the stable sort performed by
 * `Array.prototype.sort` with the comparator
 * `(a, b) => b.points - a.points || b.gd - a.gd || b.gf - a.gf`.
 */
module Ranking {

  /** The three sort keys of a standings row. */
  datatype Rank = Rank(points: int, gd: int, gf: int)

  /** `a` sorts strictly before `b`: the comparator returns a negative number. */
  predicate Outranks(a: Rank, b: Rank) {
    a.points > b.points
    || (a.points == b.points && a.gd > b.gd)
    || (a.points == b.points && a.gd == b.gd && a.gf > b.gf)
  }

  /** Descending by rank: no element is outranked by a later one. */
  ghost predicate Sorted<T>(s: seq<T>, key: T -> Rank) {
    forall i, j :: 0 <= i < j < |s| ==> !Outranks(key(s[j]), key(s[i]))
  }

  /** The elements of `s` whose rank is exactly `k`, in their order in `s`. */
  function WithRank<T>(s: seq<T>, key: T -> Rank, k: Rank): (r: seq<T>)
    ensures |r| <= |s|
  {
    if s == [] then []
    else (if key(s[0]) == k then [s[0]] else []) + WithRank(s[1..], key, k)
  }

  /** Places `x` after every element of `s` that it does not strictly outrank. */
  function Insert<T>(x: T, s: seq<T>, key: T -> Rank): (r: seq<T>)
    ensures |r| == |s| + 1
  {
    if s == [] then [x]
    else if Outranks(key(x), key(s[0])) then [x] + s
    else [s[0]] + Insert(x, s[1..], key)
  }

  /** The stable descending sort by rank. */
  function SortRanked<T>(s: seq<T>, key: T -> Rank): (r: seq<T>)
    ensures |r| == |s|
  {
    if s == [] then [] else Insert(s[|s| - 1], SortRanked(s[..|s| - 1], key), key)
  }

  lemma OutranksTransitive(a: Rank, b: Rank, c: Rank)
    requires Outranks(a, b) && !Outranks(c, b)
    ensures Outranks(a, c)
  {
  }

  lemma {:induction false} InsertPermutes<T>(x: T, s: seq<T>, key: T -> Rank)
    ensures multiset(Insert(x, s, key)) == multiset(s) + multiset{x}
  {
    if s != [] && !Outranks(key(x), key(s[0])) {
      InsertPermutes(x, s[1..], key);
      assert s == [s[0]] + s[1..];
    }
  }

  lemma {:induction false} InsertSorted<T>(x: T, s: seq<T>, key: T -> Rank)
    requires Sorted(s, key)
    ensures Sorted(Insert(x, s, key), key)
  {
    if s == [] {
    } else if Outranks(key(x), key(s[0])) {
      var r := [x] + s;
      forall i, j | 0 <= i < j < |r| ensures !Outranks(key(r[j]), key(r[i])) {
        if i == 0 && j > 1 {
          assert !Outranks(key(s[j - 1]), key(s[0]));
        }
      }
    } else {
      InsertSorted(x, s[1..], key);
      var tail := Insert(x, s[1..], key);
      InsertPermutes(x, s[1..], key);
      var r := [s[0]] + tail;
      forall j | 0 < j < |r| ensures !Outranks(key(r[j]), key(s[0])) {
        assert r[j] in multiset(tail);
        assert r[j] in multiset(s[1..]) + multiset{x};
        if r[j] != x {
          assert r[j] in s[1..];
          var k :| 0 <= k < |s[1..]| && s[1..][k] == r[j];
          assert s[k + 1] == r[j];
        }
      }
    }
  }

  lemma WithRankCons<T>(x: T, s: seq<T>, key: T -> Rank, k: Rank)
    ensures WithRank([x] + s, key, k) == (if key(x) == k then [x] else []) + WithRank(s, key, k)
  {
    assert ([x] + s)[0] == x && ([x] + s)[1..] == s;
  }

  lemma {:induction false} WithRankAppend<T>(a: seq<T>, b: seq<T>, key: T -> Rank, k: Rank)
    ensures WithRank(a + b, key, k) == WithRank(a, key, k) + WithRank(b, key, k)
  {
    if a == [] {
      assert a + b == b;
    } else {
      var x, rest := a[0], a[1..];
      assert a == [x] + rest;
      assert a + b == [x] + (rest + b);
      WithRankAppend(rest, b, key, k);
      WithRankCons(x, rest + b, key, k);
      WithRankCons(x, rest, key, k);
    }
  }

  /** No element of a sorted sequence has a rank that outranks its head's, except the head. */
  lemma {:induction false} WithRankBeyondHead<T>(s: seq<T>, key: T -> Rank, k: Rank)
    requires Sorted(s, key) && s != [] && Outranks(k, key(s[0]))
    ensures WithRank(s, key, k) == []
  {
    if |s| > 1 {
      assert !Outranks(key(s[1]), key(s[0]));
      OutranksTransitive(k, key(s[0]), key(s[1]));
      WithRankBeyondHead(s[1..], key, k);
    }
  }

  lemma {:induction false} InsertStable<T>(x: T, s: seq<T>, key: T -> Rank, k: Rank)
    requires Sorted(s, key)
    ensures WithRank(Insert(x, s, key), key, k)
         == WithRank(s, key, k) + (if key(x) == k then [x] else [])
  {
    if s == [] {
      WithRankCons(x, [], key, k);
    } else if Outranks(key(x), key(s[0])) {
      WithRankCons(x, s, key, k);
      if key(x) == k {
        WithRankBeyondHead(s, key, k);
      }
    } else {
      var y, rest := s[0], s[1..];
      assert s == [y] + rest;
      InsertStable(x, rest, key, k);
      WithRankCons(y, Insert(x, rest, key), key, k);
      WithRankCons(y, rest, key, k);
    }
  }

  /**
   * The sort returns a permutation of its input, in descending rank order, and keeps
   * rows of equal rank in their input order.
   */
  lemma {:induction false} SortRankedCorrect<T>(s: seq<T>, key: T -> Rank)
    ensures multiset(SortRanked(s, key)) == multiset(s)
    ensures Sorted(SortRanked(s, key), key)
    ensures forall k :: WithRank(SortRanked(s, key), key, k) == WithRank(s, key, k)
  {
    if s != [] {
      var init, last := s[..|s| - 1], s[|s| - 1];
      assert s == init + [last];
      SortRankedCorrect(init, key);
      InsertPermutes(last, SortRanked(init, key), key);
      InsertSorted(last, SortRanked(init, key), key);
      forall k ensures WithRank(SortRanked(s, key), key, k) == WithRank(s, key, k) {
        InsertStable(last, SortRanked(init, key), key, k);
        WithRankAppend(init, [last], key, k);
      }
    }
  }

  /** Applies `f` to every element. */
  function Map<T, U>(s: seq<T>, f: T -> U): (r: seq<U>)
    ensures |r| == |s| && forall i :: 0 <= i < |s| ==> r[i] == f(s[i])
  {
    if s == [] then [] else [f(s[0])] + Map(s[1..], f)
  }

  /**
   * Sorting commutes with any row conversion that keeps the rank: two tables whose rows
   * rank alike come out in the same order.
   */
  lemma {:induction false} SortRankedMap<T, U>(s: seq<T>, keyT: T -> Rank, f: T -> U, keyU: U -> Rank)
    requires forall x :: keyU(f(x)) == keyT(x)
    ensures SortRanked(Map(s, f), keyU) == Map(SortRanked(s, keyT), f)
  {
    if s != [] {
      var init := s[..|s| - 1];
      assert Map(s, f)[..|s| - 1] == Map(init, f);
      SortRankedMap(init, keyT, f, keyU);
      InsertMap(s[|s| - 1], SortRanked(init, keyT), keyT, f, keyU);
    }
  }

  lemma {:induction false} InsertMap<T, U>(x: T, s: seq<T>, keyT: T -> Rank, f: T -> U, keyU: U -> Rank)
    requires forall y :: keyU(f(y)) == keyT(y)
    ensures Insert(f(x), Map(s, f), keyU) == Map(Insert(x, s, keyT), f)
  {
    if s != [] && !Outranks(keyT(x), keyT(s[0])) {
      InsertMap(x, s[1..], keyT, f, keyU);
      assert Map(s, f)[1..] == Map(s[1..], f);
      assert Map([s[0]] + Insert(x, s[1..], keyT), f)
          == [f(s[0])] + Map(Insert(x, s[1..], keyT), f);
    } else if s != [] {
      assert Map([x] + s, f) == [f(x)] + Map(s, f);
    }
  }
}
