/** `Array.prototype.sort` with the comparator `(a, b) => count(b) - count(a)`:
    a stable sort by non-increasing count, as the language has required since
    ES2019. It is modelled as insertion sort, which is stable. */
module StableSort {
  import opened Sums

  /** Puts `x`, which came before every element of `s`, ahead of the first
      element whose count is not greater than its own. */
  function Insert<T>(x: T, s: seq<T>, count: T -> int): (r: seq<T>)
    ensures |r| == |s| + 1
  {
    if s == [] then [x]
    else if count(s[0]) <= count(x) then [x] + s
    else [s[0]] + Insert(x, s[1..], count)
  }

  function SortByCountDesc<T>(s: seq<T>, count: T -> int): (r: seq<T>)
    ensures |r| == |s|
  {
    if s == [] then [] else Insert(s[0], SortByCountDesc(s[1..], count), count)
  }

  ghost predicate NonIncreasing<T>(s: seq<T>, count: T -> int) {
    forall i, j :: 0 <= i < j < |s| ==> count(s[i]) >= count(s[j])
  }

  /** The elements of `s` whose count is `c`, in their order in `s`. */
  function WithCount<T>(s: seq<T>, count: T -> int, c: int): seq<T> {
    if s == [] then []
    else (if count(s[0]) == c then [s[0]] else []) + WithCount(s[1..], count, c)
  }

  lemma {:induction false} InsertPermutes<T>(x: T, s: seq<T>, count: T -> int)
    ensures multiset(Insert(x, s, count)) == multiset{x} + multiset(s)
  {
    if s != [] && count(s[0]) > count(x) {
      InsertPermutes(x, s[1..], count);
      assert s == [s[0]] + s[1..];
    }
  }

  lemma {:induction false} InsertSum<T>(x: T, s: seq<T>, count: T -> int)
    ensures SumBy(Insert(x, s, count), count) == count(x) + SumBy(s, count)
  {
    if s != [] && count(s[0]) > count(x) {
      InsertSum(x, s[1..], count);
      assert Insert(x, s, count)[1..] == Insert(x, s[1..], count);
    } else if s != [] {
      assert Insert(x, s, count)[1..] == s;
    }
  }

  lemma {:induction false} InsertStable<T>(x: T, s: seq<T>, count: T -> int, c: int)
    ensures WithCount(Insert(x, s, count), count, c) == (if count(x) == c then [x] else []) + WithCount(s, count, c)
  {
    if s != [] && count(s[0]) > count(x) {
      InsertStable(x, s[1..], count, c);
      assert Insert(x, s, count)[1..] == Insert(x, s[1..], count);
    } else if s != [] {
      assert Insert(x, s, count)[1..] == s;
    }
  }

  /** Every count is at most `b`. */
  ghost predicate AllAtMost<T>(s: seq<T>, count: T -> int, b: int) {
    forall i :: 0 <= i < |s| ==> count(s[i]) <= b
  }

  lemma {:induction false} InsertAtMost<T>(x: T, s: seq<T>, count: T -> int, b: int)
    requires AllAtMost(s, count, b) && count(x) <= b
    ensures AllAtMost(Insert(x, s, count), count, b)
  {
    if s != [] && count(s[0]) > count(x) {
      InsertAtMost(x, s[1..], count, b);
      var t := Insert(x, s[1..], count);
      assert Insert(x, s, count) == [s[0]] + t;
    } else if s != [] {
      assert Insert(x, s, count) == [x] + s;
    }
  }

  lemma ConsSorted<T>(h: T, t: seq<T>, count: T -> int)
    requires NonIncreasing(t, count) && AllAtMost(t, count, count(h))
    ensures NonIncreasing([h] + t, count)
  {
    var r := [h] + t;
    forall i, j | 0 <= i < j < |r| ensures count(r[i]) >= count(r[j]) {
      assert r[j] == t[j - 1];
      if i > 0 {
        assert r[i] == t[i - 1];
      }
    }
  }

  lemma TailSorted<T>(s: seq<T>, count: T -> int)
    requires s != [] && NonIncreasing(s, count)
    ensures NonIncreasing(s[1..], count) && AllAtMost(s[1..], count, count(s[0]))
  {
    var tail := s[1..];
    forall i, j | 0 <= i < j < |tail| ensures count(tail[i]) >= count(tail[j]) {
      assert tail[i] == s[i + 1] && tail[j] == s[j + 1];
    }
    forall i | 0 <= i < |tail| ensures count(tail[i]) <= count(s[0]) {
      assert tail[i] == s[i + 1];
    }
  }

  lemma {:induction false} InsertSorted<T>(x: T, s: seq<T>, count: T -> int)
    requires NonIncreasing(s, count)
    ensures NonIncreasing(Insert(x, s, count), count)
  {
    if s != [] && count(s[0]) > count(x) {
      TailSorted(s, count);
      InsertSorted(x, s[1..], count);
      InsertAtMost(x, s[1..], count, count(s[0]));
      ConsSorted(s[0], Insert(x, s[1..], count), count);
    } else if s != [] {
      TailSorted(s, count);
      assert AllAtMost(s, count, count(x)) by {
        forall i | 0 <= i < |s| ensures count(s[i]) <= count(x) {
          if i > 0 {
            assert s[i] == s[1..][i - 1];
          }
        }
      }
      ConsSorted(x, s, count);
    }
  }

  /** The sort puts the counts in non-increasing order. */
  lemma {:induction false} SortSorted<T>(s: seq<T>, count: T -> int)
    ensures NonIncreasing(SortByCountDesc(s, count), count)
  {
    if s != [] {
      SortSorted(s[1..], count);
      InsertSorted(s[0], SortByCountDesc(s[1..], count), count);
    }
  }

  /** The sort keeps every element as often as it was there. */
  lemma {:induction false} SortPermutes<T>(s: seq<T>, count: T -> int)
    ensures multiset(SortByCountDesc(s, count)) == multiset(s)
  {
    if s != [] {
      SortPermutes(s[1..], count);
      InsertPermutes(s[0], SortByCountDesc(s[1..], count), count);
      assert s == [s[0]] + s[1..];
    }
  }

  /** The sort keeps the elements of equal count in their order: it is stable. */
  lemma {:induction false} SortStable<T>(s: seq<T>, count: T -> int, c: int)
    ensures WithCount(SortByCountDesc(s, count), count, c) == WithCount(s, count, c)
  {
    if s != [] {
      SortStable(s[1..], count, c);
      InsertStable(s[0], SortByCountDesc(s[1..], count), count, c);
    }
  }

  /** The sort keeps the sum of the counts. */
  lemma {:induction false} SortSum<T>(s: seq<T>, count: T -> int)
    ensures SumBy(SortByCountDesc(s, count), count) == SumBy(s, count)
  {
    if s != [] {
      SortSum(s[1..], count);
      InsertSum(s[0], SortByCountDesc(s[1..], count), count);
    }
  }

  /** The sort puts the counts in non-increasing order, keeps every element as
      often as it was there, keeps the elements of equal count in their order
      (stability), and so keeps the sum of the counts. */
  lemma SortFacts<T>(s: seq<T>, count: T -> int)
    ensures NonIncreasing(SortByCountDesc(s, count), count)
    ensures multiset(SortByCountDesc(s, count)) == multiset(s)
    ensures forall c :: WithCount(SortByCountDesc(s, count), count, c) == WithCount(s, count, c)
    ensures SumBy(SortByCountDesc(s, count), count) == SumBy(s, count)
  {
    SortSorted(s, count);
    SortPermutes(s, count);
    forall c ensures WithCount(SortByCountDesc(s, count), count, c) == WithCount(s, count, c) {
      SortStable(s, count, c);
    }
    SortSum(s, count);
  }

  /** Every element of the sorted sequence is an element of the original one. */
  lemma SortMembers<T>(s: seq<T>, count: T -> int, x: T)
    ensures x in SortByCountDesc(s, count) <==> x in s
  {
    SortFacts(s, count);
    assert x in SortByCountDesc(s, count) <==> x in multiset(SortByCountDesc(s, count));
  }

  /** No two places of `s` hold elements with the same key. */
  ghost predicate DistinctBy<T, K>(s: seq<T>, key: T -> K) {
    forall i, j :: 0 <= i < |s| && 0 <= j < |s| && i != j ==> key(s[i]) != key(s[j])
  }

  lemma DistinctByTail<T, K>(s: seq<T>, key: T -> K)
    requires s != [] && DistinctBy(s, key)
    ensures DistinctBy(s[1..], key)
    ensures forall y :: y in s[1..] ==> key(y) != key(s[0])
  {
    var t := s[1..];
    forall i, j | 0 <= i < |t| && 0 <= j < |t| && i != j ensures key(t[i]) != key(t[j]) {
      assert t[i] == s[i + 1] && t[j] == s[j + 1];
    }
    forall y | y in t ensures key(y) != key(s[0]) {
      var j :| 0 <= j < |t| && t[j] == y;
      assert s[j + 1] == y;
    }
  }

  lemma DistinctByCons<T, K>(h: T, t: seq<T>, key: T -> K)
    requires DistinctBy(t, key) && forall y :: y in t ==> key(y) != key(h)
    ensures DistinctBy([h] + t, key)
  {
    var r := [h] + t;
    forall i, j | 0 <= i < |r| && 0 <= j < |r| && i != j ensures key(r[i]) != key(r[j]) {
      if i > 0 && j > 0 {
        assert r[i] == t[i - 1] && r[j] == t[j - 1];
      } else if i == 0 {
        assert r[j] == t[j - 1] && r[j] in t;
      } else {
        assert r[i] == t[i - 1] && r[i] in t;
      }
    }
  }

  lemma {:induction false} InsertDistinct<T, K>(x: T, s: seq<T>, count: T -> int, key: T -> K)
    requires DistinctBy(s, key) && forall y :: y in s ==> key(y) != key(x)
    ensures DistinctBy(Insert(x, s, count), key)
  {
    if s == [] {
    } else if count(s[0]) <= count(x) {
      DistinctByCons(x, s, key);
    } else {
      DistinctByTail(s, key);
      InsertDistinct(x, s[1..], count, key);
      InsertPermutes(x, s[1..], count);
      forall y | y in Insert(x, s[1..], count) ensures key(y) != key(s[0]) {
        assert y in multiset(Insert(x, s[1..], count));
        assert y == x || y in s[1..];
      }
      DistinctByCons(s[0], Insert(x, s[1..], count), key);
    }
  }

  /** Sorting keeps the keys distinct. */
  lemma {:induction false} SortDistinct<T, K>(s: seq<T>, count: T -> int, key: T -> K)
    requires DistinctBy(s, key)
    ensures DistinctBy(SortByCountDesc(s, count), key)
  {
    if s != [] {
      DistinctByTail(s, key);
      SortDistinct(s[1..], count, key);
      forall y | y in SortByCountDesc(s[1..], count) ensures key(y) != key(s[0]) {
        SortMembers(s[1..], count, y);
      }
      InsertDistinct(s[0], SortByCountDesc(s[1..], count), count, key);
    }
  }
}
