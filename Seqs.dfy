/** The array operations the client code leans on — `filter`, `slice(0, n)`,
    `reduce` with `+`, a stable comparator `sort` and "index rows by id in a
    `forEach`" — with the facts about them that the rest of the model uses. */
module Seqs {

  /** `s.filter(p)`: the elements satisfying `p`, in their original order. */
  function Filter<T>(s: seq<T>, p: T -> bool): (r: seq<T>)
    ensures |r| <= |s|
    ensures forall i :: 0 <= i < |r| ==> p(r[i])
    ensures forall x :: x in r ==> x in s && p(x)
    ensures forall x :: x in s && p(x) ==> x in r
  {
    if s == [] then []
    else (if p(s[0]) then [s[0]] else []) + Filter(s[1..], p)
  }

  /** `a` can be obtained from `b` by deleting elements: relative order is kept. */
  ghost predicate SubsequenceOf<T>(a: seq<T>, b: seq<T>)
    decreases |b|
  {
    if a == [] then true
    else if b == [] then false
    else if a[0] == b[0] then SubsequenceOf(a[1..], b[1..])
    else SubsequenceOf(a, b[1..])
  }

  lemma {:induction false} FilterIsSubsequence<T>(s: seq<T>, p: T -> bool)
    ensures SubsequenceOf(Filter(s, p), s)
  {
    if s != [] {
      FilterIsSubsequence(s[1..], p);
      if !p(s[0]) {
        assert Filter(s, p) == Filter(s[1..], p);
        SubsequenceSkip(Filter(s, p), s);
      }
    }
  }

  /** Dropping the head of `b` keeps a subsequence of its tail a subsequence of `b`. */
  lemma {:induction false} SubsequenceSkip<T>(a: seq<T>, b: seq<T>)
    requires b != [] && SubsequenceOf(a, b[1..])
    ensures SubsequenceOf(a, b)
    decreases |b|, 0
  {
    if a != [] && a[0] == b[0] {
      SubsequenceOfTail(a, b[1..]);
    }
  }

  lemma {:induction false} SubsequenceOfTail<T>(a: seq<T>, b: seq<T>)
    requires a != [] && SubsequenceOf(a, b)
    ensures SubsequenceOf(a[1..], b)
    decreases |b|, 1
  {
    if b != [] {
      if a[0] == b[0] {
        SubsequenceSkip(a[1..], b);
      } else {
        SubsequenceOfTail(a, b[1..]);
        SubsequenceSkip(a[1..], b);
      }
    }
  }

  lemma {:induction false} FilterConcat<T>(a: seq<T>, b: seq<T>, p: T -> bool)
    ensures Filter(a + b, p) == Filter(a, p) + Filter(b, p)
  {
    if a == [] {
      assert a + b == b;
    } else {
      assert (a + b)[1..] == a[1..] + b;
      FilterConcat(a[1..], b, p);
    }
  }

  /** Every element lands in exactly one of `filter(p)` and `filter(!p)`. */
  lemma {:induction false} FilterPartition<T>(s: seq<T>, p: T -> bool, q: T -> bool)
    requires forall x :: q(x) == !p(x)
    ensures |Filter(s, p)| + |Filter(s, q)| == |s|
  {
    if s != [] {
      FilterPartition(s[1..], p, q);
    }
  }

  /** Two predicates that agree everywhere filter alike. */
  lemma {:induction false} FilterEquiv<T>(s: seq<T>, p: T -> bool, q: T -> bool)
    requires forall x :: p(x) == q(x)
    ensures Filter(s, p) == Filter(s, q)
  {
    if s != [] {
      FilterEquiv(s[1..], p, q);
    }
  }

  /** `s.filter(p).filter(q)` is one filter by the conjunction. */
  lemma {:induction false} FilterFilter<T>(s: seq<T>, p: T -> bool, q: T -> bool, r: T -> bool)
    requires forall x :: r(x) == (p(x) && q(x))
    ensures Filter(Filter(s, p), q) == Filter(s, r)
  {
    if s != [] {
      FilterFilter(s[1..], p, q, r);
      FilterConcat(if p(s[0]) then [s[0]] else [], Filter(s[1..], p), q);
    }
  }

  /** Filtering with a predicate that holds of every element is the identity. */
  lemma {:induction false} FilterAll<T>(s: seq<T>, p: T -> bool)
    requires forall i :: 0 <= i < |s| ==> p(s[i])
    ensures Filter(s, p) == s
  {
    if s != [] {
      FilterAll(s[1..], p);
    }
  }

  /** Filtering with a predicate that holds of no element gives nothing. */
  lemma {:induction false} FilterNone<T>(s: seq<T>, p: T -> bool)
    requires forall i :: 0 <= i < |s| ==> !p(s[i])
    ensures Filter(s, p) == []
  {
    if s != [] {
      FilterNone(s[1..], p);
    }
  }

  /** When no two elements both satisfy `p`, the filter keeps at most one. */
  lemma {:induction false} FilterAtMostOne<T>(s: seq<T>, p: T -> bool)
    requires forall i, j :: 0 <= i < j < |s| && p(s[i]) ==> !p(s[j])
    ensures |Filter(s, p)| <= 1
  {
    if s != [] {
      var t := s[1..];
      forall i, j | 0 <= i < j < |t| && p(t[i]) ensures !p(t[j]) {
        assert t[i] == s[i + 1] && t[j] == s[j + 1];
      }
      FilterAtMostOne(t, p);
      if p(s[0]) {
        forall j | 0 <= j < |t| ensures !p(t[j]) {
          assert t[j] == s[j + 1];
        }
        FilterNone(t, p);
      }
    }
  }

  /** Two sequences of the same length whose elements agree position by
      position on `p` and `q` have filters of the same length. */
  lemma {:induction false} FilterSameCount<T, U>(a: seq<T>, p: T -> bool, b: seq<U>, q: U -> bool)
    requires |a| == |b|
    requires forall i :: 0 <= i < |a| ==> (p(a[i]) <==> q(b[i]))
    ensures |Filter(a, p)| == |Filter(b, q)|
  {
    if a != [] {
      assert p(a[0]) <==> q(b[0]);
      forall i | 0 <= i < |a| - 1 ensures p(a[1..][i]) <==> q(b[1..][i]) {
        assert a[1..][i] == a[i + 1] && b[1..][i] == b[i + 1];
      }
      FilterSameCount(a[1..], p, b[1..], q);
    }
  }

  /** `s.slice(0, n)`. */
  function Take<T>(s: seq<T>, n: nat): (r: seq<T>)
    ensures |r| == if n < |s| then n else |s|
    ensures r == s[..|r|]
  {
    if n < |s| then s[..n] else s
  }

  /** `s.reduce((sum, x) => sum + f(x), 0)`. */
  function Sum<T>(s: seq<T>, f: T -> int): int
  {
    if s == [] then 0 else f(s[0]) + Sum(s[1..], f)
  }

  lemma {:induction false} SumNonNegative<T>(s: seq<T>, f: T -> int)
    requires forall i :: 0 <= i < |s| ==> f(s[i]) >= 0
    ensures Sum(s, f) >= 0
  {
    if s != [] {
      SumNonNegative(s[1..], f);
    }
  }

  lemma {:induction false} SumConcat<T>(a: seq<T>, b: seq<T>, f: T -> int)
    ensures Sum(a + b, f) == Sum(a, f) + Sum(b, f)
  {
    if a == [] {
      assert a + b == b;
    } else {
      assert (a + b)[1..] == a[1..] + b;
      SumConcat(a[1..], b, f);
    }
  }

  /** Three mutually exclusive predicates and "none of them" split a sequence:
      the four filters' lengths add up to its length. */
  lemma {:induction false} FilterFourWay<T>(s: seq<T>, p: T -> bool, q: T -> bool, r: T -> bool, o: T -> bool)
    requires forall x :: (p(x) ==> !q(x) && !r(x)) && (q(x) ==> !r(x))
    requires forall x :: o(x) == (!p(x) && !q(x) && !r(x))
    ensures |Filter(s, p)| + |Filter(s, q)| + |Filter(s, r)| + |Filter(s, o)| == |s|
  {
    if s != [] {
      FilterFourWay(s[1..], p, q, r, o);
    }
  }

  ghost predicate NoDuplicates<T>(s: seq<T>) {
    forall i, j :: 0 <= i < j < |s| ==> s[i] != s[j]
  }

  ghost predicate SortedBy<T>(s: seq<T>, key: T -> int) {
    forall i, j :: 0 <= i < j < |s| ==> key(s[i]) <= key(s[j])
  }

  /** Insert `x` before the first element whose key is not smaller; elements
      with an equal key that are already in `s` stay after it. */
  function Insert<T>(x: T, s: seq<T>, key: T -> int): (r: seq<T>)
    ensures |r| == |s| + 1
  {
    if s == [] || key(x) <= key(s[0]) then [x] + s
    else [s[0]] + Insert(x, s[1..], key)
  }

  lemma {:induction false} InsertMultiset<T>(x: T, s: seq<T>, key: T -> int)
    ensures multiset(Insert(x, s, key)) == multiset(s) + multiset{x}
  {
    if s != [] && key(x) > key(s[0]) {
      InsertMultiset(x, s[1..], key);
      assert s == [s[0]] + s[1..];
    }
  }

  /** A lower bound of `x` and of every element of `s` bounds every element
      of the insertion. */
  lemma {:induction false} InsertAbove<T>(x: T, s: seq<T>, key: T -> int, b: int)
    requires b <= key(x) && forall i :: 0 <= i < |s| ==> b <= key(s[i])
    ensures forall i :: 0 <= i < |Insert(x, s, key)| ==> b <= key(Insert(x, s, key)[i])
  {
    var r := Insert(x, s, key);
    if s != [] && key(x) > key(s[0]) {
      var t := Insert(x, s[1..], key);
      InsertAbove(x, s[1..], key, b);
      assert r == [s[0]] + t;
      forall i | 0 < i < |r| ensures b <= key(r[i]) {
        assert r[i] == t[i - 1];
      }
    } else {
      forall i | 0 < i < |r| ensures b <= key(r[i]) {
        assert r[i] == s[i - 1];
      }
    }
  }

  lemma {:induction false} InsertSorted<T>(x: T, s: seq<T>, key: T -> int)
    requires SortedBy(s, key)
    ensures SortedBy(Insert(x, s, key), key)
  {
    var r := Insert(x, s, key);
    if s != [] && key(x) > key(s[0]) {
      var t := Insert(x, s[1..], key);
      InsertSorted(x, s[1..], key);
      InsertAbove(x, s[1..], key, key(s[0]));
      assert r == [s[0]] + t;
      forall i, j | 0 <= i < j < |r| ensures key(r[i]) <= key(r[j]) {
        assert r[j] == t[j - 1];
        if i > 0 {
          assert r[i] == t[i - 1];
        }
      }
    } else {
      assert r == [x] + s;
      forall i, j | 0 <= i < j < |r| ensures key(r[i]) <= key(r[j]) {
        assert r[j] == s[j - 1];
        if i > 0 {
          assert r[i] == s[i - 1];
        } else if s != [] {
          assert key(s[0]) <= key(s[j - 1]);
        }
      }
    }
  }

  /** Filtering keeps an ordered sequence ordered. */
  lemma {:induction false} FilterSorted<T>(s: seq<T>, p: T -> bool, key: T -> int)
    requires SortedBy(s, key)
    ensures SortedBy(Filter(s, p), key)
  {
    if s != [] {
      var t := s[1..];
      assert SortedBy(t, key);
      FilterSorted(t, p, key);
      var ft := Filter(t, p);
      if p(s[0]) {
        forall y | y in ft ensures key(s[0]) <= key(y) {
          var k :| 0 <= k < |t| && t[k] == y;
          assert s[k + 1] == y;
        }
        SortedCons(s[0], ft, key);
      }
    }
  }

  lemma SortedCons<T>(x: T, t: seq<T>, key: T -> int)
    requires SortedBy(t, key)
    requires forall y :: y in t ==> key(x) <= key(y)
    ensures SortedBy([x] + t, key)
  {
    var r := [x] + t;
    forall i, j | 0 <= i < j < |r| ensures key(r[i]) <= key(r[j]) {
      assert r[j] == t[j - 1];
      if i > 0 {
        assert r[i] == t[i - 1];
      }
    }
  }

  /** `[...s].sort((a, b) => key(a) - key(b))`: an ascending sort, written as
      insertion sort. The result is ordered and is a permutation of `s`;
      SortByStable shows it is stable. */
  function SortBy<T>(s: seq<T>, key: T -> int): (r: seq<T>)
    ensures SortedBy(r, key)
    ensures multiset(r) == multiset(s)
    ensures |r| == |s|
  {
    if s == [] then []
    else
      var t := SortBy(s[1..], key);
      InsertSorted(s[0], t, key);
      InsertMultiset(s[0], t, key);
      assert s == [s[0]] + s[1..];
      assert multiset(s) == multiset(s[1..]) + multiset{s[0]};
      Insert(s[0], t, key)
  }

  lemma FilterCons<T>(y: T, u: seq<T>, p: T -> bool)
    ensures Filter([y] + u, p) == (if p(y) then [y] else []) + Filter(u, p)
  {
    assert ([y] + u)[0] == y && ([y] + u)[1..] == u;
  }

  lemma SwapPieces<T>(a: seq<T>, b: seq<T>, c: seq<T>)
    requires a == [] || b == []
    ensures b + (a + c) == a + (b + c)
  {
  }

  /** The elements whose key is `k`. */
  function KeyIs<T>(key: T -> int, k: int): T -> bool {
    (y: T) => key(y) == k
  }

  /** Inserting `x` into `t` adds `x`, and nothing else, to the elements of
      one key: the elements it is moved past have a smaller key than `x`. */
  lemma {:induction false} InsertSameKey<T>(x: T, t: seq<T>, key: T -> int, k: int)
    ensures Filter(Insert(x, t, key), KeyIs(key, k)) == (if key(x) == k then [x] else []) + Filter(t, KeyIs(key, k))
  {
    var p := KeyIs(key, k);
    var head := if key(x) == k then [x] else [];
    if t == [] || key(x) <= key(t[0]) {
      assert Insert(x, t, key) == [x] + t;
      FilterCons(x, t, p);
    } else {
      var rest := Insert(x, t[1..], key);
      assert Insert(x, t, key) == [t[0]] + rest;
      InsertSameKey(x, t[1..], key, k);
      FilterCons(t[0], rest, p);
      FilterCons(t[0], t[1..], p);
      assert t == [t[0]] + t[1..];
      SwapPieces(head, if key(t[0]) == k then [t[0]] else [], Filter(t[1..], p));
    }
  }

  /** The sort is stable: the elements of any one key come out in their input
      order. */
  lemma {:induction false} SortByStable<T>(s: seq<T>, key: T -> int, k: int)
    ensures Filter(SortBy(s, key), KeyIs(key, k)) == Filter(s, KeyIs(key, k))
  {
    if s != [] {
      SortByStable(s[1..], key, k);
      InsertSameKey(s[0], SortBy(s[1..], key), key, k);
      FilterCons(s[0], s[1..], KeyIs(key, k));
      assert s == [s[0]] + s[1..];
    }
  }

  /** An already ordered sequence is returned unchanged by the sort. */
  lemma {:induction false} SortBySorted<T>(s: seq<T>, key: T -> int)
    requires SortedBy(s, key)
    ensures SortBy(s, key) == s
  {
    if s != [] {
      assert SortedBy(s[1..], key);
      SortBySorted(s[1..], key);
    }
  }

  /** The first `n` of a sorted sequence are drawn from it, and none left
      behind has a smaller key than one taken. */
  lemma TakeSorted<T>(s: seq<T>, n: nat, key: T -> int)
    requires SortedBy(s, key)
    ensures multiset(Take(s, n)) <= multiset(s)
    ensures forall x, t :: x in multiset(s) - multiset(Take(s, n)) && t in Take(s, n) ==> key(t) <= key(x)
  {
    var top := Take(s, n);
    var rest := s[|top|..];
    assert s == top + rest;
    assert multiset(s) == multiset(top) + multiset(rest);
    forall x, t | x in multiset(s) - multiset(top) && t in top
      ensures key(t) <= key(x)
    {
      assert x in multiset(rest);
      var j :| 0 <= j < |rest| && rest[j] == x;
      var i :| 0 <= i < |top| && top[i] == t;
      assert s[i] == t && s[|top| + j] == x;
    }
  }

  /** The map that `rows.forEach(r => m[key(r)] = r)` leaves behind. */
  function Indexed<T>(rows: seq<T>, key: T -> string): map<string, T>
  {
    if rows == [] then map[]
    else Indexed(rows[..|rows| - 1], key)[key(rows[|rows| - 1]) := rows[|rows| - 1]]
  }

  /** A key is present iff some row has it; its value is the LAST row with that key. */
  lemma {:induction false} IndexedLastWins<T>(rows: seq<T>, key: T -> string, k: string)
    ensures k in Indexed(rows, key) <==> exists i :: 0 <= i < |rows| && key(rows[i]) == k
    ensures k in Indexed(rows, key) ==>
      exists i :: 0 <= i < |rows| && key(rows[i]) == k && Indexed(rows, key)[k] == rows[i]
        && forall j :: i < j < |rows| ==> key(rows[j]) != k
  {
    if rows != [] {
      var init := rows[..|rows| - 1];
      IndexedLastWins(init, key, k);
      var n := |rows| - 1;
      if key(rows[n]) != k {
        if k in Indexed(init, key) {
          var i :| 0 <= i < |init| && key(init[i]) == k && Indexed(init, key)[k] == init[i]
            && forall j :: i < j < |init| ==> key(init[j]) != k;
          assert rows[i] == init[i];
          assert forall j :: i < j < |rows| ==> key(rows[j]) != k by {
            forall j | i < j < |rows| ensures key(rows[j]) != k {
              if j < n { assert rows[j] == init[j]; }
            }
          }
        }
        assert (exists i :: 0 <= i < |rows| && key(rows[i]) == k) ==>
               (exists i :: 0 <= i < |init| && key(init[i]) == k) by {
          if exists i :: 0 <= i < |rows| && key(rows[i]) == k {
            var i :| 0 <= i < |rows| && key(rows[i]) == k;
            assert i < n && init[i] == rows[i];
          }
        }
        assert (exists i :: 0 <= i < |init| && key(init[i]) == k) ==>
               (exists i :: 0 <= i < |rows| && key(rows[i]) == k) by {
          if exists i :: 0 <= i < |init| && key(init[i]) == k {
            var i :| 0 <= i < |init| && key(init[i]) == k;
            assert rows[i] == init[i];
          }
        }
      }
    }
  }

  /** The `forEach` loop itself: it builds `Indexed(rows, key)` one row at a time. */
  method IndexBy<T>(rows: seq<T>, key: T -> string) returns (m: map<string, T>)
    ensures m == Indexed(rows, key)
  {
    m := map[];
    var i := 0;
    while i < |rows|
      invariant 0 <= i <= |rows|
      invariant m == Indexed(rows[..i], key)
    {
      assert rows[..i + 1][..i] == rows[..i];
      m := m[key(rows[i]) := rows[i]];
      i := i + 1;
    }
    assert rows[..|rows|] == rows;
  }
}
