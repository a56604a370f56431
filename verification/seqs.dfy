/** Sequence utilities that stand for the JavaScript array methods the source
    uses: `filter`, `findIndex`/`find`, `slice(0, n)` and the stable `sort`. */
module Seqs {

  /** Number of elements of `s` that satisfy `p` (`s.filter(p).length`). */
  function Count<T>(p: T -> bool, s: seq<T>): nat
  {
    if |s| == 0 then 0 else (if p(s[0]) then 1 else 0) + Count(p, s[1..])
  }

  /** `r` can be obtained from `s` by deleting elements: the order of what is
      kept is the order in `s`. */
  predicate IsSubsequence<T(==)>(r: seq<T>, s: seq<T>)
    decreases |s|
  {
    |r| == 0 ||
    (|s| > 0 && ((r[0] == s[0] && IsSubsequence(r[1..], s[1..])) || IsSubsequence(r, s[1..])))
  }

  /** `Array.prototype.filter`: the elements satisfying `p`, in order. */
  function Filter<T(==)>(p: T -> bool, s: seq<T>): (r: seq<T>)
    ensures |r| == Count(p, s)
    ensures forall i :: 0 <= i < |r| ==> p(r[i])
  {
    if |s| == 0 then []
    else
      var rest := Filter(p, s[1..]);
      if p(s[0]) then
        var r := [s[0]] + rest;
        assert r[1..] == rest;
        r
      else rest
  }

  /** What `Filter` keeps: an order-preserving subsequence of `s` holding every
      element that satisfies `p` as often as `s` does. */
  lemma {:induction false} FilterSpec<T>(p: T -> bool, s: seq<T>)
    ensures IsSubsequence(Filter(p, s), s)
    ensures multiset(Filter(p, s)) <= multiset(s)
    ensures forall i :: 0 <= i < |s| && p(s[i]) ==> multiset(Filter(p, s))[s[i]] == multiset(s)[s[i]]
    decreases |s|
  {
    if |s| > 0 {
      var rest := Filter(p, s[1..]);
      FilterSpec(p, s[1..]);
      assert s == [s[0]] + s[1..];
      if p(s[0]) {
        var r := [s[0]] + rest;
        assert r[1..] == rest;
        FilterHeadKept(p, s, rest);
      }
    }
  }

  /** The step of `Filter` that keeps the head: the kept copy of `s[0]` makes
      up for the one `s[1..]` lacks. */
  lemma FilterHeadKept<T>(p: T -> bool, s: seq<T>, rest: seq<T>)
    requires |s| > 0 && p(s[0])
    requires multiset(rest) <= multiset(s[1..])
    requires forall i :: 0 <= i < |s| - 1 && p(s[1..][i]) ==> multiset(rest)[s[1..][i]] == multiset(s[1..])[s[1..][i]]
    ensures forall i :: 0 <= i < |s| && p(s[i]) ==> multiset([s[0]] + rest)[s[i]] == multiset(s)[s[i]]
  {
    assert s == [s[0]] + s[1..];
    forall i | 0 <= i < |s| && p(s[i])
      ensures multiset([s[0]] + rest)[s[i]] == multiset(s)[s[i]]
    {
      var x := s[i];
      if x in s[1..] {
        var k :| 0 <= k < |s| - 1 && s[1..][k] == x;
        assert multiset(rest)[x] == multiset(s[1..])[x];
      } else {
        assert multiset(s[1..])[x] == 0;
      }
    }
  }

  lemma {:induction false} SubsequenceMultiset<T>(r: seq<T>, s: seq<T>)
    requires IsSubsequence(r, s)
    ensures multiset(r) <= multiset(s)
    decreases |s|
  {
    if |r| == 0 {
    } else {
      assert s == [s[0]] + s[1..];
      if r[0] == s[0] && IsSubsequence(r[1..], s[1..]) {
        SubsequenceMultiset(r[1..], s[1..]);
        assert r == [r[0]] + r[1..];
      } else {
        SubsequenceMultiset(r, s[1..]);
      }
    }
  }

  /** The three properties every filter in this model states about its result
      pin the result down: it is `Filter(p, s)` and nothing else. */
  lemma {:induction false} FilterCharacterization<T>(p: T -> bool, r: seq<T>, s: seq<T>)
    requires IsSubsequence(r, s)
    requires forall i :: 0 <= i < |r| ==> p(r[i])
    requires forall i :: 0 <= i < |s| && p(s[i]) ==> multiset(r)[s[i]] == multiset(s)[s[i]]
    ensures r == Filter(p, s)
    decreases |s|
  {
    if |s| == 0 {
      assert |r| == 0;
    } else {
      var h, t := s[0], s[1..];
      assert s == [h] + t;
      assert multiset(s)[h] == multiset(t)[h] + 1;
      if |r| > 0 && r[0] == h && IsSubsequence(r[1..], t) {
        assert r == [h] + r[1..];
        forall i | 0 <= i < |t| && p(t[i])
          ensures multiset(r[1..])[t[i]] == multiset(t)[t[i]]
        {
          assert s[i + 1] == t[i];
        }
        FilterCharacterization(p, r[1..], t);
      } else {
        assert IsSubsequence(r, t);
        SubsequenceMultiset(r, t);
        assert multiset(r)[h] <= multiset(t)[h];
        assert !p(h);
        forall i | 0 <= i < |t| && p(t[i])
          ensures multiset(r)[t[i]] == multiset(t)[t[i]]
        {
          assert s[i + 1] == t[i];
          assert t[i] != h;
        }
        FilterCharacterization(p, r, t);
      }
    }
  }

  lemma {:induction false} FilterAppend<T>(p: T -> bool, a: seq<T>, b: seq<T>)
    ensures Filter(p, a + b) == Filter(p, a) + Filter(p, b)
    decreases |a|
  {
    if |a| == 0 {
      assert a + b == b;
    } else {
      assert (a + b)[1..] == a[1..] + b;
      FilterAppend(p, a[1..], b);
    }
  }

  /** A predicate that holds everywhere keeps everything. */
  lemma {:induction false} FilterKeepsAll<T>(p: T -> bool, s: seq<T>)
    requires forall i :: 0 <= i < |s| ==> p(s[i])
    ensures Filter(p, s) == s
    decreases |s|
  {
    if |s| > 0 {
      FilterKeepsAll(p, s[1..]);
      assert s == [s[0]] + s[1..];
    }
  }

  /** A predicate that holds nowhere keeps nothing. */
  lemma {:induction false} FilterKeepsNone<T>(p: T -> bool, s: seq<T>)
    requires forall i :: 0 <= i < |s| ==> !p(s[i])
    ensures Filter(p, s) == []
    decreases |s|
  {
    if |s| > 0 {
      FilterKeepsNone(p, s[1..]);
    }
  }

  /** Predicates that agree on every element keep the same elements. */
  lemma {:induction false} FilterCongruent<T>(p: T -> bool, q: T -> bool, s: seq<T>)
    requires forall i :: 0 <= i < |s| ==> p(s[i]) == q(s[i])
    ensures Filter(p, s) == Filter(q, s)
    decreases |s|
  {
    if |s| > 0 {
      FilterCongruent(p, q, s[1..]);
    }
  }

  /** Filtering by a predicate and by its negation splits the sequence: every
      element lands in exactly one of the two results. */
  lemma {:induction false} FilterPartition<T>(p: T -> bool, q: T -> bool, s: seq<T>)
    requires forall i :: 0 <= i < |s| ==> q(s[i]) == !p(s[i])
    ensures multiset(Filter(p, s)) + multiset(Filter(q, s)) == multiset(s)
    ensures Count(p, s) + Count(q, s) == |s|
    decreases |s|
  {
    if |s| > 0 {
      FilterPartition(p, q, s[1..]);
      assert s == [s[0]] + s[1..];
      assert multiset(s) == multiset{s[0]} + multiset(s[1..]);
    }
  }

  /** Nothing is counted exactly when no element satisfies `p`. */
  lemma {:induction false} CountZero<T>(p: T -> bool, s: seq<T>)
    ensures Count(p, s) == 0 <==> forall i :: 0 <= i < |s| ==> !p(s[i])
    decreases |s|
  {
    if |s| > 0 {
      CountZero(p, s[1..]);
      assert forall i :: 1 <= i < |s| ==> s[i] == s[1..][i - 1];
    }
  }

  /** A property of every element survives any reordering. */
  lemma PermutationKeepsAll<T>(p: T -> bool, r: seq<T>, s: seq<T>)
    requires multiset(r) == multiset(s)
    requires forall i :: 0 <= i < |s| ==> p(s[i])
    ensures forall i :: 0 <= i < |r| ==> p(r[i])
  {
    forall i | 0 <= i < |r|
      ensures p(r[i])
    {
      assert r[i] in multiset(s);
      var j :| 0 <= j < |s| && s[j] == r[i];
    }
  }

  /** `findIndex`: the first position whose element satisfies `p`, or -1. */
  function FindIndex<T>(p: T -> bool, s: seq<T>): (i: int)
    ensures -1 <= i < |s|
    ensures 0 <= i ==> p(s[i]) && forall j :: 0 <= j < i ==> !p(s[j])
    ensures i < 0 ==> forall j :: 0 <= j < |s| ==> !p(s[j])
  {
    if |s| == 0 then -1
    else if p(s[0]) then 0
    else
      var i := FindIndex(p, s[1..]);
      if i < 0 then -1 else i + 1
  }

  /** The end position `Array.prototype.slice(0, k)` uses on an array of
      length `n`: a negative `k` counts back from the end. */
  function SliceEnd(n: nat, k: int): (e: nat)
    ensures e <= n
    ensures 0 <= k ==> e == if k < n then k else n
    ensures k < 0 ==> e == if n + k < 0 then 0 else n + k
  {
    if k < 0 then (if n + k < 0 then 0 else n + k)
    else if k < n then k else n
  }

  /** `s.slice(0, k)`. */
  function Take<T>(s: seq<T>, k: int): (r: seq<T>)
    ensures |r| == SliceEnd(|s|, k)
    ensures r == s[..|r|]
  {
    s[..SliceEnd(|s|, k)]
  }

  /** Inserts `x` after every element it is not strictly before; elements it
      ties with stay in front of it. */
  function Insert<T>(x: T, s: seq<T>, before: (T, T) -> bool): (r: seq<T>)
    ensures multiset(r) == multiset(s) + multiset{x}
    ensures |r| == |s| + 1
  {
    if |s| == 0 then [x]
    else if before(x, s[0]) then [x] + s
    else
      assert s == [s[0]] + s[1..];
      [s[0]] + Insert(x, s[1..], before)
  }

  /** A stable sort, as `Array.prototype.sort` is, where `before(a, b)` means
      the comparator puts `a` strictly before `b`: insertion from left to right
      keeps tied elements in their input order. */
  function SortBy<T>(s: seq<T>, before: (T, T) -> bool): (r: seq<T>)
    ensures multiset(r) == multiset(s)
    ensures |r| == |s|
    decreases |s|
  {
    if |s| == 0 then []
    else
      assert s == s[..|s| - 1] + [s[|s| - 1]];
      Insert(s[|s| - 1], SortBy(s[..|s| - 1], before), before)
  }

  /** The comparator `(a, b) => key(b) - key(a)`: larger keys first. */
  function KeyDesc<T>(key: T -> int): (T, T) -> bool
  {
    (a: T, b: T) => key(a) > key(b)
  }

  /** The elements whose key is `k`: one class of elements `KeyDesc(key)` ties. */
  function KeyIs<T>(key: T -> int, k: int): T -> bool
  {
    (a: T) => key(a) == k
  }

  /** Keys never increase along `s`. */
  predicate SortedDesc<T>(s: seq<T>, key: T -> int)
  {
    forall i, j :: 0 <= i < j < |s| ==> key(s[i]) >= key(s[j])
  }

  lemma {:induction false} InsertSorted<T>(x: T, s: seq<T>, key: T -> int)
    requires SortedDesc(s, key)
    ensures SortedDesc(Insert(x, s, KeyDesc(key)), key)
    decreases |s|
  {
    if |s| > 0 && key(x) <= key(s[0]) {
      var t := Insert(x, s[1..], KeyDesc(key));
      InsertSorted(x, s[1..], key);
      assert multiset(t) == multiset(s[1..]) + multiset{x};
      var r := [s[0]] + t;
      forall i, j | 0 <= i < j < |r|
        ensures key(r[i]) >= key(r[j])
      {
        if i == 0 {
          assert r[j] in multiset(t);
          if r[j] != x {
            assert r[j] in s[1..];
            var k :| 0 <= k < |s| - 1 && s[1..][k] == r[j];
            assert s[k + 1] == r[j];
          }
        } else {
          assert r[i] == t[i - 1] && r[j] == t[j - 1];
        }
      }
    }
  }

  /** `SortBy` with a key comparator yields keys in non-increasing order. */
  lemma {:induction false} SortByKeySorted<T>(s: seq<T>, key: T -> int)
    ensures SortedDesc(SortBy(s, KeyDesc(key)), key)
    decreases |s|
  {
    if |s| > 0 {
      SortByKeySorted(s[..|s| - 1], key);
      InsertSorted(s[|s| - 1], SortBy(s[..|s| - 1], KeyDesc(key)), key);
    }
  }

  lemma {:induction false} InsertAfterTies<T>(x: T, s: seq<T>, key: T -> int, k: int)
    requires SortedDesc(s, key)
    ensures Filter(KeyIs(key, k), Insert(x, s, KeyDesc(key))) == Filter(KeyIs(key, k), s) + Filter(KeyIs(key, k), [x])
    decreases |s|
  {
    var tie, before := KeyIs(key, k), KeyDesc(key);
    if |s| == 0 {
      assert Insert(x, s, before) == [x];
      assert Filter(tie, s) == [];
    } else if key(x) > key(s[0]) {
      assert before(x, s[0]);
      assert Insert(x, s, before) == [x] + s;
      FilterAppend(tie, [x], s);
      if key(x) == k {
        assert forall i :: 0 <= i < |s| ==> key(s[i]) <= key(s[0]) < k;
        FilterKeepsNone(tie, s);
        assert Filter(tie, Insert(x, s, before)) == Filter(tie, [x]);
      } else {
        FilterKeepsNone(tie, [x]);
        assert Filter(tie, Insert(x, s, before)) == Filter(tie, s);
      }
    } else {
      assert !before(x, s[0]);
      var rest := Insert(x, s[1..], before);
      assert Insert(x, s, before) == [s[0]] + rest;
      InsertAfterTies(x, s[1..], key, k);
      FilterAppend(tie, [s[0]], rest);
      FilterAppend(tie, [s[0]], s[1..]);
      assert [s[0]] + s[1..] == s;
      calc {
        Filter(tie, Insert(x, s, before));
        Filter(tie, [s[0]]) + Filter(tie, rest);
        Filter(tie, [s[0]]) + (Filter(tie, s[1..]) + Filter(tie, [x]));
        (Filter(tie, [s[0]]) + Filter(tie, s[1..])) + Filter(tie, [x]);
        Filter(tie, s) + Filter(tie, [x]);
      }
    }
  }

  /** Stability: the elements sharing one key keep their input order. */
  lemma {:induction false} SortByKeyStable<T>(s: seq<T>, key: T -> int, k: int)
    ensures Filter(KeyIs(key, k), SortBy(s, KeyDesc(key))) == Filter(KeyIs(key, k), s)
    decreases |s|
  {
    if |s| > 0 {
      var init, last := s[..|s| - 1], s[|s| - 1];
      SortByKeyStable(init, key, k);
      SortByKeySorted(init, key);
      InsertAfterTies(last, SortBy(init, KeyDesc(key)), key, k);
      assert s == init + [last];
      FilterAppend(KeyIs(key, k), init, [last]);
    }
  }
}
