/**
 * Sequence operations the dashboard performs with JavaScript arrays:
 * `reverse()`, grouping by key in first-appearance order (an object used as
 * an insertion-ordered map), and counting.
 */
module SeqUtil {

  /** `xs.reverse()`. */
  function Reverse<T>(xs: seq<T>): (r: seq<T>)
    ensures |r| == |xs|
    ensures forall i :: 0 <= i < |xs| ==> r[i] == xs[|xs| - 1 - i]
  {
    if xs == [] then [] else Reverse(xs[1..]) + [xs[0]]
  }

  /** Reversing a concatenation reverses the order of the parts. */
  lemma ReverseConcat<T>(a: seq<T>, b: seq<T>)
    ensures Reverse(a + b) == Reverse(b) + Reverse(a)
  {
    var l, r := Reverse(a + b), Reverse(b) + Reverse(a);
    assert |l| == |r|;
    forall i | 0 <= i < |l| ensures l[i] == r[i] {
      if i < |b| {
        assert r[i] == Reverse(b)[i];
      } else {
        assert r[i] == Reverse(a)[i - |b|];
      }
    }
  }

  /** Reversing twice gives the sequence back. */
  lemma ReverseReverse<T>(xs: seq<T>)
    ensures Reverse(Reverse(xs)) == xs
  {
  }

  /** The number of occurrences of `v` in `xs`. */
  function Count<T(==)>(xs: seq<T>, v: T): (n: nat)
    ensures n <= |xs|
    ensures n > 0 <==> v in xs
  {
    if xs == [] then 0 else (if xs[0] == v then 1 else 0) + Count(xs[1..], v)
  }

  lemma {:induction false} CountAppend<T>(xs: seq<T>, x: T, v: T)
    ensures Count(xs + [x], v) == Count(xs, v) + (if x == v then 1 else 0)
    decreases |xs|
  {
    if xs == [] {
      assert [x][1..] == [];
    } else {
      assert (xs + [x])[1..] == xs[1..] + [x];
      CountAppend(xs[1..], x, v);
    }
  }

  predicate NoDuplicates<T(==)>(xs: seq<T>) {
    forall i, j :: 0 <= i < j < |xs| ==> xs[i] != xs[j]
  }

  /**
   * The distinct elements of `xs` in order of first appearance: the key
   * order of an object filled by walking `xs`.
   */
  function Distinct<T(==)>(xs: seq<T>): (d: seq<T>)
    ensures NoDuplicates(d)
    ensures forall i :: 0 <= i < |d| ==> d[i] in xs
    ensures forall i :: 0 <= i < |xs| ==> xs[i] in d
    ensures |d| <= |xs|
    decreases |xs|
  {
    if xs == [] then []
    else
      var prefix := Distinct(xs[..|xs| - 1]);
      var last := xs[|xs| - 1];
      assert xs == xs[..|xs| - 1] + [last];
      if last in prefix then prefix else prefix + [last]
  }

  /** The first appearance of each key comes in the order of `Distinct`. */
  lemma {:induction false} DistinctFirstAppearance<T>(xs: seq<T>, a: nat, b: nat)
    requires a < b < |Distinct(xs)|
    ensures exists i, j ::
      0 <= i < j < |xs| && xs[i] == Distinct(xs)[a] && xs[j] == Distinct(xs)[b] && Distinct(xs)[b] !in xs[..j]
    decreases |xs|
  {
    var init := xs[..|xs| - 1];
    var last := xs[|xs| - 1];
    assert xs == init + [last];
    var d := Distinct(init);
    if b < |d| {
      DistinctFirstAppearance(init, a, b);
      var i, j :| 0 <= i < j < |init| && init[i] == d[a] && init[j] == d[b] && d[b] !in init[..j];
      assert xs[..j] == init[..j];
    } else {
      assert Distinct(xs) == d + [last] && last !in d;
      assert Distinct(xs)[a] in init;
      var i :| 0 <= i < |init| && init[i] == Distinct(xs)[a];
      assert xs[..|xs| - 1] == init;
      assert last !in init;
    }
  }

  /** The sum of `Count(xs, k)` over the keys `ks`. */
  function SumCounts<T(==)>(ks: seq<T>, xs: seq<T>): nat {
    if ks == [] then 0 else Count(xs, ks[0]) + SumCounts(ks[1..], xs)
  }

  lemma {:induction false} SumCountsAppend<T>(ks: seq<T>, xs: seq<T>, x: T)
    ensures SumCounts(ks, xs + [x]) == SumCounts(ks, xs) + Count(ks, x)
    decreases |ks|
  {
    if ks != [] {
      CountAppend(xs, x, ks[0]);
      SumCountsAppend(ks[1..], xs, x);
    }
  }

  lemma {:induction false} SumCountsExtend<T>(ks: seq<T>, k: T, xs: seq<T>)
    ensures SumCounts(ks + [k], xs) == SumCounts(ks, xs) + Count(xs, k)
    decreases |ks|
  {
    if ks == [] {
      assert [k][1..] == [];
    } else {
      assert (ks + [k])[1..] == ks[1..] + [k];
      SumCountsExtend(ks[1..], k, xs);
    }
  }

  lemma {:induction false} CountOfDistinct<T>(ks: seq<T>, v: T)
    requires NoDuplicates(ks)
    ensures Count(ks, v) == if v in ks then 1 else 0
    decreases |ks|
  {
    if ks != [] {
      CountOfDistinct(ks[1..], v);
      if ks[0] == v {
        assert v !in ks[1..] by {
          forall i | 0 <= i < |ks[1..]| ensures ks[1..][i] != v {
            assert ks[1..][i] == ks[i + 1];
          }
        }
      }
    }
  }

  /** Grouping loses nothing: the group sizes add up to the length of the input. */
  lemma {:induction false} GroupSizesSum<T>(xs: seq<T>)
    ensures SumCounts(Distinct(xs), xs) == |xs|
    decreases |xs|
  {
    if xs != [] {
      var init := xs[..|xs| - 1];
      var last := xs[|xs| - 1];
      assert xs == init + [last];
      var d := Distinct(init);
      GroupSizesSum(init);
      SumCountsAppend(Distinct(xs), init, last);
      CountOfDistinct(Distinct(xs), last);
      if last !in d {
        SumCountsExtend(d, last, init);
        assert Count(init, last) == 0;
      }
    }
  }
  /** No element has a larger key than one before it. */
  predicate Descending<T>(xs: seq<T>, key: T -> int) {
    forall i, j :: 0 <= i < j < |xs| ==> key(xs[i]) >= key(xs[j])
  }

  /** No two elements share a key. */
  predicate DistinctKeys<T>(xs: seq<T>, key: T -> int) {
    forall i, j :: 0 <= i < j < |xs| ==> key(xs[i]) != key(xs[j])
  }

  /** Inserts `x` into a descending list after every element whose key is not smaller. */
  function InsertDescending<T>(x: T, ys: seq<T>, key: T -> int): (r: seq<T>)
    ensures |r| == |ys| + 1
    ensures forall i :: 0 <= i < |r| ==> r[i] == x || r[i] in ys
  {
    if ys == [] then [x]
    else if key(ys[0]) < key(x) then [x] + ys
    else
      assert ys == [ys[0]] + ys[1..];
      [ys[0]] + InsertDescending(x, ys[1..], key)
  }

  /** Inserting adds `x` and loses nothing. */
  lemma {:induction false} InsertPermutes<T>(x: T, ys: seq<T>, key: T -> int)
    ensures multiset(InsertDescending(x, ys, key)) == multiset(ys) + multiset{x}
    decreases |ys|
  {
    if ys != [] && key(ys[0]) >= key(x) {
      InsertPermutes(x, ys[1..], key);
      assert ys == [ys[0]] + ys[1..];
    }
  }

  lemma {:induction false} InsertKeepsDescending<T>(x: T, ys: seq<T>, key: T -> int)
    requires Descending(ys, key)
    ensures Descending(InsertDescending(x, ys, key), key)
    decreases |ys|
  {
    if ys != [] && key(ys[0]) >= key(x) {
      var rest := ys[1..];
      InsertKeepsDescending(x, rest, key);
      var r := InsertDescending(x, ys, key);
      var tail := InsertDescending(x, rest, key);
      assert r == [ys[0]] + tail;
      forall i, j | 0 <= i < j < |r| ensures key(r[i]) >= key(r[j]) {
        assert r[j] == tail[j - 1];
        if i == 0 {
          assert r[j] == x || r[j] in rest;
        } else {
          assert r[i] == tail[i - 1];
        }
      }
    }
  }

  /** `x` goes after a prefix whose keys are all at least its own. */
  lemma {:induction false} InsertAfter<T>(x: T, p: seq<T>, ys: seq<T>, key: T -> int)
    requires forall i :: 0 <= i < |p| ==> key(p[i]) >= key(x)
    ensures InsertDescending(x, p + ys, key) == p + InsertDescending(x, ys, key)
    decreases |p|
  {
    if p != [] {
      var rest := p[1..] + ys;
      assert p + ys == [p[0]] + rest;
      assert (p + ys)[1..] == rest;
      assert (p + ys)[0] == p[0] && key(p[0]) >= key(x);
      assert InsertDescending(x, p + ys, key) == [p[0]] + InsertDescending(x, rest, key);
      InsertAfter(x, p[1..], ys, key);
      assert p + InsertDescending(x, ys, key) == [p[0]] + (p[1..] + InsertDescending(x, ys, key));
    } else {
      assert p + ys == ys;
      assert p + InsertDescending(x, ys, key) == InsertDescending(x, ys, key);
    }
  }

  /**
   * A stable insertion sort by descending key: what `sort((a, b) => key(b)
   * - key(a))` produces for a consistent comparator.
   */
  function SortDescending<T>(xs: seq<T>, key: T -> int): (r: seq<T>)
    ensures |r| == |xs|
    decreases |xs|
  {
    if xs == [] then []
    else
      var init := xs[..|xs| - 1];
      assert xs == init + [xs[|xs| - 1]];
      InsertDescending(xs[|xs| - 1], SortDescending(init, key), key)
  }

  /** Sorting appends one element by inserting it into the sorted rest. */
  lemma SortSnoc<T>(xs: seq<T>, x: T, key: T -> int)
    ensures SortDescending(xs + [x], key) == InsertDescending(x, SortDescending(xs, key), key)
  {
    assert (xs + [x])[..|xs|] == xs;
  }

  /** The sort's result is descending. */
  lemma {:induction false} SortIsDescending<T>(xs: seq<T>, key: T -> int)
    ensures Descending(SortDescending(xs, key), key)
    decreases |xs|
  {
    if xs != [] {
      var init := xs[..|xs| - 1];
      SortIsDescending(init, key);
      InsertKeepsDescending(xs[|xs| - 1], SortDescending(init, key), key);
    }
  }

  /** The sort's result is a permutation of its input. */
  lemma {:induction false} SortPermutes<T>(xs: seq<T>, key: T -> int)
    ensures multiset(SortDescending(xs, key)) == multiset(xs)
    decreases |xs|
  {
    if xs != [] {
      var init := xs[..|xs| - 1];
      assert xs == init + [xs[|xs| - 1]];
      SortPermutes(init, key);
      InsertPermutes(xs[|xs| - 1], SortDescending(init, key), key);
    }
  }

  /** Two descending arrangements of the same elements, with distinct keys, are the same. */
  lemma {:induction false} DescendingIsUnique<T>(a: seq<T>, b: seq<T>, key: T -> int)
    requires multiset(a) == multiset(b)
    requires Descending(a, key) && Descending(b, key) && DistinctKeys(a, key)
    ensures a == b
    decreases |a|
  {
    assert |a| == |multiset(a)| == |multiset(b)| == |b|;
    if a != [] {
      HeadsAgree(a, b, key);
      TailMultiset(a);
      TailMultiset(b);
      DescendingIsUnique(a[1..], b[1..], key);
    }
  }

  lemma TailMultiset<T>(a: seq<T>)
    requires a != []
    ensures multiset(a[1..]) == multiset(a) - multiset{a[0]}
  {
    assert a == [a[0]] + a[1..];
  }

  /** The first of a descending list has the largest key, and only it has that key. */
  lemma HeadsAgree<T>(a: seq<T>, b: seq<T>, key: T -> int)
    requires multiset(a) == multiset(b) && a != [] && b != []
    requires Descending(a, key) && Descending(b, key) && DistinctKeys(a, key)
    ensures a[0] == b[0]
  {
    assert b[0] in multiset(a);
    var m :| 0 <= m < |a| && a[m] == b[0];
    assert a[0] in multiset(b);
    var k :| 0 <= k < |b| && b[k] == a[0];
    assert key(a[0]) >= key(a[m]) == key(b[0]) >= key(b[k]);
  }

  /** Strictly decreasing neighbours give a descending list with distinct keys. */
  lemma {:induction false} DescendingChain<T>(xs: seq<T>, key: T -> int)
    requires forall i :: 0 <= i < |xs| - 1 ==> key(xs[i]) > key(xs[i + 1])
    ensures forall i, j :: 0 <= i < j < |xs| ==> key(xs[i]) > key(xs[j])
    ensures Descending(xs, key) && DistinctKeys(xs, key)
    decreases |xs|
  {
    if |xs| > 1 {
      DescendingChain(xs[1..], key);
      forall i, j | 0 <= i < j < |xs| ensures key(xs[i]) > key(xs[j]) {
        if i > 0 {
          assert xs[i] == xs[1..][i - 1] && xs[j] == xs[1..][j - 1];
        } else if j > 1 {
          assert xs[1] == xs[1..][0] && xs[j] == xs[1..][j - 1];
        }
      }
    }
  }

  // ---------------------------------------------------------------------
  // Filtering
  // ---------------------------------------------------------------------

  /** `xs.filter(keep)`. */
  function Filter<T>(xs: seq<T>, keep: T -> bool): (r: seq<T>)
    ensures |r| <= |xs|
    ensures forall x :: x in r ==> x in xs && keep(x)
  {
    if xs == [] then []
    else
      var rest := Filter(xs[1..], keep);
      if keep(xs[0]) then [xs[0]] + rest else rest
  }

  /** `sub` is `s` with some elements left out and the rest in their order. */
  predicate Subsequence<T(==)>(sub: seq<T>, s: seq<T>)
    decreases |s|
  {
    if sub == [] then true
    else if s == [] then false
    else if sub[0] == s[0] then Subsequence(sub[1..], s[1..])
    else Subsequence(sub, s[1..])
  }

  /** The filter keeps every element that passes, in the original order. */
  lemma {:induction false} FilterIsOrderedSelection<T>(xs: seq<T>, keep: T -> bool)
    ensures Subsequence(Filter(xs, keep), xs)
    ensures forall x :: x in xs && keep(x) ==> x in Filter(xs, keep)
  {
    if xs != [] {
      FilterIsOrderedSelection(xs[1..], keep);
      var rest := Filter(xs[1..], keep);
      if keep(xs[0]) {
        assert ([xs[0]] + rest)[1..] == rest;
      } else {
        SubsequenceOfTail(rest, xs);
      }
    }
  }

  lemma SubsequenceOfTail<T>(sub: seq<T>, s: seq<T>)
    requires s != [] && Subsequence(sub, s[1..])
    ensures Subsequence(sub, s)
    decreases |s|, 0
  {
    if sub != [] && sub[0] == s[0] {
      SubsequenceDropHead(sub, s[1..]);
    }
  }

  lemma {:induction false} SubsequenceDropHead<T>(sub: seq<T>, s: seq<T>)
    requires sub != [] && Subsequence(sub, s)
    ensures Subsequence(sub[1..], s)
    decreases |s|, 1
  {
    if sub[0] == s[0] {
      SubsequenceOfTail(sub[1..], s);
    } else {
      SubsequenceDropHead(sub, s[1..]);
      SubsequenceOfTail(sub[1..], s);
    }
  }

  /** When everything passes, the filter keeps the sequence whole. */
  lemma {:induction false} FilterKeepsAll<T>(xs: seq<T>, keep: T -> bool)
    requires forall i :: 0 <= i < |xs| ==> keep(xs[i])
    ensures Filter(xs, keep) == xs
  {
    if xs != [] {
      assert keep(xs[0]);
      FilterKeepsAll(xs[1..], keep);
    }
  }

  /** Two tests no element passes together select at most the whole sequence between them. */
  lemma {:induction false} DisjointFiltersFit<T>(xs: seq<T>, p: T -> bool, q: T -> bool)
    requires forall i :: 0 <= i < |xs| ==> !(p(xs[i]) && q(xs[i]))
    ensures |Filter(xs, p)| + |Filter(xs, q)| <= |xs|
  {
    if xs != [] {
      assert !(p(xs[0]) && q(xs[0]));
      DisjointFiltersFit(xs[1..], p, q);
    }
  }

  /** Two tests that agree on every element select the same elements. */
  lemma {:induction false} FilterCongruent<T>(xs: seq<T>, p: T -> bool, q: T -> bool)
    requires forall i :: 0 <= i < |xs| ==> p(xs[i]) == q(xs[i])
    ensures Filter(xs, p) == Filter(xs, q)
  {
    if xs != [] {
      assert p(xs[0]) == q(xs[0]);
      FilterCongruent(xs[1..], p, q);
    }
  }
}
