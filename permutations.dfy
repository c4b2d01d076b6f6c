/** Index permutations as numpy uses them: fancy indexing `a[idx]` and `np.argsort`. */
module Permutations {

  /** `np.arange(n)` as indices. */
  function Range(n: nat): (r: seq<int>)
    ensures |r| == n
  {
    seq(n, i => i)
  }

  /** Every index of `idx` addresses an element of a sequence of length `n`. */
  predicate InBounds(idx: seq<int>, n: nat)
  {
    forall k :: 0 <= k < |idx| ==> 0 <= idx[k] < n
  }

  /** `idx` lists every index below `n` exactly once. */
  predicate IsPermutation(idx: seq<int>, n: nat)
  {
    multiset(idx) == multiset(Range(n))
  }

  /** Fancy indexing `s[idx]`: a new sequence whose k-th element is `s[idx[k]]`. */
  function Take<T>(s: seq<T>, idx: seq<int>): (r: seq<T>)
    requires InBounds(idx, |s|)
    ensures |r| == |idx|
  {
    seq(|idx|, k requires 0 <= k < |idx| => s[idx[k]])
  }

  predicate NonDecreasing(s: seq<real>)
  {
    forall a, b :: 0 <= a < b < |s| ==> s[a] <= s[b]
  }

  /** Reading `keys` in the order `idx` gives non-decreasing values. */
  predicate SortedBy(keys: seq<real>, idx: seq<int>)
  {
    InBounds(idx, |keys|) &&
    forall a, b :: 0 <= a < b < |idx| ==> keys[idx[a]] <= keys[idx[b]]
  }

  /** What `np.argsort(keys)` promises: a permutation of the indices that sorts `keys`.
      Ties may come in any order (the default sort is not stable). */
  predicate IsArgSort(idx: seq<int>, keys: seq<real>)
  {
    SortedBy(keys, idx) && IsPermutation(idx, |keys|)
  }

  /** A permutation has as many entries as it permutes. */
  lemma PermutationLength(idx: seq<int>, n: nat)
    requires IsPermutation(idx, n)
    ensures |idx| == n
  {
    assert |multiset(idx)| == |multiset(Range(n))|;
  }

  /** Applying a sorting permutation sorts. */
  lemma ArgSortSorts(keys: seq<real>, idx: seq<int>)
    requires IsArgSort(idx, keys)
    ensures NonDecreasing(Take(keys, idx))
  {
  }

  lemma TakeConcat<T>(s: seq<T>, a: seq<int>, b: seq<int>)
    requires InBounds(a, |s|) && InBounds(b, |s|)
    ensures InBounds(a + b, |s|)
    ensures Take(s, a + b) == Take(s, a) + Take(s, b)
  {
  }

  /** Removing the same index from two equal-up-to-order index lists keeps them equal up to order. */
  lemma RemoveMatching(a: seq<int>, b: seq<int>, p: nat)
    requires multiset(a) == multiset(b) && a != [] && p < |b| && b[p] == a[0]
    ensures multiset(a[1..]) == multiset(b[..p] + b[p + 1..])
  {
    var rest, others := multiset(a[1..]), multiset(b[..p] + b[p + 1..]);
    assert a == [a[0]] + a[1..];
    assert b == b[..p] + [b[p]] + b[p + 1..];
    assert multiset(a) == rest + multiset{a[0]};
    assert multiset(b) == others + multiset{a[0]};
    forall v ensures rest[v] == others[v] {
      assert (rest + multiset{a[0]})[v] == (others + multiset{a[0]})[v];
    }
  }

  /** Selecting by `b` gives the selection by `b` without position `p`, plus `s[b[p]]`. */
  lemma TakeWithout<T>(s: seq<T>, b: seq<int>, p: nat)
    requires InBounds(b, |s|) && p < |b|
    ensures InBounds(b[..p] + b[p + 1..], |s|)
    ensures multiset(Take(s, b)) == multiset(Take(s, b[..p] + b[p + 1..])) + multiset{s[b[p]]}
  {
    var left, right := b[..p], b[p + 1..];
    assert b == left + [b[p]] + right;
    TakeConcat(s, left + [b[p]], right);
    TakeConcat(s, left, [b[p]]);
    TakeConcat(s, left, right);
  }

  /** Index lists that are the same up to order select the same elements up to order. */
  lemma {:induction false} TakeSameMultiset<T>(s: seq<T>, a: seq<int>, b: seq<int>)
    requires InBounds(a, |s|) && InBounds(b, |s|)
    requires multiset(a) == multiset(b)
    ensures multiset(Take(s, a)) == multiset(Take(s, b))
    decreases |a|
  {
    if a == [] {
      assert |b| == |multiset(b)| == 0;
    } else {
      assert a[0] in multiset(b);
      var p :| 0 <= p < |b| && b[p] == a[0];
      var others := b[..p] + b[p + 1..];
      RemoveMatching(a, b, p);
      TakeWithout(s, b, p);
      TakeSameMultiset(s, a[1..], others);
      var head, tail := s[a[0]], Take(s, a[1..]);
      assert Take(s, a) == [head] + tail;
      calc {
        multiset(Take(s, a));
        multiset{head} + multiset(tail);
        multiset{head} + multiset(Take(s, others));
        multiset(Take(s, b));
      }
    }
  }

  /** `s[np.arange(len(s))]` is `s`. */
  lemma TakeRange<T>(s: seq<T>)
    ensures InBounds(Range(|s|), |s|) && Take(s, Range(|s|)) == s
  {
  }

  /** Reordering by a permutation neither adds nor drops elements. */
  lemma PermutationKeepsMultiset<T>(s: seq<T>, idx: seq<int>)
    requires InBounds(idx, |s|) && IsPermutation(idx, |s|)
    ensures |Take(s, idx)| == |s|
    ensures multiset(Take(s, idx)) == multiset(s)
  {
    PermutationLength(idx, |s|);
    TakeRange(s);
    TakeSameMultiset(s, idx, Range(|s|));
  }

  /** Inserts index `j` into `sorted` after every index whose key is smaller than `j`'s. */
  function InsertIndex(keys: seq<real>, sorted: seq<int>, j: int): (r: seq<int>)
    requires SortedBy(keys, sorted) && 0 <= j < |keys|
    ensures SortedBy(keys, r)
    ensures multiset(r) == multiset(sorted) + multiset{j}
  {
    if sorted == [] then [j]
    else if keys[j] <= keys[sorted[0]] then [j] + sorted
    else
      var rest := InsertIndex(keys, sorted[1..], j);
      InsertAfterHead(keys, sorted, j, rest);
      assert sorted == [sorted[0]] + sorted[1..];
      [sorted[0]] + rest
  }

  /** The head of a sorted index list stays first when a larger key is inserted behind it. */
  lemma InsertAfterHead(keys: seq<real>, sorted: seq<int>, j: int, rest: seq<int>)
    requires SortedBy(keys, sorted) && sorted != [] && 0 <= j < |keys|
    requires keys[sorted[0]] < keys[j]
    requires SortedBy(keys, rest) && multiset(rest) == multiset(sorted[1..]) + multiset{j}
    ensures SortedBy(keys, [sorted[0]] + rest)
  {
    forall b | 0 <= b < |rest| ensures keys[sorted[0]] <= keys[rest[b]] {
      assert rest[b] in multiset(rest);
      if rest[b] != j {
        assert rest[b] in sorted[1..];
        var c :| 1 <= c < |sorted| && sorted[c] == rest[b];
      }
    }
  }

  /** An argsort of the first `n` keys, built by insertion. */
  function ArgSortPrefix(keys: seq<real>, n: nat): (r: seq<int>)
    requires n <= |keys|
    ensures SortedBy(keys, r) && IsPermutation(r, n)
  {
    if n == 0 then []
    else
      var r := InsertIndex(keys, ArgSortPrefix(keys, n - 1), n - 1);
      RangeExtends(n);
      r
  }

  /** `np.arange(n)` is `np.arange(n - 1)` with `n - 1` added. */
  lemma RangeExtends(n: nat)
    requires n > 0
    ensures multiset(Range(n)) == multiset(Range(n - 1)) + multiset{n - 1}
  {
    assert Range(n) == Range(n - 1) + [n - 1];
  }

  /** Every list of keys has an argsort, so requiring one of an argsort routine excludes no input. */
  function ArgSort(keys: seq<real>): (idx: seq<int>)
    ensures IsArgSort(idx, keys)
  {
    ArgSortPrefix(keys, |keys|)
  }
}
