/**
  The array operations the application relies on, stated once over `seq`:
  `Array.prototype.find`/`findIndex`, `some`, `filter`, `map`, the stable
  `sort` with a numeric comparator, and `slice` with one argument.
 */
module Sequences {
  import opened Outcomes

  /** Index of the first element satisfying `p` (`findIndex`, with `None` for -1). */
  function FindFirst<T>(xs: seq<T>, p: T -> bool): (r: Option<nat>)
    ensures r.Some? ==> r.value < |xs| && p(xs[r.value])
    ensures r.Some? ==> forall i :: 0 <= i < r.value ==> !p(xs[i])
    ensures r.None? <==> forall i :: 0 <= i < |xs| ==> !p(xs[i])
  {
    if |xs| == 0 then None
    else if p(xs[0]) then Some(0)
    else match FindFirst(xs[1..], p)
      case None => None
      case Some(i) => Some(i + 1)
  }

  /** `some`: whether any element satisfies `p`. */
  function AnyOf<T>(xs: seq<T>, p: T -> bool): (r: bool)
    ensures r <==> exists i :: 0 <= i < |xs| && p(xs[i])
  {
    FindFirst(xs, p).Some?
  }

  /** `filter`: the elements satisfying `p`, in their original order. */
  function Filter<T>(xs: seq<T>, p: T -> bool): (r: seq<T>)
    ensures |r| <= |xs|
    ensures forall i :: 0 <= i < |r| ==> p(r[i]) && r[i] in xs
    ensures forall i :: 0 <= i < |xs| && p(xs[i]) ==> xs[i] in r
  {
    if |xs| == 0 then []
    else if p(xs[0]) then [xs[0]] + Filter(xs[1..], p)
    else Filter(xs[1..], p)
  }

  /** Filtering commutes with concatenation, so `Filter` keeps relative order. */
  lemma {:induction false} FilterConcat<T>(xs: seq<T>, ys: seq<T>, p: T -> bool)
    ensures Filter(xs + ys, p) == Filter(xs, p) + Filter(ys, p)
  {
    if |xs| == 0 {
      assert xs + ys == ys;
    } else {
      assert (xs + ys)[1..] == xs[1..] + ys;
      FilterConcat(xs[1..], ys, p);
    }
  }

  /** Filtering with a predicate every element satisfies changes nothing. */
  lemma {:induction false} FilterAll<T>(xs: seq<T>, p: T -> bool)
    requires forall i :: 0 <= i < |xs| ==> p(xs[i])
    ensures Filter(xs, p) == xs
  {
    if |xs| > 0 {
      FilterAll(xs[1..], p);
      assert [xs[0]] + xs[1..] == xs;
    }
  }

  /** The last element of a non-empty sequence. */
  function Last<T>(xs: seq<T>): (x: T)
    requires |xs| > 0
  {
    xs[|xs| - 1]
  }

  /** How many leading elements satisfy `p`. */
  function LeadingCount<T>(xs: seq<T>, p: T -> bool): (n: nat)
    ensures n <= |xs|
    ensures forall i :: 0 <= i < n ==> p(xs[i])
    ensures n < |xs| ==> !p(xs[n])
  {
    if |xs| == 0 || !p(xs[0]) then 0 else 1 + LeadingCount(xs[1..], p)
  }

  /** How many trailing elements satisfy `p`. */
  function TrailingCount<T>(xs: seq<T>, p: T -> bool): (n: nat)
    ensures n <= |xs|
    ensures forall i :: |xs| - n <= i < |xs| ==> p(xs[i])
    ensures n < |xs| ==> !p(xs[|xs| - n - 1])
  {
    if |xs| == 0 || !p(xs[|xs| - 1]) then 0 else 1 + TrailingCount(xs[..|xs| - 1], p)
  }

  /** `map`. */
  function Map<T, U>(xs: seq<T>, f: T -> U): (r: seq<U>)
    ensures |r| == |xs|
    ensures forall i :: 0 <= i < |xs| ==> r[i] == f(xs[i])
  {
    if |xs| == 0 then [] else [f(xs[0])] + Map(xs[1..], f)
  }

  /** Removing the element at `k` removes one occurrence of it from the multiset. */
  lemma RemoveAtMultiset<T>(ys: seq<T>, k: nat)
    requires k < |ys|
    ensures multiset(ys[..k] + ys[k + 1..]) == multiset(ys) - multiset{ys[k]}
  {
    assert ys == ys[..k] + [ys[k]] + ys[k + 1..];
  }

  /** No element occurs at two positions. */
  ghost predicate NoRepeats<T>(xs: seq<T>) {
    forall i, j :: 0 <= i < j < |xs| ==> xs[i] != xs[j]
  }

  /** An element of a sequence without repeats occurs once in its multiset. */
  lemma OnceWithoutRepeats<T>(xs: seq<T>, k: nat)
    requires NoRepeats(xs) && k < |xs|
    ensures multiset(xs)[xs[k]] == 1
  {
    RemoveAtMultiset(xs, k);
    var rest := xs[..k] + xs[k + 1..];
    forall m | 0 <= m < |rest|
      ensures rest[m] != xs[k]
    {
      if m < k {
        assert rest[m] == xs[m];
      } else {
        assert rest[m] == xs[m + 1];
      }
    }
    assert multiset(rest)[xs[k]] == 0;
    assert xs[k] in multiset(xs);
  }

  /** An element at two positions occurs at least twice in the multiset. */
  lemma TwiceWithRepeat<T>(xs: seq<T>, i: nat, j: nat)
    requires i < j < |xs| && xs[i] == xs[j]
    ensures multiset(xs)[xs[j]] >= 2
  {
    RemoveAtMultiset(xs, j);
    var rest := xs[..j] + xs[j + 1..];
    assert rest[i] == xs[i];
    assert xs[j] in multiset(rest);
  }

  /** A permutation of a sequence without repeats has none either. */
  lemma NoRepeatsPermutation<T>(xs: seq<T>, ys: seq<T>)
    requires NoRepeats(xs) && multiset(xs) == multiset(ys)
    ensures NoRepeats(ys)
  {
    forall i, j | 0 <= i < j < |ys|
      ensures ys[i] != ys[j]
    {
      if ys[i] == ys[j] {
        TwiceWithRepeat(ys, i, j);
        assert ys[j] in multiset(xs);
        var k :| 0 <= k < |xs| && xs[k] == ys[j];
        OnceWithoutRepeats(xs, k);
      }
    }
  }

  /** Ascending order of the numeric key. */
  ghost predicate SortedBy<T>(xs: seq<T>, key: T -> int) {
    forall i, j :: 0 <= i < j < |xs| ==> key(xs[i]) <= key(xs[j])
  }

  /** Inserts `x` after the leading elements whose key is not greater than its own. */
  function Insert<T>(x: T, xs: seq<T>, key: T -> int): (r: seq<T>)
    ensures |r| == |xs| + 1
    ensures r[0] == x || (|xs| > 0 && r[0] == xs[0])
  {
    if |xs| == 0 || key(x) < key(xs[0]) then [x] + xs
    else [xs[0]] + Insert(x, xs[1..], key)
  }

  /** Inserting keeps the sequence in key order. */
  lemma {:induction false} InsertSorted<T>(x: T, xs: seq<T>, key: T -> int)
    requires SortedBy(xs, key)
    ensures SortedBy(Insert(x, xs, key), key)
  {
    if |xs| > 0 && key(x) >= key(xs[0]) {
      var tail := Insert(x, xs[1..], key);
      InsertSorted(x, xs[1..], key);
      var r := [xs[0]] + tail;
      assert key(xs[0]) <= key(tail[0]);
      forall i, j | 0 <= i < j < |r|
        ensures key(r[i]) <= key(r[j])
      {
        assert r[j] == tail[j - 1];
        if i == 0 {
          assert key(tail[0]) <= key(tail[j - 1]);
        } else {
          assert r[i] == tail[i - 1];
        }
      }
    }
  }

  /** Inserting adds exactly the one element. */
  lemma {:induction false} InsertMultiset<T>(x: T, xs: seq<T>, key: T -> int)
    ensures multiset(Insert(x, xs, key)) == multiset(xs) + multiset{x}
  {
    if |xs| > 0 && key(x) >= key(xs[0]) {
      InsertMultiset(x, xs[1..], key);
      assert xs == [xs[0]] + xs[1..];
    }
  }

  lemma MultisetOfInitAndLast<T>(xs: seq<T>)
    requires |xs| > 0
    ensures multiset(xs) == multiset(xs[..|xs| - 1]) + multiset{xs[|xs| - 1]}
  {
    assert xs == xs[..|xs| - 1] + [xs[|xs| - 1]];
  }

  /**
    `sort` with comparator `(a, b) => key(a) - key(b)`: ascending by key, and
    stable (ties keep their input order) because each element is inserted
    after the earlier ones with an equal key.
   */
  function SortBy<T>(xs: seq<T>, key: T -> int): (r: seq<T>)
    ensures |r| == |xs|
    ensures SortedBy(r, key)
    ensures multiset(r) == multiset(xs)
  {
    if |xs| == 0 then []
    else
      var init, last := xs[..|xs| - 1], xs[|xs| - 1];
      var sortedInit := SortBy(init, key);
      InsertSorted(last, sortedInit, key);
      InsertMultiset(last, sortedInit, key);
      MultisetOfInitAndLast(xs);
      Insert(last, sortedInit, key)
  }

  /**
    `slice(start)`: a negative start counts from the end and is clamped at 0,
    a non-negative start is clamped at the length (ECMA-262, the relative
    start computation of Array.prototype.slice).
   */
  function SliceFrom<T>(xs: seq<T>, start: int): (r: seq<T>)
    ensures |r| <= |xs| && r == xs[|xs| - |r|..]
    ensures start < 0 ==> |r| == if -start < |xs| then -start else |xs|
    ensures start >= 0 ==> |r| == if start < |xs| then |xs| - start else 0
  {
    var from := if start < 0 then (if |xs| + start < 0 then 0 else |xs| + start)
                else (if start > |xs| then |xs| else start);
    xs[from..]
  }
}
