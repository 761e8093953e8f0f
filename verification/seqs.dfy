/**
 * The two list combinators the storefront code is written with: JavaScript's
 * `Array.prototype.filter` and `Array.prototype.map`, as functions on
 * sequences, with the facts about them that the cart and the catalog rely on.
 */
module Seqs {

  /** `s.filter(keep)`: the elements of `s` that satisfy `keep`, in their order. */
  function Filter<T>(s: seq<T>, keep: T -> bool): (r: seq<T>)
    ensures |r| <= |s|
    ensures forall i :: 0 <= i < |r| ==> r[i] in s && keep(r[i])
    ensures forall i :: 0 <= i < |s| && keep(s[i]) ==> s[i] in r
  {
    if s == [] then []
    else
      assert s == [s[0]] + s[1..];
      (if keep(s[0]) then [s[0]] else []) + Filter(s[1..], keep)
  }

  /** Filtering keeps each element at most as often as the input has it. */
  lemma {:induction false} FilterSubMultiset<T>(s: seq<T>, keep: T -> bool)
    ensures multiset(Filter(s, keep)) <= multiset(s)
  {
    if s != [] {
      FilterSubMultiset(s[1..], keep);
      assert s == [s[0]] + s[1..];
      assert Filter(s, keep) == (if keep(s[0]) then [s[0]] else []) + Filter(s[1..], keep);
    }
  }

  /** `s.map(f)`. */
  function Map<T, U>(s: seq<T>, f: T -> U): (r: seq<U>)
    ensures |r| == |s|
    ensures forall i :: 0 <= i < |s| ==> r[i] == f(s[i])
  {
    seq(|s|, i requires 0 <= i < |s| => f(s[i]))
  }

  /** Filtering distributes over concatenation: the order of the input is kept. */
  lemma {:induction false} FilterAppend<T>(a: seq<T>, b: seq<T>, keep: T -> bool)
    ensures Filter(a + b, keep) == Filter(a, keep) + Filter(b, keep)
  {
    if a == [] {
      assert a + b == b;
    } else {
      assert (a + b)[1..] == a[1..] + b;
      FilterAppend(a[1..], b, keep);
    }
  }

  lemma FilterSingleton<T>(x: T, keep: T -> bool)
    ensures Filter([x], keep) == if keep(x) then [x] else []
  {
    assert [x][1..] == [];
  }

  /** Filtering a list split around one element. */
  lemma FilterAround<T>(pre: seq<T>, x: T, post: seq<T>, keep: T -> bool)
    ensures Filter(pre + [x] + post, keep) == Filter(pre, keep) + Filter([x], keep) + Filter(post, keep)
  {
    FilterAppend(pre + [x], post, keep);
    FilterAppend(pre, [x], keep);
  }

  /** `x + (b + tl)` regrouped; stated apart so that it is proved without other facts in scope. */
  lemma AppendRegroup<T>(x: seq<T>, a: seq<T>, b: seq<T>, tl: seq<T>)
    requires a == b + tl
    ensures x + a == (x + b) + tl
  {
  }

  lemma SplitLast<T>(s: seq<T>)
    requires s != []
    ensures s[..|s| - 1] + [s[|s| - 1]] == s
  {
  }

  /** An element is kept exactly when it is in the input and satisfies the predicate. */
  lemma {:induction false} FilterMember<T>(s: seq<T>, keep: T -> bool, x: T)
    ensures x in Filter(s, keep) <==> x in s && keep(x)
  {
    if s != [] {
      FilterMember(s[1..], keep, x);
      assert x in s <==> x == s[0] || x in s[1..];
    }
  }

  /** A filter that keeps nothing gives the empty list. */
  lemma {:induction false} FilterNone<T>(s: seq<T>, keep: T -> bool)
    requires forall i :: 0 <= i < |s| ==> !keep(s[i])
    ensures Filter(s, keep) == []
  {
    if s != [] {
      FilterNone(s[1..], keep);
    }
  }

  /** Filtering a three-element list, element by element. */
  lemma FilterOfThree<T>(a: T, b: T, c: T, keep: T -> bool)
    ensures Filter([a, b, c], keep) ==
      (if keep(a) then [a] else []) + (if keep(b) then [b] else []) + (if keep(c) then [c] else [])
  {
    assert [a, b, c] == [a] + [b] + [c];
    FilterAround([a], b, [c], keep);
    FilterSingleton(a, keep);
    FilterSingleton(b, keep);
    FilterSingleton(c, keep);
  }

  /** Elements at the end that the filter rejects do not matter. */
  lemma FilterDropTail<T>(s: seq<T>, pre: seq<T>, post: seq<T>, keep: T -> bool)
    requires s == pre + post
    requires forall i :: 0 <= i < |post| ==> !keep(post[i])
    ensures Filter(s, keep) == Filter(pre, keep)
  {
    FilterAppend(pre, post, keep);
    FilterNone(post, keep);
  }

  lemma SplitSix<T>(a: T, b: T, c: T, d: T, e: T, f: T)
    ensures [a, b, c, d, e, f] == [a, b, c] + [d, e, f]
  {
  }

  /** A filter that keeps every element is the identity. */
  lemma {:induction false} FilterKeepsAll<T>(s: seq<T>, keep: T -> bool)
    requires forall i :: 0 <= i < |s| ==> keep(s[i])
    ensures Filter(s, keep) == s
  {
    if s != [] {
      FilterKeepsAll(s[1..], keep);
    }
  }

  /** Two filters in a row are one filter by the conjunction. */
  lemma {:induction false} FilterTwice<T>(s: seq<T>, f: T -> bool, g: T -> bool, both: T -> bool)
    requires forall i :: 0 <= i < |s| ==> both(s[i]) == (f(s[i]) && g(s[i]))
    ensures Filter(Filter(s, f), g) == Filter(s, both)
  {
    if s != [] {
      FilterTwice(s[1..], f, g, both);
      if f(s[0]) {
        assert Filter(s, f) == [s[0]] + Filter(s[1..], f);
        assert Filter(s, f)[1..] == Filter(s[1..], f);
      } else {
        assert Filter(s, f) == Filter(s[1..], f);
      }
    }
  }

  /** A weaker predicate never keeps fewer elements (and keeps the same ones and more). */
  lemma {:induction false} FilterMonotone<T>(s: seq<T>, f: T -> bool, g: T -> bool)
    requires forall i :: 0 <= i < |s| && f(s[i]) ==> g(s[i])
    ensures |Filter(s, f)| <= |Filter(s, g)|
    ensures multiset(Filter(s, f)) <= multiset(Filter(s, g))
  {
    if s != [] {
      FilterMonotone(s[1..], f, g);
    }
  }

  /** Elements whose keys are pairwise different still have different keys after filtering. */
  ghost predicate DistinctKeys<T, K>(s: seq<T>, key: T -> K)
  {
    forall i, j :: 0 <= i < j < |s| ==> key(s[i]) != key(s[j])
  }

  lemma {:induction false} FilterDistinctKeys<T, K>(s: seq<T>, keep: T -> bool, key: T -> K)
    requires DistinctKeys(s, key)
    ensures DistinctKeys(Filter(s, keep), key)
  {
    if s != [] {
      var rest := Filter(s[1..], keep);
      FilterDistinctKeys(s[1..], keep, key);
      if keep(s[0]) {
        var r := Filter(s, keep);
        assert r == [s[0]] + rest;
        forall i, j | 0 <= i < j < |r| ensures key(r[i]) != key(r[j]) {
          if i == 0 {
            assert r[j] == rest[j - 1] && r[j] in s[1..];
            var k :| 0 <= k < |s[1..]| && s[1..][k] == r[j];
            assert s[k + 1] == r[j];
            assert key(s[0]) != key(s[k + 1]);
          } else {
            assert r[i] == rest[i - 1] && r[j] == rest[j - 1];
          }
        }
      }
    }
  }
}
