/**
 * `Array.prototype.sort` with a comparator that subtracts two numeric keys.
 * The sort is stable (ECMAScript 2019 and later), so it is modelled as an
 * insertion sort that places each element after every earlier one that does
 * not rank strictly above it.
 */
module Sorting {
  import opened Seqs

  /**
   * A numeric sort key: an integer, or positive infinity. The comparator
   * returns `key(a) - key(b)`; `Infinity - Infinity` is NaN, which the sort
   * treats like 0, so two infinite keys tie.
   */
  datatype Rank = Finite(v: int) | Top

  predicate RankLe(a: Rank, b: Rank)
  {
    b.Top? || (a.Finite? && a.v <= b.v)
  }

  ghost predicate SortedBy<T>(s: seq<T>, key: T -> Rank)
  {
    forall i, j :: 0 <= i < j < |s| ==> RankLe(key(s[i]), key(s[j]))
  }

  /** Insert x into a sorted list after every element that does not rank above it. */
  function Insert<T>(t: seq<T>, x: T, key: T -> Rank): (r: seq<T>)
    ensures |r| == |t| + 1
    ensures multiset(r) == multiset(t) + multiset{x}
  {
    if t == [] then [x]
    else if !RankLe(key(t[0]), key(x)) then [x] + t
    else
      assert t == [t[0]] + t[1..];
      [t[0]] + Insert(t[1..], x, key)
  }

  /** `[...s].sort((a, b) => key(a) - key(b))`. */
  function SortBy<T>(s: seq<T>, key: T -> Rank): (r: seq<T>)
    ensures |r| == |s|
    ensures multiset(r) == multiset(s)
  {
    if s == [] then []
    else
      assert s == s[..|s| - 1] + [s[|s| - 1]];
      Insert(SortBy(s[..|s| - 1], key), s[|s| - 1], key)
  }

  lemma {:induction false} InsertSorted<T>(t: seq<T>, x: T, key: T -> Rank)
    requires SortedBy(t, key)
    ensures SortedBy(Insert(t, x, key), key)
  {
    if t != [] && RankLe(key(t[0]), key(x)) {
      var rest := Insert(t[1..], x, key);
      InsertSorted(t[1..], x, key);
      var r := [t[0]] + rest;
      forall j | 0 < j < |r| ensures RankLe(key(r[0]), key(r[j])) {
        assert r[j] in multiset(rest);
        assert r[j] in multiset(t[1..]) || r[j] == x;
        if r[j] != x {
          var k :| 0 <= k < |t[1..]| && t[1..][k] == r[j];
          assert t[k + 1] == r[j];
        }
      }
    }
  }

  /** The result is ordered by the key. */
  lemma {:induction false} SortSorted<T>(s: seq<T>, key: T -> Rank)
    ensures SortedBy(SortBy(s, key), key)
  {
    if s != [] {
      SortSorted(s[..|s| - 1], key);
      InsertSorted(SortBy(s[..|s| - 1], key), s[|s| - 1], key);
    }
  }

  /** Sorting neither adds nor drops an element. */
  lemma SortSameElements<T>(s: seq<T>, key: T -> Rank)
    ensures forall i :: 0 <= i < |s| ==> s[i] in SortBy(s, key)
    ensures forall i :: 0 <= i < |SortBy(s, key)| ==> SortBy(s, key)[i] in s
  {
    var r := SortBy(s, key);
    forall i | 0 <= i < |s| ensures s[i] in r {
      assert s[i] in multiset(r);
    }
    forall i | 0 <= i < |r| ensures r[i] in s {
      assert r[i] in multiset(s);
    }
  }

  function HasRank<T>(key: T -> Rank, k: Rank): T -> bool
  {
    (y: T) => key(y) == k
  }

  /** The elements of a given rank, in order. */
  function OfRank<T>(s: seq<T>, key: T -> Rank, k: Rank): seq<T>
  {
    Filter(s, HasRank(key, k))
  }

  /** Nothing in a sorted list that starts above x has x's rank. */
  lemma NoneOfRankBelowHead<T>(t: seq<T>, x: T, key: T -> Rank)
    requires SortedBy(t, key) && t != [] && !RankLe(key(t[0]), key(x))
    ensures OfRank(t, key, key(x)) == []
  {
    forall i | 0 <= i < |t| ensures !HasRank(key, key(x))(t[i]) {
      if i > 0 {
        assert RankLe(key(t[0]), key(t[i]));
      }
    }
    FilterNone(t, HasRank(key, key(x)));
  }

  /** What inserting x adds to the elements of rank k. */
  function Added<T>(x: T, key: T -> Rank, k: Rank): seq<T>
  {
    if key(x) == k then [x] else []
  }

  lemma AddedIsFilter<T>(x: T, key: T -> Rank, k: Rank)
    ensures OfRank([x], key, k) == Added(x, key, k)
  {
    FilterSingleton(x, HasRank(key, k));
  }

  lemma OfRankSplit<T>(s: seq<T>, h: T, rest: seq<T>, key: T -> Rank, k: Rank)
    requires s == [h] + rest
    ensures OfRank(s, key, k) == OfRank([h], key, k) + OfRank(rest, key, k)
  {
    FilterAppend([h], rest, HasRank(key, k));
  }

  lemma InsertFront<T>(t: seq<T>, x: T, key: T -> Rank)
    requires t != [] && !RankLe(key(t[0]), key(x))
    ensures Insert(t, x, key) == [x] + t
  {
  }

  lemma InsertStableFront<T>(t: seq<T>, x: T, key: T -> Rank, k: Rank)
    requires SortedBy(t, key) && t != [] && !RankLe(key(t[0]), key(x))
    ensures OfRank(Insert(t, x, key), key, k) == OfRank(t, key, k) + Added(x, key, k)
  {
    InsertFront(t, x, key);
    OfRankSplit(Insert(t, x, key), x, t, key, k);
    AddedIsFilter(x, key, k);
    if key(x) == k {
      NoneOfRankBelowHead(t, x, key);
      assert OfRank(t, key, k) == [];
    } else {
      assert Added(x, key, k) == [];
    }
  }

  lemma InsertBehind<T>(t: seq<T>, x: T, key: T -> Rank)
    requires t != [] && RankLe(key(t[0]), key(x))
    ensures Insert(t, x, key) == [t[0]] + Insert(t[1..], x, key)
  {
  }

  lemma ConsTail<T>(t: seq<T>)
    requires t != []
    ensures t == [t[0]] + t[1..]
  {
  }

  lemma OfRankSnoc<T>(s: seq<T>, y: T, key: T -> Rank, k: Rank)
    ensures OfRank(s + [y], key, k) == OfRank(s, key, k) + Added(y, key, k)
  {
    FilterAppend(s, [y], HasRank(key, k));
    AddedIsFilter(y, key, k);
  }

  lemma InsertStableBehind<T>(t: seq<T>, x: T, key: T -> Rank, k: Rank)
    requires t != [] && RankLe(key(t[0]), key(x))
    requires OfRank(Insert(t[1..], x, key), key, k) == OfRank(t[1..], key, k) + Added(x, key, k)
    ensures OfRank(Insert(t, x, key), key, k) == OfRank(t, key, k) + Added(x, key, k)
  {
    var rest := Insert(t[1..], x, key);
    InsertBehind(t, x, key);
    OfRankSplit(Insert(t, x, key), t[0], rest, key, k);
    ConsTail(t);
    OfRankSplit(t, t[0], t[1..], key, k);
    AppendRegroup(OfRank([t[0]], key, k), OfRank(rest, key, k), OfRank(t[1..], key, k), Added(x, key, k));
  }

  /** Inserting into a sorted list appends x to the elements of its rank. */
  lemma {:induction false} InsertStable<T>(t: seq<T>, x: T, key: T -> Rank, k: Rank)
    requires SortedBy(t, key)
    ensures OfRank(Insert(t, x, key), key, k) == OfRank(t, key, k) + Added(x, key, k)
  {
    if t == [] {
      AddedIsFilter(x, key, k);
    } else if !RankLe(key(t[0]), key(x)) {
      InsertStableFront(t, x, key, k);
    } else {
      InsertStable(t[1..], x, key, k);
      InsertStableBehind(t, x, key, k);
    }
  }

  /** Elements that tie keep their relative order: the sort is stable. */
  lemma {:induction false} SortStable<T>(s: seq<T>, key: T -> Rank, k: Rank)
    ensures OfRank(SortBy(s, key), key, k) == OfRank(s, key, k)
  {
    if s != [] {
      var init, last := s[..|s| - 1], s[|s| - 1];
      var tail := Added(last, key, k);
      assert SortBy(s, key) == Insert(SortBy(init, key), last, key);
      SortSorted(init, key);
      InsertStable(SortBy(init, key), last, key, k);
      SortStable(init, key, k);
      assert OfRank(SortBy(s, key), key, k) == OfRank(init, key, k) + tail;
      OfRankSnoc(init, last, key, k);
      SplitLast(s);
    }
  }

  lemma {:induction false} InsertTie<T>(t: seq<T>, x: T, key: T -> Rank, k: Rank)
    requires forall i :: 0 <= i < |t| ==> key(t[i]) == k
    requires key(x) == k
    ensures Insert(t, x, key) == t + [x]
  {
    if t != [] {
      InsertTie(t[1..], x, key, k);
      assert [t[0]] + (t[1..] + [x]) == t + [x];
    }
  }

  /** When every key is the same, sorting keeps the input order. */
  lemma {:induction false} SortAllTied<T>(s: seq<T>, key: T -> Rank, k: Rank)
    requires forall i :: 0 <= i < |s| ==> key(s[i]) == k
    ensures SortBy(s, key) == s
  {
    if s != [] {
      SortAllTied(s[..|s| - 1], key, k);
      InsertTie(s[..|s| - 1], s[|s| - 1], key, k);
      SplitLast(s);
    }
  }

  /** Sorting two elements swaps them exactly when the second ranks strictly first. */
  lemma SortPair<T>(a: T, b: T, key: T -> Rank)
    ensures SortBy([a, b], key) == if RankLe(key(a), key(b)) then [a, b] else [b, a]
  {
    assert [a, b][..1] == [a];
    assert [a][..0] == [];
    assert SortBy([a], key) == [a];
    assert [a][1..] == [];
  }
}
