/** `Array.prototype.sort((a, b) => key(a) - key(b))`: a stable sort by an integer key,
    modelled as insertion sort (which is stable, as the JavaScript sort is). */
module Sorting {
  import opened Seqs

  predicate SortedBy<T>(s: seq<T>, key: T -> int) {
    forall i, j :: 0 <= i < j < |s| ==> key(s[i]) <= key(s[j])
  }

  /** Inserts `x` after every element whose key is not greater than its own,
      scanning from the back as an insertion sort shifts. */
  function Insert<T>(s: seq<T>, x: T, key: T -> int): (r: seq<T>)
    ensures |r| == |s| + 1
    ensures multiset(r) == multiset(s) + multiset{x}
  {
    if s == [] || key(s[|s| - 1]) <= key(x) then s + [x]
    else
      assert s == s[..|s| - 1] + [s[|s| - 1]];
      Insert(s[..|s| - 1], x, key) + [s[|s| - 1]]
  }

  lemma {:induction false} InsertSorted<T>(s: seq<T>, x: T, key: T -> int)
    requires SortedBy(s, key)
    ensures SortedBy(Insert(s, x, key), key)
  {
    if s != [] && key(s[|s| - 1]) > key(x) {
      var init, last := s[..|s| - 1], s[|s| - 1];
      InsertSorted(init, x, key);
      var r := Insert(init, x, key);
      forall y | y in r ensures key(y) <= key(last) {
        assert y in multiset(r);
        assert y in multiset(init) || y == x;
      }
      SortedSnoc(r, last, key);
      assert Insert(s, x, key) == r + [last];
    }
  }

  lemma SortedSnoc<T>(r: seq<T>, last: T, key: T -> int)
    requires SortedBy(r, key) && forall y :: y in r ==> key(y) <= key(last)
    ensures SortedBy(r + [last], key)
  {
    var s := r + [last];
    forall i, j | 0 <= i < j < |s| ensures key(s[i]) <= key(s[j]) {
      if j == |r| {
        assert s[i] in r;
      }
    }
  }

  lemma DropInit<T>(p: seq<T>, j: nat)
    requires j < |p|
    ensures p[..|p| - 1][..j] == p[..j]
    ensures p[j..] == p[..|p| - 1][j..] + [p[|p| - 1]]
  {
  }

  /** Where the insertion of `x` lands: after the last element whose key does not exceed
      its own. */
  lemma {:induction false} InsertAt<T>(p: seq<T>, x: T, key: T -> int, j: nat)
    requires j <= |p|
    requires j == 0 || key(p[j - 1]) <= key(x)
    requires forall k :: j <= k < |p| ==> key(p[k]) > key(x)
    ensures Insert(p, x, key) == p[..j] + [x] + p[j..]
    decreases |p|
  {
    if j < |p| {
      var init := p[..|p| - 1];
      assert forall k :: j <= k < |init| ==> init[k] == p[k];
      InsertAt(init, x, key, j);
      InsertAtLast(p, x, key, j);
    } else {
      assert p[..j] == p;
    }
  }

  lemma InsertAtLast<T>(p: seq<T>, x: T, key: T -> int, j: nat)
    requires j < |p| && key(p[|p| - 1]) > key(x)
    requires Insert(p[..|p| - 1], x, key) == p[..|p| - 1][..j] + [x] + p[..|p| - 1][j..]
    ensures Insert(p, x, key) == p[..j] + [x] + p[j..]
  {
    var init, last := p[..|p| - 1], p[|p| - 1];
    assert Insert(p, x, key) == Insert(init, x, key) + [last];
    DropInit(p, j);
  }

  /** Stable sort by `key`. */
  function SortBy<T>(s: seq<T>, key: T -> int): (r: seq<T>)
    ensures |r| == |s| && multiset(r) == multiset(s)
    ensures SortedBy(r, key)
  {
    if s == [] then []
    else
      assert s == s[..|s| - 1] + [s[|s| - 1]];
      var sorted := SortBy(s[..|s| - 1], key);
      InsertSorted(sorted, s[|s| - 1], key);
      Insert(sorted, s[|s| - 1], key)
  }

  /** An input already sorted comes back unchanged, so sorting twice is sorting once. */
  lemma {:induction false} SortBySorted<T>(s: seq<T>, key: T -> int)
    requires SortedBy(s, key)
    ensures SortBy(s, key) == s
  {
    if s != [] {
      SortedInit(s, key);
      SortBySorted(s[..|s| - 1], key);
      SortBySortedStep(s, key);
    }
  }

  /** The inductive step: the input without its last element sorts to itself, and the last
      element is no smaller than the one before it. */
  lemma SortBySortedStep<T>(s: seq<T>, key: T -> int)
    requires s != [] && SortBy(s[..|s| - 1], key) == s[..|s| - 1]
    requires |s| > 1 ==> key(s[..|s| - 1][|s| - 2]) <= key(s[|s| - 1])
    ensures SortBy(s, key) == s
  {
    var init, last := s[..|s| - 1], s[|s| - 1];
    SortBySnoc(s, key);
    InsertAfterLast(init, last, key);
    assert s == init + [last];
  }

  lemma SortedInit<T>(s: seq<T>, key: T -> int)
    requires SortedBy(s, key) && s != []
    ensures SortedBy(s[..|s| - 1], key)
    ensures |s| > 1 ==> key(s[..|s| - 1][|s| - 2]) <= key(s[|s| - 1])
  {
    var init := s[..|s| - 1];
    forall i, j | 0 <= i < j < |init| ensures key(init[i]) <= key(init[j]) {
      assert init[i] == s[i] && init[j] == s[j];
    }
  }

  lemma SortBySnoc<T>(s: seq<T>, key: T -> int)
    requires s != []
    ensures SortBy(s, key) == Insert(SortBy(s[..|s| - 1], key), s[|s| - 1], key)
  {
  }

  /** An element no smaller than the last one goes at the end. */
  lemma InsertAfterLast<T>(s: seq<T>, x: T, key: T -> int)
    requires s == [] || key(s[|s| - 1]) <= key(x)
    ensures Insert(s, x, key) == s + [x]
  {
  }

  /** Sorting keeps exactly the elements of the input. */
  lemma SortByMember<T>(s: seq<T>, key: T -> int, x: T)
    ensures x in SortBy(s, key) <==> x in s
  {
    assert x in SortBy(s, key) <==> x in multiset(SortBy(s, key));
  }

  lemma {:induction false} InsertStable<T>(s: seq<T>, x: T, key: T -> int, k: int, keep: T -> bool)
    requires forall y :: keep(y) == (key(y) == k)
    ensures Filter(Insert(s, x, key), keep) == Filter(s, keep) + Filter([x], keep)
  {
    if s == [] || key(s[|s| - 1]) <= key(x) {
      FilterAppend(s, [x], keep);
    } else {
      var init, last := s[..|s| - 1], s[|s| - 1];
      assert s == init + [last];
      InsertStable(init, x, key, k, keep);
      FilterAppend(Insert(init, x, key), [last], keep);
      FilterAppend(init, [last], keep);
      var fi, fx, fl := Filter(init, keep), Filter([x], keep), Filter([last], keep);
      assert fx == [] || fl == [] by {
        assert [x][1..] == [] && [last][1..] == [];
      }
      if fx == [] {
        assert fi + fx == fi && fi + fl + fx == fi + fl;
      } else {
        assert fi + fx + fl == fi + fx && fi + fl == fi;
      }
    }
  }

  /** Stability: the elements sharing one key keep their relative order. */
  lemma {:induction false} SortByStable<T>(s: seq<T>, key: T -> int, k: int, keep: T -> bool)
    requires forall y :: keep(y) == (key(y) == k)
    ensures Filter(SortBy(s, key), keep) == Filter(s, keep)
  {
    if s != [] {
      var init, last := s[..|s| - 1], s[|s| - 1];
      assert s == init + [last];
      SortByStable(init, key, k, keep);
      InsertStable(SortBy(init, key), last, key, k, keep);
      FilterAppend(init, [last], keep);
    }
  }

  /** Some element of `s` has key `v`. */
  predicate HasKey<T>(s: seq<T>, key: T -> int, v: int) {
    exists i :: 0 <= i < |s| && key(s[i]) == v
  }

  /** A sorted sequence whose keys are distinct and are exactly 0 .. n - 1 has length n
      and key `i` at position `i`. */
  lemma DenseSortedKeys<T>(s: seq<T>, key: T -> int, n: nat)
    requires SortedBy(s, key)
    requires forall i, j :: 0 <= i < j < |s| ==> key(s[i]) != key(s[j])
    requires forall i :: 0 <= i < |s| ==> 0 <= key(s[i]) < n
    requires forall v :: 0 <= v < n ==> HasKey(s, key, v)
    ensures |s| == n
    ensures forall i :: 0 <= i < |s| ==> key(s[i]) == i
  {
    forall i | 0 <= i < |s| ensures key(s[i]) == i {
      DenseAt(s, key, n, i);
    }
    if |s| > 0 {
      assert key(s[|s| - 1]) == |s| - 1;
    }
    if n > 0 {
      assert HasKey(s, key, n - 1);
      var i :| 0 <= i < |s| && key(s[i]) == n - 1;
      assert key(s[i]) == i;
    }
  }

  lemma {:induction false} DenseAt<T>(s: seq<T>, key: T -> int, n: nat, i: nat)
    requires SortedBy(s, key)
    requires forall a, b :: 0 <= a < b < |s| ==> key(s[a]) != key(s[b])
    requires forall a :: 0 <= a < |s| ==> 0 <= key(s[a]) < n
    requires forall v :: 0 <= v < n ==> HasKey(s, key, v)
    requires i < |s|
    ensures key(s[i]) == i
  {
    forall p | 0 <= p < i ensures key(s[p]) == p {
      DenseAt(s, key, n, p);
    }
    // The keys strictly increase from key(s[0]) >= 0, so key(s[i]) >= i ...
    if i > 0 {
      assert key(s[i - 1]) == i - 1;
    }
    assert i <= key(s[i]) < n;
    // ... and key i occurs at a position q >= i, so key(s[i]) <= key(s[q]) == i.
    assert HasKey(s, key, i);
    var q :| 0 <= q < |s| && key(s[q]) == i;
    assert q >= i;
  }

  /** A sorted sequence without repeats that has the same elements as `e`, where `e` holds
      key `i` at position `i`, is `e` itself. */
  lemma SortedMatchesIndexed<T>(r: seq<T>, e: seq<T>, key: T -> int)
    requires SortedBy(r, key) && Distinct(r)
    requires forall x :: x in r <==> x in e
    requires forall i :: 0 <= i < |e| ==> key(e[i]) == i
    ensures r == e
  {
    var n := |e|;
    forall a, b | 0 <= a < b < |r| ensures key(r[a]) != key(r[b]) {
      assert r[a] in r && r[b] in r;
      var i :| 0 <= i < n && e[i] == r[a];
      var j :| 0 <= j < n && e[j] == r[b];
      assert r[a] != r[b];
    }
    forall a | 0 <= a < |r| ensures 0 <= key(r[a]) < n {
      assert r[a] in r;
      var i :| 0 <= i < n && e[i] == r[a];
    }
    forall v | 0 <= v < n ensures HasKey(r, key, v) {
      assert e[v] in e;
      var a :| 0 <= a < |r| && r[a] == e[v];
    }
    DenseSortedKeys(r, key, n);
    forall a | 0 <= a < n ensures r[a] == e[a] {
      assert r[a] in r;
      var i :| 0 <= i < n && e[i] == r[a];
    }
  }
}
