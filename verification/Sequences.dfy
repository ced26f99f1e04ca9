/** Order-preserving operations on sequences used by the services: first occurrence
    per key, selection, and the stable descending sort; and how many integers a range has. */
module Sequences {

  // ---- integer ranges -------------------------------------------------------------

  function Range(lo: int, n: nat): set<int> {
    if n == 0 then {} else Range(lo, n - 1) + {lo + n - 1}
  }

  lemma {:induction false} RangeSize(lo: int, n: nat)
    ensures |Range(lo, n)| == n && forall i :: i in Range(lo, n) <==> lo <= i < lo + n
  {
    if n > 0 {
      RangeSize(lo, n - 1);
    }
  }

  // ---- first occurrence per key -------------------------------------------------

  predicate HasKey<T, K(==)>(items: seq<T>, key: T -> K, k: K) {
    exists i :: 0 <= i < |items| && key(items[i]) == k
  }

  /** Keeps the first item of every key, in order. */
  function DistinctBy<T, K(==)>(items: seq<T>, key: T -> K): seq<T> {
    if items == [] then []
    else
      var kept := DistinctBy(items[..|items| - 1], key);
      var last := items[|items| - 1];
      if HasKey(kept, key, key(last)) then kept else kept + [last]
  }

  ghost predicate UniqueKeys<T, K>(items: seq<T>, key: T -> K) {
    forall i, j :: 0 <= i < j < |items| ==> key(items[i]) != key(items[j])
  }

  /** Nothing is invented, no key is lost, no key is repeated. */
  lemma {:induction false} DistinctByKeys<T, K>(items: seq<T>, key: T -> K)
    ensures UniqueKeys(DistinctBy(items, key), key)
    ensures forall x :: x in DistinctBy(items, key) ==> x in items
    ensures forall k :: HasKey(DistinctBy(items, key), key, k) <==> HasKey(items, key, k)
  {
    if items != [] {
      var init, last := items[..|items| - 1], items[|items| - 1];
      var kept := DistinctBy(init, key);
      DistinctByKeys(init, key);
      assert items == init + [last];
      forall k
        ensures HasKey(DistinctBy(items, key), key, k) <==> HasKey(items, key, k)
      {
        if HasKey(items, key, k) {
          var i :| 0 <= i < |items| && key(items[i]) == k;
          if i < |init| {
            assert key(init[i]) == k;
            assert HasKey(kept, key, k);
            var j :| 0 <= j < |kept| && key(kept[j]) == k;
            assert key(DistinctBy(items, key)[j]) == k;
          } else if !HasKey(kept, key, k) {
            assert DistinctBy(items, key) == kept + [last];
            assert key(DistinctBy(items, key)[|kept|]) == k;
          }
        }
        if HasKey(DistinctBy(items, key), key, k) {
          var i :| 0 <= i < |DistinctBy(items, key)| && key(DistinctBy(items, key)[i]) == k;
          if i < |kept| {
            assert HasKey(kept, key, k);
            var j :| 0 <= j < |init| && key(init[j]) == k;
            assert key(items[j]) == k;
          } else {
            assert key(items[|items| - 1]) == k;
          }
        }
      }
    }
  }

  lemma {:induction false} DistinctByIdentity<T, K>(items: seq<T>, key: T -> K)
    requires UniqueKeys(items, key)
    ensures DistinctBy(items, key) == items
  {
    if items != [] {
      var init := items[..|items| - 1];
      DistinctByIdentity(init, key);
      assert items == init + [items[|items| - 1]];
    }
  }

  /** No earlier item has the key of item j. */
  ghost predicate IsFirst<T, K>(items: seq<T>, key: T -> K, j: nat)
    requires j < |items|
  {
    forall i :: 0 <= i < j ==> key(items[i]) != key(items[j])
  }

  lemma {:induction false} FirstInLonger<T, K>(items: seq<T>, last: T, key: T -> K)
    ensures forall j: nat :: j < |items| ==> (IsFirst(items + [last], key, j) <==> IsFirst(items, key, j))
    ensures IsFirst(items + [last], key, |items|) <==> !HasKey(items, key, key(last))
  {
    var longer := items + [last];
    assert forall i :: 0 <= i < |items| ==> longer[i] == items[i];
    if HasKey(items, key, key(last)) {
      var i :| 0 <= i < |items| && key(items[i]) == key(last);
      assert key(longer[i]) == key(longer[|items|]);
    }
    if !IsFirst(longer, key, |items|) {
      var i :| 0 <= i < |items| && key(longer[i]) == key(longer[|items|]);
      assert key(items[i]) == key(last);
    }
  }

  lemma {:induction false} DistinctByLonger<T, K>(items: seq<T>, last: T, key: T -> K)
    ensures DistinctBy(items + [last], key)
            == if HasKey(items, key, key(last)) then DistinctBy(items, key) else DistinctBy(items, key) + [last]
  {
    assert (items + [last])[..|items|] == items;
    DistinctByKeys(items, key);
    assert HasKey(DistinctBy(items, key), key, key(last)) <==> HasKey(items, key, key(last));
  }

  /** `kept` are the items at the ascending positions `at`, which are those of first occurrences. */
  ghost predicate FirstsAt<T, K>(items: seq<T>, key: T -> K, kept: seq<T>, at: seq<nat>) {
    && |at| == |kept| && (forall i, j :: 0 <= i < j < |at| ==> at[i] < at[j])
    && (forall i :: 0 <= i < |at| ==> at[i] < |items| && kept[i] == items[at[i]])
    && (forall j: nat :: j < |items| ==> (j in at <==> IsFirst(items, key, j)))
  }

  lemma {:induction false} SkipsRepeated<T, K>(items: seq<T>, last: T, key: T -> K, kept: seq<T>, at: seq<nat>)
    requires FirstsAt(items, key, kept, at) && HasKey(items, key, key(last))
    ensures FirstsAt(items + [last], key, kept, at)
  {
    FirstInLonger(items, last, key);
    hide IsFirst, HasKey;
    assert |items| !in at;
  }

  lemma {:induction false} AddsNew<T, K>(items: seq<T>, last: T, key: T -> K, kept: seq<T>, at: seq<nat>)
    requires FirstsAt(items, key, kept, at) && !HasKey(items, key, key(last))
    ensures FirstsAt(items + [last], key, kept + [last], at + [|items|])
  {
    FirstInLonger(items, last, key);
    hide IsFirst, HasKey;
    var longer, at' := items + [last], at + [|items|];
    forall j: nat | j < |longer|
      ensures j in at' <==> IsFirst(longer, key, j)
    {
      assert at'[|at|] == |items|;
      assert j < |items| ==> (j in at' <==> j in at);
    }
  }

  /** Exactly the items whose key no earlier item has are kept, in order. */
  lemma {:induction false} FirstOccurrences<T, K>(items: seq<T>, key: T -> K) returns (at: seq<nat>)
    ensures FirstsAt(items, key, DistinctBy(items, key), at)
  {
    if items == [] {
      at := [];
    } else {
      var init, last := items[..|items| - 1], items[|items| - 1];
      assert items == init + [last];
      at := FirstOccurrences(init, key);
      hide *;
      DistinctByLonger(init, last, key);
      if HasKey(init, key, key(last)) {
        SkipsRepeated(init, last, key, DistinctBy(init, key), at);
      } else {
        AddsNew(init, last, key, DistinctBy(init, key), at);
        at := at + [|init|];
      }
    }
  }

  // ---- selection ------------------------------------------------------------------

  /** The items with key k, in order. */
  function WithKey<T, K(==)>(items: seq<T>, key: T -> K, k: K): seq<T> {
    if items == [] then []
    else
      var init := WithKey(items[..|items| - 1], key, k);
      var last := items[|items| - 1];
      if key(last) == k then init + [last] else init
  }

  lemma {:induction false} WithKeyItems<T, K>(items: seq<T>, key: T -> K, k: K)
    ensures |WithKey(items, key, k)| <= |items|
    ensures forall x :: x in WithKey(items, key, k) <==> x in items && key(x) == k
  {
    if items != [] {
      WithKeyItems(items[..|items| - 1], key, k);
      assert items == items[..|items| - 1] + [items[|items| - 1]];
    }
  }

  lemma {:induction false} WithKeyConcat<T, K>(a: seq<T>, b: seq<T>, key: T -> K, k: K)
    ensures WithKey(a + b, key, k) == WithKey(a, key, k) + WithKey(b, key, k)
  {
    if b == [] {
      assert a + b == a;
    } else {
      var init, last := b[..|b| - 1], b[|b| - 1];
      assert (a + b)[..|a + b| - 1] == a + init;
      WithKeyConcat(a, init, key, k);
    }
  }

  // ---- lexicographic order ----------------------------------------------------------

  /** Python's order on tuples of integers. */
  predicate LexLess(a: seq<int>, b: seq<int>) {
    b != [] && (a == [] || a[0] < b[0] || (a[0] == b[0] && LexLess(a[1..], b[1..])))
  }

  lemma {:induction false} LexTransitive(a: seq<int>, b: seq<int>, c: seq<int>)
    requires !LexLess(b, a) && !LexLess(c, b)
    ensures !LexLess(c, a)
  {
    if a != [] && b != [] && c != [] && a[0] == b[0] == c[0] {
      LexTransitive(a[1..], b[1..], c[1..]);
    }
  }

  lemma {:induction false} LexTotal(a: seq<int>, b: seq<int>)
    ensures LexLess(a, b) || LexLess(b, a) || a == b
    ensures !(LexLess(a, b) && LexLess(b, a))
  {
    if a != [] && b != [] {
      LexTotal(a[1..], b[1..]);
      if a[0] == b[0] && a[1..] == b[1..] {
        assert a == [a[0]] + a[1..] == [b[0]] + b[1..] == b;
      }
    }
  }

  // ---- stable descending sort ---------------------------------------------------------

  /** Puts x behind every item of the descending list whose key is not below its own. */
  function InsertDescending<T>(sorted: seq<T>, x: T, key: T -> seq<int>): seq<T> {
    if sorted == [] || !LexLess(key(sorted[|sorted| - 1]), key(x)) then sorted + [x]
    else InsertDescending(sorted[..|sorted| - 1], x, key) + [sorted[|sorted| - 1]]
  }

  /** `sorted(items, key=key, reverse=True)`: descending, equal keys keep their order. */
  function SortDescending<T>(items: seq<T>, key: T -> seq<int>): seq<T> {
    if items == [] then []
    else InsertDescending(SortDescending(items[..|items| - 1], key), items[|items| - 1], key)
  }

  ghost predicate Descending<T>(items: seq<T>, key: T -> seq<int>) {
    forall i, j :: 0 <= i < j < |items| ==> !LexLess(key(items[i]), key(items[j]))
  }

  lemma {:induction false} InsertKeepsItems<T>(sorted: seq<T>, x: T, key: T -> seq<int>)
    ensures multiset(InsertDescending(sorted, x, key)) == multiset(sorted) + multiset{x}
    ensures |InsertDescending(sorted, x, key)| == |sorted| + 1
  {
    if sorted != [] && LexLess(key(sorted[|sorted| - 1]), key(x)) {
      InsertKeepsItems(sorted[..|sorted| - 1], x, key);
      assert sorted == sorted[..|sorted| - 1] + [sorted[|sorted| - 1]];
    }
  }

  lemma {:induction false} InsertKeepsOrder<T>(sorted: seq<T>, x: T, key: T -> seq<int>)
    requires Descending(sorted, key)
    ensures Descending(InsertDescending(sorted, x, key), key)
  {
    var r := InsertDescending(sorted, x, key);
    if sorted != [] {
      var init, last := sorted[..|sorted| - 1], sorted[|sorted| - 1];
      if LexLess(key(last), key(x)) {
        InsertKeepsOrder(init, x, key);
        InsertKeepsItems(init, x, key);
        LexTotal(key(last), key(x));
        var head := InsertDescending(init, x, key);
        forall i | 0 <= i < |head|
          ensures !LexLess(key(head[i]), key(last))
        {
          assert head[i] in multiset(head);
          if head[i] != x {
            assert head[i] in multiset(init);
            var j :| 0 <= j < |init| && init[j] == head[i];
            assert sorted[j] == head[i];
          }
        }
      } else {
        forall i | 0 <= i < |sorted|
          ensures !LexLess(key(sorted[i]), key(x))
        {
          if i < |sorted| - 1 {
            LexTransitive(key(x), key(last), key(sorted[i]));
          }
        }
      }
    }
  }

  /** The sort is a permutation in descending key order. */
  lemma {:induction false} SortIsDescendingPermutation<T>(items: seq<T>, key: T -> seq<int>)
    ensures multiset(SortDescending(items, key)) == multiset(items)
    ensures |SortDescending(items, key)| == |items|
    ensures Descending(SortDescending(items, key), key)
  {
    if items != [] {
      var init, last := items[..|items| - 1], items[|items| - 1];
      SortIsDescendingPermutation(init, key);
      InsertKeepsItems(SortDescending(init, key), last, key);
      InsertKeepsOrder(SortDescending(init, key), last, key);
      assert items == init + [last];
    }
  }

  /** A list already in order is left alone: this is where stability is needed. */
  lemma {:induction false} SortOfDescending<T>(items: seq<T>, key: T -> seq<int>)
    requires Descending(items, key)
    ensures SortDescending(items, key) == items
  {
    if items != [] {
      var init, last := items[..|items| - 1], items[|items| - 1];
      SortOfDescending(init, key);
      assert items == init + [last];
      if init != [] {
        assert init[|init| - 1] == items[|items| - 2];
      }
    }
  }

  lemma {:induction false} InsertIsStable<T>(sorted: seq<T>, x: T, key: T -> seq<int>, k: seq<int>)
    ensures WithKey(InsertDescending(sorted, x, key), key, k) == WithKey(sorted + [x], key, k)
  {
    if sorted != [] && LexLess(key(sorted[|sorted| - 1]), key(x)) {
      var init, last := sorted[..|sorted| - 1], sorted[|sorted| - 1];
      InsertIsStable(init, x, key, k);
      assert sorted == init + [last];
      WithKeyConcat(InsertDescending(init, x, key), [last], key, k);
      WithKeyConcat(init, [x], key, k);
      WithKeyConcat(init, [last], key, k);
      WithKeyConcat(init + [last], [x], key, k);
      LexTotal(key(last), key(x));
    }
  }

  /** Items with equal keys keep their input order. */
  lemma {:induction false} SortIsStable<T>(items: seq<T>, key: T -> seq<int>, k: seq<int>)
    ensures WithKey(SortDescending(items, key), key, k) == WithKey(items, key, k)
  {
    if items != [] {
      var init, last := items[..|items| - 1], items[|items| - 1];
      SortIsStable(init, key, k);
      InsertIsStable(SortDescending(init, key), last, key, k);
      WithKeyConcat(SortDescending(init, key), [last], key, k);
      WithKeyConcat(init, [last], key, k);
      assert items == init + [last];
    }
  }

  lemma {:induction false} DescendingHead<T>(a: seq<T>, b: seq<T>, key: T -> seq<int>)
    requires a != [] && b != [] && multiset(a) == multiset(b)
    requires Descending(a, key) && Descending(b, key) && UniqueKeys(a, key)
    ensures a[0] == b[0]
  {
    assert a[0] in multiset(b) && b[0] in multiset(a);
    var i :| 0 <= i < |b| && b[i] == a[0];
    var j :| 0 <= j < |a| && a[j] == b[0];
    LexTotal(key(a[0]), key(b[0]));
  }

  /** When keys are pairwise different the sorted list depends on the items only, not on
      the order they came in. */
  lemma {:induction false} DescendingIsUnique<T>(a: seq<T>, b: seq<T>, key: T -> seq<int>)
    requires multiset(a) == multiset(b)
    requires Descending(a, key) && Descending(b, key) && UniqueKeys(a, key)
    ensures a == b
  {
    assert |multiset(a)| == |a| && |multiset(b)| == |b|;
    if a != [] {
      DescendingHead(a, b, key);
      assert a == [a[0]] + a[1..] && b == [b[0]] + b[1..];
      assert multiset(a[1..]) == multiset(a) - multiset{a[0]};
      assert multiset(b[1..]) == multiset(b) - multiset{b[0]};
      DescendingIsUnique(a[1..], b[1..], key);
    }
  }
}
