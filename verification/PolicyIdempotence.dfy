/** Deduplicating a deduplicated list changes nothing, exactly when no two survivors share a
    key. */
module PolicyIdempotence {
  import opened Wrappers
  import opened Sequences
  import opened PolicyDocuments
  import opened PolicyDedup
  import opened PolicyProvenance
  import opened PolicyLinkage

  ghost predicate SomeHolds(docs: seq<Document>, k: Key) {
    exists i :: 0 <= i < |docs| && k in KeySet(docs[i])
  }

  /** The run that never folds: one slot per input, and the index holds exactly their keys. */
  ghost predicate AllOpened(docs: seq<Document>, s: State) {
    && |s.slots| == |docs|
    && (forall i :: 0 <= i < |docs| ==> s.slots[i] == Some(Leaf(i, docs[i])))
    && (forall k :: k in s.index <==> SomeHolds(docs, k))
  }

  lemma {:induction false} SomeHoldsExtends(docs: seq<Document>, d: Document, k: Key)
    ensures SomeHolds(docs + [d], k) <==> SomeHolds(docs, k) || k in KeySet(d)
  {
    if SomeHolds(docs, k) {
      var i :| 0 <= i < |docs| && k in KeySet(docs[i]);
      assert k in KeySet((docs + [d])[i]);
    }
    if k in KeySet(d) {
      assert k in KeySet((docs + [d])[|docs|]);
    }
  }

  lemma {:induction false} OpensWhenUnmatched(docs: seq<Document>, s: State, d: Document)
    requires InRange(s) && AllOpened(docs, s)
    ensures SortedIndexes(Matched(s, d)) == [] <==>
              forall i :: 0 <= i < |docs| ==> KeySet(docs[i]) !! KeySet(d)
  {
    SortedIndexesFacts(Matched(s, d));
    if SortedIndexes(Matched(s, d)) == [] {
      forall i, k | 0 <= i < |docs| && k in KeySet(docs[i])
        ensures k !in KeySet(d)
      {
        assert SomeHolds(docs, k);
        if k in KeySet(d) {
          MatchedSlot(s, d, k);
        }
      }
    } else {
      var m := SortedIndexes(Matched(s, d))[0];
      assert m in Matched(s, d);
      var k :| k in KeySet(d) && k in s.index && s.index[k] == m;
      assert SomeHolds(docs, k);
      var i :| 0 <= i < |docs| && k in KeySet(docs[i]);
    }
  }

  lemma {:induction false} StepOpens(docs: seq<Document>, s: State, d: Document)
    requires InRange(s) && AllOpened(docs, s) && SortedIndexes(Matched(s, d)) == []
    ensures AllOpened(docs + [d], Step(s, |docs|, d))
  {
    forall k
      ensures k in Step(s, |docs|, d).index <==> SomeHolds(docs + [d], k)
    {
      SomeHoldsExtends(docs, d, k);
    }
  }

  lemma {:induction false} DisjointLast(docs: seq<Document>, d: Document)
    ensures KeyDisjoint(docs + [d]) <==>
              KeyDisjoint(docs) && forall i :: 0 <= i < |docs| ==> KeySet(docs[i]) !! KeySet(d)
  {
    if KeyDisjoint(docs + [d]) {
      forall i, j | 0 <= i < j < |docs|
        ensures KeySet(docs[i]) !! KeySet(docs[j])
      {
        assert KeySet((docs + [d])[i]) !! KeySet((docs + [d])[j]);
      }
      forall i | 0 <= i < |docs|
        ensures KeySet(docs[i]) !! KeySet(d)
      {
        assert KeySet((docs + [d])[i]) !! KeySet((docs + [d])[|docs|]);
      }
    }
  }

  /** The counter stays 0 exactly when the inputs are pairwise key-disjoint. */
  lemma {:induction false} FoldsNothing(docs: seq<Document>)
    ensures Run(docs).dedupedCount == 0 <==> KeyDisjoint(docs)
    ensures KeyDisjoint(docs) ==> AllOpened(docs, Run(docs))
  {
    if docs != [] {
      var init, last := docs[..|docs| - 1], docs[|docs| - 1];
      assert docs == init + [last];
      FoldsNothing(init);
      DisjointLast(init, last);
      if KeyDisjoint(init) {
        OpensWhenUnmatched(init, Run(init), last);
        if SortedIndexes(Matched(Run(init), last)) == [] {
          StepOpens(init, Run(init), last);
        }
      }
    }
  }

  lemma {:induction false} LiveOfOpened(docs: seq<Document>, slots: seq<Option<Tree>>)
    requires |slots| == |docs| && forall i :: 0 <= i < |docs| ==> slots[i] == Some(Leaf(i, docs[i]))
    ensures EvalAll(Live(slots)) == docs
  {
    if docs != [] {
      LiveOfOpened(docs[..|docs| - 1], slots[..|docs| - 1]);
      assert EvalAll(Live(slots)) == docs[..|docs| - 1] + [docs[|docs| - 1]];
    }
  }

  ghost predicate DedupChangesNothing(docs: seq<Document>) {
    Survivors(docs) == docs && Run(docs).dedupedCount == 0
  }

  /** A second pass returns the identical list with nothing folded, exactly when the
      survivors of the first are pairwise key-disjoint. */
  lemma {:induction false} SecondPass(docs: seq<Document>)
    ensures DedupChangesNothing(Survivors(docs)) <==> KeyDisjoint(Survivors(docs))
  {
    var out := Survivors(docs);
    FoldsNothing(out);
    if KeyDisjoint(out) {
      LiveOfOpened(out, Run(out).slots);
      SortIsDescendingPermutation(EvalAll(Live(Run(docs).slots)), SortKey);
      SortOfDescending(out, SortKey);
    }
  }

  lemma {:induction false} DedupIsIdempotent(docs: seq<Document>)
    requires NoMinting(docs)
    ensures DedupChangesNothing(Survivors(docs))
  {
    SurvivorsAreKeyDisjoint(docs);
    SecondPass(docs);
  }
}
