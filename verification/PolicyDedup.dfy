/** The online record linkage of policy_dedup_service.py: slots, a key-to-slot index and
    in-place folding of slots that turn out to hold the same policy. */
module PolicyDedup {
  import opened Wrappers
  import opened Sequences
  import opened PolicyDocuments

  /** What a slot holds, with its history: the input positions folded into it and the order
      of the merges. `Eval` gives the document the program keeps. */
  datatype Tree = Leaf(pos: nat, doc: Document) | Node(left: Tree, right: Tree)

  function Eval(t: Tree): Document {
    match t
    case Leaf(_, doc) => doc
    case Node(left, right) => Merge(Eval(left), Eval(right))
  }

  function Leaves(t: Tree): set<nat> {
    match t
    case Leaf(pos, _) => {pos}
    case Node(left, right) => Leaves(left) + Leaves(right)
  }

  /** A vacated slot is None. The index may keep keys of documents that left their slot. */
  datatype State = State(slots: seq<Option<Tree>>, index: map<Key, nat>, dedupedCount: nat)

  predicate InRange(s: State) {
    forall k :: k in s.index ==> s.index[k] < |s.slots|
  }

  // ---- one step -------------------------------------------------------------------------

  function Matched(s: State, d: Document): set<nat> {
    set k | k in KeySet(d) && k in s.index :: s.index[k]
  }

  ghost predicate Ascending(xs: seq<nat>) {
    forall i, j :: 0 <= i < j < |xs| ==> xs[i] < xs[j]
  }

  ghost predicate IsLeast(x: nat, s: set<nat>) {
    x in s && forall y :: y in s ==> x <= y
  }

  lemma {:induction false} LeastExists(s: set<nat>) returns (x: nat)
    requires s != {}
    ensures IsLeast(x, s)
  {
    x :| x in s;
    if s != {x} {
      var rest := s - {x};
      var z := LeastExists(rest);
      forall y | y in s
        ensures (if x <= z then x else z) <= y
      {
        assert y == x || y in rest;
      }
      x := if x <= z then x else z;
    }
  }

  function Least(s: set<nat>): (x: nat)
    requires s != {}
    ensures IsLeast(x, s)
  {
    assert exists x :: x in s && forall y :: y in s ==> x <= y by {
      var x := LeastExists(s);
    }
    var x :| x in s && forall y :: y in s ==> x <= y;
    x
  }

  /** `sorted` of a set of slot numbers. */
  function SortedIndexes(s: set<nat>): seq<nat> {
    if s == {} then []
    else [Least(s)] + SortedIndexes(s - {Least(s)})
  }

  lemma {:induction false} SortedIndexesFacts(s: set<nat>)
    ensures forall x :: x in SortedIndexes(s) <==> x in s
    ensures Ascending(SortedIndexes(s))
  {
    if s != {} {
      SortedIndexesFacts(s - {Least(s)});
      var rest := SortedIndexes(s - {Least(s)});
      assert forall j :: 0 <= j < |rest| ==> rest[j] in s - {Least(s)};
    }
  }

  function Reindex(index: map<Key, nat>, keys: set<Key>, slot: nat): map<Key, nat> {
    index + map k | k in keys :: slot
  }

  predicate Foldable(slots: seq<Option<Tree>>, target: nat, extras: seq<nat>) {
    && target < |slots| && slots[target].Some?
    && forall i :: 0 <= i < |extras| ==> extras[i] < |slots| && extras[i] != target
  }

  /** Folds slot e into the target and vacates e; a slot already vacated is skipped. */
  function Absorb(slots: seq<Option<Tree>>, target: nat, e: nat): (r: seq<Option<Tree>>)
    requires target < |slots| && slots[target].Some? && e < |slots| && e != target
    ensures |r| == |slots| && r[target].Some?
  {
    if slots[e].None? then slots
    else slots[target := Some(Node(slots[target].value, slots[e].value))][e := None]
  }

  function FoldExtras(slots: seq<Option<Tree>>, target: nat, extras: seq<nat>): (r: seq<Option<Tree>>)
    requires Foldable(slots, target, extras)
    ensures |r| == |slots| && r[target].Some?
  {
    if extras == [] then slots
    else
      Absorb(FoldExtras(slots, target, extras[..|extras| - 1]), target, extras[|extras| - 1])
  }

  /** Puts an arriving document on a slot: merged behind the occupant, or alone on a slot
      that was vacated. */
  function Occupant(slot: Option<Tree>, pos: nat, d: Document): Tree {
    match slot
    case None => Leaf(pos, d)
    case Some(t) => Node(t, Leaf(pos, d))
  }

  function Step(s: State, pos: nat, d: Document): (r: State)
    requires InRange(s)
    ensures InRange(r)
  {
    var matched := SortedIndexes(Matched(s, d));
    if matched == [] then
      State(s.slots + [Some(Leaf(pos, d))], Reindex(s.index, KeySet(d), |s.slots|), s.dedupedCount)
    else
      MatchedIsFoldable(s, d);
      var target := matched[0];
      var placed := s.slots[target := Some(Occupant(s.slots[target], pos, d))];
      var slots := FoldExtras(placed, target, matched[1..]);
      State(slots, Reindex(s.index, KeySet(Eval(slots[target].value)), target), s.dedupedCount + 1)
  }

  lemma {:induction false} MatchedIsFoldable(s: State, d: Document)
    requires InRange(s) && SortedIndexes(Matched(s, d)) != []
    ensures var matched := SortedIndexes(Matched(s, d));
      && matched[0] < |s.slots|
      && (forall i :: 1 <= i < |matched| ==> matched[i] < |s.slots| && matched[i] != matched[0])
  {
    var matched := SortedIndexes(Matched(s, d));
    SortedIndexesFacts(Matched(s, d));
    assert forall i :: 0 <= i < |matched| ==> matched[i] in matched;
  }

  /** The slots after all documents, in arrival order. */
  function Run(docs: seq<Document>): (r: State)
    ensures InRange(r)
  {
    if docs == [] then State([], map[], 0)
    else Step(Run(docs[..|docs| - 1]), |docs| - 1, docs[|docs| - 1])
  }

  // ---- the result --------------------------------------------------------------------------

  function Live(slots: seq<Option<Tree>>): seq<Tree> {
    if slots == [] then []
    else
      var init := Live(slots[..|slots| - 1]);
      var last := slots[|slots| - 1];
      if last.None? then init else init + [last.value]
  }

  function EvalAll(trees: seq<Tree>): (r: seq<Document>)
    ensures |r| == |trees| && forall i :: 0 <= i < |r| ==> r[i] == Eval(trees[i])
  {
    seq(|trees|, i requires 0 <= i < |trees| => Eval(trees[i]))
  }

  function SortKey(d: Document): seq<int> {
    [d.publishedAt.GetOr(0), Score(d)]
  }

  function Survivors(docs: seq<Document>): seq<Document> {
    SortDescending(EvalAll(Live(Run(docs).slots)), SortKey)
  }

  // ---- the program ----------------------------------------------------------------------------

  /** The slot list as the program holds it: the histories erased. */
  ghost predicate Erases(slots: seq<Option<Document>>, trees: seq<Option<Tree>>) {
    && |slots| == |trees|
    && forall i :: 0 <= i < |slots| ==>
         slots[i] == (match trees[i] case None => None case Some(t) => Some(Eval(t)))
  }

  method CollectLive(slots: seq<Option<Document>>, ghost trees: seq<Option<Tree>>)
    returns (documents: seq<Document>)
    requires Erases(slots, trees)
    ensures documents == EvalAll(Live(trees))
  {
    documents := [];
    for i := 0 to |slots|
      invariant documents == EvalAll(Live(trees[..i]))
    {
      assert trees[..i + 1][..i] == trees[..i];
      if slots[i].Some? {
        documents := documents + [slots[i].value];
      }
    }
    assert trees[..|slots|] == trees;
  }

  method DedupePolicyDocuments(documents: seq<Document>)
    returns (result: seq<Document>, dedupedCount: nat)
    ensures result == Survivors(documents)
    ensures dedupedCount == Run(documents).dedupedCount
  {
    var slots: seq<Option<Document>> := [];
    var keyToIndex: map<Key, nat> := map[];
    dedupedCount := 0;
    for n := 0 to |documents|
      invariant Erases(slots, Run(documents[..n]).slots)
      invariant keyToIndex == Run(documents[..n]).index
      invariant dedupedCount == Run(documents[..n]).dedupedCount
    {
      assert documents[..n + 1][..n] == documents[..n];
      ghost var s := Run(documents[..n]);
      var matchedIndexes := MatchIndexes(keyToIndex, documents[n], s);
      if matchedIndexes == [] {
        slots, keyToIndex := AppendDocument(slots, keyToIndex, documents[n], s, n);
      } else {
        slots, keyToIndex := FoldDocument(slots, keyToIndex, documents[n], matchedIndexes, s, n);
        dedupedCount := dedupedCount + 1;
      }
    }
    assert documents[..|documents|] == documents;
    var live := CollectLive(slots, Run(documents).slots);
    result := SortDescending(live, SortKey);
  }

  method MatchIndexes(keyToIndex: map<Key, nat>, d: Document, ghost s: State) returns (matched: seq<nat>)
    requires keyToIndex == s.index
    ensures matched == SortedIndexes(Matched(s, d))
  {
    var keys := BuildDedupKeys(d);
    matched := SortedIndexes(set k | k in keys && k in keyToIndex :: keyToIndex[k]);
    assert (set k | k in keys && k in keyToIndex :: keyToIndex[k]) == Matched(s, d);
  }

  method AppendDocument(slots: seq<Option<Document>>, keyToIndex: map<Key, nat>, d: Document,
                        ghost s: State, ghost pos: nat)
    returns (slots': seq<Option<Document>>, keyToIndex': map<Key, nat>)
    requires InRange(s) && Erases(slots, s.slots) && keyToIndex == s.index
    requires SortedIndexes(Matched(s, d)) == []
    ensures Erases(slots', Step(s, pos, d).slots)
    ensures keyToIndex' == Step(s, pos, d).index
  {
    slots' := slots + [Some(d)];
    var keys := BuildDedupKeys(d);
    assert KeysIn(keys) == KeySet(d);
    keyToIndex' := PointKeys(keyToIndex, keys, |slots|);
  }

  method FoldDocument(slots: seq<Option<Document>>, keyToIndex: map<Key, nat>, d: Document,
                      matchedIndexes: seq<nat>, ghost s: State, ghost pos: nat)
    returns (slots': seq<Option<Document>>, keyToIndex': map<Key, nat>)
    requires InRange(s) && Erases(slots, s.slots) && keyToIndex == s.index
    requires matchedIndexes == SortedIndexes(Matched(s, d)) && matchedIndexes != []
    ensures Erases(slots', Step(s, pos, d).slots)
    ensures keyToIndex' == Step(s, pos, d).index
  {
    MatchedIsFoldable(s, d);
    var target := matchedIndexes[0];
    var merged := if slots[target].None? then d else Merge(slots[target].value, d);
    ghost var placed := s.slots[target := Some(Occupant(s.slots[target], pos, d))];
    slots' := FoldInto(slots[target := Some(merged)], placed, target, matchedIndexes[1..]);
    var keys := BuildDedupKeys(slots'[target].value);
    assert KeysIn(keys) == KeySet(slots'[target].value);
    keyToIndex' := PointKeys(keyToIndex, keys, target);
  }

  function KeysIn(keys: seq<Key>): set<Key> {
    set k | k in keys
  }

  lemma {:induction false} ReindexOneMore(index: map<Key, nat>, keys: seq<Key>, i: nat, slot: nat)
    requires i < |keys|
    ensures Reindex(index, KeysIn(keys[..i + 1]), slot) == Reindex(index, KeysIn(keys[..i]), slot)[keys[i] := slot]
  {
    assert keys[..i + 1] == keys[..i] + [keys[i]];
    assert KeysIn(keys[..i + 1]) == KeysIn(keys[..i]) + {keys[i]};
  }

  method PointKeys(index: map<Key, nat>, keys: seq<Key>, slot: nat) returns (r: map<Key, nat>)
    ensures r == Reindex(index, KeysIn(keys), slot)
  {
    r := index;
    for i := 0 to |keys|
      invariant r == Reindex(index, KeysIn(keys[..i]), slot)
    {
      ReindexOneMore(index, keys, i, slot);
      r := r[keys[i] := slot];
    }
    assert keys[..|keys|] == keys;
  }

  method FoldInto(slots: seq<Option<Document>>, ghost trees: seq<Option<Tree>>, target: nat, extras: seq<nat>)
    returns (r: seq<Option<Document>>)
    requires Foldable(trees, target, extras) && Erases(slots, trees)
    ensures Erases(r, FoldExtras(trees, target, extras))
  {
    r := slots;
    assert extras[..0] == [];
    for i := 0 to |extras|
      invariant Foldable(trees, target, extras[..i])
      invariant Erases(r, FoldExtras(trees, target, extras[..i]))
    {
      var e := extras[i];
      assert extras[..i + 1][..i] == extras[..i];
      ghost var before := FoldExtras(trees, target, extras[..i]);
      assert FoldExtras(trees, target, extras[..i + 1]) == Absorb(before, target, e);
      if r[e].None? {
        continue;
      }
      r := r[target := Some(Merge(r[target].value, r[e].value))];
      r := r[e := None];
    }
    assert extras[..|extras|] == extras;
  }
}
