/** What the dedup loop links together, and what it keeps apart. A merge can pair one document's
    source with another document's id: keeping survivors apart needs that this cannot happen
    (`NoMinting`), linking only what belongs together that no input holds such a pair
    (`MintsUnheld`). */
module PolicyLinkage {
  import opened Wrappers
  import opened Sequences
  import opened PolicyDocuments
  import opened PolicyDedup
  import opened PolicyProvenance

  // ---- the condition ------------------------------------------------------------------

  /** No document without an id of its own meets a document with an id from another source. */
  ghost predicate NoMinting(docs: seq<Document>) {
    forall i, j :: 0 <= i < |docs| && 0 <= j < |docs| ==> !CanMint(docs[i], docs[j])
  }

  /** The condition holds when every input has an id, and when all inputs share one source. */
  lemma {:induction false} OwnIdsOrOneSource(docs: seq<Document>)
    requires (forall i :: 0 <= i < |docs| ==> Truthy(docs[i].sourceDocumentId))
          || (forall i, j :: 0 <= i < |docs| && 0 <= j < |docs| ==> docs[i].source == docs[j].source)
    ensures NoMinting(docs)
  {
  }

  lemma {:induction false} IdlessSource(docs: seq<Document>, t: Tree) returns (p: nat)
    requires Faithful(docs, t) && !Truthy(Eval(t).sourceDocumentId)
    ensures p in Leaves(t) && p < |docs|
    ensures docs[p].source == Eval(t).source && !Truthy(docs[p].sourceDocumentId)
  {
    match t
    case Leaf(pos, _) =>
      p := pos;
    case Node(left, right) =>
      if RightIsPrimary(Eval(left), Eval(right)) {
        p := IdlessSource(docs, right);
      } else {
        p := IdlessSource(docs, left);
      }
  }

  lemma {:induction false} IdSource(docs: seq<Document>, t: Tree) returns (p: nat)
    requires Faithful(docs, t) && NoMinting(docs) && NormalizeKeyText(Eval(t).sourceDocumentId).Some?
    ensures p in Leaves(t) && p < |docs|
    ensures docs[p].source == Eval(t).source && docs[p].sourceDocumentId == Eval(t).sourceDocumentId
    decreases t, 0
  {
    match t
    case Leaf(pos, _) =>
      p := pos;
    case Node(left, right) =>
      var primary, secondary := if RightIsPrimary(Eval(left), Eval(right)) then right else left,
                                if RightIsPrimary(Eval(left), Eval(right)) then left else right;
      if Truthy(Eval(primary).sourceDocumentId) {
        p := IdSource(docs, primary);
      } else {
        UntruthyHasNoKey(Eval(primary).sourceDocumentId);
        var q := IdlessSource(docs, primary);
        p := IdSource(docs, secondary);
        assert !CanMint(docs[q], docs[p]);
      }
  }

  lemma {:induction false} HistoriesDoNotMint(docs: seq<Document>, a: Tree, b: Tree)
    requires NoMinting(docs) && Faithful(docs, a) && Faithful(docs, b)
    ensures !CanMint(Eval(a), Eval(b))
  {
    if CanMint(Eval(a), Eval(b)) {
      var p := IdlessSource(docs, a);
      var q := IdSource(docs, b);
      assert CanMint(docs[p], docs[q]);
    }
  }

  lemma {:induction false} NodeKeys(docs: seq<Document>, left: Tree, right: Tree)
    requires NoMinting(docs) && Faithful(docs, left) && Faithful(docs, right)
    ensures KeySet(Eval(Node(left, right))) <= KeySet(Eval(left)) + KeySet(Eval(right))
  {
    HistoriesDoNotMint(docs, left, right);
    HistoriesDoNotMint(docs, right, left);
    MergeKeys(Eval(left), Eval(right));
  }

  /** The pairs of a source and an id that merges of the inputs can put together. */
  ghost function Mintable(docs: seq<Document>): set<Key> {
    set i, j | 0 <= i < |docs| && 0 <= j < |docs| && CanMint(docs[i], docs[j]) :: MintedKey(docs[i], docs[j])
  }

  /** The keys hold everything the inputs can mint, and no input has one of them. */
  ghost predicate Unheld(docs: seq<Document>, minted: set<Key>) {
    Mintable(docs) <= minted && forall i :: 0 <= i < |docs| ==> KeySet(docs[i]) !! minted
  }

  /** No input holds a pair of a source and an id that others could mint. */
  ghost predicate MintsUnheld(docs: seq<Document>) {
    Unheld(docs, Mintable(docs))
  }

  lemma {:induction false} NoMintingMintsNothing(docs: seq<Document>)
    requires NoMinting(docs)
    ensures Mintable(docs) == {} && MintsUnheld(docs)
  {
  }

  lemma {:induction false} UnheldShrinks(docs: seq<Document>, d: Document, minted: set<Key>)
    requires Unheld(docs + [d], minted)
    ensures Unheld(docs, minted) && KeySet(d) !! minted
  {
    var docs' := docs + [d];
    assert docs'[|docs|] == d;
    forall i | 0 <= i < |docs|
      ensures KeySet(docs[i]) !! minted
    {
      assert docs'[i] == docs[i];
    }
    forall k | k in Mintable(docs)
      ensures k in minted
    {
      var i, j :| 0 <= i < |docs| && 0 <= j < |docs| && CanMint(docs[i], docs[j]) && MintedKey(docs[i], docs[j]) == k;
      assert docs'[i] == docs[i] && docs'[j] == docs[j];
      assert k in Mintable(docs');
    }
  }

  lemma {:induction false} IdLeaf(docs: seq<Document>, t: Tree) returns (p: nat)
    requires Faithful(docs, t) && Truthy(Eval(t).sourceDocumentId)
    ensures p in Leaves(t) && p < |docs| && docs[p].sourceDocumentId == Eval(t).sourceDocumentId
  {
    match t
    case Leaf(pos, _) =>
      p := pos;
    case Node(left, right) =>
      var primary, secondary := if RightIsPrimary(Eval(left), Eval(right)) then right else left,
                                if RightIsPrimary(Eval(left), Eval(right)) then left else right;
      if Truthy(Eval(primary).sourceDocumentId) {
        p := IdLeaf(docs, primary);
      } else {
        p := IdLeaf(docs, secondary);
      }
  }

  lemma {:induction false} PairMints(docs: seq<Document>, i: nat, j: nat)
    requires i < |docs| && j < |docs|
    ensures CanMint(docs[i], docs[j]) ==> MintedKey(docs[i], docs[j]) in Mintable(docs)
  {
  }

  /** A key a history adds is held by one of its inputs or can be minted by two of them. */
  lemma {:induction false} AddedKeyOrigin(docs: seq<Document>, primary: Tree, secondary: Tree, k: Key) returns (p: nat)
    requires Faithful(docs, primary) && Faithful(docs, secondary)
    requires CanMint(Eval(primary), Eval(secondary)) && k == MintedKey(Eval(primary), Eval(secondary)) && k !in Mintable(docs)
    ensures p in Leaves(secondary) && p < |docs| && k in KeySet(docs[p])
  {
    if !Truthy(Eval(secondary).sourceDocumentId) {
      UntruthyHasNoKey(Eval(secondary).sourceDocumentId);
    }
    var i := IdlessSource(docs, primary);
    p := IdLeaf(docs, secondary);
    assert MintedKey(docs[i], docs[p]) == k;
    PairMints(docs, i, p);
  }

  /** Apart from keys the inputs can mint, a history's document has only keys of its inputs. */
  lemma {:induction false} KeyFromLeaf(docs: seq<Document>, t: Tree, k: Key) returns (p: nat)
    requires Faithful(docs, t) && k in KeySet(Eval(t)) && k !in Mintable(docs)
    ensures p in Leaves(t) && p < |docs| && k in KeySet(docs[p])
  {
    match t
    case Leaf(pos, _) =>
      p := pos;
    case Node(left, right) =>
      if k in KeySet(Eval(left)) {
        p := KeyFromLeaf(docs, left, k);
      } else if k in KeySet(Eval(right)) {
        p := KeyFromLeaf(docs, right, k);
      } else if RightIsPrimary(Eval(left), Eval(right)) {
        AddedKey(Eval(right), Eval(left), k);
        p := AddedKeyOrigin(docs, right, left, k);
      } else {
        AddedKey(Eval(left), Eval(right), k);
        p := AddedKeyOrigin(docs, left, right, k);
      }
  }

  // ---- the index knows every live key ---------------------------------------------------

  function KeysAt(slot: Option<Tree>): set<Key> {
    match slot
    case None => {}
    case Some(t) => KeySet(Eval(t))
  }

  predicate PointsTo(index: map<Key, nat>, k: Key, i: nat) {
    k in index && index[k] == i
  }

  /** The keys of every slot's document. */
  function KeyRow(slots: seq<Option<Tree>>): (r: seq<set<Key>>)
    ensures |r| == |slots| && forall i :: 0 <= i < |r| ==> r[i] == KeysAt(slots[i])
  {
    seq(|slots|, i requires 0 <= i < |slots| => KeysAt(slots[i]))
  }

  ghost predicate Owns(index: map<Key, nat>, row: seq<set<Key>>) {
    forall i, k :: 0 <= i < |row| && k in row[i] ==> PointsTo(index, k, i)
  }

  /** Each key of a live slot's document maps to that slot. */
  ghost predicate Indexed(s: State) {
    Owns(s.index, KeyRow(s.slots))
  }

  /** While slots are folded into the target: the others still own their keys, and share none
      with the target unless they are about to be folded. */
  ghost predicate Folding(index: map<Key, nat>, row: seq<set<Key>>, target: nat, rest: seq<nat>)
    requires target < |row|
  {
    && (forall i, k :: 0 <= i < |row| && i != target && k in row[i] ==> PointsTo(index, k, i))
    && (forall i, k :: 0 <= i < |row| && i != target && k in row[i] && k in row[target] ==> i in rest)
  }

  lemma {:induction false} AbsorbRow(index: map<Key, nat>, row: seq<set<Key>>, row': seq<set<Key>>, target: nat, rest: seq<nat>)
    requires rest != [] && |row| == |row'| && target < |row| && rest[0] < |row| && rest[0] != target
    requires row'[target] <= row[target] + row[rest[0]] && row'[rest[0]] == {}
    requires forall i :: 0 <= i < |row| && i != target && i != rest[0] ==> row'[i] == row[i]
    requires Folding(index, row, target, rest)
    ensures Folding(index, row', target, rest[1..])
  {
    assert rest == [rest[0]] + rest[1..];
    assert forall k :: k in row[rest[0]] ==> PointsTo(index, k, rest[0]);
    assert forall i, k :: 0 <= i < |row'| && i != target && k in row'[i] ==> PointsTo(index, k, i);
  }

  lemma {:induction false} AbsorbFolding(docs: seq<Document>, index: map<Key, nat>, slots: seq<Option<Tree>>, target: nat, rest: seq<nat>)
    requires NoMinting(docs) && Partition(docs, slots)
    requires Foldable(slots, target, rest) && rest != []
    requires Folding(index, KeyRow(slots), target, rest)
    ensures Folding(index, KeyRow(Absorb(slots, target, rest[0])), target, rest[1..])
  {
    var e := rest[0];
    if slots[e].Some? {
      NodeKeys(docs, slots[target].value, slots[e].value);
    }
    AbsorbRow(index, KeyRow(slots), KeyRow(Absorb(slots, target, e)), target, rest);
  }

  lemma {:induction false} FoldFolding(docs: seq<Document>, index: map<Key, nat>, slots: seq<Option<Tree>>,
                                       target: nat, extras: seq<nat>, n: nat)
    requires NoMinting(docs) && Partition(docs, slots)
    requires Foldable(slots, target, extras) && n <= |extras|
    requires Folding(index, KeyRow(slots), target, extras)
    ensures Folding(index, KeyRow(FoldExtras(slots, target, extras[..n])), target, extras[n..])
  {
    if n > 0 {
      var done := extras[..n - 1];
      FoldFolding(docs, index, slots, target, extras, n - 1);
      FoldPartition(docs, slots, target, done);
      var before := FoldExtras(slots, target, done);
      assert extras[..n][..n - 1] == done && extras[..n][n - 1] == extras[n - 1];
      assert extras[n - 1..][1..] == extras[n..] && extras[n - 1..][0] == extras[n - 1];
      AbsorbFolding(docs, index, before, target, extras[n - 1..]);
    }
  }

  lemma {:induction false} MatchedSlot(s: State, d: Document, k: Key)
    requires k in KeySet(d) && k in s.index
    ensures s.index[k] in SortedIndexes(Matched(s, d))
  {
    SortedIndexesFacts(Matched(s, d));
    assert s.index[k] in Matched(s, d);
  }

  lemma {:induction false} PlaceRow(index: map<Key, nat>, row: seq<set<Key>>, row': seq<set<Key>>, keys: set<Key>, matched: seq<nat>)
    requires matched != [] && |row| == |row'| && matched[0] < |row|
    requires row'[matched[0]] <= row[matched[0]] + keys
    requires forall i :: 0 <= i < |row| && i != matched[0] ==> row'[i] == row[i]
    requires Owns(index, row)
    requires forall k :: k in keys && k in index ==> index[k] in matched
    ensures Folding(index, row', matched[0], matched[1..])
  {
    var target := matched[0];
    forall i, k | 0 <= i < |row'| && i != target && k in row'[i] && k in row'[target]
      ensures i in matched[1..]
    {
      assert PointsTo(index, k, i) && matched == [target] + matched[1..];
      assert k in row[target] ==> PointsTo(index, k, target);
    }
  }

  lemma {:induction false} PlaceFolding(docs: seq<Document>, s: State, d: Document)
    requires NoMinting(docs + [d]) && InRange(s) && Indexed(s) && Partition(docs, s.slots)
    requires SortedIndexes(Matched(s, d)) != []
    ensures var matched := SortedIndexes(Matched(s, d));
      && matched[0] < |s.slots|
      && Folding(s.index, KeyRow(s.slots[matched[0] := Some(Occupant(s.slots[matched[0]], |docs|, d))]),
                 matched[0], matched[1..])
  {
    MatchedIsFoldable(s, d);
    var matched := SortedIndexes(Matched(s, d));
    var target := matched[0];
    var placed := s.slots[target := Some(Occupant(s.slots[target], |docs|, d))];
    if s.slots[target].Some? {
      FaithfulExtends(docs, d, s.slots[target].value);
      NodeKeys(docs + [d], s.slots[target].value, Leaf(|docs|, d));
    }
    forall k | k in KeySet(d) && k in s.index
      ensures s.index[k] in matched
    {
      MatchedSlot(s, d, k);
    }
    PlaceRow(s.index, KeyRow(s.slots), KeyRow(placed), KeySet(d), matched);
  }

  lemma {:induction false} ReindexRow(index: map<Key, nat>, row: seq<set<Key>>, target: nat)
    requires target < |row| && Folding(index, row, target, [])
    ensures Owns(Reindex(index, row[target], target), row)
  {
    forall i, k | 0 <= i < |row| && k in row[i]
      ensures PointsTo(Reindex(index, row[target], target), k, i)
    {
      assert i != target ==> k !in row[target] && PointsTo(index, k, i);
    }
  }

  lemma {:induction false} AppendRow(index: map<Key, nat>, row: seq<set<Key>>, keys: set<Key>)
    requires Owns(index, row) && forall k :: k in keys ==> k !in index
    ensures Owns(Reindex(index, keys, |row|), row + [keys])
  {
    forall i, k | 0 <= i < |row + [keys]| && k in (row + [keys])[i]
      ensures PointsTo(Reindex(index, keys, |row|), k, i)
    {
      assert i < |row| ==> PointsTo(index, k, i);
    }
  }

  lemma {:induction false} StepIndexedNew(s: State, pos: nat, d: Document)
    requires InRange(s) && Indexed(s) && SortedIndexes(Matched(s, d)) == []
    ensures Indexed(Step(s, pos, d))
  {
    forall k | k in KeySet(d)
      ensures k !in s.index
    {
      if k in s.index {
        MatchedSlot(s, d, k);
      }
    }
    AppendRow(s.index, KeyRow(s.slots), KeySet(d));
    assert KeyRow(s.slots + [Some(Leaf(pos, d))]) == KeyRow(s.slots) + [KeySet(d)];
  }

  lemma {:induction false} FoldedFolding(docs: seq<Document>, index: map<Key, nat>, placed: seq<Option<Tree>>, target: nat, extras: seq<nat>)
    requires NoMinting(docs) && Partition(docs, placed) && Foldable(placed, target, extras)
    requires Folding(index, KeyRow(placed), target, extras)
    ensures Folding(index, KeyRow(FoldExtras(placed, target, extras)), target, [])
  {
    FoldFolding(docs, index, placed, target, extras, |extras|);
    assert extras[..|extras|] == extras && extras[|extras|..] == [];
  }

  lemma {:induction false} StepIndexedMatched(docs: seq<Document>, s: State, d: Document, r: State)
    requires NoMinting(docs + [d]) && InRange(s) && Indexed(s) && Partition(docs, s.slots)
    requires SortedIndexes(Matched(s, d)) != [] && r == Step(s, |docs|, d)
    ensures Indexed(r)
  {
    var matched := SortedIndexes(Matched(s, d));
    PlaceFolding(docs, s, d);
    var placed := PlaceArrival(docs, s, d, matched);
    FoldedFolding(docs + [d], s.index, placed, matched[0], matched[1..]);
    ReindexRow(s.index, KeyRow(r.slots), matched[0]);
  }

  lemma {:induction false} PlaceArrival(docs: seq<Document>, s: State, d: Document, matched: seq<nat>) returns (placed: seq<Option<Tree>>)
    requires InRange(s) && Partition(docs, s.slots)
    requires matched == SortedIndexes(Matched(s, d)) && matched != []
    ensures matched[0] < |s.slots| && placed == s.slots[matched[0] := Some(Occupant(s.slots[matched[0]], |docs|, d))]
    ensures Partition(docs + [d], placed) && Foldable(placed, matched[0], matched[1..])
    ensures Step(s, |docs|, d).slots == FoldExtras(placed, matched[0], matched[1..])
    ensures Step(s, |docs|, d).index == Reindex(s.index, KeysAt(Step(s, |docs|, d).slots[matched[0]]), matched[0])
  {
    MatchedIsFoldable(s, d);
    placed := s.slots[matched[0] := Some(Occupant(s.slots[matched[0]], |docs|, d))];
    PlacePartition(docs, s.slots, d, matched[0], placed);
  }

  /** The index invariant, after every prefix of the input. */
  lemma {:induction false} RunIndexed(docs: seq<Document>)
    requires NoMinting(docs)
    ensures Indexed(Run(docs))
  {
    if docs != [] {
      var init, last := docs[..|docs| - 1], docs[|docs| - 1];
      assert docs == init + [last];
      RunIndexed(init);
      RunPartition(init);
      if SortedIndexes(Matched(Run(init), last)) == [] {
        StepIndexedNew(Run(init), |init|, last);
      } else {
        StepIndexedMatched(init, Run(init), last, Run(docs));
      }
    }
  }

  ghost predicate KeyDisjoint(docs: seq<Document>) {
    forall i, j :: 0 <= i < j < |docs| ==> KeySet(docs[i]) !! KeySet(docs[j])
  }

  lemma {:induction false} OwnedApart(s: State, i: nat, j: nat)
    requires Indexed(s) && i < j < |s.slots|
    ensures KeysAt(s.slots[i]) !! KeysAt(s.slots[j])
  {
    forall k
      ensures !(k in KeysAt(s.slots[i]) && k in KeysAt(s.slots[j]))
    {
      assert k in KeyRow(s.slots)[i] ==> PointsTo(s.index, k, i);
      assert k in KeyRow(s.slots)[j] ==> PointsTo(s.index, k, j);
    }
  }

  lemma {:induction false} LiveApart(s: State, n: nat)
    requires Indexed(s) && n < |s.slots| && s.slots[n].Some?
    ensures forall i :: 0 <= i < |Live(s.slots[..n])| ==> KeysAt(Some(Live(s.slots[..n])[i])) !! KeysAt(s.slots[n])
  {
    var init := Live(s.slots[..n]);
    LiveAndVacated(s.slots[..n]);
    forall i | 0 <= i < |init|
      ensures KeysAt(Some(init[i])) !! KeysAt(s.slots[n])
    {
      assert init[i] in init;
      var j :| 0 <= j < n && s.slots[..n][j] == Some(init[i]);
      OwnedApart(s, j, n);
    }
  }

  lemma {:induction false} DisjointExtends(docs: seq<Document>, d: Document)
    requires KeyDisjoint(docs) && forall i :: 0 <= i < |docs| ==> KeySet(docs[i]) !! KeySet(d)
    ensures KeyDisjoint(docs + [d])
  {
  }

  lemma {:induction false} LiveDisjoint(s: State, n: nat)
    requires Indexed(s) && n <= |s.slots|
    ensures KeyDisjoint(EvalAll(Live(s.slots[..n])))
  {
    if n > 0 {
      LiveDisjoint(s, n - 1);
      assert s.slots[..n][..n - 1] == s.slots[..n - 1];
      if s.slots[n - 1].Some? {
        var init := Live(s.slots[..n - 1]);
        LiveApart(s, n - 1);
        forall i | 0 <= i < |init|
          ensures KeySet(EvalAll(init)[i]) !! KeySet(Eval(s.slots[n - 1].value))
        {
          assert KeysAt(Some(init[i])) !! KeysAt(s.slots[n - 1]);
        }
        DisjointExtends(EvalAll(init), Eval(s.slots[n - 1].value));
        assert EvalAll(Live(s.slots[..n])) == EvalAll(init) + [Eval(s.slots[n - 1].value)];
      }
    }
  }

  lemma {:induction false} DisjointPermutation(a: seq<Document>, b: seq<Document>)
    requires KeyDisjoint(a) && multiset(a) == multiset(b)
    ensures KeyDisjoint(b)
  {
    forall i, j | 0 <= i < j < |b|
      ensures KeySet(b[i]) !! KeySet(b[j])
    {
      TwoPlaces(b, i, j);
      assert b[i] in multiset(a) && b[j] in multiset(a);
      if b[i] == b[j] {
        var p, q := TwoOccurrences(a, b[i]);
        assert KeySet(a[p]) !! KeySet(a[q]);
      } else {
        var p :| 0 <= p < |a| && a[p] == b[i];
        var q :| 0 <= q < |a| && a[q] == b[j];
        assert p != q;
      }
    }
  }

  lemma {:induction false} TwoPlaces<T>(b: seq<T>, i: nat, j: nat)
    requires i < j < |b|
    ensures b[i] == b[j] ==> multiset(b)[b[i]] >= 2
  {
    assert b == b[..j] + [b[j]] + b[j + 1..];
    assert b[i] in b[..j];
  }

  lemma {:induction false} TwoOccurrences<T>(a: seq<T>, x: T) returns (p: nat, q: nat)
    requires multiset(a)[x] >= 2
    ensures p < q < |a| && a[p] == a[q] == x
  {
    var n := |a| - 1;
    assert a == a[..n] + [a[n]];
    if a[n] == x {
      assert x in multiset(a[..n]);
      p :| 0 <= p < n && a[..n][p] == x;
      q := n;
    } else {
      p, q := TwoOccurrences(a[..n], x);
    }
  }

  /** No two survivors share any dedup key. */
  lemma {:induction false} SurvivorsAreKeyDisjoint(docs: seq<Document>)
    requires NoMinting(docs)
    ensures KeyDisjoint(Survivors(docs))
  {
    RunIndexed(docs);
    var slots := Run(docs).slots;
    LiveDisjoint(Run(docs), |slots|);
    assert slots[..|slots|] == slots;
    Conservation(docs);
    DisjointPermutation(EvalAll(Live(slots)), Survivors(docs));
  }

  // ---- only linked inputs are folded together -----------------------------------------------

  ghost predicate Shares(a: Document, b: Document) {
    exists k :: k in KeySet(a) && k in KeySet(b)
  }

  ghost predicate Chain(docs: seq<Document>, path: seq<nat>) {
    && path != []
    && (forall i :: 0 <= i < |path| ==> path[i] < |docs|)
    && (forall i :: 0 < i < |path| ==> Shares(docs[path[i - 1]], docs[path[i]]))
  }

  /** Two inputs are joined by a chain of inputs in which neighbours share a dedup key. */
  ghost predicate Linked(docs: seq<Document>, p: nat, q: nat) {
    exists path :: Chain(docs, path) && path[0] == p && path[|path| - 1] == q
  }

  lemma {:induction false} LinkedByKey(docs: seq<Document>, p: nat, q: nat, k: Key)
    requires p < |docs| && q < |docs| && k in KeySet(docs[p]) && k in KeySet(docs[q])
    ensures Linked(docs, p, q)
  {
    assert Shares(docs[p], docs[q]);
    assert Chain(docs, [p, q]);
  }

  lemma {:induction false} LinkedToItself(docs: seq<Document>, p: nat)
    requires p < |docs|
    ensures Linked(docs, p, p)
  {
    assert Chain(docs, [p]);
  }

  lemma {:induction false} LinkedTransitively(docs: seq<Document>, p: nat, q: nat, r: nat)
    requires Linked(docs, p, q) && Linked(docs, q, r)
    ensures Linked(docs, p, r)
  {
    var a :| Chain(docs, a) && a[0] == p && a[|a| - 1] == q;
    var b :| Chain(docs, b) && b[0] == q && b[|b| - 1] == r;
    var path := a + b[1..];
    forall i | 0 < i < |path|
      ensures Shares(docs[path[i - 1]], docs[path[i]])
    {
      if i >= |a| {
        assert path[i] == b[i - |a| + 1] && path[i - 1] == b[i - |a|];
      }
    }
    assert Chain(docs, path);
  }

  lemma {:induction false} LinkedSymmetrically(docs: seq<Document>, p: nat, q: nat)
    requires Linked(docs, p, q)
    ensures Linked(docs, q, p)
  {
    var a :| Chain(docs, a) && a[0] == p && a[|a| - 1] == q;
    var path := seq(|a|, i requires 0 <= i < |a| => a[|a| - 1 - i]);
    forall i | 0 < i < |path|
      ensures Shares(docs[path[i - 1]], docs[path[i]])
    {
      assert Shares(docs[a[|a| - 1 - i]], docs[a[|a| - i]]);
    }
    assert Chain(docs, path);
  }

  lemma {:induction false} LinkedExtends(docs: seq<Document>, d: Document, p: nat, q: nat)
    requires Linked(docs, p, q)
    ensures Linked(docs + [d], p, q)
  {
    var a :| Chain(docs, a) && a[0] == p && a[|a| - 1] == q;
    forall i | 0 < i < |a|
      ensures Shares((docs + [d])[a[i - 1]], (docs + [d])[a[i]])
    {
      assert Shares(docs[a[i - 1]], docs[a[i]]);
    }
    assert Chain(docs + [d], a);
  }

  /** Input p is linked to the input that opened slot i. */
  ghost predicate Anchored(docs: seq<Document>, anchors: seq<nat>, p: nat, i: nat) {
    p < |docs| && i < |anchors| && Linked(docs, p, anchors[i])
  }

  ghost predicate KeyAnchored(docs: seq<Document>, anchors: seq<nat>, k: Key, i: nat) {
    exists p: nat :: p < |docs| && k in KeySet(docs[p]) && Anchored(docs, anchors, p, i)
  }

  /** `anchors[i]` is the input that opened slot i; slots keep their anchor when vacated, and
      index entries, stale or not, are minted or come from an input linked to the anchor of
      their slot. */
  ghost predicate Sound(docs: seq<Document>, s: State, anchors: seq<nat>, minted: set<Key>) {
    && |anchors| == |s.slots|
    && (forall i, p :: 0 <= i < |s.slots| && p in LeavesAt(s.slots[i]) ==> Anchored(docs, anchors, p, i))
    && (forall k :: k in s.index ==> k in minted || KeyAnchored(docs, anchors, k, s.index[k]))
  }

  lemma {:induction false} AnchoredExtends(docs: seq<Document>, d: Document, anchors: seq<nat>, more: seq<nat>, p: nat, i: nat)
    requires Anchored(docs, anchors, p, i)
    ensures Anchored(docs + [d], anchors + more, p, i)
  {
    LinkedExtends(docs, d, p, anchors[i]);
  }

  lemma {:induction false} KeyAnchoredExtends(docs: seq<Document>, d: Document, anchors: seq<nat>, more: seq<nat>, k: Key, i: nat)
    requires KeyAnchored(docs, anchors, k, i)
    ensures KeyAnchored(docs + [d], anchors + more, k, i)
  {
    var p: nat :| p < |docs| && k in KeySet(docs[p]) && Anchored(docs, anchors, p, i);
    AnchoredExtends(docs, d, anchors, more, p, i);
    assert (docs + [d])[p] == docs[p];
  }

  lemma {:induction false} SoundExtends(docs: seq<Document>, s: State, anchors: seq<nat>, d: Document, more: seq<nat>, minted: set<Key>)
    requires Sound(docs, s, anchors, minted) && InRange(s)
    ensures forall i, p :: 0 <= i < |s.slots| && p in LeavesAt(s.slots[i]) ==>
              Anchored(docs + [d], anchors + more, p, i)
    ensures forall k :: k in s.index ==> k in minted || KeyAnchored(docs + [d], anchors + more, k, s.index[k])
  {
    forall i, p | 0 <= i < |s.slots| && p in LeavesAt(s.slots[i])
      ensures Anchored(docs + [d], anchors + more, p, i)
    {
      AnchoredExtends(docs, d, anchors, more, p, i);
    }
    forall k | k in s.index && k !in minted
      ensures KeyAnchored(docs + [d], anchors + more, k, s.index[k])
    {
      KeyAnchoredExtends(docs, d, anchors, more, k, s.index[k]);
    }
  }

  lemma {:induction false} SharedKeyAnchors(docs: seq<Document>, anchors: seq<nat>, q: nat, k: Key, i: nat)
    requires KeyAnchored(docs, anchors, k, i) && q < |docs| && k in KeySet(docs[q])
    ensures Anchored(docs, anchors, q, i)
  {
    var p: nat :| p < |docs| && k in KeySet(docs[p]) && Anchored(docs, anchors, p, i);
    LinkedByKey(docs, q, p, k);
    LinkedTransitively(docs, q, p, anchors[i]);
  }

  /** The arriving input is linked to the anchor of every slot it matches. */
  lemma {:induction false} ArrivalAnchored(docs: seq<Document>, s: State, anchors: seq<nat>, d: Document, m: nat, minted: set<Key>)
    requires Sound(docs, s, anchors, minted) && KeySet(d) !! minted && InRange(s) && m in Matched(s, d)
    ensures Anchored(docs + [d], anchors, |docs|, m)
  {
    var k :| k in KeySet(d) && k in s.index && s.index[k] == m;
    KeyAnchoredExtends(docs, d, anchors, [], k, m);
    assert anchors + [] == anchors;
    assert (docs + [d])[|docs|] == d;
    SharedKeyAnchors(docs + [d], anchors, |docs|, k, m);
  }

  /** Leaves only move from folded slots to the target. */
  lemma {:induction false} FoldLeaves(slots: seq<Option<Tree>>, target: nat, extras: seq<nat>)
    requires Foldable(slots, target, extras)
    ensures var r := FoldExtras(slots, target, extras);
      && (forall i, p :: 0 <= i < |r| && i != target && p in LeavesAt(r[i]) ==> p in LeavesAt(slots[i]))
      && (forall p :: p in LeavesAt(r[target]) && p !in LeavesAt(slots[target]) ==>
            exists i :: 0 <= i < |extras| && p in LeavesAt(slots[extras[i]]))
  {
    if extras != [] {
      var n := |extras| - 1;
      FoldLeaves(slots, target, extras[..n]);
      var before := FoldExtras(slots, target, extras[..n]);
      var r := FoldExtras(slots, target, extras);
      forall p | p in LeavesAt(r[target]) && p !in LeavesAt(slots[target])
        ensures exists i :: 0 <= i < |extras| && p in LeavesAt(slots[extras[i]])
      {
        if p in LeavesAt(before[target]) {
          var i :| 0 <= i < |extras[..n]| && p in LeavesAt(slots[extras[..n][i]]);
          assert p in LeavesAt(slots[extras[i]]);
        } else {
          assert p in LeavesAt(before[extras[n]]);
          assert p in LeavesAt(slots[extras[n]]);
        }
      }
    }
  }

  /** A leaf of a matched slot is linked to the target's anchor through the arriving input. */
  lemma {:induction false} LinkedThroughArrival(docs: seq<Document>, s: State, anchors: seq<nat>, d: Document,
                             p: nat, e: nat, target: nat, minted: set<Key>)
    requires InRange(s) && Sound(docs, s, anchors, minted) && KeySet(d) !! minted
    requires e in Matched(s, d) && target in Matched(s, d)
    requires Anchored(docs + [d], anchors, p, e)
    ensures Anchored(docs + [d], anchors, p, target)
  {
    var docs' := docs + [d];
    ArrivalAnchored(docs, s, anchors, d, e, minted);
    ArrivalAnchored(docs, s, anchors, d, target, minted);
    LinkedSymmetrically(docs', |docs|, anchors[e]);
    LinkedTransitively(docs', p, anchors[e], |docs|);
    LinkedTransitively(docs', p, |docs|, anchors[target]);
  }

  /** Where the leaves are after a step that folds. */
  lemma {:induction false} StepLeaves(s: State, pos: nat, d: Document)
    requires InRange(s) && SortedIndexes(Matched(s, d)) != []
    ensures var r, matched := Step(s, pos, d), SortedIndexes(Matched(s, d));
      && |r.slots| == |s.slots| && matched[0] < |s.slots|
      && r.index == Reindex(s.index, KeysAt(r.slots[matched[0]]), matched[0])
      && r.slots[matched[0]].Some?
      && (forall i, p :: 0 <= i < |r.slots| && i != matched[0] && p in LeavesAt(r.slots[i]) ==>
            p in LeavesAt(s.slots[i]))
      && (forall p :: p in LeavesAt(r.slots[matched[0]]) && p != pos ==>
            exists e :: e in matched && e < |s.slots| && p in LeavesAt(s.slots[e]))
  {
    MatchedIsFoldable(s, d);
    var matched := SortedIndexes(Matched(s, d));
    var target := matched[0];
    var placed := s.slots[target := Some(Occupant(s.slots[target], pos, d))];
    OccupantLeaves(s.slots[target], pos, d);
    FoldLeaves(placed, target, matched[1..]);
    var r := FoldExtras(placed, target, matched[1..]);
    forall p | p in LeavesAt(r[target]) && p != pos
      ensures exists e :: e in matched && e < |s.slots| && p in LeavesAt(s.slots[e])
    {
      if p in LeavesAt(placed[target]) {
        assert target in matched && p in LeavesAt(s.slots[target]);
      } else {
        var i :| 0 <= i < |matched[1..]| && p in LeavesAt(placed[matched[1..][i]]);
        assert matched[i + 1] in matched && p in LeavesAt(s.slots[matched[i + 1]]);
      }
    }
  }

  lemma {:induction false} SoundAfterFold(docs: seq<Document>, s: State, r: State, anchors: seq<nat>, target: nat, minted: set<Key>)
    requires target < |s.slots| == |r.slots| == |anchors|
    requires r.index == Reindex(s.index, KeysAt(r.slots[target]), target)
    requires forall i, p :: 0 <= i < |r.slots| && i != target && p in LeavesAt(r.slots[i]) ==> p in LeavesAt(s.slots[i])
    requires forall i, p :: 0 <= i < |s.slots| && p in LeavesAt(s.slots[i]) ==> Anchored(docs, anchors, p, i)
    requires forall p :: p in LeavesAt(r.slots[target]) ==> Anchored(docs, anchors, p, target)
    requires forall k :: k in s.index ==> k in minted || KeyAnchored(docs, anchors, k, s.index[k])
    requires forall k :: k in KeysAt(r.slots[target]) ==> k in minted || KeyAnchored(docs, anchors, k, target)
    ensures Sound(docs, r, anchors, minted)
  {
  }

  lemma {:induction false} OldLeafAnchored(docs: seq<Document>, s: State, d: Document, anchors: seq<nat>, p: nat, e: nat, target: nat, minted: set<Key>)
    requires InRange(s) && Sound(docs, s, anchors, minted) && KeySet(d) !! minted && target in Matched(s, d) && e in Matched(s, d)
    requires e < |s.slots| && p in LeavesAt(s.slots[e])
    ensures Anchored(docs + [d], anchors, p, target)
  {
    assert Anchored(docs, anchors, p, e);
    AnchoredExtends(docs, d, anchors, [], p, e);
    assert anchors + [] == anchors;
    LinkedThroughArrival(docs, s, anchors, d, p, e, target, minted);
  }

  lemma {:induction false} ArrivedLeavesAnchored(docs: seq<Document>, s: State, d: Document, anchors: seq<nat>, leaves: set<nat>, target: nat, minted: set<Key>)
    requires InRange(s) && Sound(docs, s, anchors, minted) && KeySet(d) !! minted && target in Matched(s, d)
    requires forall p :: p in leaves && p != |docs| ==>
               exists e :: e in Matched(s, d) && e < |s.slots| && p in LeavesAt(s.slots[e])
    ensures forall p :: p in leaves ==> Anchored(docs + [d], anchors, p, target)
  {
    forall p | p in leaves
      ensures Anchored(docs + [d], anchors, p, target)
    {
      if p == |docs| {
        ArrivalAnchored(docs, s, anchors, d, target, minted);
      } else {
        var e :| e in Matched(s, d) && e < |s.slots| && p in LeavesAt(s.slots[e]);
        OldLeafAnchored(docs, s, d, anchors, p, e, target, minted);
      }
    }
  }

  lemma {:induction false} StepSoundMatched(docs: seq<Document>, s: State, d: Document, anchors: seq<nat>, r: State, minted: set<Key>)
    requires Unheld(docs + [d], minted) && InRange(s) && Partition(docs, s.slots) && Sound(docs, s, anchors, minted)
    requires SortedIndexes(Matched(s, d)) != [] && r == Step(s, |docs|, d)
    ensures Sound(docs + [d], r, anchors, minted)
  {
    UnheldShrinks(docs, d, minted);
    var matched := SortedIndexes(Matched(s, d));
    var target := matched[0];
    SortedIndexesFacts(Matched(s, d));
    assert target in matched;
    StepLeaves(s, |docs|, d);
    StepPartition(docs, s, d);
    ArrivedLeavesAnchored(docs, s, d, anchors, LeavesAt(r.slots[target]), target, minted);
    TargetKeysAnchored(docs + [d], anchors, r.slots[target].value, target, minted);
    SoundExtends(docs, s, anchors, d, [], minted);
    assert anchors + [] == anchors;
    SoundAfterFold(docs + [d], s, r, anchors, target, minted);
  }

  lemma {:induction false} TargetKeysAnchored(docs: seq<Document>, anchors: seq<nat>, t: Tree, i: nat, minted: set<Key>)
    requires Mintable(docs) <= minted && Faithful(docs, t)
    requires forall p :: p in Leaves(t) ==> Anchored(docs, anchors, p, i)
    ensures forall k :: k in KeySet(Eval(t)) ==> k in minted || KeyAnchored(docs, anchors, k, i)
  {
    forall k | k in KeySet(Eval(t)) && k !in minted
      ensures KeyAnchored(docs, anchors, k, i)
    {
      var p := KeyFromLeaf(docs, t, k);
    }
  }

  lemma {:induction false} SoundAfterAppend(docs: seq<Document>, s: State, r: State, anchors: seq<nat>, pos: nat, keys: set<Key>, minted: set<Key>)
    requires |anchors| == |r.slots| == |s.slots| + 1
    requires r.index == Reindex(s.index, keys, |s.slots|)
    requires (forall i :: 0 <= i < |s.slots| ==> r.slots[i] == s.slots[i]) && LeavesAt(r.slots[|s.slots|]) == {pos}
    requires forall i, p :: 0 <= i < |s.slots| && p in LeavesAt(s.slots[i]) ==> Anchored(docs, anchors, p, i)
    requires Anchored(docs, anchors, pos, |s.slots|)
    requires forall k :: k in s.index ==> k in minted || KeyAnchored(docs, anchors, k, s.index[k])
    requires forall k :: k in keys ==> KeyAnchored(docs, anchors, k, |s.slots|)
    ensures Sound(docs, r, anchors, minted)
  {
  }

  lemma {:induction false} StepSoundNew(docs: seq<Document>, s: State, d: Document, anchors: seq<nat>, r: State, minted: set<Key>)
    requires InRange(s) && Sound(docs, s, anchors, minted)
    requires SortedIndexes(Matched(s, d)) == [] && r == Step(s, |docs|, d)
    ensures Sound(docs + [d], r, anchors + [|docs|], minted)
  {
    var docs', anchors' := docs + [d], anchors + [|docs|];
    SoundExtends(docs, s, anchors, d, [|docs|], minted);
    LinkedToItself(docs', |docs|);
    assert Anchored(docs', anchors', |docs|, |s.slots|);
    ArrivedKeysAnchored(docs, d, anchors', |s.slots|);
    SoundAfterAppend(docs', s, r, anchors', |docs|, KeySet(d), minted);
  }

  lemma {:induction false} ArrivedKeysAnchored(docs: seq<Document>, d: Document, anchors: seq<nat>, i: nat)
    requires Anchored(docs + [d], anchors, |docs|, i)
    ensures forall k :: k in KeySet(d) ==> KeyAnchored(docs + [d], anchors, k, i)
  {
    assert (docs + [d])[|docs|] == d;
  }

  lemma {:induction false} RunSound(docs: seq<Document>, minted: set<Key>) returns (anchors: seq<nat>)
    requires Unheld(docs, minted)
    ensures Sound(docs, Run(docs), anchors, minted)
  {
    if docs == [] {
      anchors := [];
    } else {
      var init, last := docs[..|docs| - 1], docs[|docs| - 1];
      assert docs == init + [last];
      UnheldShrinks(init, last, minted);
      anchors := RunSound(init, minted);
      RunPartition(init);
      if SortedIndexes(Matched(Run(init), last)) == [] {
        StepSoundNew(init, Run(init), last, anchors, Run(docs), minted);
        anchors := anchors + [|init|];
      } else {
        StepSoundMatched(init, Run(init), last, anchors, Run(docs), minted);
      }
    }
  }

  /** Any two inputs folded into the same survivor are linked. */
  ghost predicate LinksOnlyLinked(docs: seq<Document>) {
    forall i, p, q :: 0 <= i < |Run(docs).slots| && p in LeavesAt(Run(docs).slots[i]) && q in LeavesAt(Run(docs).slots[i]) ==>
      Linked(docs, p, q)
  }

  /** Dedup is sound, across vacated and reoccupied slots and stale index entries, when no input
      holds a pair of a source and an id that others could mint. */
  lemma {:induction false} DedupIsSound(docs: seq<Document>)
    requires MintsUnheld(docs)
    ensures LinksOnlyLinked(docs)
  {
    var anchors := RunSound(docs, Mintable(docs));
    hide Run, LeavesAt, Mintable;
    forall i, p, q | 0 <= i < |Run(docs).slots| && p in LeavesAt(Run(docs).slots[i]) && q in LeavesAt(Run(docs).slots[i])
      ensures Linked(docs, p, q)
    {
      assert Anchored(docs, anchors, p, i) && Anchored(docs, anchors, q, i);
      LinkedSymmetrically(docs, q, anchors[i]);
      LinkedTransitively(docs, p, anchors[i], q);
    }
  }
}
