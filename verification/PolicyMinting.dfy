/** Merges that pair one document's source with another document's id: what goes wrong with them,
    and exactly when. */
module PolicyMinting {
  import opened Wrappers
  import opened Sequences
  import opened PolicyDocuments
  import opened PolicyDedup
  import opened PolicyProvenance
  import opened PolicyLinkage
  import opened PolicyIdempotence

  // ---- inputs that can mint ------------------------------------------------------------------

  function Sample(source: string, id: Option<string>, urlHash: string, title: string): Document {
    Document(source, id, urlHash, title, None, None, None, None, None, "other", [], [], None, None, None,
             urlHash, None, None, map[], "partial", "pending", [])
  }

  /** The second document has no id; merged with the third it takes that id under its own
      source, which is the key the first document already holds. */
  function MintingInput(): seq<Document> {
    [Sample("a", Some("x"), "1", "p"), Sample("a", None, "2", "q"), Sample("b", Some("x"), "3", "q")]
  }

  lemma {:induction false} SqueezeOne(c: char)
    requires 'a' <= c <= 'z'
    ensures NormalizeKeyText(Some([c])) == Some([c])
  {
    assert [c][1..] == "";
    assert !IsSpace(c) && LowerChar(c) == c;
    assert Squeeze([c]) == [LowerChar([c][0])] + Squeeze([c][1..]) == [c];
  }

  lemma {:induction false} SampleKeys()
    ensures var docs := MintingInput();
      && KeySet(docs[0]) == {TitleKey("p"), SourceIdKey("a", "x"), UrlKey("a", "1")}
      && KeySet(docs[1]) == {TitleKey("q"), UrlKey("a", "2")}
      && KeySet(docs[2]) == {TitleKey("q"), SourceIdKey("b", "x"), UrlKey("b", "3")}
      && KeySet(Merge(docs[1], docs[2])) == {TitleKey("q"), SourceIdKey("a", "x"), UrlKey("a", "2")}
  {
    SqueezeOne('p');
    SqueezeOne('q');
    SqueezeOne('x');
    assert "p" == ['p'] && "q" == ['q'] && "x" == ['x'];
  }

  lemma {:induction false} SingletonIndex(i: nat)
    ensures SortedIndexes({i}) == [i]
  {
    assert {i} - {i} == {};
    assert Least({i}) in {i};
  }

  lemma {:induction false} RunOfTwo(c: Document, a: Document)
    requires KeySet(c) !! KeySet(a)
    ensures AllOpened([c, a], Run([c, a]))
  {
    FoldsNothing([c, a]);
  }

  lemma {:induction false} FoldIntoSecond(s: State, t: Tree, u: Tree, pos: nat, d: Document)
    requires InRange(s) && s.slots == [Some(t), Some(u)] && Matched(s, d) == {1}
    ensures Step(s, pos, d).slots == [Some(t), Some(Node(u, Leaf(pos, d)))]
  {
    var v := Node(u, Leaf(pos, d));
    SingletonIndex(1);
    assert Occupant(s.slots[1], pos, d) == v;
    assert s.slots[1 := Some(v)] == [Some(t), Some(v)];
    assert FoldExtras([Some(t), Some(v)], 1, []) == [Some(t), Some(v)];
    assert [1] + [] == [1];
    hide *;
    StepParts(s, pos, d, 1, []);
  }

  lemma {:induction false} RunExtends(docs: seq<Document>, d: Document)
    ensures Run(docs + [d]) == Step(Run(docs), |docs|, d)
  {
    assert (docs + [d])[..|docs|] == docs;
  }

  lemma {:induction false} LiveOfPair(t: Tree, u: Tree)
    ensures EvalAll(Live([Some(t), Some(u)])) == [Eval(t), Eval(u)]
  {
    var slots := [Some(t), Some(u)];
    assert slots[..1] == [Some(t)] && slots[..1][..0] == [];
    assert Live(slots[..1]) == [t];
  }

  lemma {:induction false} IndexOfOpened(docs: seq<Document>, k: Key, i: nat)
    requires KeyDisjoint(docs) && i < |docs| && k in KeySet(docs[i])
    ensures PointsTo(Run(docs).index, k, i)
  {
    FoldsNothing(docs);
    OpenedIsIndexed(docs);
    assert k in KeysAt(Run(docs).slots[i]);
    assert k in KeyRow(Run(docs).slots)[i];
  }

  lemma {:induction false} OpenedIsIndexed(docs: seq<Document>)
    requires KeyDisjoint(docs)
    ensures Indexed(Run(docs))
  {
    if docs != [] {
      var init, last := docs[..|docs| - 1], docs[|docs| - 1];
      assert docs == init + [last];
      DisjointLast(init, last);
      OpenedIsIndexed(init);
      FoldsNothing(init);
      OpensWhenUnmatched(init, Run(init), last);
      StepIndexedNew(Run(init), |init|, last);
    }
  }

  lemma {:induction false} PairIsDisjoint(c: Document, a: Document)
    requires KeySet(c) !! KeySet(a)
    ensures KeyDisjoint([c, a])
  {
    hide KeySet;
  }

  lemma {:induction false} HeldBySecond(c: Document, a: Document, s: State, k: Key)
    requires AllOpened([c, a], s) && k in s.index && k !in KeySet(c)
    ensures k in KeySet(a)
  {
    hide KeySet;
    assert SomeHolds([c, a], k);
  }

  lemma {:induction false} MatchesSecond(c: Document, a: Document, b: Document)
    requires KeySet(c) !! KeySet(a) && KeySet(c) !! KeySet(b) && Shares(a, b)
    ensures AllOpened([c, a], Run([c, a])) && Matched(Run([c, a]), b) == {1}
  {
    var s := Run([c, a]);
    RunOfTwo(c, a);
    assert [c, a][0] == c && [c, a][1] == a;
    var k :| k in KeySet(a) && k in KeySet(b);
    hide KeySet, Run, AllOpened;
    PairIsDisjoint(c, a);
    forall k | k in KeySet(b) && k in s.index
      ensures s.index[k] == 1
    {
      HeldBySecond(c, a, s, k);
      IndexOfOpened([c, a], k, 1);
    }
    IndexOfOpened([c, a], k, 1);
    assert s.index[k] in Matched(s, b);
  }

  lemma {:induction false} OpenedSlots(docs: seq<Document>, s: State)
    requires |docs| == 2 && AllOpened(docs, s)
    ensures s.slots == [Some(Leaf(0, docs[0])), Some(Leaf(1, docs[1]))]
  {
    hide KeySet, SomeHolds;
  }

  /** Where three inputs end up when only the last two share a key. */
  lemma {:induction false} RunOfThree(docs: seq<Document>, d: Document)
    requires |docs| == 2 && AllOpened(docs, Run(docs)) && Matched(Run(docs), d) == {1}
    ensures EvalAll(Live(Run(docs + [d]).slots)) == [docs[0], Merge(docs[1], d)]
  {
    var s, t, u := Run(docs), Leaf(0, docs[0]), Leaf(1, docs[1]);
    var v := Node(u, Leaf(2, d));
    OpenedSlots(docs, s);
    assert Eval(t) == docs[0] && Eval(v) == Merge(docs[1], d);
    hide *;
    FoldIntoSecond(s, t, u, 2, d);
    RunExtends(docs, d);
    LiveOfPair(t, v);
  }

  lemma {:induction false} SharedKeySurvives(docs: seq<Document>, pair: seq<Document>, k: Key)
    requires EvalAll(Live(Run(docs).slots)) == pair && |pair| == 2
    requires k in KeySet(pair[0]) && k in KeySet(pair[1])
    ensures !DedupChangesNothing(Survivors(docs))
  {
    Conservation(docs);
    if KeyDisjoint(Survivors(docs)) {
      DisjointPermutation(Survivors(docs), pair);
    }
    SecondPass(docs);
  }

  lemma {:induction false} PairDisjoint(pair: seq<Document>)
    requires |pair| == 2 && KeySet(pair[0]) !! KeySet(pair[1])
    ensures KeyDisjoint(pair)
  {
    hide KeySet;
  }

  lemma {:induction false} DisjointPairSurvives(docs: seq<Document>, pair: seq<Document>)
    requires EvalAll(Live(Run(docs).slots)) == pair && |pair| == 2 && KeySet(pair[0]) !! KeySet(pair[1])
    ensures DedupChangesNothing(Survivors(docs))
  {
    hide *;
    Conservation(docs);
    PairDisjoint(pair);
    DisjointPermutation(pair, Survivors(docs));
    SecondPass(docs);
  }

  /** A keeps its slot, takes over b's id under its own source, and the pair so minted is a key
      of an earlier document c: a second pass folds again. */
  lemma {:induction false} MintedKeyIsShared(c: Document, a: Document, b: Document, minted: Key)
    requires KeySet(c) !! KeySet(a) && KeySet(c) !! KeySet(b) && Shares(a, b)
    requires minted in KeySet(c) && minted in KeySet(Merge(a, b))
    ensures !DedupChangesNothing(Survivors([c, a] + [b]))
  {
    MatchesSecond(c, a, b);
    RunOfThree([c, a], b);
    SharedKeySurvives([c, a] + [b], [c, Merge(a, b)], minted);
  }

  /** Without the condition a second pass can fold again: a concrete input. */
  lemma {:induction false} MintingBreaksIdempotence()
    ensures !NoMinting(MintingInput())
    ensures !DedupChangesNothing(Survivors(MintingInput()))
  {
    var docs := MintingInput();
    SampleKeys();
    SqueezeOne('x');
    assert CanMint(docs[1], docs[2]);
    assert TitleKey("q") in KeySet(docs[1]) && TitleKey("q") in KeySet(docs[2]);
    MintedKeyIsShared(docs[0], docs[1], docs[2], SourceIdKey("a", "x"));
    assert docs == [docs[0], docs[1]] + [docs[2]];
  }

  /** The first two are merged under the first one's source and the second one's id; the third
      holds that pair and shares no key with either. */
  function UnsoundInput(): seq<Document> {
    [Sample("a", None, "1", "p")] + [Sample("b", Some("x"), "2", "p")] + [Sample("a", Some("x"), "3", "q")]
  }

  lemma {:induction false} UnsoundKeys() returns (a: Document, b: Document, d: Document)
    ensures UnsoundInput() == [a] + [b] + [d] && CanMint(a, b)
    ensures TitleKey("p") in KeySet(a) && TitleKey("p") in KeySet(b)
    ensures SourceIdKey("a", "x") in KeySet(Merge(a, b)) && SourceIdKey("a", "x") in KeySet(d)
    ensures KeySet(a) !! KeySet(d) && KeySet(b) !! KeySet(d)
  {
    a, b, d := Sample("a", None, "1", "p"), Sample("b", Some("x"), "2", "p"), Sample("a", Some("x"), "3", "q");
    SqueezeOne('p');
    SqueezeOne('q');
    SqueezeOne('x');
    assert "p" == ['p'] && "q" == ['q'] && "x" == ['x'];
    hide Squeeze;
    assert KeySet(a) == {TitleKey("p"), UrlKey("a", "1")};
    assert KeySet(b) == {TitleKey("p"), SourceIdKey("b", "x"), UrlKey("b", "2")};
    assert KeySet(d) == {TitleKey("q"), SourceIdKey("a", "x"), UrlKey("a", "3")};
  }

  /** With a single slot, an arrival that hits the index folds into it. */
  lemma {:induction false} FoldIntoOnly(s: State, t: Tree, pos: nat, d: Document, k: Key)
    requires InRange(s) && s.slots == [Some(t)] && k in KeySet(d) && k in s.index
    ensures var u := Node(t, Leaf(pos, d));
            Step(s, pos, d) == State([Some(u)], Reindex(s.index, KeySet(Eval(u)), 0), s.dedupedCount + 1)
  {
    OnlySlotMatched(s, d, k);
    SingletonIndex(0);
    var u := Node(t, Leaf(pos, d));
    assert Occupant(s.slots[0], pos, d) == u;
    assert s.slots[0 := Some(u)] == [Some(u)];
    assert FoldExtras([Some(u)], 0, []) == [Some(u)];
    hide Step, KeySet, Eval, Reindex, Matched, SortedIndexes, FoldExtras, Occupant;
    assert [0] + [] == [0];
    StepParts(s, pos, d, 0, []);
  }

  lemma {:induction false} OnlySlotMatched(s: State, d: Document, k: Key)
    requires InRange(s) && |s.slots| == 1 && k in KeySet(d) && k in s.index
    ensures Matched(s, d) == {0}
  {
    hide KeySet;
    assert s.index[k] in Matched(s, d);
    assert forall i :: i in Matched(s, d) ==> i == 0;
  }

  lemma {:induction false} OneOpened(a: Document, k: Key)
    requires k in KeySet(a)
    ensures var s := Run([a]);
            s.slots == [Some(Leaf(0, a))] && k in s.index && forall m :: m in s.index <==> m in KeySet(a)
  {
    hide KeySet, Run;
    assert [a][0] == a;
    FoldsNothing([a]);
    forall m
      ensures m in Run([a]).index <==> m in KeySet(a)
    {
      assert m in KeySet(a) ==> m in KeySet([a][0]);
      assert SomeHolds([a], m) <==> m in KeySet(a);
    }
  }

  /** The state after two inputs that share a key. */
  lemma {:induction false} TwoInOne(a: Document, b: Document, k: Key) returns (s: State, t: Tree)
    requires k in KeySet(a) && k in KeySet(b)
    ensures s == Run([a] + [b]) && t == Node(Leaf(0, a), Leaf(1, b)) && s.slots == [Some(t)]
    ensures forall m :: m in s.index <==> m in KeySet(a) + KeySet(Merge(a, b))
  {
    s, t := Run([a] + [b]), Node(Leaf(0, a), Leaf(1, b));
    var s1 := Run([a]);
    OneOpened(a, k);
    assert Eval(t) == Merge(a, b) && Eval(Leaf(0, a)) == a;
    assert forall m :: m in Reindex(s1.index, KeySet(Merge(a, b)), 0) <==> m in s1.index || m in KeySet(Merge(a, b)) by { hide KeySet; }
    hide *;
    RunExtends([a], b);
    FoldIntoOnly(s1, Leaf(0, a), 1, b, k);
  }

  /** Three inputs of which the second meets the first and the third meets the two merged. */
  lemma {:induction false} AllInOne(a: Document, b: Document, d: Document, k: Key, m: Key)
    requires k in KeySet(a) && k in KeySet(b) && m in KeySet(Merge(a, b)) && m in KeySet(d)
    ensures Run([a] + [b] + [d]).slots == [Some(Node(Node(Leaf(0, a), Leaf(1, b)), Leaf(2, d)))]
  {
    var s, t := TwoInOne(a, b, k);
    hide *;
    RunExtends([a] + [b], d);
    FoldIntoOnly(s, t, 2, d, m);
  }

  /** A chain that starts in a group whose keys nobody outside shares stays in the group. */
  lemma {:induction false} ChainStays(docs: seq<Document>, path: seq<nat>, n: nat)
    requires Chain(docs, path) && path[0] < n <= |docs|
    requires forall i, j :: 0 <= i < n <= j < |docs| ==> KeySet(docs[i]) !! KeySet(docs[j])
    ensures path[|path| - 1] < n
  {
    if |path| > 1 {
      var init := path[..|path| - 1];
      assert Chain(docs, init);
      ChainStays(docs, init, n);
      assert Shares(docs[path[|path| - 2]], docs[path[|path| - 1]]);
    }
  }

  /** The failing family: a takes over b's id under its own source, and a later d holds the pair
      so minted without sharing a key with either; it is folded in with them. */
  lemma {:induction false} UnrelatedFolded(a: Document, b: Document, d: Document, k: Key, m: Key)
    requires k in KeySet(a) && k in KeySet(b) && m in KeySet(Merge(a, b)) && m in KeySet(d)
    requires KeySet(a) !! KeySet(d) && KeySet(b) !! KeySet(d)
    ensures var docs := [a] + [b] + [d];
      && Run(docs).slots != [] && {0, 1, 2} <= LeavesAt(Run(docs).slots[0]) && !Linked(docs, 0, 2)
      && !LinksOnlyLinked(docs)
  {
    var docs := [a] + [b] + [d];
    AllInOne(a, b, d, k, m);
    hide *;
    LeavesOfThree(a, b, d);
    forall i, j | 0 <= i < 2 <= j < |docs|
      ensures KeySet(docs[i]) !! KeySet(docs[j])
    {
      assert j == 2 && (i == 0 || i == 1);
    }
    NoWayOut(docs, 2, 0, 2);
  }

  lemma {:induction false} LeavesOfThree(a: Document, b: Document, d: Document)
    ensures LeavesAt(Some(Node(Node(Leaf(0, a), Leaf(1, b)), Leaf(2, d)))) == {0, 1, 2}
  {
    var t, u, v := Leaf(0, a), Leaf(1, b), Leaf(2, d);
    assert Leaves(t) == {0} && Leaves(u) == {1} && Leaves(v) == {2};
    assert Leaves(Node(t, u)) == {0, 1};
  }

  lemma {:induction false} NoWayOut(docs: seq<Document>, n: nat, p: nat, q: nat)
    requires p < n <= q && n <= |docs|
    requires forall i, j :: 0 <= i < n <= j < |docs| ==> KeySet(docs[i]) !! KeySet(docs[j])
    ensures !Linked(docs, p, q)
  {
    hide KeySet, Shares;
    if Linked(docs, p, q) {
      var path :| Chain(docs, path) && path[0] == p && path[|path| - 1] == q;
      ChainStays(docs, path, n);
    }
  }

  // ---- exactly when -----------------------------------------------------------------------------

  /** A document that holds the pair the merge of a and b mints, and no key of either. */
  function Holder(a: Document, b: Document): Document {
    var winner, other := if RightIsPrimary(a, b) then b else a, if RightIsPrimary(a, b) then a else b;
    Sample(winner.source, other.sourceDocumentId, a.urlHash + b.urlHash + "x", "")
  }

  lemma {:induction false} MergeOfSides(a: Document, b: Document)
    ensures Merge(a, b) == if RightIsPrimary(a, b) then MergeInto(b, a) else MergeInto(a, b)
  {
  }

  lemma {:induction false} SampleKeySet(source: string, id: Option<string>, urlHash: string)
    requires NormalizeKeyText(id).Some?
    ensures KeySet(Sample(source, id, urlHash, "")) == {SourceIdKey(source, NormalizeKeyText(id).value), UrlKey(source, urlHash)}
  {
    UntruthyHasNoKey(Some(""));
  }

  lemma {:induction false} NoUrlKey(d: Document, source: string, urlHash: string)
    requires |urlHash| > |d.urlHash|
    ensures UrlKey(source, urlHash) !in KeySet(d)
  {
    hide NormalizeKeyText;
  }

  lemma {:induction false} HolderKeys(a: Document, b: Document)
    requires MergeMints(a, b)
    ensures KeySet(a) !! KeySet(Holder(a, b)) && KeySet(b) !! KeySet(Holder(a, b))
    ensures exists m :: m in KeySet(Merge(a, b)) && m in KeySet(Holder(a, b))
  {
    var winner, other := if RightIsPrimary(a, b) then b else a, if RightIsPrimary(a, b) then a else b;
    var h, m := Holder(a, b), MintedKey(winner, other);
    assert h == Sample(winner.source, other.sourceDocumentId, h.urlHash, "");
    assert |h.urlHash| > |a.urlHash| && |h.urlHash| > |b.urlHash|;
    hide RightIsPrimary, Merge, MergeInto, Holder;
    MintedIsNew(winner, other);
    MergeOfSides(a, b);
    SampleKeySet(winner.source, other.sourceDocumentId, h.urlHash);
    NoUrlKey(a, winner.source, h.urlHash);
    NoUrlKey(b, winner.source, h.urlHash);
    hide KeySet;
    assert m in KeySet(Merge(a, b)) && m in KeySet(h);
  }

  ghost predicate AllLinked(docs: seq<Document>, group: set<nat>) {
    forall p, q :: p in group && q in group ==> Linked(docs, p, q)
  }

  lemma {:induction false} TwoAreLinked(docs: seq<Document>, k: Key)
    requires |docs| == 3 && k in KeySet(docs[0]) && k in KeySet(docs[1])
    ensures AllLinked(docs, {0, 1}) && AllLinked(docs, {2})
  {
    hide KeySet, Linked;
    LinkedByKey(docs, 0, 1, k);
    LinkedByKey(docs, 1, 0, k);
    LinkedToItself(docs, 0);
    LinkedToItself(docs, 1);
    LinkedToItself(docs, 2);
  }

  lemma {:induction false} ThreeAreLinked(docs: seq<Document>, k: Key, m: Key)
    requires |docs| == 3 && k in KeySet(docs[0]) && k in KeySet(docs[1])
    requires m in KeySet(docs[0]) + KeySet(docs[1]) && m in KeySet(docs[2])
    ensures AllLinked(docs, {0, 1, 2})
  {
    hide KeySet, Linked;
    TwoAreLinked(docs, k);
    var near := if m in KeySet(docs[0]) then 0 else 1;
    LinkedByKey(docs, near, 2, m);
    LinkedTransitively(docs, 1 - near, near, 2);
    LinkedSymmetrically(docs, near, 2);
    LinkedSymmetrically(docs, 1 - near, 2);
  }

  lemma {:induction false} ThirdFolds(a: Document, b: Document, d: Document, s: State, t: Tree, k: Key, m: Key)
    requires InRange(s) && s.slots == [Some(t)] && t == Node(Leaf(0, a), Leaf(1, b))
    requires Run([a] + [b] + [d]) == Step(s, 2, d) && k in KeySet(a) && k in KeySet(b)
    requires m in KeySet(d) && m in s.index && m in KeySet(a) + KeySet(b)
    ensures LinksOnlyLinked([a] + [b] + [d])
  {
    hide *;
    var docs, u := [a] + [b] + [d], Node(t, Leaf(2, d));
    assert docs[0] == a && docs[1] == b && docs[2] == d;
    ThreeAreLinked(docs, k, m);
    FoldIntoOnly(s, t, 2, d, m);
    LeavesOfThree(a, b, d);
    OnlySlot(docs, u);
  }

  lemma {:induction false} ThirdOpens(a: Document, b: Document, d: Document, s: State, t: Tree, k: Key)
    requires InRange(s) && s.slots == [Some(t)] && t == Node(Leaf(0, a), Leaf(1, b))
    requires Run([a] + [b] + [d]) == Step(s, 2, d) && k in KeySet(a) && k in KeySet(b)
    requires forall m :: m in KeySet(d) ==> m !in s.index
    ensures LinksOnlyLinked([a] + [b] + [d])
  {
    hide *;
    var docs, u := [a] + [b] + [d], Leaf(2, d);
    assert docs[0] == a && docs[1] == b && docs[2] == d;
    TwoAreLinked(docs, k);
    OpensSecond(s, t, d);
    LeavesOfTwo(a, b, d);
    TwoSlots(docs, t, u);
  }

  lemma {:induction false} SharedKey(a: Document, b: Document) returns (k: Key)
    requires Shares(a, b)
    ensures k in KeySet(a) && k in KeySet(b)
  {
    k :| k in KeySet(a) && k in KeySet(b);
  }

  /** Two inputs that share a key, and one more: the index leads the third only to what it shares
      a key with, unless the merge minted one. */
  lemma {:induction false} ThirdIsLinked(a: Document, b: Document, d: Document)
    requires Shares(a, b) && !MergeMints(a, b)
    ensures LinksOnlyLinked([a] + [b] + [d])
  {
    hide *;
    var k := SharedKey(a, b);
    var s, t := TwoInOne(a, b, k);
    MergeKeys(a, b);
    RunExtends([a] + [b], d);
    if m :| m in KeySet(d) && m in s.index {
      ThirdFolds(a, b, d, s, t, k, m);
    } else {
      ThirdOpens(a, b, d, s, t, k);
    }
  }

  lemma {:induction false} OpensSecond(s: State, t: Tree, d: Document)
    requires InRange(s) && s.slots == [Some(t)] && forall m :: m in KeySet(d) ==> m !in s.index
    ensures Step(s, 2, d).slots == [Some(t), Some(Leaf(2, d))]
  {
    hide KeySet;
    SortedIndexesFacts(Matched(s, d));
    assert Matched(s, d) == {};
  }

  lemma {:induction false} LeavesOfTwo(a: Document, b: Document, d: Document)
    ensures LeavesAt(Some(Node(Leaf(0, a), Leaf(1, b)))) == {0, 1} && LeavesAt(Some(Leaf(2, d))) == {2}
  {
    assert Leaves(Leaf(0, a)) == {0} && Leaves(Leaf(1, b)) == {1} && Leaves(Leaf(2, d)) == {2};
  }

  lemma {:induction false} OnlySlot(docs: seq<Document>, t: Tree)
    requires Run(docs).slots == [Some(t)] && AllLinked(docs, LeavesAt(Some(t)))
    ensures LinksOnlyLinked(docs)
  {
    hide Run, LeavesAt, Linked;
  }

  lemma {:induction false} TwoSlots(docs: seq<Document>, t: Tree, u: Tree)
    requires Run(docs).slots == [Some(t), Some(u)]
    requires AllLinked(docs, LeavesAt(Some(t))) && AllLinked(docs, LeavesAt(Some(u)))
    ensures LinksOnlyLinked(docs)
  {
    hide Run, LeavesAt, Linked;
  }

  lemma {:induction false} HolderIsUnlinked(a: Document, b: Document)
    requires Shares(a, b) && MergeMints(a, b)
    ensures !LinksOnlyLinked([a] + [b] + [Holder(a, b)])
  {
    var k :| k in KeySet(a) && k in KeySet(b);
    HolderKeys(a, b);
    var m :| m in KeySet(Merge(a, b)) && m in KeySet(Holder(a, b));
    hide KeySet, Merge, Holder, MergeMints, Linked, Run;
    UnrelatedFolded(a, b, Holder(a, b), k, m);
  }

  /** Soundness, exactly: whatever document arrives after two that share a key, it is folded in
      only if it is linked to them, if and only if the merge of the two does not take over an id
      from another source. */
  lemma {:induction false} SoundForEveryThirdIff(a: Document, b: Document)
    requires Shares(a, b)
    ensures (forall d :: LinksOnlyLinked([a] + [b] + [d])) <==> !MergeMints(a, b)
  {
    hide LinksOnlyLinked, MergeMints, Shares;
    if MergeMints(a, b) {
      HolderIsUnlinked(a, b);
    } else {
      forall d
        ensures LinksOnlyLinked([a] + [b] + [d])
      {
        ThirdIsLinked(a, b, d);
      }
    }
  }

  /** Idempotence, exactly: whatever earlier document there is that shares no key with two that
      share one, a second pass changes nothing, if and only if the merge of the two does not take
      over an id from another source. */
  lemma {:induction false} IdempotentForEveryEarlierIff(a: Document, b: Document)
    requires Shares(a, b)
    ensures (forall c :: Apart(c, a, b) ==> DedupChangesNothing(Survivors([c, a] + [b]))) <==> !MergeMints(a, b)
  {
    if MergeMints(a, b) {
      HolderKeys(a, b);
      var m :| m in KeySet(Merge(a, b)) && m in KeySet(Holder(a, b));
      hide KeySet, Merge, Holder, DedupChangesNothing, Survivors, Shares;
      MintedKeyIsShared(Holder(a, b), a, b, m);
      assert Apart(Holder(a, b), a, b);
    } else {
      MergeKeys(a, b);
      hide KeySet, Merge, DedupChangesNothing, Survivors, Shares;
      forall c | Apart(c, a, b)
        ensures DedupChangesNothing(Survivors([c, a] + [b]))
      {
        MatchesSecond(c, a, b);
        RunOfThree([c, a], b);
        DisjointPairSurvives([c, a] + [b], [c, Merge(a, b)]);
      }
    }
  }

  predicate Apart(c: Document, a: Document, b: Document) {
    KeySet(c) !! KeySet(a) && KeySet(c) !! KeySet(b)
  }

  /** Without the condition unrelated inputs can be folded together: a concrete input whose third
      document shares no key with the others and still ends up in their slot. */
  lemma {:induction false} MintingBreaksSoundness()
    ensures var docs := UnsoundInput();
      && !NoMinting(docs) && Run(docs).slots != []
      && {0, 1, 2} <= LeavesAt(Run(docs).slots[0]) && !Linked(docs, 0, 2)
  {
    hide *;
    var a, b, d := UnsoundKeys();
    UnrelatedFolded(a, b, d, TitleKey("p"), SourceIdKey("a", "x"));
    MintsIn([a] + [b] + [d], 0, 1);
  }

  lemma {:induction false} MintsIn(docs: seq<Document>, i: nat, j: nat)
    requires i < |docs| && j < |docs| && CanMint(docs[i], docs[j])
    ensures !NoMinting(docs)
  {
  }
}
